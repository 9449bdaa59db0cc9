/** Small shared vocabulary: optional values, bytes, and the first position of a value in a sequence. */
module Common {

  datatype Option<+T> = None | Some(value: T)

  type byte = b: int | 0 <= b < 256

  type Bytes = seq<byte>

  /** The first position of x in s, or |s| when s does not hold x. */
  function IndexOf<T(==)>(s: seq<T>, x: T): (i: nat)
    ensures i <= |s|
    ensures i < |s| ==> s[i] == x
    ensures forall j :: 0 <= j < i ==> s[j] != x
  {
    if s == [] || s[0] == x then 0 else 1 + IndexOf(s[1..], x)
  }

  lemma IndexOfAppend<T>(s: seq<T>, y: T, x: T)
    ensures IndexOf(s + [y], x) == if IndexOf(s, x) < |s| then IndexOf(s, x) else if x == y then |s| else |s| + 1
  {
    var i, j := IndexOf(s, x), IndexOf(s + [y], x);
    if i < |s| { assert (s + [y])[i] == x; } else if x == y { assert (s + [y])[|s|] == x; }
    if j < |s| { assert s[j] == (s + [y])[j]; }
  }

  function Last<T>(s: seq<T>): T
    requires |s| > 0
  {
    s[|s| - 1]
  }

  function Min(a: int, b: int): int {
    if a <= b then a else b
  }

  predicate Distinct<T(==)>(s: seq<T>) {
    forall i, j :: 0 <= i < j < |s| ==> s[i] != s[j]
  }

  function Without<T>(s: seq<T>, i: nat): (r: seq<T>)
    requires i < |s|
  {
    s[..i] + s[i + 1..]
  }

  /** x is among the first n elements of s. */
  predicate Among<T(==)>(s: seq<T>, n: nat, x: T)
    requires n <= |s|
  {
    exists i :: 0 <= i < n && s[i] == x
  }

  lemma AmongNext<T>(s: seq<T>, n: nat, x: T)
    requires n < |s|
    ensures Among(s, n + 1, x) <==> Among(s, n, x) || s[n] == x
  {
  }
}
