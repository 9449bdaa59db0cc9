/** A log of things sent, each to somebody, and what one of them has been sent: shared by the chat
    servers. */
module Mail {
  import opened Common

  datatype Letter<A, B> = Letter(to: A, what: B)

  /** What a has been sent among the first n letters, in order. */
  function InboxOf<A(==), B>(log: seq<Letter<A, B>>, a: A, n: nat): seq<B>
    requires n <= |log|
  {
    if n == 0 then []
    else if log[n - 1].to == a then InboxOf(log, a, n - 1) + [log[n - 1].what]
    else InboxOf(log, a, n - 1)
  }

  function Inbox<A(==), B>(log: seq<Letter<A, B>>, a: A): seq<B> {
    InboxOf(log, a, |log|)
  }

  lemma {:induction false} InboxOfFirst<A, B>(x: seq<Letter<A, B>>, y: seq<Letter<A, B>>, a: A, n: nat)
    requires n <= |x|
    ensures InboxOf(x + y, a, n) == InboxOf(x, a, n)
  {
    if n > 0 { InboxOfFirst(x, y, a, n - 1); }
  }

  lemma {:induction false} InboxOfSecond<A, B>(x: seq<Letter<A, B>>, y: seq<Letter<A, B>>, a: A, n: nat)
    requires n <= |y|
    ensures InboxOf(x + y, a, |x| + n) == Inbox(x, a) + InboxOf(y, a, n)
  {
    if n == 0 {
      InboxOfFirst(x, y, a, |x|);
    } else {
      InboxOfSecond(x, y, a, n - 1);
      assert (x + y)[|x| + n - 1] == y[n - 1];
    }
  }

  lemma InboxConcat<A, B>(x: seq<Letter<A, B>>, y: seq<Letter<A, B>>, a: A)
    ensures Inbox(x + y, a) == Inbox(x, a) + Inbox(y, a)
  {
    InboxOfSecond(x, y, a, |y|);
  }

  lemma InboxOfOne<A, B>(d: Letter<A, B>, a: A)
    ensures Inbox([d], a) == if d.to == a then [d.what] else []
  {
    assert InboxOf([d], a, 0) == [];
  }

  lemma InboxStep<A, B>(log: seq<Letter<A, B>>, d: Letter<A, B>, a: A)
    ensures Inbox(log + [d], a) == if d.to == a then Inbox(log, a) + [d.what] else Inbox(log, a)
  {
    InboxConcat(log, [d], a);
    InboxOfOne(d, a);
  }
}
