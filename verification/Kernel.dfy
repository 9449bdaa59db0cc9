/** Descriptors as the operating system hands them out.  A connection is known by its place in the
    sequence of all connections ever accepted; its descriptor number may be given to a later
    connection once it has been closed. */
module Kernel {
  import opened Common

  datatype Endpoint = Endpoint(fd: int, open: bool)

  /** The open connection that descriptor number fd names at this moment, if any. */
  function Resolve(socks: seq<Endpoint>, fd: int): (r: Option<nat>)
    ensures r.Some? ==> r.value < |socks| && socks[r.value] == Endpoint(fd, true)
    ensures r.None? ==> forall c :: 0 <= c < |socks| && socks[c].open ==> socks[c].fd != fd
  {
    var n := |socks|;
    if n == 0 then None
    else if socks[n - 1] == Endpoint(fd, true) then Some(n - 1)
    else Resolve(socks[..n - 1], fd)
  }

  /** No two open connections share a descriptor, and descriptors are positive. */
  ghost predicate Sound(socks: seq<Endpoint>) {
    && (forall c :: 0 <= c < |socks| ==> socks[c].fd > 0)
    && forall c, d :: 0 <= c < d < |socks| && socks[c].open && socks[d].open ==> socks[c].fd != socks[d].fd
  }

  /** accept: the next connection, under a positive descriptor that is not open. */
  function Accept(socks: seq<Endpoint>, fd: int): seq<Endpoint> {
    socks + [Endpoint(fd, true)]
  }

  predicate CanAccept(socks: seq<Endpoint>, fd: int) {
    fd > 0 && Resolve(socks, fd).None?
  }

  function Close(socks: seq<Endpoint>, c: nat): seq<Endpoint>
    requires c < |socks|
  {
    socks[c := socks[c].(open := false)]
  }

  /** What accept and close do to the meaning of descriptor numbers: accepting names one new
      connection and renames nobody; closing un-names exactly the closed connection. */
  lemma AcceptResolve(socks: seq<Endpoint>, fd: int, x: int)
    requires Sound(socks) && CanAccept(socks, fd)
    ensures Sound(Accept(socks, fd))
    ensures Resolve(Accept(socks, fd), x) == if x == fd then Some(|socks|) else Resolve(socks, x)
  {
  }

  lemma CloseResolve(socks: seq<Endpoint>, c: nat, x: int)
    requires Sound(socks) && c < |socks| && socks[c].open
    ensures Sound(Close(socks, c))
    ensures Resolve(Close(socks, c), x) == if x == socks[c].fd then None else Resolve(socks, x)
  {
    var after := Close(socks, c);
    var r, r' := Resolve(socks, x), Resolve(after, x);
    if r.Some? && x != socks[c].fd {
      assert after[r.value] == socks[r.value];
    }
    if r'.Some? {
      assert r'.value != c && after[r'.value] == socks[r'.value];
    }
  }

  lemma ResolveOwn(socks: seq<Endpoint>, c: nat)
    requires Sound(socks) && c < |socks| && socks[c].open
    ensures Resolve(socks, socks[c].fd) == Some(c)
  {
  }
}
