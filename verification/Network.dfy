/** A connected TCP socket as its owner sees it: a reliable byte stream in each direction, on which a
    call may move any part of what it is asked to move, or fail.  What is called history records the calls
    made and decides nothing. */
module Network {
  import opened Common

  class Socket {
    /** What the peer sends before it closes and has not been received here yet. */
    var input: Bytes
    /** What has been handed over for sending so far. */
    var output: Bytes
    /** History: a call has failed. */
    var broken: bool
    /** History: a send has taken less than it was given. */
    var cut: bool
    /** History: how much each receive asked for. */
    var asks: seq<nat>

    constructor (incoming: Bytes)
      ensures input == incoming && output == [] && !broken && !cut && asks == []
    {
      input, output, broken, cut, asks := incoming, [], false, false, [];
    }

    /** Receives between 1 and len bytes into buf at off; 0 only when the peer has closed; -1 on error. */
    method Recv(buf: array<byte>, off: nat, len: nat) returns (r: int)
      requires 0 < len && off + len <= buf.Length
      modifies this`input, this`broken, this`asks, buf
      ensures -1 <= r <= len
      ensures broken == (old(broken) || r < 0) && asks == old(asks) + [len]
      ensures r > 0 ==> r <= |old(input)| && input == old(input)[r..]
                        && buf[..] == old(buf[..off]) + old(input)[..r] + old(buf[off + r..])
      ensures r <= 0 ==> input == old(input) && buf[..] == old(buf[..])
      ensures r == 0 ==> input == []
    {
      asks := asks + [len];
      if * {
        broken := true;
        return -1;
      }
      if input == [] {
        return 0;
      }
      r :| 1 <= r && r <= len && r <= |input|;
      forall k | 0 <= k < r {
        buf[off + k] := input[k];
      }
      input := input[r..];
    }

    /** Hands over between 1 and len of the bytes of buf at off, or fails. */
    method Send(buf: array<byte>, off: nat, len: nat) returns (s: int)
      requires 0 < len && off + len <= buf.Length
      modifies this`output, this`broken, this`cut
      ensures s == -1 || 1 <= s <= len
      ensures broken == (old(broken) || s < 0) && cut == (old(cut) || 0 < s < len)
      ensures s > 0 ==> output == old(output) + buf[off..off + s]
      ensures s <= 0 ==> output == old(output)
    {
      if * {
        broken := true;
        return -1;
      }
      s :| 1 <= s && s <= len;
      cut := cut || s < len;
      output := output + buf[off..off + s];
    }
  }

  /** A new buffer holding the given bytes. */
  method BufferOf(data: Bytes) returns (buf: array<byte>)
    ensures fresh(buf) && buf[..] == data
  {
    buf := new byte[|data|](i requires 0 <= i < |data| => data[i]);
  }

  /** Hands over exactly len bytes, however many a call takes; only if a call fails it hands over less and
      reports the error. */
  method SendAll(c: Socket, buf: array<byte>, len: nat) returns (result: int)
    requires len <= buf.Length
    modifies c`output, c`broken, c`cut
    ensures c.broken == (old(c.broken) || result != len)
    ensures result == len ==> c.output == old(c.output) + buf[..len]
    ensures result != len ==> result == -1 && old(c.output) <= c.output <= old(c.output) + buf[..len]
  {
    var t := 0;
    while t < len
      invariant 0 <= t <= len
      invariant c.output == old(c.output) + buf[..t] && c.broken == old(c.broken)
    {
      var s := c.Send(buf, t, len - t);
      if s <= 0 {
        assert buf[..t] <= buf[..len];
        return s;
      }
      t := t + s;
    }
    return t;
  }

  /** A piece of the stream is sent on after what was sent before. */
  lemma Forwarded(before: Bytes, done: Bytes, piece: Bytes, rest: Bytes)
    ensures before + done + piece == before + (done + piece)
    ensures before + done <= before + done + piece <= before + (done + piece + rest)
  {
  }

  lemma NextPart(data: Bytes, pos: nat, n: nat)
    requires pos + n <= |data|
    ensures data[..pos] + data[pos..pos + n] == data[..pos + n]
    ensures data[..pos + n] + data[pos + n..] == data
  {
  }

  lemma Regroup(done: Bytes, piece: Bytes, rest: Bytes)
    ensures done + (piece + rest) == done + piece + rest
  {
  }

  /** One send that is to take its whole message: it does, or a call has failed or fallen short. */
  method SendWhole(c: Socket, buf: array<byte>, n: nat) returns (ok: bool)
    requires 0 < n <= buf.Length
    modifies c`output, c`broken, c`cut
    ensures ok ==> c.broken == old(c.broken) && c.cut == old(c.cut)
    ensures !ok ==> c.broken || c.cut
    ensures ok ==> c.output == old(c.output) + buf[..n]
    ensures old(c.output) <= c.output <= old(c.output) + buf[..n]
  {
    var s := c.Send(buf, 0, n);
    assert s > 0 ==> buf[0..s] <= buf[..n];
    ok := s == n;
  }

  /** One receive of at most len bytes into a buffer from its beginning. */
  method RecvMsg(c: Socket, buf: array<byte>, len: nat) returns (n: int)
    requires 0 < len <= buf.Length
    modifies c`input, c`broken, c`asks, buf
    ensures -1 <= n <= len
    ensures c.broken == (old(c.broken) || n < 0) && c.asks == old(c.asks) + [len]
    ensures n < 0 ==> c.input == old(c.input)
    ensures n >= 0 ==> old(c.input) == buf[..n] + c.input
    ensures n == 0 ==> c.input == []
  {
    n := c.Recv(buf, 0, len);
    assert n > 0 ==> buf[..n] == old(c.input)[..n];
  }
}
