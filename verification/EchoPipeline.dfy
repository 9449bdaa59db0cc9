/** The echo client against the echo server (Test_Code/tcp_echo_client.c,
    Test_Code/tcp_echo_server_multithread.c), an instance of the TCP based echo service of RFC 862.

    Client, server thread and connection form one transition system: a send hands over its whole
    message, a receive takes any non-empty part of what has arrived that fits the buffer. */
module EchoPipeline {
  import opened Common
  import opened Network

  const RCVBUFSIZE: nat := 32

  /** buffer is what the server has received and not yet sent back. */
  datatype State = State(up: Bytes, buffer: Bytes, down: Bytes, got: Bytes, closed: bool, dead: bool)

  datatype Event =
    | ServerReceives(k: nat)
    | ServerSends
    | ClientReceives(k: nat)
    | ClientCloses
    | Dies

  /** The client has sent its string. */
  function Start(text: Bytes): State {
    State(text, [], [], [], false, false)
  }

  function Apply(text: Bytes, s: State, e: Event): State {
    if s.dead then s else
    match e
    case ServerReceives(k) =>
      if s.buffer != [] || k == 0 || k > |s.up| || k > RCVBUFSIZE then s
      else s.(buffer := s.up[..k], up := s.up[k..])
    case ServerSends =>
      s.(down := s.down + s.buffer, buffer := [])
    case ClientReceives(k) =>
      if |s.got| >= |text| || k == 0 || k > |s.down| || k > RCVBUFSIZE - 1 then s
      else s.(got := s.got + s.down[..k], down := s.down[k..])
    case ClientCloses =>
      if |s.got| >= |text| then s.(closed := true) else s
    case Dies => s.(dead := true)
  }

  function Run(text: Bytes, es: seq<Event>): State {
    if es == [] then Start(text) else Apply(text, Run(text, es[..|es| - 1]), Last(es))
  }

  lemma StepConserves(text: Bytes, s: State, e: Event)
    requires s.got + s.down + s.buffer + s.up == text
    ensures var s' := Apply(text, s, e); s'.got + s'.down + s'.buffer + s'.up == text
  {
  }

  /** At every step, for every segmentation: the string is what the client has back, what is on its way
      back, what the server holds and what is on its way out, in this order.  So the client never has
      more than it sent, and when its loop ends it has exactly the string and the pipeline is empty. */
  lemma {:induction false} EchoConserves(text: Bytes, es: seq<Event>)
    ensures var s := Run(text, es); s.got + s.down + s.buffer + s.up == text
    ensures |Run(text, es).got| <= |text|
    ensures Run(text, es).closed ==> Run(text, es) == State([], [], [], text, true, Run(text, es).dead)
  {
    if es != [] {
      EchoConserves(text, es[..|es| - 1]);
      StepConserves(text, Run(text, es[..|es| - 1]), Last(es));
    }
  }

  /** What is still to be moved, weighted by how far it has to go. */
  function Distance(s: State): nat {
    3 * |s.up| + 2 * |s.buffer| + |s.down|
  }

  /** Until the client has its string back somebody can move, and every move lowers the distance. */
  lemma EchoProgresses(text: Bytes, es: seq<Event>) returns (e: Event)
    requires var s := Run(text, es); !s.dead && |s.got| < |text|
    ensures e.ServerReceives? || e == ServerSends || e.ClientReceives?
    ensures Distance(Run(text, es + [e])) < Distance(Run(text, es))
  {
    EchoConserves(text, es);
    var s := Run(text, es);
    e := if s.buffer != [] then ServerSends else if s.up != [] then ServerReceives(1) else ClientReceives(1);
    assert (es + [e])[..|es|] == es;
    if s.buffer == [] && s.up == [] {
      assert |s.got + s.down + s.buffer + s.up| == |s.got| + |s.down|;
    }
  }

  /** So from every live reachable state the client can come to its end, with exactly its string. */
  lemma {:induction false} EchoEnds(text: Bytes, es: seq<Event>) returns (whole: seq<Event>)
    requires !Run(text, es).dead
    ensures es <= whole && Run(text, whole).closed && Run(text, whole).got == text && !Run(text, whole).dead
    decreases Distance(Run(text, es))
  {
    EchoConserves(text, es);
    if |Run(text, es).got| < |text| {
      var e := EchoProgresses(text, es);
      assert (es + [e])[..|es|] == es;
      whole := EchoEnds(text, es + [e]);
    } else {
      whole := es + [ClientCloses];
      assert whole[..|es|] == es;
      EchoConserves(text, whole);
    }
  }

  /** Any cut is possible: each receive may get any part of what has arrived that fits its buffer. */
  lemma AnyCutIsPossible(text: Bytes, s: State, k: nat)
    requires !s.dead && k > 0
    ensures s.buffer == [] && k <= |s.up| && k <= 32 ==>
              var t := Apply(text, s, ServerReceives(k)); t.buffer + t.up == s.up && |t.buffer| == k
    ensures |s.got| < |text| && k <= |s.down| && k <= 31 ==>
              var t := Apply(text, s, ClientReceives(k)); t.got + t.down == s.got + s.down && |t.got| == |s.got| + k
    ensures Apply(text, s, Dies).dead
  {
  }

  lemma MovesLowerDistance(text: Bytes, s: State, e: Event)
    requires Apply(text, s, e) != s && e != Dies && e != ClientCloses
    ensures Distance(Apply(text, s, e)) < Distance(s)
  {
  }

  // ---------------------------------------------------------------------------------------------
  // The loops
  // ---------------------------------------------------------------------------------------------

  /** The server's HandleTCPClient: unless a call fails, or a send does not take its whole message, it sends
      back all the client sends, until the client closes. */
  method HandleTCPClient(c: Socket) returns (died: bool)
    modifies c
    ensures died ==> c.broken || c.cut
    ensures !died ==> c.broken == old(c.broken) && c.cut == old(c.cut)
    ensures !died ==> c.input == [] && c.output == old(c.output) + old(c.input)
    ensures old(c.output) <= c.output <= old(c.output) + old(c.input)
  {
    var echoBuffer := new byte[RCVBUFSIZE](_ => 0);
    ghost var incoming, before, done: Bytes := c.input, c.output, [];
    var recvMsgSize := RecvMsg(c, echoBuffer, RCVBUFSIZE);
    if recvMsgSize < 0 {
      return true;
    }
    while recvMsgSize > 0
      invariant 0 <= recvMsgSize <= RCVBUFSIZE
      invariant incoming == done + echoBuffer[..recvMsgSize] + c.input
      invariant c.output == before + done
      invariant recvMsgSize == 0 ==> c.input == []
      invariant c.broken == old(c.broken) && c.cut == old(c.cut)
      decreases |c.input| + recvMsgSize
    {
      ghost var piece := echoBuffer[..recvMsgSize];
      Forwarded(before, done, piece, c.input);
      var ok := SendWhole(c, echoBuffer, recvMsgSize);
      if !ok {
        return true;
      }
      done := done + piece;
      recvMsgSize := RecvMsg(c, echoBuffer, RCVBUFSIZE);
      if recvMsgSize < 0 {
        return true;
      }
      Regroup(done, echoBuffer[..recvMsgSize], c.input);
    }
    died := false;
  }

  /** The client after its connect: it sends its string whole and reads until it has had as many bytes
      back.  It dies only if a call fails, the send falls short or the server closes too early. */
  method Echo(c: Socket, text: Bytes) returns (received: Bytes, died: bool)
    modifies c
    ensures received + c.input == old(c.input)
    ensures !died ==> c.output == old(c.output) + text && |text| <= |received| < |text| + RCVBUFSIZE - 1
    ensures died ==> c.broken || c.cut || (c.output == old(c.output) + text && |old(c.input)| < |text|)
    ensures !died ==> c.broken == old(c.broken) && c.cut == old(c.cut)
  {
    received := [];
    if |text| > 0 {
      var echoString := BufferOf(text);
      var ok := SendWhole(c, echoString, |text|);
      if !ok {
        return received, true;
      }
    }
    var echoBuffer := new byte[RCVBUFSIZE](_ => 0);
    var totalBytesRcvd := 0;
    while totalBytesRcvd < |text|
      invariant totalBytesRcvd == |received|
      invariant received + c.input == old(c.input)
      invariant totalBytesRcvd < |text| + RCVBUFSIZE - 1
      invariant c.output == old(c.output) + text
      invariant c.broken == old(c.broken) && c.cut == old(c.cut)
      decreases |c.input|
    {
      var bytesRcvd := RecvMsg(c, echoBuffer, RCVBUFSIZE - 1);
      if bytesRcvd <= 0 {
        return received, true;
      }
      totalBytesRcvd := totalBytesRcvd + bytesRcvd;
      Regroup(received, echoBuffer[..bytesRcvd], c.input);
      received := received + echoBuffer[..bytesRcvd];
    }
    died := false;
  }
}
