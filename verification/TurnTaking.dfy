/** The turn-taking chat over TCP (Test_Code/tcp_chat_turntaking_client.c,
    Test_Code/tcp_chat_turntaking_server.c), in both of its modes: the client speaks first and the
    server echoes, or the server speaks first and both users type.

    Client, server and the two directions of the connection form one transition system in which every
    send and receive moves any number of bytes. */
module TurnTaking {
  import opened Common
  import opened Network

  const QUIT: Bytes := [113, 117, 105, 116]
  const B: nat := 512

  datatype Mode = ClientFirst | ServerFirst

  /** Where a program stands in its loop; rest is what its send loop has still to hand over. */
  datatype Pc = Prompt | Sending(rest: Bytes) | Receiving | Done

  /** The rest is history: the lines typed by each user, what each program has handed over in all and
      what each has received in all. */
  datatype State = State(
    client: Pc,
    server: Pc,
    up: Bytes,
    down: Bytes,
    clientLines: seq<Bytes>,
    serverLines: seq<Bytes>,
    clientSaid: Bytes,
    serverSaid: Bytes,
    clientHeard: Bytes,
    serverHeard: Bytes)

  /** A line is what remains of the user's input once the newline is cut off. */
  datatype Event =
    | ClientLine(line: Bytes)
    | ClientStops
    | ClientSends(k: nat)
    | ClientReceives(k: nat)
    | ServerLine(text: Bytes)
    | ServerStops
    | ServerSends(k: nat)
    | ServerReceives(k: nat)

  function Start(mode: Mode): State {
    var (client, server) := if mode.ClientFirst? then (Prompt, Receiving) else (Receiving, Prompt);
    State(client, server, [], [], [], [], [], [], [], [])
  }

  /** The send loop: on handing over the last byte the program turns to receiving. */
  function AfterSend(rest: Bytes, k: nat): Pc
    requires k <= |rest|
  {
    if k == |rest| then Receiving else Sending(rest[k..])
  }

  predicate CanSend(pc: Pc, k: nat) {
    pc.Sending? && 0 < k <= |pc.rest|
  }

  predicate CanReceive(pc: Pc, channel: Bytes, k: nat) {
    pc == Receiving && 0 < k <= |channel| && k < B
  }

  function AfterClientLine(mode: Mode, line: Bytes): Pc {
    if line == [] then if mode.ClientFirst? then Prompt else Receiving
    else if line == QUIT then Done
    else Sending(line)
  }

  /** ClientStops and ServerStops stand for the end of a user's input, the peer's close and any failing
      call: each ends the program's loop. */
  function Apply(mode: Mode, s: State, e: Event): State {
    match e
    case ClientLine(line) =>
      if s.client != Prompt then s
      else s.(client := AfterClientLine(mode, line), clientLines := s.clientLines + [line])
    case ClientSends(k) =>
      if !CanSend(s.client, k) then s
      else
        var data := s.client.rest[..k];
        s.(client := AfterSend(s.client.rest, k), up := s.up + data, clientSaid := s.clientSaid + data)
    case ClientReceives(k) =>
      if !CanReceive(s.client, s.down, k) then s
      else s.(client := Prompt, down := s.down[k..], clientHeard := s.clientHeard + s.down[..k])
    case ServerLine(text) =>
      if mode.ClientFirst? || s.server != Prompt then s
      else s.(server := if text == [] then Prompt else Sending(text), serverLines := s.serverLines + [text])
    case ServerSends(k) =>
      if !CanSend(s.server, k) then s
      else
        var data := s.server.rest[..k];
        s.(server := AfterSend(s.server.rest, k), down := s.down + data, serverSaid := s.serverSaid + data)
    case ServerReceives(k) =>
      if !CanReceive(s.server, s.up, k) then s
      else s.(server := if mode.ClientFirst? then Sending(s.up[..k]) else Prompt,
              up := s.up[k..], serverHeard := s.serverHeard + s.up[..k])
    case ClientStops => s.(client := Done)
    case ServerStops => s.(server := Done)
  }

  function Run(mode: Mode, es: seq<Event>): State {
    if es == [] then Start(mode) else Apply(mode, Run(mode, es[..|es| - 1]), Last(es))
  }

  /** Both programs wait for bytes, and there are none. */
  predicate Deadlocked(s: State) {
    s.client == Receiving && s.server == Receiving && s.up == [] && s.down == []
  }

  /** Somebody has something to do, or there is something to receive. */
  predicate TurnAlive(mode: Mode, s: State) {
    || s.up != [] || s.down != []
    || (if mode.ClientFirst? then s.server.Sending? || s.server == Done
        else s.client == Prompt || s.client.Sending? || s.client == Done)
  }

  /** Whoever spoke last and waits for the answer has not spoken into the void: the turn is somewhere.
      Client-first that always holds; server-first an empty reply can lose it. */
  ghost predicate TurnKept(mode: Mode, s: State) {
    && (s.client.Sending? ==> s.client.rest != [])
    && (s.server.Sending? ==> s.server.rest != [])
    && (mode.ClientFirst? ==> s.server != Prompt)
    && (mode.ClientFirst? && s.client == Receiving ==> TurnAlive(mode, s))
    && (mode.ServerFirst? && s.server == Receiving ==> TurnAlive(mode, s) || Deadlocked(s))
  }

  lemma RunAppend(mode: Mode, es: seq<Event>, e: Event)
    ensures Run(mode, es + [e]) == Apply(mode, Run(mode, es), e)
  {
  }

  lemma {:induction false} RunKeepsTurn(mode: Mode, es: seq<Event>)
    ensures TurnKept(mode, Run(mode, es))
  {
    if es != [] { RunKeepsTurn(mode, es[..|es| - 1]); }
  }

  /** Client-first the chat never deadlocks, however the bytes are cut up and whatever is typed. */
  lemma ClientFirstNeverDeadlocks(es: seq<Event>)
    ensures !Deadlocked(Run(ClientFirst, es))
  {
    RunKeepsTurn(ClientFirst, es);
  }

  /** The client's user gives an empty reply while nothing is under way and the server waits. */
  predicate LosesTurn(s: State, e: Event) {
    e == ClientLine([]) && s.client == Prompt && s.server == Receiving && s.up == [] && s.down == []
  }

  /** Server-first a step enters deadlock exactly when it loses the turn. */
  lemma ServerFirstDeadlockStep(es: seq<Event>, e: Event)
    requires !Deadlocked(Run(ServerFirst, es))
    ensures Deadlocked(Run(ServerFirst, es + [e])) <==> LosesTurn(Run(ServerFirst, es), e)
  {
  }

  /** The turn was lost at step i, and neither program has been stopped since. */
  predicate LostAt(es: seq<Event>, i: nat) {
    i < |es| && LosesTurn(Run(ServerFirst, es[..i]), es[i])
    && forall j :: i < j < |es| ==> es[j] != ClientStops && es[j] != ServerStops
  }

  /** Server-first a run ends in deadlock exactly when the turn was lost for good. */
  lemma {:induction false} ServerFirstDeadlocksExactly(es: seq<Event>)
    ensures Deadlocked(Run(ServerFirst, es)) <==> exists i :: LostAt(es, i)
  {
    if es != [] {
      var n, before, e := |es| - 1, es[..|es| - 1], Last(es);
      assert es == before + [e];
      RunAppend(ServerFirst, before, e);
      ServerFirstDeadlocksExactly(before);
      forall i: nat | i < n ensures es[..i] == before[..i] { }
      if Deadlocked(Run(ServerFirst, before)) {
        var i :| LostAt(before, i);
        if e != ClientStops && e != ServerStops { assert LostAt(es, i); }
      } else {
        ServerFirstDeadlockStep(before, e);
        if LosesTurn(Run(ServerFirst, before), e) { assert LostAt(es, n); }
      }
      forall i | LostAt(es, i) ensures i == n || LostAt(before, i) { }
    }
  }

  /** So without empty replies it never deadlocks. */
  lemma ServerFirstNeverDeadlocks(es: seq<Event>)
    requires forall i :: 0 <= i < |es| ==> es[i] != ClientLine([])
    ensures !Deadlocked(Run(ServerFirst, es))
  {
    ServerFirstDeadlocksExactly(es);
  }

  /** And with one it can, after any first line of the server; neither program then moves again unless
      one of them is stopped. */
  lemma EmptyReplyDeadlocks(text: Bytes) returns (es: seq<Event>)
    requires 0 < |text| < B
    ensures Deadlocked(Run(ServerFirst, es)) && |es| == 4 && es[0] == ServerLine(text) && es[3] == ClientLine([])
    ensures forall e :: e != ClientStops && e != ServerStops ==>
              Apply(ServerFirst, Run(ServerFirst, es), e) == Run(ServerFirst, es)
  {
    var e1 := [ServerLine(text)];
    var e2 := e1 + [ServerSends(|text|)];
    var e3 := e2 + [ClientReceives(|text|)];
    es := e3 + [ClientLine([])];
    assert [] + [ServerLine(text)] == e1;
    RunAppend(ServerFirst, [], ServerLine(text));
    RunAppend(ServerFirst, e1, ServerSends(|text|));
    RunAppend(ServerFirst, e2, ClientReceives(|text|));
    RunAppend(ServerFirst, e3, ClientLine([]));
    assert Run(ServerFirst, e2).down == text[..|text|] == text;
  }

  /** As long as no user is being asked and no program has ended, bytes can move, unless the turn is lost. */
  lemma TurnGoesOn(mode: Mode, es: seq<Event>) returns (e: Event)
    requires var s := Run(mode, es);
             && !Deadlocked(s)
             && s.client != Prompt && s.server != Prompt && s.client != Done && s.server != Done
    ensures e == ClientSends(1) || e == ServerSends(1) || e == ClientReceives(1) || e == ServerReceives(1)
    ensures Apply(mode, Run(mode, es), e) != Run(mode, es)
  {
    RunKeepsTurn(mode, es);
    var s := Run(mode, es);
    e := if s.client.Sending? then ClientSends(1)
         else if s.server.Sending? then ServerSends(1)
         else if s.up != [] then ServerReceives(1)
         else ClientReceives(1);
    assert s.up != [] ==> s.up[1..] != s.up;
  }

  /** Any cut is possible: a send may hand over any part of what is left, and a receive get any part of
      what has arrived that fits the buffer. */
  lemma AnyCutIsPossible(mode: Mode, s: State, k: nat)
    requires k > 0
    ensures s.client.Sending? && k <= |s.client.rest| ==>
              Apply(mode, s, ClientSends(k)).up == s.up + s.client.rest[..k]
    ensures s.server.Sending? && k <= |s.server.rest| ==>
              Apply(mode, s, ServerSends(k)).down == s.down + s.server.rest[..k]
    ensures s.client == Receiving && k <= |s.down| && k <= 511 ==>
              s.down[..k] + Apply(mode, s, ClientReceives(k)).down == s.down
    ensures s.server == Receiving && k <= |s.up| && k <= 511 ==>
              s.up[..k] + Apply(mode, s, ServerReceives(k)).up == s.up
  {
  }

  // ---------------------------------------------------------------------------------------------
  // What is said and what is heard
  // ---------------------------------------------------------------------------------------------

  /** Whether a line ends a user's side of the chat: quit does for the client, nothing does for the server. */
  predicate Ends(line: Bytes, byClient: bool) {
    byClient && line == QUIT
  }

  /** What a program says when its user types these lines: the non-empty ones up to one that ends it. */
  function Spoken(lines: seq<Bytes>, byClient: bool): Bytes {
    if lines == [] || Ends(lines[0], byClient) then [] else lines[0] + Spoken(lines[1..], byClient)
  }

  /** None of the first n lines ends the user's side. */
  predicate GoesOn(lines: seq<Bytes>, n: nat, byClient: bool)
    requires n <= |lines|
  {
    forall k :: 0 <= k < n ==> !Ends(lines[k], byClient)
  }

  lemma {:induction false} SpokenStep(lines: seq<Bytes>, n: nat, byClient: bool)
    requires n < |lines| && GoesOn(lines, n, byClient)
    ensures Spoken(lines[..n + 1], byClient)
         == Spoken(lines[..n], byClient) + if Ends(lines[n], byClient) then [] else lines[n]
    ensures Ends(lines[n], byClient) ==> Spoken(lines, byClient) == Spoken(lines[..n], byClient)
    decreases n
  {
    if n > 0 {
      assert lines[..n][0] == lines[0] && lines[..n + 1][0] == lines[0];
      assert lines[..n + 1][1..] == lines[1..][..n] && lines[..n][1..] == lines[1..][..n - 1];
      SpokenStep(lines[1..], n - 1, byClient);
    } else {
      assert lines[..1][1..] == [];
    }
  }

  lemma {:induction false} SpokenPrefix(lines: seq<Bytes>, n: nat, byClient: bool)
    requires n <= |lines|
    ensures Spoken(lines[..n], byClient) <= Spoken(lines, byClient)
    decreases n
  {
    if n > 0 && !Ends(lines[0], byClient) {
      assert lines[..n][0] == lines[0] && lines[..n][1..] == lines[1..][..n - 1];
      SpokenPrefix(lines[1..], n - 1, byClient);
    }
  }

  lemma SpokenAppend(lines: seq<Bytes>, line: Bytes, byClient: bool)
    requires GoesOn(lines, |lines|, byClient)
    ensures Spoken(lines + [line], byClient)
         == Spoken(lines, byClient) + if Ends(line, byClient) then [] else line
  {
    var all := lines + [line];
    SpokenStep(all, |lines|, byClient);
    assert all[..|lines|] == lines && all[..|lines| + 1] == all;
  }

  /** What a program has yet to hand over. */
  function Pending(pc: Pc): Bytes {
    if pc.Sending? then pc.rest else []
  }

  /** A program has said what its user typed, but for what it is about to say or never will. */
  ghost predicate Speaks(pc: Pc, said: Bytes, lines: seq<Bytes>, byClient: bool) {
    && said <= Spoken(lines, byClient)
    && (pc != Done ==> said + Pending(pc) == Spoken(lines, byClient) && GoesOn(lines, |lines|, byClient))
  }

  lemma LineIsSpoken(said: Bytes, lines: seq<Bytes>, line: Bytes, byClient: bool, pc: Pc)
    requires Speaks(Prompt, said, lines, byClient)
    requires if Ends(line, byClient) then pc == Done else Pending(pc) == line && pc != Done
    ensures Speaks(pc, said, lines + [line], byClient)
  {
    SpokenAppend(lines, line, byClient);
    assert said + [] == said;
  }

  lemma SendIsSpoken(rest: Bytes, k: nat, said: Bytes, lines: seq<Bytes>, byClient: bool)
    requires Speaks(Sending(rest), said, lines, byClient) && k <= |rest|
    ensures Speaks(AfterSend(rest, k), said + rest[..k], lines, byClient)
  {
    assert said + rest == said + rest[..k] + rest[k..];
  }

  /** Neither direction loses, makes up or reorders bytes. */
  ghost predicate Carried(s: State) {
    s.clientSaid == s.serverHeard + s.up && s.serverSaid == s.clientHeard + s.down
  }

  /** The echoing server has sent back what it received, but for what it is about to send. */
  ghost predicate Echoes(s: State) {
    && s.serverSaid <= s.serverHeard
    && (s.server != Done ==> s.server != Prompt && s.serverSaid + Pending(s.server) == s.serverHeard)
  }

  ghost predicate Conversing(mode: Mode, s: State) {
    && Carried(s)
    && Speaks(s.client, s.clientSaid, s.clientLines, true)
    && if mode.ClientFirst? then Echoes(s) else Speaks(s.server, s.serverSaid, s.serverLines, false)
  }

  lemma ClientConverses(mode: Mode, s: State, e: Event)
    requires Conversing(mode, s) && (e.ClientLine? || e.ClientSends? || e == ClientStops)
    ensures Conversing(mode, Apply(mode, s, e))
  {
    match e
    case ClientLine(line) =>
      if s.client == Prompt {
        LineIsSpoken(s.clientSaid, s.clientLines, line, true, AfterClientLine(mode, line));
      }
    case ClientSends(k) =>
      if CanSend(s.client, k) {
        SendIsSpoken(s.client.rest, k, s.clientSaid, s.clientLines, true);
      }
    case ClientStops =>
  }

  lemma ServerConverses(mode: Mode, s: State, e: Event)
    requires Conversing(mode, s) && (e.ServerLine? || e.ServerSends? || e == ServerStops)
    ensures Conversing(mode, Apply(mode, s, e))
  {
    match e
    case ServerLine(text) =>
      if mode.ServerFirst? && s.server == Prompt {
        LineIsSpoken(s.serverSaid, s.serverLines, text, false, if text == [] then Prompt else Sending(text));
      }
    case ServerSends(k) =>
      if CanSend(s.server, k) {
        if mode.ServerFirst? {
          SendIsSpoken(s.server.rest, k, s.serverSaid, s.serverLines, false);
        } else {
          assert s.server.rest == s.server.rest[..k] + s.server.rest[k..];
        }
      }
    case ServerStops =>
  }

  lemma ReceivingConverses(mode: Mode, s: State, e: Event)
    requires Conversing(mode, s) && (e.ClientReceives? || e.ServerReceives?)
    ensures Conversing(mode, Apply(mode, s, e))
  {
  }

  /** Over every segmentation, in both modes: each side says what its user types, and what is said
      arrives. */
  lemma {:induction false} RunConverses(mode: Mode, es: seq<Event>)
    ensures Conversing(mode, Run(mode, es))
  {
    if es != [] {
      var s, e := Run(mode, es[..|es| - 1]), Last(es);
      RunConverses(mode, es[..|es| - 1]);
      if e.ClientReceives? || e.ServerReceives? {
        ReceivingConverses(mode, s, e);
      } else if e.ClientLine? || e.ClientSends? || e == ClientStops {
        ClientConverses(mode, s, e);
      } else {
        ServerConverses(mode, s, e);
      }
    }
  }

  /** Client-first the client hears its own words back: at every moment a prefix of what its user has
      typed, line after line up to quit, and all it has said once nothing is under way. */
  lemma ClientHearsItself(es: seq<Event>)
    ensures var s := Run(ClientFirst, es);
            && s.clientHeard <= s.clientSaid <= Spoken(s.clientLines, true)
            && (s.server == Receiving && s.up == [] && s.down == [] ==> s.clientHeard == s.clientSaid)
  {
    RunConverses(ClientFirst, es);
  }

  /** Server-first each user's words reach the other side in order. */
  lemma BothAreHeard(es: seq<Event>)
    ensures var s := Run(ServerFirst, es);
            s.clientHeard <= Spoken(s.serverLines, false) && s.serverHeard <= Spoken(s.clientLines, true)
  {
    RunConverses(ServerFirst, es);
  }

  /** The lines that found the client, and the leading server, asking for one. */
  function TypedAtClient(mode: Mode, es: seq<Event>): seq<Bytes> {
    if es == [] then []
    else
      var before, e := es[..|es| - 1], Last(es);
      TypedAtClient(mode, before) + if e.ClientLine? && Run(mode, before).client == Prompt then [e.line] else []
  }

  function TypedAtServer(mode: Mode, es: seq<Event>): seq<Bytes> {
    if es == [] then []
    else
      var before, e := es[..|es| - 1], Last(es);
      TypedAtServer(mode, before) +
      if mode.ServerFirst? && e.ServerLine? && Run(mode, before).server == Prompt then [e.text] else []
  }

  /** The client has typed quit. */
  predicate HasQuit(lines: seq<Bytes>) {
    exists i :: 0 <= i < |lines| && lines[i] == [113, 117, 105, 116]
  }

  lemma HasQuitNext(lines: seq<Bytes>, line: Bytes)
    ensures HasQuit(lines + [line]) <==> HasQuit(lines) || line == [113, 117, 105, 116]
  {
    var all := lines + [line];
    assert all[|lines|] == line;
    assert forall i :: 0 <= i < |lines| ==> all[i] == lines[i];
  }

  lemma ProgramsStep(mode: Mode, s: State, e: Event)
    ensures var s' := Apply(mode, s, e);
            && s'.clientLines == s.clientLines + (if e.ClientLine? && s.client == Prompt then [e.line] else [])
            && s'.serverLines == s.serverLines
                 + (if mode.ServerFirst? && e.ServerLine? && s.server == Prompt then [e.text] else [])
            && (s'.server == Done <==> s.server == Done || e == ServerStops)
            && (s'.client == Done <==>
                  s.client == Done || e == ClientStops || (s.client == Prompt && e == ClientLine([113, 117, 105, 116])))
  {
  }

  /** The lines are those typed, and a program ends only if it is stopped or, at the client, by quit. */
  lemma {:induction false} ProgramsAreAsDriven(mode: Mode, es: seq<Event>)
    ensures var s := Run(mode, es);
            && s.clientLines == TypedAtClient(mode, es) && s.serverLines == TypedAtServer(mode, es)
            && (s.server == Done <==> ServerStops in es)
            && (s.client == Done <==> ClientStops in es || HasQuit(s.clientLines))
  {
    if es != [] {
      var s, e := Run(mode, es[..|es| - 1]), Last(es);
      ProgramsAreAsDriven(mode, es[..|es| - 1]);
      ProgramsStep(mode, s, e);
      assert forall x :: x in es <==> x in es[..|es| - 1] || x == e;
      if e.ClientLine? { HasQuitNext(s.clientLines, e.line); }
      assert s.clientLines + [] == s.clientLines;
    }
  }

  // ---------------------------------------------------------------------------------------------
  // The loops
  // ---------------------------------------------------------------------------------------------

  /** The server's client-first loop: until the client closes or a call fails, what comes in goes out. */
  method ServeEcho(c: Socket) returns (closed: bool)
    modifies c
    ensures c.broken == (old(c.broken) || !closed)
    ensures closed ==> c.input == [] && c.output == old(c.output) + old(c.input)
    ensures old(c.output) <= c.output <= old(c.output) + old(c.input)
  {
    var buf := new byte[B](_ => 0);
    ghost var incoming, before, done: Bytes := c.input, c.output, [];
    while true
      invariant incoming == done + c.input && c.output == before + done
      invariant c.broken == old(c.broken)
      decreases |c.input|
    {
      var n := RecvMsg(c, buf, B - 1);
      if n <= 0 {
        return n == 0;
      }
      ghost var piece := buf[..n];
      Regroup(done, piece, c.input);
      Forwarded(before, done, piece, c.input);
      var sent := SendAll(c, buf, n);
      if sent != n {
        return false;
      }
      done := done + piece;
    }
  }

  /** Line n, once it is handed over, is the next part of what is said. */
  lemma SpokenNext(before: Bytes, lines: seq<Bytes>, n: nat, byClient: bool)
    requires n < |lines| && GoesOn(lines, n, byClient)
    ensures before + Spoken(lines[..n], byClient) <= before + Spoken(lines, byClient)
    ensures !Ends(lines[n], byClient) ==>
              && before + Spoken(lines[..n], byClient) + lines[n] == before + Spoken(lines[..n + 1], byClient)
              && before + Spoken(lines[..n + 1], byClient) <= before + Spoken(lines, byClient)
    ensures Ends(lines[n], byClient) ==> Spoken(lines, byClient) == Spoken(lines[..n], byClient)
  {
    SpokenStep(lines, n, byClient);
    SpokenPrefix(lines, n, byClient);
    SpokenPrefix(lines, n + 1, byClient);
  }

  /** How often a program that speaks first waits for an answer: once for each line it says. */
  function Turns(lines: seq<Bytes>, byClient: bool): nat {
    if lines == [] || Ends(lines[0], byClient) then 0
    else Turns(lines[1..], byClient) + if lines[0] == [] then 0 else 1
  }

  lemma {:induction false} TurnsStep(lines: seq<Bytes>, n: nat, byClient: bool)
    requires n < |lines| && GoesOn(lines, n, byClient)
    ensures Turns(lines[..n + 1], byClient)
         == Turns(lines[..n], byClient) + if Ends(lines[n], byClient) || lines[n] == [] then 0 else 1
    ensures Ends(lines[n], byClient) ==> Turns(lines, byClient) == Turns(lines[..n], byClient)
    decreases n
  {
    if n > 0 {
      assert lines[..n][0] == lines[0] && lines[..n + 1][0] == lines[0];
      assert lines[..n + 1][1..] == lines[1..][..n] && lines[..n][1..] == lines[1..][..n - 1];
      TurnsStep(lines[1..], n - 1, byClient);
    } else {
      assert lines[..1][1..] == [];
    }
  }

  /** A program that speaks first has said its lines up to some line, to which it gets no answer. */
  ghost predicate Unanswered(lines: seq<Bytes>, said: Bytes, waits: int, byClient: bool) {
    exists n :: 0 <= n < |lines| && lines[n] != []
                && said == Spoken(lines[..n + 1], byClient) && waits == Turns(lines[..n + 1], byClient)
  }

  /** The client's client-first loop.  It says everything and waits once after each line, unless a call
      fails or the server closes; in that case it has spoken up to the line it gets no answer to. */
  method Converse(c: Socket, lines: seq<Bytes>) returns (finished: bool)
    modifies c
    ensures finished ==> c.output == old(c.output) + Spoken(lines, true)
    ensures finished ==> |c.asks| == |old(c.asks)| + Turns(lines, true) && c.broken == old(c.broken)
    ensures old(c.output) <= c.output <= old(c.output) + Spoken(lines, true)
    ensures !finished && !c.broken ==>
              c.input == [] && Unanswered(lines, c.output[|old(c.output)|..], |c.asks| - |old(c.asks)|, true)
  {
    var recvBuf := new byte[B](_ => 0);
    for n := 0 to |lines|
      invariant c.output == old(c.output) + Spoken(lines[..n], true) && c.broken == old(c.broken)
      invariant |c.asks| == |old(c.asks)| + Turns(lines[..n], true)
      invariant GoesOn(lines, n, true)
    {
      SpokenNext(old(c.output), lines, n, true);
      TurnsStep(lines, n, true);
      if lines[n] == [] {
        continue;
      }
      if lines[n] == QUIT {
        return true;
      }
      var buf := BufferOf(lines[n]);
      var sent := SendAll(c, buf, |lines[n]|);
      if sent != |lines[n]| {
        return false;
      }
      var r := c.Recv(recvBuf, 0, B - 1);
      if r <= 0 {
        assert c.output == old(c.output) + Spoken(lines[..n + 1], true);
        return false;
      }
    }
    assert lines[..|lines|] == lines;
    finished := true;
  }

  /** The server's server-first loop, the same without quit. */
  method Lead(c: Socket, lines: seq<Bytes>) returns (finished: bool)
    modifies c
    ensures finished ==> c.output == old(c.output) + Spoken(lines, false)
    ensures finished ==> |c.asks| == |old(c.asks)| + Turns(lines, false) && c.broken == old(c.broken)
    ensures old(c.output) <= c.output <= old(c.output) + Spoken(lines, false)
    ensures !finished && !c.broken ==>
              c.input == [] && Unanswered(lines, c.output[|old(c.output)|..], |c.asks| - |old(c.asks)|, false)
  {
    var recvBuf := new byte[B](_ => 0);
    for n := 0 to |lines|
      invariant c.output == old(c.output) + Spoken(lines[..n], false) && c.broken == old(c.broken)
      invariant |c.asks| == |old(c.asks)| + Turns(lines[..n], false)
      invariant GoesOn(lines, n, false)
    {
      SpokenNext(old(c.output), lines, n, false);
      TurnsStep(lines, n, false);
      if lines[n] == [] {
        continue;
      }
      var buf := BufferOf(lines[n]);
      var sent := SendAll(c, buf, |lines[n]|);
      if sent != |lines[n]| {
        return false;
      }
      var r := c.Recv(recvBuf, 0, B - 1);
      if r <= 0 {
        assert c.output == old(c.output) + Spoken(lines[..n + 1], false);
        return false;
      }
    }
    assert lines[..|lines|] == lines;
    finished := true;
  }

  /** Line n is the first to end the user's side, or there is none and n is past the last. */
  predicate EndsAt(lines: seq<Bytes>, n: nat, byClient: bool) {
    n <= |lines| && GoesOn(lines, n, byClient) && (n < |lines| ==> Ends(lines[n], byClient))
  }

  /** The client's server-first loop: each line, also an empty one, follows something received.  It says
      everything, unless a call fails or the server closes; in that case it has answered every receive but
      the last. */
  method Reply(c: Socket, lines: seq<Bytes>) returns (finished: bool)
    modifies c
    ensures finished ==> c.output == old(c.output) + Spoken(lines, true) && c.broken == old(c.broken)
    ensures finished ==> |c.asks| > |old(c.asks)| && EndsAt(lines, |c.asks| - |old(c.asks)| - 1, true)
    ensures old(c.output) <= c.output <= old(c.output) + Spoken(lines, true)
    ensures !finished && !c.broken ==>
              var n := |c.asks| - |old(c.asks)| - 1;
              0 <= n <= |lines| && c.input == [] && c.output == old(c.output) + Spoken(lines[..n], true)
  {
    var recvBuf := new byte[B](_ => 0);
    var n := 0;
    while true
      invariant 0 <= n <= |lines|
      invariant c.output == old(c.output) + Spoken(lines[..n], true) && c.broken == old(c.broken)
      invariant |c.asks| == |old(c.asks)| + n
      invariant GoesOn(lines, n, true)
      decreases |lines| - n
    {
      SpokenPrefix(lines, n, true);
      var r := c.Recv(recvBuf, 0, B - 1);
      if r <= 0 {
        return false;
      }
      if n == |lines| {
        assert lines[..n] == lines;
        return true;
      }
      SpokenNext(old(c.output), lines, n, true);
      if lines[n] != [] {
        if lines[n] == QUIT {
          return true;
        }
        var buf := BufferOf(lines[n]);
        var sent := SendAll(c, buf, |lines[n]|);
        if sent != |lines[n]| {
          return false;
        }
      }
      n := n + 1;
    }
  }
}
