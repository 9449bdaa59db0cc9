/** The UDP file transfer: chunks sent one at a time, each followed by a wait for an unnumbered
    acknowledgement, with no retransmission
    (MoreLearning/UDP_FILE/UDP_FILE_SERVER.c and UDP_FILE_CLIENT.c).

    Server, client and both directions of the network form one transition system for a given file.
    Datagrams on their way to the client are held in sending order; an event may deliver or drop any
    of them, so a schedule may lose, delay and reorder, but never duplicates and has no third sender.
    Both receive timeouts may fire at any moment. */
module UdpFile {
  import opened Common

  const BUFFER_SIZE: nat := 1024

  const EOF_MARKER: Bytes := [69, 79, 70]
  const ERROR_MARKER: Bytes := [69, 82, 82, 79, 82]

  // ---------------------------------------------------------------------------------------------
  // Chunks
  // ---------------------------------------------------------------------------------------------

  /** How many times fread returns something. */
  function ChunkCount(file: Bytes): nat {
    (|file| + BUFFER_SIZE - 1) / BUFFER_SIZE
  }

  /** How far the first k chunks reach. */
  function Reach(file: Bytes, k: nat): (n: nat)
    ensures n <= |file|
    ensures k >= ChunkCount(file) <==> n == |file|
  {
    Min(k * BUFFER_SIZE, |file|)
  }

  function Chunk(file: Bytes, k: nat): Bytes {
    file[Reach(file, k)..Reach(file, k + 1)]
  }

  /** The client takes a datagram for a marker by its bytes alone. */
  predicate IsMarker(d: Bytes) {
    d == EOF_MARKER || d == ERROR_MARKER
  }

  /** The file's last, shorter chunk reads exactly as a marker does. */
  predicate EndsInMarker(file: Bytes) {
    IsMarker(file[|file| - |file| % BUFFER_SIZE..])
  }

  /** Only the last chunk can be shorter than the buffer, so only the last can pass for a marker: exactly
      when the file's last, shorter part is "EOF" or "ERROR" byte for byte. */
  lemma MarkerChunkIsLast(file: Bytes, k: nat)
    requires k < ChunkCount(file)
    ensures IsMarker(Chunk(file, k)) <==> k == ChunkCount(file) - 1 && EndsInMarker(file)
    ensures Chunk(file, k) == [69, 79, 70] || Chunk(file, k) == [69, 82, 82, 79, 82] <==>
              var tail := file[|file| - |file| % 1024..];
              1024 * k < |file| <= 1024 * k + 1024 && (tail == [69, 79, 70] || tail == [69, 82, 82, 79, 82])
  {
    if k < ChunkCount(file) - 1 {
      assert |Chunk(file, k)| == BUFFER_SIZE;
    } else if |file| % BUFFER_SIZE == 0 {
      assert |Chunk(file, k)| == BUFFER_SIZE;
      assert file[|file|..] == [];
    } else {
      assert Reach(file, k) == |file| - |file| % BUFFER_SIZE;
      assert Chunk(file, k) == file[|file| - |file| % BUFFER_SIZE..];
    }
  }

  /** The chunks with the given numbers, one after the other. */
  function Join(file: Bytes, ks: seq<nat>): Bytes {
    if ks == [] then [] else Join(file, ks[..|ks| - 1]) + Chunk(file, Last(ks))
  }

  // ---------------------------------------------------------------------------------------------
  // The transition system
  // ---------------------------------------------------------------------------------------------

  /** A datagram to the client.  The number of a chunk is history: the client sees only its bytes. */
  datatype Datagram = Data(k: nat) | Eof | Failed

  function Content(file: Bytes, d: Datagram): Bytes {
    match d
    case Data(k) => Chunk(file, k)
    case Eof => EOF_MARKER
    case Failed => ERROR_MARKER
  }

  datatype ServerPc = AwaitStart | LoopHead | AwaitAck | ServerDone

  datatype ClientPc = Waiting | MustAck | ClientDone

  /** sent and written are the two packet counters; written also records which chunks they were.  posts
      and arrivals are history: all that was posted to the client, and what has reached it. */
  datatype State = State(
    server: ServerPc,
    sent: nat,
    acked: nat,
    missed: bool,
    client: ClientPc,
    written: seq<nat>,
    out: Bytes,
    starts: nat,
    down: seq<Datagram>,
    up: nat,
    acksSent: nat,
    acksLost: nat,
    posts: seq<Bytes>,
    arrivals: seq<Bytes>,
    lost: nat)

  datatype Event =
    | StartArrives
    | StartLost
    | ServerSends
    | AckArrives
    | AckLost
    | ServerTimeout
    | Deliver(i: nat)
    | Drop(i: nat)
    | ClientAcks
    | ClientTimeout

  const INIT := State(AwaitStart, 0, 0, false, Waiting, [], [], 1, [], 0, 0, 0, [], [], 0)

  /** The client receives datagram i: a marker ends it, anything else is written and then acknowledged. */
  function Receive(file: Bytes, s: State, i: nat): State
    requires i < |s.down|
  {
    var d := s.down[i];
    var t := s.(down := Without(s.down, i), arrivals := s.arrivals + [Content(file, d)]);
    if IsMarker(Content(file, d)) then t.(client := ClientDone)
    else t.(client := MustAck, out := s.out + Content(file, d), written := s.written + if d.Data? then [d.k] else [])
  }

  /** One event; None stands for a file the server cannot open. */
  function Apply(file: Option<Bytes>, s: State, e: Event): State {
    match e
    case StartArrives =>
      if s.starts == 0 || s.server != AwaitStart then s
      else if file.None? then
        s.(starts := s.starts - 1, server := ServerDone, down := s.down + [Failed], posts := s.posts + [ERROR_MARKER])
      else s.(starts := s.starts - 1, server := LoopHead)
    case StartLost =>
      if s.starts == 0 then s else s.(starts := s.starts - 1)
    case ServerSends =>
      if s.server != LoopHead || file.None? then s
      else if s.sent < ChunkCount(file.value) then
        s.(server := AwaitAck, sent := s.sent + 1,
           down := s.down + [Data(s.sent)], posts := s.posts + [Chunk(file.value, s.sent)])
      else s.(server := ServerDone, down := s.down + [Eof], posts := s.posts + [EOF_MARKER])
    case AckArrives =>
      if s.server != AwaitAck || s.up == 0 then s
      else s.(server := LoopHead, up := s.up - 1, acked := s.acked + 1)
    case AckLost =>
      if s.up == 0 then s else s.(up := s.up - 1, acksLost := s.acksLost + 1)
    case ServerTimeout =>
      if s.server != AwaitAck then s else s.(server := LoopHead, missed := true)
    case Deliver(i) =>
      if s.client != Waiting || i >= |s.down| then s
      else Receive(if file.None? then [] else file.value, s, i)
    case Drop(i) =>
      if i >= |s.down| then s else s.(down := Without(s.down, i), lost := s.lost + 1)
    case ClientAcks =>
      if s.client != MustAck then s else s.(client := Waiting, up := s.up + 1, acksSent := s.acksSent + 1)
    case ClientTimeout =>
      if s.client != Waiting then s else s.(client := ClientDone)
  }

  function Run(file: Option<Bytes>, es: seq<Event>): State {
    if es == [] then INIT else Apply(file, Run(file, es[..|es| - 1]), Last(es))
  }

  // ---------------------------------------------------------------------------------------------
  // Counting
  // ---------------------------------------------------------------------------------------------

  /** How many of the first n datagrams in flight are chunks. */
  function DataCount(down: seq<Datagram>, n: nat): nat
    requires n <= |down|
  {
    if n == 0 then 0 else DataCount(down, n - 1) + if down[n - 1].Data? then 1 else 0
  }

  lemma {:induction false} CountPrefix(down: seq<Datagram>, d: Datagram, n: nat)
    requires n <= |down|
    ensures DataCount(down + [d], n) == DataCount(down, n)
  {
    if n > 0 { CountPrefix(down, d, n - 1); }
  }

  /** Taking datagram i out of the network lowers the count by it alone. */
  lemma {:induction false} CountWithout(down: seq<Datagram>, i: nat, n: nat)
    requires i < |down| && n < |down|
    ensures n <= i ==> DataCount(Without(down, i), n) == DataCount(down, n)
    ensures n >= i ==> DataCount(Without(down, i), n) + (if down[i].Data? then 1 else 0) == DataCount(down, n + 1)
  {
    if n > 0 { CountWithout(down, i, n - 1); }
  }

  /** Acknowledgements received by the server, sent by the client, packets written and packets sent,
      in this order, never overtake one another; and nothing posted goes unaccounted for. */
  ghost predicate Counted(s: State) {
    && s.acked + s.up + s.acksLost == s.acksSent
    && s.acksSent + (if s.client == MustAck then 1 else 0) == |s.written|
    && |s.written| + DataCount(s.down, |s.down|) <= s.sent
    && |s.posts| == |s.arrivals| + |s.down| + s.lost
  }

  lemma ReceiveCounted(file: Bytes, s: State, i: nat)
    requires Counted(s) && s.client == Waiting && i < |s.down|
    ensures Counted(Receive(file, s, i))
  {
    CountWithout(s.down, i, |s.down| - 1);
  }

  lemma DropCounted(file: Bytes, s: State, i: nat)
    requires Counted(s) && i < |s.down|
    ensures Counted(Apply(Some(file), s, Drop(i)))
  {
    CountWithout(s.down, i, |s.down| - 1);
  }

  lemma SendCounted(file: Bytes, s: State)
    requires Counted(s)
    ensures Counted(Apply(Some(file), s, ServerSends))
  {
    CountPrefix(s.down, Data(s.sent), |s.down|);
    CountPrefix(s.down, Eof, |s.down|);
  }

  lemma ApplyKeepsCounted(file: Bytes, s: State, e: Event)
    requires Counted(s)
    ensures Counted(Apply(Some(file), s, e))
  {
    match e
    case Deliver(i) => if s.client == Waiting && i < |s.down| { ReceiveCounted(file, s, i); }
    case Drop(i) => if i < |s.down| { DropCounted(file, s, i); }
    case ServerSends => SendCounted(file, s);
    case _ =>
  }

  /** The counting invariant over every schedule. */
  lemma {:induction false} RunCounted(file: Bytes, es: seq<Event>)
    ensures Counted(Run(Some(file), es))
    ensures var s := Run(Some(file), es); s.acked <= s.acksSent <= |s.written| <= s.sent
  {
    if es != [] {
      RunCounted(file, es[..|es| - 1]);
      ApplyKeepsCounted(file, Run(Some(file), es[..|es| - 1]), Last(es));
    }
  }

  // ---------------------------------------------------------------------------------------------
  // Every wait acknowledged: the file is intact
  // ---------------------------------------------------------------------------------------------

  /** The first n chunk numbers. */
  function FirstChunks(n: nat): seq<nat> {
    seq(n, i => i)
  }

  /** The client has written exactly the first n chunks. */
  ghost predicate Holds(file: Bytes, s: State, n: nat) {
    s.out == file[..Reach(file, n)] && s.written == FirstChunks(n)
  }

  /** Writing the next chunk. */
  lemma HoldsNext(file: Bytes, n: nat)
    ensures file[..Reach(file, n)] + Chunk(file, n) == file[..Reach(file, n + 1)]
    ensures FirstChunks(n) + [n] == FirstChunks(n + 1)
  {
  }

  /** While no wait has failed, at most one datagram is about, in one direction only; and it is the
      chunk just sent, or the acknowledgement of that very chunk. */
  ghost predicate InStep(file: Bytes, s: State) {
    && s.sent <= ChunkCount(file)
    && match s.server
       case AwaitStart =>
         s.acked == s.sent == 0 && s.down == [] && s.up == 0 && s.client != MustAck && Holds(file, s, 0)
       case LoopHead =>
         s.acked == s.sent && s.down == [] && s.up == 0 && s.client != MustAck && Holds(file, s, s.sent)
       case AwaitAck =>
         && s.sent == s.acked + 1
         && (|| (s.client != MustAck && s.up == 0 && (s.down == [Data(s.sent - 1)] || s.down == [])
                 && Holds(file, s, s.sent - 1))
             || (s.down == [] && Holds(file, s, s.sent)
                 && (if s.client == MustAck then s.up == 0 else s.up <= 1)))
       case ServerDone =>
         && s.acked == s.sent == ChunkCount(file) && s.up == 0 && s.client != MustAck && Holds(file, s, s.sent)
         && forall d :: d in s.down ==> d == Eof
  }

  lemma ReceiveInStep(file: Bytes, s: State, i: nat)
    requires InStep(file, s) && s.client == Waiting && i < |s.down|
    ensures InStep(file, Receive(file, s, i))
  {
    if s.server == ServerDone {
      assert s.down[i] in s.down;
      assert forall x :: x in Without(s.down, i) ==> x in s.down;
    } else {
      assert s.down == [Data(s.sent - 1)] && i == 0 && Without(s.down, 0) == [];
      HoldsNext(file, s.sent - 1);
    }
  }

  lemma DropInStep(file: Bytes, s: State, i: nat)
    requires InStep(file, s) && i < |s.down|
    ensures InStep(file, s.(down := Without(s.down, i), lost := s.lost + 1))
  {
    assert forall x :: x in Without(s.down, i) ==> x in s.down;
    assert |s.down| == 1 ==> Without(s.down, i) == [];
  }

  lemma ServerInStep(file: Bytes, s: State, e: Event)
    requires InStep(file, s)
    requires e == ServerSends || e == AckArrives || e == AckLost || e == StartArrives || e == StartLost
    ensures InStep(file, Apply(Some(file), s, e))
  {
  }

  lemma ClientInStep(file: Bytes, s: State, e: Event)
    requires InStep(file, s) && (e == ClientAcks || e == ClientTimeout)
    ensures InStep(file, Apply(Some(file), s, e))
  {
  }

  lemma ApplyKeepsInStep(file: Bytes, s: State, e: Event)
    requires !s.missed ==> InStep(file, s)
    ensures var s' := Apply(Some(file), s, e); !s'.missed ==> InStep(file, s')
  {
    if !s.missed {
      match e
      case Deliver(i) => if s.client == Waiting && i < |s.down| { ReceiveInStep(file, s, i); }
      case Drop(i) => if i < |s.down| { DropInStep(file, s, i); }
      case ClientAcks => ClientInStep(file, s, e);
      case ClientTimeout => ClientInStep(file, s, e);
      case ServerTimeout =>
      case _ => ServerInStep(file, s, e);
    }
  }

  lemma {:induction false} RunInStep(file: Bytes, es: seq<Event>)
    ensures var s := Run(Some(file), es); !s.missed ==> InStep(file, s)
  {
    if es == [] {
      assert FirstChunks(0) == [];
    } else {
      RunInStep(file, es[..|es| - 1]);
      ApplyKeepsInStep(file, Run(Some(file), es[..|es| - 1]), Last(es));
    }
  }

  /** The server has finished, and each of its waits returned an acknowledgement. */
  ghost predicate AllAcked(file: Bytes, es: seq<Event>) {
    Run(Some(file), es).server == ServerDone && !Run(Some(file), es).missed
  }

  /** The end-to-end guarantee: over a network that may drop, delay and reorder, with the client free
      to give up at any moment, if every wait of a finished server returned an acknowledgement then
      the client's file is the server's file. */
  lemma AllAckedMeansIntact(file: Bytes, es: seq<Event>)
    requires AllAcked(file, es)
    ensures var s := Run(Some(file), es);
            s.out == file && s.written == FirstChunks(ChunkCount(file)) && s.acked == ChunkCount(file)
  {
    RunInStep(file, es);
    RunCounted(file, es);
  }

  lemma RunAppend(file: Option<Bytes>, es: seq<Event>, e: Event)
    ensures Run(file, es + [e]) == Apply(file, Run(file, es), e)
  {
  }

  /** The network delivers in order. */
  ghost predicate KeepsOrder(es: seq<Event>) {
    forall i :: 0 <= i < |es| && es[i].Deliver? ==> es[i].i == 0
  }

  /** The network delivers everything in order, and the client is patient. */
  ghost predicate Lossless(es: seq<Event>) {
    KeepsOrder(es) && forall i :: 0 <= i < |es| ==> !es[i].Drop? && es[i] != ClientTimeout
  }

  ghost predicate NoMarkerWritten(file: Bytes, s: State) {
    forall i :: 0 <= i < |s.written| ==> !IsMarker(Chunk(file, s.written[i]))
  }

  lemma {:induction false} RunWritesNoMarker(file: Bytes, es: seq<Event>)
    ensures NoMarkerWritten(file, Run(Some(file), es))
  {
    if es != [] {
      RunWritesNoMarker(file, es[..|es| - 1]);
    }
  }

  ghost predicate AtRest(s: State, n: nat) {
    s.server == LoopHead && s.client == Waiting && s.sent == n && !s.missed && s.down == [] && s.up == 0
  }

  lemma OneRound(file: Bytes, s: State, n: nat)
    requires AtRest(s, n) && n < ChunkCount(file) && !IsMarker(Chunk(file, n))
    ensures var f := Some(file);
            AtRest(Apply(f, Apply(f, Apply(f, Apply(f, s, ServerSends), Deliver(0)), ClientAcks), AckArrives), n + 1)
  {
  }

  lemma LosslessAppend(es: seq<Event>, e: Event)
    requires Lossless(es) && !e.Drop? && e != ClientTimeout && (e.Deliver? ==> e.i == 0)
    ensures Lossless(es + [e])
  {
  }

  lemma RunAppendTwo(file: Option<Bytes>, es: seq<Event>, a: Event, b: Event) returns (all: seq<Event>)
    ensures all == es + [a] + [b]
    ensures Run(file, all) == Apply(file, Apply(file, Run(file, es), a), b)
  {
    var e1 := es + [a];
    RunAppend(file, es, a);
    RunAppend(file, e1, b);
    all := e1 + [b];
  }

  lemma NextRound(file: Bytes, es: seq<Event>, n: nat) returns (all: seq<Event>)
    requires Lossless(es) && AtRest(Run(Some(file), es), n) && n < ChunkCount(file) && !IsMarker(Chunk(file, n))
    ensures Lossless(all) && AtRest(Run(Some(file), all), n + 1)
  {
    OneRound(file, Run(Some(file), es), n);
    var half := RunAppendTwo(Some(file), es, ServerSends, Deliver(0));
    LosslessAppend(es, ServerSends);
    LosslessAppend(es + [ServerSends], Deliver(0));
    all := RunAppendTwo(Some(file), half, ClientAcks, AckArrives);
    LosslessAppend(half, ClientAcks);
    LosslessAppend(half + [ClientAcks], AckArrives);
  }

  /** One chunk after the other sent, delivered and acknowledged. */
  lemma {:induction false} AckedUpTo(file: Bytes, n: nat) returns (es: seq<Event>)
    requires n <= ChunkCount(file) && forall k :: 0 <= k < n ==> !IsMarker(Chunk(file, k))
    ensures AtRest(Run(Some(file), es), n)
    ensures Lossless(es)
  {
    if n == 0 {
      es := [] + [StartArrives];
      RunAppend(Some(file), [], StartArrives);
    } else {
      var before := AckedUpTo(file, n - 1);
      es := NextRound(file, before, n - 1);
    }
  }

  lemma AllAckedMeansNoMarker(file: Bytes, es: seq<Event>)
    requires AllAcked(file, es)
    ensures !EndsInMarker(file)
  {
    var n := ChunkCount(file);
    AllAckedMeansIntact(file, es);
    RunWritesNoMarker(file, es);
    if n > 0 {
      assert Run(Some(file), es).written[n - 1] == n - 1;
      MarkerChunkIsLast(file, n - 1);
    }
  }

  /** A transfer can end with every wait acknowledged exactly when the file's short last chunk does not
      read as a marker: the client never acknowledges one that does. */
  lemma AllAckedIsPossible(file: Bytes)
    ensures (exists es :: AllAcked(file, es)) <==>
              var tail := file[|file| - |file| % 1024..];
              tail != [69, 79, 70] && tail != [69, 82, 82, 79, 82]
  {
    forall es | AllAcked(file, es) ensures !EndsInMarker(file) { AllAckedMeansNoMarker(file, es); }
    if !EndsInMarker(file) {
      forall k | 0 <= k < ChunkCount(file) ensures !IsMarker(Chunk(file, k)) { MarkerChunkIsLast(file, k); }
      var es := AckedUpTo(file, ChunkCount(file));
      RunAppend(Some(file), es, ServerSends);
      assert AllAcked(file, es + [ServerSends]);
    }
  }

  /** Before the first failed wait, each acknowledgement the server takes is for the chunk it has just
      sent, although acknowledgements carry no number. */
  lemma AckIsGenuine(file: Bytes, es: seq<Event>)
    requires var s := Run(Some(file), es); !s.missed && s.server == AwaitAck && s.up > 0
    ensures Holds(file, Run(Some(file), es), Run(Some(file), es).sent)
  {
    RunInStep(file, es);
  }

  /** The acknowledgement the server is about to take cannot be for the chunk it is credited to: the
      client has never had that chunk. */
  predicate Miscredits(s: State) {
    s.server == AwaitAck && s.up > 0 && s.sent > 0 && (s.sent - 1) !in s.written
  }

  ghost predicate LeadsToMiscredit(file: Bytes, es: seq<Event>) {
    Miscredits(Run(Some(file), es))
  }

  /** Chunk k has been sent, and is neither written nor on its way. */
  predicate Lost(s: State, k: nat) {
    k < s.sent && k !in s.written && Data(k) !in s.down
  }

  lemma LostStep(file: Bytes, s: State, e: Event, k: nat)
    requires Lost(s, k)
    ensures Lost(Apply(Some(file), s, e), k)
  {
  }

  /** There is no retransmission: whatever happens next, a lost chunk is never written. */
  lemma {:induction false} LostForGood(file: Bytes, es: seq<Event>, n: nat, k: nat)
    requires n <= |es| && Lost(Run(Some(file), es[..n]), k)
    ensures Lost(Run(Some(file), es), k)
    decreases |es|
  {
    if n == |es| {
      assert es[..n] == es;
    } else {
      var before := es[..|es| - 1];
      assert before[..n] == es[..n];
      LostForGood(file, before, n, k);
      LostStep(file, Run(Some(file), before), Last(es), k);
    }
  }

  /** After a failed wait an acknowledgement need not be genuine: for every file of two chunks or more
      there is a schedule in which the late acknowledgement of the first packet is about to be taken for
      the second, which is lost.  Taking it, the server counts the second packet as acknowledged. */
  lemma LateAckIsMiscredited(file: Bytes) returns (es: seq<Event>)
    requires ChunkCount(file) >= 2
    ensures LeadsToMiscredit(file, es)
    ensures var s := Run(Some(file), es); s.sent == 2 && s.acked == 0 && s.up == 1 && Lost(s, 1)
    ensures Run(Some(file), es + [AckArrives])
            == Run(Some(file), es).(server := LoopHead, up := 0, acked := 1)
  {
    MarkerChunkIsLast(file, 0);
    var f := Some(file);
    var e1 := [] + [StartArrives];
    RunAppend(f, [], StartArrives);
    var e3 := RunAppendTwo(f, e1, ServerSends, ServerTimeout);
    var e5 := RunAppendTwo(f, e3, Deliver(0), ClientAcks);
    es := RunAppendTwo(f, e5, ServerSends, Drop(0));
    RunAppend(f, es, AckArrives);
  }

  /** What is written or in flight has been sent, and only chunks of the file are. */
  ghost predicate OnlySent(file: Bytes, s: State) {
    && s.sent <= ChunkCount(file)
    && (forall k :: k in s.written ==> k < s.sent)
    && (forall i :: 0 <= i < |s.down| && s.down[i].Data? ==> s.down[i].k < s.sent)
  }

  lemma OnlySentStep(file: Bytes, s: State, e: Event)
    requires OnlySent(file, s)
    ensures OnlySent(file, Apply(Some(file), s, e))
  {
  }

  lemma {:induction false} RunOnlySent(file: Bytes, es: seq<Event>)
    ensures OnlySent(file, Run(Some(file), es))
  {
    if es != [] {
      RunOnlySent(file, es[..|es| - 1]);
      OnlySentStep(file, Run(Some(file), es[..|es| - 1]), Last(es));
    }
  }

  lemma MiscreditNeedsTwo(file: Bytes, es: seq<Event>)
    requires LeadsToMiscredit(file, es)
    ensures ChunkCount(file) >= 2
  {
    var s := Run(Some(file), es);
    RunCounted(file, es);
    RunOnlySent(file, es);
    assert s.written[0] in s.written;
  }

  /** An acknowledgement can be credited to a packet the client never had exactly when the file has two
      chunks or more. */
  lemma MiscreditExactly(file: Bytes)
    ensures (exists es :: LeadsToMiscredit(file, es)) <==> |file| > BUFFER_SIZE
  {
    forall es | LeadsToMiscredit(file, es) ensures ChunkCount(file) >= 2 { MiscreditNeedsTwo(file, es); }
    if |file| > BUFFER_SIZE { var es := LateAckIsMiscredited(file); }
  }

  // ---------------------------------------------------------------------------------------------
  // A file the server cannot open
  // ---------------------------------------------------------------------------------------------

  /** Nothing but the error marker travels, and nothing is written. */
  ghost predicate Refused(s: State) {
    && (s.server == AwaitStart || s.server == ServerDone)
    && (forall d :: d in s.down ==> d == Failed)
    && s.client != MustAck && s.out == [] && s.written == [] && s.sent == 0
  }

  lemma RefusedStep(s: State, e: Event)
    requires Refused(s)
    ensures Refused(Apply(None, s, e))
  {
    match e
    case Deliver(i) =>
      if i < |s.down| {
        assert s.down[i] in s.down;
        assert forall d :: d in Without(s.down, i) ==> d in s.down;
      }
    case Drop(i) => if i < |s.down| { assert forall d :: d in Without(s.down, i) ==> d in s.down; }
    case _ =>
  }

  /** Then the client's file stays empty, whatever the network does. */
  lemma {:induction false} RefusedStaysEmpty(es: seq<Event>)
    ensures Refused(Run(None, es))
  {
    if es != [] {
      RefusedStaysEmpty(es[..|es| - 1]);
      RefusedStep(Run(None, es[..|es| - 1]), Last(es));
    }
  }

  /** When it is refused the server says so in the five bytes of "ERROR", and these end the client. */
  lemma RefusalIsTold()
    ensures Run(None, [StartArrives]).posts == [[69, 82, 82, 79, 82]]
    ensures Run(None, [StartArrives, Deliver(0)]).client == ClientDone
  {
    assert [StartArrives][..0] == [];
    assert [StartArrives, Deliver(0)][..1] == [StartArrives];
  }

  // ---------------------------------------------------------------------------------------------
  // Both programs can always end
  // ---------------------------------------------------------------------------------------------

  predicate ServerAtEnd(s: State) {
    s.server == ServerDone || (s.server == AwaitStart && s.starts == 0)
  }

  /** How far the server is from its end. */
  function Ahead(file: Bytes, s: State): int {
    2 * (ChunkCount(file) - s.sent) +
    match s.server
    case AwaitStart => 2
    case LoopHead => 1
    case AwaitAck => 2
    case ServerDone => 0
  }

  lemma ServerGoesOn(file: Bytes, s: State) returns (e: Event)
    requires OnlySent(file, s) && !ServerAtEnd(s)
    ensures 0 <= Ahead(file, Apply(Some(file), s, e)) < Ahead(file, s)
  {
    e := match s.server case AwaitStart => StartArrives case LoopHead => ServerSends case _ => ServerTimeout;
  }

  /** However its waits end, the server comes to its end marker, unless it is never started. */
  lemma {:induction false} ServerEnds(file: Bytes, es: seq<Event>) returns (whole: seq<Event>)
    ensures es <= whole && ServerAtEnd(Run(Some(file), whole))
    decreases Ahead(file, Run(Some(file), es))
  {
    RunOnlySent(file, es);
    if ServerAtEnd(Run(Some(file), es)) { return es; }
    var e := ServerGoesOn(file, Run(Some(file), es));
    RunAppend(Some(file), es, e);
    whole := ServerEnds(file, es + [e]);
  }

  /** From every reachable state both programs can come to their end, the server if it is ever started. */
  lemma BothCanEnd(file: Bytes, es: seq<Event>) returns (whole: seq<Event>)
    ensures es <= whole && Run(Some(file), whole).client == ClientDone && ServerAtEnd(Run(Some(file), whole))
  {
    whole := ServerEnds(file, es);
    whole := RunAppendTwo(Some(file), whole, ClientAcks, ClientTimeout);
  }

  // ---------------------------------------------------------------------------------------------
  // A network that keeps order
  // ---------------------------------------------------------------------------------------------

  ghost predicate Ascending(ks: seq<nat>) {
    forall i, j :: 0 <= i < j < |ks| ==> ks[i] < ks[j]
  }

  /** The chunks in flight are numbered in ascending order from low on, below high. */
  ghost predicate FlightInOrder(down: seq<Datagram>, low: nat, high: nat) {
    && (forall j :: 0 <= j < |down| && down[j].Data? ==> low <= down[j].k < high)
    && (forall i, j :: 0 <= i < j < |down| && down[i].Data? && down[j].Data? ==> down[i].k < down[j].k)
  }

  /** What InOrder says of the chunks written. */
  ghost predicate WrittenInOrder(file: Bytes, out: Bytes, written: seq<nat>, sent: nat) {
    && out == Join(file, written)
    && Ascending(written)
    && (written != [] ==> Last(written) < sent)
  }

  function Low(s: State): nat {
    if s.written == [] then 0 else Last(s.written) + 1
  }

  /** Written chunks are in order and come before those in flight. */
  ghost predicate InOrder(file: Bytes, s: State) {
    && s.sent <= ChunkCount(file)
    && WrittenInOrder(file, s.out, s.written, s.sent)
    && FlightInOrder(s.down, Low(s), s.sent)
  }

  lemma FlightTaken(down: seq<Datagram>, low: nat, high: nat, i: nat)
    requires FlightInOrder(down, low, high) && i < |down|
    ensures FlightInOrder(Without(down, i), low, high)
    ensures i == 0 && down[0].Data? ==> FlightInOrder(Without(down, 0), down[0].k + 1, high)
  {
  }

  lemma WriteInOrder(file: Bytes, out: Bytes, written: seq<nat>, sent: nat, k: nat)
    requires WrittenInOrder(file, out, written, sent) && k < sent && (written != [] ==> Last(written) < k)
    ensures WrittenInOrder(file, out + Chunk(file, k), written + [k], sent)
  {
  }

  lemma WriteReceived(file: Bytes, s: State)
    requires InOrder(file, s) && |s.down| > 0 && s.down[0].Data?
    ensures var k := s.down[0].k;
            InOrder(file, s.(down := Without(s.down, 0), out := s.out + Chunk(file, k), written := s.written + [k]))
  {
    var k := s.down[0].k;
    FlightTaken(s.down, Low(s), s.sent, 0);
    WriteInOrder(file, s.out, s.written, s.sent, k);
    assert Last(s.written + [k]) == k;
  }

  /** The client's progress is not about order. */
  lemma ReceiveInOrder(file: Bytes, s: State)
    requires InOrder(file, s) && s.client == Waiting && |s.down| > 0
    ensures InOrder(file, Receive(file, s, 0))
  {
    if IsMarker(Content(file, s.down[0])) {
      FlightTaken(s.down, Low(s), s.sent, 0);
    } else {
      WriteReceived(file, s);
    }
  }

  lemma SendInOrder(down: seq<Datagram>, low: nat, sent: nat)
    requires FlightInOrder(down, low, sent) && low <= sent
    ensures FlightInOrder(down + [Data(sent)], low, sent + 1)
    ensures FlightInOrder(down + [Eof], low, sent)
    ensures FlightInOrder(down, low, sent + 1)
  {
  }

  lemma QuietKeepsOrder(file: Bytes, s: State, e: Event)
    requires InOrder(file, s) && !e.Deliver? && !e.Drop? && e != ServerSends
    ensures InOrder(file, Apply(Some(file), s, e))
  {
  }

  lemma ServerSendsInOrder(file: Bytes, s: State)
    requires InOrder(file, s)
    ensures InOrder(file, Apply(Some(file), s, ServerSends))
  {
    SendInOrder(s.down, Low(s), s.sent);
  }

  lemma ApplyKeepsOrder(file: Bytes, s: State, e: Event)
    requires InOrder(file, s) && (e.Deliver? ==> e.i == 0)
    ensures InOrder(file, Apply(Some(file), s, e))
  {
    match e
    case Deliver(_) => if s.client == Waiting && |s.down| > 0 { ReceiveInOrder(file, s); }
    case Drop(i) => if i < |s.down| { FlightTaken(s.down, Low(s), s.sent, i); }
    case ServerSends => ServerSendsInOrder(file, s);
    case _ => QuietKeepsOrder(file, s, e);
  }

  /** Over a network that may drop but not reorder, the client's file is at every moment made of a
      subsequence of the server's chunks, in order. */
  lemma {:induction false} OrderedSubsequence(file: Bytes, es: seq<Event>)
    requires KeepsOrder(es)
    ensures InOrder(file, Run(Some(file), es))
  {
    if es != [] {
      OrderedSubsequence(file, es[..|es| - 1]);
      ApplyKeepsOrder(file, Run(Some(file), es[..|es| - 1]), Last(es));
    }
  }

  // ---------------------------------------------------------------------------------------------
  // A network that loses nothing
  // ---------------------------------------------------------------------------------------------

  /** What a client that reads to the first marker is left with. */
  function Kept(file: Bytes): Bytes {
    if EndsInMarker(file) then file[..|file| - |file| % BUFFER_SIZE] else file
  }

  /** The chunks lo..hi in flight, followed by the end marker once the server has finished. */
  function Rest(lo: nat, hi: nat, finished: bool): seq<Datagram>
    requires lo <= hi
  {
    seq(hi - lo, i requires 0 <= i < hi - lo => Data(lo + i)) + if finished then [Eof] else []
  }

  ghost predicate Whole(file: Bytes, s: State) {
    && |s.written| <= s.sent <= ChunkCount(file)
    && Holds(file, s, |s.written|)
    && (s.server == AwaitStart ==> s.sent == 0)
    && (s.server == ServerDone ==> s.sent == ChunkCount(file))
    && (forall k :: 0 <= k < |s.written| ==> !IsMarker(Chunk(file, k)))
    && if s.client == ClientDone then s.out == Kept(file)
       else s.down == Rest(|s.written|, s.sent, s.server == ServerDone)
  }

  lemma KeptWhenAllWritten(file: Bytes)
    requires forall k :: 0 <= k < ChunkCount(file) ==> !IsMarker(Chunk(file, k))
    ensures Kept(file) == file
  {
    if ChunkCount(file) > 0 { MarkerChunkIsLast(file, ChunkCount(file) - 1); }
  }

  lemma RestTaken(lo: nat, hi: nat, finished: bool)
    requires lo < hi
    ensures Rest(lo, hi, finished)[0] == Data(lo) && Without(Rest(lo, hi, finished), 0) == Rest(lo + 1, hi, finished)
  {
  }

  lemma MarkerMeansKept(file: Bytes, n: nat)
    requires n < ChunkCount(file) && IsMarker(Chunk(file, n))
    ensures file[..Reach(file, n)] == Kept(file)
  {
    MarkerChunkIsLast(file, n);
  }

  lemma ReceiveWhole(file: Bytes, s: State)
    requires Whole(file, s) && s.client == Waiting && |s.down| > 0
    ensures Whole(file, Receive(file, s, 0))
  {
    var n := |s.written|;
    if n < s.sent {
      RestTaken(n, s.sent, s.server == ServerDone);
      if IsMarker(Chunk(file, n)) {
        MarkerMeansKept(file, n);
      } else {
        HoldsNext(file, n);
      }
    } else {
      assert s.down == [Eof];
      KeptWhenAllWritten(file);
    }
  }

  lemma ApplyKeepsWhole(file: Bytes, s: State, e: Event)
    requires Whole(file, s) && (e.Deliver? ==> e.i == 0) && !e.Drop? && e != ClientTimeout
    ensures Whole(file, Apply(Some(file), s, e))
  {
    if e.Deliver? {
      if s.client == Waiting && |s.down| > 0 { ReceiveWhole(file, s); }
    } else if e == ServerSends && s.server == LoopHead {
      assert Rest(|s.written|, s.sent, false) + [Data(s.sent)] == Rest(|s.written|, s.sent + 1, false);
      assert Rest(|s.written|, s.sent, false) + [Eof] == Rest(|s.written|, s.sent, true);
    }
  }

  lemma {:induction false} RunWhole(file: Bytes, es: seq<Event>)
    requires Lossless(es)
    ensures Whole(file, Run(Some(file), es))
  {
    if es == [] {
      assert FirstChunks(0) == [] && Rest(0, 0, false) == [];
    } else {
      RunWhole(file, es[..|es| - 1]);
      ApplyKeepsWhole(file, Run(Some(file), es[..|es| - 1]), Last(es));
    }
  }

  lemma KeptIsPrefix(file: Bytes)
    ensures var tail := file[|file| - |file| % 1024..];
            if tail == [69, 79, 70] || tail == [69, 82, 82, 79, 82] then Kept(file) + tail == file && Kept(file) != file
            else Kept(file) == file
  {
  }

  /** Without loss, reordering or client timeouts, whatever the server's waits do, a finished client
      has the whole file exactly when the file's short last chunk is not itself "EOF" or "ERROR";
      otherwise it has the file without that chunk. */
  lemma LosslessTransfer(file: Bytes, es: seq<Event>)
    requires Lossless(es) && Run(Some(file), es).client == ClientDone
    ensures var tail := file[|file| - |file| % 1024..];
            Run(Some(file), es).out == file <==> tail != [69, 79, 70] && tail != [69, 82, 82, 79, 82]
    ensures var tail := file[|file| - |file| % 1024..];
            tail == [69, 79, 70] || tail == [69, 82, 82, 79, 82] ==> Run(Some(file), es).out + tail == file
    ensures Run(Some(file), es).out == Kept(file)
  {
    RunWhole(file, es);
    KeptIsPrefix(file);
  }

  /** How many chunks a client that reads to the first marker keeps. */
  function KeptCount(file: Bytes): int {
    if EndsInMarker(file) then ChunkCount(file) - 1 else ChunkCount(file)
  }

  lemma KeptReach(file: Bytes)
    ensures KeptCount(file) >= 0 && file[..Reach(file, KeptCount(file))] == Kept(file)
  {
    if EndsInMarker(file) {
      MarkerChunkIsLast(file, ChunkCount(file) - 1);
      MarkerMeansKept(file, ChunkCount(file) - 1);
    }
  }

  /** A lossless transfer can always be completed: there is a schedule for every file. */
  lemma LosslessIsPossible(file: Bytes) returns (es: seq<Event>)
    ensures Lossless(es) && Run(Some(file), es).client == ClientDone
  {
    var f, m := Some(file), KeptCount(file);
    KeptReach(file);
    forall k | 0 <= k < m ensures !IsMarker(Chunk(file, k)) { MarkerChunkIsLast(file, k); }
    var e0 := AckedUpTo(file, m);
    es := RunAppendTwo(f, e0, ServerSends, Deliver(0));
    if m < ChunkCount(file) { MarkerChunkIsLast(file, m); }
  }

  // ---------------------------------------------------------------------------------------------
  // The two loops
  // ---------------------------------------------------------------------------------------------

  function ChunksOf(file: Bytes, n: nat): (r: seq<Bytes>)
    ensures |r| == n
  {
    seq(n, k requires 0 <= k < n => Chunk(file, k))
  }

  /** What the server posts for a file. */
  function Posts(file: Bytes): seq<Bytes> {
    ChunksOf(file, ChunkCount(file)) + [EOF_MARKER]
  }

  /** What the client accepts of the datagrams that reach it: those before the first marker. */
  function Accepted(arrivals: seq<Bytes>): (r: seq<Bytes>)
    ensures |r| <= |arrivals| && r == arrivals[..|r|]
    ensures forall i :: 0 <= i < |r| ==> !IsMarker(arrivals[i])
    ensures |r| < |arrivals| ==> IsMarker(arrivals[|r|])
  {
    if arrivals == [] || IsMarker(arrivals[0]) then [] else [arrivals[0]] + Accepted(arrivals[1..])
  }

  function Flatten(ds: seq<Bytes>): Bytes {
    if ds == [] then [] else Flatten(ds[..|ds| - 1]) + Last(ds)
  }

  lemma {:induction false} FlattenChunks(file: Bytes, n: nat)
    ensures Flatten(ChunksOf(file, n)) == file[..Reach(file, n)]
  {
    if n > 0 {
      FlattenChunks(file, n - 1);
      assert ChunksOf(file, n)[..n - 1] == ChunksOf(file, n - 1);
    }
  }

  lemma PostsAt(file: Bytes, k: nat)
    requires k <= ChunkCount(file)
    ensures Posts(file)[k] == if k < ChunkCount(file) then Chunk(file, k) else EOF_MARKER
    ensures IsMarker(Posts(file)[k]) <==> k == ChunkCount(file) || (k == ChunkCount(file) - 1 && EndsInMarker(file))
  {
    if k < ChunkCount(file) { MarkerChunkIsLast(file, k); }
  }

  lemma AcceptedCount(file: Bytes)
    ensures |Accepted(Posts(file))| == KeptCount(file)
  {
    var n, m := ChunkCount(file), |Accepted(Posts(file))|;
    PostsAt(file, n);
    if n > 0 { PostsAt(file, n - 1); }
    if m < n { PostsAt(file, m); }
  }

  lemma AcceptedPosts(file: Bytes)
    ensures |Accepted(Posts(file))| <= ChunkCount(file)
    ensures Accepted(Posts(file)) == ChunksOf(file, |Accepted(Posts(file))|)
  {
    var posts, m := Posts(file), |Accepted(Posts(file))|;
    AcceptedCount(file);
    assert Accepted(posts) == posts[..m];
    assert posts[..m] == ChunksOf(file, m);
  }

  /** Sender and receiver loops composed: receiving what the server posts gives the file back, but for
      a last chunk that reads as a marker. */
  lemma PostsComeBack(file: Bytes)
    ensures Flatten(Accepted(Posts(file))) == Kept(file)
    ensures var tail := file[|file| - |file| % 1024..];
            if tail == [69, 79, 70] || tail == [69, 82, 82, 79, 82] then Flatten(Accepted(Posts(file))) + tail == file
            else Flatten(Accepted(Posts(file))) == file
  {
    AcceptedCount(file);
    AcceptedPosts(file);
    KeptReach(file);
    KeptIsPrefix(file);
    FlattenChunks(file, KeptCount(file));
  }

  /** In the transition system too the server posts Posts, in order. */
  ghost predicate PostsInOrder(file: Bytes, s: State) {
    && s.sent <= ChunkCount(file)
    && (s.server == AwaitStart ==> s.sent == 0)
    && s.posts == if s.server == ServerDone then Posts(file) else ChunksOf(file, s.sent)
  }

  lemma SendPosts(file: Bytes, n: nat)
    ensures ChunksOf(file, n) + [Chunk(file, n)] == ChunksOf(file, n + 1)
  {
  }

  lemma PostsStep(file: Bytes, s: State, e: Event)
    requires PostsInOrder(file, s)
    ensures PostsInOrder(file, Apply(Some(file), s, e))
  {
    SendPosts(file, s.sent);
  }

  lemma {:induction false} RunPosts(file: Bytes, es: seq<Event>)
    ensures PostsInOrder(file, Run(Some(file), es))
  {
    if es == [] {
      assert ChunksOf(file, 0) == [];
    } else {
      RunPosts(file, es[..|es| - 1]);
      PostsStep(file, Run(Some(file), es[..|es| - 1]), Last(es));
    }
  }

  /** And the client keeps what Accepted says of the datagrams that reach it, whichever those are. */
  ghost predicate KeepsAccepted(s: State) {
    && s.out == Flatten(Accepted(s.arrivals))
    && (s.client != ClientDone ==> Accepted(s.arrivals) == s.arrivals)
  }

  lemma {:induction false} AcceptedNext(arrivals: seq<Bytes>, d: Bytes)
    requires Accepted(arrivals) == arrivals
    ensures Accepted(arrivals + [d]) == if IsMarker(d) then arrivals else arrivals + [d]
  {
    if arrivals != [] {
      assert arrivals[1..] == Accepted(arrivals)[1..] == Accepted(arrivals[1..]);
      assert (arrivals + [d])[1..] == arrivals[1..] + [d];
      AcceptedNext(arrivals[1..], d);
    }
  }

  lemma FlattenNext(ds: seq<Bytes>, d: Bytes)
    ensures Flatten(ds + [d]) == Flatten(ds) + d
  {
    assert (ds + [d])[..|ds|] == ds;
  }

  lemma ReceiveAccepts(file: Bytes, s: State, i: nat)
    requires KeepsAccepted(s) && s.client == Waiting && i < |s.down|
    ensures KeepsAccepted(Receive(file, s, i))
  {
    var d := Content(file, s.down[i]);
    AcceptedNext(s.arrivals, d);
    FlattenNext(s.arrivals, d);
  }

  lemma AcceptsStep(file: Bytes, s: State, e: Event)
    requires KeepsAccepted(s)
    ensures KeepsAccepted(Apply(Some(file), s, e))
  {
    if e.Deliver? && e.i < |s.down| && s.client == Waiting { ReceiveAccepts(file, s, e.i); }
  }

  lemma {:induction false} RunAccepts(file: Bytes, es: seq<Event>)
    ensures KeepsAccepted(Run(Some(file), es))
  {
    if es != [] {
      RunAccepts(file, es[..|es| - 1]);
      AcceptsStep(file, Run(Some(file), es[..|es| - 1]), Last(es));
    }
  }

  /** The posts are the whole file in parts of 1024 bytes, of which only the last may be shorter, and then
      the three bytes of "EOF". */
  lemma PostsAreTheFile(file: Bytes)
    ensures var n := |Posts(file)| - 1;
            && n >= 0 && Posts(file)[n] == [69, 79, 70]
            && Flatten(Posts(file)[..n]) == file
            && (forall k :: 0 <= k < n - 1 ==> |Posts(file)[k]| == 1024)
            && (n > 0 ==> 1 <= |Posts(file)[n - 1]| <= 1024)
  {
    FlattenChunks(file, ChunkCount(file));
    assert Posts(file)[..ChunkCount(file)] == ChunksOf(file, ChunkCount(file));
    assert file[..Reach(file, ChunkCount(file))] == file;
  }

  class FileSender {
    const buffer: array<byte>
    var packetCount: nat
    var posted: seq<Bytes>
    /** History: how each wait for an acknowledgement has ended. */
    var waits: seq<bool>

    constructor ()
      ensures fresh(buffer) && buffer.Length == BUFFER_SIZE && posted == [] && packetCount == 0 && waits == []
    {
      buffer := new byte[BUFFER_SIZE](_ => 0);
      packetCount, posted, waits := 0, [], [];
    }

    /** An acknowledgement arrives, or the time is up. */
    method AwaitAck() returns (acked: bool)
      modifies this`waits
      ensures waits == old(waits) + [acked]
    {
      acked := *;
      waits := waits + [acked];
    }

    method Fread(file: Bytes, pos: nat) returns (n: nat)
      requires buffer.Length == BUFFER_SIZE && pos <= |file|
      modifies buffer
      ensures n == Min(BUFFER_SIZE, |file| - pos)
      ensures buffer[..n] == file[pos..pos + n]
    {
      n := Min(BUFFER_SIZE, |file| - pos);
      forall k | 0 <= k < n {
        buffer[k] := file[pos + k];
      }
    }

    /** After each chunk it waits once.  A wait may end either way; the loop goes on all the same. */
    method SendFile(file: Bytes) returns (acks: nat)
      requires buffer.Length == BUFFER_SIZE && packetCount == 0
      modifies this`packetCount, this`posted, this`waits, buffer
      ensures posted == old(posted) + Posts(file)
      ensures packetCount == ChunkCount(file) && |waits| == |old(waits)| + ChunkCount(file)
      ensures acks == multiset(waits[|old(waits)|..])[true]
    {
      acks := 0;
      var pos := 0;
      var n := Fread(file, pos);
      assert waits[|waits|..] == [];
      while n > 0
        invariant packetCount <= ChunkCount(file) && pos == Reach(file, packetCount)
        invariant n == Min(BUFFER_SIZE, |file| - pos) && buffer[..n] == file[pos..pos + n]
        invariant posted == old(posted) + ChunksOf(file, packetCount)
        invariant |waits| == |old(waits)| + packetCount
        invariant acks == multiset(waits[|old(waits)|..])[true]
        decreases |file| - pos
      {
        assert buffer[..n] == Chunk(file, packetCount);
        posted := posted + [buffer[..n]];
        packetCount := packetCount + 1;
        SendPosts(file, packetCount - 1);
        pos := pos + n;
        ghost var before := waits;
        var acked := AwaitAck();
        assert waits[|old(waits)|..] == before[|old(waits)|..] + [acked];
        if acked {
          acks := acks + 1;
        }
        n := Fread(file, pos);
      }
      posted := posted + [EOF_MARKER];
    }
  }

  class FileReceiver {
    var packetCount: nat
    var out: Bytes
    var acksSent: nat

    constructor ()
      ensures packetCount == 0 && out == [] && acksSent == 0
    {
      packetCount, out, acksSent := 0, [], 0;
    }

    /** The arrivals are the datagrams received before the receive times out. */
    method ReceiveFile(arrivals: seq<Bytes>)
      requires packetCount == 0 && out == [] && acksSent == 0
      modifies this
      ensures out == Flatten(Accepted(arrivals))
      ensures packetCount == acksSent == |Accepted(arrivals)| && out == Flatten(arrivals[..packetCount])
      ensures forall k :: 0 <= k < packetCount ==> arrivals[k] != [69, 79, 70] && arrivals[k] != [69, 82, 82, 79, 82]
      ensures packetCount < |arrivals| ==>
                arrivals[packetCount] == [69, 79, 70] || arrivals[packetCount] == [69, 82, 82, 79, 82]
    {
      var next := 0;
      while next < |arrivals|
        invariant 0 <= next <= |Accepted(arrivals)|
        invariant out == Flatten(arrivals[..next]) && packetCount == acksSent == next
      {
        var buffer := arrivals[next];
        if buffer == EOF_MARKER {
          break;
        }
        if buffer == ERROR_MARKER {
          break;
        }
        assert arrivals[..next + 1][..next] == arrivals[..next];
        out := out + buffer;
        packetCount := packetCount + 1;
        acksSent := acksSent + 1;
        next := next + 1;
      }
    }
  }
}
