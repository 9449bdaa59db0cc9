/** The single-threaded chat server built on select (MoreLearning/TCP_CHAT/Brodcast/Server.c).

    A round of the server is a function of the state and of what the kernel reports: a newcomer, which
    watched descriptors are readable and what reading each gives.  Its effect is shown to be that of
    a chat room in which clients join, speak and leave one at a time.  The class SelectServer at the
    end is the loop code itself. */
module SelectChat {
  import opened Common
  import opened Kernel
  import opened Mail
  import opened SlotTable

  /** What happens in the room, one event at a time. */
  datatype RoomEvent = Join(who: nat) | Say(speaker: nat, msg: Msg, missedBy: set<nat>) | Leave(goer: nat)

  type Delivery = Letter<nat, Msg>

  /** recvs records every recv call by the connection it read from. */
  datatype State = State(
    slots: seq<int>,
    socks: seq<Endpoint>,
    events: seq<RoomEvent>,
    log: seq<Delivery>,
    recvs: seq<nat>)

  /** What the kernel reports in one round.  A readable descriptor without a message has hung up.  failing
      tells, by the sender of a message, to which descriptors passing it on fails. */
  datatype Input = Input(
    newcomer: Option<int>,
    readable: set<int>,
    messages: map<int, Msg>,
    failing: map<int, set<int>>)

  const INIT := State(FREE_TABLE, [], [], [], [])

  // ---------------------------------------------------------------------------------------------
  // One round
  // ---------------------------------------------------------------------------------------------

  /** The newcomer is put in a free slot; when there is none it stays open and unheard. */
  function Admit(s: State, fd: int): State {
    if !CanAccept(s.socks, fd) then s
    else s.(socks := Accept(s.socks, fd),
            slots := AddSlot(s.slots, fd),
            events := if 0 in s.slots then s.events + [Join(|s.socks|)] else s.events)
  }

  /** To whom passing on what sd has sent fails. */
  function FailingFor(input: Input, sd: int): set<int> {
    if sd in input.failing then input.failing[sd] else {}
  }

  /** What a broadcast over the first n slots delivers: the result of a send is ignored. */
  function Deliveries(slots: seq<int>, socks: seq<Endpoint>, sender: int, msg: Msg, failing: set<int>, n: nat)
    : seq<Delivery>
    requires n <= |slots|
  {
    Arrivals(socks, Sends(slots, sender, msg, n), failing)
  }

  /** The open connections to which sends fail. */
  function Missing(socks: seq<Endpoint>, failing: set<int>): set<nat> {
    set c: nat | c < |socks| && socks[c].open && socks[c].fd in failing
  }

  lemma DeliveriesStep(slots: seq<int>, socks: seq<Endpoint>, sender: int, msg: Msg, failing: set<int>, n: nat)
    requires n < |slots|
    ensures Deliveries(slots, socks, sender, msg, failing, n + 1)
            == Deliveries(slots, socks, sender, msg, failing, n)
               + if slots[n] != 0 && slots[n] != sender then Arrival(socks, Send(slots[n], msg), failing) else []
  {
    ArrivalsStep(socks, Sends(slots, sender, msg, n), Send(slots[n], msg), failing);
  }

  function AfterSay(s: State, c: nat, sd: int, msg: Msg, failing: set<int>): State {
    s.(log := s.log + Deliveries(s.slots, s.socks, sd, msg, failing, |s.slots|),
       events := s.events + [Say(c, msg, Missing(s.socks, failing))])
  }

  function AfterLeave(s: State, c: nat, i: nat): State
    requires c < |s.socks| && i < |s.slots|
  {
    s.(slots := s.slots[i := 0], socks := Close(s.socks, c), events := s.events + [Leave(c)])
  }

  /** The scan at slot i: a readable descriptor is read once, and either leaves or is broadcast. */
  function Visit(s: State, input: Input, ready: set<int>, i: nat): State
    requires i < |s.slots|
  {
    var sd := s.slots[i];
    if sd <= 0 || sd !in ready || Resolve(s.socks, sd).None? then s
    else
      var c := Resolve(s.socks, sd).value;
      var t := s.(recvs := s.recvs + [c]);
      if sd in input.messages then AfterSay(t, c, sd, input.messages[sd], FailingFor(input, sd))
      else AfterLeave(t, c, i)
  }

  function Scan(s: State, input: Input, ready: set<int>, n: nat): (r: State)
    requires n <= |s.slots|
    ensures |r.slots| == |s.slots|
    ensures forall j :: n <= j < |s.slots| ==> r.slots[j] == s.slots[j]
  {
    if n == 0 then s else Visit(Scan(s, input, ready, n - 1), input, ready, n - 1)
  }

  /** select reports only descriptors that were in the set when the round began. */
  function Ready(s: State, input: Input): set<int> {
    set fd | fd in input.readable && fd > 0 && fd in s.slots
  }

  function AfterAdmit(s: State, input: Input): (r: State)
    ensures |r.slots| == |s.slots|
  {
    if input.newcomer.Some? then Admit(s, input.newcomer.value) else s
  }

  function Round(s: State, input: Input): State {
    Scan(AfterAdmit(s, input), input, Ready(s, input), |s.slots|)
  }

  function Run(inputs: seq<Input>): State {
    if inputs == [] then INIT else Round(Run(inputs[..|inputs| - 1]), Last(inputs))
  }

  // ---------------------------------------------------------------------------------------------
  // The chat room
  // ---------------------------------------------------------------------------------------------

  /** c has joined and not left since. */
  predicate Present(events: seq<RoomEvent>, c: nat) {
    events != [] &&
    match Last(events)
    case Join(d) => d == c || Present(events[..|events| - 1], c)
    case Leave(d) => d != c && Present(events[..|events| - 1], c)
    case Say(_, _, _) => Present(events[..|events| - 1], c)
  }

  /** What c hears in the room: every message said by another while c is present that c does not miss. */
  function Hears(events: seq<RoomEvent>, c: nat): seq<Msg> {
    if events == [] then []
    else
      var before := events[..|events| - 1];
      match Last(events)
      case Say(d, msg, missedBy) =>
        if d != c && Present(before, c) && c !in missedBy then Hears(before, c) + [msg] else Hears(before, c)
      case _ => Hears(before, c)
  }

  /** Only the absent join, only the present speak or leave. */
  predicate CanHappen(events: seq<RoomEvent>, e: RoomEvent) {
    match e
    case Join(c) => !Present(events, c)
    case Leave(c) => Present(events, c)
    case Say(c, _, _) => Present(events, c)
  }

  /** A history a room can have. */
  predicate Orderly(events: seq<RoomEvent>) {
    events == [] || (Orderly(events[..|events| - 1]) && CanHappen(events[..|events| - 1], Last(events)))
  }

  predicate InTable(s: State, c: nat) {
    HasSlot(s.socks, s.slots, c)
  }

  /** An entry of the table: a descriptor that names an open connection. */
  predicate NamesOpen(socks: seq<Endpoint>, fd: int) {
    fd > 0 && Resolve(socks, fd).Some?
  }

  /** The table's entries are distinct and open. */
  ghost predicate TableSound(s: State) {
    && |s.slots| == MAX_CLIENTS
    && Sound(s.socks)
    && NoRepeats(s.slots)
    && (forall i :: 0 <= i < |s.slots| && s.slots[i] != 0 ==> NamesOpen(s.socks, s.slots[i]))
  }

  /** The server's table is the room: its entries are distinct open descriptors, of exactly those who
      are present, and everybody has been sent what the room would have them hear. */
  ghost predicate IsRoom(s: State) {
    && TableSound(s)
    && Orderly(s.events)
    && (forall c: nat :: Present(s.events, c) <==> InTable(s, c))
    && (forall c: nat :: Inbox(s.log, c) == Hears(s.events, c))
  }

  lemma RoomStep(events: seq<RoomEvent>, e: RoomEvent, c: nat)
    ensures Present(events + [e], c) <==> e == Join(c) || (Present(events, c) && e != Leave(c))
    ensures Hears(events + [e], c) ==
            if e.Say? && e.speaker != c && Present(events, c) && c !in e.missedBy then Hears(events, c) + [e.msg]
            else Hears(events, c)
    ensures Orderly(events + [e]) == (Orderly(events) && CanHappen(events, e))
  {
    assert (events + [e])[..|events|] == events;
  }

  lemma SlotOwner(s: State, n: nat, c: nat)
    requires TableSound(s) && n < |s.slots| && s.slots[n] != 0
    ensures InTable(s, c) && s.socks[c].fd == s.slots[n] <==> Resolve(s.socks, s.slots[n]) == Some(c)
    ensures !Among(s.slots, n, s.slots[n])
  {
  }

  /** What a broadcast over the first n slots is to deliver to c: the message, once, if c's slot is among
      them, c is not the sender and the send does not fail. */
  ghost function DueFrom(s: State, sender: int, msg: Msg, failing: set<int>, n: nat, c: nat): seq<Msg>
    requires n <= |s.slots|
  {
    if InTable(s, c) && Among(s.slots, n, s.socks[c].fd) && s.socks[c].fd != sender && s.socks[c].fd !in failing
    then [msg] else []
  }

  lemma SendReaches(s: State, sender: int, msg: Msg, failing: set<int>, n: nat, c: nat)
    requires TableSound(s) && n < |s.slots|
    ensures DueFrom(s, sender, msg, failing, n + 1, c) == DueFrom(s, sender, msg, failing, n, c)
              + if s.slots[n] != 0 && s.slots[n] != sender
                then Inbox(Arrival(s.socks, Send(s.slots[n], msg), failing), c) else []
  {
    if InTable(s, c) { AmongNext(s.slots, n, s.socks[c].fd); }
    if s.slots[n] != 0 {
      SlotOwner(s, n, c);
      if Resolve(s.socks, s.slots[n]).Some? { InboxOfOne(Letter(Resolve(s.socks, s.slots[n]).value, msg), c); }
    }
  }

  /** A broadcast over the first n slots reaches once each member whose slot is among them, but the sender
      and those to whom the send fails. */
  lemma {:induction false} BroadcastReaches(s: State, sender: int, msg: Msg, failing: set<int>, n: nat, c: nat)
    requires TableSound(s) && n <= |s.slots|
    ensures Inbox(Deliveries(s.slots, s.socks, sender, msg, failing, n), c) == DueFrom(s, sender, msg, failing, n, c)
  {
    if n > 0 {
      var before := Deliveries(s.slots, s.socks, sender, msg, failing, n - 1);
      BroadcastReaches(s, sender, msg, failing, n - 1, c);
      DeliveriesStep(s.slots, s.socks, sender, msg, failing, n - 1);
      SendReaches(s, sender, msg, failing, n - 1, c);
      InboxConcat(before, Arrival(s.socks, Send(s.slots[n - 1], msg), failing), c);
    }
  }

  lemma SayKeepsRoom(s: State, c: nat, msg: Msg, failing: set<int>)
    requires IsRoom(s) && InTable(s, c)
    ensures IsRoom(AfterSay(s, c, s.socks[c].fd, msg, failing))
  {
    var fd := s.socks[c].fd;
    var s', e := AfterSay(s, c, fd, msg, failing), Say(c, msg, Missing(s.socks, failing));
    assert forall x :: Among(s.slots, |s.slots|, x) <==> x in s.slots;
    RoomStep(s.events, e, c);
    forall d: nat
      ensures Present(s'.events, d) <==> InTable(s', d)
      ensures Inbox(s'.log, d) == Hears(s'.events, d)
    {
      RoomStep(s.events, e, d);
      BroadcastReaches(s, fd, msg, failing, |s.slots|, d);
      InboxConcat(s.log, Deliveries(s.slots, s.socks, fd, msg, failing, |s.slots|), d);
      assert Present(s.events, d) <==> InTable(s, d);
    }
  }

  /** Who leaves is out of the table, and nobody else is. */
  lemma LeaveTable(s: State, c: nat, i: nat)
    requires TableSound(s) && i < |s.slots| && s.slots[i] != 0 && Resolve(s.socks, s.slots[i]) == Some(c)
    ensures TableSound(AfterLeave(s, c, i))
    ensures forall x :: x != s.slots[i] ==> Resolve(AfterLeave(s, c, i).socks, x) == Resolve(s.socks, x)
  {
    forall x ensures Resolve(Close(s.socks, c), x) == if x == s.slots[i] then None else Resolve(s.socks, x) {
      CloseResolve(s.socks, c, x);
    }
    CloseResolve(s.socks, c, 0);
  }

  lemma LeaveMembers(s: State, c: nat, i: nat, d: nat)
    requires TableSound(s) && i < |s.slots| && s.slots[i] != 0 && Resolve(s.socks, s.slots[i]) == Some(c)
    ensures InTable(AfterLeave(s, c, i), d) <==> InTable(s, d) && d != c
  {
    if d != c && InTable(s, d) {
      var j := IndexOf(s.slots, s.socks[d].fd);
      assert AfterLeave(s, c, i).slots[j] == s.socks[d].fd;
    }
  }

  lemma LeaveKeepsRoom(s: State, c: nat, i: nat)
    requires IsRoom(s) && i < |s.slots| && s.slots[i] != 0 && Resolve(s.socks, s.slots[i]) == Some(c)
    ensures IsRoom(AfterLeave(s, c, i))
  {
    var s' := AfterLeave(s, c, i);
    LeaveTable(s, c, i);
    assert InTable(s, c) && Present(s.events, c);
    RoomStep(s.events, Leave(c), c);
    forall d: nat
      ensures Present(s'.events, d) <==> InTable(s', d)
      ensures Inbox(s'.log, d) == Hears(s'.events, d)
    {
      RoomStep(s.events, Leave(c), d);
      LeaveMembers(s, c, i, d);
      assert Present(s.events, d) <==> InTable(s, d);
    }
  }

  lemma AdmitTable(s: State, fd: int)
    requires TableSound(s) && CanAccept(s.socks, fd)
    ensures TableSound(Admit(s, fd)) && fd !in s.slots
  {
    var s' := Admit(s, fd);
    assert fd !in s.slots;
    AddNoRepeats(s.slots, fd);
    AcceptResolve(s.socks, fd, fd);
    forall j | 0 <= j < |s'.slots| && s'.slots[j] != 0 ensures NamesOpen(s'.socks, s'.slots[j]) {
      AcceptResolve(s.socks, fd, s'.slots[j]);
      assert s'.slots[j] == fd || NamesOpen(s.socks, s.slots[j]);
    }
  }

  lemma AdmitMembers(s: State, fd: int, c: nat)
    requires TableSound(s) && CanAccept(s.socks, fd)
    ensures InTable(Admit(s, fd), c) <==> InTable(s, c) || (c == |s.socks| && 0 in s.slots)
  {
    AdmitTable(s, fd);
    if c < |s.socks| && s.socks[c].open { AddAt(s.slots, fd, s.socks[c].fd); }
    AddAt(s.slots, fd, fd);
  }

  lemma AdmitKeepsRoom(s: State, fd: int)
    requires IsRoom(s)
    ensures IsRoom(Admit(s, fd))
  {
    if CanAccept(s.socks, fd) {
      var s', n := Admit(s, fd), |s.socks|;
      AdmitTable(s, fd);
      assert !InTable(s, n) && !Present(s.events, n);
      RoomStep(s.events, Join(n), n);
      forall d: nat
        ensures Present(s'.events, d) <==> InTable(s', d)
        ensures Inbox(s'.log, d) == Hears(s'.events, d)
      {
        RoomStep(s.events, Join(n), d);
        AdmitMembers(s, fd, d);
        assert Present(s.events, d) <==> InTable(s, d);
      }
    }
  }

  /** recvs is history only. */
  lemma RecvsDoNotMatter(s: State, recvs: seq<nat>)
    requires IsRoom(s)
    ensures IsRoom(s.(recvs := recvs))
  {
  }

  lemma VisitKeepsRoom(s: State, input: Input, ready: set<int>, i: nat)
    requires IsRoom(s) && i < |s.slots|
    ensures IsRoom(Visit(s, input, ready, i))
  {
    var sd := s.slots[i];
    if sd > 0 && sd in ready {
      var c := Resolve(s.socks, sd).value;
      var t := s.(recvs := s.recvs + [c]);
      RecvsDoNotMatter(s, t.recvs);
      if sd in input.messages {
        SayKeepsRoom(t, c, input.messages[sd], FailingFor(input, sd));
      } else {
        LeaveKeepsRoom(t, c, i);
      }
    }
  }

  lemma {:induction false} ScanKeepsRoom(s: State, input: Input, ready: set<int>, n: nat)
    requires IsRoom(s) && n <= |s.slots|
    ensures IsRoom(Scan(s, input, ready, n))
  {
    if n > 0 {
      ScanKeepsRoom(s, input, ready, n - 1);
      VisitKeepsRoom(Scan(s, input, ready, n - 1), input, ready, n - 1);
    }
  }

  /** Over any number of rounds, with hang-ups in mid-scan and reuse of slots and descriptors, the
      server is a chat room: the table is who is present, and each inbox is what the room's one
      history lets that client hear. */
  lemma {:induction false} RunIsRoom(inputs: seq<Input>)
    ensures IsRoom(Run(inputs))
  {
    if inputs != [] {
      var s := Run(inputs[..|inputs| - 1]);
      RunIsRoom(inputs[..|inputs| - 1]);
      if Last(inputs).newcomer.Some? { AdmitKeepsRoom(s, Last(inputs).newcomer.value); }
      ScanKeepsRoom(AfterAdmit(s, Last(inputs)), Last(inputs), Ready(s, Last(inputs)), |s.slots|);
    } else {
      assert INIT.slots == FREE_TABLE;
    }
  }

  // ---------------------------------------------------------------------------------------------
  // Who is read in a round
  // ---------------------------------------------------------------------------------------------

  /** Whom a visit to an entry reads. */
  function ReadAt(socks: seq<Endpoint>, ready: set<int>, sd: int): seq<nat> {
    if sd > 0 && sd in ready && Resolve(socks, sd).Some? then [Resolve(socks, sd).value] else []
  }

  /** The connections whose descriptors stand in the first n slots and are ready, in slot order. */
  function Owners(s: State, ready: set<int>, n: nat): seq<nat>
    requires n <= |s.slots|
  {
    if n == 0 then [] else Owners(s, ready, n - 1) + ReadAt(s.socks, ready, s.slots[n - 1])
  }

  lemma {:induction false} OwnersOnce(s: State, ready: set<int>, n: nat)
    requires TableSound(s) && n <= |s.slots|
    ensures Distinct(Owners(s, ready, n))
    ensures forall c: nat :: c in Owners(s, ready, n) <==>
              InTable(s, c) && s.socks[c].fd in ready && Among(s.slots, n, s.socks[c].fd)
  {
    if n > 0 {
      var fd := s.slots[n - 1];
      OwnersOnce(s, ready, n - 1);
      forall x ensures Among(s.slots, n, x) <==> Among(s.slots, n - 1, x) || x == fd { AmongNext(s.slots, n - 1, x); }
      if fd != 0 {
        SlotOwner(s, n - 1, Resolve(s.socks, fd).value);
        forall c: nat ensures InTable(s, c) && s.socks[c].fd == fd <==> Resolve(s.socks, fd) == Some(c) {
          SlotOwner(s, n - 1, c);
        }
      }
    }
  }

  /** A visit closes at most the connection of its own slot. */
  lemma VisitKeepsTable(s: State, input: Input, ready: set<int>, i: nat)
    requires TableSound(s) && i < |s.slots|
    ensures TableSound(Visit(s, input, ready, i))
    ensures forall x :: x != s.slots[i] ==> Resolve(Visit(s, input, ready, i).socks, x) == Resolve(s.socks, x)
  {
    var sd := s.slots[i];
    if sd > 0 && sd in ready && sd !in input.messages {
      var c := Resolve(s.socks, sd).value;
      LeaveTable(s.(recvs := s.recvs + [c]), c, i);
    }
  }

  lemma {:induction false} ScanKeepsTable(s: State, input: Input, ready: set<int>, n: nat)
    requires TableSound(s) && n <= |s.slots|
    ensures TableSound(Scan(s, input, ready, n))
  {
    if n > 0 {
      ScanKeepsTable(s, input, ready, n - 1);
      VisitKeepsTable(Scan(s, input, ready, n - 1), input, ready, n - 1);
    }
  }

  /** What the slots not yet scanned name is untouched. */
  lemma {:induction false} ScanKeepsRest(s: State, input: Input, ready: set<int>, n: nat, j: nat)
    requires TableSound(s) && n <= j < |s.slots| && s.slots[j] != 0
    ensures Resolve(Scan(s, input, ready, n).socks, s.slots[j]) == Resolve(s.socks, s.slots[j])
  {
    if n > 0 {
      ScanKeepsTable(s, input, ready, n - 1);
      ScanKeepsRest(s, input, ready, n - 1, j);
      VisitKeepsTable(Scan(s, input, ready, n - 1), input, ready, n - 1);
      assert s.slots[n - 1] != s.slots[j];
    }
  }

  lemma VisitReads(s: State, input: Input, ready: set<int>, i: nat)
    requires i < |s.slots|
    ensures Visit(s, input, ready, i).recvs == s.recvs + ReadAt(s.socks, ready, s.slots[i])
  {
  }

  /** A scan reads the owners of the ready slots, one after the other. */
  lemma {:induction false} ScanReads(s: State, input: Input, ready: set<int>, n: nat)
    requires TableSound(s) && n <= |s.slots|
    ensures Scan(s, input, ready, n).recvs == s.recvs + Owners(s, ready, n)
  {
    if n > 0 {
      var t, sd := Scan(s, input, ready, n - 1), s.slots[n - 1];
      ScanReads(s, input, ready, n - 1);
      VisitReads(t, input, ready, n - 1);
      if sd != 0 { ScanKeepsRest(s, input, ready, n - 1, n - 1); }
      assert ReadAt(t.socks, ready, sd) == ReadAt(s.socks, ready, sd);
    }
  }

  /** The connections read stand in the order of their slots. */
  ghost predicate InSlotOrder(s: State, read: seq<nat>, n: nat) {
    && (forall i :: 0 <= i < |read| ==> read[i] < |s.socks| && IndexOf(s.slots, s.socks[read[i]].fd) < n)
    && forall i, j :: 0 <= i < j < |read| ==>
         IndexOf(s.slots, s.socks[read[i]].fd) < IndexOf(s.slots, s.socks[read[j]].fd)
  }

  lemma FirstIndex(slots: seq<int>, n: nat)
    requires NoRepeats(slots) && n < |slots| && slots[n] != 0
    ensures IndexOf(slots, slots[n]) == n
  {
  }

  lemma InOrderNext(s: State, read: seq<nat>, n: nat, c: nat)
    requires InSlotOrder(s, read, n)
    ensures InSlotOrder(s, read, n + 1)
    ensures c < |s.socks| && IndexOf(s.slots, s.socks[c].fd) == n ==> InSlotOrder(s, read + [c], n + 1)
  {
  }

  lemma {:induction false} OwnersInOrder(s: State, ready: set<int>, n: nat)
    requires TableSound(s) && n <= |s.slots|
    ensures InSlotOrder(s, Owners(s, ready, n), n)
  {
    if n > 0 {
      var fd, before := s.slots[n - 1], Owners(s, ready, n - 1);
      OwnersInOrder(s, ready, n - 1);
      if ReadAt(s.socks, ready, fd) == [] {
        InOrderNext(s, before, n - 1, 0);
        assert Owners(s, ready, n) == before;
      } else {
        FirstIndex(s.slots, n - 1);
        InOrderNext(s, before, n - 1, Resolve(s.socks, fd).value);
      }
    }
  }

  /** Who is in the table and ready, after the newcomer has been let in, was so before. */
  lemma NewcomerIsNotReady(s: State, input: Input, c: nat)
    requires TableSound(s)
    ensures TableSound(AfterAdmit(s, input))
    ensures var s1 := AfterAdmit(s, input);
            InTable(s1, c) && s1.socks[c].fd in Ready(s, input) <==> InTable(s, c) && s.socks[c].fd in input.readable
    ensures InTable(s, c) ==> AfterAdmit(s, input).socks[c] == s.socks[c]
  {
    if input.newcomer.Some? && CanAccept(s.socks, input.newcomer.value) {
      AdmitTable(s, input.newcomer.value);
      AdmitMembers(s, input.newcomer.value, c);
    }
    var s1 := AfterAdmit(s, input);
    if InTable(s1, c) && !InTable(s, c) { assert s1.socks[c].fd !in s.slots; }
  }

  lemma SlotStays(s: State, input: Input, c: nat)
    requires TableSound(s) && InTable(s, c)
    ensures c < |AfterAdmit(s, input).socks|
    ensures IndexOf(AfterAdmit(s, input).slots, AfterAdmit(s, input).socks[c].fd) == IndexOf(s.slots, s.socks[c].fd)
    ensures IndexOf(s.slots, s.socks[c].fd) < |s.slots|
  {
    NewcomerIsNotReady(s, input, c);
    var k := IndexOf(s.slots, s.socks[c].fd);
    assert AfterAdmit(s, input).slots[k] == s.slots[k];
    FirstIndex(AfterAdmit(s, input).slots, k);
  }

  lemma SlotsStay(s: State, input: Input, read: seq<nat>)
    requires TableSound(s) && InSlotOrder(AfterAdmit(s, input), read, |s.slots|)
    requires forall i :: 0 <= i < |read| ==> InTable(s, read[i])
    ensures InSlotOrder(s, read, |s.slots|)
  {
    forall i | 0 <= i < |read|
      ensures read[i] < |s.socks| && IndexOf(s.slots, s.socks[read[i]].fd) < |s.slots|
      ensures IndexOf(AfterAdmit(s, input).slots, AfterAdmit(s, input).socks[read[i]].fd)
              == IndexOf(s.slots, s.socks[read[i]].fd)
    {
      SlotStays(s, input, read[i]);
    }
  }

  /** In every round of every run each client that was in the table and readable when the round began
      is read exactly once, in the order of the table, and no other is read; the newcomer of the round
      never is. */
  lemma RoundReadsReadyOnce(inputs: seq<Input>, input: Input) returns (read: seq<nat>)
    ensures Run(inputs + [input]).recvs == Run(inputs).recvs + read
    ensures Distinct(read)
    ensures forall c: nat :: c in read <==> InTable(Run(inputs), c) && Run(inputs).socks[c].fd in input.readable
    ensures InSlotOrder(Run(inputs), read, |Run(inputs).slots|)
    ensures |Run(inputs).socks| !in read
    ensures read == Owners(AfterAdmit(Run(inputs), input), Ready(Run(inputs), input), |Run(inputs).slots|)
  {
    var s := Run(inputs);
    var s1, ready := AfterAdmit(s, input), Ready(s, input);
    assert (inputs + [input])[..|inputs|] == inputs;
    RunIsRoom(inputs);
    NewcomerIsNotReady(s, input, 0);
    read := Owners(s1, ready, |s.slots|);
    ScanReads(s1, input, ready, |s.slots|);
    OwnersOnce(s1, ready, |s.slots|);
    assert forall x :: Among(s1.slots, |s1.slots|, x) <==> x in s1.slots;
    forall c: nat ensures c in read <==> InTable(s, c) && s.socks[c].fd in input.readable {
      NewcomerIsNotReady(s, input, c);
    }
    OwnersInOrder(s1, ready, |s.slots|);
    forall i | 0 <= i < |read| ensures InTable(s, read[i]) { assert read[i] in read; }
    SlotsStay(s, input, read);
  }

  // ---------------------------------------------------------------------------------------------
  // What the reports of the kernel lead to
  // ---------------------------------------------------------------------------------------------

  /** What reading c leads to, in the light of what has happened earlier in the round: a message is said,
      missed by exactly the open connections to which passing it on fails, and an end is a leave. */
  ghost predicate Reported(input: Input, socks: seq<Endpoint>, c: nat, e: RoomEvent, earlier: seq<RoomEvent>) {
    && c < |socks|
    && var fd := socks[c].fd;
       if fd in input.messages then
         && e.Say? && e.speaker == c && e.msg == input.messages[fd]
         && (fd !in input.failing ==> e.missedBy == {})
         && (fd in input.failing ==> forall d: nat :: d in e.missedBy <==>
               d < |socks| && socks[d].open && Leave(d) !in earlier && socks[d].fd in input.failing[fd])
       else e == Leave(c)
  }

  /** From s to t exactly the connections in read have been read, with what that leads to, and those that
      left have been closed. */
  ghost predicate Tells(s: State, t: State, input: Input, read: seq<nat>, happened: seq<RoomEvent>) {
    && t.events == s.events + happened && |happened| == |read|
    && |t.socks| == |s.socks|
    && (forall d :: 0 <= d < |s.socks| ==> t.socks[d].fd == s.socks[d].fd)
    && (forall d :: 0 <= d < |s.socks| ==> (t.socks[d].open <==> s.socks[d].open && Leave(d) !in happened))
    && forall i :: 0 <= i < |read| ==> Reported(input, s.socks, read[i], happened[i], happened[..i])
  }

  lemma TellsMore(s: State, t: State, u: State, input: Input, read: seq<nat>, happened: seq<RoomEvent>,
                  c: nat, e: RoomEvent)
    requires Tells(s, t, input, read, happened) && Reported(input, s.socks, c, e, happened)
    requires u.events == t.events + [e]
    requires u.socks == if e.Leave? && c < |t.socks| then Close(t.socks, c) else t.socks
    ensures Tells(s, u, input, read + [c], happened + [e])
  {
    var more := happened + [e];
    forall i | 0 <= i <= |read| ensures Reported(input, s.socks, (read + [c])[i], more[i], more[..i]) {
      assert i < |read| ==> more[..i] == happened[..i];
      assert i == |read| ==> more[..i] == happened;
    }
  }

  lemma VisitTells(s: State, t: State, input: Input, ready: set<int>, i: nat, read: seq<nat>,
                   happened: seq<RoomEvent>) returns (more: seq<RoomEvent>)
    requires Tells(s, t, input, read, happened) && i < |t.slots|
    ensures Tells(s, Visit(t, input, ready, i), input, read + ReadAt(t.socks, ready, t.slots[i]), more)
  {
    var sd := t.slots[i];
    if sd <= 0 || sd !in ready || Resolve(t.socks, sd).None? {
      more := happened;
      assert read + [] == read;
    } else {
      var c := Resolve(t.socks, sd).value;
      var e := if sd in input.messages then Say(c, input.messages[sd], Missing(t.socks, FailingFor(input, sd)))
               else Leave(c);
      more := happened + [e];
      TellsMore(s, t, Visit(t, input, ready, i), input, read, happened, c, e);
    }
  }

  lemma ScanNext(s: State, input: Input, ready: set<int>, n: nat)
    requires TableSound(s) && n < |s.slots|
    ensures var t := Scan(s, input, ready, n);
            && Scan(s, input, ready, n + 1) == Visit(t, input, ready, n)
            && Owners(s, ready, n + 1) == Owners(s, ready, n) + ReadAt(t.socks, ready, t.slots[n])
  {
    if s.slots[n] != 0 { ScanKeepsRest(s, input, ready, n, n); }
  }

  lemma {:induction false} ScanTells(s: State, input: Input, ready: set<int>, n: nat)
    returns (happened: seq<RoomEvent>)
    requires TableSound(s) && n <= |s.slots|
    ensures Tells(s, Scan(s, input, ready, n), input, Owners(s, ready, n), happened)
  {
    if n == 0 {
      happened := [];
      assert s.events + [] == s.events;
    } else {
      var before := ScanTells(s, input, ready, n - 1);
      ScanNext(s, input, ready, n - 1);
      happened := VisitTells(s, Scan(s, input, ready, n - 1), input, ready, n - 1, Owners(s, ready, n - 1), before);
    }
  }

  lemma AdmitTells(s: State, input: Input)
    ensures var s1, welcome := AfterAdmit(s, input), input.newcomer.Some? && CanAccept(s.socks, input.newcomer.value);
            && s1.socks == (if welcome then s.socks + [Endpoint(input.newcomer.value, true)] else s.socks)
            && s1.events == s.events + if welcome && 0 in s.slots then [Join(|s.socks|)] else []
  {
  }

  /** What a round adds to the history is what the kernel reported, and nothing else: the newcomer joins if
      it finds a free slot; and, in slot order, of the clients in the table that were ready each that sent a
      message says it, and each that did not leaves and is closed. */
  lemma RoundIsAsReported(inputs: seq<Input>, input: Input) returns (read: seq<nat>, happened: seq<RoomEvent>)
    ensures Run(inputs + [input]).recvs == Run(inputs).recvs + read
    ensures var s, t := Run(inputs), Run(inputs + [input]);
            var welcome := input.newcomer.Some? && CanAccept(s.socks, input.newcomer.value);
            var socks := if welcome then s.socks + [Endpoint(input.newcomer.value, true)] else s.socks;
            && t.events == s.events + (if welcome && 0 in s.slots then [Join(|s.socks|)] else []) + happened
            && |happened| == |read|
            && (forall i :: 0 <= i < |read| ==> Reported(input, socks, read[i], happened[i], happened[..i]))
            && |t.socks| == |socks|
            && (forall d :: 0 <= d < |socks| ==> t.socks[d].fd == socks[d].fd)
            && (forall d :: 0 <= d < |socks| ==> (t.socks[d].open <==> socks[d].open && Leave(d) !in happened))
  {
    var s := Run(inputs);
    assert (inputs + [input])[..|inputs|] == inputs;
    RunIsRoom(inputs);
    NewcomerIsNotReady(s, input, 0);
    AdmitTells(s, input);
    read := RoundReadsReadyOnce(inputs, input);
    happened := ScanTells(AfterAdmit(s, input), input, Ready(s, input), |s.slots|);
  }

  // ---------------------------------------------------------------------------------------------
  // The server loop
  // ---------------------------------------------------------------------------------------------

  /** The server with the kernel's view of its connections, and the history of what happened. */
  class SelectServer {
    const clients: array<int>
    var socks: seq<Endpoint>
    var events: seq<RoomEvent>
    var log: seq<Delivery>
    var recvs: seq<nat>

    function Abs(): State
      reads this, clients
    {
      State(clients[..], socks, events, log, recvs)
    }

    constructor ()
      ensures fresh(clients) && Abs() == INIT
    {
      clients := new int[MAX_CLIENTS](_ => 0);
      socks, events, log, recvs := [], [], [], [];
    }

    /** One send call, whose result nobody looks at. */
    method SendTo(fd: int, msg: Msg, failing: set<int>)
      modifies this`log
      ensures log == old(log) + Arrival(socks, Send(fd, msg), failing)
    {
      var target := Resolve(socks, fd);
      if target.Some? && fd !in failing {
        log := log + [Letter(target.value, msg)];
      }
    }

    method Broadcast(sender: int, msg: Msg, failing: set<int>)
      modifies this`log
      ensures log == old(log) + Deliveries(clients[..], socks, sender, msg, failing, clients.Length)
    {
      ghost var slots := clients[..];
      for i := 0 to clients.Length
        invariant log == old(log) + Deliveries(slots, socks, sender, msg, failing, i)
      {
        DeliveriesStep(slots, socks, sender, msg, failing, i);
        if clients[i] != 0 && clients[i] != sender {
          SendTo(clients[i], msg, failing);
        }
      }
    }

    method BuildSet(readable: set<int>) returns (readfds: set<int>)
      ensures readfds == set fd | fd in readable && fd > 0 && fd in clients[..]
    {
      readfds := {};
      for i := 0 to clients.Length
        invariant readfds == set fd | fd in readable && fd > 0 && fd in clients[..i]
      {
        if clients[i] > 0 && clients[i] in readable {
          readfds := readfds + {clients[i]};
        }
      }
      assert clients[..clients.Length] == clients[..];
    }

    method AcceptNewcomer(fd: int)
      requires CanAccept(socks, fd)
      modifies this, clients
      ensures Abs() == Admit(old(Abs()), fd)
    {
      ghost var before := clients[..];
      ghost var c := |socks|;
      socks := Accept(socks, fd);
      for i := 0 to clients.Length
        invariant clients[..] == before && i <= IndexOf(before, 0)
        invariant Abs() == old(Abs()).(socks := Accept(old(socks), fd))
      {
        if clients[i] == 0 {
          clients[i] := fd;
          events := events + [Join(|socks| - 1)];
          assert before[i] == 0;
          break;
        }
      }
    }

    /** One turn of the server's main loop. */
    method Turn(input: Input)
      requires input.newcomer.Some? ==> CanAccept(socks, input.newcomer.value)
      modifies this, clients
      ensures Abs() == Round(old(Abs()), input)
    {
      var readfds := BuildSet(input.readable);
      if input.newcomer.Some? {
        AcceptNewcomer(input.newcomer.value);
      }
      ghost var s1 := Abs();
      for i := 0 to clients.Length
        invariant Abs() == Scan(s1, input, readfds, i)
      {
        ghost var before := Abs();
        var sd := clients[i];
        if sd > 0 && sd in readfds {
          var owner := Resolve(socks, sd);
          if owner.Some? {
            recvs := recvs + [owner.value];
            if sd in input.messages {
              var failing := FailingFor(input, sd);
              Broadcast(sd, input.messages[sd], failing);
              events := events + [Say(owner.value, input.messages[sd], Missing(socks, failing))];
            } else {
              socks := Close(socks, owner.value);
              clients[i] := 0;
              events := events + [Leave(owner.value)];
            }
          }
        }
        assert Abs() == Visit(before, input, readfds, i);
      }
    }
  }
}
