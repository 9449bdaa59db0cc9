/** The threaded chat server with a mutex-protected slot table
    (Test_Code/tcp_chat_arbitrary_server.c).

    The interleaving of the accept loop and any number of handler threads is a transition system:
    Apply performs one event, Run a whole schedule.  A critical section that only scans and updates
    the table is one event; a broadcast is one event per slot, because its sends can be seen outside
    the mutex.  The class ChatTable at the end is the table code itself. */
module ArbitraryChat {
  import opened Common
  import opened Kernel
  import opened Mail
  import opened SlotTable

  /** Where a handler thread stands.  Holding has received a message and waits for the mutex;
      Leaving has seen the end of its connection and waits for it too. */
  datatype Pc =
    | Starting
    | Receiving
    | Holding(msg: Msg)
    | Broadcasting(text: Msg, i: nat)
    | Leaving
    | Removed
    | Closed

  /** History: a broadcast as it stood when its thread took the mutex. */
  datatype Begun = Begun(sender: nat, msg: Msg, fd: int, slots: seq<int>, roster: seq<Option<nat>>)

  /** History: a message with the ordinal of the broadcast that carries it. */
  datatype Note = Note(nth: nat, msg: Msg)

  /** History: one send, by the connection it reached. */
  type Delivery = Letter<nat, Note>

  /** Connection c and its handler thread have the same index in socks and pcs. */
  datatype State = State(
    slots: seq<int>,
    lock: Option<nat>,
    socks: seq<Endpoint>,
    pcs: seq<Pc>,
    begun: seq<Begun>,
    log: seq<Delivery>,
    dead: bool)

  datatype Event =
    | Connect(fd: int)
    | Receive(c: nat, msg: Msg)
    | HangUp(c: nat)
    | SendFails(c: nat)
    | Step(c: nat)

  const INIT := State(FREE_TABLE, None, [], [], [], [], false)

  // ---------------------------------------------------------------------------------------------
  // The transition system
  // ---------------------------------------------------------------------------------------------

  function Roster(socks: seq<Endpoint>, slots: seq<int>): seq<Option<nat>> {
    seq(|slots|, i requires 0 <= i < |slots| => if slots[i] == 0 then None else Resolve(socks, slots[i]))
  }

  function StepThread(s: State, c: nat): (r: State)
    requires |s.pcs| == |s.socks| && c < |s.pcs|
    ensures |r.pcs| == |r.socks|
  {
    var fd := s.socks[c].fd;
    match s.pcs[c]
    case Starting =>
      if s.lock.Some? then s
      else s.(slots := AddSlot(s.slots, fd), pcs := s.pcs[c := Receiving])
    case Holding(msg) =>
      if s.lock.Some? then s
      else s.(lock := Some(c),
              pcs := s.pcs[c := Broadcasting(msg, 0)],
              begun := s.begun + [Begun(c, msg, fd, s.slots, Roster(s.socks, s.slots))])
    case Broadcasting(msg, i) =>
      if i >= |s.slots| then s.(lock := None, pcs := s.pcs[c := Receiving])
      else if s.slots[i] != 0 && s.slots[i] != fd then
        match Resolve(s.socks, s.slots[i])
        case None => s.(dead := true)   // send on a descriptor that is not open
        case Some(d) =>
          s.(pcs := s.pcs[c := Broadcasting(msg, i + 1)],
             log := s.log + [Letter(d, Note(if |s.begun| == 0 then 0 else |s.begun| - 1, msg))])
      else s.(pcs := s.pcs[c := Broadcasting(msg, i + 1)])
    case Leaving =>
      if s.lock.Some? then s
      else s.(slots := DropSlot(s.slots, fd), pcs := s.pcs[c := Removed])
    case Removed =>
      s.(socks := Close(s.socks, c), pcs := s.pcs[c := Closed])
    case _ => s
  }

  /** One event.  An event that is not possible in s, such as locking a held mutex, changes nothing. */
  function Apply(s: State, e: Event): (r: State)
    requires |s.pcs| == |s.socks|
    ensures |r.pcs| == |r.socks|
  {
    if s.dead then s else
    match e
    case Connect(fd) =>
      if CanAccept(s.socks, fd) then s.(socks := Accept(s.socks, fd), pcs := s.pcs + [Starting]) else s
    case Receive(c, msg) =>
      if c < |s.pcs| && s.pcs[c] == Receiving then s.(pcs := s.pcs[c := Holding(msg)]) else s
    case HangUp(c) =>
      if c < |s.pcs| && s.pcs[c] == Receiving then s.(pcs := s.pcs[c := Leaving]) else s
    case SendFails(c) =>
      if c < |s.pcs| && s.pcs[c].Broadcasting? && s.pcs[c].i < |s.slots|
         && s.slots[s.pcs[c].i] != 0 && s.slots[s.pcs[c].i] != s.socks[c].fd
      then s.(dead := true) else s
    case Step(c) =>
      if c < |s.pcs| then StepThread(s, c) else s
  }

  /** The state after a schedule. */
  function Run(es: seq<Event>): (s: State)
    ensures |s.pcs| == |s.socks|
  {
    if es == [] then INIT else Apply(Run(es[..|es| - 1]), es[|es| - 1])
  }

  // ---------------------------------------------------------------------------------------------
  // Table and descriptors agree
  // ---------------------------------------------------------------------------------------------

  /** Between its add and its remove. */
  predicate Member(pc: Pc) {
    pc.Receiving? || pc.Holding? || pc.Broadcasting? || pc.Leaving?
  }

  /** fd is the descriptor of an open connection whose handler is between its add and its remove. */
  predicate NamesMember(s: State, fd: int)
    requires |s.pcs| == |s.socks|
  {
    Resolve(s.socks, fd).Some? && Member(s.pcs[Resolve(s.socks, fd).value])
  }

  /** Every used slot names an open descriptor whose handler is between its add and its remove, no
      two slots name the same one, and the mutex is held exactly by a broadcasting thread. */
  ghost predicate Agreement(s: State) {
    && |s.slots| == MAX_CLIENTS
    && |s.pcs| == |s.socks|
    && Sound(s.socks)
    && NoRepeats(s.slots)
    && (forall c :: 0 <= c < |s.pcs| ==> (s.socks[c].open <==> s.pcs[c] != Closed))
    && (forall i :: 0 <= i < |s.slots| && s.slots[i] != 0 ==> NamesMember(s, s.slots[i]))
    && (s.lock.Some? ==> s.lock.value < |s.pcs|)
    && (forall c :: 0 <= c < |s.pcs| ==> (s.pcs[c].Broadcasting? <==> s.lock == Some(c)))
  }

  lemma ConnectKeepsAgreement(s: State, fd: int)
    requires Agreement(s)
    ensures Agreement(Apply(s, Connect(fd)))
  {
    if CanAccept(s.socks, fd) {
      forall x ensures Resolve(Accept(s.socks, fd), x) == if x == fd then Some(|s.socks|) else Resolve(s.socks, x) {
        AcceptResolve(s.socks, fd, x);
      }
      AcceptResolve(s.socks, fd, fd);
    }
  }

  lemma CloseKeepsAgreement(s: State, c: nat)
    requires Agreement(s) && c < |s.pcs| && s.pcs[c] == Removed
    ensures Agreement(StepThread(s, c))
  {
    forall x ensures Resolve(Close(s.socks, c), x) == if x == s.socks[c].fd then None else Resolve(s.socks, x) {
      CloseResolve(s.socks, c, x);
    }
    CloseResolve(s.socks, c, 0);
    ResolveOwn(s.socks, c);
  }

  lemma AddKeepsTable(s: State, c: nat)
    requires Agreement(s) && c < |s.pcs| && s.pcs[c] == Starting && s.lock.None?
    ensures NoRepeats(StepThread(s, c).slots)
    ensures forall fd :: fd in StepThread(s, c).slots && fd != 0 ==> fd == s.socks[c].fd || NamesMember(s, fd)
  {
    ResolveOwn(s.socks, c);
    assert s.socks[c].fd !in s.slots;
    AddNoRepeats(s.slots, s.socks[c].fd);
  }

  lemma AddKeepsAgreement(s: State, c: nat)
    requires Agreement(s) && c < |s.pcs| && s.pcs[c] == Starting
    ensures Agreement(StepThread(s, c))
  {
    if s.lock.None? {
      var s' := StepThread(s, c);
      AddKeepsTable(s, c);
      ResolveOwn(s.socks, c);
      forall i | 0 <= i < |s'.slots| && s'.slots[i] != 0 ensures NamesMember(s', s'.slots[i]) {
        assert s'.slots[i] in s'.slots;
      }
    }
  }

  lemma RemoveKeepsAgreement(s: State, c: nat)
    requires Agreement(s) && c < |s.pcs| && s.pcs[c] == Leaving
    ensures Agreement(StepThread(s, c))
  {
    var s' := StepThread(s, c);
    ResolveOwn(s.socks, c);
    DropNoRepeats(s.slots, s.socks[c].fd);
    if s.lock.None? { DropAt(s.slots, s.socks[c].fd, s.socks[c].fd); }
    forall i | 0 <= i < |s'.slots| && s'.slots[i] != 0 ensures NamesMember(s', s'.slots[i]) {
      assert s'.slots[i] == s.slots[i] && NamesMember(s, s.slots[i]);
      assert s'.slots[i] in s'.slots;
    }
  }

  /** A change of c's place among the members leaves the table in agreement, with the mutex as given. */
  lemma MoveKeepsAgreement(s: State, c: nat, pc: Pc, lock: Option<nat>)
    requires Agreement(s) && c < |s.pcs| && Member(s.pcs[c]) && Member(pc)
    requires lock == if pc.Broadcasting? then Some(c) else if s.lock == Some(c) then None else s.lock
    requires pc.Broadcasting? ==> s.lock.None? || s.lock == Some(c)
    ensures Agreement(s.(pcs := s.pcs[c := pc], lock := lock))
  {
  }

  /** Agreement is not about the history. */
  lemma HistoryIsNoMatter(s: State, begun: seq<Begun>, log: seq<Delivery>, dead: bool)
    requires Agreement(s)
    ensures Agreement(s.(begun := begun, log := log, dead := dead))
  {
  }

  lemma StepKeepsAgreement(s: State, c: nat)
    requires Agreement(s) && c < |s.pcs|
    ensures Agreement(StepThread(s, c))
  {
    var s' := StepThread(s, c);
    match s.pcs[c]
    case Starting => AddKeepsAgreement(s, c);
    case Holding(msg) =>
      if s.lock.None? {
        MoveKeepsAgreement(s, c, Broadcasting(msg, 0), Some(c));
        HistoryIsNoMatter(s.(pcs := s'.pcs, lock := s'.lock), s'.begun, s.log, s.dead);
      }
    case Broadcasting(_, _) =>
      if s'.dead && !s.dead {
        HistoryIsNoMatter(s, s.begun, s.log, true);
      } else {
        MoveKeepsAgreement(s, c, s'.pcs[c], s'.lock);
        HistoryIsNoMatter(s.(pcs := s'.pcs, lock := s'.lock), s.begun, s'.log, s'.dead);
      }
    case Leaving => RemoveKeepsAgreement(s, c);
    case Removed => CloseKeepsAgreement(s, c);
    case _ =>
  }

  lemma ApplyKeepsAgreement(s: State, e: Event)
    requires Agreement(s)
    ensures Agreement(Apply(s, e))
  {
    if !s.dead {
      match e
      case Connect(fd) => ConnectKeepsAgreement(s, fd);
      case Receive(c, msg) =>
        if c < |s.pcs| && s.pcs[c] == Receiving { MoveKeepsAgreement(s, c, Holding(msg), s.lock); }
      case HangUp(c) =>
        if c < |s.pcs| && s.pcs[c] == Receiving { MoveKeepsAgreement(s, c, Leaving, s.lock); }
      case SendFails(c) => HistoryIsNoMatter(s, s.begun, s.log, true);
      case Step(c) => if c < |s.pcs| { StepKeepsAgreement(s, c); }
    }
  }

  // ---------------------------------------------------------------------------------------------
  // The log is a sequence of unbroken blocks
  // ---------------------------------------------------------------------------------------------

  /** The broadcast b reaches every connection of its roster but its sender. */
  predicate Reaches(b: Begun, c: nat) {
    Some(c) in b.roster && c != b.sender
  }

  /** What the k-th broadcast delivers over its first i slots. */
  function Block(b: Begun, k: nat, i: nat): seq<Delivery>
    requires i <= |b.roster|
  {
    if i == 0 then []
    else if b.roster[i - 1].Some? && b.roster[i - 1].value != b.sender then
      Block(b, k, i - 1) + [Letter(b.roster[i - 1].value, Note(k, b.msg))]
    else Block(b, k, i - 1)
  }

  function WholeBlock(b: Begun, k: nat): seq<Delivery> {
    Block(b, k, |b.roster|)
  }

  /** Nobody stands twice in a roster. */
  ghost predicate NoDoubles(roster: seq<Option<nat>>) {
    forall i, j :: 0 <= i < j < |roster| && roster[i].Some? ==> roster[i] != roster[j]
  }

  ghost predicate WellFormed(b: Begun) {
    && |b.slots| == |b.roster| == MAX_CLIENTS
    && (forall i :: 0 <= i < MAX_CLIENTS ==> (b.roster[i].Some? <==> b.slots[i] != 0))
    && (forall i :: 0 <= i < MAX_CLIENTS && b.roster[i].Some? ==>
          (b.roster[i].value == b.sender <==> b.slots[i] == b.fd))
    && NoDoubles(b.roster)
  }

  ghost predicate AllWellFormed(begun: seq<Begun>) {
    forall k :: 0 <= k < |begun| ==> WellFormed(begun[k])
  }

  /** The first k broadcasts, each complete, one after the other. */
  function Blocks(begun: seq<Begun>, k: nat): seq<Delivery>
    requires k <= |begun|
  {
    if k == 0 then [] else Blocks(begun, k - 1) + WholeBlock(begun[k - 1], k - 1)
  }

  /** Thread c is at slot i of the last broadcast begun. */
  ghost predicate InProgress(s: State, c: nat, msg: Msg, i: nat)
    requires |s.pcs| == |s.socks| && c < |s.pcs|
    requires AllWellFormed(s.begun)
  {
    && i <= MAX_CLIENTS
    && |s.begun| > 0
    && Last(s.begun) == Begun(c, msg, s.socks[c].fd, s.slots, Roster(s.socks, s.slots))
    && s.log == Blocks(s.begun, |s.begun| - 1) + Block(Last(s.begun), |s.begun| - 1, i)
  }

  /** Broadcasts are logged in the order their threads took the mutex, each block unbroken; only the
      last may still be under way, and then its roster is still the table. */
  ghost predicate History(s: State)
    requires |s.pcs| == |s.socks|
  {
    && AllWellFormed(s.begun)
    && (s.lock.None? ==> s.log == Blocks(s.begun, |s.begun|))
    && (s.lock.Some? ==>
          && s.lock.value < |s.pcs| && s.pcs[s.lock.value].Broadcasting?
          && InProgress(s, s.lock.value, s.pcs[s.lock.value].text, s.pcs[s.lock.value].i))
  }

  lemma {:induction false} BlocksOfPrefix(begun: seq<Begun>, b: Begun, k: nat)
    requires k <= |begun|
    ensures Blocks(begun + [b], k) == Blocks(begun, k)
  {
    if k > 0 { BlocksOfPrefix(begun, b, k - 1); }
  }

  lemma SnapshotWellFormed(s: State, c: nat, msg: Msg)
    requires Agreement(s) && c < |s.pcs| && s.pcs[c] != Closed
    ensures WellFormed(Begun(c, msg, s.socks[c].fd, s.slots, Roster(s.socks, s.slots)))
  {
  }

  /** A roster outlives any event that does not touch the table: nobody named by the table can close. */
  lemma RosterStable(s: State, e: Event)
    requires Agreement(s) && Apply(s, e).slots == s.slots
    ensures Roster(Apply(s, e).socks, s.slots) == Roster(s.socks, s.slots)
  {
    var s' := Apply(s, e);
    forall i | 0 <= i < |s.slots| && s.slots[i] != 0
      ensures Resolve(s'.socks, s.slots[i]) == Resolve(s.socks, s.slots[i])
    {
      if e.Connect? && CanAccept(s.socks, e.fd) {
        AcceptResolve(s.socks, e.fd, s.slots[i]);
      } else if e.Step? && e.c < |s.pcs| && s.pcs[e.c] == Removed {
        CloseResolve(s.socks, e.c, s.slots[i]);
        ResolveOwn(s.socks, e.c);
      }
    }
  }

  lemma BeginKeepsHistory(s: State, c: nat)
    requires Agreement(s) && History(s) && c < |s.pcs| && s.pcs[c].Holding?
    ensures History(StepThread(s, c))
  {
    if s.lock.None? {
      var b := Begun(c, s.pcs[c].msg, s.socks[c].fd, s.slots, Roster(s.socks, s.slots));
      SnapshotWellFormed(s, c, s.pcs[c].msg);
      BlocksOfPrefix(s.begun, b, |s.begun|);
    }
  }

  /** What a broadcast does at one slot: it extends its own block and never fails on its own account. */
  lemma SlotExtendsBlock(s: State, c: nat)
    requires Agreement(s) && History(s) && c < |s.pcs| && s.pcs[c].Broadcasting? && s.pcs[c].i < MAX_CLIENTS
    ensures var n := |s.begun| - 1;
            n >= 0 && StepThread(s, c) == s.(
              pcs := s.pcs[c := Broadcasting(s.pcs[c].text, s.pcs[c].i + 1)],
              log := Blocks(s.begun, n) + Block(s.begun[n], n, s.pcs[c].i + 1))
  {
    var n, i := |s.begun| - 1, s.pcs[c].i;
    assert InProgress(s, c, s.pcs[c].text, i);
    var b := s.begun[n];
    assert WellFormed(b);
    assert b.roster[i] == if s.slots[i] == 0 then None else Resolve(s.socks, s.slots[i]);
    if b.roster[i].Some? && b.roster[i].value != c {
      var d := Letter(b.roster[i].value, Note(n, b.msg));
      assert Blocks(s.begun, n) + (Block(b, n, i) + [d]) == s.log + [d];
    }
  }

  lemma SendKeepsHistory(s: State, c: nat)
    requires Agreement(s) && History(s) && c < |s.pcs| && s.pcs[c].Broadcasting?
    ensures History(StepThread(s, c))
  {
    if s.pcs[c].i < MAX_CLIENTS {
      SlotExtendsBlock(s, c);
      assert InProgress(StepThread(s, c), c, s.pcs[c].text, s.pcs[c].i + 1);
    } else {
      assert InProgress(s, c, s.pcs[c].text, s.pcs[c].i);
    }
  }

  lemma SameHistory(s: State, s': State)
    requires |s.pcs| == |s.socks| && |s'.pcs| == |s'.socks| && History(s)
    requires s'.log == s.log && s'.begun == s.begun && s'.lock == s.lock
    requires s.lock.Some? ==>
               && s.lock.value < |s'.pcs| && s'.pcs[s.lock.value] == s.pcs[s.lock.value]
               && s'.socks[s.lock.value].fd == s.socks[s.lock.value].fd
               && s'.slots == s.slots && Roster(s'.socks, s.slots) == Roster(s.socks, s.slots)
    ensures History(s')
  {
  }

  /** Events that neither take nor release the mutex nor send leave the history as it stands. */
  lemma OtherKeepsHistory(s: State, e: Event)
    requires Agreement(s) && History(s)
    requires e.Step? && e.c < |s.pcs| ==> !s.pcs[e.c].Holding? && !s.pcs[e.c].Broadcasting?
    ensures History(Apply(s, e))
  {
    if s.lock.Some? {
      assert Apply(s, e).slots == s.slots;
      RosterStable(s, e);
    }
    SameHistory(s, Apply(s, e));
  }

  lemma ApplyKeepsHistory(s: State, e: Event)
    requires Agreement(s) && History(s)
    ensures History(Apply(s, e))
  {
    if s.dead {
    } else if e.Step? && e.c < |s.pcs| && s.pcs[e.c].Holding? {
      BeginKeepsHistory(s, e.c);
    } else if e.Step? && e.c < |s.pcs| && s.pcs[e.c].Broadcasting? {
      SendKeepsHistory(s, e.c);
    } else {
      OtherKeepsHistory(s, e);
    }
  }

  /** Over every schedule the table agrees with the descriptors and the log is made of blocks. */
  lemma {:induction false} RunInvariant(es: seq<Event>)
    ensures Agreement(Run(es)) && |Run(es).slots| == 10
    ensures History(Run(es))
  {
    if es != [] {
      RunInvariant(es[..|es| - 1]);
      ApplyKeepsAgreement(Run(es[..|es| - 1]), es[|es| - 1]);
      ApplyKeepsHistory(Run(es[..|es| - 1]), es[|es| - 1]);
    }
  }

  /** No schedule sends on a descriptor that is closed or has been reused: only a failing send call
      ends the server, and the next slot of a broadcast under way always names a live member, the very
      connection that held the slot when the broadcast took the mutex. */
  lemma SendsReachMembers(es: seq<Event>, c: nat)
    requires c < |Run(es).pcs| && Run(es).pcs[c].Broadcasting?
    ensures |Run(es).slots| == MAX_CLIENTS
    ensures var s := Run(es);
            s.pcs[c].i < MAX_CLIENTS && s.slots[s.pcs[c].i] != 0 ==>
              && NamesMember(s, s.slots[s.pcs[c].i])
              && |s.begun| > 0 && |Last(s.begun).roster| == MAX_CLIENTS
              && Resolve(s.socks, s.slots[s.pcs[c].i]) == Last(s.begun).roster[s.pcs[c].i]
    ensures !Run(es).dead ==> !Run(es + [Step(c)]).dead
  {
    RunInvariant(es);
    assert (es + [Step(c)])[..|es|] == es;
    if Run(es).pcs[c].i < MAX_CLIENTS {
      assert InProgress(Run(es), c, Run(es).pcs[c].text, Run(es).pcs[c].i);
      SlotExtendsBlock(Run(es), c);
    }
  }

  predicate InTable(s: State, c: nat) {
    HasSlot(s.socks, s.slots, c)
  }

  lemma OutsiderIsNotInTable(s: State, c: nat)
    requires Agreement(s) && c < |s.pcs| && s.socks[c].open && !Member(s.pcs[c])
    ensures !InTable(s, c)
  {
  }

  lemma AddInTable(s: State, d: nat, c: nat)
    requires Agreement(s) && c < |s.pcs| && d < |s.pcs| && s.pcs[d] == Starting && s.lock.None?
    ensures InTable(StepThread(s, d), c) <==> InTable(s, c) || (d == c && 0 in s.slots)
  {
    ResolveOwn(s.socks, d);
    AddAt(s.slots, s.socks[d].fd, s.socks[c].fd);
    if s.socks[c].open { ResolveOwn(s.socks, c); }
    if d == c { OutsiderIsNotInTable(s, c); }
  }

  lemma RemoveInTable(s: State, d: nat, c: nat)
    requires Agreement(s) && c < |s.pcs| && d < |s.pcs| && s.pcs[d] == Leaving && s.lock.None?
    ensures InTable(StepThread(s, d), c) <==> InTable(s, c) && d != c
  {
    DropAt(s.slots, s.socks[d].fd, s.socks[c].fd);
  }

  /** A connection is in the table exactly from its own add, if that finds a free slot, to its own
      remove.  In particular a handler that was turned away never frees another client's slot. */
  lemma TableInterval(s: State, e: Event, c: nat)
    requires Agreement(s) && c < |s.pcs| && !s.dead
    ensures InTable(Apply(s, e), c) <==>
              || (InTable(s, c) && !(e == Step(c) && s.pcs[c] == Leaving && s.lock.None?))
              || (e == Step(c) && s.pcs[c] == Starting && s.lock.None? && 0 in s.slots)
  {
    if e.Step? && e.c < |s.pcs| {
      if s.pcs[e.c] == Starting {
        if s.lock.None? { AddInTable(s, e.c, c); }
      } else if s.pcs[e.c] == Leaving {
        if s.lock.None? { RemoveInTable(s, e.c, c); }
      } else if s.pcs[e.c] == Removed && e.c == c {
        OutsiderIsNotInTable(s, c);
      }
    }
  }

  /** The roster a broadcast records when it takes the mutex is the set of connections in the table. */
  lemma RosterIsTable(s: State, d: nat)
    requires Agreement(s)
    ensures Some(d) in Roster(s.socks, s.slots) <==> InTable(s, d)
  {
    var r := Roster(s.socks, s.slots);
    if InTable(s, d) {
      ResolveOwn(s.socks, d);
      var i := IndexOf(s.slots, s.socks[d].fd);
      assert s.slots[i] == s.socks[d].fd && r[i] == Some(d);
    }
  }

  // ---------------------------------------------------------------------------------------------
  // Inboxes are projections of the one sequence of broadcasts
  // ---------------------------------------------------------------------------------------------

  /** The first k broadcasts, restricted to those begun while c was in the table, minus its own. */
  function Heard(begun: seq<Begun>, c: nat, k: nat): seq<Note>
    requires k <= |begun|
  {
    if k == 0 then []
    else if Reaches(begun[k - 1], c) then Heard(begun, c, k - 1) + [Note(k - 1, begun[k - 1].msg)]
    else Heard(begun, c, k - 1)
  }

  /** A block reaches each connection of its roster once, and its sender not at all. */
  lemma {:induction false} InboxOfBlock(b: Begun, k: nat, i: nat, c: nat)
    requires NoDoubles(b.roster) && i <= |b.roster|
    ensures Inbox(Block(b, k, i), c) == if Among(b.roster, i, Some(c)) && c != b.sender then [Note(k, b.msg)] else []
  {
    if i > 0 {
      InboxOfBlock(b, k, i - 1, c);
      AmongNext(b.roster, i - 1, Some(c));
      if b.roster[i - 1].Some? {
        InboxStep(Block(b, k, i - 1), Letter(b.roster[i - 1].value, Note(k, b.msg)), c);
      }
    }
  }

  lemma InboxOfWholeBlock(b: Begun, k: nat, c: nat)
    requires NoDoubles(b.roster)
    ensures Inbox(WholeBlock(b, k), c) == if Reaches(b, c) then [Note(k, b.msg)] else []
  {
    InboxOfBlock(b, k, |b.roster|, c);
    assert Among(b.roster, |b.roster|, Some(c)) <==> Some(c) in b.roster;
  }

  lemma InboxOfNextBlock(before: seq<Delivery>, b: Begun, k: nat, c: nat)
    requires NoDoubles(b.roster)
    ensures Inbox(before + WholeBlock(b, k), c)
            == if Reaches(b, c) then Inbox(before, c) + [Note(k, b.msg)] else Inbox(before, c)
  {
    InboxOfWholeBlock(b, k, c);
    InboxConcat(before, WholeBlock(b, k), c);
  }

  lemma {:induction false} InboxOfBlocks(begun: seq<Begun>, k: nat, c: nat)
    requires k <= |begun| && forall b :: b in begun ==> NoDoubles(b.roster)
    ensures Inbox(Blocks(begun, k), c) == Heard(begun, c, k)
  {
    if k > 0 {
      InboxOfBlocks(begun, k - 1, c);
      InboxOfNextBlock(Blocks(begun, k - 1), begun[k - 1], k - 1, c);
    }
  }

  /** How many broadcasts have been delivered to c in full: all of them, but for one still under way
      that has not come to c's slot. */
  ghost function Settled(s: State, c: nat): (k: nat)
    requires Agreement(s) && History(s)
    ensures k <= |s.begun|
    ensures s.lock.None? ==> k == |s.begun|
    ensures k < |s.begun| ==> k == |s.begun| - 1
  {
    if s.lock.None? then |s.begun|
    else if Among(Last(s.begun).roster, s.pcs[s.lock.value].i, Some(c)) || !Reaches(Last(s.begun), c) then |s.begun|
    else |s.begun| - 1
  }

  lemma ProjectionMidBroadcast(s: State, c: nat)
    requires Agreement(s) && History(s) && s.lock.Some?
    ensures Inbox(s.log, c) == Heard(s.begun, c, Settled(s, c))
  {
    var n, i := |s.begun| - 1, s.pcs[s.lock.value].i;
    var b := s.begun[n];
    assert WellFormed(b);
    InboxConcat(Blocks(s.begun, n), Block(b, n, i), c);
    InboxOfBlocks(s.begun, n, c);
    InboxOfBlock(b, n, i, c);
  }

  /** In every reachable state each connection's inbox is the sequence of broadcasts, in the order
      their threads took the mutex, begun while it was in the table, minus its own. */
  lemma InboxIsProjection(es: seq<Event>, c: nat)
    ensures Agreement(Run(es)) && History(Run(es))
    ensures Inbox(Run(es).log, c) == Heard(Run(es).begun, c, Settled(Run(es), c))
  {
    RunInvariant(es);
    if Run(es).lock.Some? {
      ProjectionMidBroadcast(Run(es), c);
    } else {
      InboxOfBlocks(Run(es).begun, |Run(es).begun|, c);
    }
  }

  /** The notes of a that also stand in b, in the order of a. */
  function Shared(a: seq<Note>, b: seq<Note>): seq<Note> {
    if a == [] then []
    else if Last(a) in b then Shared(a[..|a| - 1], b) + [Last(a)]
    else Shared(a[..|a| - 1], b)
  }

  /** The first k broadcasts that reach both c and d. */
  function HeardByBoth(begun: seq<Begun>, c: nat, d: nat, k: nat): seq<Note>
    requires k <= |begun|
  {
    if k == 0 then []
    else if Reaches(begun[k - 1], c) && Reaches(begun[k - 1], d) then
      HeardByBoth(begun, c, d, k - 1) + [Note(k - 1, begun[k - 1].msg)]
    else HeardByBoth(begun, c, d, k - 1)
  }

  lemma {:induction false} HeardMembers(begun: seq<Begun>, c: nat, k: nat, x: Note)
    requires k <= |begun|
    ensures x in Heard(begun, c, k) <==> x.nth < k && Reaches(begun[x.nth], c) && x.msg == begun[x.nth].msg
  {
    if k > 0 { HeardMembers(begun, c, k - 1, x); }
  }

  lemma SharedStep(a: seq<Note>, x: Note, b: seq<Note>)
    ensures Shared(a + [x], b) == if x in b then Shared(a, b) + [x] else Shared(a, b)
  {
  }

  lemma {:induction false} SharedHeard(begun: seq<Begun>, c: nat, k: nat, d: nat, m: nat)
    requires k <= |begun| && m <= |begun|
    ensures Shared(Heard(begun, c, k), Heard(begun, d, m)) == HeardByBoth(begun, c, d, Min(k, m))
    decreases k
  {
    if k > 0 {
      SharedHeard(begun, c, k - 1, d, m);
      var x := Note(k - 1, begun[k - 1].msg);
      HeardMembers(begun, d, m, x);
      if Reaches(begun[k - 1], c) {
        SharedStep(Heard(begun, c, k - 1), x, Heard(begun, d, m));
      }
    }
  }

  lemma {:induction false} BothIsSymmetric(begun: seq<Begun>, c: nat, d: nat, k: nat)
    requires k <= |begun|
    ensures HeardByBoth(begun, c, d, k) == HeardByBoth(begun, d, c, k)
  {
    if k > 0 { BothIsSymmetric(begun, c, d, k - 1); }
  }

  /** Total-order broadcast: whatever the schedule, any two connections agree on the order of all the
      messages both have received. */
  lemma TotalOrder(es: seq<Event>, c: nat, d: nat)
    ensures var log := Run(es).log;
            Shared(Inbox(log, c), Inbox(log, d)) == Shared(Inbox(log, d), Inbox(log, c))
  {
    var s := Run(es);
    InboxIsProjection(es, c);
    InboxIsProjection(es, d);
    var k, m := Settled(s, c), Settled(s, d);
    SharedHeard(s.begun, c, k, d, m);
    SharedHeard(s.begun, d, m, c, k);
    BothIsSymmetric(s.begun, c, d, Min(k, m));
  }

  // ---------------------------------------------------------------------------------------------
  // What has happened is what the clients did
  // ---------------------------------------------------------------------------------------------

  /** Event e, in s, is the arrival of a message from c at its waiting handler. */
  predicate Arrives(s: State, e: Event, c: nat)
    requires |s.pcs| == |s.socks|
  {
    e.Receive? && e.c == c && c < |s.pcs| && s.pcs[c] == Receiving && !s.dead
  }

  /** The messages that have arrived from c. */
  function ReceivedFrom(es: seq<Event>, c: nat): seq<Msg> {
    if es == [] then []
    else
      var before, e := es[..|es| - 1], Last(es);
      ReceivedFrom(before, c) + if Arrives(Run(before), e, c) then [e.msg] else []
  }

  /** The messages c has begun to broadcast. */
  function SaidBy(begun: seq<Begun>, c: nat): seq<Msg> {
    if begun == [] then []
    else SaidBy(begun[..|begun| - 1], c) + if Last(begun).sender == c then [Last(begun).msg] else []
  }

  /** And those its handler still holds. */
  function HeldBy(s: State, c: nat): seq<Msg> {
    if c < |s.pcs| && s.pcs[c].Holding? then [s.pcs[c].msg] else []
  }

  lemma SaidByNext(begun: seq<Begun>, b: Begun, c: nat)
    ensures SaidBy(begun + [b], c) == SaidBy(begun, c) + if b.sender == c then [b.msg] else []
  {
    assert (begun + [b])[..|begun|] == begun;
  }

  /** A step of d begins at most the message that d holds, and touches nobody else. */
  lemma StepBegins(s: State, d: nat)
    requires |s.pcs| == |s.socks| && d < |s.pcs|
    ensures var s', begins := StepThread(s, d), s.pcs[d].Holding? && s.lock.None?;
            && |s'.pcs| == |s.pcs|
            && (forall c :: 0 <= c < |s.pcs| && c != d ==> s'.pcs[c] == s.pcs[c])
            && HeldBy(s', d) == (if begins then [] else HeldBy(s, d))
            && (if begins then |s'.begun| == |s.begun| + 1 && s'.begun == s.begun + [Last(s'.begun)]
                               && Last(s'.begun).sender == d && Last(s'.begun).msg == s.pcs[d].msg
                else s'.begun == s.begun)
  {
  }

  lemma StepIsHeld(s: State, d: nat, c: nat)
    requires |s.pcs| == |s.socks| && d < |s.pcs|
    ensures var s' := StepThread(s, d);
            SaidBy(s'.begun, c) + HeldBy(s', c) == SaidBy(s.begun, c) + HeldBy(s, c)
  {
    StepBegins(s, d);
    var s' := StepThread(s, d);
    if s'.begun != s.begun { SaidByNext(s.begun, Last(s'.begun), c); }
    assert c != d ==> HeldBy(s', c) == HeldBy(s, c);
  }

  lemma ArrivalIsHeld(s: State, e: Event, c: nat)
    requires |s.pcs| == |s.socks|
    ensures var s' := Apply(s, e);
            SaidBy(s'.begun, c) + HeldBy(s', c)
            == SaidBy(s.begun, c) + HeldBy(s, c) + if Arrives(s, e, c) then [e.msg] else []
  {
    if e.Step? {
      if e.c < |s.pcs| && !s.dead { StepIsHeld(s, e.c, c); }
    } else {
      assert Apply(s, e).begun == s.begun;
    }
  }

  /** Every broadcast carries what its client sent: the messages of c that have been begun, in order, and
      the one its handler holds, if any, are exactly those that have arrived from c. */
  lemma {:induction false} ReceivedIsBegun(es: seq<Event>, c: nat)
    ensures SaidBy(Run(es).begun, c) + HeldBy(Run(es), c) == ReceivedFrom(es, c)
  {
    if es != [] {
      ReceivedIsBegun(es[..|es| - 1], c);
      ArrivalIsHeld(Run(es[..|es| - 1]), Last(es), c);
    }
  }

  /** The descriptors accepted, in order. */
  function AcceptedFds(es: seq<Event>): seq<int> {
    if es == [] then []
    else
      var before, e := es[..|es| - 1], Last(es);
      AcceptedFds(before) +
      if e.Connect? && !Run(before).dead && CanAccept(Run(before).socks, e.fd) then [e.fd] else []
  }

  /** Client c has hung up on its waiting handler. */
  predicate HungUp(es: seq<Event>, c: nat) {
    es != [] &&
    var before, s := es[..|es| - 1], Run(es[..|es| - 1]);
    HungUp(before, c) || (Last(es) == HangUp(c) && c < |s.pcs| && s.pcs[c] == Receiving && !s.dead)
  }

  /** A send to another client has failed. */
  predicate SendFailed(es: seq<Event>) {
    es != [] &&
    var before, s, e := es[..|es| - 1], Run(es[..|es| - 1]), Last(es);
    || SendFailed(before)
    || (e.SendFails? && e.c < |s.pcs| && s.pcs[e.c].Broadcasting? && s.pcs[e.c].i < |s.slots|
        && s.slots[s.pcs[e.c].i] != 0 && s.slots[s.pcs[e.c].i] != s.socks[e.c].fd)
  }

  /** Past its last receive. */
  predicate Going(pc: Pc) {
    pc.Leaving? || pc.Removed? || pc.Closed?
  }

  lemma GoingStep(s: State, e: Event, c: nat)
    requires |s.pcs| == |s.socks| && c < |s.pcs|
    ensures Going(Apply(s, e).pcs[c]) <==> Going(s.pcs[c]) || (e == HangUp(c) && s.pcs[c] == Receiving && !s.dead)
  {
  }

  lemma NobodyNewIsGoing(s: State, e: Event)
    requires |s.pcs| == |s.socks|
    ensures |s.pcs| <= |Apply(s, e).pcs|
    ensures forall c :: |s.pcs| <= c < |Apply(s, e).pcs| ==> !Going(Apply(s, e).pcs[c])
  {
  }

  /** A handler is on its way out exactly when its client has hung up. */
  lemma {:induction false} LeavingIsHangingUp(es: seq<Event>, c: nat)
    ensures c < |Run(es).pcs| && Going(Run(es).pcs[c]) <==> HungUp(es, c)
  {
    if es != [] {
      var s := Run(es[..|es| - 1]);
      LeavingIsHangingUp(es[..|es| - 1], c);
      if c < |s.pcs| { GoingStep(s, Last(es), c); }
      NobodyNewIsGoing(s, Last(es));
    }
  }

  lemma FdsStep(s: State, e: Event)
    requires |s.pcs| == |s.socks|
    ensures var s', joins := Apply(s, e), e.Connect? && !s.dead && CanAccept(s.socks, e.fd);
            && |s'.socks| == |s.socks| + (if joins then 1 else 0)
            && (forall c :: 0 <= c < |s.socks| ==> s'.socks[c].fd == s.socks[c].fd)
            && (joins ==> Last(s'.socks).fd == e.fd)
  {
  }

  /** The connections are those accepted, under the descriptors they were given. */
  lemma {:induction false} ConnectionsAreAccepted(es: seq<Event>)
    ensures |Run(es).socks| == |AcceptedFds(es)|
    ensures forall c :: 0 <= c < |Run(es).socks| ==> Run(es).socks[c].fd == AcceptedFds(es)[c]
  {
    if es != [] {
      ConnectionsAreAccepted(es[..|es| - 1]);
      FdsStep(Run(es[..|es| - 1]), Last(es));
    }
  }

  lemma OnlySendsKill(s: State, e: Event)
    requires Agreement(s) && History(s) && !s.dead
    ensures Apply(s, e).dead <==>
              e.SendFails? && e.c < |s.pcs| && s.pcs[e.c].Broadcasting? && s.pcs[e.c].i < |s.slots|
              && s.slots[s.pcs[e.c].i] != 0 && s.slots[s.pcs[e.c].i] != s.socks[e.c].fd
  {
    if e.Step? && e.c < |s.pcs| && s.pcs[e.c].Broadcasting? && s.pcs[e.c].i < MAX_CLIENTS { SlotExtendsBlock(s, e.c); }
  }

  /** Only a failing send ends the server, and it does. */
  lemma {:induction false} DeadExactly(es: seq<Event>)
    ensures Run(es).dead <==> SendFailed(es)
  {
    if es != [] {
      DeadExactly(es[..|es| - 1]);
      RunInvariant(es[..|es| - 1]);
      if !Run(es[..|es| - 1]).dead { OnlySendsKill(Run(es[..|es| - 1]), Last(es)); }
    }
  }

  // ---------------------------------------------------------------------------------------------
  // No thread is ever stuck
  // ---------------------------------------------------------------------------------------------

  /** Steps a thread has to go until it waits for its client or has closed. */
  function Distance(pc: Pc): int {
    match pc
    case Starting => 1
    case Receiving => 0
    case Holding(_) => MAX_CLIENTS + 2
    case Broadcasting(_, i) => MAX_CLIENTS + 1 - i
    case Leaving => 2
    case Removed => 1
    case Closed => 0
  }

  /** Every step a thread takes brings it nearer, and leaves the others where they are. */
  lemma StepsComeNearer(s: State, c: nat)
    requires Agreement(s) && History(s) && c < |s.pcs| && Apply(s, Step(c)) != s
    ensures var s' := Apply(s, Step(c));
            && 0 <= Distance(s'.pcs[c]) < Distance(s.pcs[c])
            && |s'.pcs| == |s.pcs|
            && forall d :: 0 <= d < |s.pcs| && d != c ==> s'.pcs[d] == s.pcs[d]
  {
    if s.pcs[c].Broadcasting? {
      assert InProgress(s, c, s.pcs[c].text, s.pcs[c].i);
      if s.pcs[c].i < MAX_CLIENTS { SlotExtendsBlock(s, c); }
    }
  }

  ghost predicate NoStepLeft(s: State)
    requires |s.pcs| == |s.socks|
  {
    forall c :: 0 <= c < |s.pcs| ==> Apply(s, Step(c)) == s
  }

  lemma RestingPlace(s: State, c: nat)
    requires Agreement(s) && History(s) && !s.dead && NoStepLeft(s) && c < |s.pcs|
    ensures s.lock.None? && (s.pcs[c] == Receiving || s.pcs[c] == Closed)
  {
    if s.lock.Some? {
      var d := s.lock.value;
      assert Apply(s, Step(d)) == s;
      if s.pcs[d].i < MAX_CLIENTS { SlotExtendsBlock(s, d); }
    }
    assert Apply(s, Step(c)) == s;
  }

  /** The mutex never blocks for good: when no thread of a live server can take a step, each has closed if
      its client has hung up and waits for its client if not, everything that arrived has been broadcast,
      and every broadcast has been delivered. */
  lemma AtRestAllIsDone(es: seq<Event>, c: nat)
    requires !Run(es).dead && NoStepLeft(Run(es)) && c < |Run(es).pcs|
    ensures var s := Run(es);
            && s.pcs[c] == (if HungUp(es, c) then Closed else Receiving)
            && (s.socks[c].open <==> !HungUp(es, c))
            && SaidBy(s.begun, c) == ReceivedFrom(es, c)
            && Inbox(s.log, c) == Heard(s.begun, c, |s.begun|)
  {
    RunInvariant(es);
    RestingPlace(Run(es), c);
    LeavingIsHangingUp(es, c);
    ReceivedIsBegun(es, c);
    InboxIsProjection(es, c);
  }

  // ---------------------------------------------------------------------------------------------
  // The table code
  // ---------------------------------------------------------------------------------------------

  /** What broadcast k delivers, with its ordinal. */
  function Stamped(letters: seq<Letter<nat, Msg>>, k: nat): seq<Delivery> {
    seq(|letters|, i requires 0 <= i < |letters| => Letter(letters[i].to, Note(k, letters[i].what)))
  }

  lemma StampedStep(letters: seq<Letter<nat, Msg>>, x: Letter<nat, Msg>, k: nat)
    ensures Stamped(letters + [x], k) == Stamped(letters, k) + [Letter(x.to, Note(k, x.what))]
  {
  }

  /** A block of the interleaved server is the broadcast loop run alone: the same send calls, which
      compare descriptors, reach the connections of the roster other than the sender. */
  lemma {:induction false} BlockIsBroadcast(s: State, c: nat, msg: Msg, k: nat, i: nat)
    requires Agreement(s) && c < |s.pcs| && s.pcs[c] != Closed && i <= MAX_CLIENTS
    ensures Block(Begun(c, msg, s.socks[c].fd, s.slots, Roster(s.socks, s.slots)), k, i)
            == Stamped(Arrivals(s.socks, Sends(s.slots, s.socks[c].fd, msg, i), {}), k)
  {
    if i > 0 {
      var fd, sends := s.slots[i - 1], Sends(s.slots, s.socks[c].fd, msg, i - 1);
      BlockIsBroadcast(s, c, msg, k, i - 1);
      SnapshotWellFormed(s, c, msg);
      assert Roster(s.socks, s.slots)[i - 1] == if fd == 0 then None else Resolve(s.socks, fd);
      if fd != 0 && fd != s.socks[c].fd {
        ArrivalsStep(s.socks, sends, Send(fd, msg), {});
        StampedStep(Arrivals(s.socks, sends, {}), Letter(Resolve(s.socks, fd).value, msg), k);
      }
    }
  }

  /** The send calls of one handler's messages over an unchanging table. */
  function AllSends(slots: seq<int>, sender: int, msgs: seq<Msg>): seq<Send> {
    if msgs == [] then []
    else AllSends(slots, sender, msgs[..|msgs| - 1]) + Sends(slots, sender, Last(msgs), |slots|)
  }

  class ChatTable {
    const clientSockets: array<int>
    var wire: seq<Send>
    /** History: a send has failed. */
    var broken: bool

    constructor ()
      ensures fresh(clientSockets) && clientSockets[..] == FREE_TABLE && wire == [] && !broken
    {
      clientSockets := new int[MAX_CLIENTS](_ => 0);
      wire, broken := [], false;
    }

    method SendTo(fd: int, message: Msg) returns (ok: bool)
      modifies this`wire, this`broken
      ensures broken == (old(broken) || !ok)
      ensures wire == if ok then old(wire) + [Send(fd, message)] else old(wire)
    {
      if * {
        broken := true;
        return false;
      }
      wire := wire + [Send(fd, message)];
      return true;
    }

    method Add(fd: int)
      modifies clientSockets
      ensures clientSockets[..] == AddSlot(old(clientSockets[..]), fd)
    {
      for i := 0 to clientSockets.Length
        invariant clientSockets[..] == old(clientSockets[..])
        invariant i <= IndexOf(clientSockets[..], 0)
      {
        if clientSockets[i] == 0 {
          clientSockets[i] := fd;
          break;
        }
      }
    }

    method Remove(fd: int)
      modifies clientSockets
      ensures clientSockets[..] == DropSlot(old(clientSockets[..]), fd)
    {
      for i := 0 to clientSockets.Length
        invariant clientSockets[..] == old(clientSockets[..])
        invariant i <= IndexOf(clientSockets[..], fd)
      {
        if clientSockets[i] == fd {
          clientSockets[i] := 0;
          break;
        }
      }
    }

    /** If a send fails, and only then, the whole server ends. */
    method Broadcast(message: Msg, sender: int) returns (died: bool)
      modifies this`wire, this`broken
      ensures broken == (old(broken) || died)
      ensures !died ==> wire == old(wire) + Sends(clientSockets[..], sender, message, clientSockets.Length)
      ensures died ==> exists k :: 0 <= k < clientSockets.Length && clientSockets[k] != 0 && clientSockets[k] != sender
                                   && wire == old(wire) + Sends(clientSockets[..], sender, message, k)
    {
      for i := 0 to clientSockets.Length
        invariant wire == old(wire) + Sends(clientSockets[..], sender, message, i) && broken == old(broken)
      {
        if clientSockets[i] != 0 && clientSockets[i] != sender {
          var ok := SendTo(clientSockets[i], message);
          if !ok {
            return true;
          }
        }
      }
      died := false;
    }

    /** A handler run without interference: it hands every message it receives to all others, and
        leaves the table as it found it. */
    method HandleTCPClient(fd: int, received: seq<Msg>) returns (died: bool)
      requires fd > 0 && fd !in clientSockets[..]
      modifies this`wire, this`broken, clientSockets
      ensures broken == (old(broken) || died)
      ensures !died ==> clientSockets[..] == old(clientSockets[..])
      ensures !died ==> wire == old(wire) + AllSends(AddSlot(old(clientSockets[..]), fd), fd, received)
    {
      Add(fd);
      ghost var table := clientSockets[..];
      for n := 0 to |received|
        invariant clientSockets[..] == table && broken == old(broken)
        invariant wire == old(wire) + AllSends(table, fd, received[..n])
      {
        died := Broadcast(received[n], fd);
        if died { return; }
        assert received[..n + 1][..n] == received[..n];
      }
      assert received[..|received|] == received;
      AddThenDrop(old(clientSockets[..]), fd);
      Remove(fd);
      died := false;
    }
  }
}
