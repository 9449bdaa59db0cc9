/** The threaded echo server whose console lines go to every client, with a dense client list
    (Test_Code/tcp_chat_broadcast_server.c).

    The accept loop, the console thread and any number of handlers are interleaved by Apply.  Adding
    to and removing from the list happen under the mutex and are one event each; the console thread
    sends to one client per event while it holds the mutex; handlers echo without it.  The class
    ClientList at the end is the list code itself. */
module BroadcastChat {
  import opened Common
  import opened Kernel

  type Text = string

  const MAXCLIENTS: nat := 100

  // ---------------------------------------------------------------------------------------------
  // The list
  // ---------------------------------------------------------------------------------------------

  function AddClient(list: seq<int>, fd: int): seq<int> {
    if |list| < MAXCLIENTS then list + [fd] else list
  }

  /** The list without the first x; unchanged when x is not in it. */
  function RemoveFirst<T(==)>(list: seq<T>, x: T): (r: seq<T>)
    ensures x !in list ==> r == list
    ensures |r| <= |list|
  {
    var i := IndexOf(list, x);
    if i < |list| then Without(list, i) else list
  }

  // ---------------------------------------------------------------------------------------------
  // The transition system
  // ---------------------------------------------------------------------------------------------

  datatype Pc = Accepted | Receiving | Echoing(data: Text) | Leaving | Removed | Closed

  /** A block on its way to a client: echoed by its handler, or a console line. */
  datatype Source = FromHandler | FromConsole

  datatype Block = Block(source: Source, text: Text)

  /** Per connection: the handler's place, what the handler has received, the blocks sent to the
      client, whether the list had room for it and, as history, which of the console sends on it went
      through. */
  datatype Conn = Conn(pc: Pc, received: seq<Text>, outbound: seq<Block>, admitted: bool, through: seq<bool>)

  datatype Console = Idle | Sending(line: Text, i: nat)

  /** History: a console line and the connections in the list when its sending began. */
  datatype Begun = Begun(line: Text, roster: seq<nat>)

  /** The console thread holds the mutex while it is Sending.  accepting tells that the accept loop
      stands between accept and add_client, with the newest connection. */
  datatype State = State(
    list: seq<int>,
    console: Console,
    accepting: bool,
    socks: seq<Endpoint>,
    conns: seq<Conn>,
    begun: seq<Begun>,
    dead: bool)

  datatype Event =
    | Connect(fd: int)
    | Add
    | Line(line: Text)
    | ConsoleStep(ok: bool)
    | Receive(c: nat, data: Text)
    | HangUp(c: nat)
    | Fail(c: nat)
    | Step(c: nat)

  const INIT := State([], Idle, false, [], [], [], false)

  predicate InList(c: Conn) {
    c.admitted && (c.pc.Receiving? || c.pc.Echoing? || c.pc.Leaving?)
  }

  /** The connections that have been admitted and not yet removed, in order of arrival. */
  function Registered(conns: seq<Conn>, n: nat): (r: seq<nat>)
    requires n <= |conns|
  {
    if n == 0 then []
    else if InList(conns[n - 1]) then Registered(conns, n - 1) + [n - 1]
    else Registered(conns, n - 1)
  }

  function SetPc(s: State, c: nat, pc: Pc): State
    requires c < |s.conns|
  {
    s.(conns := s.conns[c := s.conns[c].(pc := pc)])
  }

  function Deliver(conn: Conn, b: Block): Conn {
    conn.(outbound := conn.outbound + [b])
  }

  /** A console send; a failing one is passed over. */
  function Announce(conn: Conn, line: Text, ok: bool): Conn {
    (if ok then Deliver(conn, Block(FromConsole, line)) else conn).(through := conn.through + [ok])
  }

  function AddNewest(s: State, c: nat): State
    requires |s.conns| == |s.socks| && c < |s.conns|
  {
    s.(accepting := false,
       list := AddClient(s.list, s.socks[c].fd),
       conns := s.conns[c := s.conns[c].(pc := Receiving, admitted := |s.list| < MAXCLIENTS)])
  }

  /** The result of a console send is ignored, so a send that fails, or names no open descriptor, is
      passed over. */
  function StepConsole(s: State, line: Text, i: nat, ok: bool): State
    requires |s.conns| == |s.socks|
  {
    if i >= |s.list| then s.(console := Idle)
    else
      match Resolve(s.socks, s.list[i])
      case None => s.(console := Sending(line, i + 1))
      case Some(c) => s.(console := Sending(line, i + 1), conns := s.conns[c := Announce(s.conns[c], line, ok)])
  }

  function StepHandler(s: State, c: nat): State
    requires |s.conns| == |s.socks| && c < |s.conns|
  {
    match s.conns[c].pc
    case Echoing(data) =>
      s.(conns := s.conns[c := Deliver(s.conns[c], Block(FromHandler, data)).(pc := Receiving)])
    case Leaving =>
      if s.console.Sending? then s
      else SetPc(s.(list := RemoveFirst(s.list, s.socks[c].fd)), c, Removed)
    case Removed => SetPc(s.(socks := Close(s.socks, c)), c, Closed)
    case _ => s
  }

  function Apply(s: State, e: Event): (r: State)
    requires |s.conns| == |s.socks|
    ensures |r.conns| == |r.socks|
  {
    if s.dead then s else
    match e
    case Connect(fd) =>
      if s.accepting || !CanAccept(s.socks, fd) then s
      else s.(accepting := true, socks := Accept(s.socks, fd), conns := s.conns + [Conn(Accepted, [], [], false, [])])
    case Add =>
      if !s.accepting || s.console.Sending? || |s.conns| == 0 then s
      else AddNewest(s, |s.conns| - 1)
    case Line(line) =>
      if s.console.Sending? || line == [] then s
      else s.(console := Sending(line, 0), begun := s.begun + [Begun(line, Registered(s.conns, |s.conns|))])
    case ConsoleStep(ok) =>
      if s.console.Idle? then s else StepConsole(s, s.console.line, s.console.i, ok)
    case Receive(c, data) =>
      if c < |s.conns| && s.conns[c].pc == Receiving && data != [] then
        SetPc(s.(conns := s.conns[c := s.conns[c].(received := s.conns[c].received + [data])]), c, Echoing(data))
      else s
    case HangUp(c) =>
      if c < |s.conns| && s.conns[c].pc == Receiving then SetPc(s, c, Leaving) else s
    case Fail(c) =>
      if c < |s.conns| && (s.conns[c].pc.Receiving? || s.conns[c].pc.Echoing?) then s.(dead := true) else s
    case Step(c) =>
      if c < |s.conns| then StepHandler(s, c) else s
  }

  function Run(es: seq<Event>): (s: State)
    ensures |s.conns| == |s.socks|
  {
    if es == [] then INIT else Apply(Run(es[..|es| - 1]), Last(es))
  }

  // ---------------------------------------------------------------------------------------------
  // The list is the registered connections in order of arrival
  // ---------------------------------------------------------------------------------------------

  function Fds(socks: seq<Endpoint>, ids: seq<nat>): (r: seq<int>)
    ensures |r| == |ids|
  {
    seq(|ids|, i requires 0 <= i < |ids| => if ids[i] < |socks| then socks[ids[i]].fd else 0)
  }

  ghost predicate ArrivalOrder(conns: seq<Conn>, n: nat, r: seq<nat>)
    requires n <= |conns|
  {
    && (forall i :: 0 <= i < |r| ==> r[i] < n && InList(conns[r[i]]))
    && (forall i, j :: 0 <= i < j < |r| ==> r[i] < r[j])
    && (forall c: nat :: c < n && InList(conns[c]) ==> c in r)
  }

  /** Registered holds exactly the connections in the list, each once, in order of arrival. */
  lemma {:induction false} RegisteredMembers(conns: seq<Conn>, n: nat)
    requires n <= |conns|
    ensures ArrivalOrder(conns, n, Registered(conns, n))
  {
    if n > 0 {
      RegisteredMembers(conns, n - 1);
      var q, r := Registered(conns, n - 1), Registered(conns, n);
      forall c: nat | c < n && InList(conns[c]) ensures c in r {
        if c == n - 1 {
          assert r[|q|] == c;
        } else {
          var i := IndexOf(q, c);
          assert r[i] == q[i];
        }
      }
    }
  }

  /** The list is exactly what the code's history says it should be: descriptor for descriptor the
      admitted, still registered connections in order of arrival, within capacity. */
  ghost predicate Listed(s: State) {
    && |s.conns| == |s.socks|
    && Sound(s.socks)
    && (forall c :: 0 <= c < |s.conns| ==> (s.socks[c].open <==> s.conns[c].pc != Closed))
    && (forall c :: 0 <= c < |s.conns| ==> (s.conns[c].pc == Accepted <==> s.accepting && c == |s.conns| - 1))
    && (forall c :: 0 <= c < |s.conns| ==> s.conns[c].pc == Accepted ==> !s.conns[c].admitted)
    && s.list == Fds(s.socks, Registered(s.conns, |s.conns|))
    && |s.list| <= MAXCLIENTS
    && (s.accepting ==> |s.conns| > 0)
  }

  /** Registered depends only on who is in the list. */
  lemma {:induction false} RegisteredSame(a: seq<Conn>, b: seq<Conn>, n: nat)
    requires n <= |a| && n <= |b|
    requires forall c :: 0 <= c < n ==> (InList(a[c]) <==> InList(b[c]))
    ensures Registered(a, n) == Registered(b, n)
  {
    if n > 0 { RegisteredSame(a, b, n - 1); }
  }

  lemma RemoveFirstAt<T>(a: seq<T>, x: T, i: nat)
    requires i < |a| && a[i] == x && forall j :: 0 <= j < i ==> a[j] != x
    ensures RemoveFirst(a, x) == Without(a, i)
  {
  }

  lemma RemoveFirstAppend<T>(a: seq<T>, y: T, x: T)
    ensures RemoveFirst(a + [y], x) == if x !in a && x == y then a else RemoveFirst(a, x) + [y]
  {
    if x in a {
      var i := IndexOf(a, x);
      RemoveFirstAt(a + [y], x, i);
      assert Without(a + [y], i) == Without(a, i) + [y];
    } else if x == y {
      RemoveFirstAt(a + [y], x, |a|);
      assert Without(a + [y], |a|) == a;
    }
  }

  /** The sequence without any c. */
  function Minus(ids: seq<nat>, c: nat): seq<nat> {
    if ids == [] then []
    else if Last(ids) == c then Minus(ids[..|ids| - 1], c)
    else Minus(ids[..|ids| - 1], c) + [Last(ids)]
  }

  lemma MinusStep(ids: seq<nat>, x: nat, c: nat)
    ensures Minus(ids + [x], c) == if x == c then Minus(ids, c) else Minus(ids, c) + [x]
  {
  }

  /** When one connection goes, Registered loses it and nobody else. */
  lemma {:induction false} RegisteredWithout(a: seq<Conn>, b: seq<Conn>, c: nat, n: nat)
    requires c < |a| == |b| && !InList(b[c]) && n <= |a|
    requires forall d :: 0 <= d < |a| && d != c ==> (InList(a[d]) <==> InList(b[d]))
    ensures Registered(b, n) == Minus(Registered(a, n), c)
  {
    if n > 0 {
      RegisteredWithout(a, b, c, n - 1);
      if InList(a[n - 1]) {
        MinusStep(Registered(a, n - 1), n - 1, c);
      }
    }
  }

  /** Distinct open connections, by their numbers. */
  ghost predicate OpenOnce(socks: seq<Endpoint>, ids: seq<nat>) {
    Distinct(ids) && forall i :: 0 <= i < |ids| ==> ids[i] < |socks| && socks[ids[i]].open
  }

  lemma {:induction false} MinusIsRemoveFirst(ids: seq<nat>, c: nat)
    requires Distinct(ids)
    ensures Minus(ids, c) == RemoveFirst(ids, c)
  {
    if ids != [] {
      var r, x := ids[..|ids| - 1], Last(ids);
      assert ids == r + [x] && x !in r;
      MinusIsRemoveFirst(r, c);
      RemoveFirstAppend(r, x, c);
    }
  }

  /** Deletion by descriptor is deletion by connection: the shift loop takes out the one connection
      the descriptor stands for. */
  lemma FdsWithout(socks: seq<Endpoint>, ids: seq<nat>, c: nat)
    requires Sound(socks) && c < |socks| && socks[c].open && OpenOnce(socks, ids)
    ensures RemoveFirst(Fds(socks, ids), socks[c].fd) == Fds(socks, RemoveFirst(ids, c))
  {
    var k, m := IndexOf(ids, c), IndexOf(Fds(socks, ids), socks[c].fd);
    if m < |ids| { assert Fds(socks, ids)[m] == socks[ids[m]].fd; }
    if k < |ids| { assert Fds(socks, ids)[k] == socks[c].fd; }
    assert m == k;
  }

  lemma ListedOpenOnce(s: State)
    requires Listed(s)
    ensures OpenOnce(s.socks, Registered(s.conns, |s.conns|))
  {
    RegisteredMembers(s.conns, |s.conns|);
  }

  lemma RegisteredAfter(a: seq<Conn>, b: seq<Conn>, c: nat)
    requires c < |a| == |b| && !InList(b[c])
    requires forall d :: 0 <= d < |a| && d != c ==> (InList(a[d]) <==> InList(b[d]))
    ensures Registered(b, |b|) == RemoveFirst(Registered(a, |a|), c)
  {
    RegisteredMembers(a, |a|);
    RegisteredWithout(a, b, c, |a|);
    MinusIsRemoveFirst(Registered(a, |a|), c);
  }

  lemma RemovedFromList(s: State, c: nat)
    requires Listed(s) && c < |s.conns| && s.conns[c].pc == Leaving && s.console.Idle?
    ensures var s' := StepHandler(s, c);
            && s'.list == Fds(s.socks, Registered(s'.conns, |s.conns|))
            && |s'.list| <= MAXCLIENTS
  {
    ListedOpenOnce(s);
    RegisteredAfter(s.conns, StepHandler(s, c).conns, c);
    FdsWithout(s.socks, Registered(s.conns, |s.conns|), c);
  }

  lemma RemoveKeepsListed(s: State, c: nat)
    requires Listed(s) && c < |s.conns| && s.conns[c].pc == Leaving
    ensures Listed(StepHandler(s, c))
  {
    if s.console.Idle? { RemovedFromList(s, c); }
  }

  lemma AddKeepsListed(s: State)
    requires Listed(s)
    ensures Listed(Apply(s, Add))
  {
    if !s.dead && s.accepting && s.console.Idle? {
      var s' := Apply(s, Add);
      RegisteredSame(s.conns, s'.conns, |s.conns| - 1);
    }
  }

  /** Numbers already given do not change when connections come and go. */
  lemma FdsStable(socks: seq<Endpoint>, ids: seq<nat>, fd: int, c: nat)
    requires forall i :: 0 <= i < |ids| ==> ids[i] < |socks|
    ensures Fds(Accept(socks, fd), ids) == Fds(socks, ids)
    ensures c < |socks| ==> Fds(Close(socks, c), ids) == Fds(socks, ids)
  {
  }

  lemma ClosedConns(s: State, c: nat)
    requires Listed(s) && c < |s.conns| && s.conns[c].pc == Removed
    ensures Registered(StepHandler(s, c).conns, |s.conns|) == Registered(s.conns, |s.conns|)
    ensures Fds(Close(s.socks, c), Registered(s.conns, |s.conns|)) == s.list
  {
    RegisteredSame(s.conns, StepHandler(s, c).conns, |s.conns|);
    ListedOpenOnce(s);
    FdsStable(s.socks, Registered(s.conns, |s.conns|), 0, c);
  }

  lemma CloseKeepsListed(s: State, c: nat)
    requires Listed(s) && c < |s.conns| && s.conns[c].pc == Removed
    ensures Listed(StepHandler(s, c))
  {
    ClosedConns(s, c);
    CloseResolve(s.socks, c, 0);
  }

  lemma ConnectKeepsList(s: State, fd: int)
    requires Listed(s) && !s.dead && !s.accepting && CanAccept(s.socks, fd)
    ensures var s' := Apply(s, Connect(fd)); s'.list == Fds(s'.socks, Registered(s'.conns, |s'.conns|))
  {
    var s' := Apply(s, Connect(fd));
    ListedOpenOnce(s);
    FdsStable(s.socks, Registered(s.conns, |s.conns|), fd, 0);
    RegisteredSame(s.conns, s'.conns, |s.conns|);
    assert !InList(s'.conns[|s.conns|]);
  }

  lemma ConnectKeepsListed(s: State, fd: int)
    requires Listed(s) && !s.dead && !s.accepting && CanAccept(s.socks, fd)
    ensures Listed(Apply(s, Connect(fd)))
  {
    AcceptResolve(s.socks, fd, 0);
    ConnectKeepsList(s, fd);
  }

  /** Handlers' and console's progress that changes neither the list nor who is in it. */
  lemma SameMembersListed(s: State, s': State)
    requires Listed(s) && |s'.conns| == |s.conns|
    requires s'.list == s.list && s'.socks == s.socks && s'.accepting == s.accepting
    requires forall c :: 0 <= c < |s.conns| ==>
               && (InList(s'.conns[c]) <==> InList(s.conns[c]))
               && (s'.conns[c].pc == Accepted <==> s.conns[c].pc == Accepted)
               && (s'.conns[c].pc == Closed <==> s.conns[c].pc == Closed)
               && s'.conns[c].admitted == s.conns[c].admitted
    ensures Listed(s')
  {
    RegisteredSame(s.conns, s'.conns, |s.conns|);
  }

  lemma ConsoleKeepsListed(s: State, e: Event)
    requires Listed(s) && (e.Line? || e.ConsoleStep?)
    ensures Listed(Apply(s, e))
  {
    SameMembersListed(s, Apply(s, e));
  }

  lemma OtherKeepsListed(s: State, e: Event)
    requires Listed(s) && (e.Receive? || e.HangUp? || e.Fail? || e.Step?)
    requires e.Step? && e.c < |s.conns| ==> s.conns[e.c].pc != Leaving && s.conns[e.c].pc != Removed
    ensures Listed(Apply(s, e))
  {
    SameMembersListed(s, Apply(s, e));
  }

  lemma ApplyKeepsListed(s: State, e: Event)
    requires Listed(s)
    ensures Listed(Apply(s, e))
  {
    if s.dead {
    } else if e.Connect? {
      if !s.accepting && CanAccept(s.socks, e.fd) { ConnectKeepsListed(s, e.fd); }
    } else if e == Add {
      AddKeepsListed(s);
    } else if e.Line? || e.ConsoleStep? {
      ConsoleKeepsListed(s, e);
    } else if e.Step? && e.c < |s.conns| && s.conns[e.c].pc == Leaving {
      RemoveKeepsListed(s, e.c);
    } else if e.Step? && e.c < |s.conns| && s.conns[e.c].pc == Removed {
      CloseKeepsListed(s, e.c);
    } else {
      OtherKeepsListed(s, e);
    }
  }

  lemma {:induction false} RunListed(es: seq<Event>)
    ensures Listed(Run(es))
  {
    if es != [] {
      RunListed(es[..|es| - 1]);
      ApplyKeepsListed(Run(es[..|es| - 1]), Last(es));
    }
  }

  lemma FdsDistinct(socks: seq<Endpoint>, ids: seq<nat>)
    requires Sound(socks) && OpenOnce(socks, ids)
    ensures Distinct(Fds(socks, ids))
  {
  }

  /** Over every schedule the list is the arrival-order sequence of admitted, still registered
      connections, without repeats, and never beyond its capacity. */
  lemma ListIsArrivalOrder(es: seq<Event>)
    ensures var s := Run(es);
            && s.list == Fds(s.socks, Registered(s.conns, |s.conns|))
            && ArrivalOrder(s.conns, |s.conns|, Registered(s.conns, |s.conns|))
            && Distinct(s.list) && |s.list| <= MAXCLIENTS
  {
    var s := Run(es);
    RunListed(es);
    RegisteredMembers(s.conns, |s.conns|);
    ListedOpenOnce(s);
    FdsDistinct(s.socks, Registered(s.conns, |s.conns|));
  }

  lemma FdAbsent(socks: seq<Endpoint>, ids: seq<nat>, c: nat)
    requires Sound(socks) && c < |socks| && socks[c].open && c !in ids && OpenOnce(socks, ids)
    ensures socks[c].fd !in Fds(socks, ids)
  {
  }

  /** The remove of a handler whose connection was never admitted leaves the list as it is, because
      its descriptor is still its own. */
  lemma UnadmittedRemoveIsHarmless(s: State, c: nat)
    requires Listed(s) && c < |s.conns| && s.conns[c].pc == Leaving && !s.conns[c].admitted
    ensures StepHandler(s, c).list == s.list
  {
    ListedOpenOnce(s);
    FdAbsent(s.socks, Registered(s.conns, |s.conns|), c) by { RegisteredMembers(s.conns, |s.conns|); }
  }

  // ---------------------------------------------------------------------------------------------
  // Each client's stream is a merge of its echoes and the console lines
  // ---------------------------------------------------------------------------------------------

  /** The texts of the blocks from one source, in order. */
  function Part(blocks: seq<Block>, source: Source): seq<Text> {
    if blocks == [] then []
    else if Last(blocks).source == source then Part(blocks[..|blocks| - 1], source) + [Last(blocks).text]
    else Part(blocks[..|blocks| - 1], source)
  }

  function Texts(blocks: seq<Block>): seq<Text> {
    if blocks == [] then [] else Texts(blocks[..|blocks| - 1]) + [Last(blocks).text]
  }

  /** The first k console lines whose sending began while c was in the list. */
  function LinesFor(begun: seq<Begun>, c: nat, k: nat): seq<Text>
    requires k <= |begun|
  {
    if k == 0 then []
    else if c in begun[k - 1].roster then LinesFor(begun, c, k - 1) + [begun[k - 1].line]
    else LinesFor(begun, c, k - 1)
  }

  /** The console lines c is owed so far: of a line under way, only if its turn has passed. */
  function Owed(s: State, c: nat): seq<Text> {
    if s.console.Idle? || |s.begun| == 0 then LinesFor(s.begun, c, |s.begun|)
    else if c in Last(s.begun).roster[..Min(s.console.i, |Last(s.begun).roster|)] then LinesFor(s.begun, c, |s.begun|)
    else LinesFor(s.begun, c, |s.begun| - 1)
  }

  /** The lines whose send went through: a subsequence of lines. */
  function Pick(lines: seq<Text>, through: seq<bool>): seq<Text>
    requires |lines| == |through|
  {
    if lines == [] then []
    else
      var before := Pick(lines[..|lines| - 1], through[..|lines| - 1]);
      if Last(through) then before + [Last(lines)] else before
  }

  lemma PickStep(lines: seq<Text>, through: seq<bool>, line: Text, ok: bool)
    requires |lines| == |through|
    ensures Pick(lines + [line], through + [ok]) == Pick(lines, through) + if ok then [line] else []
  {
    assert (lines + [line])[..|lines|] == lines && (through + [ok])[..|lines|] == through;
  }

  lemma {:induction false} PickAll(lines: seq<Text>, through: seq<bool>)
    requires |lines| == |through| && false !in through
    ensures Pick(lines, through) == lines
  {
    if lines != [] { PickAll(lines[..|lines| - 1], through[..|lines| - 1]); }
  }

  /** What the handler of c has echoed: all it has received but for a block it is about to echo. */
  function Echoed(c: Conn): seq<Text> {
    if c.pc.Echoing? && |c.received| > 0 then c.received[..|c.received| - 1] else c.received
  }

  ghost predicate Accounted(s: State, c: nat)
    requires c < |s.conns|
  {
    var conn := s.conns[c];
    && (conn.pc.Echoing? ==> |conn.received| > 0 && Last(conn.received) == conn.pc.data)
    && Part(conn.outbound, FromHandler) == Echoed(conn)
    && |conn.through| == |Owed(s, c)|
    && Part(conn.outbound, FromConsole) == Pick(Owed(s, c), conn.through)
  }

  ghost predicate ConsoleOnTrack(s: State) {
    && (forall b, c :: 0 <= b < |s.begun| && c in s.begun[b].roster ==> c < |s.conns|)
    && (s.console.Sending? ==>
          && |s.begun| > 0
          && Last(s.begun) == Begun(s.console.line, Registered(s.conns, |s.conns|))
          && s.console.i <= |s.list|)
  }

  ghost predicate Merging(s: State) {
    ConsoleOnTrack(s) && forall c :: 0 <= c < |s.conns| ==> Accounted(s, c)
  }

  lemma PartAppend(blocks: seq<Block>, b: Block, source: Source)
    ensures Part(blocks + [b], source)
            == if b.source == source then Part(blocks, source) + [b.text] else Part(blocks, source)
  {
  }

  lemma {:induction false} LinesForExtended(begun: seq<Begun>, more: seq<Begun>, c: nat, k: nat)
    requires k <= |begun|
    ensures LinesFor(begun + more, c, k) == LinesFor(begun, c, k)
  {
    if k > 0 { LinesForExtended(begun, more, c, k - 1); }
  }

  lemma {:induction false} LinesForStranger(begun: seq<Begun>, c: nat, k: nat)
    requires k <= |begun| && forall b :: 0 <= b < |begun| ==> c !in begun[b].roster
    ensures LinesFor(begun, c, k) == []
  {
    if k > 0 { LinesForStranger(begun, c, k - 1); }
  }

  /** While the console thread holds the mutex nobody joins or leaves. */
  lemma MembersFrozen(s: State, e: Event)
    requires |s.conns| == |s.socks| && s.console.Sending?
    ensures var s' := Apply(s, e);
            && |s.conns| <= |s'.conns| && s'.list == s.list
            && (forall c :: 0 <= c < |s.conns| ==> (InList(s'.conns[c]) <==> InList(s.conns[c])))
            && (|s'.conns| == |s.conns| || (|s'.conns| == |s.conns| + 1 && !InList(s'.conns[|s.conns|])))
  {
  }

  /** The roster of a line under way stays the list until the line is out. */
  lemma RosterFrozen(s: State, e: Event)
    requires Listed(s) && s.console.Sending?
    ensures Registered(Apply(s, e).conns, |Apply(s, e).conns|) == Registered(s.conns, |s.conns|)
    ensures Apply(s, e).list == s.list
  {
    MembersFrozen(s, e);
    RegisteredSame(s.conns, Apply(s, e).conns, |s.conns|);
  }

  lemma LineKeepsMerging(s: State, line: Text)
    requires Listed(s) && Merging(s) && s.console.Idle? && line != [] && !s.dead
    ensures Merging(Apply(s, Line(line)))
  {
    var s' := Apply(s, Line(line));
    RegisteredMembers(s.conns, |s.conns|);
    forall c | 0 <= c < |s.conns| ensures Accounted(s', c) {
      LinesForExtended(s.begun, [Last(s'.begun)], c, |s.begun|);
      assert Accounted(s, c);
    }
  }

  /** What a console step does: the line goes to the connection whose turn it was when the line began,
      or to nobody. */
  lemma ConsoleDelivers(s: State, ok: bool)
    requires Listed(s) && ConsoleOnTrack(s) && s.console.Sending? && s.console.i < |s.list|
    ensures var c, line := Last(s.begun).roster[s.console.i], s.console.line;
            && c < |s.conns|
            && StepConsole(s, line, s.console.i, ok)
               == s.(console := Sending(line, s.console.i + 1), conns := s.conns[c := Announce(s.conns[c], line, ok)])
  {
    ListedOpenOnce(s);
    ResolveOwn(s.socks, Last(s.begun).roster[s.console.i]);
  }

  lemma OwedAdvances(s: State, s': State, c: nat)
    requires s.console.Sending? && |s.begun| > 0
    requires s.console.i < |Last(s.begun).roster| && Distinct(Last(s.begun).roster)
    requires s'.begun == s.begun && s'.console == Sending(s.console.line, s.console.i + 1)
    requires s.console.line == Last(s.begun).line
    ensures Owed(s', c) == if c == Last(s.begun).roster[s.console.i] then Owed(s, c) + [s.console.line] else Owed(s, c)
  {
  }

  lemma AnnouncedParts(conn: Conn, line: Text, ok: bool)
    ensures Part(Announce(conn, line, ok).outbound, FromHandler) == Part(conn.outbound, FromHandler)
    ensures Part(Announce(conn, line, ok).outbound, FromConsole)
            == Part(conn.outbound, FromConsole) + if ok then [line] else []
  {
    PartAppend(conn.outbound, Block(FromConsole, line), FromHandler);
    PartAppend(conn.outbound, Block(FromConsole, line), FromConsole);
  }

  lemma ConsoleAccounts(s: State, ok: bool, c: nat)
    requires Listed(s) && ConsoleOnTrack(s) && s.console.Sending? && s.console.i < |s.list|
    requires c < |s.conns| && Accounted(s, c)
    ensures Accounted(StepConsole(s, s.console.line, s.console.i, ok), c)
  {
    var s', conn, line := StepConsole(s, s.console.line, s.console.i, ok), s.conns[c], s.console.line;
    ListedOpenOnce(s);
    ConsoleDelivers(s, ok);
    OwedAdvances(s, s', c);
    AnnouncedParts(conn, line, ok);
    PickStep(Owed(s, c), conn.through, line, ok);
  }

  lemma ConsoleKeepsMerging(s: State, ok: bool)
    requires Listed(s) && Merging(s) && s.console.Sending? && s.console.i < |s.list|
    ensures Merging(StepConsole(s, s.console.line, s.console.i, ok))
  {
    var s' := StepConsole(s, s.console.line, s.console.i, ok);
    ConsoleDelivers(s, ok);
    RegisteredSame(s.conns, s'.conns, |s.conns|);
    forall c | 0 <= c < |s.conns| ensures Accounted(s', c) {
      ConsoleAccounts(s, ok, c);
    }
  }

  lemma LineDone(s: State)
    requires Listed(s) && Merging(s) && s.console.Sending? && s.console.i >= |s.list|
    ensures Merging(s.(console := Idle))
  {
    var s', r := s.(console := Idle), Last(s.begun).roster;
    assert |r| == |s.list| && r[..|r|] == r;
    forall c | 0 <= c < |s.conns| ensures Accounted(s', c) {
      assert Accounted(s, c);
    }
  }

  lemma ConnectKeepsMerging(s: State, fd: int)
    requires Listed(s) && Merging(s)
    ensures Merging(Apply(s, Connect(fd)))
  {
    var s' := Apply(s, Connect(fd));
    if s' != s {
      var n := |s.conns|;
      RegisteredSame(s.conns, s'.conns, n);
      forall c | 0 <= c < n ensures Accounted(s', c) { assert Accounted(s, c); }
      assert forall b :: 0 <= b < |s.begun| ==> n !in s.begun[b].roster;
      LinesForStranger(s.begun, n, |s.begun|);
      if |s.begun| > 0 { LinesForStranger(s.begun, n, |s.begun| - 1); }
    }
  }

  /** Whatever happens to connection d without console or newcomers: the others' accounts stand. */
  lemma OthersAccounted(s: State, s': State, d: nat)
    requires Listed(s) && Merging(s) && |s'.conns| == |s.conns| && d < |s.conns|
    requires s'.begun == s.begun && s'.console == s.console
    requires forall c :: 0 <= c < |s.conns| && c != d ==> s'.conns[c] == s.conns[c]
    requires s.console.Sending? ==>
               s'.list == s.list && Registered(s'.conns, |s.conns|) == Registered(s.conns, |s.conns|)
    requires Accounted(s', d)
    ensures Merging(s')
  {
    forall c | 0 <= c < |s.conns| ensures Accounted(s', c) {
      if c != d { assert Accounted(s, c); }
    }
  }

  /** Event e is about connection d alone. */
  predicate Concerns(s: State, e: Event, d: nat) {
    e == Step(d) || e == HangUp(d) || e == Fail(d) || (e.Receive? && e.c == d) || (e == Add && d == |s.conns| - 1)
  }

  lemma EchoAccounted(s: State, d: nat)
    requires d < |s.conns| == |s.socks| && s.conns[d].pc.Echoing? && Accounted(s, d)
    ensures Accounted(StepHandler(s, d), d)
  {
  }

  lemma ReceiveAccounted(s: State, d: nat, data: Text)
    requires d < |s.conns| == |s.socks| && s.conns[d].pc == Receiving && data != [] && !s.dead && Accounted(s, d)
    ensures Accounted(Apply(s, Receive(d, data)), d)
  {
  }

  lemma HandlerAccounted(s: State, e: Event, d: nat)
    requires Listed(s) && !s.dead && d < |s.conns| && Accounted(s, d) && Concerns(s, e, d)
    ensures Accounted(Apply(s, e), d)
  {
    if e == Step(d) && s.conns[d].pc.Echoing? {
      EchoAccounted(s, d);
    } else if e.Receive? && s.conns[d].pc == Receiving && e.data != [] {
      ReceiveAccounted(s, d, e.data);
    }
  }

  lemma TouchesOnly(s: State, e: Event, d: nat)
    requires |s.conns| == |s.socks| && !s.dead && d < |s.conns| && Concerns(s, e, d)
    ensures var s' := Apply(s, e);
            && |s'.conns| == |s.conns| && s'.begun == s.begun && s'.console == s.console
            && forall c :: 0 <= c < |s.conns| && c != d ==> s'.conns[c] == s.conns[c]
  {
  }

  lemma HandlerKeepsMerging(s: State, e: Event, d: nat)
    requires Listed(s) && Merging(s) && !s.dead && d < |s.conns| && Concerns(s, e, d)
    ensures Merging(Apply(s, e))
  {
    assert Accounted(s, d);
    if s.console.Sending? { RosterFrozen(s, e); }
    HandlerAccounted(s, e, d);
    TouchesOnly(s, e, d);
    OthersAccounted(s, Apply(s, e), d);
  }

  lemma ApplyKeepsMerging(s: State, e: Event)
    requires Listed(s) && Merging(s)
    ensures Merging(Apply(s, e))
  {
    if Apply(s, e) == s {
    } else {
      match e
      case Connect(fd) => ConnectKeepsMerging(s, fd);
      case Add => HandlerKeepsMerging(s, e, |s.conns| - 1);
      case Line(line) => LineKeepsMerging(s, line);
      case ConsoleStep(ok) =>
        if s.console.i < |s.list| { ConsoleKeepsMerging(s, ok); } else { LineDone(s); }
      case Receive(c, _) => HandlerKeepsMerging(s, e, c);
      case HangUp(c) => HandlerKeepsMerging(s, e, c);
      case Fail(c) => HandlerKeepsMerging(s, e, c);
      case Step(c) => HandlerKeepsMerging(s, e, c);
    }
  }

  lemma {:induction false} RunMerging(es: seq<Event>)
    ensures Merging(Run(es))
  {
    if es != [] {
      RunListed(es[..|es| - 1]);
      RunMerging(es[..|es| - 1]);
      ApplyKeepsMerging(Run(es[..|es| - 1]), Last(es));
    }
  }

  /** whole is a and b woven together, each kept in its own order. */
  ghost predicate Interleaves(whole: seq<Text>, a: seq<Text>, b: seq<Text>) {
    if whole == [] then a == [] && b == []
    else
      || (a != [] && Last(a) == Last(whole) && Interleaves(whole[..|whole| - 1], a[..|a| - 1], b))
      || (b != [] && Last(b) == Last(whole) && Interleaves(whole[..|whole| - 1], a, b[..|b| - 1]))
  }

  lemma {:induction false} PartsInterleave(blocks: seq<Block>)
    ensures Interleaves(Texts(blocks), Part(blocks, FromHandler), Part(blocks, FromConsole))
  {
    if blocks != [] {
      var rest := blocks[..|blocks| - 1];
      PartsInterleave(rest);
      assert Texts(blocks)[..|Texts(blocks)| - 1] == Texts(rest);
      var p := Part(blocks, Last(blocks).source);
      assert p[..|p| - 1] == Part(rest, Last(blocks).source);
    }
  }

  /** At every moment the stream to each client is an order-preserving interleaving of what its handler
      has received and echoed and, of the console lines whose sending began while it was in the list,
      those whose send went through: all of them, unless a send failed. */
  lemma StreamIsMerge(es: seq<Event>, c: nat)
    requires c < |Run(es).conns|
    ensures var s, conn := Run(es), Run(es).conns[c];
            && |conn.through| == |Owed(s, c)|
            && Interleaves(Texts(conn.outbound), Echoed(conn), Pick(Owed(s, c), conn.through))
            && (false !in conn.through ==> Pick(Owed(s, c), conn.through) == Owed(s, c))
  {
    var s := Run(es);
    RunMerging(es);
    assert Accounted(s, c);
    PartsInterleave(s.conns[c].outbound);
    if false !in s.conns[c].through { PickAll(Owed(s, c), s.conns[c].through); }
  }

  lemma GapStep(s: State, e: Event, c: nat)
    requires |s.conns| == |s.socks| && c < |Apply(s, e).conns| && e != ConsoleStep(false)
    ensures var before := if c < |s.conns| then s.conns[c].through else [];
            Apply(s, e).conns[c].through == before || Apply(s, e).conns[c].through == before + [true]
  {
  }

  /** Only a failing console send leaves a gap. */
  lemma {:induction false} NoFailureNoGap(es: seq<Event>, c: nat)
    requires ConsoleStep(false) !in es && c < |Run(es).conns|
    ensures false !in Run(es).conns[c].through
  {
    if es != [] {
      var s := Run(es[..|es| - 1]);
      GapStep(s, Last(es), c);
      if c < |s.conns| { NoFailureNoGap(es[..|es| - 1], c); }
    }
  }

  // ---------------------------------------------------------------------------------------------
  // Who is in the list, and since when
  // ---------------------------------------------------------------------------------------------

  /** The list names the open connection c. */
  predicate InTable(s: State, c: nat)
    requires |s.conns| == |s.socks|
  {
    c < |s.socks| && s.socks[c].open && s.socks[c].fd in s.list
  }

  lemma InTableIsInList(s: State, c: nat)
    requires Listed(s) && c < |s.conns|
    ensures InTable(s, c) <==> InList(s.conns[c])
  {
    var ids := Registered(s.conns, |s.conns|);
    RegisteredMembers(s.conns, |s.conns|);
    ListedOpenOnce(s);
    if InList(s.conns[c]) {
      var i := IndexOf(ids, c);
      assert s.list[i] == s.socks[c].fd;
    } else if s.socks[c].open {
      FdAbsent(s.socks, ids, c);
    }
  }

  /** Event e is the effective add of c by the accept loop. */
  predicate Adds(s: State, e: Event, c: nat) {
    e == Add && s.accepting && s.console.Idle? && |s.conns| > 0 && c == |s.conns| - 1
  }

  /** Event e, in s, is the arrival of data from c at its waiting handler. */
  predicate Arrives(s: State, e: Event, c: nat) {
    e.Receive? && e.c == c && c < |s.conns| && s.conns[c].pc == Receiving && e.data != [] && !s.dead
  }

  lemma HandlerPlace(s: State, d: nat, c: nat)
    requires |s.conns| == |s.socks| && c < |s.conns| && d < |s.conns|
    ensures var pc, conn' := s.conns[c].pc, StepHandler(s, d).conns[c];
            && conn'.pc == (if d == c && pc.Echoing? then Receiving
                            else if d == c && pc == Leaving && s.console.Idle? then Removed
                            else if d == c && pc == Removed then Closed
                            else pc)
            && conn'.admitted == s.conns[c].admitted
  {
  }

  /** What an event does to a connection, but for what passes over it. */
  lemma PlaceStep(s: State, e: Event, c: nat)
    requires |s.conns| == |s.socks| && c < |s.conns| && !s.dead
    ensures var pc, conn' := s.conns[c].pc, Apply(s, e).conns[c];
            && conn'.pc == (if Adds(s, e, c) then Receiving
                            else if Arrives(s, e, c) then Echoing(e.data)
                            else if e == HangUp(c) && pc == Receiving then Leaving
                            else if e == Step(c) && pc.Echoing? then Receiving
                            else if e == Step(c) && pc == Leaving && s.console.Idle? then Removed
                            else if e == Step(c) && pc == Removed then Closed
                            else pc)
            && conn'.admitted == (if Adds(s, e, c) then |s.list| < 100 else s.conns[c].admitted)
  {
    if e.Step? && e.c < |s.conns| { HandlerPlace(s, e.c, c); }
  }

  lemma MembershipStep(s: State, e: Event, c: nat)
    requires Listed(s) && c < |s.conns| && !s.dead
    ensures InList(Apply(s, e).conns[c]) <==>
              || (InList(s.conns[c]) && !(e == Step(c) && s.conns[c].pc == Leaving && s.console.Idle?))
              || (Adds(s, e, c) && |s.list| < 100)
  {
    PlaceStep(s, e, c);
  }

  /** A connection is in the list exactly from its add, if that finds fewer than a hundred there, to its
      own remove. */
  lemma ListInterval(s: State, e: Event, c: nat)
    requires Listed(s) && c < |s.conns| && !s.dead
    ensures InTable(Apply(s, e), c) <==>
              || (InTable(s, c) && !(e == Step(c) && s.conns[c].pc == Leaving && s.console.Idle?))
              || (Adds(s, e, c) && |s.list| < 100)
  {
    InTableIsInList(s, c);
    MembershipStep(s, e, c);
    ApplyKeepsListed(s, e);
    InTableIsInList(Apply(s, e), c);
  }

  lemma BegunGrows(s: State, e: Event)
    requires |s.conns| == |s.socks|
    ensures s.begun <= Apply(s, e).begun
  {
  }

  /** What has begun by step n stays begun. */
  lemma {:induction false} BegunStays(es: seq<Event>, n: nat)
    requires n <= |es|
    ensures Run(es[..n]).begun <= Run(es).begun
    decreases |es|
  {
    if n == |es| {
      assert es[..n] == es;
    } else {
      var before := es[..|es| - 1];
      assert before[..n] == es[..n];
      BegunStays(before, n);
      BegunGrows(Run(before), Last(es));
    }
  }

  lemma {:induction false} LinesForGrow(begun: seq<Begun>, c: nat, j: nat, k: nat)
    requires j <= k <= |begun|
    ensures LinesFor(begun, c, j) <= LinesFor(begun, c, k)
  {
    if j < k { LinesForGrow(begun, c, j, k - 1); }
  }

  /** A line that begins is for those in the list. */
  lemma LineIsForListed(s: State, line: Text, c: nat)
    requires Listed(s) && !s.dead && s.console.Idle? && line != [] && c < |s.conns|
    ensures var begun := Apply(s, Line(line)).begun;
            && |begun| == |s.begun| + 1 && Last(begun).line == line
            && LinesFor(begun, c, |begun|)
               == LinesFor(s.begun, c, |s.begun|) + if InTable(s, c) then [line] else []
  {
    InTableIsInList(s, c);
    RegisteredMembers(s.conns, |s.conns|);
    LinesForExtended(s.begun, [Last(Apply(s, Line(line)).begun)], c, |s.begun|);
  }

  lemma LinesForOwed(s: State, c: nat, k: nat)
    requires k < |s.begun| && (s.console.Idle? || |s.begun| > k + 1)
    ensures LinesFor(s.begun, c, k + 1) <= Owed(s, c)
  {
    LinesForGrow(s.begun, c, k + 1, |s.begun|);
    if |s.begun| > k + 1 { LinesForGrow(s.begun, c, k + 1, |s.begun| - 1); }
  }

  /** In t, line k, which began in s, is owed to those in the list of s and, once it is out, has come. */
  ghost predicate OwedSince(s: State, t: State, line: Text, c: nat)
    requires |s.conns| == |s.socks|
  {
    var k := |s.begun|;
    && k < |t.begun| && t.begun[k].line == line
    && LinesFor(t.begun, c, k + 1) == LinesFor(s.begun, c, k) + (if InTable(s, c) then [line] else [])
    && (t.console.Idle? || |t.begun| > k + 1 ==> LinesFor(t.begun, c, k + 1) <= Owed(t, c))
  }

  lemma BegunIsOwed(s: State, t: State, line: Text, c: nat)
    requires Listed(s) && !s.dead && s.console.Idle? && line != [] && c < |s.conns|
    requires Apply(s, Line(line)).begun <= t.begun
    ensures OwedSince(s, t, line, c)
  {
    var k, first := |s.begun|, Apply(s, Line(line)).begun;
    LineIsForListed(s, line, c);
    assert t.begun == first + t.begun[k + 1..];
    LinesForExtended(first, t.begun[k + 1..], c, k + 1);
    if t.console.Idle? || |t.begun| > k + 1 { LinesForOwed(t, c, k); }
  }

  lemma RunNext(es: seq<Event>, n: nat)
    requires n < |es|
    ensures Run(es[..n + 1]) == Apply(Run(es[..n]), es[n])
  {
    assert es[..n + 1][..n] == es[..n];
  }

  /** A connection that is in the list when a line begins, at step n, is owed that line once the line is
      out, after all it was owed before; and only such a connection is. */
  lemma ListedIsOwed(es: seq<Event>, n: nat, c: nat)
    requires n < |es| && es[n].Line? && es[n].line != []
    requires !Run(es[..n]).dead && Run(es[..n]).console.Idle? && c < |Run(es[..n]).conns|
    ensures OwedSince(Run(es[..n]), Run(es), es[n].line, c)
  {
    RunListed(es[..n]);
    RunNext(es, n);
    BegunStays(es, n + 1);
    BegunIsOwed(Run(es[..n]), Run(es), es[n].line, c);
  }

  // ---------------------------------------------------------------------------------------------
  // What has happened is what the clients and the console did
  // ---------------------------------------------------------------------------------------------

  function ReceivedFrom(es: seq<Event>, c: nat): seq<Text> {
    if es == [] then []
    else
      var before, e := es[..|es| - 1], Last(es);
      ReceivedFrom(before, c) + if Arrives(Run(before), e, c) then [e.data] else []
  }

  /** The non-empty lines typed at the console while it waited for one. */
  function LinesTyped(es: seq<Event>): seq<Text> {
    if es == [] then []
    else
      var before, s, e := es[..|es| - 1], Run(es[..|es| - 1]), Last(es);
      LinesTyped(before) + if e.Line? && e.line != [] && s.console.Idle? && !s.dead then [e.line] else []
  }

  function AcceptedFds(es: seq<Event>): seq<int> {
    if es == [] then []
    else
      var before, s, e := es[..|es| - 1], Run(es[..|es| - 1]), Last(es);
      AcceptedFds(before) +
      if e.Connect? && !s.dead && !s.accepting && CanAccept(s.socks, e.fd) then [e.fd] else []
  }

  /** Client c has hung up on its waiting handler. */
  predicate HungUp(es: seq<Event>, c: nat) {
    es != [] &&
    var s := Run(es[..|es| - 1]);
    || HungUp(es[..|es| - 1], c)
    || (Last(es) == HangUp(c) && c < |s.conns| && s.conns[c].pc == Receiving && !s.dead)
  }

  /** A call of a handler has failed. */
  predicate HandlerFailed(es: seq<Event>) {
    es != [] &&
    var s, e := Run(es[..|es| - 1]), Last(es);
    || HandlerFailed(es[..|es| - 1])
    || (e.Fail? && e.c < |s.conns| && (s.conns[e.c].pc.Receiving? || s.conns[e.c].pc.Echoing?))
  }

  predicate Going(pc: Pc) {
    pc.Leaving? || pc.Removed? || pc.Closed?
  }

  function Lines(begun: seq<Begun>): seq<Text> {
    seq(|begun|, i requires 0 <= i < |begun| => begun[i].line)
  }

  lemma ReceivedStep(s: State, e: Event, c: nat)
    requires |s.conns| == |s.socks| && c < |s.conns|
    ensures var s' := Apply(s, e);
            && s'.socks[c].fd == s.socks[c].fd
            && s'.conns[c].received == s.conns[c].received + if Arrives(s, e, c) then [e.data] else []
  {
  }

  lemma ConnStep(s: State, e: Event, c: nat)
    requires Listed(s) && c < |s.conns|
    ensures Going(Apply(s, e).conns[c].pc) <==>
              Going(s.conns[c].pc) || (e == HangUp(c) && s.conns[c].pc == Receiving && !s.dead)
  {
    if !s.dead { PlaceStep(s, e, c); }
  }

  lemma NewConn(s: State, e: Event)
    requires |s.conns| == |s.socks|
    ensures var s', joins := Apply(s, e), e.Connect? && !s.dead && !s.accepting && CanAccept(s.socks, e.fd);
            if joins then
              && |s'.conns| == |s.conns| + 1 && Last(s'.socks).fd == e.fd
              && Last(s'.conns).received == [] && Last(s'.conns).pc == Accepted
            else |s'.conns| == |s.conns|
  {
  }

  /** Per connection: it has been accepted under its descriptor, its handler has received what arrived from
      it, and is on its way out exactly when the client has hung up. */
  lemma {:induction false} ConnectionsAreAsReported(es: seq<Event>, c: nat)
    ensures c < |Run(es).conns| <==> c < |AcceptedFds(es)|
    ensures c < |Run(es).conns| ==>
              && Run(es).socks[c].fd == AcceptedFds(es)[c]
              && Run(es).conns[c].received == ReceivedFrom(es, c)
              && (Going(Run(es).conns[c].pc) <==> HungUp(es, c))
    ensures c >= |Run(es).conns| ==> ReceivedFrom(es, c) == [] && !HungUp(es, c)
    ensures |Run(es).conns| == |AcceptedFds(es)|
  {
    if es != [] {
      var s := Run(es[..|es| - 1]);
      ConnectionsAreAsReported(es[..|es| - 1], c);
      NewConn(s, Last(es));
      if c < |s.conns| {
        RunListed(es[..|es| - 1]);
        ReceivedStep(s, Last(es), c);
        ConnStep(s, Last(es), c);
      }
    }
  }

  lemma BegunStep(s: State, e: Event)
    requires |s.conns| == |s.socks|
    ensures Lines(Apply(s, e).begun)
            == Lines(s.begun) + if e.Line? && e.line != [] && s.console.Idle? && !s.dead then [e.line] else []
  {
  }

  lemma FailStep(s: State, e: Event)
    requires |s.conns| == |s.socks| && !s.dead
    ensures Apply(s, e).dead <==>
              e.Fail? && e.c < |s.conns| && (s.conns[e.c].pc.Receiving? || s.conns[e.c].pc.Echoing?)
  {
  }

  /** The lines sent are those typed, and only a failing call of a handler ends the server. */
  lemma {:induction false} ConsoleIsAsTyped(es: seq<Event>)
    ensures Lines(Run(es).begun) == LinesTyped(es)
    ensures Run(es).dead <==> HandlerFailed(es)
  {
    if es != [] {
      ConsoleIsAsTyped(es[..|es| - 1]);
      BegunStep(Run(es[..|es| - 1]), Last(es));
      if !Run(es[..|es| - 1]).dead { FailStep(Run(es[..|es| - 1]), Last(es)); }
    }
  }

  // ---------------------------------------------------------------------------------------------
  // No thread is ever stuck
  // ---------------------------------------------------------------------------------------------

  /** Steps a handler has to go until it waits for its client or has closed. */
  function Distance(pc: Pc): nat {
    match pc
    case Echoing(_) => 1
    case Leaving => 2
    case Removed => 1
    case _ => 0
  }

  lemma StepsComeNearer(s: State, c: nat)
    requires |s.conns| == |s.socks| && c < |s.conns| && Apply(s, Step(c)) != s
    ensures Distance(Apply(s, Step(c)).conns[c].pc) < Distance(s.conns[c].pc)
    ensures forall d :: 0 <= d < |s.conns| && d != c ==> Apply(s, Step(c)).conns[d] == s.conns[d]
  {
  }

  /** Neither a handler, nor the console, nor the accept loop between accept and add can go on. */
  ghost predicate NoStepLeft(s: State)
    requires |s.conns| == |s.socks|
  {
    && (forall c :: 0 <= c < |s.conns| ==> Apply(s, Step(c)) == s)
    && Apply(s, ConsoleStep(true)) == s && Apply(s, Add) == s
  }

  lemma ConsoleAtRest(s: State)
    requires Listed(s) && Merging(s) && !s.dead && NoStepLeft(s)
    ensures s.console.Idle? && !s.accepting
  {
    if s.console.Sending? && s.console.i < |s.list| { ConsoleDelivers(s, true); }
  }

  lemma StepsAreTaken(s: State, c: nat)
    requires |s.conns| == |s.socks| && c < |s.conns| && !s.dead && s.console.Idle?
    requires s.conns[c].pc != Receiving && s.conns[c].pc != Closed && s.conns[c].pc != Accepted
    ensures Apply(s, Step(c)).conns[c].pc != s.conns[c].pc
  {
  }

  lemma HandlerAtRest(s: State, c: nat)
    requires Listed(s) && !s.dead && s.console.Idle? && !s.accepting && c < |s.conns| && Apply(s, Step(c)) == s
    ensures s.conns[c].pc == Receiving || s.conns[c].pc == Closed
  {
    if s.conns[c].pc != Receiving && s.conns[c].pc != Closed { StepsAreTaken(s, c); }
  }

  /** The mutex never blocks for good: when nobody can take a step in a live server, each handler has closed
      if its client has hung up and waits for it if not, everything received has been echoed, and every line
      has been sent to all it is owed to. */
  lemma AtRestAllIsDone(es: seq<Event>, c: nat)
    requires !Run(es).dead && NoStepLeft(Run(es)) && c < |Run(es).conns|
    ensures var s := Run(es);
            && !s.accepting && s.console.Idle?
            && s.conns[c].pc == (if HungUp(es, c) then Closed else Receiving)
            && (s.socks[c].open <==> !HungUp(es, c))
            && Part(s.conns[c].outbound, FromHandler) == ReceivedFrom(es, c)
            && Owed(s, c) == LinesFor(s.begun, c, |s.begun|)
  {
    var s := Run(es);
    RunListed(es);
    RunMerging(es);
    ConnectionsAreAsReported(es, c);
    assert Accounted(s, c);
    ConsoleAtRest(s);
    HandlerAtRest(s, c);
  }

  // ---------------------------------------------------------------------------------------------
  // The list code
  // ---------------------------------------------------------------------------------------------

  class ClientList {
    const clients: array<int>
    var nclients: nat

    ghost predicate Valid()
      reads this
    {
      clients.Length == MAXCLIENTS && nclients <= MAXCLIENTS
    }

    ghost function Contents(): seq<int>
      requires Valid()
      reads this, clients
    {
      clients[..nclients]
    }

    constructor ()
      ensures Valid() && fresh(clients) && Contents() == []
    {
      clients := new int[MAXCLIENTS](_ => 0);
      nclients := 0;
    }

    method Add(s: int)
      requires Valid()
      modifies this, clients
      ensures Valid() && Contents() == AddClient(old(Contents()), s)
    {
      if nclients < MAXCLIENTS {
        clients[nclients] := s;
        nclients := nclients + 1;
      }
    }

    /** The shift loop is exactly the deletion of one element. */
    method Remove(s: int)
      requires Valid()
      modifies this, clients
      ensures Valid() && Contents() == RemoveFirst(old(Contents()), s)
    {
      ghost var before := Contents();
      for i := 0 to nclients
        invariant Valid() && nclients == old(nclients) && Contents() == before
        invariant i <= IndexOf(before, s)
      {
        if clients[i] == s {
          for j := i to nclients - 1
            invariant Valid() && nclients == old(nclients)
            invariant forall k :: 0 <= k < i ==> clients[k] == before[k]
            invariant forall k :: i <= k < j ==> clients[k] == before[k + 1]
            invariant forall k :: j <= k < nclients ==> clients[k] == before[k]
          {
            clients[j] := clients[j + 1];
          }
          nclients := nclients - 1;
          assert Contents() == Without(before, i);
          break;
        }
      }
    }
  }
}
