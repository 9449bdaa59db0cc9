/** The forking echo server's accounting of its children
    (Test_Code/tcp_echo_server_multiprocess.c).

    Children exit on their own at any moment, and the server polls for them after each fork.  The
    counter is an unsigned 32-bit number and is modelled with its wrap-around. */
module ReapAccounting {
  import opened Common

  const WORD: nat := 0x1_0000_0000

  /** Forked lies between fork and the increment of the counter; Polling is the inner loop's head. */
  datatype Pc = AtAccept | Forked | Polling | ForkFailed | WaitFailed

  /** running children have not exited; zombies have and are waiting to be reaped.  wraps is history:
      how often the counter has wrapped around. */
  datatype State = State(pc: Pc, running: set<nat>, zombies: set<nat>, count: nat, wraps: nat)

  datatype Event = Fork(pid: nat) | ForkFails | Count | Exit(child: nat) | Poll(reaped: nat)

  const INIT := State(AtAccept, {}, {}, 0, 0)

  function Children(s: State): set<nat> {
    s.running + s.zombies
  }

  /** waitpid(-1, NULL, WNOHANG): an error without children, nothing without zombies, else some zombie. */
  datatype Wait = NoChildren | NoZombie | Reaped(pid: nat)

  function WaitPid(s: State, choice: nat): Wait {
    if Children(s) == {} then NoChildren
    else if s.zombies == {} then NoZombie
    else Reaped(choice)
  }

  function Apply(s: State, e: Event): State {
    match e
    case Fork(pid) =>
      if s.pc != AtAccept || pid in Children(s) then s else s.(pc := Forked, running := s.running + {pid})
    case ForkFails =>
      if s.pc != AtAccept then s else s.(pc := ForkFailed)
    case Count =>
      if s.pc != Forked then s
      else if s.count + 1 == WORD then s.(pc := Polling, count := 0, wraps := s.wraps + 1)
      else s.(pc := Polling, count := s.count + 1)
    case Exit(pid) =>
      if pid !in s.running then s else s.(running := s.running - {pid}, zombies := s.zombies + {pid})
    case Poll(choice) =>
      if s.pc != Polling then s
      else if s.count == 0 then s.(pc := AtAccept)
      else
        match WaitPid(s, choice)
        case NoChildren => s.(pc := WaitFailed)
        case NoZombie => s.(pc := AtAccept)
        case Reaped(pid) => if pid in s.zombies then s.(zombies := s.zombies - {pid}, count := s.count - 1) else s
  }

  function Run(es: seq<Event>): State {
    if es == [] then INIT else Apply(Run(es[..|es| - 1]), Last(es))
  }

  /** The counter is the number of children but for what wrapping has dropped; between fork and
      increment it is one behind. */
  ghost predicate Accounted(s: State) {
    && s.running !! s.zombies
    && s.count < WORD
    && s.pc != WaitFailed
    && s.count + WORD * s.wraps + (if s.pc == Forked then 1 else 0) == |Children(s)|
  }

  lemma ExitKeepsChildren(s: State, pid: nat)
    requires Accounted(s)
    ensures Accounted(Apply(s, Exit(pid)))
  {
  }

  lemma ForkAddsChild(s: State, pid: nat)
    requires Accounted(s)
    ensures Accounted(Apply(s, Fork(pid)))
  {
  }

  lemma PollTakesChild(s: State, choice: nat)
    requires Accounted(s)
    ensures Accounted(Apply(s, Poll(choice)))
  {
  }

  lemma ApplyKeepsAccounted(s: State, e: Event)
    requires Accounted(s)
    ensures Accounted(Apply(s, e))
  {
    match e
    case Fork(pid) => ForkAddsChild(s, pid);
    case Exit(pid) => ExitKeepsChildren(s, pid);
    case Poll(choice) => PollTakesChild(s, choice);
    case _ =>
  }

  lemma {:induction false} RunKeepsAccounted(es: seq<Event>)
    ensures Accounted(Run(es))
  {
    if es == [] {
      assert Children(INIT) == {};
    } else {
      RunKeepsAccounted(es[..|es| - 1]);
      ApplyKeepsAccounted(Run(es[..|es| - 1]), Last(es));
    }
  }

  lemma NoWrapsWhileFew(count: nat, wraps: nat, children: nat)
    requires count + WORD * wraps <= children < WORD
    ensures wraps == 0
  {
  }

  /** Whenever children exit, waitpid is never called without children; and the counter is the number
      of forked but unreaped children, exactly, as long as that number fits. */
  lemma CounterIsExact(es: seq<Event>)
    ensures Run(es).pc != WaitFailed
    ensures var s := Run(es);
            |Children(s)| < WORD ==> s.count == if s.pc == Forked then |Children(s)| - 1 else |Children(s)|
  {
    RunKeepsAccounted(es);
    if |Children(Run(es))| < WORD { NoWrapsWhileFew(Run(es).count, Run(es).wraps, |Children(Run(es))|); }
  }

  /** The inner loop is left only with the counter at zero or when its last poll found no zombie; as
      long as it goes on each poll of a zombie lowers the counter, which never underflows. */
  lemma PollSteps(es: seq<Event>, choice: nat)
    requires Run(es).pc == Polling
    ensures var s, s' := Run(es), Apply(Run(es), Poll(choice));
            && (s'.pc == AtAccept <==> s.count == 0 || s.zombies == {})
            && (s'.pc != AtAccept && choice in s.zombies ==> s.count > 0 && s'.count == s.count - 1 && s'.pc == Polling)
  {
    RunKeepsAccounted(es);
    var s := Run(es);
    assert s.count > 0 ==> Children(s) != {};
  }

  // ---------------------------------------------------------------------------------------------
  // Forked, exited, reaped
  // ---------------------------------------------------------------------------------------------

  /** How many children have been forked, have exited and have been reaped. */
  function Forks(es: seq<Event>): nat {
    if es == [] then 0
    else
      var s, e := Run(es[..|es| - 1]), Last(es);
      Forks(es[..|es| - 1]) + if e.Fork? && s.pc == AtAccept && e.pid !in Children(s) then 1 else 0
  }

  function Exits(es: seq<Event>): nat {
    if es == [] then 0
    else
      var s, e := Run(es[..|es| - 1]), Last(es);
      Exits(es[..|es| - 1]) + if e.Exit? && e.child in s.running then 1 else 0
  }

  function Reaps(es: seq<Event>): nat {
    if es == [] then 0
    else
      var s, e := Run(es[..|es| - 1]), Last(es);
      Reaps(es[..|es| - 1]) + if e.Poll? && s.pc == Polling && s.count > 0 && e.reaped in s.zombies then 1 else 0
  }

  lemma OneMoreOneLess(s: set<nat>, p: nat)
    ensures p in s ==> |s - {p}| == |s| - 1
    ensures p !in s ==> |s + {p}| == |s| + 1
  {
  }

  lemma CountsStep(s: State, e: Event)
    requires s.running !! s.zombies
    ensures var s' := Apply(s, e);
            && |s'.zombies| == |s.zombies|
                 + (if e.Exit? && e.child in s.running then 1 else 0)
                 - (if e.Poll? && s.pc == Polling && s.count > 0 && e.reaped in s.zombies then 1 else 0)
            && |s'.running| == |s.running|
                 + (if e.Fork? && s.pc == AtAccept && e.pid !in Children(s) then 1 else 0)
                 - (if e.Exit? && e.child in s.running then 1 else 0)
  {
    match e
    case Fork(pid) => OneMoreOneLess(s.running, pid);
    case Exit(pid) =>
      OneMoreOneLess(s.running, pid);
      OneMoreOneLess(s.zombies, pid);
    case Poll(pid) => OneMoreOneLess(s.zombies, pid);
    case _ =>
  }

  /** The children about are those forked and not reaped, the zombies those that have exited and have not
      been reaped; so the counter, wrapped around, is forks less reaps, but for a fork just made. */
  lemma {:induction false} RunCounts(es: seq<Event>)
    ensures var s := Run(es);
            && |s.running| + Exits(es) == Forks(es)
            && |s.zombies| + Reaps(es) == Exits(es)
            && s.count + WORD * s.wraps + Reaps(es) + (if s.pc == Forked then 1 else 0) == Forks(es)
  {
    RunKeepsAccounted(es);
    assert |Children(Run(es))| == |Run(es).running| + |Run(es).zombies|;
    if es != [] {
      RunCounts(es[..|es| - 1]);
      RunKeepsAccounted(es[..|es| - 1]);
      CountsStep(Run(es[..|es| - 1]), Last(es));
    }
  }

  /** Between accepts the server is never stuck: a fork is counted, and a poll takes it on. */
  lemma GoesOn(es: seq<Event>) returns (choice: nat)
    ensures var s := Run(es);
            && (s.pc == Forked ==> Apply(s, Count).pc == Polling)
            && (s.pc == Polling ==>
                  var s' := Apply(s, Poll(choice)); s'.pc == AtAccept || (s'.pc == Polling && s'.count < s.count))
  {
    RunKeepsAccounted(es);
    var s := Run(es);
    assert s.pc == Polling && s.count > 0 ==> Children(s) != {};
    choice := 0;
    if s.zombies != {} { choice :| choice in s.zombies; }
  }

  // ---------------------------------------------------------------------------------------------
  // The server's code
  // ---------------------------------------------------------------------------------------------

  class Server {
    var childProcCount: nat
    var running: set<nat>
    var zombies: set<nat>
    var wraps: nat

    function Abs(pc: Pc): State
      reads this
    {
      State(pc, running, zombies, childProcCount, wraps)
    }

    constructor ()
      ensures Abs(AtAccept) == INIT
    {
      childProcCount, running, zombies, wraps := 0, {}, {}, 0;
    }

    /** Any number of children exit meanwhile. */
    method Elapse()
      requires running !! zombies
      modifies this`running, this`zombies
      ensures running !! zombies && running + zombies == old(running + zombies)
      ensures old(zombies) <= zombies
    {
      var exiting: set<nat> :| exiting <= running;
      running := running - exiting;
      zombies := zombies + exiting;
    }

    method WaitAny() returns (w: Wait)
      requires running !! zombies
      modifies this`zombies
      ensures w.NoChildren? <==> running + old(zombies) == {}
      ensures w.NoZombie? <==> running + old(zombies) != {} && old(zombies) == {}
      ensures w.Reaped? ==> w.pid in old(zombies) && zombies == old(zombies) - {w.pid}
      ensures !w.Reaped? ==> zombies == old(zombies)
    {
      if running + zombies == {} {
        return NoChildren;
      }
      if zombies == {} {
        return NoZombie;
      }
      var pid :| pid in zombies;
      zombies := zombies - {pid};
      return Reaped(pid);
    }

    /** One poll of the inner loop: a zombie is reaped if there is one. */
    method PollOnce() returns (w: Wait)
      requires Accounted(Abs(Polling)) && childProcCount > 0
      modifies this`running, this`zombies, this`childProcCount
      ensures Accounted(Abs(Polling)) && !w.NoChildren?
      ensures w.NoZombie? ==>
                zombies == {} && running == old(running + zombies) && childProcCount == old(childProcCount)
      ensures w.Reaped? ==>
                && w.pid in old(running + zombies) && running + zombies == old(running + zombies) - {w.pid}
                && childProcCount == old(childProcCount) - 1
    {
      Elapse();
      ghost var before := Children(Abs(Polling));
      assert before != {};
      w := WaitAny();
      if w.Reaped? {
        assert Children(Abs(Polling)) == before - {w.pid};
        OneMoreOneLess(before, w.pid);
        childProcCount := childProcCount - 1;
      }
    }

    /** The inner loop: clean up as many zombies as there are. */
    method ReapZombies() returns (waitFailed: bool, ghost reaped: set<nat>)
      requires Accounted(Abs(Polling))
      modifies this`running, this`zombies, this`childProcCount
      ensures Accounted(Abs(AtAccept)) && !waitFailed
      ensures childProcCount == 0 || zombies == {}
      ensures running + zombies == old(running + zombies) - reaped && reaped <= old(running + zombies)
      ensures childProcCount == old(childProcCount) - |reaped|
    {
      reaped := {};
      while childProcCount > 0
        invariant Accounted(Abs(Polling))
        invariant running + zombies == old(running + zombies) - reaped && reaped <= old(running + zombies)
        invariant childProcCount == old(childProcCount) - |reaped|
        decreases childProcCount
      {
        var w := PollOnce();
        match w
        case NoChildren =>
          return true, reaped;
        case NoZombie =>
          break;
        case Reaped(p) =>
          OneMoreOneLess(reaped, p);
          reaped := reaped + {p};
      }
      waitFailed := false;
    }

    /** Fork a child for the new client and count it. */
    method ForkChild(pid: nat)
      requires Accounted(Abs(AtAccept)) && pid !in running + zombies
      modifies this
      ensures Accounted(Abs(Polling)) && running + zombies == old(running + zombies) + {pid}
      ensures childProcCount + WORD * (wraps - old(wraps)) == old(childProcCount) + 1
    {
      running := running + {pid};
      assert Children(Abs(Forked)) == old(running + zombies) + {pid};
      OneMoreOneLess(old(running + zombies), pid);
      Elapse();
      if childProcCount + 1 == WORD {
        childProcCount, wraps := 0, wraps + 1;
      } else {
        childProcCount := childProcCount + 1;
      }
    }

    /** One turn of the main loop in the parent: fork a child for the new client and clean up. */
    method ServeClient(pid: nat) returns (waitFailed: bool, ghost reaped: set<nat>)
      requires Accounted(Abs(AtAccept)) && pid !in running + zombies
      modifies this
      ensures Accounted(Abs(AtAccept)) && !waitFailed
      ensures childProcCount == 0 || zombies == {}
      ensures running + zombies == old(running + zombies) + {pid} - reaped
      ensures reaped <= old(running + zombies) + {pid}
      ensures childProcCount + |reaped| + WORD * (wraps - old(wraps)) == old(childProcCount) + 1
    {
      ForkChild(pid);
      waitFailed, reaped := ReapZombies();
    }
  }
}
