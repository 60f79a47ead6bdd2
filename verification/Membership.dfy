/** Which connections a manager has: exactly those that were added and have not left since. */
module Membership {
  import opened CursorList
  import opened ManagedConnections
  import opened ConnectionManagers
  import opened IdleShedding
  import opened ManagerRuns
  import opened Repetition

  /** From `s` to `s'` a linked `c` leaves exactly if it was signalled and takes itself off then. */
  ghost predicate LeavesIfSignalled(s: State, s': State, c: Conn, leaves: bool) {
    && (c in s.conns ==>
          c in s.records && c in s'.records && (c in s'.conns <==> !(leaves && s'.records[c] != s.records[c])))
    && (c !in s.conns ==> c !in s'.conns && (c in s.records ==> c in s'.records && s'.records[c] == s.records[c]))
  }

  lemma SignalledMembers(s: State, d: Conn, r: Record, leaves: bool, c: Conn)
    requires WellFormed(s) && d in s.conns
    ensures LeavesIfSignalled(s, Signalled(s, d, r, leaves), c, c == d && leaves)
  {
    EraseMembers(s.conns, d);
  }

  lemma LeavesTrans(s: State, s1: State, s2: State, c: Conn, leaves: bool)
    requires LeavesIfSignalled(s, s1, c, leaves) && LeavesIfSignalled(s1, s2, c, leaves)
    ensures LeavesIfSignalled(s, s2, c, leaves)
  {}

  lemma {:induction false} VisitMembers(s: State, it: Option<Conn>, budget: nat, leaving: set<Conn>, c: Conn)
    requires WellFormed(s) && ValidCursor(s.conns, it)
    ensures LeavesIfSignalled(s, Visit(s, it, budget, leaving).0, c, c in leaving)
    decreases budget
  {
    if it.Some? && budget > 0 {
      var d := it.value;
      SignalledCursor(s, d, Offered(s, d), d in leaving);
      SignalledMembers(s, d, Offered(s, d), d in leaving, c);
      var s1 := VisitOne(s, d, leaving);
      VisitMembers(s1, Next(s.conns, d), budget - 1, leaving, c);
      LeavesTrans(s, s1, Visit(s, it, budget, leaving).0, c, c in leaving);
    }
  }

  /** A batch, from the state that the event has prepared for it. */
  lemma DrainMembers(s: State, s1: State, leaving: set<Conn>, c: Conn)
    requires WellFormed(s1) && s1.conns == s.conns && s1.records == s.records
    ensures LeavesIfSignalled(s, DrainConnections(s1, leaving), c, c in leaving)
  {
    VisitMembers(s1, s1.drainIt, BATCH, leaving, c);
  }

  lemma ShutdownMembers(s: State, grace: int, leaving: set<Conn>, c: Conn)
    requires WellFormed(s)
    ensures LeavesIfSignalled(s, InitiateGracefulShutdown(s, grace, leaving), c, c in leaving)
  {
    if s.shutdown == NoShutdown { DrainMembers(s, Starting(s, Begin(s), grace), leaving, c); }
  }

  lemma TimerMembers(s: State, leaving: set<Conn>, c: Conn)
    requires WellFormed(s)
    ensures LeavesIfSignalled(s, TimeoutExpired(s, leaving), c, c in leaving)
  {
    if s.shutdown == NotifyComplete {
      DrainMembers(s, s.(timerPending := false, shutdown := ClosingIdle, drainIt := Begin(s)), leaving, c);
    }
  }

  lemma DeferredMembers(s: State, d: Conn, leaves: bool, c: Conn)
    requires WellFormed(s)
    ensures LeavesIfSignalled(s, RunDeferred(s, d, leaves), c, c == d && leaves)
  {
    if d in s.conns {
      SignalledMembers(s.(deferred := s.deferred - multiset{d}), d,
                       FireCloseWhenIdle(s.records[d], !s.notifyEnabled), leaves, c);
    }
  }

  /** Dropping takes the connections off the front, in order. */
  lemma RemoveFrontIsSuffix(s: State, n: nat)
    requires WellFormed(s)
    ensures RemoveFront(s, n).conns == s.conns[Min(n, |s.conns|)..]
  {
    var p, l := (t: State) => WellFormed(t), (t: State) => t.conns;
    forall t | p(t) ensures p(RemoveFirst(t)) && l(RemoveFirst(t)) == if l(t) == [] then [] else l(t)[1..] {
      if t.conns != [] { RemoveWellFormed(t, t.conns[0]); }
    }
    RepeatPops(RemoveFirst, p, l, s, n);
  }

  lemma ShedMembers(s: State, num: nat, threshold: int, now: int, c: Conn)
    requires WellFormed(s)
    ensures c in ShedSome(s, num, threshold, now).conns ==> c in s.conns
  {
    forall t, d | WellFormed(t) && (c in t.conns ==> c in s.conns) && d in t.conns && c in RemoveConnection(t, d).conns
      ensures c in s.conns
    {
      RemoveWellFormed(t, d);
    }
    ShedSomeKeeps((t: State) => c in t.conns ==> c in s.conns, s, num, threshold, now);
  }

  /** Who is linked after a step. A pass and a delayed close lose only connections that take
      themselves off when they are signalled; dropping takes them from the front; shedding is
      the subject of `ShedSomeIsShed`. */
  ghost predicate Members(s: State, e: Event, s': State, c: Conn) {
    match e
    case Add(d, _) => c in s'.conns <==> c in s.conns || c == d
    case Remove(d) => c in s'.conns <==> c in s.conns && c != d
    case Activate(_) => c in s'.conns <==> c in s.conns
    case Deactivate(_, _) => c in s'.conns <==> c in s.conns
    case Shutdown(_, leaving) => LeavesIfSignalled(s, s', c, c in leaving)
    case LoopCallback(leaving) => LeavesIfSignalled(s, s', c, c in leaving)
    case GraceTimer(leaving) => LeavesIfSignalled(s, s', c, c in leaving)
    case DeferredClose(d, leaves) => LeavesIfSignalled(s, s', c, c == d && leaves)
    case DropAll => s'.conns == []
    case DropSome(n) => s'.conns == s.conns[Min(n, |s.conns|)..]
    case Shedding(_, _, _) => c in s'.conns ==> c in s.conns
  }

  lemma StepMembers(s: State, e: Event, c: Conn)
    requires WellFormed(s) && Enabled(s, e)
    ensures Members(s, e, Step(s, e), c)
  {
    match e
    case Add(d, r) => LinkWellFormed(s, d, r);
    case Remove(d) => RemoveWellFormed(s, d);
    case Activate(d) => ActivateWellFormed(s, d);
    case Deactivate(d, now) => DeactivateWellFormed(s, d, now);
    case Shutdown(grace, leaving) => ShutdownMembers(s, grace, leaving, c);
    case LoopCallback(leaving) => DrainMembers(s, s.(loopPending := false), leaving, c);
    case GraceTimer(leaving) => TimerMembers(s, leaving, c);
    case DeferredClose(d, leaves) => DeferredMembers(s, d, leaves, c);
    case DropAll =>
    case DropSome(n) => RemoveFrontIsSuffix(StopDraining(s), n);
    case Shedding(num, threshold, now) => ShedMembers(s, num, threshold, now, c);
  }

  /** Every linked connection was added. */
  lemma {:induction false} LinkedWasAdded(states: seq<State>, es: seq<Event>, i: nat, c: Conn) returns (j: nat)
    requires IsRun(states, es) && states[0] == Initial && i < |states| && c in states[i].conns
    ensures j < i && es[j].Add? && es[j].c == c
    ensures forall k :: j < k <= i ==> c in states[k].conns
  {
    StepMembers(states[i - 1], es[i - 1], c);
    if es[i - 1].Add? && es[i - 1].c == c {
      j := i - 1;
    } else {
      j := LinkedWasAdded(states, es, i - 1, c);
    }
  }

  // ---------------------------------------------------------------- idle times

  /** Since when a connection has been idle: since it was last deactivated, and not at all once it
      is activated or newly linked. */
  function IdleSinceAfter(s: State, e: Event, c: Conn): Option<int>
    requires c in s.records
  {
    match e
    case Add(d, _) => if d == c && c !in s.conns then None else s.records[c].idleSince
    case Activate(d) => if d == c then None else s.records[c].idleSince
    case Deactivate(d, now) => if d == c then Some(now) else s.records[c].idleSince
    case _ => s.records[c].idleSince
  }

  predicate SameIdle(s: State, s': State, c: Conn) {
    c in s.records ==> c in s'.records && s'.records[c].idleSince == s.records[c].idleSince
  }

  lemma SignalledKeepsIdle(s: State, d: Conn, r: Record, leaves: bool, c: Conn)
    requires d in s.records && r.idleSince == s.records[d].idleSince
    ensures SameIdle(s, Signalled(s, d, r, leaves), c)
  {}

  lemma {:induction false} VisitKeepsIdle(s: State, it: Option<Conn>, budget: nat, leaving: set<Conn>, c: Conn)
    requires WellFormed(s) && ValidCursor(s.conns, it)
    ensures SameIdle(s, Visit(s, it, budget, leaving).0, c)
    decreases budget
  {
    if it.Some? && budget > 0 {
      var d := it.value;
      SignalledCursor(s, d, Offered(s, d), d in leaving);
      SignalledKeepsIdle(s, d, Offered(s, d), d in leaving, c);
      VisitKeepsIdle(VisitOne(s, d, leaving), Next(s.conns, d), budget - 1, leaving, c);
    }
  }

  lemma DrainKeepsIdle(s: State, s1: State, leaving: set<Conn>, c: Conn)
    requires WellFormed(s1) && s1.records == s.records
    ensures SameIdle(s, DrainConnections(s1, leaving), c)
  {
    VisitKeepsIdle(s1, s1.drainIt, BATCH, leaving, c);
  }

  lemma ShutdownKeepsIdle(s: State, grace: int, leaving: set<Conn>, c: Conn)
    requires WellFormed(s)
    ensures SameIdle(s, InitiateGracefulShutdown(s, grace, leaving), c)
  {
    if s.shutdown == NoShutdown { DrainKeepsIdle(s, Starting(s, Begin(s), grace), leaving, c); }
  }

  lemma TimerKeepsIdle(s: State, leaving: set<Conn>, c: Conn)
    requires WellFormed(s)
    ensures SameIdle(s, TimeoutExpired(s, leaving), c)
  {
    if s.shutdown == NotifyComplete {
      DrainKeepsIdle(s, s.(timerPending := false, shutdown := ClosingIdle, drainIt := Begin(s)), leaving, c);
    }
  }

  lemma DeferredKeepsIdle(s: State, d: Conn, leaves: bool, c: Conn)
    requires WellFormed(s)
    ensures SameIdle(s, RunDeferred(s, d, leaves), c)
  {
    if d in s.conns {
      SignalledKeepsIdle(s.(deferred := s.deferred - multiset{d}), d,
                         FireCloseWhenIdle(s.records[d], !s.notifyEnabled), leaves, c);
    }
  }

  lemma AddSetsIdle(s: State, d: Conn, r: Record, c: Conn)
    requires WellFormed(s) && (d in s.records ==> r == s.records[d]) && c in s.records
    ensures var s' := AddConnection(s, d, r);
            c in s'.records && s'.records[c].idleSince == IdleSinceAfter(s, Add(d, r), c)
  {
    LinkWellFormed(s, d, r);
    LinkSetsIdle(s, d, r, c);
    TellKeepsIdle(Link(s, d, r), d, c);
  }

  lemma LinkSetsIdle(s: State, d: Conn, r: Record, c: Conn)
    requires c in s.records
    ensures c in Link(s, d, r).records && Link(s, d, r).records[c].idleSince == IdleSinceAfter(s, Add(d, r), c)
  {}

  lemma TellKeepsIdle(s: State, d: Conn, c: Conn)
    requires d in s.records
    ensures SameIdle(s, Defer(Tell(s, d), d), c)
  {}

  lemma DropKeepsRecords(s: State, n: nat)
    requires WellFormed(s)
    ensures DropConnections(s, n).records == s.records
  {
    RemoveFrontKeeps((t: State) => t.records == s.records, StopDraining(s), n);
  }

  lemma IdleSinceNext(s: State, e: Event, c: Conn)
    requires WellFormed(s) && Enabled(s, e) && c in s.records
    ensures c in Step(s, e).records && Step(s, e).records[c].idleSince == IdleSinceAfter(s, e, c)
  {
    match e
    case Add(d, r) => AddSetsIdle(s, d, r, c);
    case Shutdown(grace, leaving) => ShutdownKeepsIdle(s, grace, leaving, c);
    case LoopCallback(leaving) => DrainKeepsIdle(s, s.(loopPending := false), leaving, c);
    case GraceTimer(leaving) => TimerKeepsIdle(s, leaving, c);
    case DeferredClose(d, leaves) => DeferredKeepsIdle(s, d, leaves, c);
    case DropSome(n) => DropKeepsRecords(s, n);
    case Shedding(num, threshold, now) => ShedKeeps(s, num, threshold, now);
    case _ =>
  }
}
