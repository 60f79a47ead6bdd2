/** Runs of a connection manager: any sequence of calls, loop callbacks, timer expiries
    and delayed closes the event loop can produce. */
module ManagerRuns {
  import opened CursorList
  import opened ManagedConnections
  import opened ConnectionManagers
  import opened IdlePartition
  import opened IdleShedding

  datatype Event =
    | Add(c: Conn, r: Record)
    | Remove(c: Conn)
    | Activate(c: Conn)
    | Deactivate(c: Conn, now: int)
    | Shutdown(grace: int, leaving: set<Conn>)
    | LoopCallback(leaving: set<Conn>)
    | GraceTimer(leaving: set<Conn>)
    | DeferredClose(c: Conn, leaves: bool)
    | DropAll
    | DropSome(n: nat)
    | Shedding(num: nat, threshold: int, now: int)

  /** What the callers and the event loop guarantee.  `Add` carries the value the
      connection has at that moment, and clocks do not run backwards. */
  ghost predicate Enabled(s: State, e: Event) {
    match e
    case Add(c, r) => c in s.records ==> r == s.records[c]
    case Activate(c) => c in s.conns
    case Deactivate(c, now) => c in s.conns && ClockAt(s, now)
    case LoopCallback(_) => s.loopPending
    case GraceTimer(_) => s.timerPending
    case DeferredClose(c, _) => c in s.deferred
    case Shedding(_, threshold, _) => 0 <= threshold
    case _ => true
  }

  function Step(s: State, e: Event): State
    requires WellFormed(s) && Enabled(s, e)
  {
    match e
    case Add(c, r) => AddConnection(s, c, r)
    case Remove(c) => RemoveConnection(s, c)
    case Activate(c) => OnActivated(s, c)
    case Deactivate(c, now) => OnDeactivated(s, c, now)
    case Shutdown(grace, leaving) => InitiateGracefulShutdown(s, grace, leaving)
    case LoopCallback(leaving) => RunLoopCallback(s, leaving)
    case GraceTimer(leaving) => TimeoutExpired(s, leaving)
    case DeferredClose(c, leaves) => RunDeferred(s, c, leaves)
    case DropAll => DropAllConnections(s)
    case DropSome(n) => DropConnections(s, n)
    case Shedding(num, threshold, now) => ShedSome(s, num, threshold, now)
  }

  /** `states[i]` is the state before event `i`.  Every step keeps a state well formed
      (`StepWellFormed`), so asking for it here only makes `Step` applicable. */
  ghost predicate IsRun(states: seq<State>, es: seq<Event>) {
    && |states| == |es| + 1
    && (forall i :: 0 <= i < |states| ==> WellFormed(states[i]))
    && (forall i :: 0 <= i < |es| ==> Enabled(states[i], es[i]) && states[i + 1] == Step(states[i], es[i]))
  }

  lemma RemoveFrontPartitioned(s: State, n: nat)
    requires WellFormed(s)
    ensures WellFormed(RemoveFront(s, n))
    ensures Partitioned(s) ==> Partitioned(RemoveFront(s, n))
  {
    forall t, c | Partitioned(t) ensures Partitioned(RemoveConnection(t, c)) { RemovePartitioned(t, c); }
    RemoveFrontKeeps(t => Partitioned(s) ==> Partitioned(t), s, n);
  }

  lemma StepWellFormed(s: State, e: Event)
    requires WellFormed(s) && Enabled(s, e)
    ensures WellFormed(Step(s, e))
  {
    match e
    case Add(c, r) => AddWellFormed(s, c, r);
    case Remove(c) => RemoveWellFormed(s, c);
    case Activate(c) => ActivateWellFormed(s, c);
    case Deactivate(c, now) => DeactivateWellFormed(s, c, now);
    case Shutdown(grace, leaving) => ShutdownWellFormed(s, grace, leaving);
    case LoopCallback(leaving) => DrainWellFormed(s.(loopPending := false), leaving);
    case GraceTimer(leaving) => TimerWellFormed(s, leaving);
    case DeferredClose(c, leaves) => DeferredWellFormed(s, c, leaves);
    case DropAll =>
    case DropSome(n) => RemoveFrontPartitioned(StopDraining(s), n);
    case Shedding(num, threshold, now) => ShedKeeps(s, num, threshold, now);
  }

  lemma ShutdownWellFormed(s: State, grace: int, leaving: set<Conn>)
    requires WellFormed(s)
    ensures WellFormed(InitiateGracefulShutdown(s, grace, leaving))
  {
    DrainWellFormed(Starting(s, Begin(s), grace), leaving);
  }

  lemma TimerWellFormed(s: State, leaving: set<Conn>)
    requires WellFormed(s)
    ensures WellFormed(TimeoutExpired(s, leaving))
  {
    DrainWellFormed(s.(timerPending := false, shutdown := ClosingIdle, drainIt := Begin(s)), leaving);
  }

  lemma DeferredWellFormed(s: State, c: Conn, leaves: bool)
    requires WellFormed(s)
    ensures WellFormed(RunDeferred(s, c, leaves))
  {
    if c in s.conns {
      SignalledCursor(s.(deferred := s.deferred - multiset{c}), c,
                      FireCloseWhenIdle(s.records[c], !s.notifyEnabled), leaves);
    }
  }

  // ---------------------------------------------------------------- the partition in every run

  /** Fields outside the list and the records do not matter to the partition. */
  lemma PartitionedFields(s: State, s': State)
    requires Partitioned(s) && s'.conns == s.conns && s'.idleIt == s.idleIt && s'.records == s.records
    requires ValidCursor(s'.conns, s'.drainIt)
    ensures Partitioned(s')
  {
    SameIdlenessPartitioned(s, s');
  }

  lemma DrainFromBeginPartitioned(s: State, s1: State, leaving: set<Conn>)
    requires Partitioned(s) && s1.conns == s.conns && s1.idleIt == s.idleIt && s1.records == s.records
    requires s1.drainIt == s.drainIt || s1.drainIt == Begin(s)
    ensures Partitioned(DrainConnections(s1, leaving))
  {
    PartitionedFields(s, s1);
    DrainPartitioned(s1, leaving);
  }

  lemma StepPartitioned(s: State, e: Event)
    requires Partitioned(s) && Enabled(s, e)
    requires e.Deactivate? ==> !(s.idleIt == Some(e.c) && Index(s.conns, e.c) + 1 < |s.conns|)
    ensures Partitioned(Step(s, e))
  {
    match e
    case Add(c, r) => AddPartitioned(s, c, r);
    case Remove(c) => RemovePartitioned(s, c);
    case Activate(c) => ActivatePartitioned(s, c);
    case Deactivate(c, now) => DeactivatePartitionedIff(s, c, now);
    case Shutdown(grace, leaving) =>
      DrainFromBeginPartitioned(s, Starting(s, Begin(s), grace), leaving);
    case LoopCallback(leaving) => DrainFromBeginPartitioned(s, s.(loopPending := false), leaving);
    case GraceTimer(leaving) =>
      DrainFromBeginPartitioned(s, s.(timerPending := false, shutdown := ClosingIdle, drainIt := Begin(s)), leaving);
      PartitionedFields(s, s.(timerPending := false));
    case DeferredClose(c, leaves) =>
      var s1 := s.(deferred := s.deferred - multiset{c});
      PartitionedFields(s, s1);
      if c in s.conns { SignalledPartitioned(s1, c, FireCloseWhenIdle(s.records[c], !s.notifyEnabled), leaves); }
    case DropAll =>
    case DropSome(n) =>
      PartitionedFields(s, StopDraining(s));
      RemoveFrontPartitioned(StopDraining(s), n);
    case Shedding(num, threshold, now) => ShedSomeIsShed(s, num, threshold, now);
  }

  /** Connections alternate: only a busy connection is deactivated.  (Activating a busy
      one only reorders the busy part.) */
  ghost predicate Alternates(states: seq<State>, es: seq<Event>)
    requires |states| == |es| + 1
  {
    forall i :: 0 <= i < |es| && es[i].Deactivate? ==> !IsIdle(states[i], es[i].c)
  }

  /** In every run whose connections alternate, drains included, the cursors stay inside
      the list, the busy connections are exactly those before the idle cursor, and the
      idle ones are in order of decreasing idle time. */
  lemma {:induction false} PartitionInEveryRun(states: seq<State>, es: seq<Event>, i: nat)
    requires IsRun(states, es) && states[0] == Initial && Alternates(states, es)
    requires i < |states|
    ensures Partitioned(states[i])
  {
    if i > 0 {
      PartitionInEveryRun(states, es, i - 1);
      var s, e := states[i - 1], es[i - 1];
      assert s.idleIt.Some? ==> IsIdle(s, s.conns[Index(s.conns, s.idleIt.value)]);
      StepPartitioned(s, e);
    }
  }
}
