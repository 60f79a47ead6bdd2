/** Coverage of a graceful drain that yields between batches: no connection is left out,
    unless it is activated while the pass has yet to reach it. */
module DrainCoverage {
  import opened CursorList
  import opened ManagedConnections
  import opened ConnectionManagers
  import opened IdleShedding
  import opened ManagerRuns
  import opened GracefulDrain

  /** How far a connection has been brought: told, and then closed or about to be. */
  function Level(s: State, c: Conn): nat {
    if c !in s.records || s.records[c].drain == Untouched then 0
    else if s.records[c].drain == SentCloseWhenIdle || c in s.deferred then 2
    else 1
  }

  /** The level of every linked connection in a phase ... */
  function Base(p: ShutdownState): nat {
    match p
    case NoShutdown => 0
    case NotifyPending => 0
    case NotifyComplete => 1
    case ClosingIdle => 1
    case CloseComplete => 2
  }

  /** ... and of those the running pass has gone past. */
  function Goal(p: ShutdownState): nat {
    match p
    case NoShutdown => 0
    case NotifyPending => 1
    case NotifyComplete => 1
    case ClosingIdle => 2
    case CloseComplete => 2
  }

  /** Whether a pass at cursor `it` has gone past `c`. */
  ghost predicate Passed(s: State, it: Option<Conn>, c: Conn) {
    Index(s.conns, c) < Pos(s.conns, it)
  }

  ghost predicate CoveredTo(s: State, it: Option<Conn>) {
    forall c :: c in s.conns ==>
      Level(s, c) >= if Passed(s, it, c) then Goal(s.shutdown) else Base(s.shutdown)
  }

  ghost predicate Covered(s: State) {
    CoveredTo(s, s.drainIt)
  }

  /** What keeps coverage when the list or the cursor changes: a connection is done, or it
      lost nothing and the cursor did not jump over it. */
  ghost predicate Kept(s: State, it: Option<Conn>, s': State, it': Option<Conn>, c: Conn) {
    || Level(s', c) >= Goal(s.shutdown)
    || (c in s.conns && Level(s', c) >= Level(s, c) && (Passed(s', it', c) ==> Passed(s, it, c)))
  }

  lemma KeptCovered(s: State, it: Option<Conn>, s': State, it': Option<Conn>)
    requires CoveredTo(s, it) && s'.shutdown == s.shutdown
    requires forall c :: c in s'.conns ==> Kept(s, it, s', it', c)
    ensures CoveredTo(s', it')
  {}

  // ---------------------------------------------------------------- list operations

  lemma LinkCovered(s: State, c: Conn, r: Record)
    requires WellFormed(s) && Covered(s) && c !in s.conns
    ensures var s' := Link(s, c, r);
            forall x :: x in s.conns ==> Kept(s, s.drainIt, s', s'.drainIt, x)
  {
    var s' := Link(s, c, r);
    PushFrontPos(s.conns, s.drainIt, c);
    forall x | x in s.conns ensures Kept(s, s.drainIt, s', s'.drainIt, x) {
      PushFrontPos(s.conns, Some(x), c);
    }
  }

  lemma AddCovered(s: State, c: Conn, r: Record)
    requires WellFormed(s) && PhaseInv(s) && Covered(s)
    ensures Covered(AddConnection(s, c, r))
  {
    LinkWellFormed(s, c, r);
    var l, s' := Link(s, c, r), AddConnection(s, c, r);
    if c !in s.conns { LinkCovered(s, c, r); }
    AddLevels(l, c);
    assert s'.conns == l.conns && s'.drainIt == l.drainIt;
    forall x | x in s'.conns ensures Kept(s, s.drainIt, s', s'.drainIt, x) {
      if x != c {
        assert Kept(s, s.drainIt, l, l.drainIt, x);
      }
    }
    KeptCovered(s, s.drainIt, s', s'.drainIt);
  }

  lemma AddLevels(s: State, c: Conn)
    requires c in s.records && s.notifyEnabled
    ensures var s' := Defer(Tell(s, c), c);
            && Level(s', c) >= Goal(s.shutdown)
            && (forall x :: x != c ==> Level(s', x) == Level(s, x))
  {}

  /** Unlinking `c` moves the cursor past nothing else. */
  lemma ErasePassed(s: State, it: Option<Conn>, c: Conn, x: Conn)
    requires Distinct(s.conns) && c in s.conns && ValidCursor(s.conns, it) && x in s.conns && x != c
    ensures Index(Erase(s.conns, c), x) < Pos(Erase(s.conns, c), Repair(s.conns, it, c)) ==> Passed(s, it, x)
  {
    ErasePos(s.conns, it, c);
    ErasePos(s.conns, Some(x), c);
    IndexOfElement(s.conns, Index(s.conns, x));
  }

  lemma RemoveCovered(s: State, c: Conn)
    requires WellFormed(s) && Covered(s)
    ensures Covered(RemoveConnection(s, c))
  {
    if c in s.conns {
      EraseMembers(s.conns, c);
      var s' := RemoveConnection(s, c);
      forall x | x in s'.conns ensures Kept(s, s.drainIt, s', s'.drainIt, x) {
        ErasePassed(s, s.drainIt, c, x);
      }
      KeptCovered(s, s.drainIt, s', s'.drainIt);
    }
  }

  lemma DeactivateCovered(s: State, c: Conn, now: int)
    requires WellFormed(s) && Covered(s) && c in s.conns
    ensures Covered(OnDeactivated(s, c, now))
  {
    var s' := OnDeactivated(s, c, now);
    EraseMembers(s.conns, c);
    forall x | x in s'.conns ensures Kept(s, s.drainIt, s', s'.drainIt, x) {
      DeactivatePassed(s, c, now, x);
      assert Level(s', x) == Level(s, x);
    }
    KeptCovered(s, s.drainIt, s', s'.drainIt);
  }

  /** A connection moved to the back is behind the cursor again, and the cursor is never
      moved past one the pass had not gone past. */
  lemma DeactivatePassed(s: State, c: Conn, now: int, x: Conn)
    requires WellFormed(s) && c in s.conns && x in s.conns
    ensures var s' := OnDeactivated(s, c, now); Passed(s', s'.drainIt, x) ==> Passed(s, s.drainIt, x)
  {
    var l, it := Erase(s.conns, c), Repair(s.conns, s.drainIt, c);
    EraseMembers(s.conns, c);
    ErasePos(s.conns, s.drainIt, c);
    PushBackPos(l, it, c);
    PosOfAt(l + [c], |l|);
    if x != c {
      ErasePassed(s, s.drainIt, c, x);
      PushBackPos(l, Some(x), c);
    }
  }

  /** The pass has yet to reach `c`, which is not the very next one, and `c` still needs it. */
  ghost predicate WouldBeSkipped(s: State, c: Conn) {
    Pos(s.conns, s.drainIt) < Index(s.conns, c) && Level(s, c) < Goal(s.shutdown)
  }

  /** Activation moves a connection in front of the drain cursor.  Coverage survives
      exactly when the pass was not still to come to it; activating the connection at the
      cursor itself merely makes the pass start over. */
  lemma ActivateCoveredIff(s: State, c: Conn)
    requires WellFormed(s) && Covered(s) && c in s.conns
    ensures Covered(OnActivated(s, c)) <==> !WouldBeSkipped(s, c)
  {
    if WouldBeSkipped(s, c) { ActivateUncovers(s, c); } else { ActivateCovered(s, c); }
  }

  lemma ActivateLevel(s: State, c: Conn, x: Conn)
    requires WellFormed(s) && c in s.conns
    ensures Level(OnActivated(s, c), x) == Level(s, x)
  {}

  lemma ActivateUncovers(s: State, c: Conn)
    requires WellFormed(s) && c in s.conns && WouldBeSkipped(s, c)
    ensures !Covered(OnActivated(s, c))
  {
    ActivateWellFormed(s, c);
    ActivateLevel(s, c, c);
    ActivatePassed(s, c, c);
  }

  lemma ActivateCovered(s: State, c: Conn)
    requires WellFormed(s) && Covered(s) && c in s.conns && !WouldBeSkipped(s, c)
    ensures Covered(OnActivated(s, c))
  {
    var s' := OnActivated(s, c);
    ActivateWellFormed(s, c);
    forall x | x in s'.conns ensures Kept(s, s.drainIt, s', s'.drainIt, x) {
      ActivateLevel(s, c, x);
      ActivatePassed(s, c, x);
    }
    KeptCovered(s, s.drainIt, s', s'.drainIt);
  }

  lemma ActivatePassed(s: State, c: Conn, x: Conn)
    requires WellFormed(s) && c in s.conns && x in s.conns
    ensures var s' := OnActivated(s, c);
            if x == c then Passed(s', s'.drainIt, c) <==> s.drainIt != Some(c)
            else Passed(s', s'.drainIt, x) ==> Passed(s, s.drainIt, x)
  {
    var l := Erase(s.conns, c);
    EraseMembers(s.conns, c);
    PushFrontPos(l, None, c);
    PosOfAt([c] + l, 0);
    if s.drainIt != Some(c) {
      ErasePos(s.conns, s.drainIt, c);
      PushFrontPos(l, s.drainIt, c);
    }
    if x != c {
      ErasePassed(s, s.drainIt, c, x);
      PushFrontPos(l, Some(x), c);
    }
  }

  // ---------------------------------------------------------------- the passes

  lemma VisitOneCovered(s: State, c: Conn, leaving: set<Conn>)
    requires WellFormed(s) && c in s.conns && CoveredTo(s, Some(c))
    requires s.shutdown == NotifyPending || s.shutdown == ClosingIdle
    ensures CoveredTo(VisitOne(s, c, leaving), Next(s.conns, c))
  {
    var s', it := VisitOne(s, c, leaving), Next(s.conns, c);
    forall x | x in s'.conns ensures Kept(s, Some(c), s', it, x) {
      if x == c { VisitReaches(s, c, leaving); } else {
        VisitPassed(s, c, leaving, x);
        VisitLeavesOthers(s, c, leaving, x);
      }
    }
    KeptCovered(s, Some(c), s', it);
  }

  lemma VisitReaches(s: State, c: Conn, leaving: set<Conn>)
    requires WellFormed(s) && c in s.conns && Level(s, c) >= Base(s.shutdown)
    requires s.shutdown == NotifyPending || s.shutdown == ClosingIdle
    ensures Level(VisitOne(s, c, leaving), c) >= Goal(s.shutdown)
  {
    assert VisitOne(s, c, leaving).records == s.records[c := Offered(s, c)];
  }

  lemma VisitLeavesOthers(s: State, c: Conn, leaving: set<Conn>, x: Conn)
    requires WellFormed(s) && c in s.conns && x != c
    ensures Level(VisitOne(s, c, leaving), x) == Level(s, x)
  {
    assert VisitOne(s, c, leaving).records == s.records[c := Offered(s, c)];
  }

  lemma VisitPassed(s: State, c: Conn, leaving: set<Conn>, x: Conn)
    requires WellFormed(s) && c in s.conns && x in VisitOne(s, c, leaving).conns && x != c
    ensures x in s.conns
    ensures Passed(VisitOne(s, c, leaving), Next(s.conns, c), x) ==> Passed(s, Some(c), x)
  {
    var it := Next(s.conns, c);
    PosOfAt(s.conns, Index(s.conns, c) + 1);
    EraseMembers(s.conns, c);
    if VisitOne(s, c, leaving).conns == s.conns {
      assert s.conns[Index(s.conns, x)] == x;
    } else {
      ErasePos(s.conns, it, c);
      ErasePos(s.conns, Some(x), c);
    }
  }

  lemma {:induction false} VisitCovered(s: State, it: Option<Conn>, budget: nat, leaving: set<Conn>)
    requires WellFormed(s) && ValidCursor(s.conns, it) && CoveredTo(s, it)
    requires s.shutdown == NotifyPending || s.shutdown == ClosingIdle
    ensures var (s', it') := Visit(s, it, budget, leaving); CoveredTo(s', it')
    decreases budget
  {
    if it.Some? && budget > 0 {
      var c := it.value;
      VisitOneCovered(s, c, leaving);
      SignalledCursor(s, c, Offered(s, c), c in leaving);
      VisitCovered(VisitOne(s, c, leaving), Next(s.conns, c), budget - 1, leaving);
    }
  }

  lemma DrainCovered(s: State, leaving: set<Conn>)
    requires WellFormed(s) && Covered(s)
    requires s.shutdown == NotifyPending || s.shutdown == ClosingIdle
    ensures Covered(DrainConnections(s, leaving))
  {
    VisitWellFormed(s, s.drainIt, BATCH, leaving);
    VisitCovered(s, s.drainIt, BATCH, leaving);
    var (s1, it) := Visit(s, s.drainIt, BATCH, leaving);
    PosOfAt(s1.conns, 0);
    FinishCovered(s1, it);
  }

  lemma FinishCovered(s: State, it: Option<Conn>)
    requires WellFormed(s) && CoveredTo(s, it)
    requires s.shutdown == NotifyPending || s.shutdown == ClosingIdle
    ensures Covered(FinishBatch(s, it))
  {
    if it.Some? {
      SameLevelsCovered(s, it, s.(drainIt := it, loopPending := true));
    } else if s.shutdown != NotifyPending {
      SameLevelsCovered(s, it, s.(drainIt := it, shutdown := CloseComplete));
    } else if s.timerPending {
      SameLevelsCovered(s, it, s.(drainIt := it, shutdown := NotifyComplete));
    } else {
      PosOfAt(s.conns, 0);
      SameLevelsCovered(s, it, s.(shutdown := ClosingIdle, drainIt := Begin(s), loopPending := true));
    }
  }

  /** A phase that ends has brought every connection to the level the next one starts from. */
  lemma SameLevelsCovered(s: State, it: Option<Conn>, s': State)
    requires CoveredTo(s, it)
    requires s'.conns == s.conns && s'.records == s.records && s'.deferred == s.deferred
    requires if it.Some? then s'.shutdown == s.shutdown && s'.drainIt == it
             else Goal(s.shutdown) >= if Pos(s'.conns, s'.drainIt) == 0 then Base(s'.shutdown) else Goal(s'.shutdown)
    ensures Covered(s')
  {
    assert forall c :: Level(s', c) == Level(s, c);
    assert it.None? ==> forall c :: c in s.conns ==> Passed(s, it, c);
  }

  lemma DeferredCovered(s: State, c: Conn, leaves: bool)
    requires WellFormed(s) && PhaseInv(s) && Covered(s) && c in s.deferred
    ensures Covered(RunDeferred(s, c, leaves))
  {
    var s1 := s.(deferred := s.deferred - multiset{c});
    if c in s.conns {
      var r := FireCloseWhenIdle(s.records[c], !s.notifyEnabled);
      var s2 := SetRecord(s1, c, r);
      assert forall x :: x in s.conns ==> Level(s2, x) >= Level(s, x);
      RemoveCovered(s2, c);
    } else {
      assert forall x :: x in s.conns ==> Level(s1, x) == Level(s, x);
    }
  }

  // ---------------------------------------------------------------- runs

  /** No connection is activated while the running pass has yet to reach it. */
  ghost predicate NoneSkipped(states: seq<State>, es: seq<Event>)
    requires |states| == |es| + 1
  {
    forall i :: 0 <= i < |es| && es[i].Activate? ==> !WouldBeSkipped(states[i], es[i].c)
  }

  lemma CoveredStep(s: State, e: Event)
    requires WellFormed(s) && PhaseInv(s) && Covered(s) && Enabled(s, e) && GracefulEvent(e)
    requires e.Activate? ==> !WouldBeSkipped(s, e.c)
    ensures Covered(Step(s, e))
  {
    match e
    case Add(c, r) => AddCovered(s, c, r);
    case Remove(c) => RemoveCovered(s, c);
    case Activate(c) => ActivateCoveredIff(s, c);
    case Deactivate(c, now) => DeactivateCovered(s, c, now);
    case Shutdown(grace, leaving) =>
      if s.shutdown == NoShutdown {
        var s1 := s.(shutdown := NotifyPending, timerPending := true, drainIt := Begin(s));
        StartCovered(s, s1);
        DrainCovered(s1, leaving);
      }
    case LoopCallback(leaving) =>
      SameCovered(s, s.(loopPending := false));
      DrainCovered(s.(loopPending := false), leaving);
    case GraceTimer(leaving) => TimerCovered(s, leaving);
    case DeferredClose(c, leaves) => DeferredCovered(s, c, leaves);
    case DropAll =>
    case Shedding(num, threshold, now) => ShedCovered(s, num, threshold, now);
  }

  lemma ShedCovered(s: State, num: nat, threshold: int, now: int)
    requires WellFormed(s) && Covered(s)
    ensures Covered(ShedSome(s, num, threshold, now))
  {
    forall t, c | WellFormed(t) && Covered(t) && c in t.conns ensures Covered(RemoveConnection(t, c)) {
      RemoveCovered(t, c);
    }
    ShedSomeKeeps(t => Covered(t), s, num, threshold, now);
  }

  lemma TimerCovered(s: State, leaving: set<Conn>)
    requires WellFormed(s) && Covered(s)
    ensures Covered(TimeoutExpired(s, leaving))
  {
    if s.shutdown == NotifyComplete {
      var s1 := s.(timerPending := false, shutdown := ClosingIdle, drainIt := Begin(s));
      StartCovered(s, s1);
      DrainCovered(s1, leaving);
    } else {
      SameCovered(s, s.(timerPending := false));
    }
  }

  /** A pass starts covered if it asks for no more than the phase before it gave everyone. */
  lemma StartCovered(s: State, s1: State)
    requires WellFormed(s) && Covered(s)
    requires s1.conns == s.conns && s1.records == s.records && s1.deferred == s.deferred
    requires s1.drainIt == Begin(s) && Base(s1.shutdown) <= Base(s.shutdown)
    ensures Covered(s1)
  {
    PosOfAt(s.conns, 0);
    forall c | c in s1.conns ensures Level(s1, c) >= Base(s1.shutdown) && !Passed(s1, s1.drainIt, c) {
      assert Level(s1, c) == Level(s, c);
    }
  }

  lemma SameCovered(s: State, s1: State)
    requires Covered(s) && s1.conns == s.conns && s1.records == s.records && s1.deferred == s.deferred
    requires s1.drainIt == s.drainIt && s1.shutdown == s.shutdown
    ensures Covered(s1)
  {
    forall c | c in s1.conns ensures Level(s1, c) == Level(s, c) {}
  }

  lemma {:induction false} StaysCovered(states: seq<State>, i: nat)
    requires i < |states| && Covered(states[0])
    requires forall k :: 0 <= k < |states| - 1 && Covered(states[k]) ==> Covered(states[k + 1])
    ensures Covered(states[i])
  {
    if i > 0 {
      StaysCovered(states, i - 1);
      assert Covered(states[i - 1 + 1]);
    }
  }

  lemma CoveredNext(states: seq<State>, es: seq<Event>, k: nat)
    requires GracefulRun(states, es) && NoneSkipped(states, es) && k < |es| && Covered(states[k])
    ensures Covered(states[k + 1])
  {
    PhaseInEveryRun(states, es, k);
    CoveredStep(states[k], es[k]);
  }

  lemma CoveredInEveryRun(states: seq<State>, es: seq<Event>, i: nat)
    requires GracefulRun(states, es) && NoneSkipped(states, es) && i < |states|
    ensures Covered(states[i])
  {
    forall k | 0 <= k < |es| && Covered(states[k]) ensures Covered(states[k + 1]) {
      CoveredNext(states, es, k);
    }
    StaysCovered(states, i);
  }

  /** Once the drain is complete and the delayed closes have run, every connection still
      managed has been notified and then told to close, each exactly once, however the
      batches interleaved with additions, removals, deactivations and harmless activations. */
  lemma DrainReachesEveryConnection(states: seq<State>, es: seq<Event>, i: nat, c: Conn)
    requires GracefulRun(states, es) && NoneSkipped(states, es) && i < |states|
    requires states[i].shutdown == CloseComplete && states[i].deferred == multiset{}
    requires c in states[i].conns
    ensures states[i].records[c].signals == [NotifyPendingShutdown, CloseWhenIdle]
  {
    CoveredInEveryRun(states, es, i);
    PhaseInEveryRun(states, es, i);
  }
}
