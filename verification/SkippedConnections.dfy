/** The connection that a drain leaves out: one that is activated while a pass has yet to
    reach it. */
module SkippedConnections {
  import opened CursorList
  import opened ManagedConnections
  import opened ConnectionManagers
  import opened IdleShedding
  import opened ManagerRuns
  import opened DrainCoverage
  import opened DrainPasses

  /** `c` was never notified, so a close pass would have nothing to say to it. */
  predicate Unheard(s: State, c: Conn) {
    c in s.records && s.records[c].drain == Untouched && s.notifyEnabled
  }

  /** The running pass would signal `c`, if it came to it. */
  predicate Concerned(s: State, c: Conn) {
    s.shutdown == NotifyPending || (s.shutdown == ClosingIdle && !Unheard(s, c))
  }

  /** The drain is past `c`: `c` was never notified, or it was but never told to close, and no
      pass and no delayed close will come to it with what is missing. */
  ghost predicate Skipped(s: State, c: Conn) {
    && c in s.conns && c in s.records && s.shutdown != NoShutdown
    && (Concerned(s, c) ==> Passed(s, s.drainIt, c))
    && (!Unheard(s, c) ==>
          s.records[c].drain != SentCloseWhenIdle && c !in s.deferred && Rank(s.shutdown) >= Rank(ClosingIdle))
  }

  /** The pass stays past `c`, whether the connection it visits leaves or not. */
  lemma VisitOnePast(s: State, d: Conn, leaving: set<Conn>, c: Conn)
    requires WellFormed(s) && d in s.conns && c in s.conns && Index(s.conns, c) < Index(s.conns, d)
    ensures var s', it := VisitOne(s, d, leaving), Next(s.conns, d);
            c in s'.conns && Passed(s', it, c)
  {
    SignalledCursor(s, d, Offered(s, d), d in leaving);
    SignalledPrefix(s, d, Offered(s, d), d in leaving);
    var s', it := VisitOne(s, d, leaving), Next(s.conns, d);
    var j, p := Index(s.conns, c), Pos(s'.conns, it);
    assert s'.conns[..p][j] == c;
    IndexOfElement(s'.conns, j);
  }

  lemma VisitOneSpares(s: State, d: Conn, leaving: set<Conn>, c: Conn)
    requires WellFormed(s) && d in s.conns && c in s.conns
    requires d != c || (Unheard(s, c) && s.shutdown != NotifyPending)
    ensures c in VisitOne(s, d, leaving).conns && VisitOne(s, d, leaving).records[c] == s.records[c]
  {
    EraseMembers(s.conns, d);
  }

  lemma VisitOneSkips(s: State, d: Conn, leaving: set<Conn>, c: Conn)
    requires WellFormed(s) && d in s.conns && Skipped(s.(drainIt := Some(d)), c)
    requires s.shutdown == CloseComplete ==> Unheard(s, c)
    ensures Skipped(VisitOne(s, d, leaving).(drainIt := Next(s.conns, d)), c)
    ensures VisitOne(s, d, leaving).records[c] == s.records[c]
  {
    SignalledCursor(s, d, Offered(s, d), d in leaving);
    if Concerned(s, c) { VisitOnePast(s, d, leaving, c); }
    VisitOneSpares(s, d, leaving, c);
  }

  lemma {:induction false} VisitSkips(s: State, it: Option<Conn>, budget: nat, leaving: set<Conn>, c: Conn)
    requires WellFormed(s) && ValidCursor(s.conns, it) && Skipped(s.(drainIt := it), c)
    requires s.shutdown == CloseComplete ==> Unheard(s, c)
    ensures var (s', it') := Visit(s, it, budget, leaving);
            Skipped(s'.(drainIt := it'), c) && s'.records[c] == s.records[c]
    decreases budget
  {
    if it.Some? && budget > 0 {
      var d := it.value;
      SignalledCursor(s, d, Offered(s, d), d in leaving);
      VisitOneSkips(s, d, leaving, c);
      VisitSkips(VisitOne(s, d, leaving), Next(s.conns, d), budget - 1, leaving, c);
    }
  }

  lemma FinishSkips(s: State, it: Option<Conn>, c: Conn)
    requires WellFormed(s) && Skipped(s.(drainIt := it), c)
    ensures Skipped(FinishBatch(s, it), c) && FinishBatch(s, it).records == s.records
  {}

  lemma DrainSkips(s: State, leaving: set<Conn>, c: Conn)
    requires WellFormed(s) && Skipped(s, c) && (s.shutdown == CloseComplete ==> Unheard(s, c))
    ensures Skipped(DrainConnections(s, leaving), c)
    ensures DrainConnections(s, leaving).records[c] == s.records[c]
  {
    BatchSkips(s, BATCH, leaving, c);
  }

  lemma BatchSkips(s: State, budget: nat, leaving: set<Conn>, c: Conn)
    requires WellFormed(s) && Skipped(s, c) && (s.shutdown == CloseComplete ==> Unheard(s, c))
    ensures var (s', it) := Visit(s, s.drainIt, budget, leaving);
            Skipped(FinishBatch(s', it), c) && FinishBatch(s', it).records[c] == s.records[c]
  {
    assert s == s.(drainIt := s.drainIt);
    VisitWellFormed(s, s.drainIt, budget, leaving);
    VisitSkips(s, s.drainIt, budget, leaving, c);
    var (s', it) := Visit(s, s.drainIt, budget, leaving);
    FinishSkips(s', it, c);
  }

  lemma ActivateSkips(s: State, c: Conn)
    requires WellFormed(s) && InPass(s) && c in s.conns && WouldBeSkipped(s, c)
    requires s.shutdown == NotifyPending ==> s.notifyEnabled
    requires s.shutdown == ClosingIdle && !s.notifyEnabled ==> c !in s.deferred
    ensures Skipped(OnActivated(s, c), c) && OnActivated(s, c).records[c].signals == s.records[c].signals
  {
    ActivatePassed(s, c, c);
    IndexOfElement(s.conns, Index(s.conns, c));
  }

  // ---------------------------------------------------------------- what happens to others

  /** Unlinking another connection leaves `c` where it was passed over. */
  lemma RemoveSkips(s: State, d: Conn, c: Conn)
    requires WellFormed(s) && Skipped(s, c) && d != c
    ensures Skipped(RemoveConnection(s, d), c)
  {
    if d in s.conns {
      EraseMembers(s.conns, d);
      ErasePos(s.conns, s.drainIt, d);
      ErasePos(s.conns, Some(c), d);
    }
  }

  lemma LinkSkips(s: State, d: Conn, r: Record, c: Conn)
    requires WellFormed(s) && Skipped(s, c) && d != c
    ensures Skipped(Link(s, d, r), c) && Link(s, d, r).records[c] == s.records[c]
  {
    if d !in s.conns {
      PushFrontPos(s.conns, s.drainIt, d);
      PushFrontPos(s.conns, Some(c), d);
    }
  }

  lemma TellSkips(s: State, d: Conn, c: Conn)
    requires d in s.records && Skipped(s, c) && d != c
    ensures Skipped(Defer(Tell(s, d), d), c) && Defer(Tell(s, d), d).records[c] == s.records[c]
  {}

  lemma AddSkips(s: State, d: Conn, r: Record, c: Conn)
    requires WellFormed(s) && Skipped(s, c) && d != c
    ensures Skipped(AddConnection(s, d, r), c) && AddConnection(s, d, r).records[c] == s.records[c]
  {
    LinkWellFormed(s, d, r);
    LinkSkips(s, d, r, c);
    TellSkips(Link(s, d, r), d, c);
  }

  /** Unless the pass starts over because the connection at its cursor went to the front. */
  lemma ActivateOtherSkips(s: State, d: Conn, c: Conn)
    requires WellFormed(s) && Skipped(s, c) && d in s.conns && d != c
    requires Concerned(s, c) ==> s.drainIt != Some(d)
    ensures Skipped(OnActivated(s, d), c) && OnActivated(s, d).records[c] == s.records[c]
  {
    var l := Erase(s.conns, d);
    EraseMembers(s.conns, d);
    ErasePos(s.conns, Some(c), d);
    PushFrontPos(l, Some(c), d);
    if s.drainIt != Some(d) {
      ErasePos(s.conns, s.drainIt, d);
      PushFrontPos(l, s.drainIt, d);
    }
  }

  lemma DeactivateOtherSkips(s: State, d: Conn, now: int, c: Conn)
    requires WellFormed(s) && Skipped(s, c) && d in s.conns && d != c
    ensures Skipped(OnDeactivated(s, d, now), c) && OnDeactivated(s, d, now).records[c] == s.records[c]
  {
    var l := Erase(s.conns, d);
    EraseMembers(s.conns, d);
    ErasePos(s.conns, s.drainIt, d);
    ErasePos(s.conns, Some(c), d);
    PushBackPos(l, Some(c), d);
    PushBackPos(l, Repair(s.conns, s.drainIt, d), d);
    PosOfAt(l + [d], |l|);
  }

  lemma DeferredSkips(s: State, d: Conn, leaves: bool, c: Conn)
    requires WellFormed(s) && Skipped(s, c) && d != c
    ensures Skipped(RunDeferred(s, d, leaves), c) && RunDeferred(s, d, leaves).records[c] == s.records[c]
  {
    if d in s.conns {
      var r := FireCloseWhenIdle(s.records[d], !s.notifyEnabled);
      var s1 := SetRecord(s.(deferred := s.deferred - multiset{d}), d, r);
      assert Skipped(s1, c);
      RemoveSkips(s1, d, c);
    }
  }

  /** Dropping and shedding unlink others only, if they spare `c`. */
  ghost predicate SkippedOrGone(s0: State, s: State, c: Conn) {
    s.records == s0.records && (c in s.conns ==> Skipped(s, c))
  }

  lemma RemovalsSkip(s0: State, s: State, d: Conn, c: Conn)
    requires WellFormed(s) && SkippedOrGone(s0, s, c) && d in s.conns
    ensures SkippedOrGone(s0, RemoveConnection(s, d), c)
  {
    RemoveWellFormed(s, d);
    if c in s.conns && d != c { RemoveSkips(s, d, c); }
  }

  lemma DropSkips(s: State, n: nat, c: Conn)
    requires WellFormed(s) && Skipped(s, c)
    ensures SkippedOrGone(s, RemoveFront(s, n), c)
  {
    forall t, d | WellFormed(t) && SkippedOrGone(s, t, c) && d in t.conns
      ensures SkippedOrGone(s, RemoveConnection(t, d), c)
    {
      RemovalsSkip(s, t, d, c);
    }
    RemoveFrontKeeps(t => SkippedOrGone(s, t, c), s, n);
  }

  lemma ShedSkips(s: State, num: nat, threshold: int, now: int, c: Conn)
    requires WellFormed(s) && Skipped(s, c)
    ensures SkippedOrGone(s, ShedSome(s, num, threshold, now), c)
  {
    forall t, d | WellFormed(t) && SkippedOrGone(s, t, c) && d in t.conns
      ensures SkippedOrGone(s, RemoveConnection(t, d), c)
    {
      RemovalsSkip(s, t, d, c);
    }
    ShedSomeKeeps(t => SkippedOrGone(s, t, c), s, num, threshold, now);
  }

  // ---------------------------------------------------------------- the result

  /** Events that do not concern `c` itself, except that nothing makes the pass start over, and
      no loop callback runs that fails its CHECK. */
  ghost predicate Elsewhere(s: State, e: Event, c: Conn)
    requires WellFormed(s) && Enabled(s, e)
  {
    match e
    case Add(d, _) => d != c
    case Remove(d) => d != c
    case Activate(d) => d != c && (Concerned(s, c) ==> s.drainIt != Some(d))
    case Deactivate(d, _) => d != c
    case Shutdown(_, _) => true
    case LoopCallback(_) => InPass(s) || Unheard(s, c)
    case GraceTimer(_) => true
    case DeferredClose(d, _) => d != c
    case DropAll => false
    case DropSome(_) => c in Step(s, e).conns
    case Shedding(_, _, _) => c in Step(s, e).conns
  }

  lemma SkipsStep(s: State, e: Event, c: Conn)
    requires WellFormed(s) && Enabled(s, e) && Elsewhere(s, e, c) && Skipped(s, c)
    ensures Skipped(Step(s, e), c) && Step(s, e).records[c].signals == s.records[c].signals
  {
    match e
    case Add(d, r) => AddSkips(s, d, r, c);
    case Remove(d) => RemoveSkips(s, d, c);
    case Activate(d) => ActivateOtherSkips(s, d, c);
    case Deactivate(d, now) => DeactivateOtherSkips(s, d, now, c);
    case Shutdown(_, _) =>
    case LoopCallback(leaving) => DrainSkips(s.(loopPending := false), leaving, c);
    case GraceTimer(leaving) =>
      if s.shutdown == NotifyComplete {
        DrainSkips(s.(timerPending := false, shutdown := ClosingIdle, drainIt := Begin(s)), leaving, c);
      }
    case DeferredClose(d, leaves) => DeferredSkips(s, d, leaves, c);
    case DropSome(n) => DropSkips(StopDraining(s), n, c);
    case Shedding(num, threshold, now) => ShedSkips(s, num, threshold, now, c);
  }

  lemma {:induction false} StaysSkipped(states: seq<State>, c: Conn, i: nat)
    requires i < |states| && Skipped(states[0], c)
    requires forall k :: 0 <= k < |states| - 1 && Skipped(states[k], c) ==>
               Skipped(states[k + 1], c) && states[k + 1].records[c].signals == states[k].records[c].signals
    ensures Skipped(states[i], c) && states[i].records[c].signals == states[0].records[c].signals
  {
    if i > 0 {
      StaysSkipped(states, c, i - 1);
      assert Skipped(states[i - 1 + 1], c);
    }
  }

  /** The other side of `ActivateCoveredIff`: a connection activated while a pass has yet to reach
      it never receives a signal again, whatever happens elsewhere, as long as no activation
      makes the pass start over. If it was the notify pass it never hears of the shutdown, and
      if it was the close pass it is never told to close. */
  lemma SkippedConnectionIsNeverClosed(s: State, c: Conn, states: seq<State>, es: seq<Event>, i: nat)
    requires WellFormed(s) && InPass(s) && c in s.conns && WouldBeSkipped(s, c)
    requires s.shutdown == NotifyPending ==> s.notifyEnabled
    requires s.shutdown == ClosingIdle && !s.notifyEnabled ==> c !in s.deferred
    requires IsRun(states, es) && states[0] == OnActivated(s, c) && i < |states|
    requires forall k :: 0 <= k < |es| ==> Elsewhere(states[k], es[k], c)
    ensures Skipped(states[i], c) && states[i].records[c].signals == s.records[c].signals
    ensures states[i].records[c].drain != SentCloseWhenIdle
  {
    ActivateSkips(s, c);
    forall k | 0 <= k < |es| && Skipped(states[k], c)
      ensures Skipped(states[k + 1], c) && states[k + 1].records[c].signals == states[k].records[c].signals
    {
      SkipsStep(states[k], es[k], c);
    }
    StaysSkipped(states, c, i);
  }

  // ---------------------------------------------------------------- such a connection

  /** A batch whose connections stay leaves the list alone, and those it has no room for. */
  lemma {:induction false} VisitQuietly(s: State, it: Option<Conn>, budget: nat, x: Conn)
    requires WellFormed(s) && ValidCursor(s.conns, it) && x in s.conns
    requires Pos(s.conns, it) + budget <= Index(s.conns, x)
    ensures var (s', it') := Visit(s, it, budget, {});
            && s'.conns == s.conns && s'.deferred == s.deferred && s'.records.Keys == s.records.Keys
            && s'.records[x] == s.records[x]
            && ValidCursor(s.conns, it') && Pos(s.conns, it') == Pos(s.conns, it) + budget
    decreases budget
  {
    if budget > 0 {
      NextPos(s.conns, it.value);
      VisitQuietly(VisitOne(s, it.value, {}), Next(s.conns, it.value), budget - 1, x);
    }
  }

  /** With more than 65 connections that all need it, the event that starts a pass leaves the
      last one to be skipped if it becomes active before the next batch. */
  lemma LastIsAtRisk(s: State, e: Event)
    requires WellFormed(s) && Enabled(s, e) && StartsPass(s, e) && e.leaving == {} && |s.conns| > BATCH + 1
    requires forall c :: c in s.conns ==> Level(s, c) < Goal(PassOf(e))
    ensures var s', c := Step(s, e), s.conns[|s.conns| - 1];
            InPass(s') && s'.shutdown == PassOf(e) && c in s'.conns && WouldBeSkipped(s', c)
  {
    var c, s1 := s.conns[|s.conns| - 1], Started(s, e);
    LastIsFar(s, e);
    StartIsAtRisk(s1, c);
    StepStarts(s, e);
  }

  lemma LastIsFar(s: State, e: Event)
    requires WellFormed(s) && StartsPass(s, e) && |s.conns| > BATCH + 1
    requires forall c :: c in s.conns ==> Level(s, c) < Goal(PassOf(e))
    ensures var s1, c := Started(s, e), s.conns[|s.conns| - 1];
            && WellFormed(s1) && s1.shutdown == PassOf(e) && c in s1.conns && Level(s1, c) < Goal(s1.shutdown)
            && Pos(s1.conns, s1.drainIt) + BATCH < Index(s1.conns, c)
  {
    IndexOfElement(s.conns, |s.conns| - 1);
    PosOfAt(s.conns, 0);
    assert s.conns[|s.conns| - 1] in s.conns;
  }

  lemma StartIsAtRisk(s: State, c: Conn)
    requires WellFormed(s) && InPass(s) && c in s.conns && Level(s, c) < Goal(s.shutdown)
    requires Pos(s.conns, s.drainIt) + BATCH < Index(s.conns, c)
    ensures var s' := DrainConnections(s, {}); s'.shutdown == s.shutdown && c in s'.conns && WouldBeSkipped(s', c)
  {
    BatchLeavesAtRisk(s, BATCH, c);
  }

  lemma BatchLeavesAtRisk(s: State, budget: nat, c: Conn)
    requires WellFormed(s) && InPass(s) && c in s.conns && Level(s, c) < Goal(s.shutdown)
    requires Pos(s.conns, s.drainIt) + budget < Index(s.conns, c)
    ensures var (s1, it) := Visit(s, s.drainIt, budget, {});
            var s' := FinishBatch(s1, it);
            s'.shutdown == s.shutdown && c in s'.conns && WouldBeSkipped(s', c)
  {
    VisitQuietly(s, s.drainIt, budget, c);
    VisitWellFormed(s, s.drainIt, budget, {});
    var (s1, it) := Visit(s, s.drainIt, budget, {});
    assert it.Some? && Level(s1, c) == Level(s, c);
  }
}
