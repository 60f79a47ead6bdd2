/** A shutdown without a grace period: nobody is notified, and everybody is told to close. */
module ForcedDrain {
  import opened CursorList
  import opened ManagedConnections
  import opened ConnectionManagers
  import opened IdleShedding
  import opened ManagerRuns
  import opened GracefulDrain
  import opened DrainCoverage
  import opened Membership

  ghost predicate ForcedBefore(es: seq<Event>, i: nat)
    requires i <= |es|
  {
    exists j :: 0 <= j < i && es[j].Shutdown? && es[j].grace <= 0
  }

  /** The first thing that happens to the drain is a shutdown without grace, and connections
      are not dropped by share. */
  ghost predicate ForcedRun(states: seq<State>, es: seq<Event>) {
    && IsRun(states, es) && states[0] == Initial
    && (forall i :: 0 <= i < |es| ==> !es[i].DropSome?)
    && (forall i :: 0 <= i < |es| && ((es[i].Shutdown? && es[i].grace > 0) || es[i].DropAll?) ==> ForcedBefore(es, i))
  }

  /** `b` is `a` with nothing but orders to close after it. */
  predicate OnlyCloses(a: seq<Signal>, b: seq<Signal>) {
    |a| <= |b| && b[..|a|] == a && forall k :: |a| <= k < |b| ==> b[k] == CloseWhenIdle
  }

  lemma OnlyClosesTrans(a: seq<Signal>, b: seq<Signal>, c: seq<Signal>)
    requires OnlyCloses(a, b) && OnlyCloses(b, c)
    ensures OnlyCloses(a, c)
  {
    assert c[..|a|] == b[..|a|];
  }

  /** Before the shutdown nothing is under way; from then on nobody is notified. */
  predicate Forced(s: State) {
    && PhaseTable(s)
    && match s.shutdown
       case NoShutdown => s.deferred == multiset{}
       case ClosingIdle => !s.notifyEnabled
       case CloseComplete => !s.notifyEnabled
       case _ => false
  }

  predicate StartsForced(s: State, e: Event) {
    s.shutdown == NoShutdown ==> !(e.Shutdown? && e.grace > 0) && !e.DropAll? && !e.DropSome?
  }

  // ---------------------------------------------------------------- one connection

  /** `c` has been told to close since it had `n` signals, or is about to be. */
  predicate Told(s: State, c: Conn, n: nat) {
    c in s.records && (|s.records[c].signals| > n || c in s.deferred)
  }

  /** While `c` is linked, it has been told to close or the pass has yet to come to it. */
  ghost predicate Owed(s: State, it: Option<Conn>, c: Conn, n: nat) {
    && c in s.records && n <= |s.records[c].signals|
    && (c in s.conns ==>
          || Told(s, c, n) || s.shutdown == NoShutdown
          || (s.shutdown == ClosingIdle && !Passed(s, it, c)))
  }

  /** What every step does to `c`: it leaves nothing owed, and sends nothing but orders to close. */
  ghost predicate Onward(s: State, s': State, c: Conn, n: nat) {
    && c in s.records && c in s'.records && OnlyCloses(s.records[c].signals, s'.records[c].signals)
    && Owed(s', s'.drainIt, c, n)
  }

  lemma LinkOnward(s: State, d: Conn, r: Record, c: Conn, n: nat)
    requires WellFormed(s) && Owed(s, s.drainIt, c, n) && (d in s.records ==> r == s.records[d])
    requires d == c ==> c in s.conns || s.shutdown == NoShutdown
    ensures Onward(s, Link(s, d, r), c, n)
  {
    if d !in s.conns && d != c && c in s.conns {
      PushFrontPos(s.conns, s.drainIt, d);
      PushFrontPos(s.conns, Some(c), d);
    }
  }

  lemma TellOnward(s: State, d: Conn, c: Conn, n: nat)
    requires d in s.records && Forced(s) && Owed(s, s.drainIt, c, n)
    ensures Onward(s, Defer(Tell(s, d), d), c, n)
  {}

  /** A connection that is linked again while others are closed is closed at the end of the loop. */
  lemma RelinkOnward(s: State, r: Record, c: Conn, n: nat)
    requires WellFormed(s) && Forced(s) && Owed(s, s.drainIt, c, n) && c !in s.conns && r == s.records[c]
    requires s.shutdown != NoShutdown
    ensures Onward(s, AddConnection(s, c, r), c, n)
  {
    var l := Link(s, c, r);
    assert Tell(l, c) == l && c in Defer(l, c).deferred;
  }

  lemma AddOnward(s: State, d: Conn, r: Record, c: Conn, n: nat)
    requires WellFormed(s) && Forced(s) && Owed(s, s.drainIt, c, n) && (d in s.records ==> r == s.records[d])
    ensures Onward(s, AddConnection(s, d, r), c, n)
  {
    if d == c && c !in s.conns && s.shutdown != NoShutdown {
      RelinkOnward(s, r, c, n);
    } else {
      LinkWellFormed(s, d, r);
      LinkOnward(s, d, r, c, n);
      TellOnward(Link(s, d, r), d, c, n);
    }
  }

  /** From the moment it is added with `r` on. */
  lemma AddOwes(s: State, c: Conn, r: Record)
    requires WellFormed(s) && Forced(s) && (c in s.records ==> r == s.records[c])
    ensures var s' := AddConnection(s, c, r);
            c in s'.conns && s'.records[c].signals == r.signals && Owed(s', s'.drainIt, c, |r.signals|)
  {
    LinkWellFormed(s, c, r);
  }

  lemma RemoveOnward(s: State, d: Conn, c: Conn, n: nat)
    requires WellFormed(s) && Owed(s, s.drainIt, c, n)
    ensures Onward(s, RemoveConnection(s, d), c, n)
  {
    if d in s.conns {
      EraseMembers(s.conns, d);
      if c in s.conns && c != d { ErasePassed(s, s.drainIt, d, c); }
    }
  }

  /** `e` does not move `c` in front of a pass that has yet to reach it. */
  ghost predicate NotSkippedBy(s: State, e: Event, c: Conn) {
    e == Activate(c) && s.shutdown == ClosingIdle ==> Index(s.conns, c) <= Pos(s.conns, s.drainIt)
  }

  lemma ActivateOnward(s: State, d: Conn, c: Conn, n: nat)
    requires WellFormed(s) && d in s.conns && Owed(s, s.drainIt, c, n) && NotSkippedBy(s, Activate(d), c)
    ensures Onward(s, OnActivated(s, d), c, n)
  {
    EraseMembers(s.conns, d);
    if c in s.conns {
      ActivatePassed(s, d, c);
      AtOfPos(s.conns, s.drainIt);
    }
  }

  lemma DeactivateOnward(s: State, d: Conn, now: int, c: Conn, n: nat)
    requires WellFormed(s) && d in s.conns && Owed(s, s.drainIt, c, n)
    ensures Onward(s, OnDeactivated(s, d, now), c, n)
  {
    EraseMembers(s.conns, d);
    if c in s.conns { DeactivatePassed(s, d, now, c); }
  }

  lemma DeferredOnward(s: State, d: Conn, leaves: bool, c: Conn, n: nat)
    requires WellFormed(s) && Forced(s) && d in s.deferred && Owed(s, s.drainIt, c, n)
    ensures Onward(s, RunDeferred(s, d, leaves), c, n)
  {
    if d in s.conns {
      var r := FireCloseWhenIdle(s.records[d], !s.notifyEnabled);
      var s1 := SetRecord(s.(deferred := s.deferred - multiset{d}), d, r);
      assert Owed(s1, s1.drainIt, c, n);
      RemoveOnward(s1, d, c, n);
    }
  }

  lemma ShedOnward(s: State, num: nat, threshold: int, now: int, c: Conn, n: nat)
    requires WellFormed(s) && Owed(s, s.drainIt, c, n)
    ensures Onward(s, ShedSome(s, num, threshold, now), c, n)
  {
    forall t, d | WellFormed(t) && Owed(t, t.drainIt, c, n) && d in t.conns
      ensures var t' := RemoveConnection(t, d); Owed(t', t'.drainIt, c, n)
    {
      RemoveOnward(t, d, c, n);
    }
    ShedSomeKeeps((t: State) => Owed(t, t.drainIt, c, n), s, num, threshold, now);
    ShedKeeps(s, num, threshold, now);
  }

  // ---------------------------------------------------------------- the pass

  /** The connection that is visited is told to close ... */
  lemma VisitTells(s: State, c: Conn, leaving: set<Conn>, n: nat)
    requires WellFormed(s) && c in s.conns && s.shutdown == ClosingIdle && !s.notifyEnabled && Owed(s, Some(c), c, n)
    ensures Onward(s.(drainIt := Some(c)), VisitOne(s, c, leaving).(drainIt := Next(s.conns, c)), c, n)
  {
    assert VisitOne(s, c, leaving).records == s.records[c := Offered(s, c)];
  }

  /** ... and the others are not passed over. */
  lemma VisitSpares(s: State, d: Conn, leaving: set<Conn>, c: Conn, n: nat)
    requires WellFormed(s) && d in s.conns && s.shutdown == ClosingIdle && Owed(s, Some(d), c, n) && c != d
    ensures Onward(s.(drainIt := Some(d)), VisitOne(s, d, leaving).(drainIt := Next(s.conns, d)), c, n)
  {
    var s' := VisitOne(s, d, leaving);
    assert s'.records == s.records[d := Offered(s, d)];
    if c in s'.conns { VisitPassed(s, d, leaving, c); }
  }

  lemma OnwardTrans(s: State, s1: State, s2: State, c: Conn, n: nat)
    requires Onward(s, s1, c, n) && Onward(s1, s2, c, n)
    ensures Onward(s, s2, c, n)
  {
    OnlyClosesTrans(s.records[c].signals, s1.records[c].signals, s2.records[c].signals);
  }

  lemma VisitOneOnward(s: State, d: Conn, leaving: set<Conn>, c: Conn, n: nat)
    requires WellFormed(s) && d in s.conns && s.shutdown == ClosingIdle && !s.notifyEnabled && Owed(s, Some(d), c, n)
    ensures var s1, it1 := VisitOne(s, d, leaving), Next(s.conns, d);
            && WellFormed(s1) && ValidCursor(s1.conns, it1) && s1.shutdown == ClosingIdle && !s1.notifyEnabled
            && Onward(s.(drainIt := Some(d)), s1.(drainIt := it1), c, n)
  {
    SignalledCursor(s, d, Offered(s, d), d in leaving);
    if c == d { VisitTells(s, c, leaving, n); } else { VisitSpares(s, d, leaving, c, n); }
  }

  lemma {:induction false} VisitOnward(s: State, it: Option<Conn>, budget: nat, leaving: set<Conn>, c: Conn, n: nat)
    requires WellFormed(s) && ValidCursor(s.conns, it) && s.shutdown == ClosingIdle && !s.notifyEnabled
    requires Owed(s, it, c, n)
    ensures var (s', it') := Visit(s, it, budget, leaving);
            Onward(s.(drainIt := it), s'.(drainIt := it'), c, n)
    decreases budget, 1
  {
    if it.Some? && budget > 0 {
      VisitOneOnward(s, it.value, leaving, c, n);
      RestOnward(s.(drainIt := it), VisitOne(s, it.value, leaving), Next(s.conns, it.value), budget - 1, leaving, c, n);
    }
  }

  lemma {:induction false} RestOnward(
    s: State, s1: State, it1: Option<Conn>, budget: nat, leaving: set<Conn>, c: Conn, n: nat)
    requires WellFormed(s1) && ValidCursor(s1.conns, it1) && s1.shutdown == ClosingIdle && !s1.notifyEnabled
    requires Onward(s, s1.(drainIt := it1), c, n)
    ensures var (s', it') := Visit(s1, it1, budget, leaving); Onward(s, s'.(drainIt := it'), c, n)
    decreases budget, 2
  {
    VisitOnward(s1, it1, budget, leaving, c, n);
    var (s', it') := Visit(s1, it1, budget, leaving);
    OnwardTrans(s, s1.(drainIt := it1), s'.(drainIt := it'), c, n);
  }

  lemma FinishOnward(s: State, it: Option<Conn>, c: Conn, n: nat)
    requires WellFormed(s) && ValidCursor(s.conns, it) && s.shutdown == ClosingIdle && Owed(s, it, c, n)
    ensures Onward(s, FinishBatch(s, it), c, n)
  {}

  lemma DrainOnward(s: State, leaving: set<Conn>, c: Conn, n: nat)
    requires WellFormed(s) && s.shutdown == ClosingIdle && !s.notifyEnabled && Owed(s, s.drainIt, c, n)
    ensures Onward(s, DrainConnections(s, leaving), c, n)
  {
    BatchOnward(s, BATCH, leaving, c, n);
  }

  lemma BatchOnward(s: State, budget: nat, leaving: set<Conn>, c: Conn, n: nat)
    requires WellFormed(s) && s.shutdown == ClosingIdle && !s.notifyEnabled && Owed(s, s.drainIt, c, n)
    ensures var (s', it) := Visit(s, s.drainIt, budget, leaving); Onward(s, FinishBatch(s', it), c, n)
  {
    VisitWellFormed(s, s.drainIt, budget, leaving);
    VisitOnward(s, s.drainIt, budget, leaving, c, n);
    var (s', it) := Visit(s, s.drainIt, budget, leaving);
    FinishOnward(s', it, c, n);
  }

  lemma ShutdownOnward(s: State, grace: int, leaving: set<Conn>, c: Conn, n: nat)
    requires WellFormed(s) && Owed(s, s.drainIt, c, n) && (s.shutdown == NoShutdown ==> grace <= 0)
    ensures Onward(s, InitiateGracefulShutdown(s, grace, leaving), c, n)
  {
    if s.shutdown == NoShutdown {
      PosOfAt(s.conns, 0);
      DrainOnward(Starting(s, Begin(s), grace), leaving, c, n);
    }
  }

  // ---------------------------------------------------------------- runs

  /** A close pass without notifications stays one, or ends. */
  predicate Closing(s: State) {
    (s.shutdown == ClosingIdle || s.shutdown == CloseComplete) && !s.notifyEnabled
  }

  lemma DrainCloses(s: State, leaving: set<Conn>)
    requires WellFormed(s) && s.shutdown == ClosingIdle && !s.notifyEnabled
    ensures Closing(DrainConnections(s, leaving))
  {
    VisitWellFormed(s, s.drainIt, BATCH, leaving);
  }

  lemma ShutdownCloses(s: State, grace: int, leaving: set<Conn>)
    requires WellFormed(s) && Forced(s) && (s.shutdown == NoShutdown ==> grace <= 0)
    ensures Closing(InitiateGracefulShutdown(s, grace, leaving))
  {
    if s.shutdown == NoShutdown { DrainCloses(Starting(s, Begin(s), grace), leaving); }
  }

  lemma ForcedStep(s: State, e: Event)
    requires WellFormed(s) && Enabled(s, e) && Forced(s) && !e.DropSome? && StartsForced(s, e)
    ensures Forced(Step(s, e))
    ensures Step(s, e).shutdown == NoShutdown <==> s.shutdown == NoShutdown && !e.Shutdown?
  {
    TableStep(s, e);
    match e
    case Shutdown(grace, leaving) => ShutdownCloses(s, grace, leaving);
    case LoopCallback(leaving) => DrainCloses(s.(loopPending := false), leaving);
    case Shedding(num, threshold, now) => ShedKeeps(s, num, threshold, now);
    case _ =>
  }

  lemma {:induction false} ForcedInEveryRun(states: seq<State>, es: seq<Event>, i: nat)
    requires ForcedRun(states, es) && i < |states|
    ensures Forced(states[i]) && (states[i].shutdown == NoShutdown <==> !ForcedBefore(es, i))
  {
    if i > 0 {
      ForcedInEveryRun(states, es, i - 1);
      ForcedStep(states[i - 1], es[i - 1]);
      if ForcedBefore(es, i - 1) {
        var j :| 0 <= j < i - 1 && es[j].Shutdown? && es[j].grace <= 0;
      } else if es[i - 1].Shutdown? {
        assert es[i - 1].grace <= 0;
      }
    }
  }

  lemma OnwardStep(s: State, e: Event, c: Conn, n: nat)
    requires WellFormed(s) && Enabled(s, e) && Forced(s) && StartsForced(s, e) && !e.DropSome?
    requires Owed(s, s.drainIt, c, n) && NotSkippedBy(s, e, c)
    ensures Onward(s, Step(s, e), c, n)
  {
    match e
    case Add(d, r) => AddOnward(s, d, r, c, n);
    case Remove(d) => RemoveOnward(s, d, c, n);
    case Activate(d) => ActivateOnward(s, d, c, n);
    case Deactivate(d, now) => DeactivateOnward(s, d, now, c, n);
    case Shutdown(grace, leaving) => ShutdownOnward(s, grace, leaving, c, n);
    case LoopCallback(leaving) => DrainOnward(s.(loopPending := false), leaving, c, n);
    case DeferredClose(d, leaves) => DeferredOnward(s, d, leaves, c, n);
    case DropAll =>
    case Shedding(num, threshold, now) => ShedOnward(s, num, threshold, now, c, n);
  }

  lemma StartsInRun(states: seq<State>, es: seq<Event>, i: nat)
    requires ForcedRun(states, es) && i < |es|
    ensures Forced(states[i]) && StartsForced(states[i], es[i])
  {
    ForcedInEveryRun(states, es, i);
  }

  lemma {:induction false} OnwardInEveryRun(states: seq<State>, es: seq<Event>, j: nat, i: nat, c: Conn)
    requires ForcedRun(states, es) && j < i < |states| && es[j].Add? && es[j].c == c
    requires forall k :: j < k < i ==> NotSkippedBy(states[k], es[k], c)
    ensures Owed(states[i], states[i].drainIt, c, |es[j].r.signals|)
    ensures OnlyCloses(es[j].r.signals, states[i].records[c].signals)
    decreases i
  {
    var s, e := states[i - 1], es[i - 1];
    StartsInRun(states, es, i - 1);
    if i == j + 1 {
      AddOwes(s, c, e.r);
    } else {
      OnwardInEveryRun(states, es, j, i - 1, c);
      OnwardStep(s, e, c, |es[j].r.signals|);
      OnlyClosesTrans(es[j].r.signals, s.records[c].signals, states[i].records[c].signals);
    }
  }

  /** When a shutdown without grace is complete and the delayed closes have run, every connection
      still managed has been told to close since it was last added, and since it was first added
      it has been sent nothing else, in particular no notification. */
  lemma ForcedDrainClosesEveryConnection(states: seq<State>, es: seq<Event>, i: nat, c: Conn)
    requires ForcedRun(states, es) && i < |states| && c in states[i].conns
    requires forall k :: 0 <= k < i ==> NotSkippedBy(states[k], es[k], c)
    requires states[i].shutdown == CloseComplete && states[i].deferred == multiset{}
    ensures CloseWhenIdle in states[i].records[c].signals
    ensures forall j :: 0 <= j < i && es[j].Add? && es[j].c == c ==>
              |es[j].r.signals| < |states[i].records[c].signals|
              && OnlyCloses(es[j].r.signals, states[i].records[c].signals)
  {
    forall j | 0 <= j < i && es[j].Add? && es[j].c == c
      ensures |es[j].r.signals| < |states[i].records[c].signals|
      ensures OnlyCloses(es[j].r.signals, states[i].records[c].signals)
    {
      OnwardInEveryRun(states, es, j, i, c);
    }
    var j := LinkedWasAdded(states, es, i, c);
    var after := states[i].records[c].signals;
    assert after[|after| - 1] == CloseWhenIdle;
  }
}
