/** The graceful drain: what a shutdown with a positive grace period guarantees in every
    run of the event loop. */
module GracefulDrain {
  import opened CursorList
  import opened ManagedConnections
  import opened ConnectionManagers
  import opened ManagerRuns
  import opened IdleShedding

  // ---------------------------------------------------------------- the shutdown protocol

  /** No connection has been sent a signal twice, or a close before its notification. */
  ghost predicate AllGraceful(s: State) {
    forall c :: c in s.records ==> Graceful(s.records[c])
  }

  /** Which of its two event sources a drain is waiting for, phase by phase. */
  predicate PhaseTable(s: State) {
    match s.shutdown
    case NoShutdown => !s.loopPending && !s.timerPending
    case NotifyPending => s.loopPending
    case NotifyComplete => !s.loopPending && s.timerPending
    case ClosingIdle => s.loopPending && !s.timerPending
    case CloseComplete => !s.loopPending && !s.timerPending
  }

  ghost predicate PhaseInv(s: State) {
    && s.notifyEnabled && AllGraceful(s) && PhaseTable(s)
    && (Rank(s.shutdown) < Rank(ClosingIdle) ==> s.deferred == multiset{})
  }

  /** A run with full drains and positive grace only: no partial drain, no `dropConnections`. */
  ghost predicate GracefulEvent(e: Event) {
    match e
    case Add(_, r) => Graceful(r)
    case Shutdown(grace, _) => grace > 0
    case DropSome(_) => false
    case _ => true
  }

  ghost predicate GracefulRun(states: seq<State>, es: seq<Event>) {
    && IsRun(states, es) && states[0] == Initial
    && (forall i :: 0 <= i < |es| ==> GracefulEvent(es[i]))
  }

  lemma VisitOneGraceful(s: State, c: Conn, leaving: set<Conn>)
    requires c in s.records && s.notifyEnabled && AllGraceful(s)
    ensures AllGraceful(VisitOne(s, c, leaving))
  {
    assert VisitOne(s, c, leaving).records == s.records[c := Offered(s, c)];
  }

  lemma {:induction false} VisitGraceful(s: State, it: Option<Conn>, budget: nat, leaving: set<Conn>)
    requires WellFormed(s) && ValidCursor(s.conns, it) && s.notifyEnabled && AllGraceful(s)
    ensures AllGraceful(Visit(s, it, budget, leaving).0)
    decreases budget
  {
    if it.Some? && budget > 0 {
      var c := it.value;
      SignalledCursor(s, c, Offered(s, c), c in leaving);
      VisitOneGraceful(s, c, leaving);
      VisitGraceful(VisitOne(s, c, leaving), Next(s.conns, c), budget - 1, leaving);
    }
  }

  /** A batch started in a notify or close phase leaves the protocol in order. */
  lemma DrainPhase(s: State, leaving: set<Conn>)
    requires WellFormed(s) && s.notifyEnabled && !s.loopPending && AllGraceful(s)
    requires || (s.shutdown == NotifyPending && s.deferred == multiset{})
             || (s.shutdown == ClosingIdle && !s.timerPending)
    ensures PhaseInv(DrainConnections(s, leaving))
    ensures DrainConnections(s, leaving).timerPending == s.timerPending
    ensures Rank(s.shutdown) <= Rank(DrainConnections(s, leaving).shutdown)
    ensures s.shutdown == NotifyPending ==>
              (DrainConnections(s, leaving).shutdown == ClosingIdle ==> !s.timerPending)
              && DrainConnections(s, leaving).shutdown != CloseComplete
  {
    VisitWellFormed(s, s.drainIt, BATCH, leaving);
    VisitGraceful(s, s.drainIt, BATCH, leaving);
  }

  /** A step keeps the protocol and moves forward, and the close pass starts when the second
      of its two triggers arrives. */
  ghost predicate InPhase(s: State, e: Event, s': State) {
    && PhaseInv(s') && Rank(s.shutdown) <= Rank(s'.shutdown)
    && (Rank(s.shutdown) < Rank(ClosingIdle) <= Rank(s'.shutdown) && !e.DropAll? ==>
          || (s.shutdown == NotifyComplete && e.GraceTimer?)
          || (s.shutdown == NotifyPending && e.LoopCallback? && !s.timerPending))
  }

  lemma ShutdownPhase(s: State, grace: int, leaving: set<Conn>)
    requires WellFormed(s) && PhaseInv(s) && grace > 0
    ensures InPhase(s, Shutdown(grace, leaving), InitiateGracefulShutdown(s, grace, leaving))
  {
    if s.shutdown == NoShutdown {
      DrainPhase(s.(shutdown := NotifyPending, timerPending := true, drainIt := Begin(s)), leaving);
    }
  }

  lemma LoopPhase(s: State, leaving: set<Conn>)
    requires WellFormed(s) && PhaseInv(s) && s.loopPending
    ensures InPhase(s, LoopCallback(leaving), RunLoopCallback(s, leaving))
  {
    DrainPhase(s.(loopPending := false), leaving);
  }

  lemma TimerPhase(s: State, leaving: set<Conn>)
    requires WellFormed(s) && PhaseInv(s) && s.timerPending
    ensures InPhase(s, GraceTimer(leaving), TimeoutExpired(s, leaving))
  {
    if s.shutdown == NotifyComplete {
      DrainPhase(s.(timerPending := false, shutdown := ClosingIdle, drainIt := Begin(s)), leaving);
    }
  }

  lemma PhaseStep(s: State, e: Event)
    requires WellFormed(s) && PhaseInv(s) && Enabled(s, e) && GracefulEvent(e)
    ensures InPhase(s, e, Step(s, e))
  {
    match e
    case Add(c, r) => AddPhase(s, c, r);
    case Activate(c) => assert Step(s, e).records == s.records[c := s.records[c].(idleSince := None)];
    case Deactivate(c, now) => assert Step(s, e).records == s.records[c := s.records[c].(idleSince := Some(now))];
    case Shutdown(grace, leaving) => ShutdownPhase(s, grace, leaving);
    case LoopCallback(leaving) => LoopPhase(s, leaving);
    case GraceTimer(leaving) => TimerPhase(s, leaving);
    case DeferredClose(c, leaves) => DeferredPhase(s, c, leaves);
    case Shedding(num, threshold, now) => ShedKeeps(s, num, threshold, now);
    case _ =>
  }

  lemma AddPhase(s: State, c: Conn, r: Record)
    requires WellFormed(s) && PhaseInv(s) && Graceful(r)
    ensures PhaseInv(AddConnection(s, c, r)) && AddConnection(s, c, r).shutdown == s.shutdown
  {
    LinkWellFormed(s, c, r);
    LinkGraceful(s, c, r);
    TellGraceful(Link(s, c, r), c);
  }

  lemma LinkGraceful(s: State, c: Conn, r: Record)
    requires AllGraceful(s) && Graceful(r)
    ensures AllGraceful(Link(s, c, r))
  {}

  lemma TellGraceful(s: State, c: Conn)
    requires AllGraceful(s) && c in s.records
    ensures AllGraceful(Tell(s, c))
  {}

  lemma DeferredPhase(s: State, c: Conn, leaves: bool)
    requires WellFormed(s) && PhaseInv(s) && c in s.deferred
    ensures PhaseInv(RunDeferred(s, c, leaves)) && RunDeferred(s, c, leaves).shutdown == s.shutdown
  {
    if c in s.conns {
      var r := FireCloseWhenIdle(s.records[c], !s.notifyEnabled);
      assert RunDeferred(s, c, leaves).records == s.records[c := r];
    }
  }

  lemma {:induction false} PhaseInEveryRun(states: seq<State>, es: seq<Event>, i: nat)
    requires GracefulRun(states, es) && i < |states|
    ensures PhaseInv(states[i])
  {
    if i > 0 {
      PhaseInEveryRun(states, es, i - 1);
      PhaseStep(states[i - 1], es[i - 1]);
    }
  }

  /** The shutdown state only moves forward. */
  lemma {:induction false} ShutdownMovesForward(states: seq<State>, es: seq<Event>, i: nat, j: nat)
    requires GracefulRun(states, es) && i <= j < |states|
    ensures Rank(states[i].shutdown) <= Rank(states[j].shutdown)
    decreases j
  {
    if i < j {
      ShutdownMovesForward(states, es, i, j - 1);
      PhaseInEveryRun(states, es, j - 1);
      PhaseStep(states[j - 1], es[j - 1]);
    }
  }

  // ---------------------------------------------------------------- the table in any run

  lemma DrainTable(s: State, leaving: set<Conn>)
    requires WellFormed(s) && !s.loopPending
    requires s.shutdown == NotifyPending || (s.shutdown == ClosingIdle && !s.timerPending)
    ensures PhaseTable(DrainConnections(s, leaving))
  {
    VisitWellFormed(s, s.drainIt, BATCH, leaving);
  }

  lemma ShutdownTable(s: State, grace: int, leaving: set<Conn>)
    requires WellFormed(s) && PhaseTable(s)
    ensures PhaseTable(InitiateGracefulShutdown(s, grace, leaving))
  {
    if s.shutdown == NoShutdown { DrainTable(Starting(s, Begin(s), grace), leaving); }
  }

  lemma TimerTable(s: State, leaving: set<Conn>)
    requires WellFormed(s) && PhaseTable(s)
    ensures PhaseTable(TimeoutExpired(s, leaving))
  {
    if s.shutdown == NotifyComplete {
      DrainTable(s.(timerPending := false, shutdown := ClosingIdle, drainIt := Begin(s)), leaving);
    }
  }

  /** With grace or without, every step but `dropConnections` keeps the table. */
  lemma TableStep(s: State, e: Event)
    requires WellFormed(s) && PhaseTable(s) && Enabled(s, e) && !e.DropSome?
    ensures PhaseTable(Step(s, e))
  {
    match e
    case Shutdown(grace, leaving) => ShutdownTable(s, grace, leaving);
    case LoopCallback(leaving) => DrainTable(s.(loopPending := false), leaving);
    case GraceTimer(leaving) => TimerTable(s, leaving);
    case Shedding(num, threshold, now) => ShedKeeps(s, num, threshold, now);
    case _ =>
  }

  lemma {:induction false} TableInEveryRun(states: seq<State>, es: seq<Event>, i: nat)
    requires IsRun(states, es) && states[0] == Initial && i < |states|
    requires forall k :: 0 <= k < i ==> !es[k].DropSome?
    ensures PhaseTable(states[i])
  {
    if i > 0 {
      TableInEveryRun(states, es, i - 1);
      TableStep(states[i - 1], es[i - 1]);
    }
  }

  /** The CHECK at the head of every loop callback holds in every run without
      `dropConnections`. */
  lemma LoopCallbackFindsAPass(states: seq<State>, es: seq<Event>, i: nat)
    requires IsRun(states, es) && states[0] == Initial && i < |states| && states[i].loopPending
    requires forall k :: 0 <= k < i ==> !es[k].DropSome?
    ensures states[i].shutdown == NotifyPending || states[i].shutdown == ClosingIdle
  {
    TableInEveryRun(states, es, i);
  }

  ghost predicate GraceTimerFired(es: seq<Event>, i: nat)
    requires i <= |es|
  {
    exists j :: 0 <= j < i && es[j].GraceTimer?
  }

  /** While a drain is notifying, the timer is either still scheduled or has fired. */
  lemma {:induction false} NotifyingTimer(states: seq<State>, es: seq<Event>, i: nat)
    requires GracefulRun(states, es) && i < |states|
    ensures states[i].shutdown == NotifyPending && !states[i].timerPending ==> GraceTimerFired(es, i)
  {
    if i > 0 {
      NotifyingTimer(states, es, i - 1);
      var s, e := states[i - 1], es[i - 1];
      PhaseInEveryRun(states, es, i - 1);
      PhaseStep(s, e);
      if states[i].shutdown == NotifyPending && !states[i].timerPending {
        NotifyingStep(s, e);
        if e.GraceTimer? {
          assert es[i - 1].GraceTimer?;
        } else {
          var j :| 0 <= j < i - 1 && es[j].GraceTimer?;
        }
      }
    }
  }

  lemma NotifyingStep(s: State, e: Event)
    requires WellFormed(s) && PhaseInv(s) && Enabled(s, e) && GracefulEvent(e)
    requires Step(s, e).shutdown == NotifyPending && !Step(s, e).timerPending
    ensures e.GraceTimer? || (s.shutdown == NotifyPending && !s.timerPending)
  {
    match e
    case Shutdown(grace, leaving) => DrainTimer(Starting(s, Begin(s), grace), leaving);
    case LoopCallback(leaving) =>
      DrainTimer(s.(loopPending := false), leaving);
      LoopPhase(s, leaving);
    case DeferredClose(c, leaves) => DeferredPhase(s, c, leaves);
    case Shedding(num, threshold, now) => ShedKeeps(s, num, threshold, now);
    case _ =>
  }

  lemma DrainTimer(s: State, leaving: set<Conn>)
    requires WellFormed(s)
    ensures DrainConnections(s, leaving).timerPending == s.timerPending
  {
    VisitWellFormed(s, s.drainIt, BATCH, leaving);
  }

  /** The close pass starts at most once, and only after both the notify pass has finished
      and the grace timer has fired, in whichever order those happened. */
  lemma ClosePassStart(states: seq<State>, es: seq<Event>, i: nat)
    requires GracefulRun(states, es) && i < |es|
    requires Rank(states[i].shutdown) < Rank(ClosingIdle) <= Rank(states[i + 1].shutdown)
    ensures forall j :: 0 <= j < |states| ==> (Rank(states[j].shutdown) >= Rank(ClosingIdle) <==> i < j)
    ensures !es[i].DropAll? ==> GraceTimerFired(es, i + 1)
    ensures !es[i].DropAll? ==>
              || (es[i].GraceTimer? && states[i].shutdown == NotifyComplete)
              || (es[i].LoopCallback? && states[i].shutdown == NotifyPending)
  {
    forall j | 0 <= j < |states|
      ensures Rank(states[j].shutdown) >= Rank(ClosingIdle) <==> i < j
    {
      if j <= i { ShutdownMovesForward(states, es, j, i); } else { ShutdownMovesForward(states, es, i + 1, j); }
    }
    PhaseInEveryRun(states, es, i);
    PhaseStep(states[i], es[i]);
    NotifyingTimer(states, es, i);
    if es[i].LoopCallback? {
      var j :| 0 <= j < i && es[j].GraceTimer?;
    }
  }
}
