/** How long the passes of a drain take. */
module DrainPasses {
  import opened CursorList
  import opened ConnectionManagers
  import opened ManagerRuns

  /** The number of batches of 64 a pass over `n` connections takes. */
  function Batches(n: nat): nat {
    if n == 0 then 1 else (n + 63) / 64
  }

  lemma BatchesAt(n: nat, i: nat)
    ensures i < Batches(n) <==> i == 0 || BATCH * i < n
  {}

  predicate InPass(s: State) {
    s.shutdown == NotifyPending || s.shutdown == ClosingIdle
  }

  lemma FinishShutdown(s: State, it: Option<Conn>)
    requires InPass(s)
    ensures var s' := FinishBatch(s, it);
            if it.None? then s'.shutdown != s.shutdown
            else s'.shutdown == s.shutdown && s'.conns == s.conns && s'.drainIt == it && s'.loopPending
  {}

  lemma BatchStep(s: State, leaving: set<Conn>)
    requires WellFormed(s) && InPass(s)
    ensures var s', n := DrainConnections(s, leaving), Remaining(s, s.drainIt);
            if n <= BATCH then s'.shutdown != s.shutdown
            else s'.shutdown == s.shutdown && Remaining(s', s'.drainIt) == n - BATCH && s'.loopPending
  {
    VisitWellFormed(s, s.drainIt, BATCH, leaving);
    var (s1, it) := Visit(s, s.drainIt, BATCH, leaving);
    NothingRemains(s1, it);
    FinishShutdown(s1, it);
  }

  /** The CHECK of a loop callback that is pending. */
  ghost predicate CallbackCheckHolds(s: State) {
    s.loopPending ==> InPass(s)
  }

  /** A batch that starts a pass queues a loop callback exactly if it does not end it. */
  lemma FirstBatchQueuesIff(s: State, leaving: set<Conn>)
    requires WellFormed(s) && InPass(s) && (s.shutdown == NotifyPending ==> s.timerPending)
    ensures var s' := DrainConnections(s, leaving);
            && WellFormed(s')
            && (CallbackCheckHolds(s') <==> !s.loopPending || Remaining(s, s.drainIt) > BATCH)
            && (s'.loopPending <==> s.loopPending || Remaining(s, s.drainIt) > BATCH)
  {
    DrainWellFormed(s, leaving);
    VisitWellFormed(s, s.drainIt, BATCH, leaving);
    var (s1, it) := Visit(s, s.drainIt, BATCH, leaving);
    NothingRemains(s1, it);
  }

  /** The rest of a pass, by loop callbacks alone. */
  lemma {:induction false} RestOfPass(states: seq<State>, es: seq<Event>, i: nat)
    requires IsRun(states, es) && (forall e :: e in es ==> e.LoopCallback?) && InPass(states[0])
    requires i < |states| && i <= Batches(Remaining(states[0], states[0].drainIt))
    ensures states[i].shutdown == states[0].shutdown <==> i < Batches(Remaining(states[0], states[0].drainIt))
    ensures i < Batches(Remaining(states[0], states[0].drainIt)) ==>
              Remaining(states[i], states[i].drainIt) == Remaining(states[0], states[0].drainIt) - BATCH * i
  {
    if i > 0 {
      RestOfPass(states, es, i - 1);
      assert es[i - 1] in es;
      BatchStep(states[i - 1].(loopPending := false), es[i - 1].leaving);
      BatchesAt(Remaining(states[0], states[0].drainIt), i);
    }
  }

  /** A shutdown, or the grace timer after the notify pass, runs the first batch itself. */
  predicate StartsPass(s: State, e: Event) {
    (e.Shutdown? && s.shutdown == NoShutdown) || (e.GraceTimer? && s.shutdown == NotifyComplete)
  }

  function PassOf(e: Event): ShutdownState {
    if e.Shutdown? && e.grace > 0 then NotifyPending else ClosingIdle
  }

  /** The state in which the first batch runs. */
  function Started(s: State, e: Event): State {
    if e.Shutdown? then Starting(s, Begin(s), e.grace)
    else s.(timerPending := false, shutdown := ClosingIdle, drainIt := Begin(s))
  }

  lemma StepStarts(s: State, e: Event)
    requires WellFormed(s) && Enabled(s, e) && StartsPass(s, e)
    ensures Step(s, e) == DrainConnections(Started(s, e), e.leaving)
  {}

  lemma FirstBatch(s: State, e: Event)
    requires WellFormed(s) && Enabled(s, e) && StartsPass(s, e)
    ensures var s' := Step(s, e);
            if |s.conns| <= BATCH then s'.shutdown != PassOf(e)
            else s'.shutdown == PassOf(e) && Remaining(s', s'.drainIt) == |s.conns| - BATCH && s'.loopPending
  {
    PosOfAt(s.conns, 0);
    StepStarts(s, e);
    BatchStep(Started(s, e), e.leaving);
  }

  /** A pass over `n` connections that nothing disturbs takes exactly `Batches(n)` batches,
      the first in the event that starts it, even if connections leave when visited. */
  lemma PassLength(states: seq<State>, es: seq<Event>, i: nat)
    requires IsRun(states, es) && es != [] && StartsPass(states[0], es[0])
    requires forall e :: e in es[1..] ==> e.LoopCallback?
    requires 0 < i < |states| && i <= Batches(|states[0].conns|)
    ensures states[i].shutdown == PassOf(es[0]) <==> i < Batches(|states[0].conns|)
  {
    var n := |states[0].conns|;
    FirstBatch(states[0], es[0]);
    if n > BATCH {
      assert Batches(n) == Batches(n - BATCH) + 1;
      RestOfPass(states[1..], es[1..], i - 1);
    }
  }
}
