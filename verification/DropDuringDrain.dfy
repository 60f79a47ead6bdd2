/** Dropping a share of the connections while a drain is under way. */
module DropDuringDrain {
  import opened CursorList
  import opened ConnectionManagers
  import opened IdleShedding
  import opened ManagerRuns
  import opened GracefulDrain
  import opened DrainPasses

  /** The process is still there: no loop callback so far has failed its CHECK. */
  ghost predicate ChecksHeld(states: seq<State>, es: seq<Event>, i: nat)
    requires i <= |es| < |states|
  {
    forall k :: 0 <= k < i && es[k].LoopCallback? ==> InPass(states[k])
  }

  /** The state since which the loop callback pending at `i` has been queued. */
  function QueuedSince(states: seq<State>, es: seq<Event>, i: nat): (q: nat)
    requires i <= |es| < |states|
    ensures q <= i
  {
    if i == 0 || es[i - 1].LoopCallback? || !states[i - 1].loopPending then i
    else QueuedSince(states, es, i - 1)
  }

  ghost predicate DroppedSince(es: seq<Event>, q: nat, i: nat)
    requires i <= |es|
  {
    exists k :: q <= k < i && es[k].DropSome?
  }

  /** After a drop the drain is marked complete, but a queued callback stays queued. */
  predicate Stopped(s: State) {
    s.shutdown == CloseComplete && !s.timerPending
  }

  lemma DropStops(s: State, n: nat)
    requires WellFormed(s)
    ensures Stopped(DropConnections(s, n)) && DropConnections(s, n).loopPending == s.loopPending
  {
    RemoveFrontKeeps(t => Stopped(t) && t.loopPending == s.loopPending, StopDraining(s), n);
  }

  lemma StoppedStep(s: State, e: Event)
    requires WellFormed(s) && Enabled(s, e) && Stopped(s) && !e.LoopCallback?
    ensures Stopped(Step(s, e)) && (Step(s, e).loopPending ==> s.loopPending)
  {
    match e
    case DropSome(n) => DropStops(s, n);
    case Shedding(num, threshold, now) => ShedKeeps(s, num, threshold, now);
    case _ =>
  }

  /** Either the drain's protocol is intact, or a drop has stopped it; and what that means for
      a pending callback. */
  ghost predicate Tracked(states: seq<State>, es: seq<Event>, i: nat)
    requires i <= |es| < |states|
  {
    var s, dropped := states[i], DroppedSince(es, QueuedSince(states, es, i), i);
    (PhaseTable(s) && (s.loopPending ==> !dropped)) || (Stopped(s) && (s.loopPending ==> dropped))
  }

  lemma QueuedNext(states: seq<State>, es: seq<Event>, i: nat)
    requires i < |es| < |states|
    ensures var q, q' := QueuedSince(states, es, i), QueuedSince(states, es, i + 1);
            if es[i].LoopCallback? || !states[i].loopPending then !DroppedSince(es, q', i + 1)
            else DroppedSince(es, q', i + 1) <==> DroppedSince(es, q, i) || es[i].DropSome?
  {
    var q := QueuedSince(states, es, i);
    if !es[i].LoopCallback? && states[i].loopPending && es[i].DropSome? { assert q <= i < i + 1; }
  }

  lemma TrackedStep(states: seq<State>, es: seq<Event>, i: nat)
    requires IsRun(states, es) && states[0] == Initial && i < |es| && Tracked(states, es, i)
    requires es[i].LoopCallback? ==> InPass(states[i])
    ensures Tracked(states, es, i + 1)
  {
    var s, e := states[i], es[i];
    QueuedNext(states, es, i);
    if e.DropSome? {
      DropStops(s, e.n);
    } else if PhaseTable(s) && (s.loopPending ==> !DroppedSince(es, QueuedSince(states, es, i), i)) {
      TableStep(s, e);
    } else {
      StoppedStep(s, e);
    }
  }

  lemma {:induction false} TrackedInEveryRun(states: seq<State>, es: seq<Event>, i: nat)
    requires IsRun(states, es) && states[0] == Initial && i < |states| && ChecksHeld(states, es, i)
    ensures Tracked(states, es, i)
  {
    if i > 0 {
      TrackedInEveryRun(states, es, i - 1);
      TrackedStep(states, es, i - 1);
    }
  }

  /** A pending loop callback finds a pass, as its CHECK demands, exactly if no connections were
      dropped by share since it was queued. */
  lemma LoopCallbackFindsAPassIff(states: seq<State>, es: seq<Event>, i: nat)
    requires IsRun(states, es) && states[0] == Initial && i < |states| && ChecksHeld(states, es, i)
    requires states[i].loopPending
    ensures InPass(states[i]) <==> !DroppedSince(es, QueuedSince(states, es, i), i)
  {
    TrackedInEveryRun(states, es, i);
  }

  /** A shutdown queues a loop callback exactly with more than 64 connections; dropping any
      number of them, even none, then makes its CHECK fail. */
  lemma DropAfterShutdown(s: State, grace: int, leaving: set<Conn>, n: nat)
    requires WellFormed(s) && s.shutdown == NoShutdown && !s.loopPending
    ensures var s' := InitiateGracefulShutdown(s, grace, leaving);
            && (s'.loopPending <==> |s.conns| > BATCH)
            && (s'.loopPending ==> DropConnections(s', n).loopPending && !InPass(DropConnections(s', n)))
  {
    PosOfAt(s.conns, 0);
    FirstBatchQueuesIff(Starting(s, Begin(s), grace), leaving);
    DropStops(InitiateGracefulShutdown(s, grace, leaving), n);
  }
}
