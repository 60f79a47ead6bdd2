/** Draining a share of the connections, and converting such a drain into a full one. */
module PartialDrain {
  import opened CursorList
  import opened ConnectionManagers
  import opened DrainCoverage
  import opened DrainPasses
  import opened SkippedConnections

  /** Where a drain of `n` connections starts, or of all if there are fewer. */
  function StartOfLast(s: State, n: nat): Option<Conn> {
    At(s.conns, if n < |s.conns| then |s.conns| - n else 0)
  }

  /** startDrainPartial. */
  function DrainSome(s: State, n: nat, grace: int, leaving: set<Conn>): State {
    DrainConnections(Starting(s, StartOfLast(s, n), grace), leaving)
  }

  /** startDrainAll in the middle of a partial drain: its timer is cancelled, its loop callback
      is not. */
  function ConvertToFull(s: State, grace: int, leaving: set<Conn>): State {
    InitiateGracefulShutdown(s.(shutdown := NoShutdown, timerPending := false), grace, leaving)
  }

  /** A partial drain queues a loop callback exactly if it is to visit more than 64. */
  lemma PartialQueuesIff(s: State, n: nat, grace: int, leaving: set<Conn>)
    requires WellFormed(s) && !s.loopPending
    ensures var s' := DrainSome(s, n, grace, leaving);
            && WellFormed(s') && CallbackCheckHolds(s')
            && (s'.loopPending <==> n > BATCH && |s.conns| > BATCH)
  {
    PosOfAt(s.conns, if n < |s.conns| then |s.conns| - n else 0);
    FirstBatchQueuesIff(Starting(s, StartOfLast(s, n), grace), leaving);
  }

  /** Converting a partial drain into a full one leaves a loop callback whose CHECK holds exactly
      if none was queued or the full pass does not end with its first batch. */
  lemma ConversionKeepsCheckIff(s: State, grace: int, leaving: set<Conn>)
    requires WellFormed(s)
    ensures CallbackCheckHolds(ConvertToFull(s, grace, leaving)) <==> !s.loopPending || |s.conns| > BATCH
  {
    PosOfAt(s.conns, 0);
    FirstBatchQueuesIff(Starting(s.(shutdown := NoShutdown, timerPending := false), Begin(s), grace), leaving);
  }

  /** Such a conversion: 65 connections are to be drained, one of them goes before the second
      batch, and the rest fit into one batch of the full drain. */
  lemma ConversionCanFail(s: State, leaving: set<Conn>)
    requires WellFormed(s) && !s.loopPending && |s.conns| == BATCH + 1
    ensures var s1 := DrainSome(s, BATCH + 1, 1, {});
            s1.conns != [] && !CallbackCheckHolds(ConvertToFull(RemoveConnection(s1, s1.conns[0]), 1, leaving))
  {
    PartialQueuesIff(s, BATCH + 1, 1, {});
    QuietDrain(s, BATCH + 1);
    var s1 := DrainSome(s, BATCH + 1, 1, {});
    EraseMembers(s1.conns, s1.conns[0]);
    RemoveWellFormed(s1, s1.conns[0]);
    ConversionKeepsCheckIff(RemoveConnection(s1, s1.conns[0]), 1, leaving);
  }

  lemma QuietDrain(s: State, n: nat)
    requires WellFormed(s)
    ensures DrainSome(s, n, 1, {}).conns == s.conns
  {
    QuietFinish(Starting(s, StartOfLast(s, n), 1), BATCH);
  }

  lemma QuietFinish(s: State, budget: nat)
    requires WellFormed(s)
    ensures var (s', it) := Visit(s, s.drainIt, budget, {}); FinishBatch(s', it).conns == s.conns
  {
    QuietBatch(s, s.drainIt, budget);
  }

  lemma {:induction false} QuietBatch(s: State, it: Option<Conn>, budget: nat)
    requires WellFormed(s) && ValidCursor(s.conns, it)
    ensures Visit(s, it, budget, {}).0.conns == s.conns
    decreases budget
  {
    if budget > 0 && it.Some? {
      NextPos(s.conns, it.value);
      QuietBatch(VisitOne(s, it.value, {}), Next(s.conns, it.value), budget - 1);
    }
  }

  // ---------------------------------------------------------------- whom it concerns

  /** `c` is where it was, and as it was. */
  predicate Spared(s: State, s': State, c: Conn) {
    c in s'.conns && c in s.records && c in s'.records && s'.records[c] == s.records[c]
  }

  /** What a pass has gone past it leaves alone. */
  lemma {:induction false} VisitSparesPassed(s: State, it: Option<Conn>, budget: nat, leaving: set<Conn>, c: Conn)
    requires WellFormed(s) && ValidCursor(s.conns, it) && c in s.conns && Passed(s, it, c)
    ensures Spared(s, Visit(s, it, budget, leaving).0, c)
    decreases budget
  {
    if it.Some? && budget > 0 {
      VisitOneVisited(s, it.value, leaving);
      VisitOnePast(s, it.value, leaving, c);
      VisitOneSpares(s, it.value, leaving, c);
      VisitSparesPassed(VisitOne(s, it.value, leaving), Next(s.conns, it.value), budget - 1, leaving, c);
    }
  }

  /** `c` has been told about the shutdown; to close, if that is all there is time for. */
  predicate Told(s: State, c: Conn, close: bool) {
    c in s.records && (s.records[c].drain.SentCloseWhenIdle? ||
                       (s.records[c].drain.SentNotifyPendingShutdown? && !close))
  }

  predicate Tells(s: State, close: bool) {
    if close then s.shutdown == ClosingIdle && !s.notifyEnabled else s.shutdown == NotifyPending
  }

  lemma VisitOneTold(s: State, d: Conn, leaving: set<Conn>, c: Conn, close: bool)
    requires WellFormed(s) && d in s.conns && Tells(s, close) && (Told(s, c, close) || c == d)
    ensures Told(VisitOne(s, d, leaving), c, close)
  {
    assert VisitOne(s, d, leaving).records == s.records[d := Offered(s, d)];
  }

  /** What it has yet to come to it tells, if its budget lasts. */
  lemma {:induction false} VisitReachesRest(
      s: State, it: Option<Conn>, budget: nat, leaving: set<Conn>, c: Conn, close: bool)
    requires WellFormed(s) && ValidCursor(s.conns, it) && Tells(s, close)
    requires Told(s, c, close) || (c in s.conns && !Passed(s, it, c) && Remaining(s, it) <= budget)
    ensures Told(Visit(s, it, budget, leaving).0, c, close)
    decreases budget
  {
    NothingRemains(s, it);
    if it.Some? && budget > 0 {
      var d := it.value;
      VisitOneVisited(s, d, leaving);
      if Told(s, c, close) || c == d {
        VisitOneTold(s, d, leaving, c, close);
      } else {
        VisitOneSpares(s, d, leaving, c);
        VisitPassed(s, d, leaving, c);
      }
      var s1, it1 := VisitOne(s, d, leaving), Next(s.conns, d);
      if !Told(s1, c, close) { StillAhead(s, d, leaving, c); }
      VisitReachesRest(s1, it1, budget - 1, leaving, c, close);
    }
  }

  lemma StillAhead(s: State, d: Conn, leaving: set<Conn>, c: Conn)
    requires WellFormed(s) && d in s.conns && c in s.conns && c != d && !Passed(s, Some(d), c)
    ensures var s1, it1 := VisitOne(s, d, leaving), Next(s.conns, d); c in s1.conns && !Passed(s1, it1, c)
  {
    EraseMembers(s.conns, d);
    VisitPassed(s, d, leaving, c);
  }

  lemma BatchSpares(s: State, budget: nat, leaving: set<Conn>, c: Conn)
    requires WellFormed(s) && c in s.conns && Passed(s, s.drainIt, c)
    ensures var (s1, it) := Visit(s, s.drainIt, budget, leaving); Spared(s, FinishBatch(s1, it), c)
  {
    VisitSparesPassed(s, s.drainIt, budget, leaving, c);
  }

  lemma BatchTells(s: State, budget: nat, leaving: set<Conn>, c: Conn, close: bool)
    requires WellFormed(s) && Tells(s, close) && c in s.conns && !Passed(s, s.drainIt, c)
    requires Remaining(s, s.drainIt) <= budget
    ensures var (s1, it) := Visit(s, s.drainIt, budget, leaving); Told(FinishBatch(s1, it), c, close)
  {
    VisitReachesRest(s, s.drainIt, budget, leaving, c, close);
  }

  /** A partial drain of `n` connections concerns the last `n` of the list: the others are left
      alone, and if one batch is enough for those they are all told. */
  lemma PartialConcernsLast(s: State, n: nat, grace: int, leaving: set<Conn>, c: Conn)
    requires WellFormed(s) && c in s.conns
    ensures var s' := DrainSome(s, n, grace, leaving);
            && (Index(s.conns, c) < |s.conns| - n ==> Spared(s, s', c))
            && (Index(s.conns, c) >= |s.conns| - n && n <= 64 ==> Told(s', c, grace <= 0))
  {
    PosOfAt(s.conns, if n < |s.conns| then |s.conns| - n else 0);
    var s1 := Starting(s, StartOfLast(s, n), grace);
    if Passed(s1, s1.drainIt, c) {
      BatchSpares(s1, BATCH, leaving, c);
    } else if n <= 64 {
      BatchTells(s1, BATCH, leaving, c, grace <= 0);
    }
  }
}
