/** The list is a busy part followed by an idle part in order of decreasing idle time. */
module IdlePartition {
  import opened CursorList
  import opened ManagedConnections
  import opened ConnectionManagers

  ghost predicate IsIdle(s: State, c: Conn) {
    c in s.records && s.records[c].idleSince.Some?
  }

  /** The busy connections are exactly those before `idleIt`. */
  ghost predicate Split(s: State) {
    forall i :: 0 <= i < |s.conns| ==> (IsIdle(s, s.conns[i]) <==> Pos(s.conns, s.idleIt) <= i)
  }

  /** `a` became idle no later than `b`, so its idle time is at least as long. */
  ghost predicate IdleLonger(s: State, a: Conn, b: Conn) {
    IsIdle(s, a) && IsIdle(s, b) ==> s.records[a].idleSince.value <= s.records[b].idleSince.value
  }

  ghost predicate Sorted(s: State) {
    forall i, j :: 0 <= i < j < |s.conns| ==> IdleLonger(s, s.conns[i], s.conns[j])
  }

  ghost predicate Partitioned(s: State) {
    WellFormed(s) && Split(s) && Sorted(s)
  }

  /** Nothing in the list became idle after `now`. */
  ghost predicate ClockAt(s: State, now: int) {
    forall c :: c in s.conns && IsIdle(s, c) ==> s.records[c].idleSince.value <= now
  }

  lemma LinkSplit(s: State, c: Conn, r: Record)
    requires Partitioned(s) && c !in s.conns
    ensures Split(Link(s, c, r))
  {
    var s' := Link(s, c, r);
    PushFrontPos(s.conns, s.idleIt, c);
    forall i | 0 <= i < |s'.conns| ensures IsIdle(s', s'.conns[i]) <==> Pos(s'.conns, s'.idleIt) <= i {
      if i > 0 { assert s'.conns[i] == s.conns[i - 1] && s.conns[i - 1] in s.conns; }
    }
  }

  lemma LinkSorted(s: State, c: Conn, r: Record)
    requires Partitioned(s) && c !in s.conns
    ensures Sorted(Link(s, c, r))
  {
    var s' := Link(s, c, r);
    forall i, j | 0 <= i < j < |s'.conns| ensures IdleLonger(s', s'.conns[i], s'.conns[j]) {
      if i > 0 {
        assert s.conns[i - 1] in s.conns && s.conns[j - 1] in s.conns;
        assert IdleLonger(s, s.conns[i - 1], s.conns[j - 1]);
      }
    }
  }

  lemma LinkPartitioned(s: State, c: Conn, r: Record)
    requires Partitioned(s)
    ensures Partitioned(Link(s, c, r))
  {
    LinkWellFormed(s, c, r);
    if c !in s.conns {
      LinkSplit(s, c, r);
      LinkSorted(s, c, r);
    }
  }

  /** A step that leaves the list, the idle cursor and every idle time alone. */
  ghost predicate SameIdleness(s: State, s': State) {
    && s'.conns == s.conns && s'.idleIt == s.idleIt
    && (forall c :: c in s.conns ==> (IsIdle(s, c) <==> IsIdle(s', c)))
    && (forall c :: c in s.conns && IsIdle(s, c) ==> s'.records[c].idleSince == s.records[c].idleSince)
  }

  lemma SameIdlenessPartitioned(s: State, s': State)
    requires Partitioned(s) && WellFormed(s') && SameIdleness(s, s')
    ensures Partitioned(s')
  {
    assert forall i, j :: 0 <= i < j < |s.conns| ==> IdleLonger(s, s.conns[i], s.conns[j]);
  }

  /** Offering `c` a signal changes neither the list nor its idle time. */
  lemma SetRecordPartitioned(s: State, c: Conn, r: Record)
    requires Partitioned(s) && c in s.records && r.idleSince == s.records[c].idleSince
    ensures Partitioned(SetRecord(s, c, r))
  {
    SameIdlenessPartitioned(s, SetRecord(s, c, r));
  }

  lemma AddPartitioned(s: State, c: Conn, r: Record)
    requires Partitioned(s)
    ensures Partitioned(AddConnection(s, c, r))
  {
    LinkPartitioned(s, c, r);
    LinkWellFormed(s, c, r);
    var l := Link(s, c, r);
    SetRecordPartitioned(l, c, FireNotifyPendingShutdown(l.records[c]));
    DeferPartitioned(Tell(l, c), c);
  }

  lemma DeferPartitioned(s: State, c: Conn)
    requires Partitioned(s)
    ensures Partitioned(Defer(s, c))
  {
    SameIdlenessPartitioned(s, Defer(s, c));
  }

  /** The place in the old list of a member of the list without `c`. */
  lemma EraseAt<T>(l: seq<T>, c: T, i: nat)
    requires Distinct(l) && c in l && i < |Erase(l, c)|
    ensures Erase(l, c)[i] == if i < Index(l, c) then l[i] else l[i + 1]
  {}

  lemma RemoveSplit(s: State, c: Conn)
    requires Partitioned(s) && c in s.conns
    ensures Split(RemoveConnection(s, c))
  {
    var s' := RemoveConnection(s, c);
    EraseMembers(s.conns, c);
    ErasePos(s.conns, s.idleIt, c);
    forall i | 0 <= i < |s'.conns| ensures IsIdle(s', s'.conns[i]) <==> Pos(s'.conns, s'.idleIt) <= i {
      EraseAt(s.conns, c, i);
    }
  }

  lemma RemoveSorted(s: State, c: Conn)
    requires Partitioned(s) && c in s.conns
    ensures Sorted(RemoveConnection(s, c))
  {
    var s' := RemoveConnection(s, c);
    EraseMembers(s.conns, c);
    forall i, j | 0 <= i < j < |s'.conns| ensures IdleLonger(s', s'.conns[i], s'.conns[j]) {
      EraseAt(s.conns, c, i);
      EraseAt(s.conns, c, j);
      assert IdleLonger(s, s'.conns[i], s'.conns[j]);
    }
  }

  lemma RemovePartitioned(s: State, c: Conn)
    requires Partitioned(s)
    ensures Partitioned(RemoveConnection(s, c))
  {
    RemoveWellFormed(s, c);
    if c in s.conns {
      RemoveSplit(s, c);
      RemoveSorted(s, c);
    }
  }

  lemma ActivatePartitioned(s: State, c: Conn)
    requires Partitioned(s) && c in s.conns
    ensures Partitioned(OnActivated(s, c))
  {
    RemovePartitioned(s, c);
    EraseMembers(s.conns, c);
    ActivateWellFormed(s, c);
    LinkPartitioned(RemoveConnection(s, c), c, s.records[c]);
    var l := Link(RemoveConnection(s, c), c, s.records[c]);
    assert OnActivated(s, c) == l.(drainIt := s.drainIt);
    SameIdlenessPartitioned(l, OnActivated(s, c));
  }

  /** Parking a connection keeps the partition exactly when it is not the first of
      several idle ones: in that case the idle cursor would travel with it to the back. */
  lemma DeactivatePartitionedIff(s: State, c: Conn, now: int)
    requires Partitioned(s) && c in s.conns && ClockAt(s, now)
    ensures Partitioned(OnDeactivated(s, c, now)) <==>
            !(s.idleIt == Some(c) && Index(s.conns, c) + 1 < |s.conns|)
  {
    DeactivateWellFormed(s, c, now);
    DeactivateSorted(s, c, now);
    if s.idleIt != Some(c) { DeactivateSplit(s, c, now); } else { DeactivateFirstIdle(s, c, now); }
  }

  /** The shortest such list: two idle connections, of which the first is parked again. */
  lemma ParkFirstOfTwo(a: Conn, b: Conn, r: Record)
    requires a != b
    ensures var records := map[a := r.(idleSince := Some(0)), b := r.(idleSince := Some(1))];
            var s := Initial.(conns := [a, b], idleIt := Some(a), records := records);
            Partitioned(s) && ClockAt(s, 2) && !Partitioned(OnDeactivated(s, a, 2))
  {
    var records := map[a := r.(idleSince := Some(0)), b := r.(idleSince := Some(1))];
    var s := Initial.(conns := [a, b], idleIt := Some(a), records := records);
    IndexOfElement(s.conns, 0);
    assert s.conns[0] == a && s.conns[1] == b && Distinct(s.conns);
    assert Partitioned(s);
    DeactivatePartitionedIff(s, a, 2);
  }

  lemma ParkedAtBack(s: State, c: Conn, now: int)
    requires WellFormed(s) && c in s.conns && s.idleIt == Some(c)
    ensures var s' := OnDeactivated(s, c, now);
            |s'.conns| == |s.conns| && Pos(s'.conns, s'.idleIt) == |s.conns| - 1
  {
    EraseMembers(s.conns, c);
    DeactivateWellFormed(s, c, now);
    PosOfAt(OnDeactivated(s, c, now).conns, |s.conns| - 1);
  }

  lemma DeactivateFirstIdle(s: State, c: Conn, now: int)
    requires Partitioned(s) && s.idleIt == Some(c)
    ensures Split(OnDeactivated(s, c, now)) <==> Index(s.conns, c) + 1 == |s.conns|
  {
    ParkedAtBack(s, c, now);
    if Index(s.conns, c) + 1 < |s.conns| {
      IdleLeftBehind(s, c, now);
    } else {
      var s' := OnDeactivated(s, c, now);
      assert s'.conns == s.conns;
      forall i | 0 <= i < |s.conns| ensures IsIdle(s, s.conns[i]) <==> IsIdle(s', s.conns[i]) {}
    }
  }

  /** The last connection stays idle, in front of the one that was parked behind it. */
  lemma IdleLeftBehind(s: State, c: Conn, now: int)
    requires Partitioned(s) && s.idleIt == Some(c) && Index(s.conns, c) + 1 < |s.conns|
    ensures var s', n := OnDeactivated(s, c, now), |s.conns|;
            n - 2 < |s'.conns| && IsIdle(s', s'.conns[n - 2])
  {
    var n := |s.conns|;
    EraseMembers(s.conns, c);
    EraseAt(s.conns, c, n - 2);
    assert IsIdle(s, s.conns[n - 1]) && s.conns[n - 1] != c;
  }

  lemma DeactivatePos(s: State, c: Conn, now: int)
    requires WellFormed(s) && c in s.conns && s.idleIt != Some(c)
    ensures var s', k, p := OnDeactivated(s, c, now), Index(s.conns, c), Pos(s.conns, s.idleIt);
            |s'.conns| == |s.conns| && Pos(s'.conns, s'.idleIt) == if k < p then p - 1 else p
  {
    EraseMembers(s.conns, c);
    ErasePos(s.conns, s.idleIt, c);
    PushBackPos(Erase(s.conns, c), s.idleIt, c);
    DeactivateWellFormed(s, c, now);
    if s.idleIt.None? { PosOfAt(OnDeactivated(s, c, now).conns, |s.conns| - 1); }
  }

  lemma DeactivateSplit(s: State, c: Conn, now: int)
    requires Partitioned(s) && c in s.conns && s.idleIt != Some(c)
    ensures Split(OnDeactivated(s, c, now))
  {
    DeactivatePos(s, c, now);
    EraseMembers(s.conns, c);
    var s', n := OnDeactivated(s, c, now), |s.conns|;
    forall i | 0 <= i < n
      ensures IsIdle(s', s'.conns[i]) <==> Pos(s'.conns, s'.idleIt) <= i
    {
      if i < n - 1 { EraseAt(s.conns, c, i); }
    }
  }

  lemma DeactivateSorted(s: State, c: Conn, now: int)
    requires Partitioned(s) && c in s.conns && ClockAt(s, now)
    ensures Sorted(OnDeactivated(s, c, now))
  {
    EraseMembers(s.conns, c);
    var s', k, n := OnDeactivated(s, c, now), Index(s.conns, c), |s.conns|;
    forall i, j | 0 <= i < j < n
      ensures IdleLonger(s', s'.conns[i], s'.conns[j])
    {
      EraseAt(s.conns, c, i);
      assert s'.conns[i] in s.conns && s'.conns[i] != c;
      if j < n - 1 {
        EraseAt(s.conns, c, j);
        assert IdleLonger(s, s'.conns[i], s'.conns[j]);
      }
    }
  }

  lemma SignalledPartitioned(s: State, c: Conn, r: Record, leaves: bool)
    requires Partitioned(s) && c in s.conns && r.idleSince == s.records[c].idleSince
    ensures Partitioned(Signalled(s, c, r, leaves))
  {
    SetRecordPartitioned(s, c, r);
    RemovePartitioned(SetRecord(s, c, r), c);
  }

  lemma VisitOnePartitioned(s: State, c: Conn, leaving: set<Conn>)
    requires Partitioned(s) && c in s.conns
    ensures Partitioned(VisitOne(s, c, leaving))
    ensures ValidCursor(VisitOne(s, c, leaving).conns, Next(s.conns, c))
  {
    SignalledCursor(s, c, Offered(s, c), c in leaving);
    SignalledPartitioned(s, c, Offered(s, c), c in leaving);
  }

  lemma {:induction false} VisitPartitioned(s: State, it: Option<Conn>, budget: nat, leaving: set<Conn>)
    requires Partitioned(s) && ValidCursor(s.conns, it)
    ensures Partitioned(Visit(s, it, budget, leaving).0)
    decreases budget
  {
    if it.Some? && budget > 0 {
      var c := it.value;
      VisitOnePartitioned(s, c, leaving);
      VisitPartitioned(VisitOne(s, c, leaving), Next(s.conns, c), budget - 1, leaving);
    }
  }

  lemma DrainPartitioned(s: State, leaving: set<Conn>)
    requires Partitioned(s)
    ensures Partitioned(DrainConnections(s, leaving))
  {
    VisitWellFormed(s, s.drainIt, BATCH, leaving);
    VisitPartitioned(s, s.drainIt, BATCH, leaving);
    DrainWellFormed(s, leaving);
    SameIdlenessPartitioned(Visit(s, s.drainIt, BATCH, leaving).0, DrainConnections(s, leaving));
  }
}
