/** Which connections pre-emptive idle shedding drops. */
module IdleShedding {
  import opened CursorList
  import opened Repetition
  import opened ManagedConnections
  import opened ConnectionManagers
  import opened IdlePartition

  /** The connections shedding may drop: idle for longer than the threshold. */
  ghost function Sheddable(s: State, threshold: int, now: int): set<Conn> {
    set c | c in s.conns && IsIdle(s, c) && IdleTime(s.records[c], now) > threshold
  }

  /** That is, parked before `now` less the threshold. */
  lemma SheddableIff(s: State, threshold: int, now: int, c: Conn)
    ensures c in Sheddable(s, threshold, now) <==>
            c in s.conns && c in s.records && s.records[c].idleSince.Some?
            && s.records[c].idleSince.value < now - threshold
  {}

  /** Dropping the first idle connection, the idle cursor having been advanced off it. */
  function ShedOne(s: State): State
    requires s.idleIt.Some?
  {
    RemoveConnection(s.(idleIt := Next(s.conns, s.idleIt.value)), s.idleIt.value)
  }

  lemma ShedOnePartitioned(s: State)
    requires Partitioned(s) && s.idleIt.Some?
    ensures var s', p := ShedOne(s), Pos(s.conns, s.idleIt);
            && Partitioned(s') && Pos(s'.conns, s'.idleIt) == p
            && s'.conns == s.conns[..p] + s.conns[p + 1..] && s'.records == s.records
  {
    var c, p := s.idleIt.value, Pos(s.conns, s.idleIt);
    RemovePartitioned(s, c);
    ErasePos(s.conns, s.idleIt, c);
    PosOfAt(s.conns, p + 1);
    assert ShedOne(s) == RemoveConnection(s, c);
  }

  ghost function Segment<T>(l: seq<T>, p: nat, n: nat): set<T>
    requires p + n <= |l|
  {
    set i | p <= i < p + n :: l[i]
  }

  lemma SegmentNext<T>(l: seq<T>, p: nat, n: nat)
    requires p + n < |l|
    ensures Segment(l, p, n + 1) == Segment(l, p, n) + {l[p + n]}
  {}

  lemma {:induction false} SegmentSize<T>(l: seq<T>, p: nat, n: nat)
    requires Distinct(l) && p + n <= |l|
    ensures |Segment(l, p, n)| == n
  {
    if n > 0 {
      SegmentSize(l, p, n - 1);
      SegmentNext(l, p, n - 1);
      forall i | p <= i < p + n - 1 ensures l[i] != l[p + n - 1] {}
    }
  }

  /** The first `n` idle connections, those idle longest. */
  ghost function LongestIdle(s: State, n: nat): set<Conn>
    requires Pos(s.conns, s.idleIt) + n <= |s.conns|
  {
    Segment(s.conns, Pos(s.conns, s.idleIt), n)
  }

  /** `s` is what is left of `s0` after the `count` longest idle connections, all idle for
      longer than the threshold, were dropped. */
  ghost predicate Shed(s0: State, s: State, count: nat, threshold: int, now: int) {
    var p := Pos(s0.conns, s0.idleIt);
    && p + count <= |s0.conns|
    && Partitioned(s) && s.records == s0.records && Pos(s.conns, s.idleIt) == p
    && s.conns == s0.conns[..p] + s0.conns[p + count..]
    && LongestIdle(s0, count) <= Sheddable(s0, threshold, now)
  }

  lemma ShedNone(s: State, threshold: int, now: int)
    requires Partitioned(s)
    ensures Shed(s, s, 0, threshold, now)
  {}

  /** Taking the first element after a gap widens the gap. */
  lemma WidenGap<T>(l0: seq<T>, l: seq<T>, p: nat, n: nat)
    requires p + n <= |l0| && l == l0[..p] + l0[p + n..] && p < |l|
    ensures l[p] == l0[p + n] && l[..p] + l[p + 1..] == l0[..p] + l0[p + n + 1..]
  {
    assert l[p + 1..] == l0[p + n + 1..];
  }

  lemma ShedNext(s0: State, s: State, count: nat, threshold: int, now: int)
    requires Partitioned(s0) && Shed(s0, s, count, threshold, now)
    requires s.idleIt.Some? && IdleTime(s.records[s.idleIt.value], now) > threshold
    ensures WellFormed(s.(idleIt := Next(s.conns, s.idleIt.value)))
    ensures Shed(s0, ShedOne(s), count + 1, threshold, now)
  {
    var p, c := Pos(s0.conns, s0.idleIt), s.idleIt.value;
    NextPos(s.conns, c);
    ShedOnePartitioned(s);
    WidenGap(s0.conns, s.conns, p, count);
    NextIsSheddable(s0, count, threshold, now);
  }

  lemma NextIsSheddable(s: State, n: nat, threshold: int, now: int)
    requires Partitioned(s) && Pos(s.conns, s.idleIt) + n < |s.conns|
    requires LongestIdle(s, n) <= Sheddable(s, threshold, now)
    requires IdleTime(s.records[s.conns[Pos(s.conns, s.idleIt) + n]], now) > threshold
    ensures LongestIdle(s, n + 1) <= Sheddable(s, threshold, now)
  {
    SegmentNext(s.conns, Pos(s.conns, s.idleIt), n);
    assert IsIdle(s, s.conns[Pos(s.conns, s.idleIt) + n]);
  }

  /** In a partitioned list the sheddable connections are a front piece of the idle part. */
  lemma {:induction false} SheddableIsFront(s: State, threshold: int, now: int, n: nat)
    requires Partitioned(s) && Pos(s.conns, s.idleIt) + n <= |s.conns|
    requires LongestIdle(s, n) <= Sheddable(s, threshold, now)
    requires Pos(s.conns, s.idleIt) + n < |s.conns| ==>
               IdleTime(s.records[s.conns[Pos(s.conns, s.idleIt) + n]], now) <= threshold
    ensures LongestIdle(s, n) == Sheddable(s, threshold, now)
  {
    var p := Pos(s.conns, s.idleIt);
    forall c | c in Sheddable(s, threshold, now) ensures c in LongestIdle(s, n) {
      var i := Index(s.conns, c);
      assert s.conns[i] == c && IsIdle(s, s.conns[i]);
      assert forall j :: p <= j < i ==> IdleLonger(s, s.conns[j], s.conns[i]);
    }
  }

  /** The first idle connections have been idle at least as long as every other idle one. */
  lemma LongestIdleIsLongest(s: State, n: nat, a: Conn, b: Conn, now: int)
    requires Partitioned(s) && Pos(s.conns, s.idleIt) + n <= |s.conns|
    requires a in LongestIdle(s, n) && b in s.conns && IsIdle(s, b) && b !in LongestIdle(s, n)
    ensures IdleTime(s.records[a], now) >= IdleTime(s.records[b], now)
  {
    var p := Pos(s.conns, s.idleIt);
    var i :| p <= i < p + n && s.conns[i] == a;
    var j := Index(s.conns, b);
    assert s.conns[j] == b && IsIdle(s, s.conns[j]);
    assert p <= j && !(j < p + n);
    assert IdleLonger(s, s.conns[i], s.conns[j]);
  }

  function Min(a: nat, b: nat): nat {
    if a < b then a else b
  }

  lemma CountIsMaximal(s0: State, s: State, threshold: int, now: int, num: nat, count: nat)
    requires Partitioned(s0) && count <= num && Shed(s0, s, count, threshold, now)
    requires count < num && s.idleIt.Some? ==> IdleTime(s.records[s.idleIt.value], now) <= threshold
    ensures count == Min(num, |Sheddable(s0, threshold, now)|)
  {
    var p := Pos(s0.conns, s0.idleIt);
    SegmentSize(s0.conns, Pos(s0.conns, s0.idleIt), count);
    if count < num {
      assert p + count < |s0.conns| ==> s.idleIt == Some(s0.conns[p + count]) by { AtOfPos(s.conns, s.idleIt); }
      SheddableIsFront(s0, threshold, now, count);
    } else {
      SubsetSize(LongestIdle(s0, count), Sheddable(s0, threshold, now));
    }
  }

  lemma {:induction false} SubsetSize<T>(a: set<T>, b: set<T>)
    requires a <= b
    ensures |a| <= |b|
  {
    if a != {} {
      var x :| x in a;
      SubsetSize(a - {x}, b - {x});
    }
  }

  // ---------------------------------------------------------------- as one step

  predicate Expired(s: State, threshold: int, now: int) {
    s.idleIt.Some? && s.idleIt.value in s.records && IdleTime(s.records[s.idleIt.value], now) > threshold
  }

  function ShedIfExpired(threshold: int, now: int): State -> State {
    s => if Expired(s, threshold, now) then ShedOne(s) else s
  }

  /** dropIdleConnections. */
  function ShedSome(s: State, num: nat, threshold: int, now: int): State {
    Repeat(ShedIfExpired(threshold, now), s, num)
  }

  lemma ShedOneIsRemove(s: State)
    requires WellFormed(s) && s.idleIt.Some?
    ensures ShedOne(s) == RemoveConnection(s, s.idleIt.value)
  {
    NextPos(s.conns, s.idleIt.value);
  }

  /** What every removal keeps, shedding keeps. */
  lemma ShedSomeKeeps(p: State -> bool, s: State, num: nat, threshold: int, now: int)
    requires WellFormed(s) && p(s)
    requires forall t, c :: WellFormed(t) && p(t) && c in t.conns ==> p(RemoveConnection(t, c))
    ensures p(ShedSome(s, num, threshold, now)) && WellFormed(ShedSome(s, num, threshold, now))
  {
    var f, q := ShedIfExpired(threshold, now), (t: State) => WellFormed(t) && p(t);
    forall t | q(t) ensures q(f(t)) {
      if Expired(t, threshold, now) {
        ShedOneIsRemove(t);
        RemoveWellFormed(t, t.idleIt.value);
      }
    }
    RepeatKeeps(f, q, s, num);
  }

  /** Shedding changes the list and its cursors and nothing else. */
  lemma ShedKeeps(s: State, num: nat, threshold: int, now: int)
    requires WellFormed(s)
    ensures var s' := ShedSome(s, num, threshold, now);
            WellFormed(s') && SameDrain(s, s') && s'.records == s.records
  {
    ShedSomeKeeps(t => SameDrain(s, t) && t.records == s.records, s, num, threshold, now);
  }

  /** What is left of `s0`, the number dropped being the difference in length. */
  ghost predicate ShedTo(s0: State, s: State, threshold: int, now: int) {
    |s.conns| <= |s0.conns| && Shed(s0, s, |s0.conns| - |s.conns|, threshold, now)
  }

  lemma ShedStep(s0: State, s: State, threshold: int, now: int)
    requires Partitioned(s0) && ShedTo(s0, s, threshold, now)
    ensures var s' := ShedIfExpired(threshold, now)(s);
            && ShedTo(s0, s', threshold, now)
            && if Expired(s, threshold, now) then |s'.conns| == |s.conns| - 1 else s' == s
  {
    if Expired(s, threshold, now) { ShedOneTo(s0, s, threshold, now); }
  }

  lemma ShedOneTo(s0: State, s: State, threshold: int, now: int)
    requires Partitioned(s0) && ShedTo(s0, s, threshold, now) && Expired(s, threshold, now)
    ensures ShedTo(s0, ShedOne(s), threshold, now) && |ShedOne(s).conns| == |s.conns| - 1
  {
    ShedOnePartitioned(s);
    ShedNext(s0, s, |s0.conns| - |s.conns|, threshold, now);
  }

  lemma ShedSomeTo(s: State, num: nat, threshold: int, now: int)
    requires Partitioned(s)
    ensures var s' := ShedSome(s, num, threshold, now);
            && ShedTo(s, s', threshold, now) && |s.conns| - |s'.conns| <= num
            && (|s.conns| - |s'.conns| < num ==> !Expired(s', threshold, now))
  {
    var f, p := ShedIfExpired(threshold, now), (t: State) => ShedTo(s, t, threshold, now);
    ShedNone(s, threshold, now);
    forall t | p(t) ensures p(f(t)) && (f(t) == t || |f(t).conns| == |t.conns| - 1) {
      ShedStep(s, t, threshold, now);
    }
    RepeatCounts(f, p, (t: State) => |t.conns|, s, num);
    ShedStep(s, ShedSome(s, num, threshold, now), threshold, now);
  }

  /** In a partitioned list it drops exactly the longest idle connections past the threshold,
      at most `num` of them. */
  lemma ShedSomeIsShed(s: State, num: nat, threshold: int, now: int)
    requires Partitioned(s)
    ensures Shed(s, ShedSome(s, num, threshold, now), Min(num, |Sheddable(s, threshold, now)|), threshold, now)
  {
    ShedSomeTo(s, num, threshold, now);
    var s' := ShedSome(s, num, threshold, now);
    CountIsMaximal(s, s', threshold, now, num, |s.conns| - |s'.conns|);
  }
}
