/** The connection manager as the object it is: a list and two cursors updated in place.
    Each method computes the step function of the same name in `ConnectionManagers`. */
module ConnectionManagerClass {
  import opened CursorList
  import opened Repetition
  import opened ManagedConnections
  import opened ConnectionManagers
  import opened IdlePartition
  import opened IdleShedding
  import opened Membership

  class ConnectionManager {
    var conns: seq<ManagedConnection>
    var drainIterator: Option<ManagedConnection>
    var idleIterator: Option<ManagedConnection>
    var shutdownState: ShutdownState
    var notifyPendingShutdown: bool
    var loopPending: bool
    var timerPending: bool
    var deferred: multiset<ManagedConnection>
    var idleConnEarlyDropThreshold: int
    const timeout: int
    /** The values of all connections this manager has been given. */
    ghost var records: map<ManagedConnection, Record>

    ghost function Value(): State
      reads this
    {
      State(conns, drainIterator, idleIterator, shutdownState, notifyPendingShutdown,
            loopPending, timerPending, deferred, records)
    }

    ghost predicate Valid()
      reads this, records.Keys
    {
      && WellFormed(Value())
      && (forall c :: c in records ==> records[c] == c.Value())
      && (idleConnEarlyDropThreshold < timeout ==> 0 <= idleConnEarlyDropThreshold)
    }

    constructor (timeout: int)
      ensures Valid() && Value() == Initial && this.timeout == timeout
      // half the timeout, rounded toward zero
      ensures -1 <= timeout - 2 * idleConnEarlyDropThreshold <= 1
      ensures timeout >= 0 ==> 0 <= 2 * idleConnEarlyDropThreshold <= timeout
      ensures timeout <= 0 ==> timeout <= 2 * idleConnEarlyDropThreshold <= 0
    {
      conns, drainIterator, idleIterator := [], None, None;
      shutdownState, notifyPendingShutdown, loopPending, timerPending := NoShutdown, true, false, false;
      deferred := multiset{};
      this.timeout := timeout;
      // chrono division truncates toward zero
      idleConnEarlyDropThreshold := if timeout >= 0 then timeout / 2 else -((-timeout) / 2);
      records := map[];
    }

    /** Puts `c` into the busy part, unless it is already managed here. */
    method LinkFront(c: ManagedConnection)
      requires Valid()
      modifies `conns, `records, c
      ensures Valid() && Value() == Link(old(Value()), c, old(c.Value()))
    {
      LinkWellFormed(Value(), c, c.Value());
      if c !in conns {
        conns := [c] + conns;
        c.idleSince := None;
        records := records[c := c.Value()];
      }
    }

    method TellIfDraining(c: ManagedConnection)
      requires Valid() && c in conns
      modifies `records, c
      ensures Valid() && Value() == Tell(old(Value()), c)
    {
      if Rank(shutdownState) >= Rank(NotifyPending) && notifyPendingShutdown {
        var _ := c.FireNotify();
        records := records[c := c.Value()];
      }
    }

    method AddConnection(c: ManagedConnection)
      requires Valid()
      modifies this, c
      ensures Valid() && Value() == ConnectionManagers.AddConnection(old(Value()), c, old(c.Value()))
    {
      LinkWellFormed(Value(), c, c.Value());
      LinkFront(c);
      TellIfDraining(c);
      if Rank(shutdownState) >= Rank(ClosingIdle) {
        deferred := deferred + multiset{c};
      }
    }

    method RemoveConnection(c: ManagedConnection)
      requires Valid()
      modifies `conns, `drainIterator, `idleIterator
      ensures Valid() && Value() == ConnectionManagers.RemoveConnection(old(Value()), c)
    {
      RemoveWellFormed(Value(), c);
      if c in conns {
        if drainIterator == Some(c) { drainIterator := Next(conns, c); }
        if idleIterator == Some(c) { idleIterator := Next(conns, c); }
        conns := Erase(conns, c);
      }
    }

    method OnActivated(c: ManagedConnection)
      requires Valid() && c in conns
      modifies this, c
      ensures Valid() && Value() == ConnectionManagers.OnActivated(old(Value()), c)
    {
      ActivateWellFormed(Value(), c);
      if idleIterator == Some(c) { idleIterator := Next(conns, c); }
      conns := [c] + Erase(conns, c);
      SetIdleSince(c, None);
    }

    method CursorAfterParking(c: ManagedConnection) returns (it: Option<ManagedConnection>)
      ensures it == ParkedCursor(Value(), c)
    {
      it := drainIterator;
      if it == Some(c) {
        it := Next(conns, c);
        // stepping back from the end of the list lands on its last member, `c` itself
        if it.None? { it := Some(c); }
      }
    }

    method OnDeactivated(c: ManagedConnection, now: int)
      requires Valid() && c in conns
      modifies this, c
      ensures Valid() && Value() == ConnectionManagers.OnDeactivated(old(Value()), c, now)
    {
      DeactivateWellFormed(Value(), c, now);
      var drainIt := CursorAfterParking(c);
      drainIterator, conns := drainIt, Erase(conns, c) + [c];
      if idleIterator.None? { idleIterator := Some(c); }
      SetIdleSince(c, Some(now));
    }

    method SetIdleSince(c: ManagedConnection, t: Option<int>)
      requires Valid() && c in records
      modifies `records, c
      ensures Valid() && Value() == SetRecord(old(Value()), c, old(records[c]).(idleSince := t))
    {
      c.idleSince := t;
      records := records[c := c.Value()];
    }

    /** Offers `c` the signal of the running pass.  A connection in `leaving` takes itself
        off the list from inside its callback. */
    method Offer(c: ManagedConnection, leaving: set<ManagedConnection>)
      requires Valid() && c in conns
      modifies `conns, `drainIterator, `idleIterator, `records, c
      ensures Valid() && Value() == VisitOne(old(Value()), c, leaving)
    {
      var fired: bool;
      if shutdownState == NotifyPending {
        fired := c.FireNotify();
      } else {
        fired := c.FireClose(!notifyPendingShutdown);
      }
      records := records[c := c.Value()];
      if fired && c in leaving { RemoveConnection(c); }
    }

    /** Visits `c`; returns the cursor after it. */
    method VisitNext(c: ManagedConnection, leaving: set<ManagedConnection>)
      returns (it: Option<ManagedConnection>)
      requires Valid() && c in conns
      modifies `conns, `drainIterator, `idleIterator, `records, c
      ensures Valid() && ValidCursor(conns, it) && records.Keys == old(records.Keys)
      ensures Hop((old(Value()), Some(c)), (Value(), it), leaving)
    {
      SignalledCursor(Value(), c, Offered(Value(), c), c in leaving);
      it := Next(conns, c);
      Offer(c, leaving);
    }

    /** The loop of one batch, from the drain cursor on. */
    method VisitBatch(limit: nat, leaving: set<ManagedConnection>) returns (it: Option<ManagedConnection>)
      requires Valid()
      modifies `conns, `drainIterator, `idleIterator, `records, records.Keys
      ensures Valid() && (Value(), it) == Visit(old(Value()), old(drainIterator), limit, leaving)
    {
      it := drainIterator;
      var visited := 0;
      ghost var path := [(Value(), it)];
      while it.Some? && visited < limit
        invariant visited <= limit && Valid() && ValidCursor(conns, it) && records.Keys == old(records.Keys)
        invariant |path| == visited + 1 && path[0] == old((Value(), drainIterator)) && path[visited] == (Value(), it)
        invariant IsPath(path, leaving)
      {
        it := VisitNext(it.value, leaving);
        visited := visited + 1;
        path := path + [(Value(), it)];
      }
      PathIsVisit(path, limit, leaving);
    }

    method DrainConnections(leaving: set<ManagedConnection>)
      requires Valid()
      requires shutdownState == NotifyPending || shutdownState == ClosingIdle
      modifies this, records.Keys
      ensures Valid() && Value() == ConnectionManagers.DrainConnections(old(Value()), leaving)
    {
      VisitWellFormed(Value(), drainIterator, BATCH, leaving);
      DrainWellFormed(Value(), leaving);
      var it := VisitBatch(BATCH, leaving);
      EndBatch(it);
    }

    method EndBatch(it: Option<ManagedConnection>)
      requires Valid() && ValidCursor(conns, it)
      modifies `drainIterator, `shutdownState, `loopPending
      ensures Valid() && Value() == FinishBatch(old(Value()), it)
    {
      drainIterator := it;
      if it.Some? {
        loopPending := true;
      } else if shutdownState == NotifyPending {
        shutdownState := NotifyComplete;
        if !timerPending {
          // grace is over by now: go straight on to the close pass
          shutdownState, drainIterator, loopPending := ClosingIdle, At(conns, 0), true;
        }
      } else {
        shutdownState := CloseComplete;
      }
    }

    method InitiateGracefulShutdown(grace: int, leaving: set<ManagedConnection>)
      requires Valid()
      modifies this, records.Keys
      ensures Valid() && Value() == ConnectionManagers.InitiateGracefulShutdown(old(Value()), grace, leaving)
    {
      if shutdownState != NoShutdown { return; }
      if grace > 0 {
        shutdownState, timerPending := NotifyPending, true;
      } else {
        shutdownState, notifyPendingShutdown := ClosingIdle, false;
      }
      drainIterator := At(conns, 0);
      DrainConnections(leaving);
    }

    method RunLoopCallback(leaving: set<ManagedConnection>)
      requires Valid()
      requires shutdownState == NotifyPending || shutdownState == ClosingIdle
      modifies this, records.Keys
      ensures Valid() && Value() == ConnectionManagers.RunLoopCallback(old(Value()), leaving)
    {
      loopPending := false;
      DrainConnections(leaving);
    }

    method IdleGracefulTimeoutExpired(leaving: set<ManagedConnection>)
      requires Valid()
      modifies this, records.Keys
      ensures Valid() && Value() == TimeoutExpired(old(Value()), leaving)
    {
      timerPending := false;
      if shutdownState == NotifyComplete {
        shutdownState := ClosingIdle;
        drainIterator := At(conns, 0);
        DrainConnections(leaving);
      }
    }

    /** Closes `c`; with `leaves`, it takes itself off the list from inside its callback. */
    method SignalClose(c: ManagedConnection, leaves: bool)
      requires Valid() && c in conns
      modifies `conns, `drainIterator, `idleIterator, `records, c
      ensures Valid()
      ensures Value() == Signalled(old(Value()), c, FireCloseWhenIdle(old(records[c]), !notifyPendingShutdown), leaves)
    {
      var fired := c.FireClose(!notifyPendingShutdown);
      records := records[c := c.Value()];
      if fired && leaves { RemoveConnection(c); }
    }

    /** The callback AddConnection queues once the close pass has begun. */
    method RunDeferred(c: ManagedConnection, leaves: bool)
      requires Valid()
      modifies `deferred, `conns, `drainIterator, `idleIterator, `records, c
      ensures Valid() && Value() == ConnectionManagers.RunDeferred(old(Value()), c, leaves)
    {
      deferred := deferred - multiset{c};
      if c in conns { SignalClose(c, leaves); }
    }

    method DropConnections(numToDrop: nat)
      requires Valid()
      modifies `shutdownState, `timerPending, `conns, `drainIterator, `idleIterator
      ensures Valid() && Value() == ConnectionManagers.DropConnections(old(Value()), numToDrop)
      ensures conns == old(conns)[Min(numToDrop, |old(conns)|)..] && records == old(records)
    {
      RemoveFrontIsSuffix(StopDraining(Value()), numToDrop);
      DropKeepsRecords(Value(), numToDrop);
      shutdownState, timerPending := CloseComplete, false;
      DropFront(numToDrop);
    }

    method DropFirst()
      requires Valid() && conns != []
      modifies `conns, `drainIterator, `idleIterator
      ensures Valid() && Value() == RemoveFirst(old(Value()))
    {
      RemoveConnection(conns[0]);
    }

    method DropFront(n: nat)
      requires Valid()
      modifies `conns, `drainIterator, `idleIterator
      ensures Valid() && Value() == RemoveFront(old(Value()), n)
    {
      var i := 0;
      ghost var path := [Value()];
      while i < n && conns != []
        invariant i <= n && Valid() && |path| == i + 1 && path[0] == old(Value()) && path[i] == Value()
        invariant IsChain(RemoveFirst, path)
      {
        DropFirst();
        i := i + 1;
        path := path + [Value()];
      }
      ChainIsRepeat(RemoveFirst, path, n);
    }

    method DropAllConnections() returns (dropped: seq<ManagedConnection>)
      requires Valid()
      modifies this
      ensures Valid() && Value() == ConnectionManagers.DropAllConnections(old(Value()))
      ensures dropped == old(conns)
    {
      dropped := PopAll();
      shutdownState, timerPending := CloseComplete, false;
      drainIterator, idleIterator, loopPending := None, None, false;
    }

    /** Takes the connections off the front of the list one by one. */
    method PopAll() returns (popped: seq<ManagedConnection>)
      modifies `conns
      ensures conns == [] && popped == old(conns)
    {
      popped := [];
      while conns != []
        invariant popped + conns == old(conns)
        decreases |conns|
      {
        popped := popped + [conns[0]];
        conns := conns[1..];
      }
    }

    /** The idle cursor is moved off the connection before it is dropped. */
    method DropFirstIdle()
      requires Valid() && idleIterator.Some?
      requires WellFormed(Value().(idleIt := Next(conns, idleIterator.value)))
      modifies `conns, `drainIterator, `idleIterator
      ensures Valid() && Value() == ShedOne(old(Value()))
    {
      var c := idleIterator.value;
      idleIterator := Next(conns, c);
      RemoveConnection(c);
    }

    /** Whether there is an idle connection and the first one is past the threshold. */
    method FirstIdleExpired(now: int) returns (expired: bool)
      requires Valid() && 0 <= idleConnEarlyDropThreshold
      ensures expired <==> idleIterator.Some? && idleIterator.value in records
                           && IdleTime(records[idleIterator.value], now) > idleConnEarlyDropThreshold
    {
      if idleIterator.None? { return false; }
      var idleTime := idleIterator.value.GetIdleTime(now);
      expired := !(idleTime == 0 || idleTime <= idleConnEarlyDropThreshold);
    }

    /** Drops one more connection, if the longest idle one is past the threshold. */
    method DropNextIdle(ghost s0: State, ghost count: nat, now: int) returns (dropped: bool)
      requires Valid() && 0 <= idleConnEarlyDropThreshold
      requires Partitioned(s0) && Shed(s0, Value(), count, idleConnEarlyDropThreshold, now)
      modifies `conns, `drainIterator, `idleIterator
      ensures Valid()
      ensures dropped ==> Shed(s0, Value(), count + 1, idleConnEarlyDropThreshold, now)
      ensures !dropped ==> Value() == old(Value())
      ensures !dropped && idleIterator.Some? ==>
                IdleTime(records[idleIterator.value], now) <= idleConnEarlyDropThreshold
    {
      dropped := FirstIdleExpired(now);
      if dropped {
        ShedNext(s0, Value(), count, idleConnEarlyDropThreshold, now);
        DropFirstIdle();
      }
    }

    /** Drops the longest idle connections, at most `num`, among those idle for longer than
        the threshold; dropping takes a connection off the list. */
    method DropIdleConnections(num: nat, now: int) returns (count: nat)
      requires Valid() && Partitioned(Value())
      modifies `conns, `drainIterator, `idleIterator
      ensures Valid()
      ensures count == if idleConnEarlyDropThreshold >= timeout then 0
                       else Min(num, |Sheddable(old(Value()), idleConnEarlyDropThreshold, now)|)
      ensures Shed(old(Value()), Value(), count, idleConnEarlyDropThreshold, now)
    {
      ghost var s0 := Value();
      ShedNone(s0, idleConnEarlyDropThreshold, now);
      count := 0;
      if idleConnEarlyDropThreshold >= timeout { return; }
      count := DropExpired(num, now);
      CountIsMaximal(s0, Value(), idleConnEarlyDropThreshold, now, num, count);
    }

    method DropExpired(num: nat, now: int) returns (count: nat)
      requires Valid() && Partitioned(Value()) && 0 <= idleConnEarlyDropThreshold
      modifies `conns, `drainIterator, `idleIterator
      ensures Valid() && count <= num
      ensures Shed(old(Value()), Value(), count, idleConnEarlyDropThreshold, now)
      ensures count < num && idleIterator.Some? ==>
                IdleTime(records[idleIterator.value], now) <= idleConnEarlyDropThreshold
    {
      ghost var s0 := Value();
      ShedNone(s0, idleConnEarlyDropThreshold, now);
      count := 0;
      while count < num
        invariant count <= num && Valid() && Shed(s0, Value(), count, idleConnEarlyDropThreshold, now)
      {
        var dropped := DropNextIdle(s0, count, now);
        if !dropped { break; }
        count := count + 1;
      }
    }
  }

  type Spot = (State, Option<ManagedConnection>)

  /** One iteration of a batch. */
  ghost predicate Hop(a: Spot, b: Spot, leaving: set<ManagedConnection>) {
    && a.1.Some? && a.1.value in a.0.records
    && b == (VisitOne(a.0, a.1.value, leaving), Next(a.0.conns, a.1.value))
  }

  ghost predicate IsPath(path: seq<Spot>, leaving: set<ManagedConnection>) {
    forall i :: 0 <= i < |path| - 1 ==> Hop(path[i], path[i + 1], leaving)
  }

  /** A path that ends at the limit or at the end of the list is a batch. */
  lemma {:induction false} PathIsVisit(path: seq<Spot>, limit: nat, leaving: set<ManagedConnection>)
    requires |path| > 0 && IsPath(path, leaving)
    requires |path| - 1 == limit || (|path| - 1 <= limit && path[|path| - 1].1.None?)
    ensures Visit(path[0].0, path[0].1, limit, leaving) == path[|path| - 1]
  {
    if |path| > 1 {
      assert Hop(path[0], path[1], leaving);
      forall i | 0 <= i < |path| - 2 ensures Hop(path[1..][i], path[1..][i + 1], leaving) {
        assert Hop(path[i + 1], path[i + 2], leaving);
      }
      PathIsVisit(path[1..], limit - 1, leaving);
    }
  }
}
