/** The connection manager as a state with step functions: one function per entry point
    of ConnectionManager and its DrainHelper.  Connections are used as identities only;
    everything a step reads of them is in `records`. */
module ConnectionManagers {
  import opened CursorList
  import opened Repetition
  import opened ManagedConnections

  datatype ShutdownState =
    | NoShutdown
    | NotifyPending
    | NotifyComplete
    | ClosingIdle
    | CloseComplete

  function Rank(s: ShutdownState): nat {
    match s
    case NoShutdown => 0
    case NotifyPending => 1
    case NotifyComplete => 2
    case ClosingIdle => 3
    case CloseComplete => 4
  }

  /** The number of connections a drain visits before it yields to the event loop. */
  const BATCH: nat := 64

  type Conn = ManagedConnection

  datatype State = State(
    conns: seq<Conn>,
    drainIt: Option<Conn>,      // next connection of the running pass
    idleIt: Option<Conn>,       // first idle connection
    shutdown: ShutdownState,
    notifyEnabled: bool,        // false once a drain started without a grace period
    loopPending: bool,          // the drain helper is queued as a loop callback
    timerPending: bool,         // the idle grace timer is scheduled
    deferred: multiset<Conn>,   // delayed close callbacks queued on the loop
    records: map<Conn, Record>)

  const Initial := State([], None, None, NoShutdown, true, false, false, multiset{}, map[])

  function SetRecord(s: State, c: Conn, r: Record): State {
    s.(records := s.records[c := r])
  }

  /** Linked connections have a record and the cursors stay inside the list. */
  ghost predicate WellFormed(s: State) {
    && Distinct(s.conns)
    && ValidCursor(s.conns, s.drainIt)
    && ValidCursor(s.conns, s.idleIt)
    && (forall c :: c in s.conns ==> c in s.records)
  }

  // ---------------------------------------------------------------- membership

  /** `r` is the connection's own value when it arrives; it enters the busy part. */
  function Link(s: State, c: Conn, r: Record): State {
    if c in s.conns then s
    else SetRecord(s, c, r.(idleSince := None)).(conns := [c] + s.conns)
  }

  /** A drain that reached its notify phase notifies a connection as it is added ... */
  function Tell(s: State, c: Conn): State
    requires c in s.records
  {
    if Rank(s.shutdown) >= Rank(NotifyPending) && s.notifyEnabled then
      SetRecord(s, c, FireNotifyPendingShutdown(s.records[c]))
    else s
  }

  /** ... and one that reached its close phase closes it at the end of the loop. */
  function Defer(s: State, c: Conn): State {
    if Rank(s.shutdown) >= Rank(ClosingIdle) then s.(deferred := s.deferred + multiset{c}) else s
  }

  function AddConnection(s: State, c: Conn, r: Record): State
    requires c in s.conns ==> c in s.records
  {
    Defer(Tell(Link(s, c, r), c), c)
  }

  function RemoveConnection(s: State, c: Conn): State {
    if c in s.conns then
      s.(conns := Erase(s.conns, c),
         drainIt := Repair(s.conns, s.drainIt, c),
         idleIt := Repair(s.conns, s.idleIt, c))
    else s
  }

  /** The delayed close of a connection added while the close pass was under way.
      `leaves`: the connection unlinks itself from inside its callback. */
  function RunDeferred(s: State, c: Conn, leaves: bool): State
    requires c in s.conns ==> c in s.records
  {
    var s1 := s.(deferred := s.deferred - multiset{c});
    if c in s.conns then Signalled(s1, c, FireCloseWhenIdle(s.records[c], !s.notifyEnabled), leaves) else s1
  }

  /** The state after `c` was offered a signal that makes its value `r`. */
  function Signalled(s: State, c: Conn, r: Record, leaves: bool): State
    requires c in s.records
  {
    var s1 := SetRecord(s, c, r);
    if leaves && r != s.records[c] then RemoveConnection(s1, c) else s1
  }

  // ---------------------------------------------------------------- busy and idle

  function OnActivated(s: State, c: Conn): State
    requires c in s.conns && c in s.records
  {
    SetRecord(s, c, s.records[c].(idleSince := None))
      .(conns := [c] + Erase(s.conns, c),
        idleIt := Repair(s.conns, s.idleIt, c))
  }

  /** Where the drain cursor stands when `c` goes to the back. */
  function ParkedCursor(s: State, c: Conn): Option<Conn> {
    var it := Repair(s.conns, s.drainIt, c);
    if s.drainIt == Some(c) && it.None? then Some(c) else it
  }

  function OnDeactivated(s: State, c: Conn, now: int): State
    requires c in s.conns && c in s.records
  {
    SetRecord(s, c, s.records[c].(idleSince := Some(now)))
      .(conns := Erase(s.conns, c) + [c],
        idleIt := if s.idleIt.None? then Some(c) else s.idleIt,
        drainIt := ParkedCursor(s, c))
  }

  // ---------------------------------------------------------------- draining

  function Begin(s: State): Option<Conn> {
    At(s.conns, 0)
  }

  function Offered(s: State, c: Conn): Record
    requires c in s.records
  {
    if s.shutdown == NotifyPending then FireNotifyPendingShutdown(s.records[c])
    else FireCloseWhenIdle(s.records[c], !s.notifyEnabled)
  }

  function VisitOne(s: State, c: Conn, leaving: set<Conn>): State
    requires c in s.records
  {
    Signalled(s, c, Offered(s, c), c in leaving)
  }

  /** The body of one batch: at most `budget` connections from the cursor `it` onward. */
  function Visit(s: State, it: Option<Conn>, budget: nat, leaving: set<Conn>): (State, Option<Conn>)
    decreases budget
  {
    if it.None? || budget == 0 || it.value !in s.records then (s, it)
    else Visit(VisitOne(s, it.value, leaving), Next(s.conns, it.value), budget - 1, leaving)
  }

  function FinishBatch(s: State, it: Option<Conn>): State {
    if it.Some? then s.(drainIt := it, loopPending := true)
    else if s.shutdown != NotifyPending then s.(drainIt := it, shutdown := CloseComplete)
    else if s.timerPending then s.(drainIt := it, shutdown := NotifyComplete)
    else s.(shutdown := ClosingIdle, drainIt := Begin(s), loopPending := true)
  }

  function DrainConnections(s: State, leaving: set<Conn>): State {
    var (s1, it) := Visit(s, s.drainIt, BATCH, leaving);
    FinishBatch(s1, it)
  }

  /** startDrain, up to its first batch: without grace there is no notify pass. */
  function Starting(s: State, start: Option<Conn>, grace: int): State {
    if grace > 0 then s.(shutdown := NotifyPending, timerPending := true, drainIt := start)
    else s.(shutdown := ClosingIdle, notifyEnabled := false, drainIt := start)
  }

  function InitiateGracefulShutdown(s: State, grace: int, leaving: set<Conn>): State {
    if s.shutdown != NoShutdown then s else DrainConnections(Starting(s, Begin(s), grace), leaving)
  }

  function RunLoopCallback(s: State, leaving: set<Conn>): State {
    DrainConnections(s.(loopPending := false), leaving)
  }

  function TimeoutExpired(s: State, leaving: set<Conn>): State {
    var s1 := s.(timerPending := false);
    if s.shutdown == NotifyComplete then
      DrainConnections(s1.(shutdown := ClosingIdle, drainIt := Begin(s1)), leaving)
    else s1
  }

  function StopDraining(s: State): State {
    s.(shutdown := CloseComplete, timerPending := false)
  }

  function DropAllConnections(s: State): State {
    StopDraining(s).(conns := [], drainIt := None, idleIt := None, loopPending := false)
  }

  /** Drops the `n` connections at the front, busy or idle. */
  function DropConnections(s: State, n: nat): State {
    RemoveFront(StopDraining(s), n)
  }

  function RemoveFirst(s: State): State {
    if s.conns == [] then s else RemoveConnection(s, s.conns[0])
  }

  function RemoveFront(s: State, n: nat): State {
    Repeat(RemoveFirst, s, n)
  }

  // ---------------------------------------------------------------- well-formedness

  lemma LinkWellFormed(s: State, c: Conn, r: Record)
    requires WellFormed(s)
    ensures WellFormed(Link(s, c, r)) && c in Link(s, c, r).conns
  {
    if c !in s.conns {
      PushFrontPos(s.conns, s.drainIt, c);
      PushFrontPos(s.conns, s.idleIt, c);
    }
  }

  lemma AddWellFormed(s: State, c: Conn, r: Record)
    requires WellFormed(s)
    ensures WellFormed(AddConnection(s, c, r))
  {
    LinkWellFormed(s, c, r);
  }

  lemma RemoveWellFormed(s: State, c: Conn)
    requires WellFormed(s)
    ensures WellFormed(RemoveConnection(s, c))
    ensures forall x :: x in RemoveConnection(s, c).conns <==> x in s.conns && x != c
  {
    if c in s.conns {
      EraseMembers(s.conns, c);
      ErasePos(s.conns, s.drainIt, c);
      ErasePos(s.conns, s.idleIt, c);
    }
  }

  /** What every removal keeps, dropping from the front keeps. */
  lemma RemoveFrontKeeps(p: State -> bool, s: State, n: nat)
    requires WellFormed(s) && p(s)
    requires forall t, c :: WellFormed(t) && p(t) && c in t.conns ==> p(RemoveConnection(t, c))
    ensures p(RemoveFront(s, n)) && WellFormed(RemoveFront(s, n))
  {
    var q := (t: State) => WellFormed(t) && p(t);
    forall t | q(t) ensures q(RemoveFirst(t)) {
      if t.conns != [] { RemoveWellFormed(t, t.conns[0]); }
    }
    RepeatKeeps(RemoveFirst, q, s, n);
  }

  lemma ActivateWellFormed(s: State, c: Conn)
    requires WellFormed(s) && c in s.conns
    ensures WellFormed(OnActivated(s, c))
    ensures forall x :: x in OnActivated(s, c).conns <==> x in s.conns
  {
    EraseMembers(s.conns, c);
    ErasePos(s.conns, s.idleIt, c);
    PushFrontPos(Erase(s.conns, c), Repair(s.conns, s.idleIt, c), c);
  }

  lemma DeactivateWellFormed(s: State, c: Conn, now: int)
    requires WellFormed(s) && c in s.conns
    ensures WellFormed(OnDeactivated(s, c, now))
    ensures forall x :: x in OnDeactivated(s, c, now).conns <==> x in s.conns
  {
    EraseMembers(s.conns, c);
    ErasePos(s.conns, s.drainIt, c);
  }

  // ---------------------------------------------------------------- a pass over the list

  /** The fields a visit leaves alone. */
  ghost predicate SameDrain(s: State, s': State) {
    && s'.shutdown == s.shutdown && s'.notifyEnabled == s.notifyEnabled
    && s'.loopPending == s.loopPending && s'.timerPending == s.timerPending
    && s'.deferred == s.deferred && s'.records.Keys == s.records.Keys
  }

  /** How many connections a pass at cursor `it` has yet to visit. */
  function Remaining(s: State, it: Option<Conn>): int {
    |s.conns| - Pos(s.conns, it)
  }

  /** The cursor was moved past `c` before `c` was signalled, so it survives even if `c`
      unlinks itself. */
  lemma SignalledCursor(s: State, c: Conn, r: Record, leaves: bool)
    requires WellFormed(s) && c in s.conns
    ensures var s', it := Signalled(s, c, r, leaves), Next(s.conns, c);
            && WellFormed(s') && ValidCursor(s'.conns, it) && SameDrain(s, s')
            && Remaining(s', it) == |s.conns| - Index(s.conns, c) - 1
  {
    RemoveWellFormed(SetRecord(s, c, r), c);
    NextPos(s.conns, c);
    NextAfterErase(s.conns, c);
    EraseMembers(s.conns, c);
  }

  /** What then stands before the cursor is what stood before `c`, and `c` if it stayed. */
  lemma SignalledPrefix(s: State, c: Conn, r: Record, leaves: bool)
    requires WellFormed(s) && c in s.conns
    ensures var s', it, k := Signalled(s, c, r, leaves), Next(s.conns, c), Index(s.conns, c);
            && Pos(s'.conns, it) <= |s'.conns|
            && s'.conns[..Pos(s'.conns, it)] == s.conns[..k] + (if c in s'.conns then [c] else [])
  {
    NextPos(s.conns, c);
    NextAfterErase(s.conns, c);
    EraseMembers(s.conns, c);
  }

  /** `s'` and `it'` are what `n` visits from `it` may leave. */
  ghost predicate Visited(s: State, it: Option<Conn>, n: nat, s': State, it': Option<Conn>) {
    && WellFormed(s') && ValidCursor(s'.conns, it') && SameDrain(s, s')
    && Remaining(s', it') == if Remaining(s, it) <= n then 0 else Remaining(s, it) - n
  }

  lemma VisitOneVisited(s: State, c: Conn, leaving: set<Conn>)
    requires WellFormed(s) && c in s.conns
    ensures Visited(s, Some(c), 1, VisitOne(s, c, leaving), Next(s.conns, c))
    ensures Remaining(s, Some(c)) >= 1
  {
    SignalledCursor(s, c, Offered(s, c), c in leaving);
  }

  lemma {:induction false} VisitWellFormed(s: State, it: Option<Conn>, budget: nat, leaving: set<Conn>)
    requires WellFormed(s) && ValidCursor(s.conns, it)
    ensures var (s', it') := Visit(s, it, budget, leaving);
            Visited(s, it, budget, s', it')
    decreases budget, 1
  {
    if it.Some? && budget > 0 {
      VisitOneVisited(s, it.value, leaving);
      VisitRest(s, it, VisitOne(s, it.value, leaving), Next(s.conns, it.value), budget - 1, leaving);
    }
  }

  lemma {:induction false} VisitRest(
    s: State, it: Option<Conn>, s1: State, it1: Option<Conn>, budget: nat, leaving: set<Conn>)
    requires Visited(s, it, 1, s1, it1) && Remaining(s, it) >= 1
    ensures var (s', it') := Visit(s1, it1, budget, leaving);
            Visited(s, it, budget + 1, s', it')
    decreases budget, 2
  {
    VisitWellFormed(s1, it1, budget, leaving);
    var (s', it') := Visit(s1, it1, budget, leaving);
    VisitedTrans(s, it, s1, it1, budget, s', it');
  }

  lemma VisitedTrans(
    s: State, it: Option<Conn>, s1: State, it1: Option<Conn>, n: nat, s': State, it': Option<Conn>)
    requires Visited(s, it, 1, s1, it1) && Remaining(s, it) >= 1 && Visited(s1, it1, n, s', it')
    ensures Visited(s, it, n + 1, s', it')
  {}

  /** The cursor is at the end exactly when nothing remains. */
  lemma NothingRemains(s: State, it: Option<Conn>)
    requires ValidCursor(s.conns, it)
    ensures it.None? <==> Remaining(s, it) == 0
    ensures Remaining(s, it) >= 0
  {}

  lemma DrainWellFormed(s: State, leaving: set<Conn>)
    requires WellFormed(s)
    ensures WellFormed(DrainConnections(s, leaving))
  {
    VisitWellFormed(s, s.drainIt, BATCH, leaving);
  }
}
