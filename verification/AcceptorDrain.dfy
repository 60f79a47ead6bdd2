/** An acceptor's life from running to drained: its handshakes, its sessions, and the
    connection manager that it releases when nothing is left. Everything happens on the
    acceptor's thread, but callbacks nest: unlinking the last connection calls back into the
    acceptor, which may then release the manager. */
module AcceptorDrain {
  import opened CursorList
  import opened Repetition

  datatype Phase = Running | Draining | Done

  datatype Conn = Handshake(id: nat) | Session(id: nat)

  /** `open` are the handshakes begun and not yet reported, and `live` the sessions that the
      application has added and that have not gone. `fault` records a failed CHECK or the
      use of a manager that is gone; `drained` counts calls of onConnectionsDrained. */
  datatype State = State(
    phase: Phase,
    numPending: nat,
    manager: Option<seq<Conn>>,
    force: bool,
    open: set<nat>,
    live: set<nat>,
    drained: nat,
    stopped: bool,
    fault: bool)

  function Initial(): State {
    State(Running, 0, Some([]), false, {}, {}, 0, false, false)
  }

  // ---------------------------------------------------------------- calls

  function List(s: State): seq<Conn> {
    if s.manager.Some? then s.manager.value else []
  }

  function CheckDrained(s: State): State {
    if s.force then s
    else if s.manager.None? then s.(fault := true)
    else if s.manager.value != [] || s.numPending != 0 then s
    else s.(manager := None, phase := Done, drained := s.drained + 1)
  }

  function CheckIfDraining(s: State): State {
    if s.phase == Draining then CheckDrained(s) else s
  }

  function AddConnection(s: State, c: Conn): State {
    if s.manager.None? then s.(fault := true) else s.(manager := Some([c] + s.manager.value))
  }

  /** Unlinking the last connection calls onEmpty. */
  function RemoveConnection(s: State, c: Conn): State {
    if s.manager.None? then s.(fault := true)
    else if c !in s.manager.value then s
    else
      var t := s.(manager := Some(Erase(s.manager.value, c)));
      if t.manager.value == [] then CheckIfDraining(t) else t
  }

  function CountUp(s: State, id: nat): State {
    s.(numPending := s.numPending + 1, open := s.open + {id})
  }

  function CountDown(s: State, id: nat): State {
    if s.numPending == 0 then s.(fault := true)
    else s.(numPending := s.numPending - 1, open := s.open - {id})
  }

  /** The application may turn a ready transport into a managed session. */
  function ConnectionReady(s: State, session: Option<nat>): State {
    if s.phase == Running && session.Some? then
      AddConnection(s.(live := s.live + {session.value}), Session(session.value))
    else s
  }

  function SslConnectionReady(s: State, id: nat, session: Option<nat>): State {
    CheckIfDraining(ConnectionReady(CountDown(s, id), session))
  }

  function SslConnectionError(s: State, id: nat): State {
    CheckIfDraining(CountDown(s, id))
  }

  // ---------------------------------------------------------------- events

  function AcceptTls(s: State, id: nat, max: nat): State {
    var t := CountUp(s, id);
    if t.numPending > max then SslConnectionError(t, id) else AddConnection(t, Handshake(id))
  }

  function HandshakeReady(s: State, id: nat, session: Option<nat>): State {
    SslConnectionReady(RemoveConnection(s, Handshake(id)), id, session)
  }

  function HandshakeError(s: State, id: nat): State {
    SslConnectionError(RemoveConnection(s, Handshake(id)), id)
  }

  function SessionGone(s: State, id: nat): State {
    RemoveConnection(s.(live := s.live - {id}), Session(id))
  }

  function AcceptStopped(s: State): State {
    var t := s.(stopped := true);
    if s.phase == Done then t else CheckDrained(t.(phase := Draining))
  }

  /** Dropping an unlinked connection: a handshake reports an error. */
  function DropUnlinked(s: State, c: Conn): State {
    match c
    case Handshake(id) => HandshakeError(s, id)
    case Session(id) => s.(live := s.live - {id})
  }

  /** The manager's loop over its list. */
  function DropEach(s: State): State
    requires s.force
    decreases if s.manager.Some? then |s.manager.value| else 0
  {
    if s.manager.None? || s.manager.value == [] then s
    else DropEach(DropUnlinked(s.(manager := Some(s.manager.value[1..])), s.manager.value[0]))
  }

  function DropAllConnections(s: State): State {
    var t := if s.manager.None? then s
             else
               var u := CheckIfDraining(DropEach(s.(force := true)));
               u.(manager := None, fault := u.fault || u.manager != Some([]));
    t.(phase := Done, drained := t.drained + 1, fault := t.fault || t.numPending != 0)
  }

  /** Dropping the front connection, if there is one. */
  function DropOne(s: State): State {
    if List(s) == [] then s else DropUnlinked(RemoveConnection(s, List(s)[0]), List(s)[0])
  }

  function DropConnections(s: State, n: nat): State {
    if s.manager.None? then s else Repeat(DropOne, s.(force := true), n)
  }

  datatype Event =
    | Tls(id: nat, max: nat)
    | Plain(session: Option<nat>)
    | Ready(id: nat, session: Option<nat>)
    | Error(id: nat)
    | Gone(id: nat)
    | Reorder(list: seq<Conn>)
    | Stop
    | DropAll
    | Drop(n: nat)

  /** The server socket stops accepting when it says so, a handshake reports while it is
      open, and ids are fresh. */
  ghost predicate Enabled(s: State, e: Event) {
    match e
    case Tls(id, _) => !s.stopped && id !in s.open
    case Plain(session) => !s.stopped && (session.Some? ==> session.value !in s.live)
    case Ready(id, session) => id in s.open && (session.Some? ==> session.value !in s.live)
    case Error(id) => id in s.open
    case Gone(id) => id in s.live
    case Reorder(l) => s.manager.Some? && Distinct(l) && forall c :: c in l <==> c in s.manager.value
    case Stop => !s.stopped
    case DropAll => true
    case Drop(_) => true
  }

  function Step(s: State, e: Event): State {
    match e
    case Tls(id, max) => AcceptTls(s, id, max)
    case Plain(session) => ConnectionReady(s, session)
    case Ready(id, session) => HandshakeReady(s, id, session)
    case Error(id) => HandshakeError(s, id)
    case Gone(id) => SessionGone(s, id)
    case Reorder(l) => s.(manager := Some(l))
    case Stop => AcceptStopped(s)
    case DropAll => DropAllConnections(s)
    case Drop(n) => DropConnections(s, n)
  }

  ghost predicate IsRun(states: seq<State>, es: seq<Event>) {
    && |states| == |es| + 1
    && states[0] == Initial()
    && forall i :: 0 <= i < |es| ==> Enabled(states[i], es[i]) && states[i + 1] == Step(states[i], es[i])
  }

  // ---------------------------------------------------------------- invariant

  /** The list links exactly the open handshakes and the live sessions. */
  ghost predicate Linked(l: seq<Conn>, open: set<nat>, live: set<nat>) {
    && Distinct(l)
    && (forall id :: Handshake(id) in l <==> id in open)
    && (forall id :: Session(id) in l <==> id in live)
  }

  ghost predicate Counted(s: State) {
    && s.numPending == |s.open|
    && Linked(List(s), s.open, s.live)
  }

  /** The phase follows the manager, and a drain that has nothing left is over, unless
      connections have been dropped. */
  ghost predicate Phased(s: State) {
    && (s.phase == Done <==> s.manager.None?)
    && (s.phase == Draining ==> s.manager != Some([]) || s.force)
    && (s.phase == Draining ==> s.stopped)
    && (s.stopped ==> s.phase != Running)
  }

  ghost predicate Inv(s: State) {
    Counted(s) && Phased(s) && !s.fault
  }

  /** A TLS connection is accepted by an acceptor that is done. */
  predicate TooLate(s: State, e: Event) {
    e.Tls? && s.phase == Done && s.numPending + 1 <= e.max
  }

  // ---------------------------------------------------------------- every step keeps it

  lemma CheckInv(s: State)
    requires Counted(s) && !s.fault
    requires Phased(s.(force := true))
    ensures Inv(CheckIfDraining(s))
  {
    if s.numPending != 0 {
      var id :| id in s.open;
      assert Handshake(id) in List(s);
    }
  }

  lemma LinkFront(l: seq<Conn>, open: set<nat>, live: set<nat>, c: Conn)
    requires Linked(l, open, live) && c !in l
    ensures c.Handshake? ==> Linked([c] + l, open + {c.id}, live)
    ensures c.Session? ==> Linked([c] + l, open, live + {c.id})
  {}

  lemma Unlink(l: seq<Conn>, open: set<nat>, live: set<nat>, c: Conn)
    requires Linked(l, open, live) && c in l
    ensures c.Handshake? ==> Linked(Erase(l, c), open - {c.id}, live)
    ensures c.Session? ==> Linked(Erase(l, c), open, live - {c.id})
  {
    EraseMembers(l, c);
  }

  /** Unlinking a handshake never releases the manager, even if it was the last connection:
      its count is still held. */
  lemma UnlinkHoldsManager(s: State, id: nat)
    requires Inv(s) && id in s.open
    ensures s.manager.Some? && Handshake(id) in s.manager.value
    ensures RemoveConnection(s, Handshake(id)) == s.(manager := Some(Erase(s.manager.value, Handshake(id))))
  {
    assert Handshake(id) in List(s);
  }

  lemma ReportInv(s: State, id: nat)
    requires Inv(s) && id in s.open
    ensures var t := CountDown(RemoveConnection(s, Handshake(id)), id);
            t.manager.Some? && Counted(t) && !t.fault && Phased(t.(force := true))
  {
    UnlinkHoldsManager(s, id);
    Unlink(List(s), s.open, s.live, Handshake(id));
  }

  lemma ReadyInv(s: State, id: nat, session: Option<nat>)
    requires Inv(s) && Enabled(s, Ready(id, session))
    ensures Inv(HandshakeReady(s, id, session))
  {
    ReportInv(s, id);
    var t := CountDown(RemoveConnection(s, Handshake(id)), id);
    if session.Some? { LinkFront(List(t), t.open, t.live, Session(session.value)); }
    CheckInv(ConnectionReady(t, session));
  }

  lemma TlsInv(s: State, id: nat, max: nat)
    requires Inv(s) && Enabled(s, Tls(id, max))
    ensures Inv(AcceptTls(s, id, max)) <==> !TooLate(s, Tls(id, max))
  {
    if s.numPending + 1 > max {
      assert s.open + {id} - {id} == s.open;
    } else if s.manager.Some? {
      LinkFront(List(s), s.open, s.live, Handshake(id));
    }
  }

  lemma GoneInv(s: State, id: nat)
    requires Inv(s) && id in s.live
    ensures Inv(SessionGone(s, id))
  {
    assert Session(id) in List(s);
    Unlink(List(s), s.open, s.live, Session(id));
    CheckInv(s.(live := s.live - {id}, manager := Some(Erase(List(s), Session(id)))));
  }

  lemma StopInv(s: State)
    requires Inv(s) && !s.stopped
    ensures Inv(AcceptStopped(s))
  {
    if s.phase != Done { CheckInv(s.(stopped := true, phase := Draining)); }
  }

  /** Dropping the front connection, once it is off the list. */
  lemma DropFront(s: State)
    requires Counted(s) && !s.fault && s.force && List(s) != []
    ensures var t := DropUnlinked(s.(manager := Some(List(s)[1..])), List(s)[0]);
            && Counted(t) && !t.fault
            && t == s.(manager := Some(List(s)[1..]), numPending := t.numPending, open := t.open, live := t.live)
  {
    var l, c := List(s), List(s)[0];
    assert Index(l, c) == 0 && Erase(l, c) == l[1..];
    EraseMembers(l, c);
    Unlink(l, s.open, s.live, c);
    assert c in l;
  }

  lemma NothingLinked(l: seq<Conn>, open: set<nat>, live: set<nat>)
    requires Linked(l, open, live)
    ensures l == [] <==> open == {} && live == {}
  {
    if l != [] {
      assert l[0] in l && (l[0] == Handshake(l[0].id) || l[0] == Session(l[0].id));
    } else {
      assert forall id :: id in open ==> Handshake(id) in l;
      assert forall id :: id in live ==> Session(id) in l;
    }
  }

  lemma {:induction false} DropEachEmpties(s: State)
    requires Counted(s) && !s.fault && s.force && s.manager.Some?
    ensures DropEach(s) == s.(manager := Some([]), numPending := 0, open := {}, live := {})
    decreases |List(s)|
  {
    if List(s) != [] {
      DropFront(s);
      DropEachEmpties(DropUnlinked(s.(manager := Some(List(s)[1..])), List(s)[0]));
    } else {
      NothingLinked(List(s), s.open, s.live);
    }
  }

  lemma PopFront(s: State)
    requires s.force && List(s) != []
    ensures RemoveConnection(s, List(s)[0]) == s.(manager := Some(List(s)[1..]))
  {
    assert Erase(List(s), List(s)[0]) == List(s)[1..];
  }

  lemma DropOneInv(s: State)
    requires Inv(s) && s.force
    ensures Inv(DropOne(s)) && SameLife(s, DropOne(s))
  {
    if List(s) != [] {
      PopFront(s);
      DropFront(s);
    }
  }

  predicate SameLife(s: State, t: State) {
    t.phase == s.phase && t.drained == s.drained && t.force == s.force
  }

  lemma DropInv(s: State, n: nat)
    requires Inv(s)
    ensures Inv(DropConnections(s, n)) && SameLife(s.(force := s.force || s.phase != Done), DropConnections(s, n))
  {
    if s.manager.Some? {
      var s' := s.(force := true);
      var p := (t: State) => Inv(t) && SameLife(s', t);
      forall t | p(t) ensures p(DropOne(t)) { DropOneInv(t); }
      RepeatKeeps(DropOne, p, s', n);
    }
  }

  /** Dropping everything ends in kDone with nothing left, and its CHECKs hold. */
  lemma DropAllEnds(s: State)
    requires Inv(s)
    ensures var t := DropAllConnections(s);
            && Inv(t) && t.phase == Done && t.drained == s.drained + 1
            && t.open == {} && t.live == {}
  {
    if s.manager.Some? {
      DropEachEmpties(s.(force := true));
    } else {
      NothingLinked(List(s), s.open, s.live);
    }
  }

  lemma InvStep(s: State, e: Event)
    requires Inv(s) && Enabled(s, e)
    ensures Inv(Step(s, e)) <==> !TooLate(s, e)
  {
    match e
    case Tls(id, max) => TlsInv(s, id, max);
    case Plain(session) =>
      if session.Some? { LinkFront(List(s), s.open, s.live, Session(session.value)); }
    case Ready(id, session) => ReadyInv(s, id, session);
    case Error(id) =>
      ReportInv(s, id);
      CheckInv(CountDown(RemoveConnection(s, Handshake(id)), id));
    case Gone(id) => GoneInv(s, id);
    case Reorder(l) => ReorderInv(s, l);
    case Stop => StopInv(s);
    case DropAll => DropAllEnds(s);
    case Drop(n) => DropInv(s, n);
  }

  lemma ReorderInv(s: State, l: seq<Conn>)
    requires Inv(s) && Enabled(s, Reorder(l))
    ensures Inv(s.(manager := Some(l)))
  {
    if s.manager.value != [] { assert s.manager.value[0] in l; }
  }

  // ---------------------------------------------------------------- who is managed

  lemma DropOnePops(s: State)
    requires Inv(s) && s.force
    ensures List(DropOne(s)) == if List(s) == [] then [] else List(s)[1..]
  {
    if List(s) != [] {
      PopFront(s);
      DropFront(s);
    }
  }

  lemma DropsFromFront(s: State, n: nat)
    requires Inv(s) && s.force
    ensures List(Repeat(DropOne, s, n)) == List(s)[if n < |List(s)| then n else |List(s)|..]
  {
    var p := (t: State) => Inv(t) && t.force;
    forall t | p(t) ensures p(DropOne(t)) && List(DropOne(t)) == if List(t) == [] then [] else List(t)[1..] {
      DropOneInv(t);
      DropOnePops(t);
    }
    RepeatPops(DropOne, p, List, s, n);
  }

  /** A ready transport becomes a session exactly if the application makes it one, and only while
      the acceptor is running. */
  predicate BecomesSession(s: State, session: Option<nat>, c: Conn) {
    s.phase == Running && session.Some? && c == Session(session.value)
  }

  /** Who is managed after an event: a handshake from its acceptance, unless there are too many,
      until it reports or is dropped, and a session from its transport's being ready until it
      goes or is dropped. */
  ghost predicate Managed(s: State, e: Event, s': State, c: Conn) {
    c in List(s') <==>
    match e
    case Tls(id, max) => c in List(s) || (c == Handshake(id) && |s.open| < max)
    case Plain(session) => c in List(s) || BecomesSession(s, session, c)
    case Ready(id, session) => (c in List(s) && c != Handshake(id)) || BecomesSession(s, session, c)
    case Error(id) => c in List(s) && c != Handshake(id)
    case Gone(id) => c in List(s) && c != Session(id)
    case Reorder(_) => c in List(s)
    case Stop => c in List(s)
    case DropAll => false
    case Drop(n) => c in List(s)[if n < |List(s)| then n else |List(s)|..]
  }

  lemma CheckKeepsList(s: State)
    ensures List(CheckIfDraining(s)) == List(s) && List(CheckDrained(s)) == List(s)
  {}

  lemma RemoveMembers(s: State, c: Conn, x: Conn)
    requires Distinct(List(s))
    ensures x in List(RemoveConnection(s, c)) <==> x in List(s) && x != c
  {
    if c in List(s) { EraseMembers(List(s), c); }
  }

  lemma StepManages(s: State, e: Event, c: Conn)
    requires Inv(s) && Enabled(s, e) && !TooLate(s, e)
    ensures Managed(s, e, Step(s, e), c)
  {
    match e
    case Tls(id, max) => CheckKeepsList(CountDown(CountUp(s, id), id));
    case Plain(_) =>
    case Ready(id, session) =>
      RemoveMembers(s, Handshake(id), c);
      ReportInv(s, id);
      UnlinkHoldsManager(s, id);
      CheckKeepsList(ConnectionReady(CountDown(RemoveConnection(s, Handshake(id)), id), session));
    case Error(id) =>
      RemoveMembers(s, Handshake(id), c);
      UnlinkHoldsManager(s, id);
      CheckKeepsList(CountDown(RemoveConnection(s, Handshake(id)), id));
    case Gone(id) => RemoveMembers(s.(live := s.live - {id}), Session(id), c);
    case Reorder(_) =>
    case Stop => CheckKeepsList(s.(stopped := true, phase := Draining));
    case DropAll => DropAllEnds(s);
    case Drop(n) => if s.manager.Some? { DropsFromFront(s.(force := true), n); }
  }

  /** No TLS connection is accepted once the acceptor is done. */
  ghost predicate InTime(states: seq<State>, es: seq<Event>) {
    |states| == |es| + 1 && forall i :: 0 <= i < |es| ==> !TooLate(states[i], es[i])
  }

  lemma {:induction false} InvInEveryRun(states: seq<State>, es: seq<Event>, k: nat)
    requires IsRun(states, es) && InTime(states, es) && k < |states|
    ensures Inv(states[k])
  {
    if k > 0 {
      InvInEveryRun(states, es, k - 1);
      InvStep(states[k - 1], es[k - 1]);
    }
  }

  // ---------------------------------------------------------------- main results

  /** In every run the count is the number of handshakes begun and not reported, they are
      linked in a manager that is still there, and no CHECK fails. */
  lemma PendingCount(states: seq<State>, es: seq<Event>, k: nat)
    requires IsRun(states, es) && InTime(states, es) && k < |states|
    ensures var s := states[k];
            && !s.fault
            && s.numPending == |s.open|
            && (forall id :: id in s.open ==> s.manager.Some? && Handshake(id) in s.manager.value)
            && (forall id :: id in s.live ==> s.manager.Some? && Session(id) in s.manager.value)
  {
    InvInEveryRun(states, es, k);
    var s := states[k];
    assert forall id :: id in s.open ==> Handshake(id) in List(s);
    assert forall id :: id in s.live ==> Session(id) in List(s);
  }

  /** An acceptor that is done has no handshake and no session left. */
  lemma DoneMeansDrained(states: seq<State>, es: seq<Event>, k: nat)
    requires IsRun(states, es) && InTime(states, es) && k < |states| && states[k].phase == Done
    ensures states[k].open == {} && states[k].live == {} && states[k].numPending == 0
  {
    InvInEveryRun(states, es, k);
    NothingLinked(List(states[k]), states[k].open, states[k].live);
  }

  /** An accepted connection is handled safely exactly if the acceptor is not done. */
  lemma LateAcceptFaultsIff(states: seq<State>, es: seq<Event>, k: nat)
    requires IsRun(states, es) && k < |es| && es[k].Tls?
    requires InTime(states[..k + 1], es[..k])
    ensures states[k + 1].fault <==> TooLate(states[k], es[k])
  {
    assert IsRun(states[..k + 1], es[..k]);
    InvInEveryRun(states[..k + 1], es[..k], k);
    InvStep(states[k], es[k]);
  }

  /** Such an accept: a forced stop, and then a connection. */
  lemma LateAccept() returns (states: seq<State>, es: seq<Event>)
    ensures IsRun(states, es) && es == [DropAll, Tls(0, 1)] && states[2].fault
  {
    es := [DropAll, Tls(0, 1)];
    var s1 := Step(Initial(), DropAll);
    states := [Initial(), s1, Step(s1, Tls(0, 1))];
  }

  /** Connections have been dropped at some point. */
  ghost predicate Dropped(states: seq<State>, es: seq<Event>, k: nat)
    requires |states| == |es| + 1 && k < |states|
  {
    exists i :: 0 <= i < k && es[i].Drop? && states[i].phase != Done
  }

  ghost predicate DroppedAll(es: seq<Event>, k: nat)
    requires k <= |es|
  {
    exists i :: 0 <= i < k && es[i] == DropAll
  }

  /** Every step but the two drops leaves the flag alone, and only an acceptor without it
      drains to the end. */
  lemma ForceStep(s: State, e: Event)
    requires Inv(s) && Enabled(s, e) && e != DropAll && (s.phase == Done ==> !s.force)
    ensures Step(s, e).force <==> s.force || (e.Drop? && s.phase != Done)
    ensures Step(s, e).phase == Done ==> !Step(s, e).force
  {
    match e
    case Drop(n) => DropInv(s, n);
    case _ =>
  }

  lemma {:induction false} ForceIff(states: seq<State>, es: seq<Event>, k: nat)
    requires IsRun(states, es) && InTime(states, es) && k < |states| && !DroppedAll(es, k)
    ensures states[k].force <==> Dropped(states, es, k)
    ensures states[k].phase == Done ==> !states[k].force
  {
    if k > 0 {
      ForceIff(states, es, k - 1);
      InvInEveryRun(states, es, k - 1);
      ForceStep(states[k - 1], es[k - 1]);
    }
  }

  /** A stopped acceptor with nothing left is done, exactly if dropConnections was not called
      before; otherwise only dropAllConnections ends its draining. */
  lemma DrainEndsIff(states: seq<State>, es: seq<Event>, k: nat)
    requires IsRun(states, es) && InTime(states, es) && k < |states| && !DroppedAll(es, k)
    requires states[k].stopped && states[k].open == {} && states[k].live == {}
    ensures states[k].phase == Done <==> !Dropped(states, es, k)
  {
    InvInEveryRun(states, es, k);
    ForceIff(states, es, k);
    NothingLinked(List(states[k]), states[k].open, states[k].live);
  }

  /** Such a drain: connections are dropped, though there are none, and then accepting stops. */
  lemma StuckDrain() returns (states: seq<State>, es: seq<Event>)
    ensures IsRun(states, es) && es == [Drop(0), Stop]
    ensures states[2].stopped && states[2].manager == Some([]) && states[2].numPending == 0
    ensures states[2].phase == Draining
  {
    es := [Drop(0), Stop];
    var s1 := Step(Initial(), Drop(0));
    states := [Initial(), s1, Step(s1, Stop)];
  }

  /** How often everything was dropped from an acceptor that was already done. */
  function LateDrops(states: seq<State>, es: seq<Event>, k: nat): nat
    requires k <= |es| < |states|
  {
    if k == 0 then 0
    else LateDrops(states, es, k - 1) + (if es[k - 1] == DropAll && states[k - 1].phase == Done then 1 else 0)
  }

  lemma DrainedStep(s: State, e: Event)
    requires Inv(s) && Enabled(s, e) && !TooLate(s, e)
    ensures s.phase == Done ==> Step(s, e).phase == Done
    ensures Step(s, e).drained == s.drained +
              (if e == DropAll || (s.phase != Done && Step(s, e).phase == Done) then 1 else 0)
  {
    match e
    case DropAll => DropAllEnds(s);
    case Drop(n) => DropInv(s, n);
    case _ =>
  }

  /** onConnectionsDrained is called once when the acceptor becomes done, and again whenever
      everything is dropped after that. */
  lemma {:induction false} DrainedOnce(states: seq<State>, es: seq<Event>, k: nat)
    requires IsRun(states, es) && InTime(states, es) && k < |states|
    ensures states[k].drained == (if states[k].phase == Done then 1 else 0) + LateDrops(states, es, k)
  {
    if k > 0 {
      DrainedOnce(states, es, k - 1);
      InvInEveryRun(states, es, k - 1);
      DrainedStep(states[k - 1], es[k - 1]);
      if es[k - 1] == DropAll { DropAllEnds(states[k - 1]); }
    }
  }
}
