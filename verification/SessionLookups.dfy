/** SSLSessionCacheManager: session lookups that go to an external cache are coalesced, and
    the sockets waiting for one answer are restarted from inside the handling of it. */
module SessionLookups {
  import opened CursorList

  datatype Id = Id(bytes: string)
  type Socket = nat
  /** An SSL_SESSION object; a restored session is always a new object. */
  type Session = nat

  const MIN_SESSION_ID_LENGTH: nat := 16

  function Count<T>(m: map<T, nat>, k: T): nat {
    if k in m then m[k] else 0
  }

  function Bump<T>(m: map<T, nat>, k: T): map<T, nat> {
    m[k := Count(m, k) + 1]
  }

  function Lower<T>(m: map<T, nat>, k: T): map<T, nat> {
    m[k := if Count(m, k) == 0 then 0 else Count(m, k) - 1]
  }

  // ---------------------------------------------------------------- sessions

  datatype Sessions = Sessions(
    local: map<Id, Session>,
    refs: map<Session, nat>,        // reference counts of all sessions ever seen
    handed: map<Session, nat>,      // history: references held outside the manager
    held: Option<Session>)          // the session of the answer being handled

  /** A reference to `x` is given to a socket. */
  function HandOut(s: Sessions, x: Session): Sessions {
    s.(refs := Bump(s.refs, x), handed := Bump(s.handed, x))
  }

  /** storeSession takes over a reference and releases the session it displaces. */
  function Store(s: Sessions, id: Id, x: Session): Sessions {
    s.(local := s.local[id := x], refs := if id in s.local then Lower(s.refs, s.local[id]) else s.refs)
  }

  function Hold(s: Sessions, x: Session): Sessions {
    s.(refs := s.refs[x := 1], held := Some(x))
  }

  function StoreHeld(s: Sessions, id: Id): Sessions {
    if s.held.Some? then Store(s.(held := None), id, s.held.value) else s
  }

  /** A full handshake created a session: one reference for the connection, one to store. */
  function Create(s: Sessions, id: Id, x: Session): Sessions {
    Store(s.(refs := s.refs[x := 2], handed := s.handed[x := 1]), id, x)
  }

  function Prune(s: Sessions, id: Id): Sessions
    requires id in s.local
  {
    s.(local := s.local - {id}, refs := Lower(s.refs, s.local[id]))
  }

  function Release(s: Sessions, x: Session): Sessions {
    s.(refs := Lower(s.refs, x), handed := Lower(s.handed, x))
  }

  // ---------------------------------------------------------------- lookups

  datatype PendingLookup = PendingLookup(
    inProgress: bool,
    session: Option<Session>,
    waiters: seq<Socket>,
    initiator: Socket)          // the socket in the external request's context

  /** A running restartSSLAccept: `next` of its sockets have been restarted. */
  datatype Restart = Restart(id: Id, next: nat)

  datatype Lookups = Lookups(
    pending: map<Id, PendingLookup>,
    requests: set<(Id, Socket)>,      // external requests not yet answered
    restart: Option<Restart>,
    // history
    blocked: map<Socket, Id>,         // sockets told to wait, and for what
    blocks: map<Socket, nat>,         // how often each socket was told to wait ...
    restarts: map<Socket, nat>,       // ... and was restarted
    swallowed: set<Id>)               // ids whose answer was an empty buffer

  function Block(l: Lookups, k: Socket, id: Id): Lookups {
    l.(blocked := l.blocked[k := id], blocks := Bump(l.blocks, k))
  }

  /** The first to ask sends the request ... */
  function Ask(l: Lookups, k: Socket, id: Id): Lookups {
    Block(l, k, id).(pending := l.pending[id := PendingLookup(true, None, [], k)],
                     requests := l.requests + {(id, k)})
  }

  /** ... and later ones attach to it. */
  function Attach(l: Lookups, k: Socket, id: Id): Lookups
    requires id in l.pending
  {
    Block(l, k, id).(pending := l.pending[id := l.pending[id].(waiters := l.pending[id].waiters + [k])])
  }

  /** The external cache answered the request of socket `k`, with a session or without. */
  function Answer(l: Lookups, id: Id, k: Socket, session: Option<Session>): Lookups
    requires id in l.pending
  {
    l.(requests := l.requests - {(id, k)},
       pending := l.pending[id := l.pending[id].(inProgress := false, session := session)],
       restart := Some(Restart(id, 0)))
  }

  /** A success without a buffer is dropped: nothing is told to anyone. */
  function Swallow(l: Lookups, id: Id, k: Socket): Lookups {
    l.(requests := l.requests - {(id, k)}, swallowed := l.swallowed + {id})
  }

  /** The sockets an answer wakes: the one that asked, then those that attached. */
  function Sockets(p: PendingLookup): seq<Socket> {
    [p.initiator] + p.waiters
  }

  predicate Restarting(l: Lookups) {
    l.restart.Some? && l.restart.value.id in l.pending
  }

  /** The sockets of the lookup being restarted. */
  function Waking(l: Lookups): seq<Socket>
    requires Restarting(l)
  {
    Sockets(l.pending[l.restart.value.id])
  }

  function WakeNext(l: Lookups): Lookups
    requires Restarting(l) && l.restart.value.next < |Waking(l)|
  {
    var r, k := l.restart.value, Waking(l)[l.restart.value.next];
    l.(restart := Some(r.(next := r.next + 1)), restarts := Bump(l.restarts, k), blocked := l.blocked - {k})
  }

  function Forget(l: Lookups): Lookups
    requires l.restart.Some?
  {
    l.(pending := l.pending - {l.restart.value.id}, restart := None)
  }

  // ---------------------------------------------------------------- the manager

  /** What a call of getSession returned: a session with a reference to it, or none. */
  datatype Reply = Reply(k: Socket, id: Id, session: Option<Session>)

  datatype State = State(external: bool, sessions: Sessions, lookups: Lookups, replies: seq<Reply>)

  function New(external: bool): State {
    State(external, Sessions(map[], map[], map[], None), Lookups(map[], {}, None, map[], map[], map[], {}), [])
  }

  function Miss(s: State, k: Socket, id: Id): State {
    s.(replies := s.replies + [Reply(k, id, None)])
  }

  function Hit(s: State, k: Socket, id: Id, x: Session): State {
    s.(sessions := HandOut(s.sessions, x), replies := s.replies + [Reply(k, id, Some(x))])
  }

  /** getSession.  `wants`: the socket supports waiting; `sent`: the external cache took the
      request. */
  function GetSession(s: State, k: Socket, id: Id, wants: bool, sent: bool): State {
    if |id.bytes| < MIN_SESSION_ID_LENGTH then Miss(s, k, id)
    else if id in s.sessions.local then Hit(s, k, id, s.sessions.local[id])
    else if !s.external || !wants then Miss(s, k, id)
    else if id !in s.lookups.pending then
      if sent then Miss(s.(lookups := Ask(s.lookups, k, id)), k, id) else Miss(s, k, id)
    else if s.lookups.pending[id].inProgress then Miss(s.(lookups := Attach(s.lookups, k, id)), k, id)
    else if s.lookups.pending[id].session.Some? then Hit(s, k, id, s.lookups.pending[id].session.value)
    else Miss(s, k, id)
  }

  datatype Event =
    | Get(k: Socket, id: Id, wants: bool, sent: bool)
    | Answered(id: Id, k: Socket, session: Option<Session>)
    | Swallowed(id: Id, k: Socket)
    | RestartNext
    | RestartedAll
    | Created(id: Id, x: Session)
    | Pruned(id: Id)
    | Released(x: Session)

  /** Answers are asynchronous, so none arrives while another is being handled; a waiting
      socket does nothing until it is restarted.  All else may happen between any two
      restarts, from inside them. */
  predicate Enabled(s: State, e: Event) {
    match e
    case Get(k, _, _, _) => k !in s.lookups.blocked
    case Answered(id, k, session) =>
      && s.lookups.restart.None? && (id, k) in s.lookups.requests && id in s.lookups.pending
      && (session.Some? ==> session.value !in s.sessions.refs)
    case Swallowed(id, k) => s.lookups.restart.None? && (id, k) in s.lookups.requests
    case RestartNext => Restarting(s.lookups) && s.lookups.restart.value.next < |Waking(s.lookups)|
    case RestartedAll => Restarting(s.lookups) && s.lookups.restart.value.next == |Waking(s.lookups)|
    case Created(_, x) => x !in s.sessions.refs
    case Pruned(id) => id in s.sessions.local
    case Released(x) => Count(s.sessions.handed, x) > 0
  }

  function Step(s: State, e: Event): State
    requires Enabled(s, e)
  {
    match e
    case Get(k, id, wants, sent) => GetSession(s, k, id, wants, sent)
    case Answered(id, k, session) =>
      s.(sessions := if session.Some? then Hold(s.sessions, session.value) else s.sessions,
         lookups := Answer(s.lookups, id, k, session))
    case Swallowed(id, k) => s.(lookups := Swallow(s.lookups, id, k))
    case RestartNext => s.(lookups := WakeNext(s.lookups))
    case RestartedAll =>
      // the session is stored only after every socket has been restarted
      s.(sessions := StoreHeld(s.sessions, s.lookups.restart.value.id), lookups := Forget(s.lookups))
    case Created(id, x) => s.(sessions := Create(s.sessions, id, x))
    case Pruned(id) => s.(sessions := Prune(s.sessions, id))
    case Released(x) => s.(sessions := Release(s.sessions, x))
  }

  // ---------------------------------------------------------------- coalescing

  /** The sockets still to be restarted for `id`. */
  function Waiting(l: Lookups, id: Id): seq<Socket> {
    if id !in l.pending then []
    else if l.pending[id].inProgress then Sockets(l.pending[id])
    else if l.restart.Some? && l.restart.value.id == id && l.restart.value.next <= |Sockets(l.pending[id])| then
      Sockets(l.pending[id])[l.restart.value.next..]
    else []
  }

  /** One request per looked-up id, made by its initiator, unless its answer was swallowed; the
      only lookup that is over but not yet removed is the one being handled. */
  ghost predicate OneRequest(l: Lookups) {
    && (forall id, k :: (id, k) in l.requests <==>
          id in l.pending && l.pending[id].inProgress && l.pending[id].initiator == k && id !in l.swallowed)
    && (forall id :: id in l.swallowed ==> id in l.pending && l.pending[id].inProgress)
    && (forall id :: id in l.pending && !l.pending[id].inProgress ==> l.restart.Some? && l.restart.value.id == id)
    && (l.restart.Some? ==>
          Restarting(l) && !l.pending[l.restart.value.id].inProgress && l.restart.value.next <= |Waking(l)|)
  }

  /** `w(id)` are the sockets waiting for `id`: each once, and exactly the blocked ones. */
  ghost predicate Agree(blocked: map<Socket, Id>, w: Id -> seq<Socket>) {
    && (forall k :: k in blocked ==> k in w(blocked[k]))
    && (forall id :: Distinct(w(id)))
    && (forall id, k :: k in w(id) ==> k in blocked && blocked[k] == id)
  }

  function Waits(l: Lookups): Id -> seq<Socket> {
    id => Waiting(l, id)
  }

  /** Those some answer will restart are exactly the blocked sockets. */
  ghost predicate BlockedAreWaiting(l: Lookups) {
    Agree(l.blocked, Waits(l))
  }

  /** Every wait but the current one was ended by exactly one restart. */
  ghost predicate RestartsMatch(l: Lookups) {
    forall k :: Count(l.blocks, k) == Count(l.restarts, k) + if k in l.blocked then 1 else 0
  }

  ghost predicate Coalesced(l: Lookups) {
    OneRequest(l) && BlockedAreWaiting(l) && RestartsMatch(l)
  }

  /** What one more wait for `id` does to who is waiting. */
  lemma OneMoreWaits(blocked: map<Socket, Id>, w: Id -> seq<Socket>, w': Id -> seq<Socket>, k: Socket, id: Id)
    requires Agree(blocked, w) && k !in blocked
    requires w'(id) == w(id) + [k] && forall i :: i != id ==> w'(i) == w(i)
    ensures Agree(blocked[k := id], w')
  {
    assert k !in w(id);
    PushBackPos(w(id), None, k);
    forall i, x | x in w'(i) ensures x in blocked[k := id] && blocked[k := id][x] == i {
      assert x in w(i) || (x == k && i == id);
    }
  }

  lemma OneLessWaits(blocked: map<Socket, Id>, w: Id -> seq<Socket>, w': Id -> seq<Socket>, k: Socket, id: Id)
    requires Agree(blocked, w) && w(id) == [k] + w'(id) && forall i :: i != id ==> w'(i) == w(i)
    ensures Agree(blocked - {k}, w') && k in blocked
  {
    assert k in w(id) && k !in w'(id) by { assert Distinct(w(id)) && w(id)[0] == k && w(id)[1..] == w'(id); }
    assert Distinct(w'(id)) by { assert w(id)[1..] == w'(id); }
    forall x | x in blocked - {k} ensures x in w'(blocked[x]) {
      assert x in w(blocked[x]);
    }
    assert blocked[k] == id;
    forall i, x | x in w'(i) ensures x in blocked - {k} && blocked[x] == i {
      if i == id { assert x in [k] + w'(id); }
      assert x in w(i);
    }
  }

  lemma AskOneRequest(l: Lookups, k: Socket, id: Id)
    requires OneRequest(l) && id !in l.pending
    ensures OneRequest(Ask(l, k, id))
  {
    var l' := Ask(l, k, id);
    assert l.restart.Some? ==> l'.pending[l.restart.value.id] == l.pending[l.restart.value.id];
  }

  lemma AskCoalesced(l: Lookups, k: Socket, id: Id)
    requires Coalesced(l) && k !in l.blocked && id !in l.pending
    ensures Coalesced(Ask(l, k, id))
  {
    var l' := Ask(l, k, id);
    AskOneRequest(l, k, id);
    assert Waiting(l', id) == Waiting(l, id) + [k];
    forall i | i != id ensures Waiting(l', i) == Waiting(l, i) {}
    OneMoreWaits(l.blocked, Waits(l), Waits(l'), k, id);
  }

  lemma AttachOneRequest(l: Lookups, k: Socket, id: Id)
    requires OneRequest(l) && id in l.pending && l.pending[id].inProgress
    ensures OneRequest(Attach(l, k, id))
  {
    var l' := Attach(l, k, id);
    assert l.restart.Some? ==> l'.pending[l.restart.value.id] == l.pending[l.restart.value.id];
  }

  lemma AttachCoalesced(l: Lookups, k: Socket, id: Id)
    requires Coalesced(l) && k !in l.blocked && id in l.pending && l.pending[id].inProgress
    ensures Coalesced(Attach(l, k, id))
  {
    var l' := Attach(l, k, id);
    AttachOneRequest(l, k, id);
    assert Waiting(l', id) == Waiting(l, id) + [k];
    forall i | i != id ensures Waiting(l', i) == Waiting(l, i) {}
    OneMoreWaits(l.blocked, Waits(l), Waits(l'), k, id);
  }

  lemma AnswerCoalesced(l: Lookups, id: Id, k: Socket, session: Option<Session>)
    requires Coalesced(l) && l.restart.None? && (id, k) in l.requests
    ensures Coalesced(Answer(l, id, k, session))
  {
    var l' := Answer(l, id, k, session);
    assert forall i :: Waits(l')(i) == Waits(l)(i);
  }

  lemma SwallowCoalesced(l: Lookups, id: Id, k: Socket)
    requires Coalesced(l) && (id, k) in l.requests
    ensures Coalesced(Swallow(l, id, k))
  {
    var l' := Swallow(l, id, k);
    assert forall i :: Waits(l')(i) == Waits(l)(i);
  }

  lemma WakeCoalesced(l: Lookups)
    requires Coalesced(l) && Restarting(l) && l.restart.value.next < |Waking(l)|
    ensures Waking(l)[l.restart.value.next] in l.blocked
    ensures Coalesced(WakeNext(l))
  {
    var l', id, k := WakeNext(l), l.restart.value.id, Waking(l)[l.restart.value.next];
    forall i ensures Waiting(l, i) == if i == id then [k] + Waiting(l', i) else Waiting(l', i) { WakeWaiting(l, i); }
    OneLessWaits(l.blocked, Waits(l), Waits(l'), k, id);
    WakeOneRequest(l);
    WakeRestarts(l);
  }

  lemma WakeWaiting(l: Lookups, i: Id)
    requires OneRequest(l) && Restarting(l) && l.restart.value.next < |Waking(l)|
    ensures var r, w := l.restart.value, Waiting(WakeNext(l), i);
            Waiting(l, i) == if i == r.id then [Waking(l)[r.next]] + w else w
  {}

  lemma WakeOneRequest(l: Lookups)
    requires OneRequest(l) && Restarting(l) && l.restart.value.next < |Waking(l)|
    ensures OneRequest(WakeNext(l))
  {}

  lemma WakeRestarts(l: Lookups)
    requires RestartsMatch(l) && Restarting(l) && l.restart.value.next < |Waking(l)|
    requires Waking(l)[l.restart.value.next] in l.blocked
    ensures RestartsMatch(WakeNext(l))
  {}

  lemma ForgetCoalesced(l: Lookups)
    requires Coalesced(l) && Restarting(l) && l.restart.value.next == |Waking(l)|
    ensures Coalesced(Forget(l))
  {
    var l' := Forget(l);
    assert forall i :: Waits(l')(i) == Waits(l)(i);
  }

  // ---------------------------------------------------------------- reference counts

  function Owned(s: Sessions, x: Session): nat {
    Count(s.handed, x) + (if x in s.local.Values then 1 else 0) + (if s.held == Some(x) then 1 else 0)
  }

  ghost predicate OneEntryEach(s: Sessions) {
    && (forall a, b :: a in s.local && b in s.local && s.local[a] == s.local[b] ==> a == b)
    && (s.held.Some? ==> s.held.value !in s.local.Values)
  }

  /** A session is counted once for the local cache entry, once while its answer is being
      handled, and once for every reference handed out. */
  ghost predicate RefsOk(s: Sessions) {
    (forall x :: Count(s.refs, x) == Owned(s, x)) && OneEntryEach(s)
  }

  /** Storing a session for which one reference is yet unaccounted. */
  lemma StoreRefs(s: Sessions, id: Id, x: Session)
    requires forall y :: Count(s.refs, y) == Owned(s, y) + if y == x then 1 else 0
    requires OneEntryEach(s) && x !in s.local.Values && s.held != Some(x)
    ensures RefsOk(Store(s, id, x))
  {
    var s' := Store(s, id, x);
    forall y ensures y in s'.local.Values <==> y == x || (y in s.local.Values && !(id in s.local && s.local[id] == y)) {
      assert s'.local[id] == x;
      if y in s.local.Values {
        var a :| a in s.local && s.local[a] == y;
        if a != id { assert s'.local[a] == y; }
      }
    }
    forall y ensures Count(s'.refs, y) == Owned(s', y) {
      assert Count(s.refs, y) == Owned(s, y) + if y == x then 1 else 0;
    }
  }

  lemma PruneRefs(s: Sessions, id: Id)
    requires RefsOk(s) && id in s.local
    ensures RefsOk(Prune(s, id))
  {
    var s' := Prune(s, id);
    forall y ensures y in s'.local.Values <==> y in s.local.Values && y != s.local[id] {
      if y in s.local.Values && y != s.local[id] {
        var a :| a in s.local && s.local[a] == y;
        assert s'.local[a] == y;
      }
    }
    forall y ensures Count(s'.refs, y) == Owned(s', y) {
      assert Count(s.refs, y) == Owned(s, y);
    }
  }

  lemma HandOutRefs(s: Sessions, x: Session)
    requires RefsOk(s)
    ensures RefsOk(HandOut(s, x))
  {
    forall y ensures Count(HandOut(s, x).refs, y) == Owned(HandOut(s, x), y) {
      assert Count(s.refs, y) == Owned(s, y);
    }
  }

  lemma ReleaseRefs(s: Sessions, x: Session)
    requires RefsOk(s) && Count(s.handed, x) > 0
    ensures RefsOk(Release(s, x))
  {
    forall y ensures Count(Release(s, x).refs, y) == Owned(Release(s, x), y) {
      assert Count(s.refs, y) == Owned(s, y);
    }
  }

  /** A session object never seen before is owned by nobody. */
  lemma UnseenIsUnowned(s: Sessions, x: Session)
    requires RefsOk(s) && x !in s.refs
    ensures Count(s.handed, x) == 0 && x !in s.local.Values && s.held != Some(x)
  {
    assert Count(s.refs, x) == Owned(s, x);
  }

  lemma HoldRefs(s: Sessions, x: Session)
    requires RefsOk(s) && x !in s.refs && s.held.None?
    ensures RefsOk(Hold(s, x))
  {
    UnseenIsUnowned(s, x);
    forall y ensures Count(Hold(s, x).refs, y) == Owned(Hold(s, x), y) {
      assert Count(s.refs, y) == Owned(s, y);
    }
  }

  lemma StoreHeldRefs(s: Sessions, id: Id)
    requires RefsOk(s)
    ensures RefsOk(StoreHeld(s, id))
  {
    if s.held.Some? {
      var s1, x := s.(held := None), s.held.value;
      forall y ensures Count(s1.refs, y) == Owned(s1, y) + if y == x then 1 else 0 {
        assert Count(s.refs, y) == Owned(s, y);
      }
      StoreRefs(s1, id, x);
    }
  }

  lemma CreateRefs(s: Sessions, id: Id, x: Session)
    requires RefsOk(s) && x !in s.refs
    ensures RefsOk(Create(s, id, x))
  {
    UnseenIsUnowned(s, x);
    var s1 := s.(refs := s.refs[x := 2], handed := s.handed[x := 1]);
    forall y ensures Count(s1.refs, y) == Owned(s1, y) + if y == x then 1 else 0 {
      assert Count(s.refs, y) == Owned(s, y);
    }
    StoreRefs(s1, id, x);
  }

  // ---------------------------------------------------------------- runs

  /** The session held is that of the answer being handled. */
  ghost predicate HeldIsAnswer(s: State) {
    && (s.lookups.restart.None? ==> s.sessions.held.None?)
    && (forall id :: id in s.lookups.pending ==>
          s.lookups.pending[id].session ==
            if s.lookups.pending[id].inProgress then None else s.sessions.held)
  }

  ghost predicate Inv(s: State) {
    Coalesced(s.lookups) && RefsOk(s.sessions) && HeldIsAnswer(s)
  }

  lemma AskInv(s: State, k: Socket, id: Id)
    requires Inv(s) && k !in s.lookups.blocked && id !in s.lookups.pending
    ensures Inv(s.(lookups := Ask(s.lookups, k, id)))
  {
    AskCoalesced(s.lookups, k, id);
  }

  lemma AttachInv(s: State, k: Socket, id: Id)
    requires Inv(s) && k !in s.lookups.blocked && id in s.lookups.pending && s.lookups.pending[id].inProgress
    ensures Inv(s.(lookups := Attach(s.lookups, k, id)))
  {
    AttachCoalesced(s.lookups, k, id);
  }

  lemma GetInv(s: State, k: Socket, id: Id, wants: bool, sent: bool)
    requires Inv(s) && k !in s.lookups.blocked
    ensures Inv(GetSession(s, k, id, wants, sent))
  {
    if id in s.sessions.local { HandOutRefs(s.sessions, s.sessions.local[id]); }
    if id !in s.lookups.pending {
      AskInv(s, k, id);
    } else if s.lookups.pending[id].inProgress {
      AttachInv(s, k, id);
    } else if s.lookups.pending[id].session.Some? {
      HandOutRefs(s.sessions, s.lookups.pending[id].session.value);
    }
  }

  lemma InvStep(s: State, e: Event)
    requires Inv(s) && Enabled(s, e)
    ensures Inv(Step(s, e))
  {
    match e
    case Get(k, id, wants, sent) => GetInv(s, k, id, wants, sent);
    case Answered(id, k, session) =>
      AnswerCoalesced(s.lookups, id, k, session);
      if session.Some? { HoldRefs(s.sessions, session.value); }
    case Swallowed(id, k) => SwallowCoalesced(s.lookups, id, k);
    case RestartNext => WakeCoalesced(s.lookups);
    case RestartedAll =>
      ForgetCoalesced(s.lookups);
      StoreHeldRefs(s.sessions, s.lookups.restart.value.id);
    case Created(id, x) => CreateRefs(s.sessions, id, x);
    case Pruned(id) => PruneRefs(s.sessions, id);
    case Released(x) => ReleaseRefs(s.sessions, x);
  }

  ghost predicate IsRun(states: seq<State>, es: seq<Event>) {
    && |states| == |es| + 1 && states[0] == New(states[0].external)
    && (forall i :: 0 <= i < |es| ==> Enabled(states[i], es[i]) && states[i + 1] == Step(states[i], es[i]))
  }

  lemma {:induction false} InvInEveryRun(states: seq<State>, es: seq<Event>, i: nat)
    requires IsRun(states, es) && i < |states|
    ensures Inv(states[i])
  {
    if i > 0 {
      InvInEveryRun(states, es, i - 1);
      InvStep(states[i - 1], es[i - 1]);
    }
  }

  /** At any time there is at most one external request for an id, and its answer finds the
      lookup it belongs to: the CHECK in restartSSLAccept holds. */
  lemma OneRequestPerId(states: seq<State>, es: seq<Event>, i: nat, id: Id, k: Socket, l: Socket)
    requires IsRun(states, es) && i < |states| && (id, k) in states[i].lookups.requests
    ensures (id, l) in states[i].lookups.requests ==> l == k
    ensures id in states[i].lookups.pending && states[i].lookups.pending[id].inProgress
  {
    InvInEveryRun(states, es, i);
  }

  /** Every socket is restarted exactly as often as it was told to wait, its current wait
      excepted, and when an answer has been handled nobody waits for its id any more. */
  lemma EveryWaiterIsRestartedOnce(states: seq<State>, es: seq<Event>, i: nat, k: Socket)
    requires IsRun(states, es) && i < |es|
    ensures var l := states[i].lookups;
            Count(l.blocks, k) == Count(l.restarts, k) + if k in l.blocked then 1 else 0
    ensures es[i] == RestartedAll && k in states[i + 1].lookups.blocked ==>
              states[i + 1].lookups.blocked[k] != states[i].lookups.restart.value.id
  {
    InvInEveryRun(states, es, i);
    InvInEveryRun(states, es, i + 1);
    if es[i] == RestartedAll {
      assert Waits(states[i + 1].lookups)(states[i].lookups.restart.value.id) == [];
    }
  }

  /** A socket that waits will be woken by an answer still to come or being handled exactly if
      the answer for its id was not swallowed ... */
  lemma WaiterHasAnAnswerIff(states: seq<State>, es: seq<Event>, i: nat, k: Socket)
    requires IsRun(states, es) && i < |states| && k in states[i].lookups.blocked
    ensures var l, id := states[i].lookups, states[i].lookups.blocked[k];
            id !in l.swallowed <==> (exists m :: (id, m) in l.requests) || (l.restart.Some? && l.restart.value.id == id)
  {
    InvInEveryRun(states, es, i);
    var l, id := states[i].lookups, states[i].lookups.blocked[k];
    assert k in Waits(l)(id);
    if id !in l.swallowed && l.pending[id].inProgress {
      assert (id, l.pending[id].initiator) in l.requests;
    }
  }

  /** `k` waits for an answer that was swallowed, and has been restarted `n` times before. */
  ghost predicate Stuck(s: State, k: Socket, id: Id, n: nat) {
    && k in s.lookups.blocked && s.lookups.blocked[k] == id && id in s.lookups.swallowed
    && Count(s.lookups.restarts, k) == n
  }

  lemma StuckStep(s: State, e: Event, k: Socket, id: Id, n: nat)
    requires Inv(s) && Enabled(s, e) && Stuck(s, k, id, n)
    ensures Stuck(Step(s, e), k, id, n)
  {
    if e == RestartNext {
      var l := s.lookups;
      var woken := Waking(l)[l.restart.value.next];
      assert woken in Waits(l)(l.restart.value.id);
      assert l.blocked[woken] == l.restart.value.id != id;
    }
  }

  lemma {:induction false} StaysStuck(states: seq<State>, k: Socket, id: Id, n: nat, i: nat, j: nat)
    requires i <= j < |states| && Stuck(states[i], k, id, n)
    requires forall m :: i <= m < j && Stuck(states[m], k, id, n) ==> Stuck(states[m + 1], k, id, n)
    ensures Stuck(states[j], k, id, n)
    decreases j
  {
    if i < j {
      StaysStuck(states, k, id, n, i, j - 1);
      assert Stuck(states[j - 1 + 1], k, id, n);
    }
  }

  /** ... for otherwise it waits for good: nothing ever restarts it. */
  lemma SwallowedWaiterIsStuck(states: seq<State>, es: seq<Event>, i: nat, j: nat, k: Socket)
    requires IsRun(states, es) && i <= j < |states| && k in states[i].lookups.blocked
    requires states[i].lookups.blocked[k] in states[i].lookups.swallowed
    ensures k in states[j].lookups.blocked && states[j].lookups.blocked[k] == states[i].lookups.blocked[k]
    ensures Count(states[j].lookups.restarts, k) == Count(states[i].lookups.restarts, k)
  {
    var id, n := states[i].lookups.blocked[k], Count(states[i].lookups.restarts, k);
    forall m | i <= m < j && Stuck(states[m], k, id, n) ensures Stuck(states[m + 1], k, id, n) {
      InvInEveryRun(states, es, m);
      StuckStep(states[m], es[m], k, id, n);
    }
    StaysStuck(states, k, id, n, i, j);
  }

  /** Such a wait: two sockets ask for the same session, and its answer is an empty buffer. */
  lemma TwoWaitForNothing(id: Id, k: Socket, m: Socket) returns (states: seq<State>, es: seq<Event>)
    requires |id.bytes| >= MIN_SESSION_ID_LENGTH && k != m
    ensures IsRun(states, es) && es == [Get(k, id, true, true), Swallowed(id, k), Get(m, id, true, true)]
    ensures var l := states[3].lookups;
            l.blocked == map[k := id, m := id] && id in l.swallowed && l.requests == {} && l.restart.None?
  {
    es := [Get(k, id, true, true), Swallowed(id, k), Get(m, id, true, true)];
    var s0 := New(true);
    var s1 := Step(s0, es[0]);
    var s2 := Step(s1, es[1]);
    states := [s0, s1, s2, Step(s2, es[2])];
  }

  /** A reference count is always the cache entry plus the references handed out, plus one
      while the answer that brought the session is being handled. */
  lemma ReferenceCounts(states: seq<State>, es: seq<Event>, i: nat, x: Session)
    requires IsRun(states, es) && i < |states|
    ensures Count(states[i].sessions.refs, x) == Owned(states[i].sessions, x)
  {
    InvInEveryRun(states, es, i);
  }
}
