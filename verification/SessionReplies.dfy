/** What getSession returns, told from the events alone: sessions that were stored, and the
    session of an answer while those who waited for it are restarted. */
module SessionReplies {
  import opened CursorList
  import opened SessionLookups

  /** The answer given at `a` is being handled at `i`: its sockets are being restarted. */
  ghost predicate Handling(es: seq<Event>, a: nat, i: nat)
    requires i <= |es|
  {
    a < i && es[a].Answered? && forall j :: a < j < i ==> es[j] != RestartedAll
  }

  /** That is what the manager works on then ... */
  lemma {:induction false} AnswerIsHandled(states: seq<State>, es: seq<Event>, a: nat, i: nat)
    requires IsRun(states, es) && i <= |es| && Handling(es, a, i)
    ensures var s := states[i];
            s.lookups.restart.Some? && s.lookups.restart.value.id == es[a].id && s.sessions.held == es[a].session
    decreases i
  {
    InvInEveryRun(states, es, a);
    if a < i - 1 { AnswerIsHandled(states, es, a, i - 1); }
  }

  /** ... and on nothing else. */
  lemma {:induction false} HandlingAnAnswer(states: seq<State>, es: seq<Event>, i: nat) returns (a: nat)
    requires IsRun(states, es) && i <= |es| && states[i].lookups.restart.Some?
    ensures Handling(es, a, i)
  {
    if es[i - 1].Answered? { a := i - 1; } else { a := HandlingAnAnswer(states, es, i - 1); }
  }

  ghost predicate BeingAnswered(es: seq<Event>, i: nat, id: Id)
    requires i <= |es|
  {
    exists a: nat :: Handling(es, a, i) && es[a].id == id
  }

  /** Whether an answer for `id` is being handled shows in the lookup. */
  lemma BeingAnsweredIff(states: seq<State>, es: seq<Event>, i: nat, id: Id)
    requires IsRun(states, es) && i <= |es|
    ensures var l := states[i].lookups;
            && (BeingAnswered(es, i, id) <==> l.restart.Some? && l.restart.value.id == id)
            && (BeingAnswered(es, i, id) <==> id in l.pending && !l.pending[id].inProgress)
  {
    InvInEveryRun(states, es, i);
    if BeingAnswered(es, i, id) {
      var a: nat :| Handling(es, a, i) && es[a].id == id;
      AnswerIsHandled(states, es, a, i);
    }
    if states[i].lookups.restart.Some? {
      var a := HandlingAnAnswer(states, es, i);
      AnswerIsHandled(states, es, a, i);
    }
  }

  /** What is returned is handed out with a reference of its own, and nothing else is. */
  lemma GetTakesAReference(states: seq<State>, es: seq<Event>, i: nat, x: Session)
    requires IsRun(states, es) && i < |es| && es[i].Get?
    ensures |states[i + 1].replies| == |states[i].replies| + 1
    ensures Count(states[i + 1].sessions.handed, x) == Count(states[i].sessions.handed, x) +
              if states[i + 1].replies[|states[i].replies|].session == Some(x) then 1 else 0
  {}

  /** A socket is told to wait exactly if it can, there is an external cache, the session is
      neither cached nor being answered, and someone waits for it already or its own request
      went out. */
  lemma GetBlocksIff(states: seq<State>, es: seq<Event>, i: nat, k: Socket, id: Id, wants: bool, sent: bool)
    requires IsRun(states, es) && i < |es| && es[i] == Get(k, id, wants, sent)
    ensures var s, l := states[i], states[i].lookups;
            k in states[i + 1].lookups.blocked <==>
            && |id.bytes| >= 16 && id !in s.sessions.local && s.external && wants
            && !BeingAnswered(es, i, id)
            && (sent || exists m :: m in l.blocked && l.blocked[m] == id)
  {
    InvInEveryRun(states, es, i);
    BeingAnsweredIff(states, es, i, id);
    var l := states[i].lookups;
    if id in l.pending && l.pending[id].inProgress {
      var m := l.pending[id].initiator;
      assert m in Waits(l)(id);
      assert m in l.blocked && l.blocked[m] == id;
    }
    forall m | m in l.blocked && l.blocked[m] == id ensures id in l.pending { assert m in Waits(l)(id); }
  }

  // ---------------------------------------------------------------- what the cache holds

  /** The j-th event stores `x` for `id`: a full handshake made it, or the answer that brought it
      has been handled. */
  ghost predicate Stores(es: seq<Event>, j: nat, id: Id, x: Session)
    requires j < |es|
  {
    || es[j] == Created(id, x)
    || (es[j] == RestartedAll && exists a: nat :: Handling(es, a, j) && es[a].id == id && es[a].session == Some(x))
  }

  ghost predicate Displaces(es: seq<Event>, j: nat, id: Id)
    requires j < |es|
  {
    es[j] == Pruned(id) || exists x :: Stores(es, j, id, x)
  }

  /** What a step makes of the entry of `id`. */
  lemma EntryNext(states: seq<State>, es: seq<Event>, i: nat, id: Id)
    requires IsRun(states, es) && i < |es|
    ensures var m, m' := states[i].sessions.local, states[i + 1].sessions.local;
            && (forall x :: Stores(es, i, id, x) ==> id in m' && m'[id] == x)
            && (es[i] == Pruned(id) ==> id !in m')
            && (!Displaces(es, i, id) ==> (id in m' <==> id in m) && (id in m' ==> m'[id] == m[id]))
  {
    if es[i] == RestartedAll {
      var a := HandlingAnAnswer(states, es, i);
      AnswerIsHandled(states, es, a, i);
      forall b: nat | Handling(es, b, i) ensures es[b].id == es[a].id && es[b].session == es[a].session {
        AnswerIsHandled(states, es, b, i);
      }
      if es[a].session.Some? { assert Stores(es, i, es[a].id, es[a].session.value); }
    } else if es[i].Created? {
      assert Stores(es, i, es[i].id, es[i].x);
    }
  }

  /** `x` was stored for `id` before `i`, and has been neither replaced nor pruned since. */
  ghost predicate StoredLast(es: seq<Event>, i: nat, id: Id, x: Session)
    requires i <= |es|
  {
    exists j: nat :: j < i && Stores(es, j, id, x) && KeptSince(es, j, i, id)
  }

  ghost predicate KeptSince(es: seq<Event>, j: nat, i: nat, id: Id)
    requires i <= |es|
  {
    forall m :: j < m < i ==> !Displaces(es, m, id)
  }

  lemma StoredNext(es: seq<Event>, i: nat, id: Id, x: Session)
    requires i < |es|
    ensures StoredLast(es, i + 1, id, x) <==>
            Stores(es, i, id, x) || (StoredLast(es, i, id, x) && !Displaces(es, i, id))
  {
    if Stores(es, i, id, x) { assert KeptSince(es, i, i + 1, id); }
    if StoredLast(es, i, id, x) && !Displaces(es, i, id) {
      var j: nat :| j < i && Stores(es, j, id, x) && KeptSince(es, j, i, id);
      assert KeptSince(es, j, i + 1, id);
    }
    if StoredLast(es, i + 1, id, x) {
      var j: nat :| j < i + 1 && Stores(es, j, id, x) && KeptSince(es, j, i + 1, id);
      if j < i { assert KeptSince(es, j, i, id); }
    }
  }

  /** The cached session of an id is the one last stored for it, until it is pruned. */
  lemma {:induction false} CachedIffStored(states: seq<State>, es: seq<Event>, i: nat, id: Id, x: Session)
    requires IsRun(states, es) && i <= |es|
    ensures id in states[i].sessions.local && states[i].sessions.local[id] == x <==> StoredLast(es, i, id, x)
  {
    if i > 0 {
      CachedIffStored(states, es, i - 1, id, x);
      EntryNext(states, es, i - 1, id);
      StoredNext(es, i - 1, id, x);
    }
  }

  // ---------------------------------------------------------------- what a socket gets

  /** What a socket that can wait, or not, is due: the session last stored for a long enough id,
      and if there is none, that of the answer being handled. */
  ghost predicate Due(external: bool, es: seq<Event>, i: nat, id: Id, wants: bool, r: Option<Session>)
    requires i <= |es|
  {
    if |id.bytes| < 16 then r == None
    else if exists x: Session :: StoredLast(es, i, id, x) then
      forall x: Session :: StoredLast(es, i, id, x) ==> r == Some(x)
    else if external && wants && BeingAnswered(es, i, id) then
      forall a: nat :: Handling(es, a, i) && es[a].id == id ==> r == es[a].session
    else r == None
  }

  lemma GetReturns(states: seq<State>, es: seq<Event>, i: nat)
    requires IsRun(states, es) && i < |es| && es[i].Get?
    ensures |states[i + 1].replies| == |states[i].replies| + 1
    ensures states[i + 1].replies[..|states[i].replies|] == states[i].replies
    ensures var r := states[i + 1].replies[|states[i].replies|];
            r.k == es[i].k && r.id == es[i].id && Due(states[i].external, es, i, r.id, es[i].wants, r.session)
  {
    var s, id := states[i], es[i].id;
    InvInEveryRun(states, es, i);
    BeingAnsweredIff(states, es, i, id);
    forall x: Session ensures StoredLast(es, i, id, x) <==> id in s.sessions.local && s.sessions.local[id] == x {
      CachedIffStored(states, es, i, id, x);
    }
    forall a: nat | Handling(es, a, i) && es[a].id == id ensures s.sessions.held == es[a].session {
      AnswerIsHandled(states, es, a, i);
    }
    if id in s.sessions.local { assert StoredLast(es, i, id, s.sessions.local[id]); }
  }

  /** So when an answer has been handled, whoever asks gets its session, until it is pruned or
      replaced. */
  lemma AnswerIsCached(states: seq<State>, es: seq<Event>, a: nat, j: nat, i: nat)
    requires IsRun(states, es) && a < j < i < |es| && Handling(es, a, j) && es[j] == RestartedAll
    requires es[a].session.Some? && es[i].Get? && es[i].id == es[a].id
    requires |es[a].id.bytes| >= 16 && KeptSince(es, j, i, es[a].id)
    ensures |states[i + 1].replies| == |states[i].replies| + 1
    ensures states[i + 1].replies[|states[i].replies|].session == es[a].session
  {
    GetReturns(states, es, i);
    assert Stores(es, j, es[a].id, es[a].session.value);
    assert StoredLast(es, i, es[a].id, es[a].session.value);
  }
}
