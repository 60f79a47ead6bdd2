/** LRUPersistentCache: a cache used by any number of threads and written back by a syncer
    thread.  Each step is what one lock protects, so a run is any interleaving. */
module PersistentCache {
  import opened CursorList
  import opened LruCache
  import History = LruHistory

  /** Where the syncer is in its loop. */
  datatype Syncer =
    | Waiting
    | Checked                               // found the cache changed since the last persist
    | Holding(pairs: Pairs, version: nat)   // took a snapshot and is about to persist it
    | GivingUp                              // failed nSyncRetries times in a row
    | Forcing(version: nat)                 // read the version it will claim to have persisted

  datatype State = State(
    capacity: nat,
    retries: int,
    cache: Cache,
    version: nat,
    stored: Pairs,
    persisted: nat,
    syncer: Syncer,
    failures: nat,
    gaveUp: bool,       // the persisted version was last set by giving up
    stale: bool)        // the syncer is at work on a layer that has been replaced

  datatype Event =
    | Get(k: Key)
    | Put(k: Key, v: Data)
    | Remove(k: Key)
    | Clear
    | ClearAll                                  // clear(true), taken as one step
    | ClearStored                               // the second half of clear(true) on its own
    | SetPersistence(data: Pairs)               // a new layer, loaded on top of the cache
    | Check
    | Convert(ok: bool)
    | Persist(ok: bool, junk: Pairs)            // a failed persist may leave anything behind
    | ReadVersion
    | ForceVersion

  predicate Enabled(s: State, e: Event) {
    match e
    case Check => s.syncer == Waiting
    case Convert(_) => s.syncer == Checked
    case Persist(_, _) => s.syncer.Holding?
    case ReadVersion => s.syncer == GivingUp
    case ForceVersion => s.syncer.Forcing?
    case _ => true
  }

  function Cleared(s: State): State {
    if s.cache.order == [] then s else s.(cache := EmptyCache, version := s.version + 1)
  }

  function Failed(s: State): State {
    if s.failures + 1 == s.retries then s.(failures := 0, syncer := GivingUp)
    else s.(failures := s.failures + 1, syncer := Waiting, stale := false)
  }

  /** A persist reports to the layer the syncer started with; only a layer that is still in
      use counts. */
  function Persisted(s: State): State
    requires s.syncer.Holding?
  {
    var t := s.(syncer := Waiting, failures := 0, stale := false);
    if s.stale then t else t.(stored := s.syncer.pairs, persisted := s.syncer.version, gaveUp := false)
  }

  function Forced(s: State): State
    requires s.syncer.Forcing?
  {
    var t := s.(syncer := Waiting, stale := false);
    if s.stale then t else t.(persisted := s.syncer.version, gaveUp := true)
  }

  function Replaced(s: State, data: Pairs): State {
    s.(cache := LoadAll(s.capacity, s.cache, data), version := s.version + if data == [] then 0 else 1,
       stored := data, persisted := 0, gaveUp := false, stale := s.syncer != Waiting)
  }

  function Step(s: State, e: Event): State
    requires ValidCache(s.capacity, s.cache) && Enabled(s, e)
  {
    match e
    case Get(k) => s.(cache := Touch(s.cache, k))
    case Put(k, v) => s.(cache := Set(s.capacity, s.cache, k, v), version := s.version + 1)
    case Remove(k) =>
      if k in s.cache.contents then s.(cache := Drop(s.cache, k), version := s.version + 1) else s
    case Clear => Cleared(s)
    case ClearAll => Cleared(s).(stored := [])
    case ClearStored => s.(stored := [])
    case SetPersistence(data) => Replaced(s, data)
    case Check => if s.version != s.persisted then s.(syncer := Checked) else s.(failures := 0)
    case Convert(ok) => if ok then s.(syncer := Holding(ToPairs(s.cache), s.version)) else Failed(s)
    case Persist(ok, junk) => if ok then Persisted(s) else Failed(if s.stale then s else s.(stored := junk))
    case ReadVersion => s.(syncer := Forcing(s.version))
    case ForceVersion => Forced(s)
  }

  /** What a persisted version promises: the stored pairs are the in-memory contents. */
  predicate Agrees(s: State) {
    s.persisted == s.version && !s.gaveUp ==> AsMap(s.stored) == s.cache.contents
  }

  /** What the syncer knows while the layer it works on is still in use. */
  ghost predicate SyncerOk(s: State) {
    match s.syncer
    case Waiting => true
    case Checked => s.persisted < s.version
    case Holding(pairs, v) =>
      && s.persisted < v <= s.version
      && (v == s.version ==> AsMap(pairs) == s.cache.contents)
    case GivingUp => s.persisted < s.version
    case Forcing(v) => s.persisted < s.version && v <= s.version
  }

  ghost predicate Inv(s: State) {
    && ValidCache(s.capacity, s.cache) && 0 < s.version && s.persisted <= s.version && Agrees(s)
    && (s.stale ==> s.syncer != Waiting)
    && (!s.stale ==> SyncerOk(s))
  }

  lemma InvStep(s: State, e: Event)
    requires Inv(s) && Enabled(s, e) && !e.ClearStored?
    ensures Inv(Step(s, e))
  {
    match e
    case Get(k) => TouchValid(s.capacity, s.cache, k);
    case Put(k, v) => SetValid(s.capacity, s.cache, k, v);
    case Remove(k) => DropValid(s.capacity, s.cache, k);
    case ClearAll => assert s.cache.order == [] ==> s.cache.contents == map[];
    case SetPersistence(data) => LoadOnTop(s.capacity, s.cache, data);
    case Convert(ok) => PairsRoundTrip(s.capacity, s.cache);
    case _ =>
  }

  /** To its users the cache is the bounded cache of `LruHistory`: their calls are its operations,
      and the syncer does nothing to it. */
  function OpOf(e: Event): Option<History.Op> {
    match e
    case Get(k) => Some(History.Get(k))
    case Put(k, v) => Some(History.Put(k, v))
    case Remove(k) => Some(History.Remove(k))
    case Clear => Some(History.Clear)
    case ClearAll => Some(History.Clear)
    case _ => None
  }

  lemma CacheFollowsOps(s: State, e: Event)
    requires Inv(s) && Enabled(s, e) && !e.SetPersistence?
    ensures Step(s, e).cache == if OpOf(e).Some? then History.Apply(s.capacity, s.cache, OpOf(e).value) else s.cache
    ensures Step(s, e).version != s.version <==>
            e.Put? || (e.Remove? && e.k in s.cache.contents) || ((e.Clear? || e.ClearAll?) && s.cache.contents != map[])
  {
    if s.cache.order == [] {
      assert s.cache.contents == map[];
    } else {
      assert s.cache.order[0] in s.cache.contents;
    }
    if e.Remove? { assert e.k in s.cache.order <==> e.k in s.cache.contents; }
  }

  /** A new persistence layer's pairs override what is cached, as long as everything fits, and are
      to be synced back together with what was cached before. */
  lemma ReplacedContents(s: State, data: Pairs)
    requires Inv(s)
    ensures var s', all := Step(s, SetPersistence(data)), s.cache.contents + AsMap(data);
            && (s.capacity == 0 || |all| <= s.capacity ==> s'.cache.contents == all)
            && s'.stored == data && s'.persisted < s'.version
  {
    var all := s.cache.contents + AsMap(data);
    assert s.capacity == 0 || |all| <= s.capacity ==> LoadAll(s.capacity, s.cache, data).contents == all by {
      LoadOnTop(s.capacity, s.cache, data);
    }
    assert Step(s, SetPersistence(data)).cache == LoadAll(s.capacity, s.cache, data);
  }

  // ---------------------------------------------------------------- runs

  /** A cache started from what its persistence layer holds: the pairs are loaded and the
      layer is marked as holding the resulting version. */
  function LoadedFrom(capacity: nat, retries: int, data: Pairs): State {
    var version := if data == [] then 1 else 2;
    State(capacity, retries, LoadAll(capacity, EmptyCache, data), version, data, version, Waiting, 0, false, false)
  }

  /** A cache whose persistence layer could not be read, or was never written. */
  function Fresh(capacity: nat, retries: int, junk: Pairs): State {
    State(capacity, retries, EmptyCache, 1, junk, 0, Waiting, 0, false, false)
  }

  /** A load starts the cache in agreement with its store exactly when the store's keys fit
      the capacity. */
  lemma LoadAgreesWithStoreIff(capacity: nat, retries: int, data: Pairs)
    ensures Inv(LoadedFrom(capacity, retries, data)) <==> capacity == 0 || |AsMap(data)| <= capacity
  {
    LoadAgreesIff(capacity, data);
  }

  ghost predicate IsRun(states: seq<State>, es: seq<Event>) {
    && |states| == |es| + 1
    && (forall i :: 0 <= i < |es| ==>
          ValidCache(states[i].capacity, states[i].cache) && Enabled(states[i], es[i])
          && states[i + 1] == Step(states[i], es[i]))
  }

  /** In every interleaving of cache operations with the syncer, whatever the persistence
      layer's failures: when the persisted version is the in-memory version and the syncer
      has not given up, the stored pairs are exactly the in-memory contents. */
  lemma {:induction false} StoreAgreesInEveryRun(
    capacity: nat, retries: int, data: Pairs, states: seq<State>, es: seq<Event>, i: nat)
    requires IsRun(states, es) && ClearStored !in es && i < |states|
    requires || states[0] == Fresh(capacity, retries, data)
             || (states[0] == LoadedFrom(capacity, retries, data) && (capacity == 0 || |AsMap(data)| <= capacity))
    ensures Inv(states[i])
  {
    if i == 0 {
      LoadAgreesWithStoreIff(capacity, retries, data);
    } else {
      StoreAgreesInEveryRun(capacity, retries, data, states, es, i - 1);
      assert es[i - 1] in es;
      InvStep(states[i - 1], es[i - 1]);
    }
  }

  lemma {:induction false} InvInEveryRun(states: seq<State>, es: seq<Event>, n: nat, k: nat)
    requires IsRun(states, es) && Inv(states[0]) && k <= n <= |es| && ClearStored !in es[..n]
    ensures Inv(states[k])
  {
    if k > 0 {
      InvInEveryRun(states, es, n, k - 1);
      assert es[k - 1] in es[..n];
      InvStep(states[k - 1], es[k - 1]);
    }
  }

  // ---------------------------------------------------------------- clear(true)

  /** `e` stores version `v` in the layer in use. */
  predicate Syncs(s: State, e: Event, v: nat) {
    e.Persist? && e.ok && !s.stale && s.syncer.Holding? && s.syncer.version == v
  }

  /** The i-th event stored the version that is in memory at n, in the layer in use at n. */
  ghost predicate Synced(states: seq<State>, es: seq<Event>, i: nat, n: nat)
    requires i < n <= |es| < |states|
  {
    Syncs(states[i], es[i], states[n].version) && forall j :: i < j < n ==> !es[j].SetPersistence?
  }

  ghost predicate SyncedSince(states: seq<State>, es: seq<Event>, n: nat)
    requires n <= |es| < |states|
  {
    exists i :: 0 < i < n && Synced(states, es, i, n)
  }

  /** What a sync of version `v` leaves as long as nothing else is written. */
  ghost predicate Stored(s: State, v: nat) {
    v <= s.version && (v == s.version ==> s.persisted == v && !s.gaveUp && s.syncer == Waiting)
  }

  lemma StoredStep(s: State, e: Event, v: nat)
    requires Inv(s) && Enabled(s, e) && !e.SetPersistence? && (Stored(s, v) || Syncs(s, e, v))
    ensures Stored(Step(s, e), v)
  {}

  lemma {:induction false} StaysStored(states: seq<State>, v: nat, i: nat, k: nat)
    requires i <= k < |states| && Stored(states[i], v)
    requires forall j :: i <= j < k && Stored(states[j], v) ==> Stored(states[j + 1], v)
    ensures Stored(states[k], v)
    decreases k
  {
    if i < k {
      StaysStored(states, v, i, k - 1);
      assert Stored(states[k - 1 + 1], v);
    }
  }

  lemma SyncLasts(states: seq<State>, es: seq<Event>, i: nat, n: nat)
    requires IsRun(states, es) && Inv(states[0]) && i < n <= |es| && ClearStored !in es[..n]
    requires Synced(states, es, i, n)
    ensures Stored(states[n], states[n].version)
  {
    var v := states[n].version;
    forall j | i <= j < n && (Stored(states[j], v) || j == i) ensures Stored(states[j + 1], v) {
      InvInEveryRun(states, es, n, j);
      StoredStep(states[j], es[j], v);
    }
    StaysStored(states, v, i + 1, n);
  }

  /** The store counts as holding something that is cached. */
  predicate CurrentAndFull(s: State) {
    s.persisted == s.version && !s.gaveUp && s.cache.contents != map[]
  }

  /** Where that comes from, one step back. */
  ghost predicate Origin(s: State, e: Event, s': State) {
    && (Syncs(s, e, s'.version) || CurrentAndFull(s))
    && s'.version == s.version && !e.SetPersistence?
  }

  lemma CurrentStep(s: State, e: Event)
    requires Inv(s) && Enabled(s, e) && CurrentAndFull(Step(s, e))
    ensures Origin(s, e, Step(s, e))
  {}

  lemma {:induction false} TraceBack(states: seq<State>, es: seq<Event>, k: nat)
    requires 0 < k <= |es| < |states| && !CurrentAndFull(states[1]) && CurrentAndFull(states[k])
    requires forall j :: 0 < j < k && CurrentAndFull(states[j + 1]) ==> Origin(states[j], es[j], states[j + 1])
    ensures SyncedSince(states, es, k)
    decreases k
  {
    assert Origin(states[k - 1], es[k - 1], states[k - 1 + 1]);
    if Syncs(states[k - 1], es[k - 1], states[k].version) {
      assert Synced(states, es, k - 1, k);
    } else {
      TraceBack(states, es, k - 1);
      var i :| 0 < i < k - 1 && Synced(states, es, i, k - 1);
      assert Synced(states, es, i, k);
    }
  }

  lemma CurrentWasSynced(states: seq<State>, es: seq<Event>, n: nat)
    requires IsRun(states, es) && Inv(states[0]) && 0 < n <= |es| && ClearStored !in es[..n] && es[0] == Clear
    requires CurrentAndFull(states[n])
    ensures SyncedSince(states, es, n)
  {
    forall j | 0 < j < n && CurrentAndFull(states[j + 1]) ensures Origin(states[j], es[j], states[j + 1]) {
      InvInEveryRun(states, es, n, j);
      CurrentStep(states[j], es[j]);
    }
    TraceBack(states, es, n);
  }

  /** clear(true) empties the cache and then, not under the same lock, the store. Whatever
      happens in between, the agreement survives exactly when the cache is empty by then or
      what it holds was not stored since. */
  lemma ClearKeepsAgreementIff(states: seq<State>, es: seq<Event>, n: nat)
    requires IsRun(states, es) && Inv(states[0]) && 0 < n < |es|
    requires es[0] == Clear && es[n] == ClearStored && ClearStored !in es[..n]
    ensures Agrees(states[n + 1]) <==> states[n].cache.contents == map[] || !SyncedSince(states, es, n)
  {
    if SyncedSince(states, es, n) {
      var i :| 0 < i < n && Synced(states, es, i, n);
      SyncLasts(states, es, i, n);
    } else if CurrentAndFull(states[n]) {
      CurrentWasSynced(states, es, n);
    }
  }

  /** A run in which the agreement is lost: a put and a sync slip in between the halves. */
  lemma ClearRace(k: Key, v: Data) returns (states: seq<State>, es: seq<Event>)
    ensures IsRun(states, es) && states[0] == Fresh(0, 1, [])
    ensures es == [Clear, Put(k, v), Check, Convert(true), Persist(true, []), ClearStored]
    ensures var s := states[6];
            s.persisted == s.version && !s.gaveUp && s.cache.contents == map[k := v] && s.stored == []
  {
    var s0 := Fresh(0, 1, []);
    es := [Clear, Put(k, v), Check, Convert(true), Persist(true, []), ClearStored];
    var s1 := Step(s0, Clear);
    SetValid(0, s1.cache, k, v);
    var s2 := Step(s1, Put(k, v));
    var s3 := Step(s2, Check);
    var s4 := Step(s3, Convert(true));
    var s5 := Step(s4, Persist(true, []));
    states := [s0, s1, s2, s3, s4, s5, Step(s5, ClearStored)];
  }

  // ---------------------------------------------------------------- stopping, in every run

  predicate SyncerEvent(e: Event) {
    e.Check? || e.Convert? || e.Persist? || e.ReadVersion? || e.ForceVersion?
  }

  /** An attempt to sync ends with a persist, or with a conversion that fails. */
  predicate Attempt(e: Event) {
    e.Persist? || (e.Convert? && !e.ok)
  }

  predicate Success(e: Event) {
    e.Persist? && e.ok
  }

  function Attempts(es: seq<Event>): nat {
    if es == [] then 0 else Attempts(es[..|es| - 1]) + if Attempt(es[|es| - 1]) then 1 else 0
  }

  ghost predicate AllFail(es: seq<Event>) {
    forall e :: e in es ==> !Success(e)
  }

  /** After `a` failures the retries are used up. */
  predicate Exhausted(s0: State, a: nat) {
    s0.failures < s0.retries == s0.failures + a
  }

  predicate Counting(s0: State, s: State, a: nat) {
    s.failures == s0.failures + a && !(s0.failures < s0.retries <= s0.failures + a)
  }

  /** What `k` steps of the syncer alone can have made of `s0`, `a` attempts among them, all of
      them failures if `failed`. */
  ghost predicate Progress(s0: State, s: State, a: nat, failed: bool, k: nat) {
    && s.retries == s0.retries && s.version == s0.version && s.cache == s0.cache && !s.stale
    && if s.persisted != s.version then
         failed && match s.syncer
           case Waiting => Counting(s0, s, a) && k <= 3 * a
           case Checked => Counting(s0, s, a) && k <= 3 * a + 1
           case Holding(_, v) => Counting(s0, s, a) && v == s.version && k <= 3 * a + 2
           case GivingUp => Exhausted(s0, a) && k <= 3 * a
           case Forcing(v) => Exhausted(s0, a) && v == s.version && k <= 3 * a + 1
       else
         && s.syncer == Waiting
         && if a == 0 then s.stored == s0.stored && s.gaveUp == s0.gaveUp && s.persisted == s0.persisted && failed
            else if s.gaveUp then failed && Exhausted(s0, a)
            else !failed && (s0.failures < s0.retries ==> s0.failures + a <= s0.retries)
  }

  lemma ProgressStep(s0: State, s: State, e: Event, a: nat, failed: bool, k: nat)
    requires Inv(s) && Enabled(s, e) && SyncerEvent(e) && Progress(s0, s, a, failed, k)
    ensures Progress(s0, Step(s, e), a + (if Attempt(e) then 1 else 0), failed && !Success(e), k + 1)
  {}

  /** A run of the syncer on its own, from the head of its loop. */
  ghost predicate SyncerRun(states: seq<State>, es: seq<Event>) {
    && IsRun(states, es) && Inv(states[0]) && states[0].syncer == Waiting
    && forall e :: e in es ==> SyncerEvent(e)
  }

  lemma ProgressNext(s0: State, s: State, e: Event, es: seq<Event>)
    requires Inv(s) && Enabled(s, e) && SyncerEvent(e) && Progress(s0, s, Attempts(es), AllFail(es), |es|)
    ensures Inv(Step(s, e)) && Progress(s0, Step(s, e), Attempts(es + [e]), AllFail(es + [e]), |es| + 1)
  {
    InvStep(s, e);
    ProgressStep(s0, s, e, Attempts(es), AllFail(es), |es|);
    assert (es + [e])[..|es|] == es;
    assert AllFail(es + [e]) <==> AllFail(es) && !Success(e);
  }

  lemma {:induction false} ProgressInRun(states: seq<State>, es: seq<Event>, k: nat)
    requires SyncerRun(states, es) && k <= |es|
    ensures Inv(states[k]) && Progress(states[0], states[k], Attempts(es[..k]), AllFail(es[..k]), k)
  {
    if k > 0 {
      ProgressInRun(states, es, k - 1);
      assert es[k - 1] in es && es[..k] == es[..k - 1] + [es[k - 1]];
      ProgressNext(states[0], states[k - 1], es[k - 1], es[..k - 1]);
    }
  }

  /** Without writers the syncer makes at most its remaining retries of attempts and is done
      after at most three steps for each and two to give up. It is then done with the cache
      stored, or after giving up: before, or now that every one of its attempts has failed. */
  lemma SyncerStops(states: seq<State>, es: seq<Event>, k: nat)
    requires SyncerRun(states, es) && k <= |es| && states[0].failures < states[0].retries
    ensures var s0, s, a := states[0], states[k], Attempts(es[..k]);
            && a <= s0.retries - s0.failures
            && (k >= 3 * (s0.retries - s0.failures) + 2 ==> s.persisted == s.version)
            && (s.persisted == s.version ==>
                  || AsMap(s.stored) == s.cache.contents
                  || (a == 0 && s0.gaveUp)
                  || (a == s0.retries - s0.failures && AllFail(es[..k])))
  {
    ProgressInRun(states, es, k);
  }

  /** Against a medium that keeps failing, the loop has forced the version whenever it is back
      at its head exactly if the failures have used up its retries: with no retries, never. */
  lemma LoopEndsIff(states: seq<State>, es: seq<Event>, k: nat)
    requires SyncerRun(states, es) && k <= |es| && AllFail(es) && states[k].syncer == Waiting
    requires states[0].persisted != states[0].version
    ensures states[k].persisted == states[k].version <==>
            states[0].failures < states[0].retries <= states[0].failures + Attempts(es[..k])
  {
    ProgressInRun(states, es, k);
    assert forall e :: e in es[..k] ==> e in es;
  }

  /** Without retries a conversion that fails leads back to where the loop was, but for the
      count: it can do so for ever. */
  lemma NoRetriesNoEnd(s: State)
    requires Inv(s) && s.syncer == Waiting && s.persisted != s.version && s.retries <= 0
    ensures Step(Step(s, Check), Convert(false)) == s.(failures := s.failures + 1)
  {}

  // ---------------------------------------------------------------- stopping, the loop

  class CachePersistence {
    var stored: Pairs
    var persistedVersion: nat

    constructor ()
      ensures persistedVersion == 0 && stored == []
    {
      stored, persistedVersion := [], 0;
    }

    /** `ok` and `junk` are what the storage medium did. */
    method PersistVersionedData(pairs: Pairs, version: nat, ok: bool, junk: Pairs)
      modifies this
      ensures stored == if ok then pairs else junk
      ensures persistedVersion == if ok then version else old(persistedVersion)
    {
      stored := if ok then pairs else junk;
      if ok { persistedVersion := version; }
    }
  }

  ghost function Head(cache: LRUInMemoryCache, p: CachePersistence, retries: int, failures: nat, gaveUp: bool): State
    reads cache, p
  {
    State(cache.capacity, retries, cache.cache, cache.version, p.stored, p.persistedVersion, Waiting, failures,
          gaveUp, false)
  }

  /** One attempt from the head of the loop back to it. */
  function Round(s: State, ok: bool, junk: Pairs): (s': State)
    requires ValidCache(s.capacity, s.cache)
    ensures s'.capacity == s.capacity && s'.cache == s.cache
  {
    if ok then s.(stored := ToPairs(s.cache), persisted := s.version, failures := 0, gaveUp := false)
    else if s.failures + 1 == s.retries then s.(stored := junk, persisted := s.version, failures := 0, gaveUp := true)
    else s.(stored := junk, failures := s.failures + 1)
  }

  /** A round is what the syncer's own steps do. */
  lemma RoundIsSteps(s: State, ok: bool, junk: Pairs)
    requires ValidCache(s.capacity, s.cache) && s.syncer == Waiting && !s.stale && s.persisted != s.version
    ensures var t := Step(Step(Step(s, Check), Convert(true)), Persist(ok, junk));
            if t.syncer == GivingUp then Step(Step(t, ReadVersion), ForceVersion) == Round(s, ok, junk)
            else t == Round(s, ok, junk)
  {}

  function Rounds(s: State, outcome: nat -> bool, junk: nat -> Pairs, n: nat): (s': State)
    requires ValidCache(s.capacity, s.cache)
    ensures s'.capacity == s.capacity && s'.cache == s.cache
  {
    if n == 0 then s else Round(Rounds(s, outcome, junk, n - 1), outcome(n - 1), junk(n - 1))
  }

  /** One pass through the loop's body; returns the new count, and whether it gave up. */
  method SyncOnce(cache: LRUInMemoryCache, p: CachePersistence, nSyncRetries: int, failures: nat,
                  ghost gaveUp: bool, ok: bool, junk: Pairs)
    returns (nSyncFailures: nat, over: bool)
    requires cache.Valid()
    modifies p
    ensures var s' := Round(old(Head(cache, p, nSyncRetries, failures, gaveUp)), ok, junk);
            Head(cache, p, nSyncRetries, nSyncFailures, s'.gaveUp) == s'
    ensures ok ==> AsMap(p.stored) == cache.cache.contents
    ensures over <==> !ok && failures + 1 == nSyncRetries
  {
    var pairs, version := cache.ConvertToKeyValuePairs();
    p.PersistVersionedData(pairs, version, ok, junk);
    nSyncFailures, over := 0, false;
    if !ok {
      nSyncFailures := failures + 1;
      if nSyncFailures == nSyncRetries {
        p.persistedVersion := cache.version;
        nSyncFailures, over := 0, true;
      }
    }
  }

  /** The sync loop from the moment stop is signalled, with no further writers; `outcome(i)`
      says whether the i-th attempt from then on succeeds. It makes at most as many attempts
      as it has retries left, and it ends with the cache stored unless it gave up, before or
      now. */
  method SyncAfterStop(cache: LRUInMemoryCache, p: CachePersistence, nSyncRetries: int, failures: nat,
                       ghost gaveUpBefore: bool, outcome: nat -> bool, junk: nat -> Pairs)
    returns (attempts: nat, gaveUp: bool)
    requires cache.Valid() && failures < nSyncRetries
    requires Agrees(Head(cache, p, nSyncRetries, failures, gaveUpBefore))
    modifies p
    ensures var s := Rounds(old(Head(cache, p, nSyncRetries, failures, gaveUpBefore)), outcome, junk, attempts);
            s.stored == p.stored && s.persisted == p.persistedVersion == cache.version
    ensures attempts <= nSyncRetries - failures
    ensures gaveUp ==> failures + attempts == nSyncRetries && forall i :: 0 <= i < attempts ==> !outcome(i)
    ensures AsMap(p.stored) == cache.cache.contents || gaveUp || (attempts == 0 && gaveUpBefore)
  {
    var nSyncFailures := failures;
    attempts, gaveUp := 0, false;
    ghost var start, given := Head(cache, p, nSyncRetries, failures, gaveUpBefore), gaveUpBefore;
    while p.persistedVersion != cache.version
      invariant Head(cache, p, nSyncRetries, nSyncFailures, given) == Rounds(start, outcome, junk, attempts)
      invariant attempts == 0 ==> given == gaveUpBefore && !gaveUp && p.stored == old(p.stored)
      invariant p.persistedVersion != cache.version ==>
                  !gaveUp && nSyncFailures == failures + attempts < nSyncRetries
                  && forall i :: 0 <= i < attempts ==> !outcome(i)
      invariant attempts <= nSyncRetries - failures
      invariant gaveUp ==> failures + attempts == nSyncRetries && forall i :: 0 <= i < attempts ==> !outcome(i)
      invariant p.persistedVersion == cache.version && attempts > 0 && !gaveUp ==>
                  AsMap(p.stored) == cache.cache.contents
      decreases p.persistedVersion != cache.version, nSyncRetries - failures - attempts
    {
      ghost var before := Head(cache, p, nSyncRetries, nSyncFailures, given);
      var ok := outcome(attempts);
      var over: bool;
      nSyncFailures, over := SyncOnce(cache, p, nSyncRetries, nSyncFailures, given, ok, junk(attempts));
      given := Round(before, ok, junk(attempts)).gaveUp;
      attempts, gaveUp := attempts + 1, gaveUp || over;
    }
  }
}
