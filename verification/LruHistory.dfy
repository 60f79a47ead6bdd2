/** What a bounded cache holds, told from the history of its use alone. */
module LruHistory {
  import opened CursorList
  import opened LruCache

  datatype Op =
    | Get(k: Key)
    | Put(k: Key, v: Data)
    | Remove(k: Key)
    | Clear

  function Apply(capacity: nat, c: Cache, op: Op): Cache {
    match op
    case Get(k) => Touch(c, k)
    case Put(k, v) => Set(capacity, c, k, v)
    case Remove(k) => Drop(c, k)
    case Clear => EmptyCache
  }

  ghost predicate IsRun(capacity: nat, caches: seq<Cache>, ops: seq<Op>) {
    && |caches| == |ops| + 1 && caches[0] == EmptyCache
    && forall i :: 0 <= i < |ops| ==> caches[i + 1] == Apply(capacity, caches[i], ops[i])
  }

  /** A key is used by a put, and by a get that finds it. */
  predicate Uses(c: Cache, op: Op, k: Key) {
    (op.Put? && op.k == k) || (op.Get? && op.k == k && k in c.contents)
  }

  /** The time of the last use of `k` before `n`, or -1. */
  function LastUse(caches: seq<Cache>, ops: seq<Op>, n: nat, k: Key): (t: int)
    requires n <= |ops| < |caches|
    ensures -1 <= t < n
    ensures t >= 0 ==> Uses(caches[t], ops[t], k)
    ensures forall i :: t < i < n ==> !Uses(caches[i], ops[i], k)
  {
    if n == 0 then -1
    else if Uses(caches[n - 1], ops[n - 1], k) then n - 1
    else LastUse(caches, ops, n - 1, k)
  }

  predicate Discards(op: Op, k: Key) {
    op == Remove(k) || op == Clear
  }

  // ---------------------------------------------------------------- one operation

  lemma ApplyValid(capacity: nat, c: Cache, op: Op)
    requires ValidCache(capacity, c)
    ensures ValidCache(capacity, Apply(capacity, c, op))
  {
    match op
    case Get(k) => TouchValid(capacity, c, k);
    case Put(k, v) => SetValid(capacity, c, k, v);
    case Remove(k) => DropValid(capacity, c, k);
    case Clear =>
  }

  /** There is no room for `k`: the last in order has to go. */
  predicate Full(capacity: nat, c: Cache, k: Key) {
    capacity > 0 && k !in c.contents && |c.order| == capacity
  }

  /** The order after an operation: what is used goes to the front, the rest stays in order, and
      what is removed, or the last when there is no room, goes. */
  ghost predicate Reordered(capacity: nat, c: Cache, op: Op, c': Cache) {
    match op
    case Get(k) => c'.order == (if k in c.contents then [k] + Erase(c.order, k) else c.order)
    case Put(k, _) =>
      c'.order == [k] + (if Full(capacity, c, k) then c.order[..|c.order| - 1] else Erase(c.order, k))
    case Remove(k) => c'.order == Erase(c.order, k)
    case Clear => c'.order == []
  }

  /** The contents after an operation. */
  ghost predicate Changed(capacity: nat, c: Cache, op: Op, c': Cache) {
    match op
    case Get(_) => c'.contents == c.contents
    case Put(k, v) =>
      c'.contents == (if Full(capacity, c, k) then c.contents - {c.order[|c.order| - 1]} else c.contents)[k := v]
    case Remove(k) => c'.contents == c.contents - {k}
    case Clear => c'.contents == map[]
  }

  lemma EraseAbsent<T>(l: seq<T>, x: T)
    requires x !in l
    ensures Erase(l, x) == l
  {}

  lemma ApplyChanges(capacity: nat, c: Cache, op: Op)
    requires ValidCache(capacity, c)
    ensures Reordered(capacity, c, op, Apply(capacity, c, op)) && Changed(capacity, c, op, Apply(capacity, c, op))
  {
    match op
    case Put(k, v) => PutChanges(capacity, c, k, v);
    case Remove(k) => if k !in c.order { EraseAbsent(c.order, k); }
    case _ =>
  }

  lemma PutChanges(capacity: nat, c: Cache, k: Key, v: Data)
    requires ValidCache(capacity, c)
    ensures Reordered(capacity, c, Put(k, v), Set(capacity, c, k, v))
    ensures Changed(capacity, c, Put(k, v), Set(capacity, c, k, v))
  {
    var order := [k] + Erase(c.order, k);
    if k in c.order {
      EraseMembers(c.order, k);
    } else {
      EraseAbsent(c.order, k);
      if Full(capacity, c, k) {
        assert order[..|order| - 1] == [k] + c.order[..|c.order| - 1];
        assert order[|order| - 1] == c.order[|c.order| - 1] && c.order[|c.order| - 1] in c.order;
      }
    }
  }

  // ---------------------------------------------------------------- the order is that of use

  lemma {:induction false} ValidInEveryRun(capacity: nat, caches: seq<Cache>, ops: seq<Op>, n: nat)
    requires IsRun(capacity, caches, ops) && n < |caches|
    ensures ValidCache(capacity, caches[n])
  {
    if n > 0 {
      ValidInEveryRun(capacity, caches, ops, n - 1);
      ApplyValid(capacity, caches[n - 1], ops[n - 1]);
    }
  }

  /** The use times of all keys before `n`. */
  function UseTimes(caches: seq<Cache>, ops: seq<Op>, n: nat): Key -> int
    requires n <= |ops| < |caches|
  {
    k => LastUse(caches, ops, n, k)
  }

  ghost predicate Decreasing(l: seq<Key>, u: Key -> int) {
    && (forall i :: 0 <= i < |l| ==> u(l[i]) >= 0)
    && (forall i, j :: 0 <= i < j < |l| ==> u(l[i]) > u(l[j]))
  }

  lemma DecreasingErase(l: seq<Key>, u: Key -> int, k: Key)
    requires Decreasing(l, u)
    ensures Decreasing(Erase(l, k), u)
  {
    var l', p := Erase(l, k), Index(l, k);
    forall i | 0 <= i < |l'| ensures l'[i] == l[if i < p then i else i + 1] {}
  }

  lemma DecreasingPush(l: seq<Key>, u: Key -> int, u': Key -> int, k: Key)
    requires Decreasing(l, u) && u'(k) >= 0 && forall x :: x in l ==> u'(x) == u(x) && u'(k) > u(x)
    ensures Decreasing([k] + l, u')
  {
    var l' := [k] + l;
    forall i | 0 < i < |l'| ensures l'[i] == l[i - 1] && l[i - 1] in l {}
  }

  lemma DecreasingSame(l: seq<Key>, u: Key -> int, u': Key -> int)
    requires Decreasing(l, u) && forall x :: x in l ==> u'(x) == u(x)
    ensures Decreasing(l, u')
  {
    forall i | 0 <= i < |l| ensures u'(l[i]) == u(l[i]) { assert l[i] in l; }
  }

  /** The key that is used goes to the front of those that stay. */
  lemma UseMovesToFront(caches: seq<Cache>, ops: seq<Op>, n: nat, rest: seq<Key>, k: Key)
    requires n < |ops| < |caches| && Uses(caches[n], ops[n], k) && k !in rest
    requires Decreasing(rest, UseTimes(caches, ops, n))
    ensures Decreasing([k] + rest, UseTimes(caches, ops, n + 1))
  {
    DecreasingPush(rest, UseTimes(caches, ops, n), UseTimes(caches, ops, n + 1), k);
  }

  /** Nothing is used: those that stay stay in order. */
  lemma NoUseKeepsOrder(caches: seq<Cache>, ops: seq<Op>, n: nat, l: seq<Key>)
    requires n < |ops| < |caches| && forall k :: !Uses(caches[n], ops[n], k)
    requires Decreasing(l, UseTimes(caches, ops, n))
    ensures Decreasing(l, UseTimes(caches, ops, n + 1))
  {
    DecreasingSame(l, UseTimes(caches, ops, n), UseTimes(caches, ops, n + 1));
  }

  lemma EraseGone(l: seq<Key>, u: Key -> int, k: Key)
    requires Distinct(l) && Decreasing(l, u)
    ensures k !in Erase(l, k) && Decreasing(Erase(l, k), u)
  {
    if k in l { EraseMembers(l, k); } else { EraseAbsent(l, k); }
    DecreasingErase(l, u, k);
  }

  lemma ByUseStep(capacity: nat, caches: seq<Cache>, ops: seq<Op>, n: nat)
    requires IsRun(capacity, caches, ops) && n < |ops| && ValidCache(capacity, caches[n])
    requires Decreasing(caches[n].order, UseTimes(caches, ops, n))
    ensures Decreasing(caches[n + 1].order, UseTimes(caches, ops, n + 1))
  {
    ApplyChanges(capacity, caches[n], ops[n]);
    match ops[n]
    case Put(_, _) => PutByUse(capacity, caches, ops, n);
    case Get(k) => GetByUse(caches, ops, n);
    case Remove(k) =>
      EraseGone(caches[n].order, UseTimes(caches, ops, n), k);
      NoUseKeepsOrder(caches, ops, n, Erase(caches[n].order, k));
    case Clear =>
  }

  lemma PutByUse(capacity: nat, caches: seq<Cache>, ops: seq<Op>, n: nat)
    requires n < |ops| < |caches| && ops[n].Put? && ValidCache(capacity, caches[n])
    requires Decreasing(caches[n].order, UseTimes(caches, ops, n))
    requires Reordered(capacity, caches[n], ops[n], caches[n + 1])
    ensures Decreasing(caches[n + 1].order, UseTimes(caches, ops, n + 1))
  {
    var l, k := caches[n].order, ops[n].k;
    EraseGone(l, UseTimes(caches, ops, n), k);
    UseMovesToFront(caches, ops, n, if Full(capacity, caches[n], k) then l[..|l| - 1] else Erase(l, k), k);
  }

  lemma GetByUse(caches: seq<Cache>, ops: seq<Op>, n: nat)
    requires n < |ops| < |caches| && ops[n].Get? && Distinct(caches[n].order)
    requires Decreasing(caches[n].order, UseTimes(caches, ops, n))
    requires Reordered(0, caches[n], ops[n], caches[n + 1])
    ensures Decreasing(caches[n + 1].order, UseTimes(caches, ops, n + 1))
  {
    var l, k := caches[n].order, ops[n].k;
    if k in caches[n].contents {
      EraseGone(l, UseTimes(caches, ops, n), k);
      UseMovesToFront(caches, ops, n, Erase(l, k), k);
    } else {
      NoUseKeepsOrder(caches, ops, n, l);
    }
  }

  /** The keys held are in the order of their last use, the latest first. */
  lemma {:induction false} OrderIsByUse(capacity: nat, caches: seq<Cache>, ops: seq<Op>, n: nat)
    requires IsRun(capacity, caches, ops) && n < |caches|
    ensures Decreasing(caches[n].order, UseTimes(caches, ops, n))
  {
    if n > 0 {
      OrderIsByUse(capacity, caches, ops, n - 1);
      ValidInEveryRun(capacity, caches, ops, n - 1);
      ByUseStep(capacity, caches, ops, n - 1);
    }
  }

  // ---------------------------------------------------------------- what a put evicts

  /** `x` is held, and was used before every other key held. */
  ghost predicate Oldest(caches: seq<Cache>, ops: seq<Op>, n: nat, x: Key)
    requires n <= |ops| < |caches|
  {
    && x in caches[n].contents
    && forall y :: y in caches[n].contents && y != x ==>
         LastUse(caches, ops, n, x) < LastUse(caches, ops, n, y)
  }

  lemma LastIsOldest(capacity: nat, caches: seq<Cache>, ops: seq<Op>, n: nat)
    requires IsRun(capacity, caches, ops) && n < |caches| && caches[n].order != []
    ensures var last := caches[n].order[|caches[n].order| - 1];
            forall x :: Oldest(caches, ops, n, x) <==> x == last
  {
    ValidInEveryRun(capacity, caches, ops, n);
    OrderIsByUse(capacity, caches, ops, n);
    var l := caches[n].order;
    var u, last := UseTimes(caches, ops, n), l[|l| - 1];
    assert last in l;
    forall y | y in l && y != last ensures u(y) > u(last) {
      var i :| 0 <= i < |l| && l[i] == y;
    }
  }

  /** Who is held after each operation, and with what: a put holds its key and evicts exactly the
      key whose last use is oldest, and that only for a new key in a full cache. */
  lemma HeldNext(capacity: nat, caches: seq<Cache>, ops: seq<Op>, n: nat, x: Key)
    requires IsRun(capacity, caches, ops) && n < |ops|
    ensures var c, c', op := caches[n].contents, caches[n + 1].contents, ops[n];
            && (x in c' <==>
                  if op.Put? && op.k == x then true
                  else x in c && !Discards(op, x) &&
                       !(op.Put? && op.k !in c && |c| == capacity > 0 && Oldest(caches, ops, n, x)))
            && (x in c' ==> c'[x] == if op.Put? && op.k == x then op.v else c[x])
  {
    ValidInEveryRun(capacity, caches, ops, n);
    var c, op := caches[n], ops[n];
    ApplyChanges(capacity, c, op);
    OrderSize(c.order, c.contents.Keys);
    assert |c.contents| == |c.contents.Keys|;
    if op.Put? && Full(capacity, c, op.k) { LastIsOldest(capacity, caches, ops, n); }
  }

  // ---------------------------------------------------------------- what is held

  /** After a put, a get finds the value until the key is put again, discarded or evicted. */
  lemma {:induction false} ValueIsLastPut(capacity: nat, caches: seq<Cache>, ops: seq<Op>, n: nat, k: Key)
    returns (p: nat)
    requires IsRun(capacity, caches, ops) && n < |caches| && k in caches[n].contents
    ensures p < n && ops[p] == Put(k, caches[n].contents[k])
    ensures forall i :: p < i < n ==> !(ops[i].Put? && ops[i].k == k) && !Discards(ops[i], k)
  {
    HeldNext(capacity, caches, ops, n - 1, k);
    if ops[n - 1].Put? && ops[n - 1].k == k {
      p := n - 1;
    } else {
      p := ValueIsLastPut(capacity, caches, ops, n - 1, k);
    }
  }

  /** At time `t` the cache is full of keys used after `u`. */
  ghost predicate FullOfLater(capacity: nat, caches: seq<Cache>, ops: seq<Op>, u: int, t: nat)
    requires t <= |ops| < |caches|
  {
    |caches[t].contents| == capacity > 0
    && forall y :: y in caches[t].contents ==> LastUse(caches, ops, t, y) > u
  }

  ghost predicate FilledSince(capacity: nat, caches: seq<Cache>, ops: seq<Op>, u: int, n: nat)
    requires n <= |ops| < |caches|
  {
    exists t: nat :: u < t <= n && FullOfLater(capacity, caches, ops, u, t)
  }

  ghost predicate DiscardedSince(ops: seq<Op>, k: Key, u: int, n: nat)
    requires n <= |ops|
  {
    exists i: nat :: u < i < n && Discards(ops[i], k)
  }

  lemma SinceNext(capacity: nat, caches: seq<Cache>, ops: seq<Op>, u: int, n: nat, k: Key)
    requires u <= n < |ops| < |caches|
    ensures DiscardedSince(ops, k, u, n + 1) <==> DiscardedSince(ops, k, u, n) || (u < n && Discards(ops[n], k))
    ensures FilledSince(capacity, caches, ops, u, n + 1) <==>
            FilledSince(capacity, caches, ops, u, n) || FullOfLater(capacity, caches, ops, u, n + 1)
  {
    if DiscardedSince(ops, k, u, n) { var i: nat :| u < i < n && Discards(ops[i], k); }
    if FilledSince(capacity, caches, ops, u, n) {
      var t: nat :| u < t <= n && FullOfLater(capacity, caches, ops, u, t);
    }
  }

  lemma EvictionFills(capacity: nat, caches: seq<Cache>, ops: seq<Op>, n: nat, k: Key)
    requires IsRun(capacity, caches, ops) && n < |ops| && ops[n].Put? && k != ops[n].k
    requires k in caches[n].contents && k !in caches[n + 1].contents
    ensures FullOfLater(capacity, caches, ops, LastUse(caches, ops, n, k), n + 1)
  {
    ValidInEveryRun(capacity, caches, ops, n);
    ValidInEveryRun(capacity, caches, ops, n + 1);
    ApplyChanges(capacity, caches[n], ops[n]);
    HeldNext(capacity, caches, ops, n, k);
    var c' := caches[n + 1];
    OrderSize(caches[n].order, caches[n].contents.Keys);
    OrderSize(c'.order, c'.contents.Keys);
    assert |c'.contents| == |c'.contents.Keys| && |caches[n].contents| == |caches[n].contents.Keys|;
    forall y | y in c'.contents ensures LastUse(caches, ops, n + 1, y) > LastUse(caches, ops, n, k) {
      HeldNext(capacity, caches, ops, n, y);
    }
  }

  ghost predicate Holds(capacity: nat, caches: seq<Cache>, ops: seq<Op>, n: nat, k: Key)
    requires n <= |ops| < |caches|
  {
    var u := LastUse(caches, ops, n, k);
    u >= 0 && !DiscardedSince(ops, k, u, n) && !FilledSince(capacity, caches, ops, u, n)
  }

  /** A use makes a key held. */
  lemma UsedIsHeld(capacity: nat, caches: seq<Cache>, ops: seq<Op>, n: nat, k: Key)
    requires IsRun(capacity, caches, ops) && n < |ops| && Uses(caches[n], ops[n], k)
    ensures k in caches[n + 1].contents && Holds(capacity, caches, ops, n + 1, k)
  {
    HeldNext(capacity, caches, ops, n, k);
    forall t: nat | n < t <= n + 1 ensures !FullOfLater(capacity, caches, ops, n, t) {
      assert LastUse(caches, ops, n + 1, k) == n;
    }
  }

  /** One that is not used stays held exactly if it is neither discarded nor evicted. */
  lemma UnusedHolds(capacity: nat, caches: seq<Cache>, ops: seq<Op>, n: nat, k: Key)
    requires IsRun(capacity, caches, ops) && n < |ops| && !Uses(caches[n], ops[n], k)
    requires k in caches[n].contents <==> Holds(capacity, caches, ops, n, k)
    ensures k in caches[n + 1].contents <==> Holds(capacity, caches, ops, n + 1, k)
  {
    HeldNext(capacity, caches, ops, n, k);
    var u := LastUse(caches, ops, n, k);
    assert LastUse(caches, ops, n + 1, k) == u;
    SinceNext(capacity, caches, ops, u, n, k);
    if k in caches[n + 1].contents {
      assert !FullOfLater(capacity, caches, ops, u, n + 1);
    } else if k in caches[n].contents && !Discards(ops[n], k) {
      EvictionFills(capacity, caches, ops, n, k);
    }
  }

  /** A key is held exactly if it was used, has not been discarded since, and the cache has not
      been full since of keys used later: the keys held are the most recently used that fit. */
  lemma {:induction false} HeldIff(capacity: nat, caches: seq<Cache>, ops: seq<Op>, n: nat, k: Key)
    requires IsRun(capacity, caches, ops) && n < |caches|
    ensures k in caches[n].contents <==> Holds(capacity, caches, ops, n, k)
  {
    if n > 0 {
      HeldIff(capacity, caches, ops, n - 1, k);
      if Uses(caches[n - 1], ops[n - 1], k) {
        UsedIsHeld(capacity, caches, ops, n - 1, k);
      } else {
        UnusedHolds(capacity, caches, ops, n - 1, k);
      }
    }
  }

  // ---------------------------------------------------------------- a load

  /** A load is a run of puts. */
  lemma LoadIsPuts(capacity: nat, c: Cache, data: Pairs, n: nat)
    requires n < |data|
    ensures LoadAll(capacity, c, data[..0]) == c
    ensures LoadAll(capacity, c, data[..n + 1]) ==
            Apply(capacity, LoadAll(capacity, c, data[..n]), Put(data[n].0, data[n].1))
  {
    LoadNext(capacity, c, data, n);
  }
}
