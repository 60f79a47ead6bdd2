/** The versioned in-memory LRU cache. */
module LruCache {
  import opened CursorList

  type Key = string
  type Data = string

  /** Key-value pairs as they are written to and loaded from a persistence layer. */
  type Pairs = seq<(Key, Data)>

  /** `order` lists the keys, most recently used first. */
  datatype Cache = Cache(contents: map<Key, Data>, order: seq<Key>)

  const EmptyCache := Cache(map[], [])

  /** A capacity of zero means no limit. */
  ghost predicate ValidCache(capacity: nat, c: Cache) {
    && Distinct(c.order)
    && (forall k :: k in c.order <==> k in c.contents)
    && (capacity > 0 ==> |c.order| <= capacity)
  }

  /** EvictingCacheMap::set: to the front, and the least recently used entry out if that is
      one too many. */
  function Set(capacity: nat, c: Cache, k: Key, v: Data): Cache {
    var order := [k] + Erase(c.order, k);
    if capacity > 0 && |order| > capacity then
      Cache(c.contents[k := v] - {order[|order| - 1]}, order[..|order| - 1])
    else Cache(c.contents[k := v], order)
  }

  /** EvictingCacheMap::find: a hit moves the entry to the front. */
  function Touch(c: Cache, k: Key): Cache {
    if k in c.order then c.(order := [k] + Erase(c.order, k)) else c
  }

  function Drop(c: Cache, k: Key): Cache {
    if k in c.order then Cache(c.contents - {k}, Erase(c.order, k)) else c
  }

  /** The pairs are set in the order they were stored. */
  function LoadAll(capacity: nat, c: Cache, data: Pairs): Cache
    decreases |data|
  {
    if data == [] then c
    else Set(capacity, LoadAll(capacity, c, data[..|data| - 1]), data[|data| - 1].0, data[|data| - 1].1)
  }

  /** The pairs in front of the first item that does not convert. */
  function Convertible(items: seq<Option<(Key, Data)>>): (data: Pairs)
    ensures |data| <= |items| && forall i :: 0 <= i < |data| ==> items[i] == Some(data[i])
    ensures |data| < |items| ==> items[|data|].None?
  {
    if items == [] || items[0].None? then [] else [items[0].value] + Convertible(items[1..])
  }

  /** The contents in cache order. */
  function ToPairs(c: Cache): (r: Pairs)
    requires forall k :: k in c.order ==> k in c.contents
  {
    seq(|c.order|, i requires 0 <= i < |c.order| => (c.order[i], c.contents[c.order[i]]))
  }

  /** What a list of pairs says about each key; a later pair overrides an earlier one. */
  function AsMap(ps: Pairs): map<Key, Data> {
    if ps == [] then map[] else AsMap(ps[..|ps| - 1])[ps[|ps| - 1].0 := ps[|ps| - 1].1]
  }

  // ---------------------------------------------------------------- validity

  lemma SetValid(capacity: nat, c: Cache, k: Key, v: Data)
    requires ValidCache(capacity, c)
    ensures ValidCache(capacity, Set(capacity, c, k, v))
    ensures k in Set(capacity, c, k, v).contents && Set(capacity, c, k, v).contents[k] == v
    ensures k in c.contents || capacity == 0 || |c.order| < capacity ==>
              Set(capacity, c, k, v).contents == c.contents[k := v]
  {
    if k in c.order { EraseMembers(c.order, k); }
    PushFrontPos(Erase(c.order, k), None, k);
    var order := [k] + Erase(c.order, k);
    assert forall x :: x in order <==> x in c.contents[k := v];
    var last := order[|order| - 1];
    assert forall x :: x in order[..|order| - 1] <==> x in order && x != last by {
      assert order == order[..|order| - 1] + [last];
      assert forall i :: 0 <= i < |order| - 1 ==> order[i] != last;
    }
    var r := Set(capacity, c, k, v);
    if r.order != order {
      forall x ensures x in r.order <==> x in r.contents {
        assert x in order[..|order| - 1] <==> x in order && x != last;
        assert x in order <==> x in c.contents[k := v];
      }
    }
  }

  lemma TouchValid(capacity: nat, c: Cache, k: Key)
    requires ValidCache(capacity, c)
    ensures ValidCache(capacity, Touch(c, k))
  {
    if k in c.order {
      EraseMembers(c.order, k);
      PushFrontPos(Erase(c.order, k), None, k);
    }
  }

  lemma DropValid(capacity: nat, c: Cache, k: Key)
    requires ValidCache(capacity, c)
    ensures ValidCache(capacity, Drop(c, k))
  {
    if k in c.order { EraseMembers(c.order, k); }
  }

  // ---------------------------------------------------------------- storing and loading

  lemma {:induction false} PairsUpTo(c: Cache, n: nat)
    requires Distinct(c.order) && (forall k :: k in c.order ==> k in c.contents) && n <= |c.order|
    ensures var m := AsMap(ToPairs(c)[..n]);
            forall k :: (k in m <==> k in c.order[..n]) && (k in m ==> m[k] == c.contents[k])
  {
    if n > 0 {
      PairsUpTo(c, n - 1);
      assert ToPairs(c)[..n][..n - 1] == ToPairs(c)[..n - 1];
      assert c.order[..n] == c.order[..n - 1] + [c.order[n - 1]];
    }
  }

  /** Serialising a cache loses nothing but the order of use. */
  lemma PairsRoundTrip(capacity: nat, c: Cache)
    requires ValidCache(capacity, c)
    ensures AsMap(ToPairs(c)) == c.contents
  {
    PairsUpTo(c, |c.order|);
    assert ToPairs(c)[..|c.order|] == ToPairs(c) && c.order[..|c.order|] == c.order;
  }

  lemma {:induction false} OrderSize(order: seq<Key>, keys: set<Key>)
    requires Distinct(order) && forall k :: k in order <==> k in keys
    ensures |keys| == |order|
  {
    if order == [] {
      assert keys == {};
    } else {
      assert order[0] in keys;
      OrderSize(order[1..], keys - {order[0]});
    }
  }

  lemma FitsWithoutLast(m: map<Key, Data>, data: Pairs)
    requires data != []
    ensures var n := |data| - 1; m + AsMap(data) == (m + AsMap(data[..n]))[data[n].0 := data[n].1]
    ensures |m + AsMap(data[..|data| - 1])| <= |m + AsMap(data)|
  {
    var n := |data| - 1;
    assert m + AsMap(data) == (m + AsMap(data[..n]))[data[n].0 := data[n].1];
    UpdateSize(m + AsMap(data[..n]), data[n].0, data[n].1);
  }

  /** Loading on top of what is cached overrides it, as long as everything fits. */
  lemma {:induction false} LoadOnTop(capacity: nat, c: Cache, data: Pairs)
    requires ValidCache(capacity, c)
    ensures ValidCache(capacity, LoadAll(capacity, c, data))
    ensures capacity == 0 || |c.contents + AsMap(data)| <= capacity ==>
              LoadAll(capacity, c, data).contents == c.contents + AsMap(data)
    decreases |data|
  {
    if data == [] {
      assert c.contents + AsMap(data) == c.contents;
    } else {
      var n := |data| - 1;
      var k, v := data[n].0, data[n].1;
      LoadOnTop(capacity, c, data[..n]);
      SetValid(capacity, LoadAll(capacity, c, data[..n]), k, v);
      FitsWithoutLast(c.contents, data);
      RoomForOneMore(capacity, LoadAll(capacity, c, data[..n]), c.contents + AsMap(data[..n]), k, v);
    }
  }

  lemma UpdateSize<K, V>(m: map<K, V>, k: K, v: V)
    ensures |m[k := v]| == |m| + if k in m then 0 else 1
  {
    assert m[k := v].Keys == m.Keys + {k};
    assert |m| == |m.Keys| && |m[k := v]| == |m[k := v].Keys|;
  }

  lemma RoomForOneMore(capacity: nat, c: Cache, m: map<Key, Data>, k: Key, v: Data)
    requires ValidCache(capacity, c) && (capacity == 0 || |m| <= capacity ==> c.contents == m)
    ensures capacity == 0 || |m[k := v]| <= capacity ==> Set(capacity, c, k, v).contents == m[k := v]
  {
    SetValid(capacity, c, k, v);
    UpdateSize(m, k, v);
    OrderSize(c.order, c.contents.Keys);
    assert |c.contents| == |c.contents.Keys|;
  }

  /** Loading into an empty cache takes over everything stored exactly when the distinct
      keys fit the capacity. */
  lemma LoadAgreesIff(capacity: nat, data: Pairs)
    ensures ValidCache(capacity, LoadAll(capacity, EmptyCache, data))
    ensures LoadAll(capacity, EmptyCache, data).contents == AsMap(data) <==>
            capacity == 0 || |AsMap(data)| <= capacity
  {
    LoadOnTop(capacity, EmptyCache, data);
    assert EmptyCache.contents + AsMap(data) == AsMap(data);
    var c := LoadAll(capacity, EmptyCache, data);
    OrderSize(c.order, c.contents.Keys);
  }

  // ---------------------------------------------------------------- the object

  lemma LoadNext(capacity: nat, c: Cache, data: Pairs, i: nat)
    requires i < |data|
    ensures LoadAll(capacity, c, data[..i + 1]) == Set(capacity, LoadAll(capacity, c, data[..i]), data[i].0, data[i].1)
  {
    assert data[..i + 1][..i] == data[..i];
  }

  class LRUInMemoryCache {
    const capacity: nat
    var cache: Cache
    var version: nat

    ghost predicate Valid()
      reads this
    {
      ValidCache(capacity, cache) && version >= 1
    }

    constructor (capacity: nat)
      ensures Valid() && cache == EmptyCache && version == 1 && this.capacity == capacity
    {
      this.capacity, cache, version := capacity, EmptyCache, 1;
    }

    method Get(k: Key) returns (hit: bool, v: Data)
      requires Valid()
      modifies `cache
      ensures Valid() && cache == Touch(old(cache), k)
      ensures hit <==> k in cache.contents
      ensures hit ==> v == cache.contents[k]
    {
      TouchValid(capacity, cache, k);
      hit := k in cache.contents;
      v := if hit then cache.contents[k] else "";
      cache := Touch(cache, k);
    }

    method Put(k: Key, v: Data)
      requires Valid()
      modifies this
      ensures Valid() && cache == Set(capacity, old(cache), k, v) && version == old(version) + 1
      ensures k in cache.contents && cache.contents[k] == v
    {
      SetValid(capacity, cache, k, v);
      cache := Set(capacity, cache, k, v);
      version := version + 1;
    }

    method Remove(k: Key) returns (removed: bool)
      requires Valid()
      modifies this
      ensures Valid() && cache == Drop(old(cache), k) && (removed <==> k in old(cache).contents)
      ensures version == old(version) + if removed then 1 else 0
    {
      DropValid(capacity, cache, k);
      removed := k in cache.contents;
      cache := Drop(cache, k);
      if removed { version := version + 1; }
    }

    method Clear()
      requires Valid()
      modifies this
      ensures Valid() && cache == EmptyCache
      ensures version == old(version) + if old(cache) == EmptyCache then 0 else 1
    {
      if cache.order == [] {
        assert cache.contents == map[];
        return;
      }
      cache := EmptyCache;
      version := version + 1;
    }

    /** Sets the loaded pairs one by one, up to the first that does not convert; a load that
        set anything is one new version. */
    method LoadData(items: seq<Option<(Key, Data)>>) returns (v: nat)
      requires Valid()
      modifies this
      ensures Valid() && cache == LoadAll(capacity, old(cache), Convertible(items)) && v == version
      ensures version == old(version) + if Convertible(items) == [] then 0 else 1
    {
      ghost var data := Convertible(items);
      var i := 0;
      while i < |items| && items[i].Some?
        invariant i <= |data| && Valid() && version == old(version)
        invariant cache == LoadAll(capacity, old(cache), data[..i])
      {
        var kv := items[i].value;
        SetValid(capacity, cache, kv.0, kv.1);
        LoadNext(capacity, old(cache), data, i);
        cache := Set(capacity, cache, kv.0, kv.1);
        i := i + 1;
      }
      assert data[..i] == data;
      if i > 0 { version := version + 1; }
      v := version;
    }

    /** The pairs and the version they belong to, taken under one lock. */
    method ConvertToKeyValuePairs() returns (ps: Pairs, v: nat)
      requires Valid()
      ensures ps == ToPairs(cache) && AsMap(ps) == cache.contents && v == version
    {
      PairsRoundTrip(capacity, cache);
      ps := [];
      var i := 0;
      while i < |cache.order|
        invariant i <= |cache.order| && ps == ToPairs(cache)[..i]
      {
        ps := ps + [(cache.order[i], cache.contents[cache.order[i]])];
        i := i + 1;
      }
      assert ToPairs(cache)[..|cache.order|] == ToPairs(cache);
      v := version;
    }
  }
}
