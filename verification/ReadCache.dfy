/** The read cache: least-recently-used eviction, expiry and invalidation, judged
    against the history of calls. */
module ReadCache {
  import opened Wrappers

  /** One call, with the clock reading it used. `Get` records whether it hit. */
  datatype Call<K, V> =
    | Put(key: K, value: V, version: nat, at: int)
    | Get(key: K, at: int, hit: bool)
    | Invalidate(key: K)
    | InvalidateAll

  /** The calls that decide what the cache may answer for a key. */
  predicate Settles<K(==), V>(c: Call<K, V>, key: K) {
    match c
    case Put(k, _, _, _) => k == key
    case Get(_, _, _) => false
    case Invalidate(k) => k == key
    case InvalidateAll => true
  }

  /** The latest put of a key that no later call invalidated. */
  ghost function Latest<K, V>(h: seq<Call<K, V>>, key: K): Option<Call<K, V>> {
    if |h| == 0 then None
    else
      var c := h[|h| - 1];
      if Settles(c, key) then (if c.Put? then Some(c) else None) else Latest(h[..|h| - 1], key)
  }

  /** `Latest` in terms of positions: it is the put at `i` exactly when call `i`
      puts the key and nothing after it puts or invalidates it. */
  lemma {:induction false} LatestIs<K, V>(h: seq<Call<K, V>>, key: K, i: nat)
    requires i < |h| && h[i].Put? && h[i].key == key
    requires forall j :: i < j < |h| ==> !Settles(h[j], key)
    ensures Latest(h, key) == Some(h[i])
    decreases |h|
  {
    if i < |h| - 1 {
      LatestIs(h[..|h| - 1], key, i);
    }
  }

  lemma {:induction false} LatestFrom<K, V>(h: seq<Call<K, V>>, key: K) returns (i: nat)
    requires Latest(h, key).Some?
    ensures i < |h| && h[i] == Latest(h, key).value && h[i].Put? && h[i].key == key
    ensures forall j :: i < j < |h| ==> !Settles(h[j], key)
    decreases |h|
  {
    if Settles(h[|h| - 1], key) {
      i := |h| - 1;
    } else {
      i := LatestFrom(h[..|h| - 1], key);
    }
  }

  /** When a key was last put or hit. */
  ghost function LastTouch<K, V>(h: seq<Call<K, V>>, key: K): Option<int> {
    if |h| == 0 then None
    else
      var c := h[|h| - 1];
      if c.Put? && c.key == key then Some(c.at)
      else if c.Get? && c.key == key && c.hit then Some(c.at)
      else LastTouch(h[..|h| - 1], key)
  }

  ghost function Gets<K, V>(h: seq<Call<K, V>>): nat {
    if |h| == 0 then 0 else Gets(h[..|h| - 1]) + (if h[|h| - 1].Get? then 1 else 0)
  }

  lemma Extended<K, V>(h: seq<Call<K, V>>, c: Call<K, V>, key: K)
    ensures Latest(h + [c], key) == (if Settles(c, key) then (if c.Put? then Some(c) else None) else Latest(h, key))
    ensures LastTouch(h + [c], key) ==
            (if (c.Put? || (c.Get? && c.hit)) && c.key == key then Some(c.at) else LastTouch(h, key))
    ensures Gets(h + [c]) == Gets(h) + (if c.Get? then 1 else 0)
  {
    assert (h + [c])[..|h|] == h;
  }

  datatype Entry<V> = Entry(value: V, version: nat, expiresAt: int, lastAccessed: int, accessCount: nat)

  class Cache<K(==, !new), V> {
    const maxEntries: nat
    const ttl: nat
    var cache: map<K, Entry<V>>
    var hits: nat
    var misses: nat
    var invalidations: nat
    ghost var history: seq<Call<K, V>>

    /** Every entry is the latest put of its key, and knows when it was last used. */
    ghost predicate EntryOk(key: K)
      requires key in cache
      reads this
    {
      var e := cache[key];
      && Latest(history, key).Some? && Latest(history, key).value.Put?
      && e.value == Latest(history, key).value.value
      && e.version == Latest(history, key).value.version
      && e.expiresAt == Latest(history, key).value.at + ttl
      && LastTouch(history, key) == Some(e.lastAccessed)
    }

    ghost predicate Valid()
      reads this
    {
      && (forall k :: k in cache ==> EntryOk(k))
      && hits + misses == Gets(history)
      && |cache| <= (if maxEntries == 0 then 1 else maxEntries)
    }

    constructor (maxEntries: nat, ttl: nat)
      ensures Valid() && history == [] && cache == map[] && this.maxEntries == maxEntries && this.ttl == ttl
    {
      this.maxEntries, this.ttl := maxEntries, ttl;
      cache, hits, misses, invalidations, history := map[], 0, 0, 0, [];
    }

    method Miss(key: K, now: int)
      requires Valid()
      modifies this
      ensures Valid() && history == old(history) + [Call.Get(key, now, false)]
      ensures cache == old(cache) - {key} && hits == old(hits) && misses == old(misses) + 1
      ensures invalidations == old(invalidations)
    {
      hide Latest, LastTouch, Gets;
      ghost var call := Call.Get(key, now, false);
      Extended(history, call, key);
      forall k | k in cache && k != key
        ensures Latest(history + [call], k) == Latest(history, k) && LastTouch(history + [call], k) == LastTouch(history, k)
      {
        Extended(history, call, k);
      }
      RoomAfter(cache, cache - {key}, Some(key));
      cache := cache - {key};
      misses := misses + 1;
      history := history + [call];
    }

    method Hit(key: K, now: int) returns (e: Entry<V>)
      requires Valid() && key in cache
      modifies this
      ensures Valid() && history == old(history) + [Call.Get(key, now, true)]
      ensures e == old(cache)[key] && hits == old(hits) + 1 && misses == old(misses)
      ensures cache == old(cache)[key := e.(lastAccessed := now, accessCount := e.accessCount + 1)]
      ensures invalidations == old(invalidations)
    {
      hide Latest, LastTouch, Gets;
      ghost var call := Call.Get(key, now, true);
      Extended(history, call, key);
      forall k { Extended(history, call, k); }
      e := cache[key];
      SizeAfter(cache, key, e.(lastAccessed := now, accessCount := e.accessCount + 1));
      cache := cache[key := e.(lastAccessed := now, accessCount := e.accessCount + 1)];
      hits := hits + 1;
      history := history + [call];
      assert EntryOk(key);
    }

    /** A hit returns the value and version of the latest put that was neither
        invalidated nor expired; a miss means that the entry was gone or expired. */
    method Get(key: K, now: int) returns (r: Option<(V, nat)>)
      requires Valid()
      modifies this
      ensures Valid() && history == old(history) + [Call.Get(key, now, r.Some?)]
      ensures r.Some? <==> key in old(cache) && now < old(cache)[key].expiresAt
      ensures r.Some? ==> Latest(old(history), key).Some? &&
                          var p := Latest(old(history), key).value;
                          p.Put? && r.value == (p.value, p.version) && now < p.at + ttl
      ensures cache == if r.Some?
                then old(cache)[key := old(cache)[key].(lastAccessed := now, accessCount := old(cache)[key].accessCount + 1)]
                else old(cache) - {key}
      ensures hits == old(hits) + (if r.Some? then 1 else 0) && misses == old(misses) + (if r.Some? then 0 else 1)
      ensures invalidations == old(invalidations)
    {
      assert key in cache ==> EntryOk(key);
      if key !in cache || now >= cache[key].expiresAt {
        Miss(key, now);
        return None;
      }
      var e := Hit(key, now);
      return Some((e.value, e.version));
    }

    /** Removes an entry used no later than any other; the visiting order is free. */
    method EvictOne() returns (victim: Option<K>)
      modifies this`cache
      ensures old(cache) == map[] <==> victim.None?
      ensures victim.None? ==> cache == old(cache)
      ensures victim.Some? ==>
                && victim.value in old(cache) && cache == old(cache) - {victim.value}
                && forall k :: k in old(cache) ==> old(cache)[victim.value].lastAccessed <= old(cache)[k].lastAccessed
    {
      var left := cache.Keys;
      if left == {} {
        assert cache == map[];
        return None;
      }
      var oldest :| oldest in left;
      while left != {}
        invariant oldest in cache && left <= cache.Keys
        invariant forall k :: k in cache && k !in left ==> cache[oldest].lastAccessed <= cache[k].lastAccessed
        decreases |left|
      {
        var k :| k in left;
        if cache[k].lastAccessed < cache[oldest].lastAccessed {
          oldest := k;
        }
        left := left - {k};
      }
      cache := cache - {oldest};
      return Some(oldest);
    }

    /** Stores a value, first evicting one entry when the cache is full, even to
        replace a key it already holds. */
    method Put(key: K, value: V, version: nat, now: int) returns (ghost victim: Option<K>)
      requires Valid()
      modifies this
      ensures Valid() && history == old(history) + [Call.Put(key, value, version, now)]
      ensures victim.Some? <==> |old(cache)| >= maxEntries && old(cache) != map[]
      ensures victim.Some? ==>
                victim.value in old(cache) && LastTouch(old(history), victim.value).Some? &&
                forall k :: k in old(cache) ==>
                  LastTouch(old(history), k).Some? &&
                  LastTouch(old(history), victim.value).value <= LastTouch(old(history), k).value
      ensures cache == (if victim.Some? then old(cache) - {victim.value} else old(cache))
                       [key := Entry(value, version, now + ttl, now, 1)]
      ensures hits == old(hits) && misses == old(misses) && invalidations == old(invalidations)
    {
      hide Latest, LastTouch, Gets;
      ghost var call := Call.Put(key, value, version, now);
      Extended(history, call, key);
      forall k { Extended(history, call, k); }
      victim := None;
      if |cache| >= maxEntries {
        victim := EvictOne();
        RoomAfter(old(cache), cache, victim);
      }
      SizeAfter(cache, key, Entry(value, version, now + ttl, now, 1));
      cache := cache[key := Entry(value, version, now + ttl, now, 1)];
      history := history + [call];
    }

    method Invalidate(key: K)
      requires Valid()
      modifies this
      ensures Valid() && history == old(history) + [Call.Invalidate(key)] && cache == old(cache) - {key}
      ensures hits == old(hits) && misses == old(misses) && invalidations == old(invalidations) + 1
    {
      ghost var call := Call<K, V>.Invalidate(key);
      forall k { Extended(history, call, k); }
      RoomAfter(cache, cache - {key}, Some(key));
      cache := cache - {key};
      invalidations := invalidations + 1;
      history := history + [call];
    }

    method InvalidateAll()
      requires Valid()
      modifies this
      ensures Valid() && history == old(history) + [Call.InvalidateAll] && cache == map[]
      ensures hits == old(hits) && misses == old(misses) && invalidations == old(invalidations)
    {
      assert (history + [Call.InvalidateAll])[..|history|] == history;
      cache := map[];
      history := history + [Call.InvalidateAll];
    }
  }

  lemma RoomAfter<K, V>(before: map<K, V>, after: map<K, V>, victim: Option<K>)
    requires after == (if victim.Some? then before - {victim.value} else before)
    ensures |after| == |before| - (if victim.Some? && victim.value in before then 1 else 0)
  {
    if victim.Some? {
      assert after.Keys == before.Keys - {victim.value};
    }
  }

  lemma SizeAfter<K, V>(m: map<K, V>, k: K, v: V)
    ensures |m[k := v]| == |m| + (if k in m then 0 else 1)
  {
    assert m[k := v].Keys == m.Keys + {k};
  }

  /** The last touch of a key is its last put or its last hit. */
  lemma {:induction false} LastTouchIs<K, V>(h: seq<Call<K, V>>, key: K, i: nat)
    requires i < |h| && (h[i].Put? || (h[i].Get? && h[i].hit)) && h[i].key == key
    requires forall j :: i < j < |h| ==> !((h[j].Put? || (h[j].Get? && h[j].hit)) && h[j].key == key)
    ensures LastTouch(h, key) == Some(h[i].at)
    decreases |h|
  {
    if i < |h| - 1 {
      LastTouchIs(h[..|h| - 1], key, i);
    }
  }
}
