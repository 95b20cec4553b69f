/** The range queries of the index, run along the leaf chain. */
module BTreeQueries {
  import opened KeyOrder
  import opened BTreeStore
  import opened BTreeSplits
  import opened BTreeListing
  import opened BPlusTrees

  ghost function InRange<K>(cmp: (K, K) -> int, start: K, end: K, fromStart: bool, toEnd: bool): K -> bool {
    k => (cmp(k, start) > 0 || (fromStart && cmp(k, start) == 0)) && (cmp(k, end) < 0 || (toEnd && cmp(k, end) == 0))
  }

  ghost function Below<K>(cmp: (K, K) -> int, key: K, inclusive: bool): K -> bool {
    k => cmp(k, key) < 0 || (inclusive && cmp(k, key) == 0)
  }

  ghost function Above<K>(cmp: (K, K) -> int, key: K, inclusive: bool): K -> bool {
    k => cmp(k, key) > 0 || (inclusive && cmp(k, key) == 0)
  }

  /** The values of `m` under the wanted keys, in ascending key order. */
  ghost function Answer<K(!new), V>(cmp: (K, K) -> int, m: map<K, V>, want: K -> bool): seq<V>
    requires TotalOrder(cmp)
  {
    Pick(m, SortedKeys(cmp, m.Keys), want)
  }

  /** The entries of one leaf, as parts of the map. */
  ghost predicate Entries<K, V>(keys: seq<K>, values: seq<V>, m: map<K, V>) {
    |values| == |keys| && forall i :: 0 <= i < |keys| ==> keys[i] in m && m[keys[i]] == values[i]
  }

  /** One leaf of a range query: the values in range among the first `n` entries,
      all of them unless an entry past the end of the range was met. */
  method TakeRange<K(!new, ==), V>(cmp: (K, K) -> int, keys: seq<K>, values: seq<V>, start: K, end: K,
                               fromStart: bool, toEnd: bool, ghost m: map<K, V>)
    returns (part: seq<V>, past: bool, ghost n: nat)
    requires Entries(keys, values, m)
    ensures n <= |keys| && (forall k :: k in keys[..n] ==> k in m)
    ensures part == Pick(m, keys[..n], InRange(cmp, start, end, fromStart, toEnd))
    ensures if past then n > 0 && cmp(keys[n - 1], end) > 0 else n == |keys|
  {
    part, past, n := [], false, 0;
    var i := 0;
    while i < |keys|
      invariant 0 <= i <= |keys| && n == i
      invariant part == Pick(m, keys[..i], InRange(cmp, start, end, fromStart, toEnd))
    {
      var cmpStart := cmp(keys[i], start);
      var cmpEnd := cmp(keys[i], end);
      var afterStart := cmpStart > 0 || (fromStart && cmpStart == 0);
      var beforeEnd := cmpEnd < 0 || (toEnd && cmpEnd == 0);
      assert keys[..i + 1][..i] == keys[..i];
      if afterStart && beforeEnd {
        part := part + [values[i]];
      }
      n := i + 1;
      if cmpEnd > 0 {
        return part, true, n;
      }
      i := i + 1;
    }
    assert keys[..|keys|] == keys;
  }

  /** Leaf number `p` of the chain, read from the heap. */
  ghost predicate LeafAt<K(!new), V>(t: BPlusTree<K, V>, p: nat, leaf: Node?<K, V>)
    reads t
  {
    p <= |t.leaves| && leaf == (if p < |t.leaves| then t.leaves[p] else null)
  }

  lemma LeavesStored<K(!new), V>(t: BPlusTree<K, V>)
    requires t.Valid()
    ensures forall n :: n in t.leaves ==> n in t.store
  {
  }

  /** The keys of the first `p` leaves. */
  ghost function KeysTo<K(!new), V>(t: BPlusTree<K, V>, p: nat): seq<K>
    requires t.Valid() && p <= |t.leaves|
    reads t, t.store.Keys
  {
    LeavesStored(t);
    AllKeys(t.store, t.leaves[..p])
  }

  lemma ChainFacts<K(!new), V>(t: BPlusTree<K, V>, p: nat, leaf: Node<K, V>)
    requires t.Valid() && p < |t.leaves| && LeafAt(t, p, leaf)
    ensures leaf in t.store && leaf.Read() == t.store[leaf] && Entries(leaf.keys, leaf.values, t.contents)
    ensures LeafAt(t, p + 1, leaf.next)
    ensures KeysTo(t, p + 1) == KeysTo(t, p) + leaf.keys
  {
    NextLeaf(t.store, t.leaves, p);
    assert LeafHolds(t.cmp, t.store[leaf], t.contents);
    assert t.leaves[..p + 1][..p] == t.leaves[..p];
  }

  /** The whole chain lists the contents, and `KeysTo` its prefixes. */
  lemma KeysFacts<K(!new), V>(t: BPlusTree<K, V>, p: nat)
    requires t.Valid() && p <= |t.leaves|
    ensures KeysTo(t, |t.leaves|) == SortedKeys(t.cmp, t.contents.Keys)
    ensures KeysTo(t, p) <= SortedKeys(t.cmp, t.contents.Keys)
    ensures forall k :: k in KeysTo(t, p) ==> k in t.contents
  {
    assert t.leaves[..|t.leaves|] == t.leaves;
    ChainListsMap(t.cmp, t.store, t.leaves, t.contents);
    ChainPrefix(t.cmp, t.store, t.leaves, t.contents, p);
    KeysAfter(t.store, t.leaves, p, |t.leaves|);
  }

  /** Keys listed before the leaf that serves `key` are below `key`. */
  lemma KeysBefore<K(!new), V>(t: BPlusTree<K, V>, p: nat, key: K)
    requires t.Valid() && p < |t.leaves| && t.leaves[p] in t.store && From(t.cmp, t.store[t.leaves[p]].lo, key)
    ensures forall k :: k in KeysTo(t, p) ==> t.cmp(k, key) < 0
  {
    ChainPrefix(t.cmp, t.store, t.leaves, t.contents, p);
    if p > 0 {
      assert Linked(t.store, t.leaves[p - 1], t.leaves[p]);
    }
  }

  lemma LeafIndex<K(!new), V>(t: BPlusTree<K, V>, leaf: Node<K, V>) returns (p: nat)
    requires t.Valid() && leaf in t.store && t.store[leaf].isLeaf
    ensures p < |t.leaves| && t.leaves[p] == leaf
  {
    p :| 0 <= p < |t.leaves| && t.leaves[p] == leaf;
  }

  /** Once only unwanted keys are left, the rest of the chain adds nothing. */
  lemma DoneBy<K(!new), V>(cmp: (K, K) -> int, m: map<K, V>, a: seq<K>, want: K -> bool)
    requires TotalOrder(cmp) && a <= SortedKeys(cmp, m.Keys)
    requires forall k :: k in SortedKeys(cmp, m.Keys)[|a|..] ==> !want(k)
    ensures forall k :: k in a ==> k in m
    ensures Pick(m, a, want) == Answer(cmp, m, want)
  {
    hide TotalOrder, Pick;
    var all := SortedKeys(cmp, m.Keys);
    assert all == a + all[|a|..];
    assert forall k :: k in all ==> k in m;
    PickPrefix(m, a, all[|a|..], want);
  }

  /** In an ascending listing, keys behind a key past the end are past the end too. */
  lemma PastEnd<K(!new)>(cmp: (K, K) -> int, all: seq<K>, n: nat, end: K)
    requires TotalOrder(cmp) && Ascending(cmp, all) && 0 < n <= |all| && cmp(all[n - 1], end) >= 0
    ensures forall k :: k in all[n..] ==> cmp(k, end) > 0
  {
    forall k | k in all[n..] ensures cmp(k, end) > 0 {
      var j :| 0 <= j < |all[n..]| && all[n..][j] == k;
      IndexOrder(cmp, all, n - 1, n + j);
    }
  }

  // ----------------------------------------------------------------- queries

  /** One leaf consumed: what the collected values stand for afterwards. */
  lemma Consumed<K(!new), V>(t: BPlusTree<K, V>, p: nat, leaf: Node<K, V>, n: nat, want: K -> bool)
    requires t.Valid() && p < |t.leaves| && LeafAt(t, p, leaf) && n <= |leaf.keys|
    ensures var a := KeysTo(t, p) + leaf.keys[..n];
            && a <= SortedKeys(t.cmp, t.contents.Keys)
            && (forall k :: k in a ==> k in t.contents) && (forall k :: k in KeysTo(t, p) ==> k in t.contents)
            && (forall k :: k in leaf.keys[..n] ==> k in t.contents)
            && Pick(t.contents, a, want) == Pick(t.contents, KeysTo(t, p), want) + Pick(t.contents, leaf.keys[..n], want)
  {
    hide TotalOrder, Tree, Pick, SortedKeys;
    ChainFacts(t, p, leaf);
    KeysFacts(t, p + 1);
    var a := KeysTo(t, p) + leaf.keys[..n];
    assert a <= KeysTo(t, p + 1);
    assert forall k :: k in a ==> k in KeysTo(t, p + 1);
    PickConcat(t.contents, KeysTo(t, p), leaf.keys[..n], want);
  }

  /** The wanted values in the first `p` leaves. */
  ghost function Collected<K(!new), V>(t: BPlusTree<K, V>, p: nat, want: K -> bool): seq<V>
    requires t.Valid() && p <= |t.leaves|
    reads t, t.store.Keys
  {
    KeysFacts(t, p);
    Pick(t.contents, KeysTo(t, p), want)
  }

  lemma LeafTaken<K(!new), V>(t: BPlusTree<K, V>, p: nat, leaf: Node<K, V>, want: K -> bool)
    requires t.Valid() && p < |t.leaves| && LeafAt(t, p, leaf)
    ensures forall k :: k in leaf.keys ==> k in t.contents
    ensures Collected(t, p + 1, want) == Collected(t, p, want) + Pick(t.contents, leaf.keys, want)
  {
    hide TotalOrder, Tree, Pick, SortedKeys, BPlusTree.Valid, KeysTo;
    ChainFacts(t, p, leaf);
    Consumed(t, p, leaf, |leaf.keys|, want);
    assert leaf.keys[..|leaf.keys|] == leaf.keys;
  }

  /** A query that starts at the leaf serving `start` has missed nothing it wants. */
  lemma NothingMissed<K(!new), V>(t: BPlusTree<K, V>, leaf: Node<K, V>, start: K, want: K -> bool) returns (p: nat)
    requires t.Valid() && leaf in t.store && t.store[leaf].isLeaf && From(t.cmp, t.store[leaf].lo, start)
    requires forall k :: t.cmp(k, start) < 0 ==> !want(k)
    ensures p < |t.leaves| && LeafAt(t, p, leaf) && Collected(t, p, want) == []
  {
    p := LeafIndex(t, leaf);
    KeysBefore(t, p, start);
    KeysFacts(t, p);
    PickNone(t.contents, KeysTo(t, p), want);
  }

  lemma RangeStarts<K(!new)>(cmp: (K, K) -> int, start: K, end: K, fromStart: bool, toEnd: bool)
    ensures forall k :: cmp(k, start) < 0 ==> !InRange(cmp, start, end, fromStart, toEnd)(k)
  {
  }

  method Range<K(!new, ==), V>(t: BPlusTree<K, V>, start: K, end: K, fromStart: bool, toEnd: bool) returns (result: seq<V>)
    requires t.Valid()
    ensures result == Answer(t.cmp, t.contents, InRange(t.cmp, start, end, fromStart, toEnd))
  {
    hide TotalOrder, Tree, BPlusTree.Valid, BPlusTree.Shaped, KeysTo, Collected, Pick, SortedKeys, Answer, InRange, Entries;
    ghost var want := InRange(t.cmp, start, end, fromStart, toEnd);
    result := [];
    var leaf: Node?<K, V> := t.FindLeaf(start);
    RangeStarts(t.cmp, start, end, fromStart, toEnd);
    ghost var p := NothingMissed(t, leaf, start, want);
    while leaf != null
      invariant LeafAt(t, p, leaf)
      invariant result == Collected(t, p, want)
      decreases |t.leaves| - p
    {
      ChainFacts(t, p, leaf);
      var part, past, n := TakeRange(t.cmp, leaf.keys, leaf.values, start, end, fromStart, toEnd, t.contents);
      result := result + part;
      if past {
        RangeDone(t, p, leaf, n, start, end, fromStart, toEnd);
        return;
      }
      assert leaf.keys[..n] == leaf.keys;
      LeafTaken(t, p, leaf, want);
      leaf, p := leaf.next, p + 1;
    }
    ChainDone(t, p, want);
  }

  lemma ChainDone<K(!new), V>(t: BPlusTree<K, V>, p: nat, want: K -> bool)
    requires t.Valid() && LeafAt(t, p, null)
    ensures Collected(t, p, want) == Answer(t.cmp, t.contents, want)
  {
    KeysFacts(t, p);
  }

  /** A query may stop at an entry of a leaf when no greater key is wanted. */
  lemma StopsAt<K(!new), V>(t: BPlusTree<K, V>, p: nat, leaf: Node<K, V>, n: nat, end: K, want: K -> bool)
    requires t.Valid() && p < |t.leaves| && LeafAt(t, p, leaf) && 0 < n <= |leaf.keys|
    requires t.cmp(leaf.keys[n - 1], end) >= 0 && forall k :: t.cmp(k, end) > 0 ==> !want(k)
    ensures forall k :: k in leaf.keys[..n] ==> k in t.contents
    ensures Collected(t, p, want) + Pick(t.contents, leaf.keys[..n], want) == Answer(t.cmp, t.contents, want)
  {
    hide Tree, TotalOrder, Pick, SortedKeys, KeysTo, Answer;
    Consumed(t, p, leaf, n, want);
    var a, all := KeysTo(t, p) + leaf.keys[..n], SortedKeys(t.cmp, t.contents.Keys);
    assert all[|a| - 1] == a[|a| - 1] == leaf.keys[n - 1];
    PastEnd(t.cmp, all, |a|, end);
    DoneBy(t.cmp, t.contents, a, want);
  }

  lemma RangeDone<K(!new), V>(t: BPlusTree<K, V>, p: nat, leaf: Node<K, V>, n: nat,
                              start: K, end: K, fromStart: bool, toEnd: bool)
    requires t.Valid() && p < |t.leaves| && LeafAt(t, p, leaf) && 0 < n <= |leaf.keys| && t.cmp(leaf.keys[n - 1], end) > 0
    ensures forall k :: k in leaf.keys[..n] ==> k in t.contents
    ensures var want := InRange(t.cmp, start, end, fromStart, toEnd);
            Collected(t, p, want) + Pick(t.contents, leaf.keys[..n], want) == Answer(t.cmp, t.contents, want)
  {
    hide Tree, TotalOrder, Collected, Answer, Pick;
    StopsAt(t, p, leaf, n, end, InRange(t.cmp, start, end, fromStart, toEnd));
  }

  /** One leaf of a downward-bounded query; stops at the first entry out of bounds. */
  method TakeBelow<K(!new, ==), V>(cmp: (K, K) -> int, keys: seq<K>, values: seq<V>, key: K, inclusive: bool,
                                   ghost m: map<K, V>)
    returns (part: seq<V>, past: bool, ghost n: nat)
    requires Entries(keys, values, m)
    ensures n <= |keys| && (forall k :: k in keys[..n] ==> k in m)
    ensures part == Pick(m, keys[..n], Below(cmp, key, inclusive))
    ensures if past then n > 0 && !Below(cmp, key, inclusive)(keys[n - 1]) else n == |keys|
  {
    part, past, n := [], false, 0;
    var i := 0;
    while i < |keys|
      invariant 0 <= i <= |keys| && n == i
      invariant part == Pick(m, keys[..i], Below(cmp, key, inclusive))
    {
      var c := cmp(keys[i], key);
      assert keys[..i + 1][..i] == keys[..i];
      n := i + 1;
      if c < 0 || (inclusive && c == 0) {
        part := part + [values[i]];
      } else {
        return part, true, n;
      }
      i := i + 1;
    }
    assert keys[..|keys|] == keys;
  }

  method TakeAbove<K(!new, ==), V>(cmp: (K, K) -> int, keys: seq<K>, values: seq<V>, key: K, inclusive: bool,
                                   ghost m: map<K, V>)
    returns (part: seq<V>)
    requires Entries(keys, values, m)
    ensures (forall k :: k in keys ==> k in m) && part == Pick(m, keys, Above(cmp, key, inclusive))
  {
    part := [];
    var i := 0;
    while i < |keys|
      invariant 0 <= i <= |keys|
      invariant part == Pick(m, keys[..i], Above(cmp, key, inclusive))
    {
      var c := cmp(keys[i], key);
      assert keys[..i + 1][..i] == keys[..i];
      if c > 0 || (inclusive && c == 0) {
        part := part + [values[i]];
      }
      i := i + 1;
    }
    assert keys[..|keys|] == keys;
  }

  /** The first leaf of the chain. */
  method LeftMostLeaf<K(!new), V>(t: BPlusTree<K, V>) returns (leaf: Node<K, V>)
    requires t.Valid()
    ensures LeafAt(t, 0, leaf) && |t.leaves| > 0
  {
    hide TotalOrder, Tree, BPlusTree.Valid;
    leaf := t.root;
    RootStart(t);
    while !leaf.isLeaf
      invariant leaf in t.store && t.store[leaf].lo == Open && leaf.Read() == t.store[leaf]
      decreases t.store[leaf].level
    {
      FirstChild(t, leaf);
      leaf := leaf.children[0];
    }
    FirstLeaf(t, leaf);
  }

  lemma RootStart<K(!new), V>(t: BPlusTree<K, V>)
    requires t.Valid()
    ensures t.root in t.store && t.store[t.root].lo == Open && t.root.Read() == t.store[t.root]
  {
  }

  lemma FirstChild<K(!new), V>(t: BPlusTree<K, V>, n: Node<K, V>)
    requires t.Valid() && n in t.store && !t.store[n].isLeaf
    ensures n.Read() == t.store[n] && |n.children| > 0 && n.children[0] in t.store
    ensures var c := n.children[0];
            c.Read() == t.store[c] && t.store[c].lo == t.store[n].lo && t.store[c].level < t.store[n].level
  {
    assert CellOk(t.cmp, t.store[n]) && ChildOk(t.store, n, 0);
  }

  lemma FirstLeaf<K(!new), V>(t: BPlusTree<K, V>, leaf: Node<K, V>)
    requires t.Valid() && leaf in t.store && t.store[leaf].isLeaf && t.store[leaf].lo == Open
    ensures LeafAt(t, 0, leaf) && |t.leaves| > 0
  {
    var p := LeafIndex(t, leaf);
    LaterLeavesBounded(t, p);
  }

  lemma LaterLeavesBounded<K(!new), V>(t: BPlusTree<K, V>, p: nat)
    requires t.Valid() && p < |t.leaves|
    ensures t.leaves[p] in t.store && |t.leaves| > 0 && (p > 0 ==> t.store[t.leaves[p]].lo.At?)
  {
    if p > 0 {
      assert Linked(t.store, t.leaves[p - 1], t.leaves[p]);
    }
  }

  lemma StartOfChain<K(!new), V>(t: BPlusTree<K, V>, want: K -> bool)
    requires t.Valid()
    ensures Collected(t, 0, want) == []
  {
  }

  lemma BelowEnds<K(!new)>(cmp: (K, K) -> int, key: K, inclusive: bool)
    ensures forall k :: !Below(cmp, key, inclusive)(k) ==> cmp(k, key) >= 0
    ensures forall k :: cmp(k, key) > 0 ==> !Below(cmp, key, inclusive)(k)
  {
  }

  lemma BelowDone<K(!new), V>(t: BPlusTree<K, V>, p: nat, leaf: Node<K, V>, n: nat, key: K, inclusive: bool)
    requires t.Valid() && p < |t.leaves| && LeafAt(t, p, leaf) && 0 < n <= |leaf.keys|
    requires !Below(t.cmp, key, inclusive)(leaf.keys[n - 1])
    ensures forall k :: k in leaf.keys[..n] ==> k in t.contents
    ensures var want := Below(t.cmp, key, inclusive);
            Collected(t, p, want) + Pick(t.contents, leaf.keys[..n], want) == Answer(t.cmp, t.contents, want)
  {
    hide Tree, TotalOrder, Collected, Answer, Pick;
    BelowEnds(t.cmp, key, inclusive);
    StopsAt(t, p, leaf, n, key, Below(t.cmp, key, inclusive));
  }

  method LessThan<K(!new, ==), V>(t: BPlusTree<K, V>, key: K, inclusive: bool) returns (result: seq<V>)
    requires t.Valid()
    ensures result == Answer(t.cmp, t.contents, Below(t.cmp, key, inclusive))
  {
    hide TotalOrder, Tree, BPlusTree.Valid, BPlusTree.Shaped, KeysTo, Collected, Pick, SortedKeys, Answer, Below, Entries;
    ghost var want := Below(t.cmp, key, inclusive);
    result := [];
    var leaf: Node?<K, V> := LeftMostLeaf(t);
    ghost var p := 0;
    StartOfChain(t, want);
    while leaf != null
      invariant LeafAt(t, p, leaf)
      invariant result == Collected(t, p, want)
      decreases |t.leaves| - p
    {
      ChainFacts(t, p, leaf);
      var part, past, n := TakeBelow(t.cmp, leaf.keys, leaf.values, key, inclusive, t.contents);
      result := result + part;
      if past {
        BelowDone(t, p, leaf, n, key, inclusive);
        return;
      }
      assert leaf.keys[..n] == leaf.keys;
      LeafTaken(t, p, leaf, want);
      leaf, p := leaf.next, p + 1;
    }
    ChainDone(t, p, want);
  }

  lemma AboveStarts<K(!new)>(cmp: (K, K) -> int, key: K, inclusive: bool)
    ensures forall k :: cmp(k, key) < 0 ==> !Above(cmp, key, inclusive)(k)
  {
  }

  method GreaterThan<K(!new, ==), V>(t: BPlusTree<K, V>, key: K, inclusive: bool) returns (result: seq<V>)
    requires t.Valid()
    ensures result == Answer(t.cmp, t.contents, Above(t.cmp, key, inclusive))
  {
    hide TotalOrder, Tree, BPlusTree.Valid, BPlusTree.Shaped, KeysTo, Collected, Pick, SortedKeys, Answer, Above, Entries;
    ghost var want := Above(t.cmp, key, inclusive);
    result := [];
    var leaf: Node?<K, V> := t.FindLeaf(key);
    AboveStarts(t.cmp, key, inclusive);
    ghost var p := NothingMissed(t, leaf, key, want);
    while leaf != null
      invariant LeafAt(t, p, leaf)
      invariant result == Collected(t, p, want)
      decreases |t.leaves| - p
    {
      ChainFacts(t, p, leaf);
      var part := TakeAbove(t.cmp, leaf.keys, leaf.values, key, inclusive, t.contents);
      LeafTaken(t, p, leaf, want);
      result := result + part;
      leaf, p := leaf.next, p + 1;
    }
    ChainDone(t, p, want);
  }

  /** `part` is what a scan takes of a leaf after `count` entries: all the leaf has, or
      as many as the limit leaves. */
  ghost predicate Taken<K(!new), V>(m: map<K, V>, keys: seq<K>, limit: int, count: nat, part: seq<(K, V)>) {
    && (forall k :: k in keys ==> k in m)
    && |part| <= |keys| && part == Pairs(m, keys)[..|part|]
    && (limit < 0 || count + |part| <= limit) && (|part| < |keys| ==> count + |part| == limit)
  }

  /** One leaf of a scan: its entries, as far as the limit allows. */
  method TakeEntries<K(!new, ==), V>(keys: seq<K>, values: seq<V>, limit: int, count: nat, ghost m: map<K, V>)
    returns (part: seq<(K, V)>)
    requires Entries(keys, values, m) && (limit < 0 || count < limit)
    ensures Taken(m, keys, limit, count, part)
  {
    part := [];
    var i := 0;
    while i < |keys|
      invariant 0 <= i <= |keys| && |part| == i
      invariant part == Pairs(m, keys)[..i]
      invariant limit < 0 || count + i <= limit
    {
      if limit >= 0 && count + i >= limit {
        return;
      }
      part := part + [(keys[i], values[i])];
      i := i + 1;
    }
  }

  lemma ExtendPairs<K(!new), V>(m: map<K, V>, all: seq<K>, a: seq<K>, b: seq<K>, result: seq<(K, V)>, part: seq<(K, V)>)
    requires (forall k :: k in all ==> k in m) && (forall k :: k in b ==> k in m) && a + b <= all
    requires |part| <= |b| && result == Pairs(m, all)[..|a|] && part == Pairs(m, b)[..|part|]
    ensures result + part == Pairs(m, all)[..|a| + |part|]
  {
    forall i | 0 <= i < |part| ensures part[i] == Pairs(m, all)[|a| + i] {
      assert all[|a| + i] == (a + b)[|a| + i] == b[i];
    }
  }

  /** What a scan with a limit returns: the whole listing, or its first entries. */
  ghost function Scanned<K(!new), V>(cmp: (K, K) -> int, m: map<K, V>, limit: int): seq<(K, V)>
    requires TotalOrder(cmp)
  {
    var all := Pairs(m, SortedKeys(cmp, m.Keys));
    if 0 <= limit < |all| then all[..limit] else all
  }

  method Scan<K(!new, ==), V>(t: BPlusTree<K, V>, limit: int) returns (result: seq<(K, V)>)
    requires t.Valid()
    ensures result == Scanned(t.cmp, t.contents, limit)
  {
    hide TotalOrder, Tree, BPlusTree.Valid, BPlusTree.Shaped, KeysTo, SortedKeys, Scanned, Entries, Pairs;
    result := [];
    var leaf: Node?<K, V> := LeftMostLeaf(t);
    ghost var p := 0;
    ScanStarts(t);
    while leaf != null && (limit < 0 || |result| < limit)
      invariant LeafAt(t, p, leaf)
      invariant Partial(t, p, limit, result)
      decreases |t.leaves| - p
    {
      ChainFacts(t, p, leaf);
      var part := TakeEntries(leaf.keys, leaf.values, limit, |result|, t.contents);
      ScanStep(t, p, leaf, limit, result, part);
      result := result + part;
      leaf, p := leaf.next, p + 1;
    }
    ScanDone(t, p, limit, result);
  }

  /** After `p` leaves a scan holds their entries, or it has reached its limit. */
  ghost predicate Partial<K(!new), V>(t: BPlusTree<K, V>, p: nat, limit: int, result: seq<(K, V)>)
    requires t.Valid()
    reads t, t.store.Keys
  {
    && p <= |t.leaves|
    && |result| <= |SortedKeys(t.cmp, t.contents.Keys)|
    && result == Pairs(t.contents, SortedKeys(t.cmp, t.contents.Keys))[..|result|]
    && (limit >= 0 ==> |result| <= limit)
    && (|result| == |KeysTo(t, p)| || |result| == limit)
  }

  lemma ScanStarts<K(!new), V>(t: BPlusTree<K, V>)
    requires t.Valid()
    ensures forall limit :: Partial(t, 0, limit, [])
  {
    hide TotalOrder, Tree, SortedKeys;
    KeysFacts(t, 0);
  }

  lemma ScanStep<K(!new), V>(t: BPlusTree<K, V>, p: nat, leaf: Node<K, V>, limit: int, result: seq<(K, V)>, part: seq<(K, V)>)
    requires t.Valid() && p < |t.leaves| && LeafAt(t, p, leaf) && Partial(t, p, limit, result)
    requires (limit < 0 || |result| < limit) && Taken(t.contents, leaf.keys, limit, |result|, part)
    ensures Partial(t, p + 1, limit, result + part)
  {
    hide TotalOrder, Tree, KeysTo, SortedKeys, Pairs, Entries;
    ChainFacts(t, p, leaf);
    KeysFacts(t, p + 1);
    ExtendPairs(t.contents, SortedKeys(t.cmp, t.contents.Keys), KeysTo(t, p), leaf.keys, result, part);
  }

  lemma ScanDone<K(!new), V>(t: BPlusTree<K, V>, p: nat, limit: int, result: seq<(K, V)>)
    requires t.Valid() && Partial(t, p, limit, result)
    requires p == |t.leaves| || (limit >= 0 && |result| >= limit)
    ensures result == Scanned(t.cmp, t.contents, limit)
  {
    hide TotalOrder, Tree;
    KeysFacts(t, p);
  }
}
