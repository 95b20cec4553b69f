/** The keys of a tree in chain order, and why that is the ascending listing of
    the map the tree stands for. */
module BTreeListing {
  import opened KeyOrder
  import opened BTreeStore

  /** `ks` lists the set `members` in ascending order. */
  ghost predicate Lists<K(!new)>(cmp: (K, K) -> int, ks: seq<K>, members: set<K>) {
    Ascending(cmp, ks) && (forall k :: k in ks <==> k in members)
  }

  /** Every finite set of keys has an ascending listing. */
  lemma {:induction false} Listing<K(!new)>(cmp: (K, K) -> int, members: set<K>) returns (ks: seq<K>)
    requires TotalOrder(cmp)
    ensures Lists(cmp, ks, members) && |ks| == |members|
    decreases |members|
  {
    hide TotalOrder, Lists;
    if members == {} {
      ks := [];
      NoKeys(cmp, members);
    } else {
      var k :| k in members;
      var rest := Listing(cmp, members - {k});
      ks := Listed(cmp, rest, members - {k}, k);
      assert members - {k} + {k} == members;
    }
  }

  lemma NoKeys<K(!new)>(cmp: (K, K) -> int, members: set<K>)
    requires members == {}
    ensures Lists(cmp, [], members)
  {
  }

  /** One key more in an ascending listing. */
  lemma Listed<K(!new)>(cmp: (K, K) -> int, rest: seq<K>, members: set<K>, k: K) returns (ks: seq<K>)
    requires TotalOrder(cmp) && Lists(cmp, rest, members) && k !in members
    ensures Lists(cmp, ks, members + {k}) && |ks| == |rest| + 1
  {
    hide TotalOrder, Ascending;
    var i := PlaceIn(cmp, rest, k);
    InsertKeepsAscending(cmp, rest, i, k);
    InsertMembers(rest, i, k);
    ks := InsertAt(rest, i, k);
  }

  /** The place of `k` in an ascending sequence. */
  lemma {:induction false} PlaceIn<K(!new)>(cmp: (K, K) -> int, s: seq<K>, k: K) returns (i: nat)
    requires TotalOrder(cmp) && Ascending(cmp, s) && k !in s
    ensures i <= |s| && (i > 0 ==> cmp(s[i - 1], k) < 0) && (i < |s| ==> cmp(k, s[i]) < 0)
    decreases |s|
  {
    if |s| == 0 || cmp(s[|s| - 1], k) < 0 {
      i := |s|;
    } else {
      i := PlaceIn(cmp, s[..|s| - 1], k);
    }
  }

  /** The ascending listing of a finite set of keys. */
  ghost function SortedKeys<K(!new)>(cmp: (K, K) -> int, members: set<K>): (ks: seq<K>)
    requires TotalOrder(cmp)
    ensures Lists(cmp, ks, members) && |ks| == |members|
  {
    ListingExists(cmp, members);
    var ks :| Lists(cmp, ks, members) && |ks| == |members|;
    ks
  }

  lemma ListingExists<K(!new)>(cmp: (K, K) -> int, members: set<K>)
    requires TotalOrder(cmp)
    ensures exists ks :: Lists(cmp, ks, members) && |ks| == |members|
  {
    var ks := Listing(cmp, members);
  }

  lemma InsertMembers<K(!new)>(s: seq<K>, i: nat, x: K)
    requires i <= |s|
    ensures forall y :: y in InsertAt(s, i, x) <==> y == x || y in s
  {
    forall y ensures y in InsertAt(s, i, x) <==> y == x || y in s {
      InsertMember(s, i, x, y);
    }
  }

  /** A set has one ascending listing. */
  lemma {:induction false} ListingUnique<K(!new)>(cmp: (K, K) -> int, a: seq<K>, b: seq<K>, members: set<K>)
    requires TotalOrder(cmp) && Lists(cmp, a, members) && Lists(cmp, b, members)
    ensures a == b
    decreases |a|
  {
    hide TotalOrder, Lists;
    EmptyListing(cmp, a, members);
    EmptyListing(cmp, b, members);
    if members != {} {
      SameLast(cmp, a, b, members);
      DropLast(cmp, a, members);
      DropLast(cmp, b, members);
      var x := a[|a| - 1];
      ListingUnique(cmp, a[..|a| - 1], b[..|b| - 1], members - {x});
      assert a == a[..|a| - 1] + [x] && b == b[..|b| - 1] + [x];
    }
  }

  lemma SameLast<K(!new)>(cmp: (K, K) -> int, a: seq<K>, b: seq<K>, members: set<K>)
    requires TotalOrder(cmp) && Lists(cmp, a, members) && Lists(cmp, b, members) && |a| > 0 && |b| > 0
    ensures a[|a| - 1] == b[|b| - 1]
  {
    var x, y := a[|a| - 1], b[|b| - 1];
    assert x in members && y in members;
    LastIsGreatest(cmp, a, y);
    LastIsGreatest(cmp, b, x);
  }

  lemma EmptyListing<K(!new)>(cmp: (K, K) -> int, s: seq<K>, members: set<K>)
    requires Lists(cmp, s, members)
    ensures s == [] <==> members == {}
  {
    assert |s| > 0 ==> s[0] in members;
  }

  lemma LastIsGreatest<K(!new)>(cmp: (K, K) -> int, s: seq<K>, k: K)
    requires TotalOrder(cmp) && Ascending(cmp, s) && k in s
    ensures cmp(k, s[|s| - 1]) <= 0
  {
    var j :| 0 <= j < |s| && s[j] == k;
    IndexOrder(cmp, s, j, |s| - 1);
  }

  lemma DropLast<K(!new)>(cmp: (K, K) -> int, s: seq<K>, members: set<K>)
    requires TotalOrder(cmp) && Lists(cmp, s, members) && |s| > 0
    ensures Lists(cmp, s[..|s| - 1], members - {s[|s| - 1]})
  {
    var t, last := s[..|s| - 1], s[|s| - 1];
    forall i | 0 <= i < |t| ensures t[i] != last {
      IndexOrder(cmp, s, i, |s| - 1);
    }
    forall k | k in members - {last} ensures k in t {
      var j :| 0 <= j < |s| && s[j] == k;
      assert t[j] == k;
    }
  }

  // ------------------------------------------------------------- chain order

  /** The keys of the leaves `ls`, in that order. */
  ghost function AllKeys<K, V>(s: Store<K, V>, ls: seq<Node<K, V>>): seq<K>
    requires forall n :: n in ls ==> n in s
  {
    if |ls| == 0 then [] else AllKeys(s, ls[..|ls| - 1]) + s[ls[|ls| - 1]].keys
  }

  /** Every key is served by some leaf of the chain. */
  lemma {:induction false} SomeLeafServes<K(!new), V>(cmp: (K, K) -> int, s: Store<K, V>, leaves: seq<Node<K, V>>, k: K, n: nat)
    returns (i: nat)
    requires TotalOrder(cmp) && ChainOk(s, leaves) && n < |leaves| && Until(cmp, k, s[leaves[n]].hi)
    ensures i <= n && Within(cmp, s[leaves[i]].lo, k, s[leaves[i]].hi)
    decreases n
  {
    if From(cmp, s[leaves[n]].lo, k) {
      i := n;
    } else {
      assert Linked(s, leaves[n - 1], leaves[n]);
      i := SomeLeafServes(cmp, s, leaves, k, n - 1);
    }
  }

  /** The keys of the first `n` leaves: those of the map up to where leaf `n` begins. */
  lemma {:induction false} ChainPrefix<K(!new), V>(cmp: (K, K) -> int, s: Store<K, V>, leaves: seq<Node<K, V>>,
                                                  m: map<K, V>, n: nat)
    requires TotalOrder(cmp) && CellsOk(cmp, s) && ChainOk(s, leaves) && ContentsOk(cmp, s, m) && n <= |leaves|
    ensures Ascending(cmp, AllKeys(s, leaves[..n]))
    ensures forall k :: k in AllKeys(s, leaves[..n]) ==> k in m
    ensures n > 0 ==> forall k :: k in AllKeys(s, leaves[..n]) ==> Until(cmp, k, s[leaves[n - 1]].hi)
    decreases n
  {
    if n > 0 {
      var c := s[leaves[n - 1]];
      assert leaves[..n][..n - 1] == leaves[..n - 1];
      ChainPrefix(cmp, s, leaves, m, n - 1);
      assert CellOk(cmp, c) && LeafHolds(cmp, c, m);
      var a := AllKeys(s, leaves[..n - 1]);
      if n > 1 {
        assert Linked(s, leaves[n - 2], leaves[n - 1]);
      }
      JoinAscending(cmp, a, c.keys, c.lo, c.hi);
    }
  }

  lemma JoinAscending<K(!new)>(cmp: (K, K) -> int, a: seq<K>, b: seq<K>, sep: Bound<K>, hi: Bound<K>)
    requires TotalOrder(cmp) && Ascending(cmp, a) && Ascending(cmp, b)
    requires sep == Open ==> a == []
    requires forall k :: k in a ==> Until(cmp, k, sep)
    requires forall i :: 0 <= i < |b| ==> Within(cmp, sep, b[i], hi)
    requires Inhabited(cmp, sep, hi)
    ensures Ascending(cmp, a + b)
    ensures forall k :: k in a + b ==> Until(cmp, k, hi)
  {
    forall i, j | 0 <= i < j < |a + b| ensures cmp((a + b)[i], (a + b)[j]) < 0 {
      if i < |a| <= j {
        assert a[i] in a && Within(cmp, sep, b[j - |a|], hi);
      }
    }
  }

  lemma {:induction false} LeafKeysIncluded<K(!new), V>(s: Store<K, V>, ls: seq<Node<K, V>>, i: nat, k: K)
    requires (forall n :: n in ls ==> n in s) && i < |ls| && k in s[ls[i]].keys
    ensures k in AllKeys(s, ls)
    decreases |ls|
  {
    if i < |ls| - 1 {
      LeafKeysIncluded(s, ls[..|ls| - 1], i, k);
    }
  }

  lemma ChainHoldsKey<K(!new), V>(cmp: (K, K) -> int, s: Store<K, V>, leaves: seq<Node<K, V>>, m: map<K, V>, k: K)
    requires TotalOrder(cmp) && CellsOk(cmp, s) && ChainOk(s, leaves) && ContentsOk(cmp, s, m) && k in m
    ensures k in AllKeys(s, leaves)
  {
    hide TotalOrder, CellsOk, Linked, AllKeys;
    var i := SomeLeafServes(cmp, s, leaves, k, |leaves| - 1);
    assert LeafHolds(cmp, s[leaves[i]], m);
    LeafKeysIncluded(s, leaves, i, k);
  }

  lemma LeavesInStore<K(!new), V>(s: Store<K, V>, leaves: seq<Node<K, V>>)
    requires ChainOk(s, leaves)
    ensures forall n :: n in leaves ==> n in s
  {
  }

  /** Following the leaf chain from its start lists the map in ascending key order. */
  lemma ChainListsMap<K(!new), V>(cmp: (K, K) -> int, s: Store<K, V>, leaves: seq<Node<K, V>>, m: map<K, V>)
    requires TotalOrder(cmp) && CellsOk(cmp, s) && ChainOk(s, leaves) && ContentsOk(cmp, s, m)
    ensures AllKeys(s, leaves) == SortedKeys(cmp, m.Keys)
  {
    hide TotalOrder, CellsOk, ChainOk, ContentsOk, Ascending, AllKeys;
    LeavesInStore(s, leaves);
    var all := AllKeys(s, leaves);
    assert leaves[..|leaves|] == leaves;
    ChainPrefix(cmp, s, leaves, m, |leaves|);
    forall k | k in m ensures k in all {
      ChainHoldsKey(cmp, s, leaves, m, k);
    }
    ListingUnique(cmp, all, SortedKeys(cmp, m.Keys), m.Keys);
  }

  // --------------------------------------------------------------- selection

  /** The values of the wanted keys, in the order of `ks`. */
  ghost function Pick<K, V>(m: map<K, V>, ks: seq<K>, want: K -> bool): seq<V>
    requires forall k :: k in ks ==> k in m
  {
    if |ks| == 0 then []
    else Pick(m, ks[..|ks| - 1], want) + (if want(ks[|ks| - 1]) then [m[ks[|ks| - 1]]] else [])
  }

  lemma {:induction false} PickNone<K(!new), V>(m: map<K, V>, ks: seq<K>, want: K -> bool)
    requires (forall k :: k in ks ==> k in m) && forall k :: k in ks ==> !want(k)
    ensures Pick(m, ks, want) == []
  {
    if |ks| > 0 {
      assert ks[|ks| - 1] in ks;
      PickNone(m, ks[..|ks| - 1], want);
    }
  }

  /** Unwanted keys at the end change nothing. */
  lemma {:induction false} PickPrefix<K(!new), V>(m: map<K, V>, a: seq<K>, b: seq<K>, want: K -> bool)
    requires (forall k :: k in a + b ==> k in m) && forall k :: k in b ==> !want(k)
    ensures forall k :: k in a ==> k in m
    ensures Pick(m, a + b, want) == Pick(m, a, want)
    decreases |b|
  {
    assert forall k :: k in a ==> k in a + b;
    if |b| == 0 {
      assert a + b == a;
    } else {
      var c := b[..|b| - 1];
      assert (a + b)[..|a + b| - 1] == a + c;
      assert b[|b| - 1] in b;
      PickPrefix(m, a, c, want);
    }
  }

  lemma {:induction false} PickConcat<K(!new), V>(m: map<K, V>, a: seq<K>, b: seq<K>, want: K -> bool)
    requires forall k :: k in a + b ==> k in m
    ensures (forall k :: k in a ==> k in m) && (forall k :: k in b ==> k in m)
    ensures Pick(m, a + b, want) == Pick(m, a, want) + Pick(m, b, want)
    decreases |b|
  {
    assert forall k :: k in a || k in b ==> k in a + b;
    if |b| == 0 {
      assert a + b == a;
    } else {
      assert (a + b)[..|a + b| - 1] == a + b[..|b| - 1];
      PickConcat(m, a, b[..|b| - 1], want);
    }
  }

  /** Selecting everything yields the pairs of the listing itself. */
  ghost function Pairs<K, V>(m: map<K, V>, ks: seq<K>): seq<(K, V)>
    requires forall k :: k in ks ==> k in m
  {
    seq(|ks|, i requires 0 <= i < |ks| => (assert ks[i] in ks; (ks[i], m[ks[i]])))
  }

  /** The keys of fewer leaves are a prefix of the keys of more. */
  lemma {:induction false} KeysAfter<K(!new), V>(s: Store<K, V>, leaves: seq<Node<K, V>>, p: nat, n: nat)
    requires (forall x :: x in leaves ==> x in s) && p <= n <= |leaves|
    ensures AllKeys(s, leaves[..p]) <= AllKeys(s, leaves[..n])
    decreases n
  {
    if p < n {
      assert leaves[..n][..n - 1] == leaves[..n - 1];
      KeysAfter(s, leaves, p, n - 1);
    }
  }
}
