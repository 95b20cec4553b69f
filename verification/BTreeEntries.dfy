/** Entry edits inside one leaf keep the tree invariant. */
module BTreeEntries {
  import opened KeyOrder
  import opened BTreeStore

  /** `d` differs from `c` in its entries alone. */
  ghost predicate SameFrame<K, V>(c: Cell<K, V>, d: Cell<K, V>) {
    d == c.(keys := d.keys, values := d.values)
  }

  /** A leaf whose interval excludes `k` holds the same part of any map that
      differs only at `k`. */
  lemma OtherLeafHolds<K(!new), V>(cmp: (K, K) -> int, c: Cell<K, V>, m: map<K, V>, m': map<K, V>, k: K)
    requires LeafHolds(cmp, c, m)
    requires k !in c.keys && !Within(cmp, c.lo, k, c.hi)
    requires forall x :: x != k ==> ((x in m <==> x in m') && (x in m ==> m[x] == m'[x]))
    ensures LeafHolds(cmp, c, m')
  {
  }

  /** Two distinct leaves have disjoint intervals. */
  lemma ChainOrder<K(!new), V>(cmp: (K, K) -> int, s: Store<K, V>, leaves: seq<Node<K, V>>, i: nat, j: nat)
    requires TotalOrder(cmp) && CellsOk(cmp, s) && ChainOk(s, leaves)
    requires i < j < |leaves|
    ensures s[leaves[i]].hi.At? && s[leaves[j]].lo.At?
    ensures cmp(s[leaves[i]].hi.key, s[leaves[j]].lo.key) <= 0
    decreases j
  {
    assert Linked(s, leaves[i], leaves[i + 1]);
    if i + 1 < j {
      ChainOrder(cmp, s, leaves, i, j - 1);
      assert CellOk(cmp, s[leaves[j - 1]]);
      assert Linked(s, leaves[j - 1], leaves[j]);
    }
  }

  lemma OneOwner<K(!new), V>(cmp: (K, K) -> int, s: Store<K, V>, leaves: seq<Node<K, V>>,
                             a: Node<K, V>, b: Node<K, V>, k: K)
    requires TotalOrder(cmp) && CellsOk(cmp, s) && ChainOk(s, leaves)
    requires a in s && b in s && s[a].isLeaf && s[b].isLeaf && a != b
    requires Within(cmp, s[a].lo, k, s[a].hi)
    ensures !Within(cmp, s[b].lo, k, s[b].hi)
  {
    var i :| 0 <= i < |leaves| && leaves[i] == a;
    var j :| 0 <= j < |leaves| && leaves[j] == b;
    if i < j {
      ChainOrder(cmp, s, leaves, i, j);
    } else {
      ChainOrder(cmp, s, leaves, j, i);
    }
  }

  /** The structural part of the invariant survives any edit of one leaf's entries. */
  lemma EditKeepsLinks<K(!new), V>(s: Store<K, V>, root: Node<K, V>, leaves: seq<Node<K, V>>,
                                   leaf: Node<K, V>, d: Cell<K, V>)
    requires ChildrenOk(s) && ParentsOk(s, root) && ChainOk(s, leaves)
    requires leaf in s && s[leaf].isLeaf && s[leaf].children == [] && SameFrame(s[leaf], d)
    ensures ChildrenOk(s[leaf := d]) && ParentsOk(s[leaf := d], root) && ChainOk(s[leaf := d], leaves)
  {
    var t := s[leaf := d];
    forall n, i | n in t && 0 <= i < |t[n].children|
      ensures ChildOk(t, n, i)
    {
      assert n in s && n != leaf && ChildOk(s, n, i);
    }
    forall n | n in t ensures ParentOk(t, root, n) {
      assert ParentOk(s, root, n);
    }
    forall i, j | 0 <= i && j == i + 1 && j < |leaves| ensures Linked(t, leaves[i], leaves[j]) {
      assert Linked(s, leaves[i], leaves[j]);
    }
  }

  /** Editing the entries of the leaf that owns `k`, and the map at `k` alone. */
  lemma EditKeepsContents<K(!new), V>(cmp: (K, K) -> int, s: Store<K, V>, leaves: seq<Node<K, V>>,
                                      m: map<K, V>, m': map<K, V>, leaf: Node<K, V>, d: Cell<K, V>, k: K)
    requires TotalOrder(cmp) && CellsOk(cmp, s) && ChainOk(s, leaves) && ContentsOk(cmp, s, m)
    requires leaf in s && s[leaf].isLeaf && Within(cmp, s[leaf].lo, k, s[leaf].hi)
    requires forall x :: x != k ==> ((x in m <==> x in m') && (x in m ==> m[x] == m'[x]))
    requires LeafHolds(cmp, d, m')
    ensures ContentsOk(cmp, s[leaf := d], m')
  {
    var t := s[leaf := d];
    forall n | n in t && t[n].isLeaf ensures LeafHolds(cmp, t[n], m') {
      if n != leaf {
        OneOwner(cmp, s, leaves, leaf, n, k);
        assert CellOk(cmp, s[n]) && LeafHolds(cmp, s[n], m);
        OtherLeafHolds(cmp, s[n], m, m', k);
      }
    }
  }

  /** Storing a new key at its place in its leaf. */
  lemma PutHolds<K(!new), V>(cmp: (K, K) -> int, c: Cell<K, V>, m: map<K, V>, i: nat, k: K, v: V)
    requires LeafHolds(cmp, c, m) && k !in c.keys && i <= |c.keys|
    ensures LeafHolds(cmp, PutEntry(c, i, k, v), m[k := v])
  {
    var d := PutEntry(c, i, k, v);
    forall j | 0 <= j < |d.keys| ensures d.keys[j] in m[k := v] && m[k := v][d.keys[j]] == d.values[j] {
      if j != i {
        var o := if j < i then j else j - 1;
        assert d.keys[j] == c.keys[o] && d.values[j] == c.values[o];
      }
    }
    forall x | x in m[k := v] && Within(cmp, d.lo, x, d.hi) ensures x in d.keys {
      if x == k {
        assert d.keys[i] == x;
      } else {
        var j :| 0 <= j < |c.keys| && c.keys[j] == x;
        assert d.keys[if j < i then j else j + 1] == x;
      }
    }
  }

  lemma PutKeepsCell<K(!new), V>(cmp: (K, K) -> int, c: Cell<K, V>, i: nat, k: K, v: V)
    requires TotalOrder(cmp) && CellOk(cmp, c) && c.isLeaf
    requires Within(cmp, c.lo, k, c.hi) && i <= |c.keys|
    requires i > 0 ==> cmp(c.keys[i - 1], k) < 0
    requires i < |c.keys| ==> cmp(k, c.keys[i]) < 0
    ensures CellOk(cmp, PutEntry(c, i, k, v))
  {
    var d := PutEntry(c, i, k, v);
    InsertKeepsAscending(cmp, c.keys, i, k);
    forall j | 0 <= j < |d.keys| ensures Within(cmp, d.lo, d.keys[j], d.hi) {
      if j != i {
        assert d.keys[j] == c.keys[if j < i then j else j - 1];
      }
    }
  }

  lemma PutKeepsTree<K(!new), V>(cmp: (K, K) -> int, s: Store<K, V>, root: Node<K, V>, leaves: seq<Node<K, V>>,
                                 m: map<K, V>, leaf: Node<K, V>, i: nat, k: K, v: V)
    requires TotalOrder(cmp) && Tree(cmp, s, root, leaves, m, null)
    requires leaf in s && s[leaf].isLeaf && Within(cmp, s[leaf].lo, k, s[leaf].hi)
    requires i <= |s[leaf].keys|
    requires |s[leaf].values| == |s[leaf].keys|
    requires i > 0 ==> cmp(s[leaf].keys[i - 1], k) < 0
    requires i < |s[leaf].keys| ==> cmp(k, s[leaf].keys[i]) < 0
    ensures k !in m
    ensures Tree(cmp, s[leaf := PutEntry(s[leaf], i, k, v)], root, leaves, m[k := v], leaf)
  {
    var d := PutEntry(s[leaf], i, k, v);
    assert CellOk(cmp, s[leaf]) && LeafHolds(cmp, s[leaf], m);
    BetweenIsAbsent(cmp, s[leaf].keys, i, k);
    PutKeepsCell(cmp, s[leaf], i, k, v);
    PutHolds(cmp, s[leaf], m, i, k, v);
    EditKeepsLinks(s, root, leaves, leaf, d);
    EditKeepsContents(cmp, s, leaves, m, m[k := v], leaf, d, k);
  }

  /** Overwriting the value of a key already in its leaf. */
  lemma SetKeepsTree<K(!new), V>(cmp: (K, K) -> int, s: Store<K, V>, root: Node<K, V>, leaves: seq<Node<K, V>>,
                                 m: map<K, V>, leaf: Node<K, V>, i: nat, v: V)
    requires TotalOrder(cmp) && Tree(cmp, s, root, leaves, m, null)
    requires leaf in s && s[leaf].isLeaf && i < |s[leaf].keys|
    requires |s[leaf].values| == |s[leaf].keys|
    ensures s[leaf].keys[i] in m
    ensures Tree(cmp, s[leaf := s[leaf].(values := s[leaf].values[i := v])], root, leaves, m[s[leaf].keys[i] := v], null)
  {
    var c := s[leaf];
    var d := c.(values := c.values[i := v]);
    var k := c.keys[i];
    assert CellOk(cmp, c) && LeafHolds(cmp, c, m);
    forall j | 0 <= j < |d.keys| ensures d.keys[j] in m[k := v] && m[k := v][d.keys[j]] == d.values[j] {
      assert j < i ==> cmp(c.keys[j], c.keys[i]) < 0;
      assert i < j ==> cmp(c.keys[i], c.keys[j]) < 0;
    }
    EditKeepsLinks(s, root, leaves, leaf, d);
    EditKeepsContents(cmp, s, leaves, m, m[k := v], leaf, d, k);
  }

  /** Erasing entry `i` of a leaf. */
  lemma DropHolds<K(!new), V>(cmp: (K, K) -> int, c: Cell<K, V>, m: map<K, V>, i: nat)
    requires LeafHolds(cmp, c, m) && i < |c.keys| && c.keys[i] !in RemoveAt(c.keys, i)
    ensures LeafHolds(cmp, DropEntry(c, i), m - {c.keys[i]})
  {
    var d := DropEntry(c, i);
    var m' := m - {c.keys[i]};
    forall j | 0 <= j < |d.keys| ensures d.keys[j] in m' && m'[d.keys[j]] == d.values[j] {
      var o := if j < i then j else j + 1;
      assert d.keys[j] in d.keys && d.keys[j] != c.keys[i];
      assert d.keys[j] == c.keys[o] && d.values[j] == c.values[o];
    }
    forall x | x in m' && Within(cmp, d.lo, x, d.hi) ensures x in d.keys {
      var j :| 0 <= j < |c.keys| && c.keys[j] == x;
      assert j != i;
      var o := if j < i then j else j - 1;
      assert d.keys[o] == x;
    }
  }

  lemma DropKeepsCell<K(!new), V>(cmp: (K, K) -> int, c: Cell<K, V>, i: nat)
    requires CellOk(cmp, c) && c.isLeaf && i < |c.keys| && Ascending(cmp, RemoveAt(c.keys, i))
    ensures CellOk(cmp, DropEntry(c, i))
  {
    var d := DropEntry(c, i);
    forall j | 0 <= j < |d.keys| ensures Within(cmp, d.lo, d.keys[j], d.hi) {
      assert d.keys[j] == c.keys[if j < i then j else j + 1];
    }
  }

  lemma DropKeepsTree<K(!new), V>(cmp: (K, K) -> int, s: Store<K, V>, root: Node<K, V>, leaves: seq<Node<K, V>>,
                                  m: map<K, V>, leaf: Node<K, V>, i: nat)
    requires TotalOrder(cmp) && Tree(cmp, s, root, leaves, m, null)
    requires leaf in s && s[leaf].isLeaf && i < |s[leaf].keys|
    requires |s[leaf].values| == |s[leaf].keys|
    ensures s[leaf].keys[i] in m
    ensures Tree(cmp, s[leaf := DropEntry(s[leaf], i)], root, leaves, m - {s[leaf].keys[i]}, null)
  {
    var d := DropEntry(s[leaf], i);
    assert CellOk(cmp, s[leaf]) && LeafHolds(cmp, s[leaf], m);
    RemoveKeepsAscending(cmp, s[leaf].keys, i);
    DropKeepsCell(cmp, s[leaf], i);
    DropHolds(cmp, s[leaf], m, i);
    EditKeepsLinks(s, root, leaves, leaf, d);
    EditKeepsContents(cmp, s, leaves, m, m - {s[leaf].keys[i]}, leaf, d, s[leaf].keys[i]);
  }
}
