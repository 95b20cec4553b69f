/** Splitting a full node and telling its parent keeps the tree invariant. */
module BTreeSplits {
  import opened KeyOrder
  import opened BTreeStore

  /** `t` is `s` with node `n` cut at `sep`: the new node `f` takes the upper part
      of the interval and of the children, and no parent knows `f` yet. */
  ghost predicate IsCut<K, V>(s: Store<K, V>, t: Store<K, V>, n: Node<K, V>, f: Node<K, V>, sep: K) {
    && n in s && f !in s && t.Keys == s.Keys + {f}
    && t[n].level == t[f].level == s[n].level
    && t[n].parent == t[f].parent == s[n].parent
    && t[n].lo == s[n].lo && t[n].hi == At(sep)
    && t[f].lo == At(sep) && t[f].hi == s[n].hi
    && (forall x {:trigger t[x]} :: x in s && x != n ==> Bystander(s[x], t[x], n, f))
    && (forall i {:trigger ChildOk(t, n, i)} :: 0 <= i < |t[n].children| ==> ChildOk(t, n, i))
    && (forall i {:trigger ChildOk(t, f, i)} :: 0 <= i < |t[f].children| ==> ChildOk(t, f, i))
    && (forall x {:trigger t[x]} :: x in s && s[x].parent == n ==>
          (t[x].parent == n && x in t[n].children) || (t[x].parent == f && x in t[f].children))
  }

  /** How a node other than the one being cut may change. */
  ghost predicate Bystander<K, V>(c: Cell<K, V>, d: Cell<K, V>, n: Node<K, V>, f: Node<K, V>) {
    && d == c.(parent := d.parent, prev := d.prev)
    && (c.parent != n ==> d.parent == c.parent)
    && (c.parent == n ==> d.parent in {n, f})
  }

  /** Parent `p` of the cut node learns of the new node. */
  ghost function Attach<K, V>(t: Store<K, V>, p: Node<K, V>, i: nat, sep: K, f: Node<K, V>): Store<K, V>
    requires p in t && i <= |t[p].keys| && |t[p].children| == |t[p].keys| + 1
  {
    t[p := AddChild(t[p], i, sep, f)]
  }

  /** `p` is the parent of `n`, which is its child number `i`. */
  ghost predicate ParentAt<K, V>(s: Store<K, V>, n: Node<K, V>, p: Node<K, V>, i: nat) {
    && n in s && p in s && s[n].parent == p
    && |s[p].children| == |s[p].keys| + 1
    && i < |s[p].children| && s[p].children[i] == n
  }

  lemma AttachKeepsParentChildren<K(!new), V>(s: Store<K, V>, t: Store<K, V>, n: Node<K, V>, f: Node<K, V>,
                                              sep: K, p: Node<K, V>, i: nat, j: nat)
    requires ChildrenOk(s) && IsCut(s, t, n, f, sep) && ParentAt(s, n, p, i)
    requires p != n && t[p].children == s[p].children && t[p].keys == s[p].keys
    requires forall a, b :: 0 <= a < b < |s[p].children| ==> s[p].children[a] != s[p].children[b]
    requires j <= |s[p].children|
    ensures ChildOk(Attach(t, p, i, sep, f), p, j)
  {
    var u := Attach(t, p, i, sep, f);
    assert ChildOk(s, p, i);
    if j < i {
      assert ChildOk(s, p, j);
      assert s[p].children[j] != n;
      var c := u[p].children[j];
      assert Bystander(s[c], t[c], n, f);
      assert Bystander(s[p], t[p], n, f);
    } else if j > i + 1 {
      assert ChildOk(s, p, j - 1);
      assert s[p].children[j - 1] != n;
      var c := u[p].children[j];
      assert Bystander(s[c], t[c], n, f);
      assert Bystander(s[p], t[p], n, f);
    }
  }

  /** An inner node lists no child twice. */
  lemma ChildrenDistinct<K(!new), V>(cmp: (K, K) -> int, s: Store<K, V>, p: Node<K, V>, a: nat, b: nat)
    requires TotalOrder(cmp) && CellsOk(cmp, s) && ChildrenOk(s)
    requires p in s && a < b < |s[p].children|
    ensures s[p].children[a] != s[p].children[b]
  {
    assert CellOk(cmp, s[p]) && ChildOk(s, p, a) && ChildOk(s, p, b);
    assert a > 0 ==> cmp(s[p].keys[a - 1], s[p].keys[b - 1]) < 0;
  }

  lemma AttachKeepsChildren<K(!new), V>(cmp: (K, K) -> int, s: Store<K, V>, t: Store<K, V>,
                                        n: Node<K, V>, f: Node<K, V>, sep: K, p: Node<K, V>, i: nat)
    requires TotalOrder(cmp) && CellsOk(cmp, s) && ChildrenOk(s)
    requires IsCut(s, t, n, f, sep) && ParentAt(s, n, p, i) && p != n
    requires t[p].children == s[p].children && t[p].keys == s[p].keys
    ensures ChildrenOk(Attach(t, p, i, sep, f))
  {
    var u := Attach(t, p, i, sep, f);
    forall m, j | m in u && 0 <= j < |u[m].children| ensures ChildOk(u, m, j) {
      if m == p {
        forall a, b | 0 <= a < b < |s[p].children| ensures s[p].children[a] != s[p].children[b] {
          ChildrenDistinct(cmp, s, p, a, b);
        }
        AttachKeepsParentChildren(s, t, n, f, sep, p, i, j);
      } else if m == n || m == f {
        assert ChildOk(t, m, j);
      } else {
        assert Bystander(s[m], t[m], n, f);
        assert ChildOk(s, m, j);
        var c := s[m].children[j];
        assert c != n;
        assert Bystander(s[c], t[c], n, f);
      }
    }
  }

  lemma AttachKeepsParents<K(!new), V>(s: Store<K, V>, t: Store<K, V>, root: Node<K, V>,
                                       n: Node<K, V>, f: Node<K, V>, sep: K, p: Node<K, V>, i: nat)
    requires ParentsOk(s, root)
    requires IsCut(s, t, n, f, sep) && ParentAt(s, n, p, i) && p != n
    requires t[p].children == s[p].children && t[p].keys == s[p].keys
    ensures ParentsOk(Attach(t, p, i, sep, f), root)
  {
    var u := Attach(t, p, i, sep, f);
    assert Bystander(s[root], t[root], n, f);
    assert u[p].children[i] == n && u[p].children[i + 1] == f;
    forall x | x in u ensures ParentOk(u, root, x) {
      assert ParentOk(s, root, n);
      if x != f && x != n {
        assert ParentOk(s, root, x);
        assert Bystander(s[x], t[x], n, f);
        if x != root && s[x].parent != n {
          var q := s[x].parent;
          assert Bystander(s[q], t[q], n, f);
          var j :| 0 <= j < |s[q].children| && s[q].children[j] == x;
          assert u[q].children[if q == p && j > i then j + 1 else j] == x;
        }
      }
    }
  }

  /** The parent's keys stay in order around the separator. */
  lemma AttachKeepsCell<K(!new), V>(cmp: (K, K) -> int, c: Cell<K, V>, i: nat, sep: K, f: Node<K, V>)
    requires TotalOrder(cmp) && CellOk(cmp, c) && !c.isLeaf && i <= |c.keys|
    requires Inhabited(cmp, ChildLo(c, i), At(sep)) && Inhabited(cmp, At(sep), ChildHi(c, i))
    ensures CellOk(cmp, AddChild(c, i, sep, f))
  {
    var d := AddChild(c, i, sep, f);
    InsertKeepsAscending(cmp, c.keys, i, sep);
    assert i > 0 ==> Within(cmp, c.lo, c.keys[i - 1], c.hi);
    assert i < |c.keys| ==> Within(cmp, c.lo, c.keys[i], c.hi);
    forall j | 0 <= j < |d.keys| ensures Within(cmp, d.lo, d.keys[j], d.hi) && d.lo != At(d.keys[j]) {
      if j != i {
        assert d.keys[j] == c.keys[if j < i then j else j - 1];
      }
    }
  }

  // ------------------------------------------------------------------ leaves

  ghost predicate FullLeaf<K, V>(s: Store<K, V>, leaf: Node<K, V>) {
    leaf in s && s[leaf].isLeaf && s[leaf].children == [] && |s[leaf].keys| == |s[leaf].values| == ORDER
  }

  ghost predicate NextIsLeaf<K, V>(s: Store<K, V>, leaf: Node<K, V>)
    requires leaf in s
  {
    s[leaf].next != null ==> s[leaf].next != leaf && s[leaf].next in s && s[s[leaf].next].isLeaf
  }

  /** The record-by-record account of a leaf cut. */
  lemma CutLeafCells<K, V>(s: Store<K, V>, leaf: Node<K, V>, f: Node<K, V>)
    requires FullLeaf(s, leaf) && NextIsLeaf(s, leaf) && f !in s
    ensures var t := CutLeaf(s, leaf, f);
            var c := s[leaf];
            && t.Keys == s.Keys + {f}
            && t[leaf] == c.(keys := c.keys[..MIN_KEYS], values := c.values[..MIN_KEYS], next := f, hi := At(c.keys[MIN_KEYS]))
            && t[f] == Cell(true, c.keys[MIN_KEYS..], c.values[MIN_KEYS..], [], c.parent, c.next, leaf,
                            0, At(c.keys[MIN_KEYS]), c.hi)
            && (c.next != null ==> t[c.next] == s[c.next].(prev := f))
            && (forall x :: x in s && x != leaf && x != c.next ==> t[x] == s[x])
            && (forall x :: x in s ==> t[x].level == s[x].level && (s[x].isLeaf || t[x] == s[x]))
  {
  }

  lemma NextLeaf<K(!new), V>(s: Store<K, V>, leaves: seq<Node<K, V>>, q: nat)
    requires ChainOk(s, leaves) && q < |leaves|
    ensures s[leaves[q]].next == (if q + 1 < |leaves| then leaves[q + 1] else null)
  {
    if q + 1 < |leaves| {
      assert Linked(s, leaves[q], leaves[q + 1]);
    }
  }

  lemma ParentHasChildren<K(!new), V>(s: Store<K, V>, root: Node<K, V>, x: Node<K, V>)
    requires ParentsOk(s, root) && x in s && s[x].parent != null
    ensures s[x].parent in s && x in s[s[x].parent].children
  {
    assert ParentOk(s, root, x);
  }

  lemma CutLeafIsCut<K(!new), V>(s: Store<K, V>, root: Node<K, V>, leaves: seq<Node<K, V>>,
                                 leaf: Node<K, V>, f: Node<K, V>)
    requires ParentsOk(s, root) && ChainOk(s, leaves) && FullLeaf(s, leaf) && f !in s && s[leaf].level == 0
    ensures IsCut(s, CutLeaf(s, leaf, f), leaf, f, s[leaf].keys[MIN_KEYS])
  {
    var t := CutLeaf(s, leaf, f);
    var q :| 0 <= q < |leaves| && leaves[q] == leaf;
    NextLeaf(s, leaves, q);
    forall x | x in s && s[x].parent != null ensures s[x].parent != leaf {
      ParentHasChildren(s, root, x);
    }
  }

  lemma CutLeafKeepsCells<K(!new), V>(cmp: (K, K) -> int, s: Store<K, V>, leaf: Node<K, V>, f: Node<K, V>)
    requires TotalOrder(cmp) && CellsOk(cmp, s) && FullLeaf(s, leaf) && f !in s
    requires NextIsLeaf(s, leaf)
    ensures CellsOk(cmp, CutLeaf(s, leaf, f))
  {
    var t := CutLeaf(s, leaf, f);
    assert CellOk(cmp, s[leaf]);
    LowerHalfCell(cmp, s[leaf], t[leaf]);
    UpperHalfCell(cmp, s[leaf], t[f]);
    forall x | x in t ensures CellOk(cmp, t[x]) {
      if x != leaf && x != f {
        assert CellOk(cmp, s[x]);
      }
    }
  }

  lemma LowerHalfCell<K(!new), V>(cmp: (K, K) -> int, c: Cell<K, V>, a: Cell<K, V>)
    requires TotalOrder(cmp) && CellOk(cmp, c) && c.isLeaf && |c.keys| == ORDER
    requires a == c.(keys := c.keys[..MIN_KEYS], values := c.values[..MIN_KEYS], next := a.next, hi := At(c.keys[MIN_KEYS]))
    ensures CellOk(cmp, a)
  {
    HalvesInOrder(cmp, c.keys);
    assert cmp(c.keys[0], c.keys[MIN_KEYS]) < 0 && Within(cmp, c.lo, c.keys[0], c.hi);
    forall i | 0 <= i < |a.keys| ensures Within(cmp, a.lo, a.keys[i], a.hi) {
      assert Within(cmp, c.lo, c.keys[i], c.hi);
    }
  }

  lemma UpperHalfCell<K(!new), V>(cmp: (K, K) -> int, c: Cell<K, V>, b: Cell<K, V>)
    requires TotalOrder(cmp) && CellOk(cmp, c) && c.isLeaf && |c.keys| == ORDER
    requires b == c.(keys := c.keys[MIN_KEYS..], values := c.values[MIN_KEYS..], next := b.next, prev := b.prev,
                     lo := At(c.keys[MIN_KEYS]))
    ensures CellOk(cmp, b)
  {
    HalvesInOrder(cmp, c.keys);
    assert Within(cmp, c.lo, c.keys[MIN_KEYS], c.hi);
    forall i | 0 <= i < |b.keys| ensures Within(cmp, b.lo, b.keys[i], b.hi) {
      assert Within(cmp, c.lo, c.keys[MIN_KEYS + i], c.hi);
    }
  }

  lemma HalvesInOrder<K(!new)>(cmp: (K, K) -> int, keys: seq<K>)
    requires TotalOrder(cmp) && Ascending(cmp, keys) && |keys| == ORDER
    ensures Ascending(cmp, keys[..MIN_KEYS]) && Ascending(cmp, keys[MIN_KEYS..])
    ensures forall i :: 0 <= i < MIN_KEYS ==> cmp(keys[..MIN_KEYS][i], keys[MIN_KEYS]) < 0
    ensures forall i :: 0 <= i < MIN_KEYS ==> cmp(keys[MIN_KEYS], keys[MIN_KEYS..][i]) <= 0
  {
    forall i | 0 <= i < MIN_KEYS
      ensures cmp(keys[..MIN_KEYS][i], keys[MIN_KEYS]) < 0 && cmp(keys[MIN_KEYS], keys[MIN_KEYS..][i]) <= 0
    {
      assert i > 0 ==> cmp(keys[MIN_KEYS], keys[MIN_KEYS + i]) < 0;
    }
  }

  lemma CutLeafKeepsLinks<K(!new), V>(s: Store<K, V>, leaves: seq<Node<K, V>>, q: nat, f: Node<K, V>, i: nat)
    requires ChainOk(s, leaves) && q < |leaves| && FullLeaf(s, leaves[q]) && f !in s && i < |leaves|
    ensures var ls := InsertAt(leaves, q + 1, f);
            var t := CutLeaf(s, leaves[q], f);
            ls[i] in t && ls[i + 1] in t && Linked(t, ls[i], ls[i + 1])
  {
    NextLeaf(s, leaves, q);
    if i < q {
      assert Linked(s, leaves[i], leaves[i + 1]);
    } else if i == q + 1 {
      assert Linked(s, leaves[q], leaves[q + 1]);
    } else if i > q + 1 {
      assert Linked(s, leaves[i - 1], leaves[i]);
    }
  }

  lemma InsertKeepsDistinct<T>(s: seq<T>, i: nat, x: T)
    requires i <= |s| && x !in s && forall a, b :: 0 <= a < b < |s| ==> s[a] != s[b]
    ensures forall a, b :: 0 <= a < b < |s| + 1 ==> InsertAt(s, i, x)[a] != InsertAt(s, i, x)[b]
  {
  }

  lemma CutLeafKeepsLeaves<K(!new), V>(s: Store<K, V>, leaves: seq<Node<K, V>>, q: nat, f: Node<K, V>)
    requires ChainOk(s, leaves) && q < |leaves| && FullLeaf(s, leaves[q]) && f !in s
    ensures var t, ls := CutLeaf(s, leaves[q], f), InsertAt(leaves, q + 1, f);
            && (forall x :: x in t && t[x].isLeaf ==> x in ls)
            && (forall i :: 0 <= i < |ls| ==> ls[i] in t && t[ls[i]].isLeaf)
  {
    hide CutLeaf, Linked;
    NextLeaf(s, leaves, q);
    CutLeafCells(s, leaves[q], f);
    var t, ls := CutLeaf(s, leaves[q], f), InsertAt(leaves, q + 1, f);
    forall x | x in t && t[x].isLeaf ensures x in ls {
      InsertMember(leaves, q + 1, f, x);
    }
    forall i | 0 <= i < |ls| ensures ls[i] in t && t[ls[i]].isLeaf {
      InsertMember(leaves, q + 1, f, ls[i]);
    }
  }

  lemma CutLeafKeepsEnds<K(!new), V>(s: Store<K, V>, leaves: seq<Node<K, V>>, q: nat, f: Node<K, V>)
    requires ChainOk(s, leaves) && q < |leaves| && FullLeaf(s, leaves[q]) && f !in s
    ensures var t, ls := CutLeaf(s, leaves[q], f), InsertAt(leaves, q + 1, f);
            && ls[0] in t && t[ls[0]].prev == null && t[ls[0]].lo == Open
            && ls[|ls| - 1] in t && t[ls[|ls| - 1]].next == null && t[ls[|ls| - 1]].hi == Open
  {
    hide CutLeaf, Linked;
    NextLeaf(s, leaves, q);
    CutLeafCells(s, leaves[q], f);
  }

  lemma CutLeafKeepsChain<K(!new), V>(s: Store<K, V>, leaves: seq<Node<K, V>>, q: nat, f: Node<K, V>)
    requires ChainOk(s, leaves) && q < |leaves| && FullLeaf(s, leaves[q]) && f !in s
    ensures ChainOk(CutLeaf(s, leaves[q], f), InsertAt(leaves, q + 1, f))
  {
    hide CutLeaf, Linked;
    var t := CutLeaf(s, leaves[q], f);
    var ls := InsertAt(leaves, q + 1, f);
    CutLeafKeepsLeaves(s, leaves, q, f);
    CutLeafKeepsEnds(s, leaves, q, f);
    InsertKeepsDistinct(leaves, q + 1, f);
    forall i, j | 0 <= i && j == i + 1 && j < |ls| ensures Linked(t, ls[i], ls[j]) {
      CutLeafKeepsLinks(s, leaves, q, f, i);
    }
  }

  lemma CutLeafKeepsContents<K(!new), V>(cmp: (K, K) -> int, s: Store<K, V>, m: map<K, V>,
                                         leaf: Node<K, V>, f: Node<K, V>)
    requires TotalOrder(cmp) && CellsOk(cmp, s) && FullLeaf(s, leaf) && f !in s
    requires NextIsLeaf(s, leaf)
    requires ContentsOk(cmp, s, m)
    ensures ContentsOk(cmp, CutLeaf(s, leaf, f), m)
  {
    hide TotalOrder, CutLeaf, CellOk, LeafHolds, Ascending, Within;
    CutLeafCells(s, leaf, f);
    var t := CutLeaf(s, leaf, f);
    assert CellOk(cmp, s[leaf]) && LeafHolds(cmp, s[leaf], m);
    FullCell(cmp, s[leaf]);
    LowerHalfHolds(cmp, s[leaf], m, t[leaf]);
    UpperHalfHolds(cmp, s[leaf], m, t[f]);
    forall x | x in t && t[x].isLeaf ensures LeafHolds(cmp, t[x], m) {
      if x != leaf && x != f {
        assert LeafHolds(cmp, s[x], m);
        SameHolds(cmp, s[x], t[x], m);
      }
    }
  }

  lemma FullCell<K(!new), V>(cmp: (K, K) -> int, c: Cell<K, V>)
    requires CellOk(cmp, c) && |c.keys| == ORDER
    ensures Ascending(cmp, c.keys) && Within(cmp, c.lo, c.keys[MIN_KEYS], c.hi)
  {
  }

  lemma SameHolds<K(!new), V>(cmp: (K, K) -> int, c: Cell<K, V>, d: Cell<K, V>, m: map<K, V>)
    requires LeafHolds(cmp, c, m) && d == c.(prev := d.prev)
    ensures LeafHolds(cmp, d, m)
  {
  }

  /** Each half of a cut leaf holds the entries of its half of the interval. */
  lemma LowerHalfHolds<K(!new), V>(cmp: (K, K) -> int, c: Cell<K, V>, m: map<K, V>, a: Cell<K, V>)
    requires TotalOrder(cmp) && Ascending(cmp, c.keys) && LeafHolds(cmp, c, m) && |c.keys| == ORDER
    requires Within(cmp, c.lo, c.keys[MIN_KEYS], c.hi)
    requires a.keys == c.keys[..MIN_KEYS] && a.values == c.values[..MIN_KEYS]
    requires a.lo == c.lo && a.hi == At(c.keys[MIN_KEYS])
    ensures LeafHolds(cmp, a, m)
  {
    hide TotalOrder, Ascending;
    forall k | k in m && Within(cmp, a.lo, k, a.hi) ensures k in a.keys {
      CutInterval(cmp, c.lo, c.keys[MIN_KEYS], c.hi, k);
      HalfOf(cmp, c.keys, MIN_KEYS, k);
    }
  }

  lemma UpperHalfHolds<K(!new), V>(cmp: (K, K) -> int, c: Cell<K, V>, m: map<K, V>, b: Cell<K, V>)
    requires TotalOrder(cmp) && Ascending(cmp, c.keys) && LeafHolds(cmp, c, m) && |c.keys| == ORDER
    requires Within(cmp, c.lo, c.keys[MIN_KEYS], c.hi)
    requires b.keys == c.keys[MIN_KEYS..] && b.values == c.values[MIN_KEYS..]
    requires b.lo == At(c.keys[MIN_KEYS]) && b.hi == c.hi
    ensures LeafHolds(cmp, b, m)
  {
    hide TotalOrder, Ascending;
    assert forall i :: 0 <= i < |b.keys| ==> b.keys[i] == c.keys[MIN_KEYS + i] && b.values[i] == c.values[MIN_KEYS + i];
    forall k | k in m && Within(cmp, b.lo, k, b.hi) ensures k in b.keys {
      CutInterval(cmp, c.lo, c.keys[MIN_KEYS], c.hi, k);
      HalfOf(cmp, c.keys, MIN_KEYS, k);
    }
  }

  // ------------------------------------------------------------- inner nodes

  ghost predicate FullInner<K, V>(s: Store<K, V>, n: Node<K, V>) {
    n in s && !s[n].isLeaf && |s[n].keys| == ORDER && |s[n].children| == ORDER + 1
  }

  /** The record-by-record account of an inner cut. */
  lemma CutInnerCells<K, V>(s: Store<K, V>, n: Node<K, V>, f: Node<K, V>)
    requires FullInner(s, n) && n !in s[n].children && f !in s
    ensures var t := CutInner(s, n, f);
            var c := s[n];
            && t.Keys == s.Keys + {f}
            && t[n] == c.(keys := c.keys[..MIN_KEYS], children := c.children[..MIN_KEYS + 1], hi := At(c.keys[MIN_KEYS]))
            && t[f] == Cell(false, c.keys[MIN_KEYS + 1..], [], c.children[MIN_KEYS + 1..], c.parent,
                            null, null, c.level, At(c.keys[MIN_KEYS]), c.hi)
            && (forall x :: x in s && x != n ==>
                  t[x] == (if x in c.children[MIN_KEYS + 1..] then s[x].(parent := f) else s[x]))
            && (forall x :: x in s ==> t[x].level == s[x].level && t[x].isLeaf == s[x].isLeaf)
  {
  }

  /** The children handed to the new node are exactly the upper ones. */
  lemma MovedChildren<K(!new), V>(cmp: (K, K) -> int, s: Store<K, V>, n: Node<K, V>, j: nat)
    requires TotalOrder(cmp) && CellsOk(cmp, s) && ChildrenOk(s) && FullInner(s, n) && j < |s[n].children|
    ensures s[n].children[j] in s[n].children[MIN_KEYS + 1..] <==> j > MIN_KEYS
  {
    var moved := s[n].children[MIN_KEYS + 1..];
    if j > MIN_KEYS {
      assert moved[j - MIN_KEYS - 1] == s[n].children[j];
    } else {
      forall x | 0 <= x < |moved| ensures moved[x] != s[n].children[j] {
        ChildrenDistinct(cmp, s, n, j, x + MIN_KEYS + 1);
      }
    }
  }

  lemma CutInnerLowerChild<K(!new), V>(cmp: (K, K) -> int, s: Store<K, V>, n: Node<K, V>, f: Node<K, V>, j: nat)
    requires TotalOrder(cmp) && CellsOk(cmp, s) && ChildrenOk(s) && FullInner(s, n) && f !in s && j <= MIN_KEYS
    ensures ChildOk(CutInner(s, n, f), n, j)
  {
    assert ChildOk(s, n, j);
    MovedChildren(cmp, s, n, j);
  }

  lemma CutInnerUpperChild<K(!new), V>(cmp: (K, K) -> int, s: Store<K, V>, n: Node<K, V>, f: Node<K, V>, j: nat)
    requires TotalOrder(cmp) && CellsOk(cmp, s) && ChildrenOk(s) && FullInner(s, n) && f !in s && j < MIN_KEYS
    ensures ChildOk(CutInner(s, n, f), f, j)
  {
    assert ChildOk(s, n, j + MIN_KEYS + 1);
    MovedChildren(cmp, s, n, j + MIN_KEYS + 1);
    assert s[n].children[MIN_KEYS + 1..][j] == s[n].children[j + MIN_KEYS + 1];
  }

  lemma CutInnerChildPlace<K(!new), V>(cmp: (K, K) -> int, s: Store<K, V>, n: Node<K, V>, f: Node<K, V>, x: Node<K, V>)
    requires TotalOrder(cmp) && CellsOk(cmp, s) && ChildrenOk(s) && FullInner(s, n) && f !in s
    requires x in s && s[x].parent == n && x in s[n].children && x != n
    ensures var t := CutInner(s, n, f);
            (t[x].parent == n && x in t[n].children) || (t[x].parent == f && x in t[f].children)
  {
    var t := CutInner(s, n, f);
    var j :| 0 <= j < |s[n].children| && s[n].children[j] == x;
    MovedChildren(cmp, s, n, j);
    if j <= MIN_KEYS {
      assert t[n].children[j] == x;
    }
  }

  lemma CutInnerBystander<K(!new), V>(s: Store<K, V>, n: Node<K, V>, f: Node<K, V>, x: Node<K, V>)
    requires ChildrenOk(s) && FullInner(s, n) && f !in s && x in s && x != n
    ensures Bystander(s[x], CutInner(s, n, f)[x], n, f)
  {
    if x in s[n].children[MIN_KEYS + 1..] {
      var j :| 0 <= j < |s[n].children| && s[n].children[j] == x;
      assert ChildOk(s, n, j);
    }
  }

  lemma CutInnerIsCut<K(!new), V>(cmp: (K, K) -> int, s: Store<K, V>, root: Node<K, V>, n: Node<K, V>, f: Node<K, V>)
    requires TotalOrder(cmp) && CellsOk(cmp, s) && ChildrenOk(s) && ParentsOk(s, root) && FullInner(s, n) && f !in s
    ensures IsCut(s, CutInner(s, n, f), n, f, s[n].keys[MIN_KEYS])
  {
    var t := CutInner(s, n, f);
    assert t.Keys == s.Keys + {f};
    forall x | x in s && x != n ensures Bystander(s[x], t[x], n, f) {
      CutInnerBystander(s, n, f, x);
    }
    forall j | 0 <= j < |t[n].children| ensures ChildOk(t, n, j) {
      CutInnerLowerChild(cmp, s, n, f, j);
    }
    forall j | 0 <= j < |t[f].children| ensures ChildOk(t, f, j) {
      CutInnerUpperChild(cmp, s, n, f, j);
    }
    forall x | x in s && s[x].parent == n
      ensures (t[x].parent == n && x in t[n].children) || (t[x].parent == f && x in t[f].children)
    {
      ParentHasChildren(s, root, x);
      NotOwnParent(s, root, x);
      CutInnerChildPlace(cmp, s, n, f, x);
    }
  }

  lemma NotOwnParent<K(!new), V>(s: Store<K, V>, root: Node<K, V>, n: Node<K, V>)
    requires ChildrenOk(s) && ParentsOk(s, root) && n in s && s[n].parent != null
    ensures s[n].parent in s && s[n].parent != n && s[s[n].parent].level == s[n].level + 1
  {
    ParentHasChildren(s, root, n);
    var p := s[n].parent;
    var j :| 0 <= j < |s[p].children| && s[p].children[j] == n;
    assert ChildOk(s, p, j);
  }

  lemma NotOwnChild<K(!new), V>(s: Store<K, V>, n: Node<K, V>)
    requires ChildrenOk(s) && n in s
    ensures n !in s[n].children
  {
    forall j | 0 <= j < |s[n].children| ensures s[n].children[j] != n {
      assert ChildOk(s, n, j);
    }
  }

  lemma LowerInnerCell<K(!new), V>(cmp: (K, K) -> int, c: Cell<K, V>, a: Cell<K, V>)
    requires TotalOrder(cmp) && CellOk(cmp, c) && !c.isLeaf && |c.keys| == ORDER
    requires a == c.(keys := c.keys[..MIN_KEYS], children := c.children[..MIN_KEYS + 1], hi := At(c.keys[MIN_KEYS]))
    ensures CellOk(cmp, a)
  {
    HalvesInOrder(cmp, c.keys);
    assert Within(cmp, c.lo, c.keys[MIN_KEYS], c.hi);
    forall i | 0 <= i < |a.keys| ensures Within(cmp, a.lo, a.keys[i], a.hi) && a.lo != At(a.keys[i]) {
      assert Within(cmp, c.lo, c.keys[i], c.hi);
    }
  }

  lemma UpperInnerCell<K(!new), V>(cmp: (K, K) -> int, c: Cell<K, V>, b: Cell<K, V>)
    requires TotalOrder(cmp) && CellOk(cmp, c) && !c.isLeaf && |c.keys| == ORDER
    requires b == c.(keys := c.keys[MIN_KEYS + 1..], children := c.children[MIN_KEYS + 1..], lo := At(c.keys[MIN_KEYS]))
    ensures CellOk(cmp, b)
  {
    assert Within(cmp, c.lo, c.keys[MIN_KEYS], c.hi);
    forall i | 0 <= i < |b.keys| ensures Within(cmp, b.lo, b.keys[i], b.hi) && b.lo != At(b.keys[i]) {
      IndexOrder(cmp, c.keys, MIN_KEYS, MIN_KEYS + 1 + i);
      assert Within(cmp, c.lo, c.keys[MIN_KEYS + 1 + i], c.hi);
    }
  }

  lemma CutInnerKeepsCells<K(!new), V>(cmp: (K, K) -> int, s: Store<K, V>, n: Node<K, V>, f: Node<K, V>)
    requires TotalOrder(cmp) && CellsOk(cmp, s) && FullInner(s, n) && f !in s
    ensures CellsOk(cmp, CutInner(s, n, f))
  {
    var t := CutInner(s, n, f);
    assert CellOk(cmp, s[n]);
    LowerInnerCell(cmp, s[n], t[n]);
    UpperInnerCell(cmp, s[n], t[f]);
    forall x | x in t ensures CellOk(cmp, t[x]) {
      if x != n && x != f {
        assert CellOk(cmp, s[x]);
      }
    }
  }

  /** Leaves keep everything but their parent link. */
  ghost predicate SameLeaves<K, V>(s: Store<K, V>, t: Store<K, V>) {
    && (forall x {:trigger s[x]} :: x in s && s[x].isLeaf ==> x in t && t[x] == s[x].(parent := t[x].parent))
    && (forall x {:trigger t[x]} :: x in t && t[x].isLeaf ==> x in s && s[x].isLeaf)
  }

  lemma SameLeavesKeepChain<K(!new), V>(s: Store<K, V>, t: Store<K, V>, leaves: seq<Node<K, V>>)
    requires SameLeaves(s, t) && ChainOk(s, leaves)
    ensures ChainOk(t, leaves)
  {
    forall i, j | 0 <= i && j == i + 1 && j < |leaves| ensures Linked(t, leaves[i], leaves[j]) {
      assert Linked(s, leaves[i], leaves[j]);
    }
  }

  lemma SameLeavesKeepContents<K(!new), V>(cmp: (K, K) -> int, s: Store<K, V>, t: Store<K, V>, m: map<K, V>)
    requires SameLeaves(s, t) && ContentsOk(cmp, s, m)
    ensures ContentsOk(cmp, t, m)
  {
    forall x | x in t && t[x].isLeaf ensures LeafHolds(cmp, t[x], m) {
      assert LeafHolds(cmp, s[x], m);
    }
  }

  // ------------------------------------------------------------ whole splits

  lemma CellInhabited<K(!new), V>(cmp: (K, K) -> int, c: Cell<K, V>)
    requires CellOk(cmp, c)
    ensures Inhabited(cmp, c.lo, c.hi)
  {
  }

  lemma AttachKeepsCells<K(!new), V>(cmp: (K, K) -> int, s: Store<K, V>, t: Store<K, V>,
                                     n: Node<K, V>, f: Node<K, V>, sep: K, p: Node<K, V>, i: nat)
    requires TotalOrder(cmp) && CellsOk(cmp, t) && ChildrenOk(s)
    requires IsCut(s, t, n, f, sep) && ParentAt(s, n, p, i) && p != n && !s[p].isLeaf
    ensures t[p].children == s[p].children && t[p].keys == s[p].keys
    ensures CellsOk(cmp, Attach(t, p, i, sep, f))
  {
    hide TotalOrder, CellOk, Inhabited;
    assert Bystander(s[p], t[p], n, f);
    assert ChildOk(s, p, i);
    assert CellOk(cmp, t[n]) && CellOk(cmp, t[f]) && CellOk(cmp, t[p]);
    CellInhabited(cmp, t[n]);
    CellInhabited(cmp, t[f]);
    AttachKeepsCell(cmp, t[p], i, sep, f);
    var u := Attach(t, p, i, sep, f);
    forall x | x in u ensures CellOk(cmp, u[x]) {
      if x != p {
        assert CellOk(cmp, t[x]);
      }
    }
  }

  /** Only the parent can become full. */
  lemma AttachKeepsRoom<K(!new), V>(s: Store<K, V>, t: Store<K, V>,
                                    n: Node<K, V>, f: Node<K, V>, sep: K, p: Node<K, V>, i: nat)
    requires NotFull(s, n) && IsCut(s, t, n, f, sep) && ParentAt(s, n, p, i) && p != n
    requires t[p].children == s[p].children && t[p].keys == s[p].keys
    requires |t[n].keys| < ORDER && |t[f].keys| < ORDER
    ensures NotFull(Attach(t, p, i, sep, f), p)
  {
    var u := Attach(t, p, i, sep, f);
    forall x | x in u ensures |u[x].keys| < ORDER || (x == p && |u[x].keys| == ORDER) {
      assert x in s && x != n ==> Bystander(s[x], t[x], n, f);
    }
  }

  lemma SplitLeafKeepsLinks<K(!new), V>(cmp: (K, K) -> int, s: Store<K, V>, root: Node<K, V>,
                                        leaves: seq<Node<K, V>>, leaf: Node<K, V>, f: Node<K, V>, p: Node<K, V>, i: nat)
    requires TotalOrder(cmp) && CellsOk(cmp, s) && ChildrenOk(s) && ParentsOk(s, root) && ChainOk(s, leaves)
    requires FullLeaf(s, leaf) && NextIsLeaf(s, leaf) && s[leaf].level == 0 && NotFull(s, leaf)
    requires f !in s && ParentAt(s, leaf, p, i) && !s[p].isLeaf
    ensures var t := CutLeaf(s, leaf, f);
            && p in t && t[p] == s[p]
            && var u := Attach(t, p, i, s[leaf].keys[MIN_KEYS], f);
               CellsOk(cmp, u) && NotFull(u, p) && ChildrenOk(u) && ParentsOk(u, root)
  {
    var t := CutLeaf(s, leaf, f);
    var sep := s[leaf].keys[MIN_KEYS];
    CutLeafIsCut(s, root, leaves, leaf, f);
    CutLeafKeepsCells(cmp, s, leaf, f);
    AttachKeepsCells(cmp, s, t, leaf, f, sep, p, i);
    AttachKeepsRoom(s, t, leaf, f, sep, p, i);
    AttachKeepsChildren(cmp, s, t, leaf, f, sep, p, i);
    AttachKeepsParents(s, t, root, leaf, f, sep, p, i);
  }

  lemma SplitLeafKeepsData<K(!new), V>(cmp: (K, K) -> int, s: Store<K, V>, leaves: seq<Node<K, V>>, m: map<K, V>,
                                       q: nat, f: Node<K, V>, p: Node<K, V>, i: nat)
    requires TotalOrder(cmp) && CellsOk(cmp, s) && ChainOk(s, leaves) && ContentsOk(cmp, s, m)
    requires q < |leaves| && FullLeaf(s, leaves[q]) && NextIsLeaf(s, leaves[q])
    requires f !in s && ParentAt(s, leaves[q], p, i) && !s[p].isLeaf
    ensures var t := CutLeaf(s, leaves[q], f);
            && p in t && t[p] == s[p]
            && var u := Attach(t, p, i, s[leaves[q]].keys[MIN_KEYS], f);
               ChainOk(u, InsertAt(leaves, q + 1, f)) && ContentsOk(cmp, u, m)
  {
    hide TotalOrder, CellsOk, CutLeaf, ChainOk, ContentsOk, InsertAt;
    CutLeafCells(s, leaves[q], f);
    var t := CutLeaf(s, leaves[q], f);
    CutLeafKeepsChain(s, leaves, q, f);
    CutLeafKeepsContents(cmp, s, m, leaves[q], f);
    var u := Attach(t, p, i, s[leaves[q]].keys[MIN_KEYS], f);
    SameLeavesKeepChain(t, u, InsertAt(leaves, q + 1, f));
    SameLeavesKeepContents(cmp, t, u, m);
  }

  /** A full leaf split below its parent: afterwards only the parent may be full. */
  lemma SplitLeafKeepsTree<K(!new), V>(cmp: (K, K) -> int, s: Store<K, V>, root: Node<K, V>, leaves: seq<Node<K, V>>,
                                       m: map<K, V>, q: nat, f: Node<K, V>, p: Node<K, V>, i: nat)
    requires TotalOrder(cmp) && q < |leaves| && Tree(cmp, s, root, leaves, m, leaves[q])
    requires FullLeaf(s, leaves[q]) && f !in s && ParentAt(s, leaves[q], p, i)
    ensures var t := CutLeaf(s, leaves[q], f);
            && p in t && t[p] == s[p]
            && Tree(cmp, Attach(t, p, i, s[leaves[q]].keys[MIN_KEYS], f), root, InsertAt(leaves, q + 1, f), m, p)
  {
    assert CellOk(cmp, s[leaves[q]]) && CellOk(cmp, s[p]);
    NextLeaf(s, leaves, q);
    SplitLeafKeepsLinks(cmp, s, root, leaves, leaves[q], f, p, i);
    SplitLeafKeepsData(cmp, s, leaves, m, q, f, p, i);
  }

  lemma SplitInnerKeepsLinks<K(!new), V>(cmp: (K, K) -> int, s: Store<K, V>, root: Node<K, V>,
                                         n: Node<K, V>, f: Node<K, V>, p: Node<K, V>, i: nat)
    requires TotalOrder(cmp) && CellsOk(cmp, s) && ChildrenOk(s) && ParentsOk(s, root)
    requires FullInner(s, n) && f !in s && ParentAt(s, n, p, i) && !s[p].isLeaf && NotFull(s, n)
    ensures var t := CutInner(s, n, f);
            && p in t && t[p].keys == s[p].keys && t[p].children == s[p].children
            && var u := Attach(t, p, i, s[n].keys[MIN_KEYS], f);
               CellsOk(cmp, u) && NotFull(u, p) && ChildrenOk(u) && ParentsOk(u, root)
  {
    var t := CutInner(s, n, f);
    var sep := s[n].keys[MIN_KEYS];
    NotOwnParent(s, root, n);
    CutInnerIsCut(cmp, s, root, n, f);
    CutInnerKeepsCells(cmp, s, n, f);
    AttachKeepsCells(cmp, s, t, n, f, sep, p, i);
    AttachKeepsRoom(s, t, n, f, sep, p, i);
    AttachKeepsChildren(cmp, s, t, n, f, sep, p, i);
    AttachKeepsParents(s, t, root, n, f, sep, p, i);
  }

  lemma ParentIsInner<K(!new), V>(cmp: (K, K) -> int, s: Store<K, V>, n: Node<K, V>, p: Node<K, V>, i: nat)
    requires CellsOk(cmp, s) && ParentAt(s, n, p, i)
    ensures !s[p].isLeaf
  {
    assert CellOk(cmp, s[p]);
  }

  lemma SplitInnerKeepsLeaves<K(!new), V>(s: Store<K, V>, n: Node<K, V>, f: Node<K, V>, p: Node<K, V>, i: nat)
    requires FullInner(s, n) && n !in s[n].children && f !in s && ParentAt(s, n, p, i) && !s[p].isLeaf
    requires var t := CutInner(s, n, f);
             p in t && t[p].keys == s[p].keys && t[p].children == s[p].children
    ensures SameLeaves(s, Attach(CutInner(s, n, f), p, i, s[n].keys[MIN_KEYS], f))
  {
    hide CutInner;
    CutInnerCells(s, n, f);
  }

  /** A full inner node split below its parent. */
  lemma SplitInnerKeepsTree<K(!new), V>(cmp: (K, K) -> int, s: Store<K, V>, root: Node<K, V>, leaves: seq<Node<K, V>>,
                                        m: map<K, V>, n: Node<K, V>, f: Node<K, V>, p: Node<K, V>, i: nat)
    requires TotalOrder(cmp) && Tree(cmp, s, root, leaves, m, n)
    requires FullInner(s, n) && f !in s && ParentAt(s, n, p, i)
    ensures var t := CutInner(s, n, f);
            && p in t && t[p].keys == s[p].keys && t[p].children == s[p].children
            && Tree(cmp, Attach(t, p, i, s[n].keys[MIN_KEYS], f), root, leaves, m, p)
  {
    hide TotalOrder, CellsOk, ChildrenOk, ParentsOk, ChainOk, ContentsOk, NotFull, CutInner, Attach, SameLeaves;
    ParentIsInner(cmp, s, n, p, i);
    SplitInnerKeepsLinks(cmp, s, root, n, f, p, i);
    var u := Attach(CutInner(s, n, f), p, i, s[n].keys[MIN_KEYS], f);
    NotOwnChild(s, n);
    SplitInnerKeepsLeaves(s, n, f, p, i);
    SameLeavesKeepChain(s, u, leaves);
    SameLeavesKeepContents(cmp, s, u, m);
  }

  lemma GrowKeepsLinks<K(!new), V>(s: Store<K, V>, root: Node<K, V>, top: Node<K, V>)
    requires ChildrenOk(s) && ParentsOk(s, root) && top !in s
    ensures ChildrenOk(Grow(s, root, top)) && ParentsOk(Grow(s, root, top), top)
  {
    var t := Grow(s, root, top);
    assert ParentOk(s, root, root);
    assert t[top].children[0] == root;
    forall x, i | x in t && 0 <= i < |t[x].children| ensures ChildOk(t, x, i) {
      if x in s {
        assert ChildOk(s, x, i);
      }
    }
    forall x | x in t ensures ParentOk(t, top, x) {
      if x in s {
        assert ParentOk(s, root, x);
      }
    }
  }

  lemma GrowKeepsCells<K(!new), V>(cmp: (K, K) -> int, s: Store<K, V>, root: Node<K, V>, top: Node<K, V>)
    requires CellsOk(cmp, s) && root in s && top !in s
    ensures CellsOk(cmp, Grow(s, root, top)) && SameLeaves(s, Grow(s, root, top))
  {
    var t := Grow(s, root, top);
    assert CellOk(cmp, s[root]);
    forall x | x in t ensures CellOk(cmp, t[x]) {
      if x in s {
        assert CellOk(cmp, s[x]);
      }
    }
  }

  lemma GrowKeepsTree<K(!new), V>(cmp: (K, K) -> int, s: Store<K, V>, root: Node<K, V>, leaves: seq<Node<K, V>>,
                                  m: map<K, V>, over: Node?<K, V>, top: Node<K, V>)
    requires Tree(cmp, s, root, leaves, m, over) && top !in s
    ensures Tree(cmp, Grow(s, root, top), top, leaves, m, over)
  {
    hide CellOk, ChildrenOk, ParentOk, ChainOk, ContentsOk, SameLeaves;
    var t := Grow(s, root, top);
    GrowKeepsCells(cmp, s, root, top);
    GrowKeepsLinks(s, root, top);
    SameLeavesKeepChain(s, t, leaves);
    SameLeavesKeepContents(cmp, s, t, m);
  }

  // -------------------------------------------------------------- root splits

  /** The two halves of a cut root placed under a new root. */
  ghost function Crown<K, V>(t: Store<K, V>, n: Node<K, V>, f: Node<K, V>, sep: K, top: Node<K, V>): Store<K, V>
    requires n in t && f in t
  {
    t[n := t[n].(parent := top)]
     [f := t[f].(parent := top)]
     [top := Cell(false, [sep], [], [n, f], null, null, null, t[n].level + 1, Open, Open)]
  }

  lemma CrownCells<K, V>(s: Store<K, V>, n: Node<K, V>, f: Node<K, V>, sep: K, top: Node<K, V>)
    requires n in s && f in s && n != f && top !in s
    ensures var t := Crown(s, n, f, sep, top);
            && t.Keys == s.Keys + {top}
            && t[n] == s[n].(parent := top) && t[f] == s[f].(parent := top)
            && t[top] == Cell(false, [sep], [], [n, f], null, null, null, s[n].level + 1, Open, Open)
            && (forall x :: x in s && x != n && x != f ==> t[x] == s[x])
  {
  }

  lemma RoomForAll<K(!new), V>(s: Store<K, V>, over: Node<K, V>)
    requires NotFull(s, over) && (over in s ==> |s[over].keys| < ORDER)
    ensures NotFull(s, null)
  {
  }

  lemma CrownIsSplitLeaf<K(!new), V>(s: Store<K, V>, n: Node<K, V>, f: Node<K, V>, top: Node<K, V>)
    requires FullLeaf(s, n) && NextIsLeaf(s, n) && f !in s && top !in s && f != top && s[n].level == 0
    ensures var g := Grow(s, n, top);
            Crown(CutLeaf(s, n, f), n, f, s[n].keys[MIN_KEYS], top)
            == Attach(CutLeaf(g, n, f), top, 0, s[n].keys[MIN_KEYS], f)
  {
    var sep := s[n].keys[MIN_KEYS];
    assert InsertAt([], 0, sep) == [sep];
    assert InsertAt([n], 1, f) == [n, f];
  }

  lemma CrownIsSplitInner<K(!new), V>(s: Store<K, V>, n: Node<K, V>, f: Node<K, V>, top: Node<K, V>)
    requires FullInner(s, n) && n !in s[n].children && f !in s && top !in s && f != top
    requires forall x :: x in s[n].children ==> x in s
    ensures var g := Grow(s, n, top);
            Crown(CutInner(s, n, f), n, f, s[n].keys[MIN_KEYS], top)
            == Attach(CutInner(g, n, f), top, 0, s[n].keys[MIN_KEYS], f)
  {
    var sep := s[n].keys[MIN_KEYS];
    assert InsertAt([], 0, sep) == [sep];
    assert InsertAt([n], 1, f) == [n, f];
    assert top !in s[n].children[MIN_KEYS + 1..];
  }

  lemma SplitRootLeafKeepsTree<K(!new), V>(cmp: (K, K) -> int, s: Store<K, V>, leaves: seq<Node<K, V>>,
                                           m: map<K, V>, q: nat, f: Node<K, V>, top: Node<K, V>)
    requires TotalOrder(cmp) && q < |leaves| && Tree(cmp, s, leaves[q], leaves, m, leaves[q])
    requires FullLeaf(s, leaves[q]) && f !in s && top !in s && f != top
    ensures Tree(cmp, Crown(CutLeaf(s, leaves[q], f), leaves[q], f, s[leaves[q]].keys[MIN_KEYS], top),
                 top, InsertAt(leaves, q + 1, f), m, null)
  {
    var n := leaves[q];
    var g := Grow(s, n, top);
    assert CellOk(cmp, s[n]);
    NextLeaf(s, leaves, q);
    GrowKeepsTree(cmp, s, n, leaves, m, n, top);
    SplitLeafKeepsTree(cmp, g, top, leaves, m, q, f, top, 0);
    CrownIsSplitLeaf(s, n, f, top);
    RoomForAll(Attach(CutLeaf(g, n, f), top, 0, s[n].keys[MIN_KEYS], f), top);
  }

  lemma ChildrenInStore<K(!new), V>(s: Store<K, V>, n: Node<K, V>)
    requires ChildrenOk(s) && n in s
    ensures forall x :: x in s[n].children ==> x in s && x != n
  {
    forall x | x in s[n].children ensures x in s && x != n {
      var j :| 0 <= j < |s[n].children| && s[n].children[j] == x;
      assert ChildOk(s, n, j);
    }
  }

  lemma SplitRootInnerKeepsTree<K(!new), V>(cmp: (K, K) -> int, s: Store<K, V>, n: Node<K, V>, leaves: seq<Node<K, V>>,
                                            m: map<K, V>, f: Node<K, V>, top: Node<K, V>)
    requires TotalOrder(cmp) && Tree(cmp, s, n, leaves, m, n)
    requires FullInner(s, n) && f !in s && top !in s && f != top
    ensures Tree(cmp, Crown(CutInner(s, n, f), n, f, s[n].keys[MIN_KEYS], top), top, leaves, m, null)
  {
    var g := Grow(s, n, top);
    ChildrenInStore(s, n);
    GrowKeepsTree(cmp, s, n, leaves, m, n, top);
    SplitInnerKeepsTree(cmp, g, top, leaves, m, n, f, top, 0);
    CrownIsSplitInner(s, n, f, top);
    RoomForAll(Attach(CutInner(g, n, f), top, 0, s[n].keys[MIN_KEYS], f), top);
  }
}
