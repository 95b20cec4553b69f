/** What the flat node invariant says about the tree as a whole: the leaf chain
    is its in-order traversal, and a tree built by insertions alone is at least
    half full, so it grows tall only as its contents grow. */
module BTreeShape {
  import opened KeyOrder
  import opened BTreeStore
  import opened BTreeEntries
  import opened BTreeSplits
  import opened BTreeListing

  // --------------------------------------------------------------- traversal

  /** The leaves below a node, children taken from left to right. */
  ghost function InOrder<K(!new), V>(s: Store<K, V>, n: Node<K, V>): seq<Node<K, V>>
    requires ChildrenOk(s) && n in s
    decreases s[n].level, 1, 0
  {
    if s[n].isLeaf then [n] else InOrderKids(s, n, |s[n].children|)
  }

  ghost function InOrderKids<K(!new), V>(s: Store<K, V>, n: Node<K, V>, i: nat): seq<Node<K, V>>
    requires ChildrenOk(s) && n in s && i <= |s[n].children|
    decreases s[n].level, 0, i
  {
    if i == 0 then []
    else
      assert ChildOk(s, n, i - 1);
      InOrderKids(s, n, i - 1) + InOrder(s, s[n].children[i - 1])
  }

  /** Leaves that start at the same bound are the same leaf. */
  lemma StartsDiffer<K(!new), V>(cmp: (K, K) -> int, s: Store<K, V>, leaves: seq<Node<K, V>>, x: nat, y: nat)
    requires TotalOrder(cmp) && CellsOk(cmp, s) && ChainOk(s, leaves) && x < |leaves| && y < |leaves|
    ensures s[leaves[x]].lo == s[leaves[y]].lo <==> x == y
  {
    if x < y {
      ChainOrder(cmp, s, leaves, x, y);
      assert CellOk(cmp, s[leaves[x]]);
    } else if y < x {
      ChainOrder(cmp, s, leaves, y, x);
      assert CellOk(cmp, s[leaves[y]]);
    }
  }

  /** `part` is the stretch of the chain from bound `lo` to bound `hi`. */
  ghost predicate Stretch<K(!new), V>(s: Store<K, V>, leaves: seq<Node<K, V>>, part: seq<Node<K, V>>,
                                      lo: Bound<K>, hi: Bound<K>, a: nat)
    requires ChainOk(s, leaves)
  {
    && 0 < |part| && a + |part| <= |leaves| && part == leaves[a..a + |part|]
    && s[leaves[a]].lo == lo && s[leaves[a + |part| - 1]].hi == hi
  }

  lemma JoinStretches<K(!new), V>(cmp: (K, K) -> int, s: Store<K, V>, leaves: seq<Node<K, V>>,
                                  p: seq<Node<K, V>>, q: seq<Node<K, V>>, lo: Bound<K>, mid: Bound<K>, hi: Bound<K>,
                                  a: nat, b: nat)
    requires TotalOrder(cmp) && CellsOk(cmp, s) && ChainOk(s, leaves) && mid.At?
    requires Stretch(s, leaves, p, lo, mid, a) && Stretch(s, leaves, q, mid, hi, b)
    ensures Stretch(s, leaves, p + q, lo, hi, a)
  {
    var e := a + |p|;
    assert e < |leaves|;
    assert Linked(s, leaves[e - 1], leaves[e]);
    StartsDiffer(cmp, s, leaves, e, b);
  }

  lemma {:induction false} KidsAreStretch<K(!new), V>(cmp: (K, K) -> int, s: Store<K, V>, leaves: seq<Node<K, V>>,
                                                     n: Node<K, V>, i: nat) returns (a: nat)
    requires TotalOrder(cmp) && CellsOk(cmp, s) && ChildrenOk(s) && ChainOk(s, leaves)
    requires n in s && 0 < i <= |s[n].children| && |s[n].children| == |s[n].keys| + 1
    ensures Stretch(s, leaves, InOrderKids(s, n, i), s[n].lo, ChildHi(s[n], i - 1), a)
    decreases s[n].level, 0, i
  {
    assert ChildOk(s, n, i - 1);
    var b := SubtreeIsStretch(cmp, s, leaves, s[n].children[i - 1]);
    if i == 1 {
      assert InOrderKids(s, n, 0) == [];
      assert InOrderKids(s, n, 1) == InOrder(s, s[n].children[0]);
      a := b;
    } else {
      a := KidsAreStretch(cmp, s, leaves, n, i - 1);
      JoinStretches(cmp, s, leaves, InOrderKids(s, n, i - 1), InOrder(s, s[n].children[i - 1]),
                    s[n].lo, ChildHi(s[n], i - 2), ChildHi(s[n], i - 1), a, b);
    }
  }

  /** The leaves below a node are a stretch of the chain: its own interval. */
  lemma {:induction false} SubtreeIsStretch<K(!new), V>(cmp: (K, K) -> int, s: Store<K, V>, leaves: seq<Node<K, V>>,
                                                       n: Node<K, V>) returns (a: nat)
    requires TotalOrder(cmp) && CellsOk(cmp, s) && ChildrenOk(s) && ChainOk(s, leaves) && n in s
    ensures Stretch(s, leaves, InOrder(s, n), s[n].lo, s[n].hi, a)
    decreases s[n].level, 1, 0
  {
    assert CellOk(cmp, s[n]);
    if s[n].isLeaf {
      a :| 0 <= a < |leaves| && leaves[a] == n;
    } else {
      a := KidsAreStretch(cmp, s, leaves, n, |s[n].children|);
    }
  }

  /** The chain of next links visits exactly the leaves of the tree, in order. */
  lemma ChainIsInOrder<K(!new), V>(cmp: (K, K) -> int, s: Store<K, V>, root: Node<K, V>, leaves: seq<Node<K, V>>,
                                   m: map<K, V>, over: Node?<K, V>)
    requires TotalOrder(cmp) && Tree(cmp, s, root, leaves, m, over)
    ensures InOrder(s, root) == leaves
  {
    var a := SubtreeIsStretch(cmp, s, leaves, root);
    StartsDiffer(cmp, s, leaves, a, 0);
    LastIsOpen(s, leaves, a + |InOrder(s, root)| - 1);
  }

  lemma LastIsOpen<K(!new), V>(s: Store<K, V>, leaves: seq<Node<K, V>>, i: nat)
    requires ChainOk(s, leaves) && i < |leaves|
    ensures s[leaves[i]].hi == Open <==> i == |leaves| - 1
  {
    if i < |leaves| - 1 {
      assert Linked(s, leaves[i], leaves[i + 1]);
    }
  }

  // -------------------------------------------------------------------- fill

  /** Least number of keys: half a leaf, one less in an inner node, any at the root. */
  ghost predicate FillOk<K, V>(c: Cell<K, V>, isRoot: bool) {
    if isRoot then !c.isLeaf ==> |c.keys| >= 1
    else |c.keys| >= (if c.isLeaf then MIN_KEYS else MIN_KEYS - 1)
  }

  ghost predicate Packed<K, V>(s: Store<K, V>, root: Node<K, V>) {
    forall n {:trigger s[n]} :: n in s ==> FillOk(s[n], n == root)
  }

  lemma SplitLeafKeepsPacked<K(!new), V>(s: Store<K, V>, root: Node<K, V>, leaf: Node<K, V>, f: Node<K, V>,
                                         p: Node<K, V>, i: nat)
    requires FullLeaf(s, leaf) && NextIsLeaf(s, leaf) && f !in s && ParentAt(s, leaf, p, i) && !s[p].isLeaf
    requires root in s && leaf != root && Packed(s, root)
    ensures var t := CutLeaf(s, leaf, f);
            p in t && t[p] == s[p] && Packed(Attach(t, p, i, s[leaf].keys[MIN_KEYS], f), root)
  {
    CutLeafCells(s, leaf, f);
    var u := Attach(CutLeaf(s, leaf, f), p, i, s[leaf].keys[MIN_KEYS], f);
    forall n | n in u ensures FillOk(u[n], n == root) {
      assert n in s ==> FillOk(s[n], n == root);
    }
  }

  lemma SplitInnerKeepsPacked<K(!new), V>(s: Store<K, V>, root: Node<K, V>, n: Node<K, V>, f: Node<K, V>,
                                          p: Node<K, V>, i: nat)
    requires FullInner(s, n) && n !in s[n].children && f !in s && ParentAt(s, n, p, i) && !s[p].isLeaf && p != n
    requires root in s && n != root && Packed(s, root)
    ensures var t := CutInner(s, n, f);
            p in t && t[p].keys == s[p].keys && t[p].children == s[p].children
            && Packed(Attach(t, p, i, s[n].keys[MIN_KEYS], f), root)
  {
    hide CutInner;
    CutInnerCells(s, n, f);
    var u := Attach(CutInner(s, n, f), p, i, s[n].keys[MIN_KEYS], f);
    forall x | x in u ensures FillOk(u[x], x == root) {
      assert x in s ==> FillOk(s[x], x == root);
    }
  }

  lemma CrownLeafKeepsPacked<K(!new), V>(s: Store<K, V>, n: Node<K, V>, f: Node<K, V>, sep: K, top: Node<K, V>)
    requires FullLeaf(s, n) && NextIsLeaf(s, n) && f !in s && top !in s && f != top && Packed(s, n)
    ensures var t := CutLeaf(s, n, f); n in t && f in t && Packed(Crown(t, n, f, sep, top), top)
  {
    CutLeafCells(s, n, f);
    var t := CutLeaf(s, n, f);
    CrownCells(t, n, f, sep, top);
    var u := Crown(t, n, f, sep, top);
    forall x | x in u ensures FillOk(u[x], x == top) {
      assert x in s ==> FillOk(s[x], x == n);
    }
  }

  lemma CrownInnerKeepsPacked<K(!new), V>(s: Store<K, V>, n: Node<K, V>, f: Node<K, V>, sep: K, top: Node<K, V>)
    requires FullInner(s, n) && n !in s[n].children && f !in s && top !in s && f != top && Packed(s, n)
    ensures var t := CutInner(s, n, f); n in t && f in t && Packed(Crown(t, n, f, sep, top), top)
  {
    hide CutInner, Crown;
    CutInnerCells(s, n, f);
    var t := CutInner(s, n, f);
    CrownCells(t, n, f, sep, top);
    var u := Crown(t, n, f, sep, top);
    forall x | x in u ensures FillOk(u[x], x == top) {
      assert x in s ==> FillOk(s[x], x == n);
    }
  }

  // ------------------------------------------------------------------ counts

  /** Powers of the least fan-out. */
  ghost function Pow(l: nat): nat {
    if l == 0 then 1 else MIN_KEYS * Pow(l - 1)
  }

  lemma {:induction false} AllKeysConcat<K(!new), V>(s: Store<K, V>, a: seq<Node<K, V>>, b: seq<Node<K, V>>)
    requires forall n :: n in a + b ==> n in s
    ensures (forall n :: n in a ==> n in s) && (forall n :: n in b ==> n in s)
    ensures AllKeys(s, a + b) == AllKeys(s, a) + AllKeys(s, b)
    decreases |b|
  {
    assert forall n :: n in a || n in b ==> n in a + b;
    if |b| == 0 {
      assert a + b == a;
    } else {
      assert (a + b)[..|a + b| - 1] == a + b[..|b| - 1];
      AllKeysConcat(s, a, b[..|b| - 1]);
    }
  }

  lemma MulStep(i: nat, w: nat)
    requires i > 0
    ensures i * w == (i - 1) * w + w
  {
  }

  lemma MulMonotone(a: nat, b: nat, w: nat)
    requires a <= b
    ensures a * w <= b * w
  {
  }

  lemma NodeFill<K(!new), V>(cmp: (K, K) -> int, s: Store<K, V>, root: Node<K, V>, n: Node<K, V>)
    requires CellsOk(cmp, s) && ParentsOk(s, root) && Packed(s, root) && n in s && s[n].parent != null
    ensures s[n].isLeaf <==> s[n].level == 0
    ensures if s[n].isLeaf then |s[n].keys| >= MIN_KEYS else |s[n].children| >= MIN_KEYS
  {
    assert CellOk(cmp, s[n]) && FillOk(s[n], n == root);
  }

  lemma {:induction false} KidsHold<K(!new), V>(cmp: (K, K) -> int, s: Store<K, V>, root: Node<K, V>, n: Node<K, V>, i: nat)
    requires CellsOk(cmp, s) && ChildrenOk(s) && ParentsOk(s, root) && Packed(s, root)
    requires n in s && i <= |s[n].children| && s[n].level > 0
    ensures forall x :: x in InOrderKids(s, n, i) ==> x in s
    ensures |AllKeys(s, InOrderKids(s, n, i))| >= i * Pow(s[n].level)
    decreases s[n].level, 0, i
  {
    hide CellsOk, ParentsOk, Packed, Pow, AllKeys;
    if i == 0 {
    } else {
      var c := s[n].children[i - 1];
      assert ChildOk(s, n, i - 1);
      MulStep(i, Pow(s[n].level));
      KidsHold(cmp, s, root, n, i - 1);
      SubtreeHolds(cmp, s, root, c);
      AllKeysConcat(s, InOrderKids(s, n, i - 1), InOrder(s, c));
    }
  }

  /** A subtree of a packed tree holds at least a full tree of half-full nodes. */
  lemma {:induction false} SubtreeHolds<K(!new), V>(cmp: (K, K) -> int, s: Store<K, V>, root: Node<K, V>, n: Node<K, V>)
    requires CellsOk(cmp, s) && ChildrenOk(s) && ParentsOk(s, root) && Packed(s, root)
    requires n in s && s[n].parent != null
    ensures forall x :: x in InOrder(s, n) ==> x in s
    ensures |AllKeys(s, InOrder(s, n))| >= Pow(s[n].level + 1)
    decreases s[n].level, 1, 0
  {
    hide CellsOk, ParentsOk, Packed, ChildrenOk;
    NodeFill(cmp, s, root, n);
    if s[n].isLeaf {
      assert InOrder(s, n)[..0] == [];
      assert Pow(1) == MIN_KEYS * Pow(0);
    } else {
      KidsHold(cmp, s, root, n, |s[n].children|);
      MulMonotone(MIN_KEYS, |s[n].children|, Pow(s[n].level));
    }
  }

  lemma RootFans<K(!new), V>(cmp: (K, K) -> int, s: Store<K, V>, root: Node<K, V>)
    requires CellsOk(cmp, s) && Packed(s, root) && root in s && s[root].level >= 1
    ensures |s[root].children| >= 2 && !s[root].isLeaf
  {
    assert CellOk(cmp, s[root]) && FillOk(s[root], true);
  }

  /** A packed tree of height `h` at least two holds at least `2 * MIN_KEYS^(h-1)`
      entries. */
  lemma PackedIsLarge<K(!new), V>(cmp: (K, K) -> int, s: Store<K, V>, root: Node<K, V>, leaves: seq<Node<K, V>>,
                                  m: map<K, V>)
    requires TotalOrder(cmp) && Tree(cmp, s, root, leaves, m, null) && Packed(s, root)
    ensures s[root].level >= 1 ==> |m| >= 2 * Pow(s[root].level)
  {
    hide TotalOrder, CellsOk, NotFull, ChildrenOk, ParentOk, ChainOk, ContentsOk, Packed, Pow, AllKeys, SortedKeys;
    if s[root].level >= 1 {
      RootFans(cmp, s, root);
      ChainIsInOrder(cmp, s, root, leaves, m, null);
      ChainListsMap(cmp, s, leaves, m);
      KidsHold(cmp, s, root, root, |s[root].children|);
      MulMonotone(2, |s[root].children|, Pow(s[root].level));
    }
  }
}
