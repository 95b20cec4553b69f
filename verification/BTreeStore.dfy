/** The node records of a B+tree as a value: what the heap holds at one moment,
    the invariant those records keep, and the record-level effect of each
    in-place step of the tree. */
module BTreeStore {
  import opened KeyOrder

  type Half = n: nat | n >= 1 witness 64

  /** A node is split when it holds `ORDER` keys. Everything below holds for any
      even order; the index uses 128. */
  const MIN_KEYS: Half
  const ORDER := 2 * MIN_KEYS

  /** `level`, `lo` and `hi` are proof-only: distance to the leaves and the
      interval of keys routed to this node. */
  class Node<K, V> {
    var isLeaf: bool
    var keys: seq<K>
    var values: seq<V>
    var children: seq<Node<K, V>>
    var parent: Node?<K, V>
    var next: Node?<K, V>
    var prev: Node?<K, V>
    ghost var level: nat
    ghost var lo: Bound<K>
    ghost var hi: Bound<K>

    constructor (leaf: bool)
      ensures isLeaf == leaf && keys == [] && values == [] && children == []
      ensures parent == null && next == null && prev == null
      ensures level == 0 && lo == Open && hi == Open
    {
      isLeaf := leaf;
      keys, values, children := [], [], [];
      parent, next, prev := null, null, null;
      level, lo, hi := 0, Open, Open;
    }

    ghost function Read(): Cell<K, V>
      reads this
    {
      Cell(isLeaf, keys, values, children, parent, next, prev, level, lo, hi)
    }
  }

  /** The fields of one node. */
  datatype Cell<K, V> = Cell(
    isLeaf: bool, keys: seq<K>, values: seq<V>, children: seq<Node<K, V>>,
    parent: Node?<K, V>, next: Node?<K, V>, prev: Node?<K, V>,
    level: nat, lo: Bound<K>, hi: Bound<K>)

  type Store<K, V> = map<Node<K, V>, Cell<K, V>>

  // ---------------------------------------------------------------- invariant

  /** Lower end of the interval served by child `i` of an inner node. */
  ghost function ChildLo<K, V>(c: Cell<K, V>, i: nat): Bound<K>
    requires i <= |c.keys|
  {
    if i == 0 then c.lo else At(c.keys[i - 1])
  }

  ghost function ChildHi<K, V>(c: Cell<K, V>, i: nat): Bound<K>
    requires i <= |c.keys|
  {
    if i == |c.keys| then c.hi else At(c.keys[i])
  }

  ghost predicate CellOk<K, V>(cmp: (K, K) -> int, c: Cell<K, V>) {
    && (c.isLeaf <==> c.level == 0)
    && (c.isLeaf ==> |c.values| == |c.keys| && c.children == [])
    && (!c.isLeaf ==> |c.children| == |c.keys| + 1 && c.values == [] && c.next == null && c.prev == null)
    && Ascending(cmp, c.keys)
    && Inhabited(cmp, c.lo, c.hi)
    && (forall i :: 0 <= i < |c.keys| ==> Within(cmp, c.lo, c.keys[i], c.hi))
    && (!c.isLeaf ==> forall i :: 0 <= i < |c.keys| ==> c.lo != At(c.keys[i]))
  }

  ghost predicate CellsOk<K, V>(cmp: (K, K) -> int, s: Store<K, V>) {
    forall n {:trigger CellOk(cmp, s[n])} :: n in s ==> CellOk(cmp, s[n])
  }

  /** No node holds ORDER keys, except `over` while it waits to be split. */
  ghost predicate NotFull<K, V>(s: Store<K, V>, over: Node?<K, V>) {
    forall n :: n in s ==> |s[n].keys| < ORDER || (n == over && |s[n].keys| == ORDER)
  }

  /** Child `i` sits one level down, points back, and serves the part of its
      parent's interval between the two keys around it. */
  ghost predicate ChildOk<K, V>(s: Store<K, V>, n: Node<K, V>, i: nat)
    requires n in s && i < |s[n].children|
  {
    var c := s[n].children[i];
    && |s[n].children| == |s[n].keys| + 1
    && c in s
    && s[c].parent == n
    && s[c].level + 1 == s[n].level
    && s[c].lo == ChildLo(s[n], i)
    && s[c].hi == ChildHi(s[n], i)
  }

  ghost predicate ChildrenOk<K, V>(s: Store<K, V>) {
    forall n, i {:trigger ChildOk(s, n, i)} :: n in s && 0 <= i < |s[n].children| ==> ChildOk(s, n, i)
  }

  ghost predicate ParentOk<K, V>(s: Store<K, V>, root: Node<K, V>, n: Node<K, V>)
    requires n in s && root in s
  {
    && s[n].level <= s[root].level
    && (n != root ==> s[n].parent != null && s[n].parent in s && n in s[s[n].parent].children)
  }

  /** Every node but the root hangs below the parent it names. */
  ghost predicate ParentsOk<K, V>(s: Store<K, V>, root: Node<K, V>) {
    && root in s
    && s[root].parent == null && s[root].lo == Open && s[root].hi == Open
    && forall n {:trigger ParentOk(s, root, n)} :: n in s ==> ParentOk(s, root, n)
  }

  /** Leaf `b` follows leaf `a`, and its interval starts where that of `a` ends. */
  ghost predicate Linked<K, V>(s: Store<K, V>, a: Node<K, V>, b: Node<K, V>)
    requires a in s && b in s
  {
    s[a].next == b && s[b].prev == a && s[a].hi == s[b].lo && s[a].hi.At?
  }

  /** The leaf chain: `leaves` lists every leaf once, linked both ways, and the
      intervals of the leaves tile the key space in that order. */
  ghost predicate ChainOk<K, V>(s: Store<K, V>, leaves: seq<Node<K, V>>) {
    && |leaves| > 0
    && (forall i :: 0 <= i < |leaves| ==> leaves[i] in s && s[leaves[i]].isLeaf)
    && (forall i, j :: 0 <= i < j < |leaves| ==> leaves[i] != leaves[j])
    && (forall i, j {:trigger Linked(s, leaves[i], leaves[j])} :: 0 <= i && j == i + 1 && j < |leaves| ==> Linked(s, leaves[i], leaves[j]))
    && s[leaves[0]].prev == null && s[leaves[0]].lo == Open
    && s[leaves[|leaves| - 1]].next == null && s[leaves[|leaves| - 1]].hi == Open
    && (forall n :: n in s && s[n].isLeaf ==> n in leaves)
  }

  /** A leaf holds exactly the entries of `m` whose keys fall in its interval. */
  ghost predicate LeafHolds<K(!new), V>(cmp: (K, K) -> int, c: Cell<K, V>, m: map<K, V>) {
    && |c.values| == |c.keys|
    && (forall i :: 0 <= i < |c.keys| ==> c.keys[i] in m && m[c.keys[i]] == c.values[i])
    && (forall k :: k in m && Within(cmp, c.lo, k, c.hi) ==> k in c.keys)
  }

  ghost predicate ContentsOk<K(!new), V>(cmp: (K, K) -> int, s: Store<K, V>, m: map<K, V>) {
    forall n {:trigger LeafHolds(cmp, s[n], m)} :: n in s && s[n].isLeaf ==> LeafHolds(cmp, s[n], m)
  }

  ghost predicate Tree<K(!new), V>(cmp: (K, K) -> int, s: Store<K, V>, root: Node<K, V>,
                                   leaves: seq<Node<K, V>>, m: map<K, V>, over: Node?<K, V>) {
    && CellsOk(cmp, s)
    && NotFull(s, over)
    && ChildrenOk(s)
    && ParentsOk(s, root)
    && ChainOk(s, leaves)
    && ContentsOk(cmp, s, m)
  }

  // ------------------------------------------------------------------- steps

  ghost function FreshLeaf<K, V>(): Cell<K, V> {
    Cell(true, [], [], [], null, null, null, 0, Open, Open)
  }

  ghost function PutEntry<K, V>(c: Cell<K, V>, i: nat, k: K, v: V): Cell<K, V>
    requires i <= |c.keys| == |c.values|
  {
    c.(keys := InsertAt(c.keys, i, k), values := InsertAt(c.values, i, v))
  }

  ghost function DropEntry<K, V>(c: Cell<K, V>, i: nat): Cell<K, V>
    requires i < |c.keys| == |c.values|
  {
    c.(keys := RemoveAt(c.keys, i), values := RemoveAt(c.values, i))
  }

  ghost function AddChild<K, V>(c: Cell<K, V>, i: nat, k: K, child: Node<K, V>): Cell<K, V>
    requires i <= |c.keys| && |c.children| == |c.keys| + 1
  {
    c.(keys := InsertAt(c.keys, i, k), children := InsertAt(c.children, i + 1, child))
  }

  /** An empty inner node placed above the root, as the parent of a root that is
      about to be split. */
  ghost function Grow<K, V>(s: Store<K, V>, root: Node<K, V>, top: Node<K, V>): Store<K, V>
    requires root in s
  {
    s[root := s[root].(parent := top)]
     [top := Cell(false, [], [], [root], null, null, null, s[root].level + 1, Open, Open)]
  }

  /** A leaf split in two, before its parent learns of the new leaf. */
  ghost function CutLeaf<K, V>(s: Store<K, V>, leaf: Node<K, V>, fresh': Node<K, V>): Store<K, V>
    requires leaf in s && |s[leaf].keys| == |s[leaf].values| == ORDER
  {
    var c := s[leaf];
    var mid := |c.keys| / 2;
    var cut := s[leaf := c.(keys := c.keys[..mid], values := c.values[..mid], next := fresh', hi := At(c.keys[mid]))]
                [fresh' := Cell(true, c.keys[mid..], c.values[mid..], [], c.parent, c.next, leaf, 0, At(c.keys[mid]), c.hi)];
    if c.next != null && c.next in s then cut[c.next := s[c.next].(prev := fresh')] else cut
  }

  /** An inner node split in two around its middle key, before its parent learns
      of the new node. */
  ghost function CutInner<K, V>(s: Store<K, V>, n: Node<K, V>, fresh': Node<K, V>): Store<K, V>
    requires n in s && |s[n].keys| == ORDER && |s[n].children| == ORDER + 1
  {
    var c := s[n];
    var mid := |c.keys| / 2;
    var moved := c.children[mid + 1..];
    (map x | x in s :: if x in moved then s[x].(parent := fresh') else s[x])
    [n := c.(keys := c.keys[..mid], children := c.children[..mid + 1], hi := At(c.keys[mid]))]
    [fresh' := Cell(false, c.keys[mid + 1..], [], moved, c.parent, null, null, c.level, At(c.keys[mid]), c.hi)]
  }
}
