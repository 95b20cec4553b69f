/** The B+tree index as it runs: nodes on the heap, changed in place. */
module BPlusTrees {
  import opened Wrappers
  import opened KeyOrder
  import opened BTreeStore
  import opened BTreeEntries
  import opened BTreeSplits
  import opened BTreeShape

  /** A single empty leaf is the tree of the empty map. */
  lemma EmptyTree<K(!new), V>(cmp: (K, K) -> int, leaf: Node<K, V>)
    ensures Tree<K, V>(cmp, map[leaf := FreshLeaf()], leaf, [leaf], map[], null)
    ensures Packed<K, V>(map[leaf := FreshLeaf()], leaf)
  {
  }

  class BPlusTree<K(!new), V> {
    const cmp: (K, K) -> int
    var root: Node<K, V>
    var size: nat

    /** The map this index stands for, the records of its nodes, and its leaves
        in key order. */
    ghost var contents: map<K, V>
    ghost var store: Store<K, V>
    ghost var leaves: seq<Node<K, V>>

    /** The heap holds exactly the records of `store`. */
    ghost predicate Synced()
      reads this`store, store.Keys
    {
      forall n :: n in store ==> n.Read() == store[n]
    }

    /** The tree invariant, with `over` allowed to be full. */
    ghost predicate Shaped(over: Node?<K, V>)
      reads this, store.Keys
    {
      Synced() && TotalOrder(cmp) && Tree(cmp, store, root, leaves, contents, over)
    }

    ghost predicate Valid()
      reads this, store.Keys
    {
      Shaped(null) && size == |contents|
    }

    ghost predicate Extends(s: Store<K, V>)
      reads this`store
    {
      forall n :: n in s ==> n in store
    }

    constructor (cmp: (K, K) -> int)
      requires TotalOrder(cmp)
      ensures Valid() && contents == map[] && fresh(store.Keys) && this.cmp == cmp && Packed(store, root)
    {
      hide TotalOrder, Tree, Packed;
      this.cmp := cmp;
      var leaf := new Node<K, V>(true);
      root, size := leaf, 0;
      contents, store, leaves := map[], map[leaf := FreshLeaf()], [leaf];
      EmptyTree(cmp, leaf);
    }

    // ------------------------------------------------------------------ splits

    /** Moves the upper half of a leaf's entries into a new leaf. */
    static method MoveUpperHalf(leaf: Node<K, V>) returns (newLeaf: Node<K, V>)
      requires |leaf.keys| == |leaf.values| == ORDER
      modifies leaf
      ensures fresh(newLeaf)
      ensures var c := old(leaf.Read());
              && leaf.Read() == c.(keys := c.keys[..MIN_KEYS], values := c.values[..MIN_KEYS], hi := At(c.keys[MIN_KEYS]))
              && newLeaf.Read() == Cell(true, c.keys[MIN_KEYS..], c.values[MIN_KEYS..], [], null, null, null,
                                        0, At(c.keys[MIN_KEYS]), c.hi)
      ensures leaf.next == old(leaf.next) && leaf.parent == old(leaf.parent)
    {
      var mid := |leaf.keys| / 2;
      newLeaf := new Node<K, V>(true);
      newLeaf.keys := leaf.keys[mid..];
      newLeaf.values := leaf.values[mid..];
      leaf.keys := leaf.keys[..mid];
      leaf.values := leaf.values[..mid];
      newLeaf.lo, newLeaf.hi := At(newLeaf.keys[0]), leaf.hi;
      leaf.hi := At(newLeaf.keys[0]);
    }

    /** Puts a new leaf right after `leaf` in the leaf chain. */
    static method LinkAfter(leaf: Node<K, V>, newLeaf: Node<K, V>)
      requires leaf != newLeaf && leaf.next != leaf && leaf.next != newLeaf
      modifies leaf, newLeaf, leaf.next
      ensures leaf.Read() == old(leaf.Read()).(next := newLeaf)
      ensures newLeaf.Read() == old(newLeaf.Read()).(next := old(leaf.next), prev := leaf, parent := leaf.parent)
      ensures old(leaf.next) != null ==> old(leaf.next).Read() == old(leaf.next.Read()).(prev := newLeaf)
    {
      newLeaf.next := leaf.next;
      newLeaf.prev := leaf;
      if leaf.next != null {
        leaf.next.prev := newLeaf;
      }
      leaf.next := newLeaf;
      newLeaf.parent := leaf.parent;
    }

    /** The two steps together, as seen from the set of nodes `ns`. */
    static method DetachHalf(leaf: Node<K, V>, ghost ns: set<Node<K, V>>) returns (newLeaf: Node<K, V>)
      requires leaf in ns && |leaf.keys| == |leaf.values| == ORDER
      requires leaf.next != null ==> leaf.next in ns && leaf.next != leaf
      modifies ns
      ensures fresh(newLeaf)
      ensures var c := old(leaf.Read());
              && leaf.Read() == c.(keys := c.keys[..MIN_KEYS], values := c.values[..MIN_KEYS], next := newLeaf,
                                   hi := At(c.keys[MIN_KEYS]))
              && newLeaf.Read() == Cell(true, c.keys[MIN_KEYS..], c.values[MIN_KEYS..], [], c.parent, c.next, leaf,
                                        0, At(c.keys[MIN_KEYS]), c.hi)
      ensures old(leaf.next) != null ==> old(leaf.next).Read() == old(leaf.next.Read()).(prev := newLeaf)
      ensures forall x :: x in ns && x != leaf && x != old(leaf.next) ==> x.Read() == old(x.Read())
    {
      newLeaf := MoveUpperHalf(leaf);
      LinkAfter(leaf, newLeaf);
    }

    /** Splits a full leaf in two and links the new half into the leaf chain. */
    method CutOffLeaf(leaf: Node<K, V>) returns (newLeaf: Node<K, V>)
      requires Synced() && FullLeaf(store, leaf) && NextIsLeaf(store, leaf)
      modifies this`store, store.Keys
      ensures Synced() && newLeaf !in old(store) && fresh(newLeaf)
      ensures store == CutLeaf(old(store), leaf, newLeaf) && store.Keys == old(store).Keys + {newLeaf}
      ensures newLeaf.keys == old(store)[leaf].keys[MIN_KEYS..]
    {
      hide CutLeaf;
      ghost var s := store;
      assert leaf.Read() == s[leaf];
      newLeaf := DetachHalf(leaf, s.Keys);
      CutLeafCells(s, leaf, newLeaf);
      store := CutLeaf(s, leaf, newLeaf);
      forall x | x in store ensures x.Read() == store[x] {
        if x in s {
          assert old(x.Read()) == s[x];
        }
      }
    }

    /** Points every child of a new inner node at it. */
    static method Adopt(newNode: Node<K, V>)
      requires newNode !in newNode.children
      modifies newNode.children
      ensures forall x :: x in newNode.children ==> x.Read() == old(x.Read()).(parent := newNode)
    {
      var i := 0;
      while i < |newNode.children|
        invariant 0 <= i <= |newNode.children|
        invariant forall x :: x in newNode.children ==>
                                x.Read() == (if x in newNode.children[..i] then old(x.Read()).(parent := newNode) else old(x.Read()))
      {
        newNode.children[i].parent := newNode;
        i := i + 1;
      }
      assert newNode.children[..i] == newNode.children;
    }

    /** Moves the keys and children above the middle key into a new inner node. */
    static method MoveUpperChildren(node: Node<K, V>) returns (newNode: Node<K, V>)
      requires |node.keys| == ORDER && |node.children| == ORDER + 1
      modifies node
      ensures fresh(newNode)
      ensures var c := old(node.Read());
              && node.Read() == c.(keys := c.keys[..MIN_KEYS], children := c.children[..MIN_KEYS + 1], hi := At(c.keys[MIN_KEYS]))
              && newNode.Read() == Cell(false, c.keys[MIN_KEYS + 1..], [], c.children[MIN_KEYS + 1..], c.parent,
                                        null, null, c.level, At(c.keys[MIN_KEYS]), c.hi)
    {
      var mid := |node.keys| / 2;
      newNode := new Node<K, V>(false);
      newNode.keys := node.keys[mid + 1..];
      newNode.children := node.children[mid + 1..];
      newNode.parent := node.parent;
      newNode.level, newNode.lo, newNode.hi := node.level, At(node.keys[mid]), node.hi;
      node.hi := At(node.keys[mid]);
      node.keys := node.keys[..mid];
      node.children := node.children[..mid + 1];
    }

    /** The two steps together, as seen from the set of nodes `ns`. */
    static method DetachUpper(node: Node<K, V>, ghost ns: set<Node<K, V>>) returns (newNode: Node<K, V>)
      requires node in ns && |node.keys| == ORDER && |node.children| == ORDER + 1
      requires forall x :: x in node.children ==> x in ns && x != node
      modifies ns
      ensures fresh(newNode)
      ensures var c := old(node.Read());
              && node.Read() == c.(keys := c.keys[..MIN_KEYS], children := c.children[..MIN_KEYS + 1], hi := At(c.keys[MIN_KEYS]))
              && newNode.Read() == Cell(false, c.keys[MIN_KEYS + 1..], [], c.children[MIN_KEYS + 1..], c.parent,
                                        null, null, c.level, At(c.keys[MIN_KEYS]), c.hi)
      ensures forall x :: x in ns && x != node ==>
                            x.Read() == (if x in old(node.children)[MIN_KEYS + 1..] then old(x.Read()).(parent := newNode)
                                         else old(x.Read()))
    {
      newNode := MoveUpperChildren(node);
      assert forall x :: x in newNode.children ==> x in ns && x != node && x.Read() == old(x.Read());
      Adopt(newNode);
    }

    /** Splits a full inner node in two, keeping its middle key out of both. */
    method CutOffInner(node: Node<K, V>) returns (newNode: Node<K, V>)
      requires Synced() && FullInner(store, node)
      requires forall x :: x in store[node].children ==> x in store && x != node
      modifies this`store, store.Keys
      ensures Synced() && newNode !in old(store) && fresh(newNode)
      ensures store == CutInner(old(store), node, newNode) && store.Keys == old(store).Keys + {newNode}
    {
      hide CutInner;
      ghost var s := store;
      assert node.Read() == s[node];
      newNode := DetachUpper(node, s.Keys);
      CutInnerCells(s, node, newNode);
      store := CutInner(s, node, newNode);
      forall x | x in store ensures x.Read() == store[x] {
        if x in s {
          assert old(x.Read()) == s[x];
        }
      }
    }

    static method JoinUnder(left: Node<K, V>, key: K, right: Node<K, V>) returns (newRoot: Node<K, V>)
      requires left != right
      modifies left, right
      ensures fresh(newRoot)
      ensures newRoot.Read() == Cell(false, [key], [], [left, right], null, null, null, old(left.level) + 1, Open, Open)
      ensures left.Read() == old(left.Read()).(parent := newRoot)
      ensures right.Read() == old(right.Read()).(parent := newRoot)
    {
      newRoot := new Node<K, V>(false);
      newRoot.keys := [key];
      newRoot.children := [left, right];
      newRoot.level := left.level + 1;
      left.parent := newRoot;
      right.parent := newRoot;
    }

    /** Puts the two halves of the old root under a new root. */
    method AddRoot(left: Node<K, V>, key: K, right: Node<K, V>)
      requires Synced() && left in store && right in store && left != right
      modifies this`root, this`store, left, right
      ensures Synced() && root !in old(store) && fresh(root)
      ensures store == Crown(old(store), left, right, key, root)
    {
      ghost var s := store;
      assert left.Read() == s[left] && right.Read() == s[right];
      root := JoinUnder(left, key, right);
      hide Node.Read, Crown;
      CrownCells(s, left, right, key, root);
      store := Crown(s, left, right, key, root);
      forall x | x in store ensures x.Read() == store[x] {
        if x in s {
          assert old(x.Read()) == s[x];
        }
      }
    }

    /** The number of keys below `key`: where the insertion loops stop. */
    method LowerBound(keys: seq<K>, key: K) returns (pos: nat)
      ensures pos <= |keys|
      ensures forall j :: 0 <= j < pos ==> cmp(key, keys[j]) > 0
      ensures pos < |keys| ==> cmp(key, keys[pos]) <= 0
    {
      pos := 0;
      while pos < |keys| && cmp(key, keys[pos]) > 0
        invariant 0 <= pos <= |keys|
        invariant forall j :: 0 <= j < pos ==> cmp(key, keys[j]) > 0
      {
        pos := pos + 1;
      }
    }

    /** The search stops at the place that keeps the keys ascending. */
    lemma OnlyPlace(keys: seq<K>, key: K, pos: nat, i: nat)
      requires TotalOrder(cmp) && i <= |keys| && Ascending(cmp, InsertAt(keys, i, key))
      requires pos <= |keys| && forall j :: 0 <= j < pos ==> cmp(key, keys[j]) > 0
      requires pos < |keys| ==> cmp(key, keys[pos]) <= 0
      ensures pos == i
    {
      var r := InsertAt(keys, i, key);
      IndexOrder(cmp, r, pos, i);
      IndexOrder(cmp, r, if i < |keys| then i + 1 else i, i);
    }

    /** Where a node hangs below its parent. */
    lemma FindParentAt(s: Store<K, V>, ls: seq<Node<K, V>>, n: Node<K, V>) returns (i: nat)
      requires Tree(cmp, s, root, ls, contents, n) && n in s && s[n].parent != null
      ensures s[n].parent in s && ParentAt(s, n, s[n].parent, i) && !s[s[n].parent].isLeaf && s[n].parent != n
      ensures root in s && s[s[n].parent].level == s[n].level + 1 <= s[root].level
    {
      NotOwnParent(s, root, n);
      ParentHasChildren(s, root, n);
      var p := s[n].parent;
      assert ParentOk(s, root, p) && CellOk(cmp, s[p]);
      i :| 0 <= i < |s[p].children| && s[p].children[i] == n;
      assert ChildOk(s, p, i);
    }

    lemma FullLeafFacts(s: Store<K, V>, leaf: Node<K, V>) returns (q: nat)
      requires Tree(cmp, s, root, leaves, contents, leaf) && leaf in s && s[leaf].isLeaf && |s[leaf].keys| == ORDER
      ensures q < |leaves| && leaves[q] == leaf
      ensures FullLeaf(s, leaf) && NextIsLeaf(s, leaf)
      ensures root in s && (s[leaf].parent == null ==> leaf == root)
    {
      assert CellOk(cmp, s[leaf]) && ParentOk(s, root, leaf);
      q :| 0 <= q < |leaves| && leaves[q] == leaf;
      NextLeaf(s, leaves, q);
    }

    lemma FullInnerFacts(s: Store<K, V>, n: Node<K, V>)
      requires Tree(cmp, s, root, leaves, contents, n) && n in s && !s[n].isLeaf && |s[n].keys| == ORDER
      ensures FullInner(s, n) && (forall x :: x in s[n].children ==> x in s && x != n)
      ensures root in s && (s[n].parent == null ==> n == root)
    {
      assert CellOk(cmp, s[n]) && ParentOk(s, root, n);
      ChildrenInStore(s, n);
    }

    /** A node that is not full needs no exemption, and no node is more than full. */
    lemma RoomFacts(s: Store<K, V>, n: Node<K, V>)
      requires Tree(cmp, s, root, leaves, contents, n) && n in s
      ensures |s[n].keys| <= ORDER
      ensures |s[n].keys| < ORDER ==> Tree(cmp, s, root, leaves, contents, null)
    {
    }

    /** What a leaf cut owes to the parent of the leaf. */
    lemma LeafReadyForParent(s: Store<K, V>, ls: seq<Node<K, V>>, q: nat, f: Node<K, V>) returns (i: nat)
      requires TotalOrder(cmp) && q < |ls| && Tree(cmp, s, root, ls, contents, ls[q])
      requires FullLeaf(s, ls[q]) && NextIsLeaf(s, ls[q]) && f !in s && s[ls[q]].parent != null
      ensures var p := s[ls[q]].parent;
              && Ready(s, CutLeaf(s, ls[q], f), p, s[ls[q]].keys[MIN_KEYS], f, i, InsertAt(ls, q + 1, f))
              && (Packed(s, root) ==> Packed(Attach(CutLeaf(s, ls[q], f), p, i, s[ls[q]].keys[MIN_KEYS], f), root))
    {
      i := FindParentAt(s, ls, ls[q]);
      CutLeafCells(s, ls[q], f);
      SplitLeafKeepsTree(cmp, s, root, ls, contents, q, f, s[ls[q]].parent, i);
      if Packed(s, root) {
        SplitLeafKeepsPacked(s, root, ls[q], f, s[ls[q]].parent, i);
      }
    }

    lemma InnerReadyForParent(s: Store<K, V>, n: Node<K, V>, f: Node<K, V>) returns (i: nat)
      requires TotalOrder(cmp) && Tree(cmp, s, root, leaves, contents, n)
      requires FullInner(s, n) && n !in s[n].children && f !in s && s[n].parent != null
      ensures var p := s[n].parent;
              && Ready(s, CutInner(s, n, f), p, s[n].keys[MIN_KEYS], f, i, leaves) && s[p].level == s[n].level + 1
              && (Packed(s, root) ==> Packed(Attach(CutInner(s, n, f), p, i, s[n].keys[MIN_KEYS], f), root))
    {
      i := FindParentAt(s, leaves, n);
      CutInnerCells(s, n, f);
      SplitInnerKeepsTree(cmp, s, root, leaves, contents, n, f, s[n].parent, i);
      if Packed(s, root) {
        SplitInnerKeepsPacked(s, root, n, f, s[n].parent, i);
      }
    }

    /** Store `t`, cut from `s`, satisfies the tree invariant once node `p` lists
        the new node `f` as its child number `i + 1`. */
    ghost predicate Ready(s: Store<K, V>, t: Store<K, V>, p: Node?<K, V>, key: K, f: Node<K, V>, i: nat,
                          ls: seq<Node<K, V>>)
      reads this
    {
      && p != null && p in s && root in s && t.Keys == s.Keys + {f}
      && t[root].level == s[root].level && t[p].level == s[p].level <= t[root].level
      && !t[p].isLeaf && i <= |t[p].keys| && |t[p].children| == |t[p].keys| + 1
      && Tree(cmp, Attach(t, p, i, key, f), root, ls, contents, p)
    }

    method AddLeafRoot(leaf: Node<K, V>, key: K, newLeaf: Node<K, V>,
                       ghost s: Store<K, V>, ghost ls: seq<Node<K, V>>, ghost q: nat)
      requires Synced() && TotalOrder(cmp) && q < |ls| && ls[q] == leaf == root && leaves == InsertAt(ls, q + 1, newLeaf)
      requires Tree(cmp, s, root, ls, contents, leaf) && FullLeaf(s, leaf) && NextIsLeaf(s, leaf)
      requires newLeaf !in s && key == s[leaf].keys[MIN_KEYS] && store == CutLeaf(s, leaf, newLeaf)
      requires store.Keys == s.Keys + {newLeaf}
      modifies this`root, this`store, store.Keys
      ensures Shaped(null) && Extends(old(store)) && root !in old(store) && fresh(root)
      ensures store.Keys == old(store).Keys + {root} && store[root].level == old(store)[leaf].level + 1
      ensures Packed(s, leaf) ==> Packed(store, root)
    {
      hide TotalOrder, Tree, CutLeaf, Crown, Packed;
      ghost var t := store;
      AddRoot(leaf, key, newLeaf);
      CrownCells(t, leaf, newLeaf, key, root);
      SplitRootLeafKeepsTree(cmp, s, ls, contents, q, newLeaf, root);
      if Packed(s, leaf) {
        CrownLeafKeepsPacked(s, leaf, newLeaf, key, root);
      }
    }

    method AddInnerRoot(node: Node<K, V>, key: K, newNode: Node<K, V>, ghost s: Store<K, V>)
      requires Synced() && TotalOrder(cmp) && node == root
      requires Tree(cmp, s, root, leaves, contents, node) && FullInner(s, node) && node !in s[node].children
      requires newNode !in s && key == s[node].keys[MIN_KEYS] && store == CutInner(s, node, newNode)
      requires store.Keys == s.Keys + {newNode}
      modifies this`root, this`store, store.Keys
      ensures Shaped(null) && Extends(old(store)) && root !in old(store) && fresh(root)
      ensures store.Keys == old(store).Keys + {root} && store[root].level == old(store)[node].level + 1
      ensures Packed(s, node) ==> Packed(store, root)
    {
      hide TotalOrder, Tree, CutInner, Crown, Packed;
      ghost var t := store;
      AddRoot(node, key, newNode);
      CrownCells(t, node, newNode, key, root);
      SplitRootInnerKeepsTree(cmp, s, node, leaves, contents, newNode, root);
      if Packed(s, node) {
        CrownInnerKeepsPacked(s, node, newNode, key, root);
      }
    }

    /** Tells the parent about the new leaf, or grows a new root over both halves. */
    method PromoteLeaf(leaf: Node<K, V>, key: K, newLeaf: Node<K, V>,
                       ghost s: Store<K, V>, ghost q: nat)
      requires Synced() && TotalOrder(cmp) && q < |leaves| && leaves[q] == leaf
      requires Tree(cmp, s, root, leaves, contents, leaf) && FullLeaf(s, leaf) && NextIsLeaf(s, leaf)
      requires newLeaf !in s && key == s[leaf].keys[MIN_KEYS] && store == CutLeaf(s, leaf, newLeaf)
      requires root in s && (s[leaf].parent == null ==> leaf == root)
      modifies this`root, this`store, this`leaves, store.Keys
      ensures Shaped(null) && Extends(old(store)) && forall n :: n in store && n !in old(store) ==> fresh(n)
      ensures root in store && s[old(root)].level <= store[root].level <= s[old(root)].level + 1
      ensures Packed(s, old(root)) ==> Packed(store, root)
    {
      hide TotalOrder, Tree, CutLeaf, Crown, Attach, InsertAt, NextIsLeaf, Packed;
      CutLeafCells(s, leaf, newLeaf);
      assert leaf.Read() == store[leaf];
      ghost var ls := leaves;
      leaves := InsertAt(ls, q + 1, newLeaf);
      if leaf.parent != null {
        ghost var i := LeafReadyForParent(s, ls, q, newLeaf);
        InsertInternal(leaf.parent, key, newLeaf, i);
      } else {
        AddLeafRoot(leaf, key, newLeaf, s, ls, q);
      }
    }

    method SplitLeaf(leaf: Node<K, V>)
      requires Shaped(leaf) && leaf in store && store[leaf].isLeaf && |store[leaf].keys| == ORDER
      requires root in store
      modifies this`root, this`store, this`leaves, store.Keys
      ensures Shaped(null) && Extends(old(store)) && forall n :: n in store && n !in old(store) ==> fresh(n)
      ensures root in store && old(store[root]).level <= store[root].level <= old(store[root]).level + 1
      ensures old(Packed(store, root)) ==> Packed(store, root)
    {
      hide TotalOrder, Tree, CutLeaf, NextIsLeaf, Packed;
      ghost var s := store;
      ghost var q := FullLeafFacts(s, leaf);
      var newLeaf := CutOffLeaf(leaf);
      var promotedKey := newLeaf.keys[0];
      PromoteLeaf(leaf, promotedKey, newLeaf, s, q);
    }

    /** Enters a key and the child above it at their place in an inner node. */
    method PlaceChild(node: Node<K, V>, key: K, child: Node<K, V>, ghost i: nat)
      requires Synced() && TotalOrder(cmp) && node in store
      requires i <= |store[node].keys| && |store[node].children| == |store[node].keys| + 1
      requires Ascending(cmp, InsertAt(store[node].keys, i, key))
      modifies this`store, node
      ensures Synced() && store == Attach(old(store), node, i, key, child)
    {
      ghost var s := store;
      assert node.Read() == s[node];
      var pos := LowerBound(node.keys, key);
      OnlyPlace(node.keys, key, pos, i);
      node.keys := InsertAt(node.keys, pos, key);
      node.children := InsertAt(node.children, pos + 1, child);
      store := Attach(s, node, i, key, child);
    }

    lemma AttachedKeysAscend(s: Store<K, V>, n: Node<K, V>, key: K, child: Node<K, V>, i: nat)
      requires n in s && i <= |s[n].keys| && |s[n].children| == |s[n].keys| + 1
      requires Tree(cmp, Attach(s, n, i, key, child), root, leaves, contents, n)
      ensures Ascending(cmp, InsertAt(s[n].keys, i, key))
    {
      assert CellOk(cmp, Attach(s, n, i, key, child)[n]);
    }

    method InsertInternal(node: Node<K, V>, key: K, child: Node<K, V>, ghost i: nat)
      requires Synced() && TotalOrder(cmp)
      requires node in store && child in store && root in store && store[node].level <= store[root].level
      requires !store[node].isLeaf && i <= |store[node].keys| && |store[node].children| == |store[node].keys| + 1
      requires Tree(cmp, Attach(store, node, i, key, child), root, leaves, contents, node)
      modifies this`root, this`store, store.Keys
      ensures Shaped(null) && Extends(old(store)) && forall n :: n in store && n !in old(store) ==> fresh(n)
      ensures root in store && old(store[root]).level <= store[root].level <= old(store[root]).level + 1
      ensures old(Packed(Attach(store, node, i, key, child), root)) ==> Packed(store, root)
      decreases store[root].level - store[node].level, 2
    {
      hide TotalOrder, Tree, Ascending, Packed;
      AttachedKeysAscend(store, node, key, child, i);
      PlaceChild(node, key, child, i);
      RoomFacts(store, node);
      assert node.Read() == store[node];
      if |node.keys| >= ORDER {
        SplitInternal(node);
      }
    }

    /** Tells the parent about the new inner node, or grows a new root over both. */
    method PromoteInner(node: Node<K, V>, key: K, newNode: Node<K, V>, ghost s: Store<K, V>)
      requires Synced() && TotalOrder(cmp) && Tree(cmp, s, root, leaves, contents, node)
      requires FullInner(s, node) && node !in s[node].children && newNode !in s
      requires key == s[node].keys[MIN_KEYS] && store == CutInner(s, node, newNode)
      requires root in s && s[node].level <= s[root].level && (s[node].parent == null ==> node == root)
      modifies this`root, this`store, store.Keys
      ensures Shaped(null) && Extends(old(store)) && forall n :: n in store && n !in old(store) ==> fresh(n)
      ensures root in store && s[old(root)].level <= store[root].level <= s[old(root)].level + 1
      ensures Packed(s, old(root)) ==> Packed(store, root)
      decreases s[root].level - s[node].level, 0
    {
      hide TotalOrder, Tree, CutInner, Crown, Attach, Packed;
      CutInnerCells(s, node, newNode);
      assert node.Read() == store[node];
      if node.parent != null {
        ghost var i := InnerReadyForParent(s, node, newNode);
        InsertInternal(node.parent, key, newNode, i);
      } else {
        AddInnerRoot(node, key, newNode, s);
      }
    }

    method SplitInternal(node: Node<K, V>)
      requires Shaped(node) && node in store && !store[node].isLeaf && |store[node].keys| == ORDER
      requires root in store && store[node].level <= store[root].level
      modifies this`root, this`store, store.Keys
      ensures Shaped(null) && Extends(old(store)) && forall n :: n in store && n !in old(store) ==> fresh(n)
      ensures root in store && old(store[root]).level <= store[root].level <= old(store[root]).level + 1
      ensures old(Packed(store, root)) ==> Packed(store, root)
      decreases store[root].level - store[node].level, 1
    {
      hide TotalOrder, Tree, CutInner, Packed;
      ghost var s := store;
      FullInnerFacts(s, node);
      assert node.Read() == s[node];
      var promotedKey := node.keys[|node.keys| / 2];
      var newNode := CutOffInner(node);
      PromoteInner(node, promotedKey, newNode, s);
    }

    // ------------------------------------------------------------- point access

    /** A node that serves `key` routes it to a child that serves `key`. */
    lemma Route(s: Store<K, V>, n: Node<K, V>, key: K, i: nat)
      requires TotalOrder(cmp) && CellsOk(cmp, s) && ChildrenOk(s)
      requires n in s && !s[n].isLeaf && Within(cmp, s[n].lo, key, s[n].hi) && i <= |s[n].keys|
      requires i > 0 ==> cmp(key, s[n].keys[i - 1]) >= 0
      requires i < |s[n].keys| ==> cmp(key, s[n].keys[i]) < 0
      ensures i < |s[n].children| && s[n].children[i] in s
      ensures var c := s[n].children[i];
              s[c].level < s[n].level && Within(cmp, s[c].lo, key, s[c].hi)
    {
      assert CellOk(cmp, s[n]);
      assert ChildOk(s, n, i);
    }

    /** The leaf whose interval holds `key`. */
    method FindLeaf(key: K) returns (leaf: Node<K, V>)
      requires Valid()
      ensures leaf in store && store[leaf].isLeaf && Within(cmp, store[leaf].lo, key, store[leaf].hi)
    {
      leaf := root;
      while !leaf.isLeaf
        invariant leaf in store && Within(cmp, store[leaf].lo, key, store[leaf].hi)
        invariant leaf.isLeaf == store[leaf].isLeaf
        decreases store[leaf].level
      {
        assert leaf.Read() == store[leaf];
        var i := 0;
        while i < |leaf.keys| && cmp(key, leaf.keys[i]) >= 0
          invariant 0 <= i <= |leaf.keys|
          invariant i > 0 ==> cmp(key, leaf.keys[i - 1]) >= 0
        {
          i := i + 1;
        }
        Route(store, leaf, key, i);
        leaf := leaf.children[i];
        assert leaf.Read() == store[leaf];
      }
    }

    /** What a leaf tells about a key of its interval. */
    lemma LeafFacts(leaf: Node<K, V>)
      requires Valid() && leaf in store && store[leaf].isLeaf
      ensures leaf.Read() == store[leaf] && CellOk(cmp, store[leaf]) && LeafHolds(cmp, store[leaf], contents)
      ensures |leaf.keys| < ORDER
    {
    }

    method Find(key: K) returns (r: Option<V>)
      requires Valid()
      ensures r == if key in contents then Some(contents[key]) else None
    {
      var leaf := FindLeaf(key);
      LeafFacts(leaf);
      var i := 0;
      while i < |leaf.keys|
        invariant 0 <= i <= |leaf.keys|
        invariant key !in leaf.keys[..i]
      {
        if cmp(key, leaf.keys[i]) == 0 {
          return Some(leaf.values[i]);
        }
        i := i + 1;
      }
      return None;
    }

    method Contains(key: K) returns (r: bool)
      requires Valid()
      ensures r <==> key in contents
    {
      var v := Find(key);
      r := v.Some?;
    }

    /** Gives a leaf new entries, and the index the size and contents they stand for. */
    method Rewrite(leaf: Node<K, V>, keys: seq<K>, values: seq<V>, newSize: nat,
                   ghost m: map<K, V>, ghost over: Node?<K, V>)
      requires Synced() && leaf in store && TotalOrder(cmp)
      requires Tree(cmp, store[leaf := store[leaf].(keys := keys, values := values)], root, leaves, m, over)
      modifies this`store, this`contents, this`size, leaf
      ensures Shaped(over) && contents == m && size == newSize
      ensures store == old(store)[leaf := old(store)[leaf].(keys := keys, values := values)]
    {
      hide TotalOrder, Tree;
      ghost var s := store;
      assert leaf.Read() == s[leaf];
      leaf.keys, leaf.values := keys, values;
      assert leaf.Read() == s[leaf].(keys := keys, values := values);
      hide Node.Read;
      store := s[leaf := s[leaf].(keys := keys, values := values)];
      contents := m;
      size := newSize;
      forall x | x in store ensures x.Read() == store[x] {
        assert old(x.Read()) == s[x];
      }
    }

    /** `keys` is where `key` belongs in a leaf, and whether it is there already. */
    ghost predicate PlaceOf(c: Cell<K, V>, key: K, pos: nat) {
      && pos <= |c.keys| == |c.values| && c.isLeaf
      && Within(cmp, c.lo, key, c.hi)
      && (forall j :: 0 <= j < pos ==> cmp(key, c.keys[j]) > 0)
      && (pos < |c.keys| ==> cmp(key, c.keys[pos]) <= 0)
    }

    lemma OverwriteKeepsTree(leaf: Node<K, V>, pos: nat, key: K, value: V)
      requires Valid() && leaf in store && PlaceOf(store[leaf], key, pos)
      requires pos < |store[leaf].keys| && cmp(key, store[leaf].keys[pos]) == 0
      ensures key in contents && |contents[key := value]| == size
      ensures Tree(cmp, store[leaf := store[leaf].(values := store[leaf].values[pos := value])], root, leaves,
                   contents[key := value], null)
    {
      SetKeepsTree(cmp, store, root, leaves, contents, leaf, pos, value);
      assert contents.Keys == contents[key := value].Keys;
    }

    lemma AddKeepsTree(leaf: Node<K, V>, pos: nat, key: K, value: V)
      requires Valid() && leaf in store && PlaceOf(store[leaf], key, pos)
      requires pos < |store[leaf].keys| ==> cmp(key, store[leaf].keys[pos]) != 0
      ensures key !in contents && |contents[key := value]| == size + 1
      ensures Tree(cmp, store[leaf := PutEntry(store[leaf], pos, key, value)], root, leaves, contents[key := value], leaf)
    {
      PutKeepsTree(cmp, store, root, leaves, contents, leaf, pos, key, value);
    }

    method Overwrite(leaf: Node<K, V>, pos: nat, key: K, value: V)
      requires Valid() && leaf in store && PlaceOf(store[leaf], key, pos)
      requires pos < |store[leaf].keys| && cmp(key, store[leaf].keys[pos]) == 0
      modifies this`store, this`contents, this`size, leaf
      ensures Valid() && contents == old(contents)[key := value] && store.Keys == old(store).Keys
      ensures forall n :: n in store ==> store[n].level == old(store)[n].level
      ensures old(Packed(store, root)) ==> Packed(store, root)
    {
      assert leaf.Read() == store[leaf];
      OverwriteKeepsTree(leaf, pos, key, value);
      hide TotalOrder, Tree, PlaceOf;
      Rewrite(leaf, leaf.keys, leaf.values[pos := value], size, contents[key := value], null);
    }

    method Enter(leaf: Node<K, V>, pos: nat, key: K, value: V)
      requires Valid() && leaf in store && PlaceOf(store[leaf], key, pos)
      requires pos < |store[leaf].keys| ==> cmp(key, store[leaf].keys[pos]) != 0
      modifies this`store, this`contents, this`size, leaf
      ensures Shaped(leaf) && size == |contents| && contents == old(contents)[key := value]
      ensures store.Keys == old(store).Keys && leaf in store && store[leaf].isLeaf && |store[leaf].keys| <= ORDER
      ensures leaf.keys == store[leaf].keys
      ensures forall n :: n in store ==> store[n].level == old(store)[n].level
      ensures old(Packed(store, root)) ==> Packed(store, root)
    {
      hide TotalOrder, Tree, CellOk, LeafHolds, Within;
      LeafFacts(leaf);
      AddKeepsTree(leaf, pos, key, value);
      var keys, values := InsertAt(leaf.keys, pos, key), InsertAt(leaf.values, pos, value);
      Rewrite(leaf, keys, values, size + 1, contents[key := value], leaf);
      assert leaf.Read() == store[leaf];
    }

    lemma RootInStore()
      requires Valid()
      ensures root in store
    {
    }

    /** Enters a new key into its leaf, splitting the leaf when that fills it. */
    method Add(leaf: Node<K, V>, pos: nat, key: K, value: V)
      requires Valid() && leaf in store && PlaceOf(store[leaf], key, pos) && root in store
      requires pos < |store[leaf].keys| ==> cmp(key, store[leaf].keys[pos]) != 0
      modifies this, store.Keys
      ensures Valid() && contents == old(contents)[key := value]
      ensures forall n :: n in store && n !in old(store) ==> fresh(n)
      ensures root in store && old(store[root].level) <= store[root].level <= old(store[root].level) + 1
      ensures old(Packed(store, root)) ==> Packed(store, root)
    {
      hide TotalOrder, Tree, PlaceOf, Packed;
      Enter(leaf, pos, key, value);
      RoomFacts(store, leaf);
      if |leaf.keys| >= ORDER {
        SplitLeaf(leaf);
      }
    }

    /** The leaf that serves `key` and the place of `key` in it. */
    method Locate(key: K) returns (leaf: Node<K, V>, pos: nat)
      requires Valid()
      ensures leaf in store && PlaceOf(store[leaf], key, pos) && root in store
      ensures leaf.keys == store[leaf].keys && leaf.values == store[leaf].values
    {
      leaf := FindLeaf(key);
      LeafFacts(leaf);
      RootInStore();
      pos := LowerBound(leaf.keys, key);
    }

    method Insert(key: K, value: V) returns (ok: bool)
      requires Valid()
      modifies this, store.Keys
      ensures Valid() && ok && contents == old(contents)[key := value]
      ensures forall n :: n in store && n !in old(store) ==> fresh(n)
      ensures root in store && old(root) in old(store)
      ensures old(store[root].level) <= store[root].level <= old(store[root].level) + 1
      ensures old(Packed(store, root)) ==> Packed(store, root)
    {
      hide TotalOrder, Tree, Packed;
      var leaf, pos := Locate(key);
      if pos < |leaf.keys| && cmp(key, leaf.keys[pos]) == 0 {
        Overwrite(leaf, pos, key, value);
      } else {
        Add(leaf, pos, key, value);
      }
      return true;
    }

    /** The first position of `key`, or the length when it does not occur. */
    method IndexOf(keys: seq<K>, key: K) returns (pos: nat)
      requires TotalOrder(cmp)
      ensures pos <= |keys| && (pos < |keys| ==> keys[pos] == key) && (pos == |keys| ==> key !in keys)
    {
      pos := 0;
      while pos < |keys| && cmp(key, keys[pos]) != 0
        invariant 0 <= pos <= |keys|
        invariant key !in keys[..pos]
      {
        pos := pos + 1;
      }
    }

    lemma EraseKeepsTree(leaf: Node<K, V>, i: nat)
      requires Valid() && leaf in store && store[leaf].isLeaf && i < |store[leaf].keys| == |store[leaf].values|
      ensures var key := store[leaf].keys[i];
              && key in contents && size > 0 && |contents - {key}| == size - 1
              && Tree(cmp, store[leaf := DropEntry(store[leaf], i)], root, leaves, contents - {key}, null)
    {
      DropKeepsTree(cmp, store, root, leaves, contents, leaf, i);
      var key := store[leaf].keys[i];
      assert (contents - {key}).Keys == contents.Keys - {key};
    }

    /** Erases the entry of a key that the leaf holds. */
    method RemoveFromLeaf(leaf: Node<K, V>, key: K)
      requires Valid() && leaf in store && store[leaf].isLeaf && key in store[leaf].keys
      modifies this`store, this`contents, this`size, leaf
      ensures Valid() && contents == old(contents) - {key} && store.Keys == old(store).Keys
      ensures forall n :: n in store ==> store[n].level == old(store)[n].level
    {
      hide TotalOrder, Tree, LeafHolds, CellOk;
      LeafFacts(leaf);
      var i := IndexOf(leaf.keys, key);
      EraseKeepsTree(leaf, i);
      Rewrite(leaf, RemoveAt(leaf.keys, i), RemoveAt(leaf.values, i), size - 1, contents - {key}, null);
    }

    /** A key of a leaf's interval is in the index exactly when it is in the leaf. */
    lemma OwnerDecides(leaf: Node<K, V>, key: K)
      requires Valid() && leaf in store && store[leaf].isLeaf && Within(cmp, store[leaf].lo, key, store[leaf].hi)
      ensures key in contents <==> key in store[leaf].keys
    {
      LeafFacts(leaf);
    }

    method Remove(key: K) returns (found: bool)
      requires Valid()
      modifies this, store.Keys
      ensures Valid() && contents == old(contents) - {key} && found == (key in old(contents))
      ensures store.Keys == old(store).Keys && root == old(root) && root in store && old(root) in old(store)
      ensures store[root].level == old(store[root].level)
    {
      hide TotalOrder, Tree, LeafHolds, CellOk;
      var leaf := FindLeaf(key);
      LeafFacts(leaf);
      OwnerDecides(leaf, key);
      RootInStore();
      var pos := IndexOf(leaf.keys, key);
      if pos >= |leaf.keys| {
        assert contents - {key} == contents;
        return false;
      }
      assert key in store[leaf].keys;
      RemoveFromLeaf(leaf, key);
      return true;
    }

    method Clear()
      requires TotalOrder(cmp)
      modifies this
      ensures Valid() && contents == map[] && size == 0 && fresh(root) && store.Keys == {root} && store[root].level == 0
      ensures Packed(store, root)
    {
      hide TotalOrder, Tree, Packed;
      root := new Node<K, V>(true);
      size := 0;
      contents, store, leaves := map[], map[root := FreshLeaf()], [root];
      EmptyTree(cmp, root);
    }

    method Height() returns (h: nat)
      requires Valid()
      ensures root in store && h == store[root].level + 1
    {
      h := 0;
      var node := root;
      RootInStore();
      while !node.isLeaf
        invariant node in store && h + store[node].level == store[root].level
        decreases store[node].level
      {
        assert node.Read() == store[node] && CellOk(cmp, store[node]);
        assert ChildOk(store, node, 0);
        h := h + 1;
        node := node.children[0];
      }
      assert node.Read() == store[node] && CellOk(cmp, store[node]);
      h := h + 1;
    }
  }
}
