/** Whole histories of index operations, against a plain finite map. */
module BTreeHistory {
  import opened Wrappers
  import opened KeyOrder
  import opened BTreeStore
  import opened BTreeShape
  import opened BPlusTrees

  datatype Op<K, V> = Put(key: K, value: V) | Erase(key: K) | Lookup(key: K) | Wipe

  datatype Reply<V> = Done | Erased(found: bool) | Value(value: Option<V>)

  /** What one operation does to a map, and what it answers. */
  ghost function Apply<K, V>(m: map<K, V>, op: Op<K, V>): map<K, V> {
    match op
    case Put(k, v) => m[k := v]
    case Erase(k) => m - {k}
    case Lookup(_) => m
    case Wipe => map[]
  }

  ghost function Answers<K, V>(m: map<K, V>, op: Op<K, V>): Reply<V> {
    match op
    case Put(_, _) => Done
    case Erase(k) => Erased(k in m)
    case Lookup(k) => Value(if k in m then Some(m[k]) else None)
    case Wipe => Done
  }

  ghost function After<K, V>(m: map<K, V>, ops: seq<Op<K, V>>): map<K, V> {
    if |ops| == 0 then m else Apply(After(m, ops[..|ops| - 1]), ops[|ops| - 1])
  }

  ghost function Replies<K, V>(m: map<K, V>, ops: seq<Op<K, V>>): seq<Reply<V>> {
    if |ops| == 0 then []
    else Replies(m, ops[..|ops| - 1]) + [Answers(After(m, ops[..|ops| - 1]), ops[|ops| - 1])]
  }

  /** One operation on the index refines the same operation on the map. */
  method Step<K(!new, ==), V>(t: BPlusTree<K, V>, op: Op<K, V>) returns (r: Reply<V>)
    requires t.Valid()
    modifies t, t.store.Keys
    ensures t.Valid() && t.contents == Apply(old(t.contents), op) && r == Answers(old(t.contents), op)
    ensures forall n :: n in t.store && n !in old(t.store) ==> fresh(n)
    ensures !op.Erase? && old(Packed(t.store, t.root)) ==> Packed(t.store, t.root)
  {
    hide TotalOrder, Tree, Packed;
    match op {
      case Put(k, v) =>
        var ok := t.Insert(k, v);
        r := Done;
      case Erase(k) =>
        var found := t.Remove(k);
        r := Erased(found);
      case Lookup(k) =>
        var v := t.Find(k);
        r := Value(v);
      case Wipe =>
        t.Clear();
        r := Done;
    }
  }

  /** Every history leaves the index valid, with the contents and the answers a
      map would give; without removals the tree stays at least half full. */
  method Replay<K(!new, ==), V>(t: BPlusTree<K, V>, ops: seq<Op<K, V>>) returns (log: seq<Reply<V>>)
    requires t.Valid()
    modifies t, t.store.Keys
    ensures t.Valid() && t.contents == After(old(t.contents), ops) && log == Replies(old(t.contents), ops)
    ensures t.size == |After(old(t.contents), ops)|
    ensures (forall i :: 0 <= i < |ops| ==> !ops[i].Erase?) && old(Packed(t.store, t.root)) ==>
              Packed(t.store, t.root)
  {
    hide TotalOrder, Tree, Packed;
    log := [];
    for i := 0 to |ops|
      invariant t.Valid() && t.contents == After(old(t.contents), ops[..i]) && log == Replies(old(t.contents), ops[..i])
      invariant forall n :: n in t.store && n !in old(t.store) ==> fresh(n)
      invariant (forall j :: 0 <= j < i ==> !ops[j].Erase?) && old(Packed(t.store, t.root)) ==>
                  Packed(t.store, t.root)
    {
      assert ops[..i + 1][..i] == ops[..i];
      var r := Step(t, ops[i]);
      log := log + [r];
    }
    assert ops[..|ops|] == ops;
  }

  /** In a run without removals on a new index, a tree of height `h >= 2` holds at
      least `2 * MIN_KEYS^(h-1)` entries, which is `2 * 64^(h-1)` at order 128. */
  method BuildOnly<K(!new, ==), V>(cmp: (K, K) -> int, ops: seq<Op<K, V>>) returns (t: BPlusTree<K, V>, h: nat)
    requires TotalOrder(cmp) && forall i :: 0 <= i < |ops| ==> !ops[i].Erase?
    ensures t.Valid() && t.contents == After(map[], ops)
    ensures t.root in t.store && h == t.store[t.root].level + 1
    ensures h >= 2 ==> t.size >= 2 * Pow(h - 1)
  {
    hide TotalOrder, Tree, Packed;
    t := new BPlusTree<K, V>(cmp);
    var log := Replay(t, ops);
    h := t.Height();
    PackedIsLarge(t.cmp, t.store, t.root, t.leaves, t.contents);
  }
}
