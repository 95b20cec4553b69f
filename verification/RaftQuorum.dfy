/** The index that the leader takes to be held by a majority. */
module RaftQuorum {
  import opened RaftElection

  /** How many replicas hold everything up to `x`. */
  function HeldBy(s: seq<nat>, x: nat): (c: nat)
    ensures c <= |s|
  {
    if |s| == 0 then 0 else HeldBy(s[..|s| - 1], x) + (if s[|s| - 1] >= x then 1 else 0)
  }

  predicate Descending(s: seq<nat>) {
    forall i, j :: 0 <= i < j < |s| ==> s[i] >= s[j]
  }

  function Insert(s: seq<nat>, x: nat): (r: seq<nat>)
    ensures |r| == |s| + 1
  {
    if |s| == 0 || s[|s| - 1] >= x then s + [x] else Insert(s[..|s| - 1], x) + [s[|s| - 1]]
  }

  /** The indices from the greatest to the least. */
  function SortDown(s: seq<nat>): (r: seq<nat>)
    ensures |r| == |s|
  {
    if |s| == 0 then [] else Insert(SortDown(s[..|s| - 1]), s[|s| - 1])
  }

  lemma {:induction false} InsertCounts(s: seq<nat>, x: nat, y: nat)
    ensures HeldBy(Insert(s, x), y) == HeldBy(s, y) + (if x >= y then 1 else 0)
  {
    var r := Insert(s, x);
    if |s| == 0 || s[|s| - 1] >= x {
      assert r[..|r| - 1] == s;
    } else {
      InsertCounts(s[..|s| - 1], x, y);
      assert r[..|r| - 1] == Insert(s[..|s| - 1], x);
    }
  }

  lemma {:induction false} InsertDescends(s: seq<nat>, x: nat)
    requires Descending(s)
    ensures Descending(Insert(s, x))
    ensures forall y :: y in Insert(s, x) ==> y == x || y in s
  {
    if |s| > 0 && s[|s| - 1] < x {
      InsertDescends(s[..|s| - 1], x);
      var r := Insert(s[..|s| - 1], x);
      forall i | 0 <= i < |r| ensures r[i] >= s[|s| - 1] {
        assert r[i] in r;
      }
    }
  }

  /** Sorting changes no count. */
  lemma {:induction false} SortCounts(s: seq<nat>, y: nat)
    ensures Descending(SortDown(s)) && HeldBy(SortDown(s), y) == HeldBy(s, y)
  {
    if |s| > 0 {
      SortCounts(s[..|s| - 1], y);
      InsertCounts(SortDown(s[..|s| - 1]), s[|s| - 1], y);
      InsertDescends(SortDown(s[..|s| - 1]), s[|s| - 1]);
    }
  }

  /** Counting in a descending sequence. */
  lemma {:induction false} DescendingCounts(s: seq<nat>, k: nat, x: nat)
    requires Descending(s) && k < |s|
    ensures HeldBy(s, x) >= k + 1 <==> s[k] >= x
    decreases |s|
  {
    var n := |s| - 1;
    if k < n {
      DescendingCounts(s[..n], k, x);
    } else if s[n] >= x {
      AllHeld(s, x);
    }
  }

  lemma {:induction false} AllHeld(s: seq<nat>, x: nat)
    requires forall i :: 0 <= i < |s| ==> s[i] >= x
    ensures HeldBy(s, x) == |s|
  {
    if |s| > 0 {
      AllHeld(s[..|s| - 1], x);
    }
  }

  /** The greatest index held by at least `k` replicas. */
  predicate GreatestHeld(s: seq<nat>, k: nat, q: nat) {
    HeldBy(s, q) >= k && HeldBy(s, q + 1) < k
  }

  lemma {:induction false} MoreHeldBelow(s: seq<nat>, x: nat, y: nat)
    requires x <= y
    ensures HeldBy(s, x) >= HeldBy(s, y)
  {
    if |s| > 0 {
      MoreHeldBelow(s[..|s| - 1], x, y);
    }
  }

  /** An index is held by `k` replicas exactly when it is not above the greatest such. */
  lemma GreatestMeans(s: seq<nat>, k: nat, q: nat, x: nat)
    requires GreatestHeld(s, k, q)
    ensures HeldBy(s, x) >= k <==> x <= q
  {
    if x <= q {
      MoreHeldBelow(s, x, q);
    } else {
      MoreHeldBelow(s, q + 1, x);
    }
  }

  /** Leader and peers together; the result is the greatest index that `(n - 1) / 2 + 1`
      of the `n` entries reach. */
  method ComputeQuorumIndex(lastIndex: nat, matches: seq<nat>) returns (q: nat)
    ensures GreatestHeld([lastIndex] + matches, |matches| / 2 + 1, q)
  {
    var idxs := [lastIndex];
    for i := 0 to |matches|
      invariant idxs == [lastIndex] + matches[..i]
    {
      idxs := idxs + [matches[i]];
    }
    assert matches[..|matches|] == matches;
    var sorted := SortDown(idxs);
    var k := (|sorted| - 1) / 2;
    q := sorted[k];
    SortCounts(idxs, q);
    SortCounts(idxs, q + 1);
    DescendingCounts(sorted, k, q);
    DescendingCounts(sorted, k, q + 1);
  }

  /** In every cluster of even size the index may be held by half of the replicas only. */
  lemma HalfIsTaken(n: nat) returns (s: seq<nat>)
    requires n > 0 && n % 2 == 0
    ensures |s| == n && GreatestHeld(s, (n - 1) / 2 + 1, 1) && HeldBy(s, 1) < Quorum(n)
  {
    s := seq(n, i => if i < n / 2 then 1 else 0);
    Half(s, n / 2, n);
  }

  lemma {:induction false} Half(s: seq<nat>, h: nat, j: nat)
    requires h <= |s| && j <= |s| && forall i :: 0 <= i < |s| ==> s[i] == if i < h then 1 else 0
    ensures HeldBy(s[..j], 1) == (if j < h then j else h) && HeldBy(s[..j], 2) == 0
    ensures j == |s| ==> HeldBy(s, 1) == h && HeldBy(s, 2) == 0
    decreases j
  {
    if j > 0 {
      Half(s, h, j - 1);
      assert s[..j][..j - 1] == s[..j - 1];
    }
    if j == |s| {
      assert s[..j] == s;
    }
  }

  /** For clusters of exactly the odd sizes that index is always the greatest one held by
      a majority. */
  lemma MajorityExactly(n: nat)
    requires n > 0
    ensures n % 2 == 1 <==>
            forall s, q :: |s| == n && GreatestHeld(s, (n - 1) / 2 + 1, q) ==> GreatestHeld(s, Quorum(n), q)
  {
    if n % 2 == 0 {
      var s := HalfIsTaken(n);
      assert !GreatestHeld(s, Quorum(n), 1);
    }
  }

  lemma {:induction false} ZeroUncounted(a: seq<nat>, b: seq<nat>, x: nat)
    requires x > 0
    ensures HeldBy(a + [0] + b, x) == HeldBy(a + b, x)
    decreases |b|
  {
    var s, t := a + [0] + b, a + b;
    if |b| == 0 {
      assert s[..|s| - 1] == a && t == a;
    } else {
      ZeroUncounted(a, b[..|b| - 1], x);
      assert s[..|s| - 1] == a + [0] + b[..|b| - 1] && t[..|t| - 1] == a + b[..|b| - 1];
    }
  }

  /** When the node's own address is among the peers, its entry, wherever it is, stays at
      zero; a nonzero index is then the greatest one held by a majority of the cluster. */
  lemma SelfListed(a: seq<nat>, b: seq<nat>, q: nat)
    requires |a + b| > 0 && q > 0 && GreatestHeld(a + [0] + b, |a + b| / 2 + 1, q)
    ensures GreatestHeld(a + b, Quorum(|a + b|), q)
  {
    ZeroUncounted(a, b, q);
    ZeroUncounted(a, b, q + 1);
  }
}
