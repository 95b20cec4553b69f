/** Total orders given by a three-way comparator, as the index takes one. */
module KeyOrder {

  ghost predicate TotalOrder<K(!new)>(cmp: (K, K) -> int) {
    && (forall a, b :: cmp(a, b) == 0 <==> a == b)
    && (forall a, b :: cmp(a, b) < 0 <==> cmp(b, a) > 0)
    && (forall a, b, c :: cmp(a, b) < 0 && cmp(b, c) < 0 ==> cmp(a, c) < 0)
  }

  ghost predicate Ascending<K>(cmp: (K, K) -> int, s: seq<K>) {
    forall i, j :: 0 <= i < j < |s| ==> cmp(s[i], s[j]) < 0
  }

  /** One end of a half-open key interval; `Open` leaves that side unbounded. */
  datatype Bound<K> = Open | At(key: K)

  ghost predicate From<K>(cmp: (K, K) -> int, lo: Bound<K>, k: K) {
    lo.At? ==> cmp(lo.key, k) <= 0
  }

  ghost predicate Until<K>(cmp: (K, K) -> int, k: K, hi: Bound<K>) {
    hi.At? ==> cmp(k, hi.key) < 0
  }

  ghost predicate Within<K>(cmp: (K, K) -> int, lo: Bound<K>, k: K, hi: Bound<K>) {
    From(cmp, lo, k) && Until(cmp, k, hi)
  }

  ghost predicate Inhabited<K>(cmp: (K, K) -> int, lo: Bound<K>, hi: Bound<K>) {
    lo.At? && hi.At? ==> cmp(lo.key, hi.key) < 0
  }

  function InsertAt<T>(s: seq<T>, i: nat, x: T): (r: seq<T>)
    requires i <= |s|
    ensures |r| == |s| + 1 && r[i] == x
    ensures forall j :: 0 <= j < i ==> r[j] == s[j]
    ensures forall j :: i < j < |r| ==> r[j] == s[j - 1]
  {
    s[..i] + [x] + s[i..]
  }

  lemma InsertMember<T>(s: seq<T>, i: nat, x: T, y: T)
    requires i <= |s|
    ensures y in InsertAt(s, i, x) <==> y == x || y in s
  {
  }

  function RemoveAt<T>(s: seq<T>, i: nat): (r: seq<T>)
    requires i < |s|
    ensures |r| == |s| - 1
    ensures forall j :: 0 <= j < i ==> r[j] == s[j]
    ensures forall j :: i <= j < |r| ==> r[j] == s[j + 1]
  {
    s[..i] + s[i + 1..]
  }

  /** Placing a key between its neighbours keeps a sequence ascending. */
  lemma InsertKeepsAscending<K(!new)>(cmp: (K, K) -> int, s: seq<K>, i: nat, k: K)
    requires TotalOrder(cmp) && Ascending(cmp, s) && i <= |s|
    requires i > 0 ==> cmp(s[i - 1], k) < 0
    requires i < |s| ==> cmp(k, s[i]) < 0
    ensures Ascending(cmp, InsertAt(s, i, k))
  {
    var r := InsertAt(s, i, k);
    forall a, b | 0 <= a < b < |r| ensures cmp(r[a], r[b]) < 0 {
      if a == i && b > i + 1 {
        assert cmp(s[i], s[b - 1]) < 0;
      } else if b == i && a < i - 1 {
        assert cmp(s[a], s[i - 1]) < 0;
      }
    }
  }

  /** In an ascending sequence keys compare as their positions do. */
  lemma IndexOrder<K(!new)>(cmp: (K, K) -> int, s: seq<K>, i: nat, j: nat)
    requires TotalOrder(cmp) && Ascending(cmp, s) && i < |s| && j < |s|
    ensures cmp(s[i], s[j]) < 0 <==> i < j
    ensures s[i] == s[j] <==> i == j
  {
  }

  /** A key of an ascending sequence is in the half that its comparison with the
      first key of the upper half says. */
  lemma HalfOf<K(!new)>(cmp: (K, K) -> int, s: seq<K>, mid: nat, k: K)
    requires TotalOrder(cmp) && Ascending(cmp, s) && mid < |s| && k in s
    ensures if cmp(k, s[mid]) < 0 then k in s[..mid] else k in s[mid..]
  {
    var j :| 0 <= j < |s| && s[j] == k;
    IndexOrder(cmp, s, j, mid);
    assert if j < mid then s[..mid][j] == k else s[mid..][j - mid] == k;
  }

  /** Intervals cut at `sep` lie inside the whole. */
  lemma CutInterval<K(!new)>(cmp: (K, K) -> int, lo: Bound<K>, sep: K, hi: Bound<K>, k: K)
    requires TotalOrder(cmp) && Within(cmp, lo, sep, hi)
    ensures Within(cmp, lo, k, At(sep)) ==> Within(cmp, lo, k, hi) && cmp(k, sep) < 0
    ensures Within(cmp, At(sep), k, hi) ==> Within(cmp, lo, k, hi) && cmp(k, sep) >= 0
  {
  }

  /** A key strictly between two neighbours does not occur. */
  lemma BetweenIsAbsent<K(!new)>(cmp: (K, K) -> int, s: seq<K>, i: nat, k: K)
    requires TotalOrder(cmp) && Ascending(cmp, s) && i <= |s|
    requires i > 0 ==> cmp(s[i - 1], k) < 0
    requires i < |s| ==> cmp(k, s[i]) < 0
    ensures k !in s
  {
    forall j | 0 <= j < |s| ensures s[j] != k {
      if i > 0 {
        IndexOrder(cmp, s, j, i - 1);
      }
      if i < |s| {
        IndexOrder(cmp, s, i, j);
      }
    }
  }

  lemma RemoveKeepsAscending<K(!new)>(cmp: (K, K) -> int, s: seq<K>, i: nat)
    requires TotalOrder(cmp) && Ascending(cmp, s) && i < |s|
    ensures Ascending(cmp, RemoveAt(s, i)) && s[i] !in RemoveAt(s, i)
  {
    var r := RemoveAt(s, i);
    forall a, b | 0 <= a < b < |r| ensures cmp(r[a], r[b]) < 0 {
      assert cmp(s[if a < i then a else a + 1], s[if b < i then b else b + 1]) < 0;
    }
    forall j | 0 <= j < |r| ensures r[j] != s[i] {
      assert j < i ==> cmp(s[j], s[i]) < 0;
      assert i <= j ==> cmp(s[i], s[j + 1]) < 0;
    }
  }
}
