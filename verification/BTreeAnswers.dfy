/** What the range queries answer, key by key. */
module BTreeAnswers {
  import opened KeyOrder
  import opened BTreeListing
  import opened BTreeQueries

  /** `answer` holds the values of the keys `ks`, in that order. */
  ghost predicate ValuesOf<K, V>(m: map<K, V>, ks: seq<K>, answer: seq<V>) {
    |answer| == |ks| && forall i :: 0 <= i < |ks| ==> ks[i] in m && answer[i] == m[ks[i]]
  }

  /** Selecting keys of an ascending listing leaves exactly the wanted ones, ascending. */
  lemma {:induction false} PickMeans<K(!new), V>(cmp: (K, K) -> int, m: map<K, V>, ks: seq<K>, want: K -> bool)
    returns (sel: seq<K>)
    requires Ascending(cmp, ks) && forall k :: k in ks ==> k in m
    ensures Ascending(cmp, sel) && (forall k :: k in sel <==> k in ks && want(k)) && ValuesOf(m, sel, Pick(m, ks, want))
    decreases |ks|
  {
    if |ks| == 0 {
      sel := [];
    } else {
      var last, rest := ks[|ks| - 1], ks[..|ks| - 1];
      assert forall i, j :: 0 <= i < j < |rest| ==> cmp(ks[i], ks[j]) < 0;
      assert forall k :: k in ks <==> k in rest || k == last;
      sel := PickMeans(cmp, m, rest, want);
      if want(last) {
        forall i | 0 <= i < |sel| ensures cmp(sel[i], last) < 0 {
          assert sel[i] in rest;
          var j :| 0 <= j < |rest| && rest[j] == sel[i];
          assert cmp(ks[j], ks[|ks| - 1]) < 0;
        }
        sel := sel + [last];
      }
    }
  }

  lemma AnswerMeans<K(!new), V>(cmp: (K, K) -> int, m: map<K, V>, want: K -> bool) returns (sel: seq<K>)
    requires TotalOrder(cmp)
    ensures Ascending(cmp, sel) && (forall k :: k in sel <==> k in m && want(k)) && ValuesOf(m, sel, Answer(cmp, m, want))
  {
    hide TotalOrder, Ascending, Pick;
    sel := PickMeans(cmp, m, SortedKeys(cmp, m.Keys), want);
  }

  /** A range holds the keys from the start to the end, with or without either. */
  lemma RangeMeans<K(!new), V>(cmp: (K, K) -> int, m: map<K, V>, start: K, end: K, fromStart: bool, toEnd: bool)
    returns (sel: seq<K>)
    requires TotalOrder(cmp)
    ensures Ascending(cmp, sel) && ValuesOf(m, sel, Answer(cmp, m, InRange(cmp, start, end, fromStart, toEnd)))
    ensures forall k :: k in sel <==>
              && k in m
              && (cmp(start, k) < 0 || (fromStart && k == start))
              && (cmp(k, end) < 0 || (toEnd && k == end))
  {
    hide Answer, Ascending, ValuesOf;
    sel := AnswerMeans(cmp, m, InRange(cmp, start, end, fromStart, toEnd));
  }

  lemma LessThanMeans<K(!new), V>(cmp: (K, K) -> int, m: map<K, V>, key: K, inclusive: bool) returns (sel: seq<K>)
    requires TotalOrder(cmp)
    ensures Ascending(cmp, sel) && ValuesOf(m, sel, Answer(cmp, m, Below(cmp, key, inclusive)))
    ensures forall k :: k in sel <==> k in m && (cmp(k, key) < 0 || (inclusive && k == key))
  {
    hide Answer, Ascending, ValuesOf;
    sel := AnswerMeans(cmp, m, Below(cmp, key, inclusive));
  }

  lemma GreaterThanMeans<K(!new), V>(cmp: (K, K) -> int, m: map<K, V>, key: K, inclusive: bool) returns (sel: seq<K>)
    requires TotalOrder(cmp)
    ensures Ascending(cmp, sel) && ValuesOf(m, sel, Answer(cmp, m, Above(cmp, key, inclusive)))
    ensures forall k :: k in sel <==> k in m && (cmp(key, k) < 0 || (inclusive && k == key))
  {
    hide Answer, Ascending, ValuesOf;
    sel := AnswerMeans(cmp, m, Above(cmp, key, inclusive));
  }

  lemma ScannedPrefix<K(!new), V>(cmp: (K, K) -> int, m: map<K, V>, limit: int) returns (ks: seq<K>)
    requires TotalOrder(cmp)
    ensures Lists(cmp, ks, m.Keys) && |ks| == |m|
    ensures var r := Scanned(cmp, m, limit);
            && |r| == (if 0 <= limit < |m| then limit else |m|)
            && forall i :: 0 <= i < |r| ==> r[i].0 == ks[i] && ks[i] in m && r[i].1 == m[ks[i]]
  {
    hide TotalOrder, Ascending;
    ks := SortedKeys(cmp, m.Keys);
    assert forall i :: 0 <= i < |ks| ==> ks[i] in ks;
  }

  /** A scan holds the pairs of the least keys, as many as the limit allows. */
  lemma ScanMeans<K(!new), V>(cmp: (K, K) -> int, m: map<K, V>, limit: int)
    requires TotalOrder(cmp)
    ensures var r := Scanned(cmp, m, limit);
            && |r| == (if 0 <= limit < |m| then limit else |m|)
            && (forall i :: 0 <= i < |r| ==> r[i].0 in m && r[i].1 == m[r[i].0])
            && (forall i, j :: 0 <= i < j < |r| ==> cmp(r[i].0, r[j].0) < 0)
            && (forall k :: k in m ==> (exists i :: 0 <= i < |r| && r[i].0 == k) || forall i :: 0 <= i < |r| ==> cmp(r[i].0, k) < 0)
  {
    hide TotalOrder, Scanned;
    var r := Scanned(cmp, m, limit);
    var ks := ScannedPrefix(cmp, m, limit);
    forall k | k in m ensures (exists i :: 0 <= i < |r| && r[i].0 == k) || forall i :: 0 <= i < |r| ==> cmp(r[i].0, k) < 0 {
      assert k in ks;
      var j :| 0 <= j < |ks| && ks[j] == k;
      if j < |r| {
        assert r[j].0 == k;
      }
    }
  }
}
