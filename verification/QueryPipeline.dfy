/** The gateway's query helpers: filter evaluation, the multi-key stable sort and
    the aggregation pipeline. */
module QueryPipeline {

  /** JSON values as the helpers see them. Numbers stand for any scalars of one
      total order; arrays and objects are compared by identity, never equal here. */
  datatype Value = Undefined | Null | Num(n: int) | Arr(items: seq<Value>) | Obj(fields: map<string, Value>)

  type Path = seq<string>

  function GetPath(v: Value, path: Path): Value
    decreases |path|
  {
    if |path| == 0 then v
    else
      match v
      case Obj(fields) => GetPath(if path[0] in fields then fields[path[0]] else Undefined, path[1..])
      case _ => Undefined
  }

  function StrictEq(a: Value, b: Value): bool {
    a == b && !a.Arr? && !a.Obj?
  }

  // -------------------------------------------------------------------- order

  predicate IsMissing(v: Value) { v.Undefined? || v.Null? }

  function CompareValues(a: Value, b: Value): int {
    if StrictEq(a, b) then 0
    else if IsMissing(a) then -1
    else if IsMissing(b) then 1
    else if a.Num? && b.Num? && a.n < b.n then -1 else 1
  }

  datatype SortKey = SortKey(path: Path, descending: bool)

  function Signed(c: int, descending: bool): int {
    if descending then -c else c
  }

  /** The comparator handed to the sort: the first key that tells two documents apart. */
  function CompareDocs(a: Value, b: Value, keys: seq<SortKey>): int {
    if |keys| == 0 then 0
    else
      var c := CompareValues(GetPath(a, keys[0].path), GetPath(b, keys[0].path));
      if c != 0 then Signed(c, keys[0].descending) else CompareDocs(a, b, keys[1..])
  }

  /** One of the two is `null` where the other is absent: each compares below the other. */
  predicate Clash(a: Value, b: Value) {
    (a.Null? && b.Undefined?) || (a.Undefined? && b.Null?)
  }

  /** The first sort key that tells the documents apart finds such a pair. */
  predicate Clashing(a: Value, b: Value, keys: seq<SortKey>) {
    |keys| > 0 &&
    var x, y := GetPath(a, keys[0].path), GetPath(b, keys[0].path);
    Clash(x, y) || (x == y && Clashing(a, b, keys[1..]))
  }

  /** The sort values of the document are scalars or missing. */
  predicate ScalarKeys(d: Value, keys: seq<SortKey>) {
    forall k :: 0 <= k < |keys| ==> var v := GetPath(d, keys[k].path); v.Num? || IsMissing(v)
  }

  predicate AllScalar(docs: seq<Value>, keys: seq<SortKey>) {
    forall d :: d in docs ==> ScalarKeys(d, keys)
  }

  /** No two of the documents are decided by `null` against absent. */
  predicate Sortable(docs: seq<Value>, keys: seq<SortKey>) {
    AllScalar(docs, keys) && forall a, b :: a in docs && b in docs ==> !Clashing(a, b, keys)
  }

  /** The value order is antisymmetric exactly where `null` and absent values do not meet. */
  lemma NullAndAbsentClash(vs: set<Value>)
    requires forall v :: v in vs ==> v.Num? || IsMissing(v)
    ensures (forall a, b :: a in vs && b in vs ==> CompareValues(a, b) == -CompareValues(b, a)) <==>
            !(Null in vs && Undefined in vs)
  {
    assert CompareValues(Null, Undefined) == CompareValues(Undefined, Null) == -1;
  }

  lemma ScalarRest(d: Value, keys: seq<SortKey>)
    requires ScalarKeys(d, keys) && |keys| > 0
    ensures ScalarKeys(d, keys[1..])
    ensures var v := GetPath(d, keys[0].path); v.Num? || IsMissing(v)
  {
    forall k | 0 <= k < |keys[1..]| ensures var v := GetPath(d, keys[1..][k].path); v.Num? || IsMissing(v) {
      assert keys[1..][k] == keys[k + 1];
    }
  }

  /** Two documents compare consistently exactly when no such pair decides them. */
  lemma {:induction false} PairOrder(a: Value, b: Value, keys: seq<SortKey>)
    requires ScalarKeys(a, keys) && ScalarKeys(b, keys)
    ensures CompareDocs(a, b, keys) == -CompareDocs(b, a, keys) <==> !Clashing(a, b, keys)
    ensures Clashing(a, b, keys) <==> Clashing(b, a, keys)
    decreases |keys|
  {
    if |keys| > 0 {
      ScalarRest(a, keys);
      ScalarRest(b, keys);
      PairOrder(a, b, keys[1..]);
    }
  }

  lemma ValueOrder(a: Value, b: Value, c: Value)
    requires (a.Num? || IsMissing(a)) && (b.Num? || IsMissing(b)) && (c.Num? || IsMissing(c))
    requires !Clash(a, b) && !Clash(b, c) && !Clash(a, c)
    ensures CompareValues(a, b) == 0 <==> a == b
    ensures CompareValues(a, b) <= 0 && CompareValues(b, c) <= 0 ==> CompareValues(a, c) <= 0
  {
  }

  lemma {:induction false} TripleOrder(a: Value, b: Value, c: Value, keys: seq<SortKey>)
    requires ScalarKeys(a, keys) && ScalarKeys(b, keys) && ScalarKeys(c, keys)
    requires !Clashing(a, b, keys) && !Clashing(b, c, keys) && !Clashing(a, c, keys)
    ensures CompareDocs(a, b, keys) <= 0 && CompareDocs(b, c, keys) <= 0 ==> CompareDocs(a, c, keys) <= 0
    ensures CompareDocs(a, b, keys) == 0 ==> CompareDocs(a, c, keys) == CompareDocs(b, c, keys)
    decreases |keys|
  {
    if |keys| > 0 {
      ScalarRest(a, keys);
      ScalarRest(b, keys);
      ScalarRest(c, keys);
      var x, y, z := GetPath(a, keys[0].path), GetPath(b, keys[0].path), GetPath(c, keys[0].path);
      ValueOrder(x, y, z);
      ValueOrder(z, y, x);
      ValueOrder(y, z, x);
      if x == y == z {
        TripleOrder(a, b, c, keys[1..]);
      }
    }
  }

  /** On sortable documents the comparator is a total preorder. */
  lemma DocOrder(docs: seq<Value>, a: Value, b: Value, c: Value, keys: seq<SortKey>)
    requires Sortable(docs, keys) && a in docs && b in docs && c in docs
    ensures CompareDocs(a, b, keys) == -CompareDocs(b, a, keys)
    ensures CompareDocs(a, b, keys) <= 0 && CompareDocs(b, c, keys) <= 0 ==> CompareDocs(a, c, keys) <= 0
    ensures CompareDocs(a, b, keys) == 0 ==> CompareDocs(a, c, keys) == CompareDocs(b, c, keys)
  {
    PairOrder(a, b, keys);
    TripleOrder(a, b, c, keys);
  }

  /** What the language asks of a comparator before it promises anything of the sort. */
  ghost predicate Consistent(docs: seq<Value>, keys: seq<SortKey>) {
    && (forall a, b {:trigger CompareDocs(a, b, keys)} :: a in docs && b in docs ==>
          CompareDocs(a, b, keys) == -CompareDocs(b, a, keys))
    && (forall a, b, c {:trigger CompareDocs(a, b, keys), CompareDocs(b, c, keys)} ::
          a in docs && b in docs && c in docs && CompareDocs(a, b, keys) <= 0 && CompareDocs(b, c, keys) <= 0 ==>
          CompareDocs(a, c, keys) <= 0)
  }

  /** The comparator is consistent on exactly the sortable documents. */
  lemma ConsistentExactly(docs: seq<Value>, keys: seq<SortKey>)
    requires AllScalar(docs, keys)
    ensures Consistent(docs, keys) <==> Sortable(docs, keys)
  {
    hide CompareDocs, Clashing, ScalarKeys;
    if Sortable(docs, keys) {
      forall a, b | a in docs && b in docs ensures CompareDocs(a, b, keys) == -CompareDocs(b, a, keys) {
        PairOrder(a, b, keys);
      }
      forall a, b, c | a in docs && b in docs && c in docs && CompareDocs(a, b, keys) <= 0 && CompareDocs(b, c, keys) <= 0
        ensures CompareDocs(a, c, keys) <= 0
      {
        TripleOrder(a, b, c, keys);
      }
    }
    if Consistent(docs, keys) {
      forall a, b | a in docs && b in docs ensures !Clashing(a, b, keys) {
        PairOrder(a, b, keys);
        assert CompareDocs(a, b, keys) == -CompareDocs(b, a, keys);
      }
    }
  }

  // ------------------------------------------------------------- stable sort

  function Filter(keep: Value -> bool, docs: seq<Value>): seq<Value> {
    if |docs| == 0 then []
    else
      var rest := Filter(keep, docs[..|docs| - 1]);
      if keep(docs[|docs| - 1]) then rest + [docs[|docs| - 1]] else rest
  }

  /** Documents the sort keys do not tell apart from `v`. */
  function TiedWith(v: Value, keys: seq<SortKey>): Value -> bool {
    x => CompareDocs(x, v, keys) == 0
  }

  ghost predicate Sorted(docs: seq<Value>, keys: seq<SortKey>) {
    forall i, j :: 0 <= i < j < |docs| ==> CompareDocs(docs[i], docs[j], keys) <= 0
  }

  /** What the ECMAScript sort guarantees for a consistent comparator: `r` is in
      order, and documents that tie keep the order they had in `docs`. */
  ghost predicate StableSortOf(docs: seq<Value>, r: seq<Value>, keys: seq<SortKey>) {
    && Sorted(r, keys)
    && (forall v {:trigger TiedWith(v, keys)} :: v in docs || v in r ==>
          Filter(TiedWith(v, keys), r) == Filter(TiedWith(v, keys), docs))
  }

  lemma {:induction false} FilterMember(keep: Value -> bool, docs: seq<Value>, v: Value)
    ensures v in Filter(keep, docs) <==> v in docs && keep(v)
  {
    if |docs| > 0 {
      FilterMember(keep, docs[..|docs| - 1], v);
      assert docs == docs[..|docs| - 1] + [docs[|docs| - 1]];
    }
  }

  lemma {:induction false} FilterCommutes(f: Value -> bool, g: Value -> bool, docs: seq<Value>)
    ensures Filter(f, Filter(g, docs)) == Filter(g, Filter(f, docs))
  {
    if |docs| > 0 {
      var n := |docs| - 1;
      FilterCommutes(f, g, docs[..n]);
      var a, b := Filter(f, docs[..n]), Filter(g, docs[..n]);
      assert (a + [docs[n]])[..|a|] == a && (b + [docs[n]])[..|b|] == b;
    }
  }

  lemma {:induction false} FilterSorted(f: Value -> bool, docs: seq<Value>, keys: seq<SortKey>)
    requires Sorted(docs, keys)
    ensures Sorted(Filter(f, docs), keys)
  {
    if |docs| > 0 {
      var n := |docs| - 1;
      FilterSorted(f, docs[..n], keys);
      var a := Filter(f, docs[..n]);
      forall i | 0 <= i < |a| ensures CompareDocs(a[i], docs[n], keys) <= 0 {
        FilterMember(f, docs[..n], a[i]);
      }
    }
  }

  /** Dropping unwanted documents from a stable sort gives a stable sort of what is left. */
  lemma FilterOfStableSort(f: Value -> bool, docs: seq<Value>, r: seq<Value>, keys: seq<SortKey>)
    requires StableSortOf(docs, r, keys)
    ensures StableSortOf(Filter(f, docs), Filter(f, r), keys)
  {
    FilterSorted(f, r, keys);
    forall v | v in Filter(f, docs) || v in Filter(f, r)
      ensures Filter(TiedWith(v, keys), Filter(f, r)) == Filter(TiedWith(v, keys), Filter(f, docs))
    {
      FilterMember(f, docs, v);
      FilterMember(f, r, v);
      FilterCommutes(TiedWith(v, keys), f, r);
      FilterCommutes(TiedWith(v, keys), f, docs);
    }
  }

  /** A stable sort has the documents of its input and no others. */
  lemma SameMembers(docs: seq<Value>, r: seq<Value>, keys: seq<SortKey>, v: Value)
    requires StableSortOf(docs, r, keys)
    requires v in docs || v in r ==> CompareDocs(v, v, keys) == 0
    ensures v in docs <==> v in r
  {
    FilterMember(TiedWith(v, keys), docs, v);
    FilterMember(TiedWith(v, keys), r, v);
  }

  ghost predicate SameTies(a: seq<Value>, b: seq<Value>, keys: seq<SortKey>) {
    forall v {:trigger TiedWith(v, keys)} :: v in a || v in b ==>
      Filter(TiedWith(v, keys), a) == Filter(TiedWith(v, keys), b)
  }

  /** Each of two orderings with the same ties has a document that ties with any of the other's. */
  lemma FindTie(a: seq<Value>, b: seq<Value>, keys: seq<SortKey>, v: Value) returns (i: nat)
    requires SameTies(a, b, keys) && v in b && CompareDocs(v, v, keys) == 0
    ensures i < |a| && CompareDocs(a[i], v, keys) == 0
  {
    FilterMember(TiedWith(v, keys), b, v);
    FilterMember(TiedWith(v, keys), a, v);
    assert v in a;
    i :| 0 <= i < |a| && a[i] == v;
  }

  lemma SameLast(a: seq<Value>, b: seq<Value>, keys: seq<SortKey>)
    requires Sortable(a + b, keys) && Sorted(a, keys) && Sorted(b, keys) && SameTies(a, b, keys) && |a| > 0 && |b| > 0
    ensures a[|a| - 1] == b[|b| - 1]
  {
    var x, y := a[|a| - 1], b[|b| - 1];
    assert x in a + b && y in a + b;
    DocOrder(a + b, x, x, y, keys);
    DocOrder(a + b, y, y, x, keys);
    var i := FindTie(a, b, keys, y);
    var j := FindTie(b, a, keys, x);
    assert a[i] in a + b && b[j] in a + b;
    DocOrder(a + b, y, a[i], x, keys);
    DocOrder(a + b, x, b[j], y, keys);
    DocOrder(a + b, x, y, y, keys);
    assert CompareDocs(y, x, keys) == 0;
    var tied := TiedWith(x, keys);
    assert Filter(tied, a) == Filter(tied, b);
    assert Filter(tied, a) == Filter(tied, a[..|a| - 1]) + [x];
    assert Filter(tied, b) == Filter(tied, b[..|b| - 1]) + [y];
    assert x == Filter(tied, a)[|Filter(tied, a)| - 1];
  }

  lemma DropSameLast(a: seq<Value>, b: seq<Value>, keys: seq<SortKey>)
    requires SameTies(a, b, keys) && |a| > 0 && |b| > 0 && a[|a| - 1] == b[|b| - 1]
    ensures SameTies(a[..|a| - 1], b[..|b| - 1], keys)
  {
    var a', b' := a[..|a| - 1], b[..|b| - 1];
    forall v | v in a' || v in b' ensures Filter(TiedWith(v, keys), a') == Filter(TiedWith(v, keys), b') {
      assert v in a || v in b;
      assert Filter(TiedWith(v, keys), a) == Filter(TiedWith(v, keys), b);
      var x, fa, fb := a[|a| - 1], Filter(TiedWith(v, keys), a'), Filter(TiedWith(v, keys), b');
      assert (fa + [x])[..|fa + [x]| - 1] == fa && (fb + [x])[..|fb + [x]| - 1] == fb;
    }
  }

  /** A stable sort is unique: order plus ties decide every position. */
  lemma {:induction false} TiesDecide(a: seq<Value>, b: seq<Value>, keys: seq<SortKey>)
    requires Sortable(a + b, keys) && Sorted(a, keys) && Sorted(b, keys) && SameTies(a, b, keys)
    ensures a == b
    decreases |a|
  {
    if |a| > 0 && |b| > 0 {
      SameLast(a, b, keys);
      DropSameLast(a, b, keys);
      var a', b' := a[..|a| - 1], b[..|b| - 1];
      SubsetSortable(a + b, a' + b', keys);
      TiesDecide(a', b', keys);
      assert a == a' + [a[|a| - 1]] && b == b' + [b[|b| - 1]];
    } else {
      EmptyTies(a, b, keys);
    }
  }

  lemma EmptyTies(a: seq<Value>, b: seq<Value>, keys: seq<SortKey>)
    requires Sortable(a + b, keys) && SameTies(a, b, keys)
    ensures |a| == 0 <==> |b| == 0
  {
    if |b| > 0 {
      assert b[0] in a + b;
      DocOrder(a + b, b[0], b[0], b[0], keys);
      var i := FindTie(a, b, keys, b[0]);
    }
    if |a| > 0 {
      assert a[0] in a + b;
      DocOrder(a + b, a[0], a[0], a[0], keys);
      var i := FindTie(b, a, keys, a[0]);
    }
  }

  lemma SubsetSortable(docs: seq<Value>, some: seq<Value>, keys: seq<SortKey>)
    requires Sortable(docs, keys) && forall d :: d in some ==> d in docs
    ensures Sortable(some, keys)
  {
  }

  // --------------------------------------------------------------- insertion

  /** Places a document behind all that do not come after it. */
  function Insert(docs: seq<Value>, d: Value, keys: seq<SortKey>): seq<Value> {
    if |docs| == 0 then [d]
    else if CompareDocs(docs[|docs| - 1], d, keys) <= 0 then docs + [d]
    else Insert(docs[..|docs| - 1], d, keys) + [docs[|docs| - 1]]
  }

  /** One way to sort stably: insert the documents in their given order. */
  function SortDocuments(docs: seq<Value>, keys: seq<SortKey>): seq<Value> {
    if |docs| == 0 then [] else Insert(SortDocuments(docs[..|docs| - 1], keys), docs[|docs| - 1], keys)
  }

  lemma {:induction false} InsertContents(docs: seq<Value>, d: Value, keys: seq<SortKey>)
    ensures multiset(Insert(docs, d, keys)) == multiset(docs) + multiset{d}
  {
    if |docs| > 0 {
      var n := |docs| - 1;
      InsertContents(docs[..n], d, keys);
      assert docs == docs[..n] + [docs[n]];
    }
  }

  lemma InsertMember(docs: seq<Value>, d: Value, keys: seq<SortKey>, x: Value)
    requires x in Insert(docs, d, keys)
    ensures x == d || x in docs
  {
    hide CompareDocs;
    InsertContents(docs, d, keys);
    assert x in multiset(Insert(docs, d, keys));
  }

  lemma {:induction false} SortContents(docs: seq<Value>, keys: seq<SortKey>)
    ensures multiset(SortDocuments(docs, keys)) == multiset(docs)
  {
    if |docs| > 0 {
      var n := |docs| - 1;
      SortContents(docs[..n], keys);
      InsertContents(SortDocuments(docs[..n], keys), docs[n], keys);
      assert docs == docs[..n] + [docs[n]];
    }
  }

  lemma {:induction false} InsertSorted(all: seq<Value>, docs: seq<Value>, d: Value, keys: seq<SortKey>)
    requires Sortable(all, keys) && d in all && (forall x :: x in docs ==> x in all) && Sorted(docs, keys)
    ensures Sorted(Insert(docs, d, keys), keys)
    decreases |docs|
  {
    hide CompareDocs, Sortable;
    if |docs| > 0 {
      var n := |docs| - 1;
      assert docs[n] in all;
      if CompareDocs(docs[n], d, keys) <= 0 {
        forall i | 0 <= i < n ensures CompareDocs(docs[i], d, keys) <= 0 {
          assert docs[i] in all;
          DocOrder(all, docs[i], docs[n], d, keys);
        }
      } else {
        DocOrder(all, docs[n], d, d, keys);
        InsertSorted(all, docs[..n], d, keys);
        var r := Insert(docs[..n], d, keys);
        forall i | 0 <= i < |r| ensures CompareDocs(r[i], docs[n], keys) <= 0 {
          InsertMember(docs[..n], d, keys, r[i]);
        }
      }
    }
  }

  /** A document that comes after one tied with `v` is not tied with `v` itself. */
  lemma NotTied(all: seq<Value>, x: Value, d: Value, v: Value, keys: seq<SortKey>)
    requires Sortable(all, keys) && x in all && d in all && v in all
    requires CompareDocs(x, d, keys) > 0 && CompareDocs(d, v, keys) == 0
    ensures CompareDocs(x, v, keys) != 0
  {
    hide CompareDocs, Sortable;
    DocOrder(all, d, v, x, keys);
    DocOrder(all, x, v, d, keys);
  }

  /** A document that ties with `v` goes behind the documents already tied with `v`. */
  lemma {:induction false} InsertTies(all: seq<Value>, docs: seq<Value>, d: Value, v: Value, keys: seq<SortKey>)
    requires Sortable(all, keys) && d in all && v in all && (forall x :: x in docs ==> x in all)
    ensures Filter(TiedWith(v, keys), Insert(docs, d, keys)) ==
            Filter(TiedWith(v, keys), docs) + (if CompareDocs(d, v, keys) == 0 then [d] else [])
    decreases |docs|
  {
    hide CompareDocs, Sortable, Filter;
    var tied := TiedWith(v, keys);
    if |docs| == 0 || CompareDocs(docs[|docs| - 1], d, keys) <= 0 {
      FilterAppend(tied, docs, d);
      assert |docs| == 0 ==> docs + [d] == [d];
    } else {
      var last, rest := docs[|docs| - 1], docs[..|docs| - 1];
      assert last in all && docs == rest + [last];
      InsertTies(all, rest, d, v, keys);
      FilterAppend(tied, Insert(rest, d, keys), last);
      FilterAppend(tied, rest, last);
      if CompareDocs(d, v, keys) == 0 {
        NotTied(all, last, d, v, keys);
      }
    }
  }

  lemma FilterAppend(keep: Value -> bool, docs: seq<Value>, x: Value)
    ensures Filter(keep, docs + [x]) == Filter(keep, docs) + (if keep(x) then [x] else [])
    ensures Filter(keep, []) == []
  {
    assert (docs + [x])[..|docs|] == docs;
  }

  lemma {:induction false} SortIsSorted(all: seq<Value>, docs: seq<Value>, keys: seq<SortKey>)
    requires Sortable(all, keys) && forall x :: x in docs ==> x in all
    ensures Sorted(SortDocuments(docs, keys), keys)
    ensures forall x :: x in SortDocuments(docs, keys) <==> x in docs
    decreases |docs|
  {
    SortContents(docs, keys);
    assert forall x :: x in multiset(docs) <==> x in docs;
    assert forall x :: x in multiset(SortDocuments(docs, keys)) <==> x in SortDocuments(docs, keys);
    if |docs| > 0 {
      var n := |docs| - 1;
      SortIsSorted(all, docs[..n], keys);
      InsertSorted(all, SortDocuments(docs[..n], keys), docs[n], keys);
    }
  }

  lemma {:induction false} SortKeepsTies(all: seq<Value>, docs: seq<Value>, v: Value, keys: seq<SortKey>)
    requires Sortable(all, keys) && v in all && forall x :: x in docs ==> x in all
    ensures Filter(TiedWith(v, keys), SortDocuments(docs, keys)) == Filter(TiedWith(v, keys), docs)
    decreases |docs|
  {
    if |docs| > 0 {
      var n := |docs| - 1;
      SortKeepsTies(all, docs[..n], v, keys);
      SortIsSorted(all, docs[..n], keys);
      InsertTies(all, SortDocuments(docs[..n], keys), docs[n], v, keys);
    }
  }

  /** On sortable documents the insertion order is the stable sort: it is one, and
      every stable sort equals it. */
  lemma SortIsStable(docs: seq<Value>, keys: seq<SortKey>)
    requires Sortable(docs, keys)
    ensures StableSortOf(docs, SortDocuments(docs, keys), keys)
    ensures multiset(SortDocuments(docs, keys)) == multiset(docs)
  {
    SortContents(docs, keys);
    SortIsSorted(docs, docs, keys);
    forall v | v in docs || v in SortDocuments(docs, keys)
      ensures Filter(TiedWith(v, keys), SortDocuments(docs, keys)) == Filter(TiedWith(v, keys), docs)
    {
      SortKeepsTies(docs, docs, v, keys);
    }
  }

  lemma StableSortUnique(docs: seq<Value>, r: seq<Value>, keys: seq<SortKey>)
    requires Sortable(docs, keys) && Sortable(r, keys) && StableSortOf(docs, r, keys)
    ensures r == SortDocuments(docs, keys)
  {
    var s := SortDocuments(docs, keys);
    SortIsStable(docs, keys);
    SortIsSorted(docs, docs, keys);
    forall v | v in r || v in s ensures v in docs && Filter(TiedWith(v, keys), r) == Filter(TiedWith(v, keys), s) {
      if v in r {
        DocOrder(r, v, v, v, keys);
        SameMembers(docs, r, keys, v);
      }
    }
    SubsetSortable(docs, r + s, keys);
    TiesDecide(r, s, keys);
  }

  // ----------------------------------------------------------------- filters

  datatype Operator = EqOp | NeOp | GtOp | GteOp | LtOp | LteOp | InOp | NinOp | OtherOp

  /** A condition on one field: a literal, or a list of operators and operands. */
  datatype Condition = Is(literal: Value) | Ops(tests: seq<(Operator, Value)>)

  /** One entry of a filter object. `$and` and `$or` may carry something that is not
      a list, which matches nothing. */
  datatype Clause =
    | And(parts: seq<FilterSpec>) | Or(parts: seq<FilterSpec>) | NotAList
    | On(path: Path, condition: Condition)

  datatype FilterSpec = Entries(clauses: seq<Clause>)

  /** The number a value counts as in a JavaScript comparison, if any. */
  datatype Numeric = NotANumber | As(n: int)

  function ToNumber(v: Value): Numeric {
    match v
    case Num(n) => As(n)
    case Null => As(0)
    case _ => NotANumber
  }

  function Includes(items: seq<Value>, v: Value): bool {
    exists i :: 0 <= i < |items| && StrictEq(items[i], v)
  }

  function Hits(actual: Value, expected: seq<Value>): bool {
    match actual
    case Arr(items) => exists i :: 0 <= i < |items| && Includes(expected, items[i])
    case _ => Includes(expected, actual)
  }

  function Passes(actual: Value, op: Operator, expected: Value): bool {
    var a, b := ToNumber(actual), ToNumber(expected);
    match op
    case EqOp => StrictEq(actual, expected)
    case NeOp => !StrictEq(actual, expected)
    case GtOp => a.As? && b.As? && a.n > b.n
    case GteOp => a.As? && b.As? && a.n >= b.n
    case LtOp => a.As? && b.As? && a.n < b.n
    case LteOp => a.As? && b.As? && a.n <= b.n
    case InOp => expected.Arr? && Hits(actual, expected.items)
    case NinOp => expected.Arr? ==> !Hits(actual, expected.items)
    case OtherOp => true
  }

  function MatchesCondition(actual: Value, condition: Condition): bool {
    match condition
    case Is(literal) => StrictEq(actual, literal)
    case Ops(tests) => forall i :: 0 <= i < |tests| ==> Passes(actual, tests[i].0, tests[i].1)
  }

  function MatchesFilter(doc: Value, filter: FilterSpec): bool
    decreases filter
  {
    forall i :: 0 <= i < |filter.clauses| ==> MatchesClause(doc, filter.clauses[i])
  }

  function MatchesClause(doc: Value, clause: Clause): bool
    decreases clause
  {
    match clause
    case And(parts) => forall i :: 0 <= i < |parts| ==> MatchesFilter(doc, parts[i])
    case Or(parts) => exists i :: 0 <= i < |parts| && MatchesFilter(doc, parts[i])
    case NotAList => false
    case On(path, condition) => MatchesCondition(GetPath(doc, path), condition)
  }

  /** The filter that demands both. */
  function Both(f: FilterSpec, g: FilterSpec): FilterSpec {
    Entries([And([f, g])])
  }

  lemma BothDemanded(doc: Value, f: FilterSpec, g: FilterSpec)
    ensures MatchesFilter(doc, Both(f, g)) <==> MatchesFilter(doc, f) && MatchesFilter(doc, g)
  {
    var parts := [f, g];
    var clauses := [And(parts)];
    assert parts[0] == f && parts[1] == g && clauses[0] == And(parts);
    assert MatchesFilter(doc, Both(f, g)) <==> MatchesClause(doc, clauses[0]);
    assert MatchesClause(doc, clauses[0]) <==> forall i :: 0 <= i < |parts| ==> MatchesFilter(doc, parts[i]);
  }

  // ---------------------------------------------------------------- pipeline

  /** One stage; `Limit` and `Skip` carry a number, or nothing usable as one. */
  datatype Stage =
    | Match(filter: FilterSpec) | Project(project: Value -> Value) | Sort(keys: seq<SortKey>)
    | Limit(number: Numeric) | Skip(number: Numeric) | Count(name: string)
    | Uncertified | NoOperator

  datatype Result = Ok(docs: seq<Value>, explain: seq<nat>) | InvalidStage | NotCertified

  function Clamp(number: Numeric, fallback: int, low: int, high: int): int {
    var n := if number.As? then number.n else fallback;
    if n > high then (if high < low then low else high) else if n < low then low else n
  }

  function NormalizeLimit(number: Numeric, max: nat): (r: nat)
    ensures r >= 1
  {
    Clamp(number, 100, 1, max)
  }

  function NormalizeSkip(number: Numeric): nat {
    var n := if number.As? then number.n else 0;
    if n < 0 then 0 else n
  }

  function Take(docs: seq<Value>, n: nat): seq<Value> {
    if n < |docs| then docs[..n] else docs
  }

  function Drop(docs: seq<Value>, n: nat): seq<Value> {
    if n < |docs| then docs[n..] else []
  }

  function Mapped(project: Value -> Value, docs: seq<Value>): seq<Value> {
    seq(|docs|, i requires 0 <= i < |docs| => project(docs[i]))
  }

  function Keeps(filter: FilterSpec): Value -> bool {
    doc => MatchesFilter(doc, filter)
  }

  function Sorting(docs: seq<Value>, keys: seq<SortKey>): seq<Value> {
    if |keys| == 0 then docs else SortDocuments(docs, keys)
  }

  /** What a stage makes of the documents, given the input cap. */
  function RunStage(docs: seq<Value>, stage: Stage, max: nat): Result {
    match stage
    case Match(filter) => var d := Filter(Keeps(filter), docs); Ok(d, [|d|])
    case Project(project) => var d := Mapped(project, docs); Ok(d, [|d|])
    case Sort(keys) => var d := Sorting(docs, keys); Ok(d, [|d|])
    case Limit(number) => var d := Take(docs, NormalizeLimit(number, max)); Ok(d, [|d|])
    case Skip(number) => var d := Drop(docs, NormalizeSkip(number)); Ok(d, [|d|])
    case Count(name) => Ok([Obj(map[name := Num(|docs|)])], [1])
    case Uncertified => NotCertified
    case NoOperator => InvalidStage
  }

  function RunStages(docs: seq<Value>, stages: seq<Stage>, max: nat): Result {
    if |stages| == 0 then Ok(docs, [])
    else
      var before := RunStages(docs, stages[..|stages| - 1], max);
      if !before.Ok? then before
      else
        var last := RunStage(before.docs, stages[|stages| - 1], max);
        if last.Ok? then Ok(last.docs, before.explain + last.explain) else last
  }

  method ApplyPipeline(input: seq<Value>, stages: seq<Stage>, max: nat) returns (r: Result)
    ensures r == RunStages(Take(input, max), stages, max)
  {
    var docs := Take(input, max);
    var explain: seq<nat> := [];
    for i := 0 to |stages|
      invariant RunStages(Take(input, max), stages[..i], max) == Ok(docs, explain)
    {
      assert stages[..i + 1][..i] == stages[..i];
      var step := RunStage(docs, stages[i], max);
      if !step.Ok? {
        FailsForGood(Take(input, max), stages, i + 1, max);
        return step;
      }
      docs := step.docs;
      explain := explain + [|docs|];
    }
    assert stages[..|stages|] == stages;
    return Ok(docs, explain);
  }

  /** A failing stage decides the whole pipeline. */
  lemma {:induction false} FailsForGood(docs: seq<Value>, stages: seq<Stage>, i: nat, max: nat)
    requires i <= |stages| && !RunStages(docs, stages[..i], max).Ok?
    ensures RunStages(docs, stages, max) == RunStages(docs, stages[..i], max)
    decreases |stages|
  {
    if i < |stages| {
      assert stages[..|stages| - 1][..i] == stages[..i];
      FailsForGood(docs, stages[..|stages| - 1], i, max);
    } else {
      assert stages[..i] == stages;
    }
  }

  // ---------------------------------------------------------------- rewrites

  /** Same documents or same refusal, whatever the stage counts. */
  predicate SameAnswer(a: Result, b: Result) {
    if a.Ok? then b.Ok? && a.docs == b.docs else a == b
  }

  lemma {:induction false} RunConcat(docs: seq<Value>, a: seq<Stage>, b: seq<Stage>, max: nat)
    ensures var first := RunStages(docs, a, max);
            if first.Ok? then SameAnswer(RunStages(docs, a + b, max), RunStages(first.docs, b, max))
            else RunStages(docs, a + b, max) == first
    decreases |b|
  {
    if |b| == 0 {
      assert a + b == a;
    } else {
      assert (a + b)[..|a + b| - 1] == a + b[..|b| - 1];
      RunConcat(docs, a, b[..|b| - 1], max);
    }
  }

  /** Replacing a stretch of stages by one with the same answer, in any context. */
  lemma Rewrite(docs: seq<Value>, pre: seq<Stage>, a: seq<Stage>, b: seq<Stage>, post: seq<Stage>, max: nat)
    requires var first := RunStages(docs, pre, max);
             first.Ok? ==> SameAnswer(RunStages(first.docs, a, max), RunStages(first.docs, b, max))
    ensures SameAnswer(RunStages(docs, pre + a + post, max), RunStages(docs, pre + b + post, max))
  {
    RunConcat(docs, pre, a, max);
    RunConcat(docs, pre, b, max);
    RunConcat(docs, pre + a, post, max);
    RunConcat(docs, pre + b, post, max);
  }

  lemma TwoStages(docs: seq<Value>, x: Stage, y: Stage, max: nat)
    requires RunStage(docs, x, max).Ok?
    ensures SameAnswer(RunStages(docs, [x, y], max), RunStage(RunStage(docs, x, max).docs, y, max))
    ensures SameAnswer(RunStages(docs, [x], max), RunStage(docs, x, max))
  {
    var one, two := [x], [x, y];
    assert one[..|one| - 1] == [] && two[..|two| - 1] == one;
    var before := RunStages(docs, one[..|one| - 1], max);
    assert before == Ok(docs, []);
    assert SameAnswer(RunStages(docs, one, max), RunStage(docs, x, max));
    assert two[|two| - 1] == y;
  }

  /** Sorting then filtering equals filtering then sorting. */
  lemma SortMatchSwap(docs: seq<Value>, keys: seq<SortKey>, filter: FilterSpec)
    requires Sortable(docs, keys)
    ensures Filter(Keeps(filter), Sorting(docs, keys)) == Sorting(Filter(Keeps(filter), docs), keys)
  {
    if |keys| > 0 {
      var f := Keeps(filter);
      SortIsStable(docs, keys);
      FilterOfStableSort(f, docs, SortDocuments(docs, keys), keys);
      forall d ensures d in Filter(f, docs) ==> d in docs {
        FilterMember(f, docs, d);
      }
      SortIsSorted(docs, docs, keys);
      forall d ensures d in Filter(f, SortDocuments(docs, keys)) ==> d in docs {
        FilterMember(f, SortDocuments(docs, keys), d);
      }
      SubsetSortable(docs, Filter(f, docs), keys);
      SubsetSortable(docs, Filter(f, SortDocuments(docs, keys)), keys);
      StableSortUnique(Filter(f, docs), Filter(f, SortDocuments(docs, keys)), keys);
    }
  }

  /** Anywhere in a pipeline `$sort` and a following `$match` may trade places,
      provided the documents that reach them are sortable. */
  lemma PipelineSortMatch(docs: seq<Value>, pre: seq<Stage>, keys: seq<SortKey>, filter: FilterSpec, post: seq<Stage>, max: nat)
    requires RunStages(docs, pre, max).Ok? ==> Sortable(RunStages(docs, pre, max).docs, keys)
    ensures SameAnswer(RunStages(docs, pre + [Sort(keys), Match(filter)] + post, max),
                       RunStages(docs, pre + [Match(filter), Sort(keys)] + post, max))
  {
    var first := RunStages(docs, pre, max);
    if first.Ok? {
      TwoStages(first.docs, Sort(keys), Match(filter), max);
      TwoStages(first.docs, Match(filter), Sort(keys), max);
      SortMatchSwap(first.docs, keys, filter);
    }
    Rewrite(docs, pre, [Sort(keys), Match(filter)], [Match(filter), Sort(keys)], post, max);
  }

  lemma {:induction false} FilterMerged(docs: seq<Value>, f: FilterSpec, g: FilterSpec)
    ensures Filter(Keeps(g), Filter(Keeps(f), docs)) == Filter(Keeps(Both(f, g)), docs)
  {
    if |docs| > 0 {
      var n := |docs| - 1;
      FilterMerged(docs[..n], f, g);
      BothDemanded(docs[n], f, g);
      var a := Filter(Keeps(f), docs[..n]);
      assert (a + [docs[n]])[..|a|] == a;
    }
  }

  /** Two `$match` stages in a row are one whose `$and` lists both filters. */
  lemma PipelineMatchMerge(docs: seq<Value>, pre: seq<Stage>, f: FilterSpec, g: FilterSpec, post: seq<Stage>, max: nat)
    ensures SameAnswer(RunStages(docs, pre + [Match(f), Match(g)] + post, max),
                       RunStages(docs, pre + [Match(Both(f, g))] + post, max))
  {
    var first := RunStages(docs, pre, max);
    if first.Ok? {
      TwoStages(first.docs, Match(f), Match(g), max);
      TwoStages(first.docs, Match(Both(f, g)), Match(g), max);
      FilterMerged(first.docs, f, g);
    }
    Rewrite(docs, pre, [Match(f), Match(g)], [Match(Both(f, g))], post, max);
  }
}
