/** What sorts, filters and stages answer, said without the comparator and the
    evaluator that compute it. */
module QueryMeaning {
  import opened QueryPipeline

  // --------------------------------------------------------------------- sort

  /** The first sort key under which the documents hold different values. */
  function FirstDifference(a: Value, b: Value, keys: seq<SortKey>): (k: nat)
    ensures k <= |keys|
  {
    if |keys| == 0 || GetPath(a, keys[0].path) != GetPath(b, keys[0].path) then 0
    else 1 + FirstDifference(a, b, keys[1..])
  }

  /** It is the first: the values differ there and nowhere before. */
  lemma {:induction false} DifferenceIsFirst(a: Value, b: Value, keys: seq<SortKey>, j: nat)
    requires j <= FirstDifference(a, b, keys) && j < |keys|
    ensures GetPath(a, keys[j].path) == GetPath(b, keys[j].path) <==> j < FirstDifference(a, b, keys)
  {
    if j > 0 {
      DifferenceIsFirst(a, b, keys[1..], j - 1);
    }
  }

  /** Numbers ascend under an ascending key and descend under a descending one; a missing
      value comes first under an ascending key and last under a descending one. */
  predicate Precedes(x: Value, y: Value, descending: bool) {
    && (x.Num? && y.Num? ==> if descending then x.n > y.n else x.n < y.n)
    && (IsMissing(x) ==> !descending)
    && (IsMissing(y) ==> descending)
  }

  /** Under the first key that tells them apart the first document precedes the second. */
  predicate InOrder(a: Value, b: Value, keys: seq<SortKey>) {
    var k := FirstDifference(a, b, keys);
    k < |keys| ==> Precedes(GetPath(a, keys[k].path), GetPath(b, keys[k].path), keys[k].descending)
  }

  lemma ValueMeans(x: Value, y: Value, descending: bool)
    requires (x.Num? || IsMissing(x)) && (y.Num? || IsMissing(y)) && !Clash(x, y)
    ensures CompareValues(x, y) == 0 <==> x == y
    ensures x != y ==> (Signed(CompareValues(x, y), descending) <= 0 <==> Precedes(x, y, descending))
  {
  }

  /** Being in order, one key at a time. */
  lemma {:induction false} OrderStep(a: Value, b: Value, keys: seq<SortKey>)
    requires |keys| > 0
    ensures var x, y := GetPath(a, keys[0].path), GetPath(b, keys[0].path);
            if x == y then
              && (InOrder(a, b, keys) <==> InOrder(a, b, keys[1..]))
              && (FirstDifference(a, b, keys) == |keys| <==> FirstDifference(a, b, keys[1..]) == |keys[1..]|)
            else (InOrder(a, b, keys) <==> Precedes(x, y, keys[0].descending)) && FirstDifference(a, b, keys) == 0
  {
    hide GetPath, Precedes;
    var x, y := GetPath(a, keys[0].path), GetPath(b, keys[0].path);
    if x == y {
      var k := FirstDifference(a, b, keys[1..]);
      assert FirstDifference(a, b, keys) == k + 1;
      if k < |keys[1..]| {
        assert keys[1..][k] == keys[k + 1];
      }
    }
  }

  lemma {:induction false} CompareStep(a: Value, b: Value, keys: seq<SortKey>)
    requires |keys| > 0
    ensures var x, y := GetPath(a, keys[0].path), GetPath(b, keys[0].path);
            var c := CompareValues(x, y);
            && CompareDocs(a, b, keys) == (if c != 0 then Signed(c, keys[0].descending) else CompareDocs(a, b, keys[1..]))
            && (!Clashing(a, b, keys) ==> !Clash(x, y) && (x == y ==> !Clashing(a, b, keys[1..])))
  {
    hide GetPath, CompareValues;
  }

  lemma {:induction false} CompareMeans(a: Value, b: Value, keys: seq<SortKey>)
    requires ScalarKeys(a, keys) && ScalarKeys(b, keys) && !Clashing(a, b, keys)
    ensures CompareDocs(a, b, keys) <= 0 <==> InOrder(a, b, keys)
    ensures CompareDocs(a, b, keys) == 0 <==> FirstDifference(a, b, keys) == |keys|
    decreases |keys|
  {
    hide CompareDocs, Clashing, InOrder, FirstDifference, CompareValues, Precedes, GetPath, ScalarKeys, IsMissing, Clash;
    if |keys| > 0 {
      ScalarRest(a, keys);
      ScalarRest(b, keys);
      OrderStep(a, b, keys);
      CompareStep(a, b, keys);
      var x, y := GetPath(a, keys[0].path), GetPath(b, keys[0].path);
      ValueMeans(x, y, keys[0].descending);
      if x == y {
        CompareMeans(a, b, keys[1..]);
      }
    } else {
      NothingToCompare(a, b, keys);
    }
  }

  lemma NothingToCompare(a: Value, b: Value, keys: seq<SortKey>)
    requires |keys| == 0
    ensures CompareDocs(a, b, keys) == 0 && InOrder(a, b, keys) && FirstDifference(a, b, keys) == 0
  {
  }

  /** Every two documents of a sorted answer are in order, key by key. */
  lemma SortedMeans(docs: seq<Value>, keys: seq<SortKey>, i: nat, j: nat)
    requires Sortable(docs, keys) && i < j < |SortDocuments(docs, keys)|
    ensures var r := SortDocuments(docs, keys); InOrder(r[i], r[j], keys)
    ensures multiset(SortDocuments(docs, keys)) == multiset(docs)
  {
    hide CompareDocs, Clashing, InOrder, ScalarKeys;
    var r := SortDocuments(docs, keys);
    SortIsStable(docs, keys);
    SortIsSorted(docs, docs, keys);
    assert r[i] in docs && r[j] in docs;
    CompareMeans(r[i], r[j], keys);
  }

  /** The documents that hold the same values as `d` under every sort key. */
  function SameKeys(d: Value, keys: seq<SortKey>): Value -> bool {
    x => FirstDifference(x, d, keys) == |keys|
  }

  /** Documents that no sort key tells apart keep the order they came in. */
  lemma TiesKeepOrder(docs: seq<Value>, keys: seq<SortKey>, d: Value)
    requires Sortable(docs, keys) && d in docs
    ensures Filter(SameKeys(d, keys), SortDocuments(docs, keys)) == Filter(SameKeys(d, keys), docs)
  {
    hide CompareDocs, Clashing, ScalarKeys;
    var r := SortDocuments(docs, keys);
    SortIsStable(docs, keys);
    SortIsSorted(docs, docs, keys);
    assert TiedWith(d, keys) == TiedWith(d, keys);
    forall x | x in docs ensures TiedWith(d, keys)(x) == SameKeys(d, keys)(x) {
      CompareMeans(x, d, keys);
    }
    SameFilter(TiedWith(d, keys), SameKeys(d, keys), docs);
    SameFilter(TiedWith(d, keys), SameKeys(d, keys), r);
  }

  lemma {:induction false} SameFilter(f: Value -> bool, g: Value -> bool, docs: seq<Value>)
    requires forall x :: x in docs ==> f(x) == g(x)
    ensures Filter(f, docs) == Filter(g, docs)
  {
    if |docs| > 0 {
      assert docs[|docs| - 1] in docs;
      SameFilter(f, g, docs[..|docs| - 1]);
    }
  }

  // ------------------------------------------------------------------ filters

  /** A filter with one operator on one field. */
  function Field(path: Path, op: Operator, v: Value): FilterSpec {
    Entries([On(path, Ops([(op, v)]))])
  }

  lemma OneClause(doc: Value, c: Clause)
    ensures MatchesFilter(doc, Entries([c])) <==> MatchesClause(doc, c)
  {
    var clauses := [c];
    assert clauses[0] == c;
  }

  lemma OneTest(doc: Value, path: Path, op: Operator, v: Value)
    ensures MatchesFilter(doc, Field(path, op, v)) <==> Passes(GetPath(doc, path), op, v)
  {
    var tests := [(op, v)];
    assert tests[0] == (op, v);
    OneClause(doc, On(path, Ops(tests)));
  }

  /** On a number every operator is the comparison of its name. */
  lemma NumberTests(doc: Value, path: Path, n: int, k: int)
    requires GetPath(doc, path) == Num(n)
    ensures MatchesFilter(doc, Field(path, GtOp, Num(k))) <==> n > k
    ensures MatchesFilter(doc, Field(path, GteOp, Num(k))) <==> n >= k
    ensures MatchesFilter(doc, Field(path, LtOp, Num(k))) <==> n < k
    ensures MatchesFilter(doc, Field(path, LteOp, Num(k))) <==> n <= k
    ensures MatchesFilter(doc, Field(path, EqOp, Num(k))) <==> n == k
    ensures MatchesFilter(doc, Field(path, NeOp, Num(k))) <==> n != k
  {
    hide MatchesFilter;
    OneTest(doc, path, GtOp, Num(k));
    OneTest(doc, path, GteOp, Num(k));
    OneTest(doc, path, LtOp, Num(k));
    OneTest(doc, path, LteOp, Num(k));
    OneTest(doc, path, EqOp, Num(k));
    OneTest(doc, path, NeOp, Num(k));
  }

  /** An absent field passes no comparison; `null` compares as zero, though it equals no
      number. */
  lemma MissingTests(doc: Value, path: Path, k: int)
    requires IsMissing(GetPath(doc, path))
    ensures var isNull := GetPath(doc, path).Null?;
            && (MatchesFilter(doc, Field(path, GtOp, Num(k))) <==> isNull && 0 > k)
            && (MatchesFilter(doc, Field(path, GteOp, Num(k))) <==> isNull && 0 >= k)
            && (MatchesFilter(doc, Field(path, LtOp, Num(k))) <==> isNull && 0 < k)
            && (MatchesFilter(doc, Field(path, LteOp, Num(k))) <==> isNull && 0 <= k)
            && !MatchesFilter(doc, Field(path, EqOp, Num(k))) && MatchesFilter(doc, Field(path, NeOp, Num(k)))
  {
    hide MatchesFilter;
    OneTest(doc, path, GtOp, Num(k));
    OneTest(doc, path, GteOp, Num(k));
    OneTest(doc, path, LtOp, Num(k));
    OneTest(doc, path, LteOp, Num(k));
    OneTest(doc, path, EqOp, Num(k));
    OneTest(doc, path, NeOp, Num(k));
  }

  /** A value that is neither a list nor an object. */
  predicate Plain(v: Value) {
    !v.Arr? && !v.Obj?
  }

  /** `$in` asks for one of the listed values, of a list for one of its items; `$nin` is
      its negation. Without a list `$in` matches nothing and `$nin` everything. */
  lemma MembershipTests(doc: Value, path: Path, expected: Value)
    ensures var v := GetPath(doc, path);
            expected.Arr? && Plain(v) ==>
              (MatchesFilter(doc, Field(path, InOp, expected)) <==> v in expected.items)
    ensures var v := GetPath(doc, path);
            expected.Arr? && v.Arr? ==>
              (MatchesFilter(doc, Field(path, InOp, expected)) <==>
                 exists x :: x in v.items && Plain(x) && x in expected.items)
    ensures expected.Arr? ==>
              (MatchesFilter(doc, Field(path, NinOp, expected)) <==> !MatchesFilter(doc, Field(path, InOp, expected)))
    ensures !expected.Arr? ==>
              !MatchesFilter(doc, Field(path, InOp, expected)) && MatchesFilter(doc, Field(path, NinOp, expected))
  {
    hide MatchesFilter;
    OneTest(doc, path, InOp, expected);
    OneTest(doc, path, NinOp, expected);
    if expected.Arr? {
      forall v ensures Includes(expected.items, v) <==> Plain(v) && v in expected.items {
        IncludesMeans(expected.items, v);
      }
      var v := GetPath(doc, path);
      if v.Arr? {
        HitsMeans(v.items, expected.items);
      }
    }
  }

  lemma IncludesMeans(items: seq<Value>, v: Value)
    ensures Includes(items, v) <==> Plain(v) && v in items
  {
  }

  lemma HitsMeans(items: seq<Value>, expected: seq<Value>)
    ensures Hits(Arr(items), expected) <==> exists x :: x in items && Plain(x) && x in expected
  {
    if Hits(Arr(items), expected) {
      var i :| 0 <= i < |items| && Includes(expected, items[i]);
      IncludesMeans(expected, items[i]);
      assert items[i] in items;
    }
    if x :| x in items && Plain(x) && x in expected {
      var i :| 0 <= i < |items| && items[i] == x;
      IncludesMeans(expected, x);
      assert Includes(expected, items[i]);
    }
  }

  /** A literal is the same as `$eq`, and several operators on a field are all demanded. */
  lemma ConditionTests(doc: Value, path: Path, v: Value, a: seq<(Operator, Value)>, b: seq<(Operator, Value)>)
    ensures MatchesFilter(doc, Entries([On(path, Is(v))])) <==> MatchesFilter(doc, Field(path, EqOp, v))
    ensures MatchesCondition(GetPath(doc, path), Ops(a + b)) <==>
            MatchesCondition(GetPath(doc, path), Ops(a)) && MatchesCondition(GetPath(doc, path), Ops(b))
    ensures MatchesCondition(GetPath(doc, path), Ops([]))
  {
    OneClause(doc, On(path, Is(v)));
    OneTest(doc, path, EqOp, v);
    var x, c := GetPath(doc, path), a + b;
    if MatchesCondition(x, Ops(c)) {
      forall i | 0 <= i < |a| ensures Passes(x, a[i].0, a[i].1) {
        assert c[i] == a[i];
      }
      forall i | 0 <= i < |b| ensures Passes(x, b[i].0, b[i].1) {
        assert c[|a| + i] == b[i];
      }
    }
  }

  /** `$or` of filters asks for one of them, of none for the impossible; anything but a
      list under `$and` or `$or` matches nothing. */
  lemma OrTests(doc: Value, f: FilterSpec, g: FilterSpec)
    ensures MatchesFilter(doc, Entries([Or([f, g])])) <==> MatchesFilter(doc, f) || MatchesFilter(doc, g)
    ensures !MatchesFilter(doc, Entries([Or([])])) && MatchesFilter(doc, Entries([And([])]))
    ensures !MatchesFilter(doc, Entries([NotAList])) && MatchesFilter(doc, Entries([]))
  {
    var parts := [f, g];
    OneClause(doc, Or(parts));
    OneClause(doc, Or([]));
    OneClause(doc, And([]));
    OneClause(doc, NotAList);
    assert parts[0] == f && parts[1] == g;
    assert MatchesClause(doc, Or(parts)) <==> exists i :: 0 <= i < |parts| && MatchesFilter(doc, parts[i]);
  }

  /** Dotted paths descend name by name, and stop at what is missing. */
  lemma {:induction false} PathSteps(v: Value, a: Path, b: Path)
    ensures GetPath(v, a + b) == GetPath(GetPath(v, a), b)
    decreases |a|
  {
    if |a| == 0 {
      assert a + b == b;
    } else {
      assert (a + b)[1..] == a[1..] + b;
      if v.Obj? {
        PathSteps(if a[0] in v.fields then v.fields[a[0]] else Undefined, a[1..], b);
      } else {
        NothingBelow(v, b);
        NothingBelow(Undefined, b);
      }
    }
  }

  lemma NothingBelow(v: Value, path: Path)
    requires !v.Obj?
    ensures |path| > 0 ==> GetPath(v, path) == Undefined
    ensures GetPath(Undefined, path) == Undefined
  {
  }

  lemma FieldOf(fields: map<string, Value>, name: string)
    ensures GetPath(Obj(fields), [name]) == if name in fields then fields[name] else Undefined
  {
    assert [name][1..] == [];
  }

  // ------------------------------------------------------------------- stages

  /** `$limit` keeps a prefix and `$skip` the rest: the asked number of documents, at
      least one and at most the cap for a limit, a hundred when none is given. */
  lemma LimitAndSkip(docs: seq<Value>, n: int, max: nat)
    requires max >= 1
    ensures var m := if n < 1 then 1 else if n > max then max else n;
            RunStage(docs, Limit(As(n)), max) == Ok(docs[..if m < |docs| then m else |docs|], [if m < |docs| then m else |docs|])
    ensures var m := if n < 0 then 0 else n;
            RunStage(docs, Skip(As(n)), max) ==
            Ok(docs[if m < |docs| then m else |docs|..], [|docs| - if m < |docs| then m else |docs|])
    ensures RunStage(docs, Limit(NotANumber), max) == RunStage(docs, Limit(As(100)), max)
    ensures RunStage(docs, Skip(NotANumber), max) == Ok(docs, [|docs|])
  {
    assert docs[..|docs|] == docs && docs[|docs|..] == [] && docs[0..] == docs;
  }

  /** Limiting and skipping by the same number takes the documents apart. */
  lemma LimitThenRest(docs: seq<Value>, n: int, max: nat)
    requires 1 <= n <= max
    ensures RunStage(docs, Limit(As(n)), max).docs + RunStage(docs, Skip(As(n)), max).docs == docs
  {
  }

  /** `$count` leaves one document that holds the number under its name. */
  lemma CountAnswers(docs: seq<Value>, name: string, max: nat)
    ensures var r := RunStage(docs, Count(name), max);
            r.Ok? && |r.docs| == 1 && GetPath(r.docs[0], [name]) == Num(|docs|) && r.explain == [1]
  {
    FieldOf(map[name := Num(|docs|)], name);
  }

  /** `$match` keeps exactly the matching documents, `$project` maps each one. */
  lemma MatchAndProject(docs: seq<Value>, f: FilterSpec, project: Value -> Value, max: nat, d: Value)
    ensures d in RunStage(docs, Match(f), max).docs <==> d in docs && MatchesFilter(d, f)
    ensures |RunStage(docs, Project(project), max).docs| == |docs|
    ensures forall i :: 0 <= i < |docs| ==> RunStage(docs, Project(project), max).docs[i] == project(docs[i])
  {
    FilterMember(Keeps(f), docs, d);
  }

  /** A stage without an operator is invalid and an unknown one not certified, whatever
      follows; the stages before it must have gone through. */
  lemma StageRefusals(docs: seq<Value>, pre: seq<Stage>, post: seq<Stage>, max: nat)
    requires RunStages(docs, pre, max).Ok?
    ensures RunStages(docs, pre + [Uncertified] + post, max) == NotCertified
    ensures RunStages(docs, pre + [NoOperator] + post, max) == InvalidStage
  {
    hide RunStage;
    StagesRefuse(max);
    StageRefuses(docs, pre, Uncertified, post, max);
    StageRefuses(docs, pre, NoOperator, post, max);
  }

  lemma StagesRefuse(max: nat)
    ensures forall d :: RunStage(d, Uncertified, max) == NotCertified && RunStage(d, NoOperator, max) == InvalidStage
  {
  }

  lemma StageRefuses(docs: seq<Value>, pre: seq<Stage>, stage: Stage, post: seq<Stage>, max: nat)
    requires RunStages(docs, pre, max).Ok? && !RunStage(RunStages(docs, pre, max).docs, stage, max).Ok?
    ensures RunStages(docs, pre + [stage] + post, max) == RunStage(RunStages(docs, pre, max).docs, stage, max)
  {
    hide RunStage;
    var upto, all := pre + [stage], pre + [stage] + post;
    assert upto[..|upto| - 1] == pre && all[..|upto|] == upto;
    FailsForGood(docs, all, |upto|, max);
  }
}
