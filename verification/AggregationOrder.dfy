/** In which way an aggregation depends on the order of its items, and what its
    buckets hold in terms of filters. */
module AggregationOrder {
  import opened Seqs
  import opened Sorting
  import opened Ordering
  import opened Values
  import opened Printing
  import opened Filters
  import opened Queries
  import opened Aggregation
  import opened AggregationEval

  // ---- permutations

  lemma GroupPermutation(fmt: Format, agg: Agg, xs: seq<Item>, ys: seq<Item>, k: string)
    requires Permutation(xs, ys)
    ensures Permutation(Group(fmt, agg, xs, k), Group(fmt, agg, ys, k))
  {
    SelectPermutation(xs, ys, HasKey(fmt, agg, k));
  }

  lemma KeySetPermutation(fmt: Format, agg: Agg, xs: seq<Item>, ys: seq<Item>)
    requires Permutation(xs, ys)
    ensures KeySet(fmt, agg, xs) == KeySet(fmt, agg, ys)
  {
    forall k ensures k in KeySet(fmt, agg, xs) <==> k in KeySet(fmt, agg, ys) {
      KeyHasGroup(fmt, agg, xs, k);
      KeyHasGroup(fmt, agg, ys, k);
      GroupPermutation(fmt, agg, xs, ys, k);
      PermutationMembers(Group(fmt, agg, xs, k), Group(fmt, agg, ys, k));
    }
  }

  lemma NoneRejectedPermutation(agg: Agg, xs: seq<Item>, ys: seq<Item>)
    requires Permutation(xs, ys) && NoneRejected(agg, xs)
    ensures NoneRejected(agg, ys)
  {
    PermutationMembers(xs, ys);
    forall i | 0 <= i < |ys| ensures !Rejects(agg, ys[i]) {
      assert ys[i] in xs;
    }
  }

  /** Whether evaluation succeeds never depends on the order. */
  lemma {:induction false} OkPermutation(fmt: Format, agg: Agg, xs: seq<Item>, ys: seq<Item>)
    requires Permutation(xs, ys) && AggOk(fmt, agg, xs)
    ensures AggOk(fmt, agg, ys)
    decreases agg, 1
  {
    NoneRejectedPermutation(agg, xs, ys);
    if agg.op == Terms || agg.op == DateHistogram {
      KeySetPermutation(fmt, agg, xs, ys);
      forall k | k in KeySet(fmt, agg, ys) ensures SubsOk(fmt, agg, Group(fmt, agg, ys, k)) {
        GroupPermutation(fmt, agg, xs, ys, k);
        SubsOkPermutation(fmt, agg, Group(fmt, agg, xs, k), Group(fmt, agg, ys, k));
      }
    }
  }

  lemma {:induction false} SubsOkPermutation(fmt: Format, agg: Agg, xs: seq<Item>, ys: seq<Item>)
    requires Permutation(xs, ys) && SubsOk(fmt, agg, xs)
    ensures SubsOk(fmt, agg, ys)
    decreases agg, 0
  {
    forall n | n in agg.aggs ensures AggOk(fmt, agg.aggs[n], ys) {
      OkPermutation(fmt, agg.aggs[n], xs, ys);
    }
  }

  /** Items filed under one key show the same value for it, at every level. */
  ghost predicate KeysAgree(fmt: Format, agg: Agg, items: seq<Item>)
    decreases agg, 1
  {
    agg.op == Terms || agg.op == DateHistogram ==>
      && LevelKeysAgree(fmt, agg, items)
      && forall k :: k in KeySet(fmt, agg, items) ==> SubKeysAgree(fmt, agg, Group(fmt, agg, items, k))
  }

  ghost predicate LevelKeysAgree(fmt: Format, agg: Agg, items: seq<Item>) {
    forall k, a, b :: a in Group(fmt, agg, items, k) && b in Group(fmt, agg, items, k) ==>
      RawKey(agg, a, k) == RawKey(agg, b, k)
  }

  ghost predicate SubKeysAgree(fmt: Format, agg: Agg, items: seq<Item>)
    decreases agg, 0
  {
    forall n :: n in agg.aggs ==> KeysAgree(fmt, agg.aggs[n], items)
  }

  lemma {:induction false} HistogramPermutation(agg: Agg, xs: seq<Item>, ys: seq<Item>)
    requires Permutation(xs, ys)
    ensures HistogramResult(agg, xs) == HistogramResult(agg, ys)
  {
    SelectPermutation(xs, ys, Observed(agg));
    PermutationMembers(Select(xs, Observed(agg)), Select(ys, Observed(agg)));
    SumByPermutation(Select(xs, Observed(agg)), Select(ys, Observed(agg)), Observation(agg));
    var bounds := StableSort(agg.bounds, Below());
    forall i | 0 <= i < |bounds| ensures HistogramBuckets(agg, xs)[i] == HistogramBuckets(agg, ys)[i] {
      SelectPermutation(xs, ys, AtMost(agg, bounds[i]));
      PermutationMembers(Select(xs, AtMost(agg, bounds[i])), Select(ys, AtMost(agg, bounds[i])));
    }
    assert HistogramBuckets(agg, xs) == HistogramBuckets(agg, ys);
  }

  lemma {:induction false} ValuePermutation(fmt: Format, agg: Agg, xs: seq<Item>, ys: seq<Item>)
    requires Permutation(xs, ys) && KeysAgree(fmt, agg, xs)
    ensures AggValue(fmt, agg, xs) == AggValue(fmt, agg, ys)
    decreases agg, 2
  {
    if agg.op == Histogram {
      HistogramPermutation(agg, xs, ys);
    } else if agg.op != UnknownOp {
      KeySetPermutation(fmt, agg, xs, ys);
      var ks := Listing(KeySet(fmt, agg, xs));
      forall i | 0 <= i < |ks|
        ensures BucketsFor(fmt, agg, xs, ks)[i] == BucketsFor(fmt, agg, ys, ks)[i]
      {
        assert ks[i] in Elements(ks);
        BucketPermutation(fmt, agg, xs, ys, ks[i]);
        BucketAt(fmt, agg, xs, ks, i);
        BucketAt(fmt, agg, ys, ks, i);
      }
      assert BucketsFor(fmt, agg, xs, ks) == BucketsFor(fmt, agg, ys, ks);
    }
  }

  lemma {:induction false} BucketPermutation(fmt: Format, agg: Agg, xs: seq<Item>, ys: seq<Item>, k: string)
    requires agg.op == Terms || agg.op == DateHistogram
    requires Permutation(xs, ys) && KeysAgree(fmt, agg, xs) && k in KeySet(fmt, agg, xs)
    ensures BucketOf(fmt, agg, xs, k) == BucketOf(fmt, agg, ys, k)
    decreases agg, 1
  {
    var gx, gy := Group(fmt, agg, xs, k), Group(fmt, agg, ys, k);
    GroupPermutation(fmt, agg, xs, ys, k);
    PermutationMembers(gx, gy);
    KeyHasGroup(fmt, agg, xs, k);
    assert gx[0] in gx && gy[0] in gx;
    SubValuesPermutation(fmt, agg, gx, gy);
  }

  lemma {:induction false} SubValuesPermutation(fmt: Format, agg: Agg, xs: seq<Item>, ys: seq<Item>)
    requires Permutation(xs, ys) && SubKeysAgree(fmt, agg, xs)
    ensures SubValues(fmt, agg, xs) == SubValues(fmt, agg, ys)
    decreases agg, 0
  {
    forall n | n in agg.aggs ensures AggValue(fmt, agg.aggs[n], xs) == AggValue(fmt, agg.aggs[n], ys) {
      ValuePermutation(fmt, agg.aggs[n], xs, ys);
    }
  }

  // ---- and where keys disagree, the order shows

  lemma BucketsShow(fmt: Format, agg: Agg, xs: seq<Item>, ys: seq<Item>, k: string)
    requires agg.op == Terms || agg.op == DateHistogram
    requires KeySet(fmt, agg, xs) == KeySet(fmt, agg, ys) && k in KeySet(fmt, agg, xs)
    requires BucketOf(fmt, agg, xs, k) != BucketOf(fmt, agg, ys, k)
    ensures AggValue(fmt, agg, xs) != AggValue(fmt, agg, ys)
  {
    var ks := Listing(KeySet(fmt, agg, xs));
    assert k in Elements(ks);
    var i :| 0 <= i < |ks| && ks[i] == k;
    BucketAt(fmt, agg, xs, ks, i);
    BucketAt(fmt, agg, ys, ks, i);
  }

  /** The order of the items that puts `a` first. */
  lemma WithFirst(fmt: Format, agg: Agg, items: seq<Item>, k: string, a: Item) returns (ys: seq<Item>)
    requires a in Group(fmt, agg, items, k)
    ensures Permutation(items, ys)
    ensures BucketOf(fmt, agg, ys, k).key == RawKey(agg, a, k)
  {
    assert a in items;
    var i :| 0 <= i < |items| && items[i] == a;
    MoveToFront(items, i);
    ys := [items[i]] + (items[..i] + items[i + 1..]);
    assert HasKey(fmt, agg, k)(a);
    assert Group(fmt, agg, ys, k)[0] == a;
  }

  lemma {:induction false} DisagreementShows(fmt: Format, agg: Agg, items: seq<Item>) returns (ys: seq<Item>)
    requires !KeysAgree(fmt, agg, items)
    ensures Permutation(items, ys) && AggValue(fmt, agg, ys) != AggValue(fmt, agg, items)
    decreases agg, 1
  {
    if !LevelKeysAgree(fmt, agg, items) {
      var k, a, b :| a in Group(fmt, agg, items, k) && b in Group(fmt, agg, items, k)
        && RawKey(agg, a, k) != RawKey(agg, b, k);
      KeyHasGroup(fmt, agg, items, k);
      var ya := WithFirst(fmt, agg, items, k, a);
      var yb := WithFirst(fmt, agg, items, k, b);
      ys := if BucketOf(fmt, agg, items, k).key == RawKey(agg, a, k) then yb else ya;
      KeySetPermutation(fmt, agg, items, ys);
      BucketsShow(fmt, agg, items, ys, k);
    } else {
      var k :| k in KeySet(fmt, agg, items) && !SubKeysAgree(fmt, agg, Group(fmt, agg, items, k));
      var g := Group(fmt, agg, items, k);
      var h := SubDisagreementShows(fmt, agg, g);
      ys := Rearranged(items, HasKey(fmt, agg, k), h);
      assert Group(fmt, agg, ys, k) == h;
      KeySetPermutation(fmt, agg, items, ys);
      BucketsShow(fmt, agg, items, ys, k);
    }
  }

  lemma {:induction false} SubDisagreementShows(fmt: Format, agg: Agg, items: seq<Item>) returns (ys: seq<Item>)
    requires !SubKeysAgree(fmt, agg, items)
    ensures Permutation(items, ys) && SubValues(fmt, agg, ys) != SubValues(fmt, agg, items)
    decreases agg, 0
  {
    var n :| n in agg.aggs && !KeysAgree(fmt, agg.aggs[n], items);
    ys := DisagreementShows(fmt, agg.aggs[n], items);
    assert SubValues(fmt, agg, ys)[n] != SubValues(fmt, agg, items)[n];
  }

  /** What evaluating the node's sub-aggregations returns. */
  ghost function Evaluated(fmt: Format, node: Agg, items: seq<Item>): Result<map<string, AggResult>> {
    if SubsOk(fmt, node, items) then Ok(SubValues(fmt, node, items)) else Err
  }

  lemma {:induction false} SuccessPermutation(fmt: Format, node: Agg, xs: seq<Item>, ys: seq<Item>)
    requires Permutation(xs, ys)
    ensures SubsOk(fmt, node, ys) <==> SubsOk(fmt, node, xs)
  {
    if SubsOk(fmt, node, xs) {
      SubsOkPermutation(fmt, node, xs, ys);
    }
    if SubsOk(fmt, node, ys) {
      SubsOkPermutation(fmt, node, ys, xs);
    }
  }

  /** Main result: what is returned is the same for every order of the items exactly when
      evaluation fails on them or, at every level, items that print the same key have the
      same key; and it fails for all orders or for none. */
  lemma {:induction false} EvaluationOrder(fmt: Format, node: Agg, xs: seq<Item>)
    ensures (forall ys :: Permutation(xs, ys) ==> Evaluated(fmt, node, ys) == Evaluated(fmt, node, xs))
       <==> !SubsOk(fmt, node, xs) || SubKeysAgree(fmt, node, xs)
    ensures forall ys :: Permutation(xs, ys) ==> (Evaluated(fmt, node, ys).Ok? <==> Evaluated(fmt, node, xs).Ok?)
  {
    forall ys | Permutation(xs, ys)
      ensures SubsOk(fmt, node, ys) <==> SubsOk(fmt, node, xs)
      ensures SubKeysAgree(fmt, node, xs) ==> SubValues(fmt, node, ys) == SubValues(fmt, node, xs)
    {
      SuccessPermutation(fmt, node, xs, ys);
      if SubKeysAgree(fmt, node, xs) {
        SubValuesPermutation(fmt, node, xs, ys);
      }
    }
    if !SubKeysAgree(fmt, node, xs) {
      var ys := SubDisagreementShows(fmt, node, xs);
      assert SubsOk(fmt, node, xs) ==> Evaluated(fmt, node, ys) != Evaluated(fmt, node, xs);
    }
  }

  /** An integer and the string it prints as land in one bucket whose key is whichever came first. */
  lemma OrderShowsWithoutOneType(fmt: Format)
    ensures var agg := Agg(Terms, "f", [], "", "", map[]);
      var a: Item, b: Item := map["f" := Int(1)], map["f" := Str("1")];
      AggValue(fmt, agg, [a, b]) != AggValue(fmt, agg, [b, a])
  {
    var agg := Agg(Terms, "f", [], "", "", map[]);
    var a: Item, b: Item := map["f" := Int(1)], map["f" := Str("1")];
    assert Decimal(1) == DecimalNat(1) == "1";
    assert ItemKeys(fmt, agg, a) == {"1"} == ItemKeys(fmt, agg, b);
    forall xs | xs == [a, b] || xs == [b, a]
      ensures KeySet(fmt, agg, xs) == {"1"} && BucketOf(fmt, agg, xs, "1").key == RawKey(agg, xs[0], "1")
    {
      assert "1" in ItemKeys(fmt, agg, xs[0]);
      assert HasKey(fmt, agg, "1")(xs[0]);
      assert Group(fmt, agg, xs, "1")[0] == xs[0];
    }
    BucketsShow(fmt, agg, [a, b], [b, a], "1");
  }

  // ---- one type per field is enough

  /** Text, alone or in lists; or integers; or booleans. */
  ghost predicate OneKeyType(items: seq<Item>, field: string) {
    || (forall x :: x in items ==> Field(x, field).Str? || Field(x, field).StrList?)
    || (forall x :: x in items ==> Field(x, field).Int?)
    || (forall x :: x in items ==> Field(x, field).Int64?)
    || (forall x :: x in items ==> Field(x, field).Bool?)
  }

  ghost predicate TypedKeys(agg: Agg, items: seq<Item>)
    decreases agg
  {
    && (agg.op == Terms ==> OneKeyType(items, agg.field))
    && forall n :: n in agg.aggs ==> TypedKeys(agg.aggs[n], items)
  }

  lemma {:induction false} TypedKeysWithin(agg: Agg, items: seq<Item>, part: seq<Item>)
    requires TypedKeys(agg, items) && forall x :: x in part ==> x in items
    ensures TypedKeys(agg, part)
    decreases agg
  {
    forall n | n in agg.aggs ensures TypedKeys(agg.aggs[n], part) {
      TypedKeysWithin(agg.aggs[n], items, part);
    }
  }

  lemma SamePrintSameKey(fmt: Format, agg: Agg, items: seq<Item>, k: string, a: Item, b: Item)
    requires agg.op == Terms ==> OneKeyType(items, agg.field)
    requires agg.op == Terms || agg.op == DateHistogram
    requires a in items && b in items && k in ItemKeys(fmt, agg, a) && k in ItemKeys(fmt, agg, b)
    ensures RawKey(agg, a, k) == RawKey(agg, b, k)
  {
    if agg.op == Terms {
      var va, vb := Field(a, agg.field), Field(b, agg.field);
      if va.Int? && vb.Int? {
        DecimalInjective(va.n, vb.n);
      } else if va.Int64? && vb.Int64? {
        DecimalInjective(va.n64, vb.n64);
      }
    }
  }

  /** With one type per grouped field the result never depends on the order. */
  lemma {:induction false} TypedKeysAgree(fmt: Format, agg: Agg, items: seq<Item>)
    requires TypedKeys(agg, items)
    ensures KeysAgree(fmt, agg, items)
    decreases agg
  {
    if agg.op == Terms || agg.op == DateHistogram {
      forall k, a, b | a in Group(fmt, agg, items, k) && b in Group(fmt, agg, items, k)
        ensures RawKey(agg, a, k) == RawKey(agg, b, k)
      {
        SamePrintSameKey(fmt, agg, items, k, a, b);
      }
      forall k, n | k in KeySet(fmt, agg, items) && n in agg.aggs
        ensures KeysAgree(fmt, agg.aggs[n], Group(fmt, agg, items, k))
      {
        TypedKeysWithin(agg.aggs[n], items, Group(fmt, agg, items, k));
        TypedKeysAgree(fmt, agg.aggs[n], Group(fmt, agg, items, k));
      }
    }
  }

  // ---- from a snapshot to a result

  /** Filters and projects a snapshot. */
  method FilterProject<T>(snapshot: seq<T>, filter: Option<Filter>, project: T -> Item) returns (r: Result<seq<Item>>)
    ensures r.Err? <==> SomeFails(snapshot, filter, project)
    ensures r.Ok? ==> r.value == Map(Select(snapshot, AcceptedBy(filter, project)), project)
  {
    var accepted := FilterSnapshot(snapshot, filter, project);
    r := if accepted.Ok? then Ok(Map(accepted.value, project)) else Err;
  }

  /** Aggregates the matching entities of a snapshot. */
  method Aggregate<T>(fmt: Format, node: Agg, snapshot: seq<T>, filter: Option<Filter>, project: T -> Item)
    returns (r: Result<map<string, AggResult>>)
    ensures r.Ok? <==> AggregateOk(fmt, node, snapshot, filter, project)
    ensures r.Ok? ==> r.value == SubValues(fmt, node, Map(Select(snapshot, AcceptedBy(filter, project)), project))
  {
    if node.aggs == map[] {
      return Ok(map[]);
    }
    var items := FilterProject(snapshot, filter, project);
    if items.Err? {
      return Err;
    }
    r := EvaluateAggs(fmt, node, items.value);
  }

  ghost predicate AggregateOk<T>(fmt: Format, node: Agg, snapshot: seq<T>, filter: Option<Filter>, project: T -> Item) {
    node.aggs == map[]
    || (!SomeFails(snapshot, filter, project)
        && SubsOk(fmt, node, Map(Select(snapshot, AcceptedBy(filter, project)), project)))
  }

  /** r is what aggregating this snapshot returns. */
  ghost predicate AggregatesTo<T>(fmt: Format, node: Agg, snapshot: seq<T>, filter: Option<Filter>, project: T -> Item,
                                  r: Result<map<string, AggResult>>)
  {
    && (r.Ok? <==> AggregateOk(fmt, node, snapshot, filter, project))
    && (r.Ok? ==> r.value == SubValues(fmt, node, Map(Select(snapshot, AcceptedBy(filter, project)), project)))
  }

  /** Main result: a snapshot comes from ranging over a Go map, in any order; with one
      type per grouped field the aggregate of a state is nevertheless determined. */
  lemma {:induction false} AggregateIsDetermined<T>(fmt: Format, node: Agg, s: seq<T>, t: seq<T>,
                                                    filter: Option<Filter>, project: T -> Item)
    requires Permutation(s, t)
    requires forall n :: n in node.aggs ==>
               TypedKeys(node.aggs[n], Map(Select(s, AcceptedBy(filter, project)), project))
    ensures AggregateOk(fmt, node, s, filter, project) <==> AggregateOk(fmt, node, t, filter, project)
    ensures SubValues(fmt, node, Map(Select(s, AcceptedBy(filter, project)), project))
         == SubValues(fmt, node, Map(Select(t, AcceptedBy(filter, project)), project))
  {
    var p := AcceptedBy(filter, project);
    var xs, ys := Map(Select(s, p), project), Map(Select(t, p), project);
    SelectPermutation(s, t, p);
    MapPermutation(Select(s, p), Select(t, p), project);
    forall n | n in node.aggs ensures KeysAgree(fmt, node.aggs[n], xs) {
      TypedKeysAgree(fmt, node.aggs[n], xs);
    }
    SuccessPermutation(fmt, node, xs, ys);
    SubValuesPermutation(fmt, node, xs, ys);
    FailurePermutation(s, t, filter, project);
    FailurePermutation(t, s, filter, project);
  }

  lemma FailurePermutation<T>(s: seq<T>, t: seq<T>, filter: Option<Filter>, project: T -> Item)
    requires Permutation(s, t)
    ensures SomeFails(s, filter, project) ==> SomeFails(t, filter, project)
  {
    PermutationMembers(s, t);
    if i :| 0 <= i < |s| && Fails(filter, project(s[i])) {
      assert s[i] in t;
      var j :| 0 <= j < |t| && t[j] == s[i];
      assert Fails(filter, project(t[j]));
    }
  }
}
