/** The aggregation engine's loops, each proved to compute the meaning of its node. */
module AggregationEval {
  import opened Seqs
  import opened Sorting
  import opened Ordering
  import opened Values
  import opened Printing
  import opened Aggregation

  /** A group under construction: the key of its first item, and its items. */
  datatype Pile = Pile(key: Val, items: seq<Item>)

  /** The pile for k after all of `prior`, and `item` as well if its turn under k has come. */
  ghost predicate PileFor(fmt: Format, agg: Agg, prior: seq<Item>, item: Item, added: bool, k: string, pile: Pile) {
    && pile.items == Group(fmt, agg, prior, k) + (if added then [item] else [])
    && pile.key == FirstKey(agg, pile.items, k)
  }

  /** The piles after all of `prior`, and then `item` under the keys in `done`. */
  ghost predicate Piled(fmt: Format, agg: Agg, prior: seq<Item>, item: Item, done: set<string>,
                        order: seq<string>, piles: map<string, Pile>)
  {
    && NoDuplicates(order) && Elements(order) == piles.Keys == KeySet(fmt, agg, prior) + done
    && forall k :: k in piles ==> PileFor(fmt, agg, prior, item, k in done, k, piles[k])
  }

  /** Files one item under one more key. */
  method AddToBucket(fmt: Format, agg: Agg, ghost prior: seq<Item>, ghost done: set<string>,
                     order: seq<string>, piles: map<string, Pile>, k: string, item: Item)
    returns (order': seq<string>, piles': map<string, Pile>)
    requires Piled(fmt, agg, prior, item, done, order, piles)
    requires k in ItemKeys(fmt, agg, item) && k !in done
    ensures Piled(fmt, agg, prior, item, done + {k}, order', piles')
  {
    order', piles' := order, piles;
    if k !in piles {
      piles' := piles'[k := Pile(RawKey(agg, item, k), [])];
      order' := order' + [k];
      GrowOrder(order, k);
    }
    var g := piles'[k];
    piles' := piles'[k := Pile(g.key, g.items + [item])];
    PileGrows(fmt, agg, prior, item, done, order, piles, k, g);
    OtherPilesKept(fmt, agg, prior, item, done, piles, k, piles');
    KeysGrow(fmt, agg, prior, done, order, order', piles.Keys, k);
  }

  lemma KeysGrow(fmt: Format, agg: Agg, prior: seq<Item>, done: set<string>, order: seq<string>, order': seq<string>,
                 keys: set<string>, k: string)
    requires Elements(order) == keys == KeySet(fmt, agg, prior) + done
    requires Elements(order') == if k in keys then Elements(order) else Elements(order) + {k}
    ensures Elements(order') == keys + {k} == KeySet(fmt, agg, prior) + (done + {k})
  {
  }

  lemma PileGrows(fmt: Format, agg: Agg, prior: seq<Item>, item: Item, done: set<string>,
                  order: seq<string>, piles: map<string, Pile>, k: string, g: Pile)
    requires Piled(fmt, agg, prior, item, done, order, piles) && k !in done
    requires g == if k in piles then piles[k] else Pile(RawKey(agg, item, k), [])
    ensures PileFor(fmt, agg, prior, item, true, k, Pile(g.key, g.items + [item]))
  {
    KeyHasGroup(fmt, agg, prior, k);
    if k in piles {
      assert PileFor(fmt, agg, prior, item, false, k, piles[k]);
      assert g.items == Group(fmt, agg, prior, k);
      assert (g.items + [item])[0] == g.items[0];
    }
  }

  lemma OtherPilesKept(fmt: Format, agg: Agg, prior: seq<Item>, item: Item, done: set<string>,
                       piles: map<string, Pile>, k: string, piles': map<string, Pile>)
    requires forall l :: l in piles ==> PileFor(fmt, agg, prior, item, l in done, l, piles[l])
    requires piles'.Keys == piles.Keys + {k} && PileFor(fmt, agg, prior, item, true, k, piles'[k])
    requires forall l :: l in piles && l != k ==> piles'[l] == piles[l]
    ensures forall l :: l in piles' ==> PileFor(fmt, agg, prior, item, l in done + {k}, l, piles'[l])
  {
    forall l | l in piles' ensures PileFor(fmt, agg, prior, item, l in done + {k}, l, piles'[l]) {
      if l != k {
        assert PileFor(fmt, agg, prior, item, l in done, l, piles[l]);
      }
    }
  }

  lemma KeySetNext(fmt: Format, agg: Agg, prior: seq<Item>, item: Item)
    ensures KeySet(fmt, agg, prior + [item]) == KeySet(fmt, agg, prior) + ItemKeys(fmt, agg, item)
  {
    KeySetConcat(fmt, agg, prior, [item]);
    forall k | k in ItemKeys(fmt, agg, item) ensures k in KeySet(fmt, agg, [item]) {
      assert k in ItemKeys(fmt, agg, [item][0]);
    }
  }

  lemma NextItem(fmt: Format, agg: Agg, prior: seq<Item>, item: Item, next: Item,
                 order: seq<string>, piles: map<string, Pile>)
    requires Piled(fmt, agg, prior, item, ItemKeys(fmt, agg, item), order, piles)
    ensures Piled(fmt, agg, prior + [item], next, {}, order, piles)
  {
    KeySetNext(fmt, agg, prior, item);
    forall k | k in piles ensures PileFor(fmt, agg, prior + [item], next, false, k, piles[k]) {
      assert PileFor(fmt, agg, prior, item, k in ItemKeys(fmt, agg, item), k, piles[k]);
      SelectSnoc(prior, item, HasKey(fmt, agg, k));
    }
  }

  /** Runs the sub-aggregations of `node` over the items, one name at a time in no
      particular order, as the program ranges over a map. */
  method EvaluateAggs(fmt: Format, node: Agg, items: seq<Item>) returns (r: Result<map<string, AggResult>>)
    ensures r.Ok? <==> SubsOk(fmt, node, items)
    ensures r.Ok? ==> r.value == SubValues(fmt, node, items)
    decreases node, 0
  {
    var names := node.aggs.Keys;
    var result: map<string, AggResult> := map[];
    while names != {}
      invariant names <= node.aggs.Keys && result.Keys == node.aggs.Keys - names
      invariant forall n :: n in result ==>
                  AggOk(fmt, node.aggs[n], items) && result[n] == AggValue(fmt, node.aggs[n], items)
      decreases names
    {
      var n :| n in names;
      var sub := ApplyAgg(fmt, node.aggs[n], items);
      if sub.Err? {
        return Err;
      }
      result := result[n := sub.value];
      names := names - {n};
    }
    return Ok(result);
  }

  method ApplyAgg(fmt: Format, agg: Agg, items: seq<Item>) returns (r: Result<AggResult>)
    ensures r.Ok? <==> AggOk(fmt, agg, items)
    ensures r.Ok? ==> r.value == AggValue(fmt, agg, items)
    decreases agg, 5
  {
    match agg.op
    case Terms => r := ApplyTerms(fmt, agg, items);
    case DateHistogram => r := ApplyDateHistogram(fmt, agg, items);
    case Histogram => r := ApplyHistogram(fmt, agg, items);
    case UnknownOp => r := Err;
  }

  /** Groups by the field's printed value, fanning lists out over their distinct elements. */
  method ApplyTerms(fmt: Format, agg: Agg, items: seq<Item>) returns (r: Result<AggResult>)
    requires agg.op == Terms
    ensures r.Ok? <==> AggOk(fmt, agg, items)
    ensures r.Ok? ==> r.value == AggValue(fmt, agg, items)
    decreases agg, 4
  {
    var order: seq<string>, piles: map<string, Pile> := [], map[];
    for i := 0 to |items|
      invariant Piled(fmt, agg, items[..i], if i < |items| then items[i] else map[], {}, order, piles)
    {
      order, piles := FileItem(fmt, agg, items[..i], order, piles, items[i]);
      assert items[..i] + [items[i]] == items[..i + 1];
      NextItem(fmt, agg, items[..i], items[i], if i + 1 < |items| then items[i + 1] else map[], order, piles);
    }
    assert items[..|items|] == items;
    r := ListBuckets(fmt, agg, items, order, piles);
  }

  /** One turn of the terms loop: a list is walked with a set of the elements seen. */
  method FileItem(fmt: Format, agg: Agg, ghost prior: seq<Item>, order: seq<string>, piles: map<string, Pile>,
                  item: Item)
    returns (order': seq<string>, piles': map<string, Pile>)
    requires agg.op == Terms && Piled(fmt, agg, prior, item, {}, order, piles)
    ensures Piled(fmt, agg, prior, item, ItemKeys(fmt, agg, item), order', piles')
  {
    var val := Field(item, agg.field);
    if val.StrList? {
      order', piles' := FileList(fmt, agg, prior, order, piles, item, val.elems);
    } else {
      order', piles' := AddToBucket(fmt, agg, prior, {}, order, piles, Sprint(fmt, val), item);
      assert {} + {Sprint(fmt, val)} == ItemKeys(fmt, agg, item);
    }
  }

  method FileList(fmt: Format, agg: Agg, ghost prior: seq<Item>, order: seq<string>, piles: map<string, Pile>,
                  item: Item, elems: seq<string>)
    returns (order': seq<string>, piles': map<string, Pile>)
    requires agg.op == Terms && Piled(fmt, agg, prior, item, {}, order, piles)
    requires Field(item, agg.field) == StrList(elems)
    ensures Piled(fmt, agg, prior, item, ItemKeys(fmt, agg, item), order', piles')
  {
    order', piles' := order, piles;
    var seen: set<string> := {};
    for j := 0 to |elems|
      invariant seen == Elements(elems[..j])
      invariant Piled(fmt, agg, prior, item, seen, order', piles')
    {
      assert elems[..j + 1] == elems[..j] + [elems[j]];
      ElementsSnoc(elems[..j], elems[j]);
      if elems[j] in seen {
        continue;
      }
      order', piles' := AddToBucket(fmt, agg, prior, seen, order', piles', elems[j], item);
      seen := seen + {elems[j]};
    }
    assert elems[..|elems|] == elems;
  }

  /** Groups time values by calendar interval; absent fields are skipped, other types fail. */
  method ApplyDateHistogram(fmt: Format, agg: Agg, items: seq<Item>) returns (r: Result<AggResult>)
    requires agg.op == DateHistogram
    ensures r.Ok? <==> AggOk(fmt, agg, items)
    ensures r.Ok? ==> r.value == AggValue(fmt, agg, items)
    ensures r.Ok? ==> AllTimes(items, agg.field)
    ensures AllTimes(items, agg.field) && agg.aggs == map[] ==> r.Ok?
    decreases agg, 4
  {
    NoneRejectedIfTimes(agg, items);
    var order: seq<string>, piles: map<string, Pile> := [], map[];
    for i := 0 to |items|
      invariant Piled(fmt, agg, items[..i], if i < |items| then items[i] else map[], {}, order, piles)
      invariant NoneRejected(agg, items[..i])
    {
      if Rejects(agg, items[i]) {
        return Err;
      }
      order, piles := FileDate(fmt, agg, items[..i], order, piles, items[i]);
      assert items[..i] + [items[i]] == items[..i + 1];
      NextItem(fmt, agg, items[..i], items[i], if i + 1 < |items| then items[i + 1] else map[], order, piles);
    }
    assert items[..|items|] == items;
    r := ListBuckets(fmt, agg, items, order, piles);
  }

  /** Every item with the field holds a time there. */
  ghost predicate AllTimes(items: seq<Item>, field: string) {
    forall x: Item :: x in items && field in x ==> x[field].Time?
  }

  lemma NoneRejectedIfTimes(agg: Agg, items: seq<Item>)
    requires agg.op == DateHistogram
    ensures NoneRejected(agg, items) <==> AllTimes(items, agg.field)
  {
    forall x: Item | NoneRejected(agg, items) && x in items && agg.field in x ensures x[agg.field].Time? {
      var i :| 0 <= i < |items| && items[i] == x;
      assert !Rejects(agg, items[i]);
    }
  }

  /** One turn of the date loop. */
  method FileDate(fmt: Format, agg: Agg, ghost prior: seq<Item>, order: seq<string>, piles: map<string, Pile>,
                  item: Item)
    returns (order': seq<string>, piles': map<string, Pile>)
    requires agg.op == DateHistogram && Piled(fmt, agg, prior, item, {}, order, piles)
    requires !Rejects(agg, item)
    ensures Piled(fmt, agg, prior, item, ItemKeys(fmt, agg, item), order', piles')
  {
    order', piles' := order, piles;
    if agg.field in item {
      var key := fmt.date(item[agg.field].at, agg.interval, Layout(agg));
      order', piles' := AddToBucket(fmt, agg, prior, {}, order', piles', key, item);
      assert {} + {key} == ItemKeys(fmt, agg, item);
    }
  }

  /** The second half of both: sort the keys, then one bucket per key. */
  method ListBuckets(fmt: Format, agg: Agg, ghost items: seq<Item>, order: seq<string>, piles: map<string, Pile>)
    returns (r: Result<AggResult>)
    requires agg.op == Terms || agg.op == DateHistogram
    requires Piled(fmt, agg, items, map[], {}, order, piles) && NoneRejected(agg, items)
    ensures r.Ok? <==> AggOk(fmt, agg, items)
    ensures r.Ok? ==> r.value == AggValue(fmt, agg, items)
    decreases agg, 3
  {
    var ks := StableSort(order, Alphabetical());
    SortedKeysAscend(order);
    ListingOf(ks, KeySet(fmt, agg, items));
    KeysOk(fmt, agg, items, ks);
    assert forall i :: 0 <= i < |ks| ==> ks[i] in Elements(ks);
    var buckets := FillBuckets(fmt, agg, items, ks, piles);
    r := if buckets.Ok? then Ok(AggResult(buckets.value, 0, 0.0)) else Err;
  }

  /** The sub-aggregations of the first j keys' groups all succeed. */
  ghost predicate GroupsOk(fmt: Format, agg: Agg, items: seq<Item>, ks: seq<string>, j: nat)
    requires j <= |ks|
  {
    forall i :: 0 <= i < j ==> SubsOk(fmt, agg, Group(fmt, agg, items, ks[i]))
  }

  lemma NextGroup(fmt: Format, agg: Agg, items: seq<Item>, ks: seq<string>, j: nat)
    requires j < |ks| && GroupsOk(fmt, agg, items, ks, j) && SubsOk(fmt, agg, Group(fmt, agg, items, ks[j]))
    ensures GroupsOk(fmt, agg, items, ks, j + 1)
  {
  }

  method FillBuckets(fmt: Format, agg: Agg, ghost items: seq<Item>, ks: seq<string>, piles: map<string, Pile>)
    returns (r: Result<seq<Bucket>>)
    requires forall i :: 0 <= i < |ks| ==>
               ks[i] in piles && PileFor(fmt, agg, items, map[], false, ks[i], piles[ks[i]])
    ensures r.Ok? <==> GroupsOk(fmt, agg, items, ks, |ks|)
    ensures r.Ok? ==> r.value == BucketsFor(fmt, agg, items, ks)
    decreases agg, 2
  {
    var buckets: seq<Bucket> := [];
    for j := 0 to |ks|
      invariant buckets == BucketsFor(fmt, agg, items, ks[..j])
      invariant GroupsOk(fmt, agg, items, ks, j)
    {
      assert PileFor(fmt, agg, items, map[], false, ks[j], piles[ks[j]]);
      var bucket := MakeBucket(fmt, agg, items, ks[j], piles[ks[j]]);
      if bucket.Err? {
        return Err;
      }
      buckets := buckets + [bucket.value];
      NextBucket(fmt, agg, items, ks, j);
      NextGroup(fmt, agg, items, ks, j);
    }
    assert ks[..|ks|] == ks;
    return Ok(buckets);
  }

  method MakeBucket(fmt: Format, agg: Agg, ghost items: seq<Item>, k: string, pile: Pile) returns (r: Result<Bucket>)
    requires PileFor(fmt, agg, items, map[], false, k, pile)
    ensures r.Ok? <==> SubsOk(fmt, agg, Group(fmt, agg, items, k))
    ensures r.Ok? ==> r.value == BucketOf(fmt, agg, items, k)
    decreases agg, 1
  {
    assert pile.items == Group(fmt, agg, items, k);
    var subs := EvaluateAggs(fmt, agg, pile.items);
    r := if subs.Ok? then Ok(Bucket(pile.key, |pile.items|, subs.value)) else Err;
  }

  lemma NextBucket(fmt: Format, agg: Agg, items: seq<Item>, ks: seq<string>, j: nat)
    requires j < |ks|
    ensures BucketsFor(fmt, agg, items, ks[..j + 1])
         == BucketsFor(fmt, agg, items, ks[..j]) + [BucketOf(fmt, agg, items, ks[j])]
  {
    assert ks[..j + 1] == ks[..j] + [ks[j]];
    assert [ks[j]][1..] == [];
    BucketsForConcat(fmt, agg, items, ks[..j], [ks[j]]);
  }

  lemma KeysOk(fmt: Format, agg: Agg, items: seq<Item>, ks: seq<string>)
    requires agg.op == Terms || agg.op == DateHistogram
    requires Elements(ks) == KeySet(fmt, agg, items) && NoneRejected(agg, items)
    ensures AggOk(fmt, agg, items)
       <==> forall i :: 0 <= i < |ks| ==> SubsOk(fmt, agg, Group(fmt, agg, items, ks[i]))
  {
    forall i | 0 <= i < |ks| ensures ks[i] in KeySet(fmt, agg, items) {
      assert ks[i] in Elements(ks);
    }
    forall k | k in KeySet(fmt, agg, items) ensures k in ks {
      assert k in Elements(ks);
    }
  }

  /** Counts numeric values cumulatively under explicit upper bounds. */
  method ApplyHistogram(fmt: Format, agg: Agg, items: seq<Item>) returns (r: Result<AggResult>)
    requires agg.op == Histogram
    ensures r.Ok? <==> AggOk(fmt, agg, items)
    ensures r.Ok? ==> r.value == AggValue(fmt, agg, items)
    ensures r.Ok? <==> agg.bounds != [] && agg.aggs == map[] && AllMeasure(items, agg.field)
    ensures forall value :: r.Ok? && Measured(items, agg.field, value) ==>
              IsHistogram(r.value, agg.bounds, items, agg.field, value)
  {
    NoneRejectedIfMeasured(agg, items);
    forall value | Measured(items, agg.field, value)
      ensures IsHistogram(HistogramResult(agg, items), agg.bounds, items, agg.field, value)
    {
      HistogramOfValues(agg, items, value);
    }
    if agg.bounds == [] || agg.aggs != map[] {
      return Err;
    }
    var bounds := StableSort(agg.bounds, Below());
    var cumulative: map<real, nat> := map b | b in bounds :: 0;
    var total, sum := 0, 0.0;
    for i := 0 to |items|
      invariant NoneRejected(agg, items[..i])
      invariant Tallied(agg, items[..i], bounds, cumulative, total, sum)
    {
      NextRejected(agg, items, i);
      assert items[..i + 1] == items[..i] + [items[i]];
      if Rejects(agg, items[i]) {
        return Err;
      }
      cumulative, total, sum := Tally(agg, items[..i], items[i], bounds, cumulative, total, sum);
    }
    assert items[..|items|] == items;
    var buckets := ReadOut(agg, items, bounds, cumulative);
    r := Ok(AggResult(buckets, total, sum));
  }

  /** Every item with the field holds a number there. */
  ghost predicate AllMeasure(items: seq<Item>, field: string) {
    forall x: Item :: x in items && field in x ==> exists y :: Measures(x[field], y)
  }

  lemma NoneRejectedIfMeasured(agg: Agg, items: seq<Item>)
    requires agg.op == Histogram
    ensures NoneRejected(agg, items) <==> AllMeasure(items, agg.field)
  {
    forall x ensures Numeric(Field(x, agg.field)) <==> exists y :: Measures(Field(x, agg.field), y) {
      NumericIsMeasured(Field(x, agg.field));
    }
    if NoneRejected(agg, items) {
      forall x: Item | x in items && agg.field in x ensures exists y :: Measures(x[agg.field], y) {
        var i :| 0 <= i < |items| && items[i] == x;
        assert !Rejects(agg, items[i]) && Field(x, agg.field) == x[agg.field];
      }
    } else {
      var i :| 0 <= i < |items| && Rejects(agg, items[i]);
      assert items[i] in items && Field(items[i], agg.field) == items[i][agg.field];
    }
  }

  lemma NextRejected(agg: Agg, items: seq<Item>, i: nat)
    requires i < |items| && NoneRejected(agg, items[..i])
    ensures NoneRejected(agg, items[..i + 1]) <==> !Rejects(agg, items[i])
    ensures Rejects(agg, items[i]) ==> !NoneRejected(agg, items)
  {
    var before, after := items[..i], items[..i + 1];
    assert after[i] == items[i] && forall j :: 0 <= j < i ==> after[j] == before[j];
  }

  lemma CounterIsBucket(agg: Agg, items: seq<Item>, bounds: seq<real>, cumulative: map<real, nat>, b: real)
    requires Permutation(bounds, agg.bounds) && Counted(agg, items, bounds, cumulative) && b in bounds
    ensures b in cumulative && Bucket(Float64(b), cumulative[b], map[]) == HistogramBucket(agg, items, b)
  {
  }

  ghost predicate ReadSoFar(agg: Agg, items: seq<Item>, bounds: seq<real>, buckets: seq<Bucket>) {
    && |buckets| <= |bounds|
    && forall i :: 0 <= i < |buckets| ==> buckets[i] == HistogramBucket(agg, items, bounds[i])
  }

  lemma ReadNext(agg: Agg, items: seq<Item>, bounds: seq<real>, buckets: seq<Bucket>, b: Bucket)
    requires ReadSoFar(agg, items, bounds, buckets) && |buckets| < |bounds|
    requires b == HistogramBucket(agg, items, bounds[|buckets|])
    ensures ReadSoFar(agg, items, bounds, buckets + [b])
  {
  }

  lemma AllRead(agg: Agg, items: seq<Item>, bounds: seq<real>, buckets: seq<Bucket>)
    requires bounds == StableSort(agg.bounds, Below())
    requires ReadSoFar(agg, items, bounds, buckets) && |buckets| == |bounds|
    ensures buckets == HistogramBuckets(agg, items)
  {
  }

  /** One bucket per listed bound, read from the counters. */
  method ReadOut(agg: Agg, ghost items: seq<Item>, bounds: seq<real>, cumulative: map<real, nat>)
    returns (buckets: seq<Bucket>)
    requires bounds == StableSort(agg.bounds, Below()) && Counted(agg, items, bounds, cumulative)
    ensures buckets == HistogramBuckets(agg, items)
  {
    SortPermutes(agg.bounds, Below());
    buckets := [];
    for j := 0 to |bounds|
      invariant |buckets| == j && ReadSoFar(agg, items, bounds, buckets)
    {
      CounterIsBucket(agg, items, bounds, cumulative, bounds[j]);
      var b := Bucket(Float64(bounds[j]), cumulative[bounds[j]], map[]);
      ReadNext(agg, items, bounds, buckets, b);
      buckets := buckets + [b];
    }
    AllRead(agg, items, bounds, buckets);
  }

  ghost predicate Tallied(agg: Agg, items: seq<Item>, bounds: seq<real>, cumulative: map<real, nat>,
                          total: nat, sum: real)
  {
    && Counted(agg, items, bounds, cumulative)
    && total == |Select(items, Observed(agg))|
    && sum == SumBy(Select(items, Observed(agg)), Observation(agg))
  }

  /** One turn of the histogram loop; an absent field is not an observation. */
  method Tally(agg: Agg, ghost prior: seq<Item>, item: Item, bounds: seq<real>, cumulative: map<real, nat>,
               total: nat, sum: real)
    returns (cumulative': map<real, nat>, total': nat, sum': real)
    requires agg.op == Histogram && !Rejects(agg, item)
    requires Tallied(agg, prior, bounds, cumulative, total, sum)
    ensures Tallied(agg, prior + [item], bounds, cumulative', total', sum')
  {
    cumulative', total', sum' := cumulative, total, sum;
    ObserveNext(agg, prior, item);
    if agg.field in item {
      var f := ToFloat(item[agg.field]);
      total' := total + 1;
      sum' := sum + f;
      cumulative' := CountUnder(cumulative, bounds, f);
    }
    CountNext(agg, prior, item, bounds, cumulative, cumulative');
  }

  ghost predicate Counted(agg: Agg, items: seq<Item>, bounds: seq<real>, cumulative: map<real, nat>) {
    && cumulative.Keys == (set b | b in bounds)
    && forall b :: b in cumulative ==> cumulative[b] == multiset(bounds)[b] * |Select(items, AtMost(agg, b))|
  }

  lemma CountNext(agg: Agg, items: seq<Item>, item: Item, bounds: seq<real>,
                  before: map<real, nat>, after: map<real, nat>)
    requires Counted(agg, items, bounds, before) && after.Keys == before.Keys
    requires forall b :: b in after ==>
               after[b] == before[b] + (if AtMost(agg, b)(item) then multiset(bounds)[b] else 0)
    ensures Counted(agg, items + [item], bounds, after)
  {
    forall b | b in after
      ensures after[b] == multiset(bounds)[b] * |Select(items + [item], AtMost(agg, b))|
    {
      SelectSnoc(items, item, AtMost(agg, b));
      OneMore(multiset(bounds)[b], |Select(items, AtMost(agg, b))|);
    }
  }

  lemma OneMore(m: nat, n: nat)
    ensures m * (n + 1) == m * n + m
  {
  }

  lemma ObserveNext(agg: Agg, items: seq<Item>, item: Item)
    ensures var seen, seen' := Select(items, Observed(agg)), Select(items + [item], Observed(agg));
      && |seen'| == |seen| + (if agg.field in item then 1 else 0)
      && SumBy(seen', Observation(agg))
         == SumBy(seen, Observation(agg)) + (if agg.field in item then ToFloat(item[agg.field]) else 0.0)
  {
    var seen, f := Select(items, Observed(agg)), Observation(agg);
    SelectSnoc(items, item, Observed(agg));
    SumByConcat(seen, [item], f);
    assert [item][1..] == [] && SumBy([item][1..], f) == 0.0;
    assert SumBy([item], f) == f(item);
    assert agg.field !in item ==> Select(items + [item], Observed(agg)) == seen;
    assert agg.field in item ==> Select(items + [item], Observed(agg)) == seen + [item];
  }

  /** The inner loop: one increment per listed bound that is not below f. */
  method CountUnder(cumulative: map<real, nat>, bounds: seq<real>, f: real) returns (r: map<real, nat>)
    requires cumulative.Keys == set b | b in bounds
    ensures r.Keys == cumulative.Keys
    ensures forall b :: b in r ==> r[b] == cumulative[b] + (if f <= b then multiset(bounds)[b] else 0)
  {
    r := cumulative;
    for j := 0 to |bounds|
      invariant r.Keys == cumulative.Keys
      invariant forall b :: b in r ==> r[b] == cumulative[b] + (if f <= b then multiset(bounds[..j])[b] else 0)
    {
      assert bounds[j] in bounds;
      assert bounds[..j + 1] == bounds[..j] + [bounds[j]];
      if f <= bounds[j] {
        r := r[bounds[j] := r[bounds[j]] + 1];
      }
    }
    assert bounds[..|bounds|] == bounds;
  }
}
