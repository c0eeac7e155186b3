/** What a caller can rely on in the buckets: a terms bucket is a filter's
    selection, histogram counts are cumulative counts, and nested fan-out neither
    loses nor invents observations. */
module BucketLaws {
  import opened Seqs
  import opened Sorting
  import opened Ordering
  import opened Values
  import opened Printing
  import opened Filters
  import opened FilterLaws
  import opened Queries
  import opened Aggregation

  // ---- drill-down

  function DrillDown(agg: Agg, k: string): Item -> bool {
    item => Accepts(Some(TermFilter(agg.field, StringValue(k))), item)
  }

  predicate Text(item: Item, field: string) {
    Field(item, field).Str? || Field(item, field).StrList?
  }

  lemma TermOnText(item: Item, field: string, k: string)
    ensures Accepts(Some(TermFilter(field, StringValue(k))), item)
       <==> match Field(item, field)
            case Str(s) => s == k
            case StrList(es) => k in es
            case _ => false
  {
    var ws := [StringValue(k)];
    assert ws[1..] == [];
    assert StringPrefix(ws) == [k] && AllStrings(ws);
    if field in item {
      if item[field].StrList? {
        AnyElementOutcome(item[field].elems, ws);
      } else if item[field].Str? {
        CmpStringLaws(item[field].str, k, k);
      }
    }
  }

  /** The group for k is what the filter `field = k` selects, in the same order, exactly
      when no item holds something other than text that prints as k. */
  lemma GroupIsRefilter(fmt: Format, agg: Agg, items: seq<Item>, k: string)
    requires agg.op == Terms
    ensures Group(fmt, agg, items, k) == Select(items, DrillDown(agg, k))
       <==> forall x :: x in items ==> Text(x, agg.field) || Sprint(fmt, Field(x, agg.field)) != k
  {
    forall x ensures HasKey(fmt, agg, k)(x) <==>
                       DrillDown(agg, k)(x) || (!Text(x, agg.field) && Sprint(fmt, Field(x, agg.field)) == k)
      ensures DrillDown(agg, k)(x) ==> Text(x, agg.field)
    {
      TermOnText(x, agg.field, k);
    }
    if forall x :: x in items ==> Text(x, agg.field) || Sprint(fmt, Field(x, agg.field)) != k {
      SelectSame(items, HasKey(fmt, agg, k), DrillDown(agg, k));
    } else {
      var x :| x in items && !Text(x, agg.field) && Sprint(fmt, Field(x, agg.field)) == k;
      assert x in Group(fmt, agg, items, k);
      assert x !in Select(items, DrillDown(agg, k));
    }
  }

  /** Main result: on a text field, drilling down into a bucket is filtering by its key:
      the bucket counts the filtered items and its sub-tree is the evaluation of them;
      and there is a bucket, at one place only, exactly for the keys some item matches. */
  lemma DrillDownIsRefilter(fmt: Format, agg: Agg, items: seq<Item>)
    requires agg.op == Terms && forall x :: x in items ==> Text(x, agg.field)
    ensures var bs := AggValue(fmt, agg, items).buckets;
      && (forall i :: 0 <= i < |bs| ==>
            && bs[i].key.Str?
            && bs[i].docCount == |Select(items, DrillDown(agg, bs[i].key.str))| > 0
            && bs[i].aggs == SubValues(fmt, agg, Select(items, DrillDown(agg, bs[i].key.str))))
      && (forall i, j :: 0 <= i < j < |bs| ==> StrLt(bs[i].key.str, bs[j].key.str))
      && (forall x, k :: x in items && DrillDown(agg, k)(x) ==> exists i :: 0 <= i < |bs| && bs[i].key == Str(k))
  {
    var ks := Listing(KeySet(fmt, agg, items));
    var bs := AggValue(fmt, agg, items).buckets;
    forall i | 0 <= i < |ks|
      ensures bs[i] == BucketOf(fmt, agg, items, ks[i]) && bs[i].key == Str(ks[i]) && bs[i].docCount > 0
      ensures Group(fmt, agg, items, ks[i]) == Select(items, DrillDown(agg, ks[i]))
    {
      BucketAt(fmt, agg, items, ks, i);
      assert ks[i] in Elements(ks);
      KeyHasGroup(fmt, agg, items, ks[i]);
      var g := Group(fmt, agg, items, ks[i]);
      assert g[0] in g;
      assert g[0] in items;
      GroupIsRefilter(fmt, agg, items, ks[i]);
    }
    forall x, k | x in items && DrillDown(agg, k)(x) ensures exists i :: 0 <= i < |bs| && bs[i].key == Str(k) {
      GroupIsRefilter(fmt, agg, items, k);
      assert x in Group(fmt, agg, items, k);
      KeyHasGroup(fmt, agg, items, k);
      assert k in Elements(ks);
      var i :| 0 <= i < |ks| && ks[i] == k;
      assert bs[i].key == Str(k);
    }
  }

  // ---- keyed buckets, in the fields

  /** An item is filed under k if its field prints as k, or lists it; by date, if its time falls
      into the interval that prints as k. */
  ghost predicate Filed(fmt: Format, agg: Agg, item: Item, k: string) {
    if agg.op == DateHistogram then
      agg.field in item && item[agg.field].Time?
      && k == fmt.date(item[agg.field].at, agg.interval,
                       if agg.format == "" then "2006-01-02T15:04:05Z07:00" else agg.format)
    else if agg.field !in item then k == "<nil>"
    else if item[agg.field].StrList? then k in item[agg.field].elems
    else Prints(fmt, item[agg.field], k)
  }

  ghost function FiledUnder(fmt: Format, agg: Agg, k: string): Item -> bool {
    item => Filed(fmt, agg, item, k)
  }

  lemma KeysAreFiled(fmt: Format, agg: Agg, item: Item, k: string)
    ensures k in ItemKeys(fmt, agg, item) <==> Filed(fmt, agg, item, k)
  {
    PrintedIs(fmt, Field(item, agg.field), k);
  }

  /** The bucket holds these items: it counts them, evaluates below over them, and shows the key
      as the first of them has it. */
  ghost predicate BucketHolds(fmt: Format, agg: Agg, b: Bucket, k: string, those: seq<Item>) {
    && those != [] && b.docCount == |those| && b.aggs == SubValues(fmt, agg, those)
    && b.key == if agg.op == DateHistogram || Field(those[0], agg.field).StrList? then Str(k)
                else Field(those[0], agg.field)
  }

  /** Main result for grouping: in dictionary order there is one bucket for each key that some
      item is filed under, and it holds exactly the items filed under it, in their order. */
  lemma {:induction false} BucketsHoldFiled(fmt: Format, agg: Agg, items: seq<Item>) returns (ks: seq<string>)
    requires agg.op == Terms || agg.op == DateHistogram
    ensures forall i, j :: 0 <= i < j < |ks| ==> Before(ks[i], ks[j])
    ensures forall k :: k in ks <==> exists i :: 0 <= i < |items| && Filed(fmt, agg, items[i], k)
    ensures var r := AggValue(fmt, agg, items);
      && |r.buckets| == |ks| && r.docCount == 0 && r.sum == 0.0
      && forall i :: 0 <= i < |ks| ==>
           BucketHolds(fmt, agg, r.buckets[i], ks[i], Select(items, FiledUnder(fmt, agg, ks[i])))
  {
    ks := Listing(KeySet(fmt, agg, items));
    var bs := AggValue(fmt, agg, items).buckets;
    forall i, j | 0 <= i < j < |ks| ensures Before(ks[i], ks[j]) {
      StrLtIsBefore(ks[i], ks[j]);
    }
    forall k ensures k in ks <==> exists i :: 0 <= i < |items| && Filed(fmt, agg, items[i], k) {
      forall i | 0 <= i < |items| ensures k in ItemKeys(fmt, agg, items[i]) <==> Filed(fmt, agg, items[i], k) {
        KeysAreFiled(fmt, agg, items[i], k);
      }
      assert k in ks <==> k in Elements(ks);
    }
    forall i | 0 <= i < |ks|
      ensures BucketHolds(fmt, agg, bs[i], ks[i], Select(items, FiledUnder(fmt, agg, ks[i])))
    {
      BucketAt(fmt, agg, items, ks, i);
      assert ks[i] in Elements(ks);
      GroupIsFiled(fmt, agg, items, ks[i]);
    }
  }

  lemma GroupIsFiled(fmt: Format, agg: Agg, items: seq<Item>, k: string)
    requires k in KeySet(fmt, agg, items)
    ensures BucketHolds(fmt, agg, BucketOf(fmt, agg, items, k), k, Select(items, FiledUnder(fmt, agg, k)))
  {
    forall x ensures HasKey(fmt, agg, k)(x) == FiledUnder(fmt, agg, k)(x) {
      KeysAreFiled(fmt, agg, x, k);
    }
    SelectSame(items, HasKey(fmt, agg, k), FiledUnder(fmt, agg, k));
    KeyHasGroup(fmt, agg, items, k);
  }

  // ---- histograms

  /** A bucket's count is the number of values at or below its bound, exactly when the bound
      is listed once or nothing is at or below it. */
  lemma BucketCountsOnce(agg: Agg, items: seq<Item>, value: Item -> real, bound: real)
    requires bound in agg.bounds && Measured(items, agg.field, value)
    ensures var under := Select(items, HasAtMost(agg.field, value, bound));
      HistogramBucket(agg, items, bound).docCount == |under| <==> multiset(agg.bounds)[bound] == 1 || under == []
  {
    AtMostMeasured(agg, items, value, bound);
    var m, n := multiset(agg.bounds)[bound], |Select(items, AtMost(agg, bound))|;
    if m > 1 && n > 0 {
      TimesMore(m, n);
    }
  }

  lemma TimesMore(m: nat, n: nat)
    requires m > 1 && n > 0
    ensures m * n > n
  {
  }

  lemma {:induction false} SelectFewer<T>(s: seq<T>, p: T -> bool, q: T -> bool)
    requires forall x :: x in s && p(x) ==> q(x)
    ensures |Select(s, p)| <= |Select(s, q)|
  {
    if s != [] {
      SelectFewer(s[1..], p, q);
    }
  }

  /** The i-th bucket, for distinct bounds. */
  lemma BoundAt(agg: Agg, items: seq<Item>, value: Item -> real, i: nat)
    requires NoDuplicates(agg.bounds) && i < |agg.bounds| && Measured(items, agg.field, value)
    ensures var s, bs := StableSort(agg.bounds, Below()), HistogramBuckets(agg, items);
      && |s| == |bs| == |agg.bounds| && s[i] in agg.bounds && bs[i].key == Float64(s[i])
      && bs[i].docCount == |Select(items, HasAtMost(agg.field, value, s[i]))| <= |Select(items, HasField(agg.field))|
  {
    var s := StableSort(agg.bounds, Below());
    SortedBounds(agg);
    assert s[i] in Elements(s);
    NoDuplicatesMultiplicity(agg.bounds, s[i]);
    BucketCountsOnce(agg, items, value, s[i]);
    SelectFewer(items, HasAtMost(agg.field, value, s[i]), HasField(agg.field));
  }

  lemma BoundsAscend(agg: Agg, items: seq<Item>, value: Item -> real, i: nat, j: nat)
    requires NoDuplicates(agg.bounds) && i < j < |agg.bounds|
    ensures var s := StableSort(agg.bounds, Below());
      && |s| == |agg.bounds| && s[i] < s[j]
      && |Select(items, HasAtMost(agg.field, value, s[i]))| <= |Select(items, HasAtMost(agg.field, value, s[j]))|
  {
    var s := StableSort(agg.bounds, Below());
    SortedBounds(agg);
    PermutationKeepsNoDuplicates(agg.bounds, s);
    SelectFewer(items, HasAtMost(agg.field, value, s[i]), HasAtMost(agg.field, value, s[j]));
  }

  /** Main result: with distinct bounds in any order, the buckets are the bounds in
      ascending order, each counting exactly the values at or below it; counts never
      decrease and never exceed the total, which with the sum covers exactly the items
      that have the field.  The values are the field's numbers, of whatever type. */
  lemma HistogramIsCumulative(fmt: Format, agg: Agg, items: seq<Item>, value: Item -> real)
    requires agg.op == Histogram && NoDuplicates(agg.bounds) && Measured(items, agg.field, value)
    ensures var r := AggValue(fmt, agg, items);
      && |r.buckets| == |agg.bounds|
      && (forall i :: 0 <= i < |r.buckets| ==>
            && r.buckets[i].key.Float64? && r.buckets[i].key.x in agg.bounds
            && r.buckets[i].docCount == |Select(items, HasAtMost(agg.field, value, r.buckets[i].key.x))| <= r.docCount)
      && (forall i, j :: 0 <= i < j < |r.buckets| ==>
            r.buckets[i].key.x < r.buckets[j].key.x && r.buckets[i].docCount <= r.buckets[j].docCount)
      && (forall b :: b in agg.bounds ==> exists i :: 0 <= i < |r.buckets| && r.buckets[i].key == Float64(b))
      && r.docCount == |Select(items, HasField(agg.field))|
      && r.sum == SumBy(Select(items, HasField(agg.field)), value)
  {
    var bs := HistogramBuckets(agg, items);
    SortedBounds(agg);
    ObservedMeasured(agg, items, value);
    forall i | 0 <= i < |bs|
      ensures bs[i].key.Float64? && bs[i].key.x in agg.bounds
      ensures bs[i].docCount == |Select(items, HasAtMost(agg.field, value, bs[i].key.x))|
                             <= |Select(items, HasField(agg.field))|
    {
      BoundAt(agg, items, value, i);
    }
    forall i, j | 0 <= i < j < |bs| ensures bs[i].key.x < bs[j].key.x && bs[i].docCount <= bs[j].docCount {
      BoundAt(agg, items, value, i);
      BoundAt(agg, items, value, j);
      BoundsAscend(agg, items, value, i, j);
    }
    forall b | b in agg.bounds ensures exists i :: 0 <= i < |bs| && bs[i].key == Float64(b) {
      BoundHasBucket(agg, items, b);
    }
  }

  lemma BoundHasBucket(agg: Agg, items: seq<Item>, bound: real)
    requires bound in agg.bounds
    ensures exists i :: 0 <= i < |HistogramBuckets(agg, items)| && HistogramBuckets(agg, items)[i].key == Float64(bound)
  {
    var s := StableSort(agg.bounds, Below());
    SortPermutes(agg.bounds, Below());
    PermutationMembers(agg.bounds, s);
    var i :| 0 <= i < |s| && s[i] == bound;
    assert HistogramBuckets(agg, items)[i] == HistogramBucket(agg, items, s[i]);
  }

  // ---- conservation through nested fan-out

  /** What is totalled: the items, or a value of theirs. */
  datatype Measure = Count | Sum(value: Item -> real)

  /** Down the named sub-aggregations of `path` from keyed levels to a histogram. */
  ghost predicate LeadsToHistogram(agg: Agg, path: seq<string>) {
    if path == [] then agg.op == Histogram
    else (agg.op == Terms || agg.op == DateHistogram) && path[0] in agg.aggs
         && LeadsToHistogram(agg.aggs[path[0]], path[1..])
  }

  /** The total over all leaves of the result tree at the end of `path`. */
  ghost function LeafTotal(measure: Measure, path: seq<string>, r: AggResult): real
    decreases |path|, 0, 0
  {
    if path == [] then (if measure.Count? then r.docCount as real else r.sum)
    else BucketTotal(measure, path, r.buckets)
  }

  ghost function BucketTotal(measure: Measure, path: seq<string>, bs: seq<Bucket>): real
    requires path != []
    decreases |path| - 1, 1, |bs|
  {
    if bs == [] then 0.0
    else (if path[0] in bs[0].aggs then LeafTotal(measure, path[1..], bs[0].aggs[path[0]]) else 0.0)
         + BucketTotal(measure, path, bs[1..])
  }

  function Times(n: nat, w: real): real {
    n as real * w
  }

  /** How often an item is counted: once per distinct key at every level. */
  ghost function Weight(fmt: Format, measure: Measure, agg: Agg, path: seq<string>, item: Item): real
    requires LeadsToHistogram(agg, path)
    decreases |path|
  {
    if path == [] then
      if agg.field !in item then 0.0 else if measure.Count? then 1.0 else measure.value(item)
    else
      Times(|ItemKeys(fmt, agg, item)|, Weight(fmt, measure, agg.aggs[path[0]], path[1..], item))
  }

  ghost function Weights(fmt: Format, measure: Measure, agg: Agg, path: seq<string>): Item -> real
    requires LeadsToHistogram(agg, path)
  {
    item => Weight(fmt, measure, agg, path, item)
  }

  lemma {:induction false} SumSelected<T>(s: seq<T>, p: T -> bool, f: T -> real, g: T -> real)
    requires forall x :: g(x) == if p(x) then f(x) else 0.0
    ensures SumBy(Select(s, p), f) == SumBy(s, g)
  {
    if s != [] {
      SumSelected(s[1..], p, f, g);
      if p(s[0]) {
        assert Select(s, p)[1..] == Select(s[1..], p);
      } else {
        assert Select(s, p) == Select(s[1..], p);
      }
    }
  }

  lemma {:induction false} SumOnes<T>(s: seq<T>, f: T -> real)
    requires forall x :: x in s ==> f(x) == 1.0
    ensures SumBy(s, f) == |s| as real
  {
    if s != [] {
      SumOnes(s[1..], f);
    }
  }

  lemma {:induction false} SumPlus<T>(s: seq<T>, f: T -> real, g: T -> real, h: T -> real)
    requires forall x :: h(x) == f(x) + g(x)
    ensures SumBy(s, h) == SumBy(s, f) + SumBy(s, g)
  {
    if s != [] {
      SumPlus(s[1..], f, g, h);
    }
  }

  lemma {:induction false} SumZero<T>(s: seq<T>, f: T -> real)
    requires forall x :: x in s ==> f(x) == 0.0
    ensures SumBy(s, f) == 0.0
  {
    if s != [] {
      SumZero(s[1..], f);
    }
  }

  /** Summing group by group. */
  ghost function KeySum(fmt: Format, agg: Agg, items: seq<Item>, ks: seq<string>, w: Item -> real): real {
    if ks == [] then 0.0 else SumBy(Group(fmt, agg, items, ks[0]), w) + KeySum(fmt, agg, items, ks[1..], w)
  }

  ghost function KeyedWeight(fmt: Format, agg: Agg, keys: set<string>, w: Item -> real): Item -> real {
    item => Times(|ItemKeys(fmt, agg, item) * keys|, w(item))
  }

  lemma OneMoreKey(keys: set<string>, among: set<string>, k: string, w: real)
    requires k !in among
    ensures Times(|keys * (among + {k})|, w) == Times(|keys * among|, w) + (if k in keys then w else 0.0)
  {
    if k in keys {
      assert keys * (among + {k}) == keys * among + {k};
    } else {
      assert keys * (among + {k}) == keys * among;
    }
  }

  /** Group by group or item by item, the sum is the same: an item is met once per key. */
  lemma {:induction false} DoubleCounting(fmt: Format, agg: Agg, items: seq<Item>, ks: seq<string>, w: Item -> real)
    requires NoDuplicates(ks)
    ensures KeySum(fmt, agg, items, ks, w) == SumBy(items, KeyedWeight(fmt, agg, Elements(ks), w))
  {
    if ks == [] {
      assert Elements(ks) == {};
      forall x ensures KeyedWeight(fmt, agg, {}, w)(x) == 0.0 {
        assert ItemKeys(fmt, agg, x) * {} == {};
        assert Times(0, w(x)) == 0.0;
      }
      SumZero(items, KeyedWeight(fmt, agg, {}, w));
    } else {
      var k, rest := ks[0], ks[1..];
      DoubleCounting(fmt, agg, items, rest, w);
      assert Elements(ks) == Elements(rest) + {k};
      assert k !in Elements(rest);
      CountOneKey(fmt, agg, items, k, Elements(rest), w);
    }
  }

  lemma {:induction false} CountOneKey(fmt: Format, agg: Agg, items: seq<Item>, k: string, among: set<string>,
                                       w: Item -> real)
    requires k !in among
    ensures SumBy(items, KeyedWeight(fmt, agg, among + {k}, w))
         == SumBy(Group(fmt, agg, items, k), w) + SumBy(items, KeyedWeight(fmt, agg, among, w))
  {
    var once: Item -> real := item => if k in ItemKeys(fmt, agg, item) then w(item) else 0.0;
    SumSelected(items, HasKey(fmt, agg, k), w, once);
    var more, less := KeyedWeight(fmt, agg, among + {k}, w), KeyedWeight(fmt, agg, among, w);
    forall x ensures more(x) == once(x) + less(x) {
      OneMoreKey(ItemKeys(fmt, agg, x), among, k, w(x));
    }
    SumPlus(items, once, less, more);
  }

  /** The value totalled is the number in the field at the end of the path. */
  ghost predicate Totals(measure: Measure, agg: Agg, path: seq<string>, items: seq<Item>)
    requires LeadsToHistogram(agg, path)
  {
    measure.Sum? ==> Measured(items, LeafAt(agg, path).field, measure.value)
  }

  lemma LeafConserves(fmt: Format, measure: Measure, agg: Agg, items: seq<Item>)
    requires agg.op == Histogram && Totals(measure, agg, [], items)
    ensures LeafTotal(measure, [], AggValue(fmt, agg, items)) == SumBy(items, Weights(fmt, measure, agg, []))
  {
    var w := Weights(fmt, measure, agg, []);
    if measure.Count? {
      var one: Item -> real := item => 1.0;
      SumSelected(items, Observed(agg), one, w);
      SumOnes(Select(items, Observed(agg)), one);
    } else {
      ObservedMeasured(agg, items, measure.value);
      SumSelected(items, HasField(agg.field), measure.value, w);
    }
  }

  lemma {:induction false} BucketsConserve(fmt: Format, measure: Measure, agg: Agg, path: seq<string>,
                                           items: seq<Item>, ks: seq<string>)
    requires path != [] && LeadsToHistogram(agg, path) && Totals(measure, agg, path, items)
    ensures BucketTotal(measure, path, BucketsFor(fmt, agg, items, ks))
         == KeySum(fmt, agg, items, ks, Weights(fmt, measure, agg.aggs[path[0]], path[1..]))
    decreases |path|, 0, |ks|
  {
    if ks != [] {
      var g, bs := Group(fmt, agg, items, ks[0]), BucketsFor(fmt, agg, items, ks);
      LeavesConserve(fmt, measure, agg.aggs[path[0]], path[1..], g);
      BucketsConserve(fmt, measure, agg, path, items, ks[1..]);
      assert bs[0] == BucketOf(fmt, agg, items, ks[0]) && bs[1..] == BucketsFor(fmt, agg, items, ks[1..]);
      assert bs[0].aggs == SubValues(fmt, agg, g);
      assert bs[0].aggs[path[0]] == AggValue(fmt, agg.aggs[path[0]], g);
    }
  }

  /** Main result: for every path of every tree, the leaves at its end total the sum,
      over the items, of the product across levels of the number of distinct keys. */
  lemma {:induction false} LeavesConserve(fmt: Format, measure: Measure, agg: Agg, path: seq<string>, items: seq<Item>)
    requires LeadsToHistogram(agg, path) && Totals(measure, agg, path, items)
    ensures LeafTotal(measure, path, AggValue(fmt, agg, items)) == SumBy(items, Weights(fmt, measure, agg, path))
    decreases |path|, 1
  {
    if path == [] {
      LeafConserves(fmt, measure, agg, items);
    } else {
      var keys := KeySet(fmt, agg, items);
      var ks := Listing(keys);
      var w := Weights(fmt, measure, agg.aggs[path[0]], path[1..]);
      BucketsConserve(fmt, measure, agg, path, items, ks);
      AscendingNoDuplicates(ks);
      DoubleCounting(fmt, agg, items, ks, w);
      AllKeysWeigh(fmt, measure, agg, path, items);
    }
  }

  lemma KeyedWithin(fmt: Format, measure: Measure, agg: Agg, path: seq<string>, keys: set<string>, item: Item)
    requires path != [] && LeadsToHistogram(agg, path) && ItemKeys(fmt, agg, item) <= keys
    ensures KeyedWeight(fmt, agg, keys, Weights(fmt, measure, agg.aggs[path[0]], path[1..]))(item)
         == Weight(fmt, measure, agg, path, item)
  {
    var w := Weights(fmt, measure, agg.aggs[path[0]], path[1..]);
    assert w(item) == Weight(fmt, measure, agg.aggs[path[0]], path[1..], item);
    assert ItemKeys(fmt, agg, item) * keys == ItemKeys(fmt, agg, item);
  }

  lemma AllKeysWeigh(fmt: Format, measure: Measure, agg: Agg, path: seq<string>, items: seq<Item>)
    requires path != [] && LeadsToHistogram(agg, path)
    ensures var w := Weights(fmt, measure, agg.aggs[path[0]], path[1..]);
      SumBy(items, KeyedWeight(fmt, agg, KeySet(fmt, agg, items), w)) == SumBy(items, Weights(fmt, measure, agg, path))
  {
    var keys, w := KeySet(fmt, agg, items), Weights(fmt, measure, agg.aggs[path[0]], path[1..]);
    forall x | x in items ensures KeyedWeight(fmt, agg, keys, w)(x) == Weights(fmt, measure, agg, path)(x) {
      var i :| 0 <= i < |items| && items[i] == x;
      assert ItemKeys(fmt, agg, items[i]) <= keys;
      KeyedWithin(fmt, measure, agg, path, keys, x);
    }
    SumBySame(items, KeyedWeight(fmt, agg, keys, w), Weights(fmt, measure, agg, path));
  }

  /** One key at every level and a value at the leaf. */
  ghost predicate OneKeyEach(fmt: Format, agg: Agg, path: seq<string>, item: Item)
    requires LeadsToHistogram(agg, path)
  {
    if path == [] then agg.field in item
    else |ItemKeys(fmt, agg, item)| == 1 && OneKeyEach(fmt, agg.aggs[path[0]], path[1..], item)
  }

  lemma {:induction false} OneKeyWeighsOne(fmt: Format, agg: Agg, path: seq<string>, item: Item)
    requires LeadsToHistogram(agg, path) && OneKeyEach(fmt, agg, path, item)
    ensures Weight(fmt, Count, agg, path, item) == 1.0
  {
    if path != [] {
      OneKeyWeighsOne(fmt, agg.aggs[path[0]], path[1..], item);
    }
  }

  // ---- the items behind the leaves

  /** The leaves of the result tree at the end of `path`, from left to right. */
  ghost function Leaves(path: seq<string>, r: AggResult): seq<AggResult>
    decreases |path|, 0, 0
  {
    if path == [] then [r] else BucketLeaves(path, r.buckets)
  }

  ghost function BucketLeaves(path: seq<string>, bs: seq<Bucket>): seq<AggResult>
    requires path != []
    decreases |path| - 1, 1, |bs|
  {
    if bs == [] then []
    else (if path[0] in bs[0].aggs then Leaves(path[1..], bs[0].aggs[path[0]]) else []) + BucketLeaves(path, bs[1..])
  }

  function LeafAt(agg: Agg, path: seq<string>): Agg
    requires LeadsToHistogram(agg, path)
    decreases |path|
  {
    if path == [] then agg else LeafAt(agg.aggs[path[0]], path[1..])
  }

  /** The items observed at each leaf, from left to right. */
  ghost function LeafGroups(fmt: Format, agg: Agg, path: seq<string>, items: seq<Item>): seq<seq<Item>>
    requires LeadsToHistogram(agg, path)
    decreases |path|, 1
  {
    if path == [] then [Select(items, Observed(agg))]
    else KeyedLeafGroups(fmt, agg, path, items, Listing(KeySet(fmt, agg, items)))
  }

  ghost function KeyedLeafGroups(fmt: Format, agg: Agg, path: seq<string>, items: seq<Item>, ks: seq<string>)
    : seq<seq<Item>>
    requires path != [] && LeadsToHistogram(agg, path)
    decreases |path|, 0, |ks|
  {
    if ks == [] then []
    else LeafGroups(fmt, agg.aggs[path[0]], path[1..], Group(fmt, agg, items, ks[0]))
         + KeyedLeafGroups(fmt, agg, path, items, ks[1..])
  }

  function Summary(leaf: Agg): seq<Item> -> AggResult {
    (group: seq<Item>) => HistogramResult(leaf, group)
  }

  lemma {:induction false} ObservedSummary(leaf: Agg, items: seq<Item>)
    ensures HistogramResult(leaf, Select(items, Observed(leaf))) == HistogramResult(leaf, items)
  {
    var seen, bounds := Select(items, Observed(leaf)), StableSort(leaf.bounds, Below());
    SelectAll(seen, Observed(leaf));
    forall i | 0 <= i < |bounds| ensures HistogramBuckets(leaf, seen)[i] == HistogramBuckets(leaf, items)[i] {
      SelectSelect(items, Observed(leaf), AtMost(leaf, bounds[i]), AtMost(leaf, bounds[i]));
    }
    assert HistogramBuckets(leaf, seen) == HistogramBuckets(leaf, items);
  }

  lemma MapConcat<S, T>(s: seq<S>, t: seq<S>, f: S -> T)
    ensures Map(s + t, f) == Map(s, f) + Map(t, f)
  {
  }

  /** Each leaf summarises its own group of items. */
  lemma {:induction false} LeavesSummariseGroups(fmt: Format, agg: Agg, path: seq<string>, items: seq<Item>)
    requires LeadsToHistogram(agg, path)
    ensures Leaves(path, AggValue(fmt, agg, items))
         == Map(LeafGroups(fmt, agg, path, items), Summary(LeafAt(agg, path)))
    decreases |path|, 1
  {
    if path == [] {
      ObservedSummary(agg, items);
    } else {
      BucketsSummariseGroups(fmt, agg, path, items, Listing(KeySet(fmt, agg, items)));
    }
  }

  lemma {:induction false} BucketsSummariseGroups(fmt: Format, agg: Agg, path: seq<string>, items: seq<Item>,
                                                  ks: seq<string>)
    requires path != [] && LeadsToHistogram(agg, path)
    ensures BucketLeaves(path, BucketsFor(fmt, agg, items, ks))
         == Map(KeyedLeafGroups(fmt, agg, path, items, ks), Summary(LeafAt(agg, path)))
    decreases |path|, 0, |ks|
  {
    if ks != [] {
      var sub, g, bs := agg.aggs[path[0]], Group(fmt, agg, items, ks[0]), BucketsFor(fmt, agg, items, ks);
      LeavesSummariseGroups(fmt, sub, path[1..], g);
      BucketsSummariseGroups(fmt, agg, path, items, ks[1..]);
      assert bs[0] == BucketOf(fmt, agg, items, ks[0]) && bs[1..] == BucketsFor(fmt, agg, items, ks[1..]);
      assert bs[0].aggs == SubValues(fmt, agg, g);
      MapConcat(LeafGroups(fmt, sub, path[1..], g), KeyedLeafGroups(fmt, agg, path, items, ks[1..]),
                Summary(LeafAt(agg, path)));
    }
  }

  /** In how many places an item is observed: the product of its key counts. */
  ghost function Copies(fmt: Format, agg: Agg, path: seq<string>, item: Item): nat
    requires LeadsToHistogram(agg, path)
    decreases |path|
  {
    if path == [] then (if agg.field in item then 1 else 0)
    else |ItemKeys(fmt, agg, item)| * Copies(fmt, agg.aggs[path[0]], path[1..], item)
  }

  /** The copies under one more key, and those under the others. */
  lemma OneMoreCopy(total: nat, head: nat, rest: nat, n: nat, keys: nat, copies: nat, has: bool)
    requires total == head + rest && head == (if has then n else 0) * copies && rest == n * (keys * copies)
    ensures total == n * ((keys + if has then 1 else 0) * copies)
  {
    assert (keys + 1) * copies == keys * copies + copies;
  }

  lemma KeyedHead(fmt: Format, agg: Agg, path: seq<string>, items: seq<Item>, ks: seq<string>, x: Item)
    requires path != [] && LeadsToHistogram(agg, path) && ks != []
    ensures multiset(Flat(KeyedLeafGroups(fmt, agg, path, items, ks)))[x]
         == multiset(Flat(LeafGroups(fmt, agg.aggs[path[0]], path[1..], Group(fmt, agg, items, ks[0]))))[x]
            + multiset(Flat(KeyedLeafGroups(fmt, agg, path, items, ks[1..])))[x]
  {
    FlatConcat(LeafGroups(fmt, agg.aggs[path[0]], path[1..], Group(fmt, agg, items, ks[0])),
               KeyedLeafGroups(fmt, agg, path, items, ks[1..]));
  }

  lemma {:induction false} KeyedMultiplicity(fmt: Format, agg: Agg, path: seq<string>, items: seq<Item>,
                                             ks: seq<string>,
                                             x: Item)
    requires path != [] && LeadsToHistogram(agg, path) && NoDuplicates(ks)
    ensures multiset(Flat(KeyedLeafGroups(fmt, agg, path, items, ks)))[x]
         == multiset(items)[x] * (|ItemKeys(fmt, agg, x) * Elements(ks)| * Copies(fmt, agg.aggs[path[0]], path[1..], x))
    decreases |path|, 0, |ks|
  {
    if ks == [] {
      assert ItemKeys(fmt, agg, x) * Elements(ks) == {};
    } else {
      LeafMultiplicity(fmt, agg.aggs[path[0]], path[1..], Group(fmt, agg, items, ks[0]), x);
      KeyedMultiplicity(fmt, agg, path, items, ks[1..], x);
      OneMoreKeyCopies(fmt, agg, path, items, ks, x);
    }
  }

  lemma {:induction false} OneMoreKeyCopies(fmt: Format, agg: Agg, path: seq<string>, items: seq<Item>, ks: seq<string>,
                                            x: Item)
    requires path != [] && LeadsToHistogram(agg, path) && NoDuplicates(ks) && ks != []
    requires var sub, g := agg.aggs[path[0]], Group(fmt, agg, items, ks[0]);
      multiset(Flat(LeafGroups(fmt, sub, path[1..], g)))[x] == multiset(g)[x] * Copies(fmt, sub, path[1..], x)
    requires multiset(Flat(KeyedLeafGroups(fmt, agg, path, items, ks[1..])))[x]
          == multiset(items)[x]
             * (|ItemKeys(fmt, agg, x) * Elements(ks[1..])| * Copies(fmt, agg.aggs[path[0]], path[1..], x))
    ensures multiset(Flat(KeyedLeafGroups(fmt, agg, path, items, ks)))[x]
         == multiset(items)[x] * (|ItemKeys(fmt, agg, x) * Elements(ks)| * Copies(fmt, agg.aggs[path[0]], path[1..], x))
  {
    var keys, sub, g := ItemKeys(fmt, agg, x), agg.aggs[path[0]], Group(fmt, agg, items, ks[0]);
    var head, rest := multiset(Flat(LeafGroups(fmt, sub, path[1..], g)))[x],
                      multiset(Flat(KeyedLeafGroups(fmt, agg, path, items, ks[1..])))[x];
    KeyedHead(fmt, agg, path, items, ks, x);
    SelectMultiplicity(items, HasKey(fmt, agg, ks[0]), x);
    KeysSplit(keys, ks);
    OneMoreCopy(head + rest, head, rest, multiset(items)[x], |keys * Elements(ks[1..])|,
                Copies(fmt, sub, path[1..], x), ks[0] in keys);
  }

  lemma KeysSplit(keys: set<string>, ks: seq<string>)
    requires ks != [] && NoDuplicates(ks)
    ensures |keys * Elements(ks)| == |keys * Elements(ks[1..])| + if ks[0] in keys then 1 else 0
  {
    var k, rest := ks[0], Elements(ks[1..]);
    assert Elements(ks) == rest + {k} && k !in rest;
    if k in keys {
      assert keys * Elements(ks) == keys * rest + {k};
    } else {
      assert keys * Elements(ks) == keys * rest;
    }
  }

  lemma {:induction false} OneLeafMultiplicity(fmt: Format, agg: Agg, items: seq<Item>, x: Item)
    requires agg.op == Histogram
    ensures multiset(Flat(LeafGroups(fmt, agg, [], items)))[x] == multiset(items)[x] * Copies(fmt, agg, [], x)
  {
    var seen := Select(items, Observed(agg));
    SelectMultiplicity(items, Observed(agg), x);
    FlatOne(seen);
    assert LeafGroups(fmt, agg, [], items) == [seen];
    TimesBit(multiset(items)[x], agg.field in x);
  }

  lemma TimesBit(n: nat, bit: bool)
    ensures n * (if bit then 1 else 0) == if bit then n else 0
  {
  }

  lemma KeysOfMember(fmt: Format, agg: Agg, items: seq<Item>, x: Item)
    requires x in items
    ensures ItemKeys(fmt, agg, x) * KeySet(fmt, agg, items) == ItemKeys(fmt, agg, x)
  {
    var i :| 0 <= i < |items| && items[i] == x;
    assert ItemKeys(fmt, agg, items[i]) <= KeySet(fmt, agg, items);
  }

  /** Main result: an item is observed at the leaves as often as the product, over the
      levels, of the number of its distinct keys: nowhere else, and never lost. */
  lemma {:induction false} LeafMultiplicity(fmt: Format, agg: Agg, path: seq<string>, items: seq<Item>, x: Item)
    requires LeadsToHistogram(agg, path)
    ensures multiset(Flat(LeafGroups(fmt, agg, path, items)))[x] == multiset(items)[x] * Copies(fmt, agg, path, x)
    decreases |path|, 1
  {
    if path == [] {
      OneLeafMultiplicity(fmt, agg, items, x);
    } else {
      var ks := Listing(KeySet(fmt, agg, items));
      AscendingNoDuplicates(ks);
      KeyedMultiplicity(fmt, agg, path, items, ks, x);
      if x in items {
        KeysOfMember(fmt, agg, items, x);
      }
    }
  }

  lemma {:induction false} OneKeyOneCopy(fmt: Format, agg: Agg, path: seq<string>, item: Item)
    requires LeadsToHistogram(agg, path) && OneKeyEach(fmt, agg, path, item)
    ensures Copies(fmt, agg, path, item) == 1
  {
    if path != [] {
      OneKeyOneCopy(fmt, agg.aggs[path[0]], path[1..], item);
    }
  }

  lemma SameMultiplicities<T>(s: seq<T>, t: seq<T>)
    requires forall x :: multiset(s)[x] == multiset(t)[x]
    ensures Permutation(s, t)
  {
  }

  /** With scalar fields only, the leaves partition the items: each leaf summarises a group
      of them, and every item is in one group only, as often as among the items. */
  lemma {:induction false} ScalarLeavesPartition(fmt: Format, agg: Agg, path: seq<string>, items: seq<Item>)
    requires LeadsToHistogram(agg, path) && forall x :: x in items ==> OneKeyEach(fmt, agg, path, x)
    ensures Leaves(path, AggValue(fmt, agg, items))
         == Map(LeafGroups(fmt, agg, path, items), Summary(LeafAt(agg, path)))
    ensures Permutation(Flat(LeafGroups(fmt, agg, path, items)), items)
    ensures LeafTotal(Count, path, AggValue(fmt, agg, items)) == |items| as real
  {
    LeavesSummariseGroups(fmt, agg, path, items);
    ScalarGroupsPartition(fmt, agg, path, items);
    LeavesConserve(fmt, Count, agg, path, items);
    forall x | x in items ensures Weights(fmt, Count, agg, path)(x) == 1.0 {
      OneKeyWeighsOne(fmt, agg, path, x);
    }
    SumOnes(items, Weights(fmt, Count, agg, path));
  }

  lemma {:induction false} ScalarGroupsPartition(fmt: Format, agg: Agg, path: seq<string>, items: seq<Item>)
    requires LeadsToHistogram(agg, path) && forall x :: x in items ==> OneKeyEach(fmt, agg, path, x)
    ensures Permutation(Flat(LeafGroups(fmt, agg, path, items)), items)
  {
    forall x ensures multiset(Flat(LeafGroups(fmt, agg, path, items)))[x] == multiset(items)[x] {
      OneCopyEach(fmt, agg, path, items, x);
    }
    SameMultiplicities(Flat(LeafGroups(fmt, agg, path, items)), items);
  }

  lemma {:induction false} OneCopyEach(fmt: Format, agg: Agg, path: seq<string>, items: seq<Item>, x: Item)
    requires LeadsToHistogram(agg, path) && (x in items ==> OneKeyEach(fmt, agg, path, x))
    ensures multiset(Flat(LeafGroups(fmt, agg, path, items)))[x] == multiset(items)[x]
  {
    LeafMultiplicity(fmt, agg, path, items, x);
    if x in items {
      OneKeyOneCopy(fmt, agg, path, x);
    } else {
      assert multiset(items)[x] == 0;
    }
  }
}
