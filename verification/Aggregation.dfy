/** The aggregation tree and its meaning: when an aggregation fails, and the result
    it denotes.  A bucket holds the items that have its key, in order; buckets are
    listed by ascending printed key. */
module Aggregation {
  import opened Seqs
  import opened Sorting
  import opened Ordering
  import opened Values
  import opened Printing

  datatype AggOp = Terms | DateHistogram | Histogram | UnknownOp

  datatype Agg = Agg(op: AggOp, field: string, bounds: seq<real>, interval: string, format: string,
                     aggs: map<string, Agg>)

  datatype AggResult = AggResult(buckets: seq<Bucket>, docCount: nat, sum: real)

  datatype Bucket = Bucket(key: Val, docCount: nat, aggs: map<string, AggResult>)

  const RFC3339 := "2006-01-02T15:04:05Z07:00"

  /** The node whose sub-aggregations are `aggs`: the root of a query's tree. */
  function Root(aggs: map<string, Agg>): Agg {
    Agg(Terms, "", [], "", "", aggs)
  }

  // ---- keys

  function Layout(agg: Agg): string {
    if agg.format == "" then RFC3339 else agg.format
  }

  /** The printed keys under which an item is filed.  A list files it once under
      each distinct element; an empty list, or a date field that is absent, nowhere. */
  function ItemKeys(fmt: Format, agg: Agg, item: Item): set<string> {
    if agg.op == DateHistogram then
      if agg.field in item && item[agg.field].Time?
      then {fmt.date(item[agg.field].at, agg.interval, Layout(agg))} else {}
    else
      var v := Field(item, agg.field);
      if v.StrList? then set e | e in v.elems else {Sprint(fmt, v)}
  }

  /** The value behind the printed key k of an item. */
  function RawKey(agg: Agg, item: Item, k: string): Val {
    var v := Field(item, agg.field);
    if agg.op == DateHistogram || v.StrList? then Str(k) else v
  }

  function HasKey(fmt: Format, agg: Agg, k: string): Item -> bool {
    item => k in ItemKeys(fmt, agg, item)
  }

  function KeySet(fmt: Format, agg: Agg, items: seq<Item>): set<string> {
    set i, k | 0 <= i < |items| && k in ItemKeys(fmt, agg, items[i]) :: k
  }

  function Group(fmt: Format, agg: Agg, items: seq<Item>, k: string): seq<Item> {
    Select(items, HasKey(fmt, agg, k))
  }

  /** A bucket shows the key of the first item filed in it. */
  function FirstKey(agg: Agg, group: seq<Item>, k: string): Val {
    if group == [] then Nil else RawKey(agg, group[0], k)
  }

  // ---- observations

  predicate Numeric(v: Val) {
    v.Float64? || v.Float32? || v.Int? || v.Int64?
  }

  function ToFloat(v: Val): real {
    match v
    case Float64(x) => x
    case Float32(x) => x
    case Int(n) => n as real
    case Int64(n) => n as real
    case _ => 0.0
  }

  function Observed(agg: Agg): Item -> bool {
    item => agg.field in item
  }

  function Observation(agg: Agg): Item -> real {
    item => ToFloat(Field(item, agg.field))
  }

  function AtMost(agg: Agg, bound: real): Item -> bool {
    item => agg.field in item && ToFloat(item[agg.field]) <= bound
  }

  function Below(): (real, real) -> bool {
    (a, b) => a < b
  }

  /** A bound listed m times is incremented m times per observation at or below it. */
  function HistogramBucket(agg: Agg, items: seq<Item>, bound: real): Bucket {
    Bucket(Float64(bound), multiset(agg.bounds)[bound] * |Select(items, AtMost(agg, bound))|, map[])
  }

  function HistogramBuckets(agg: Agg, items: seq<Item>): seq<Bucket> {
    Map(StableSort(agg.bounds, Below()), (b: real) => HistogramBucket(agg, items, b))
  }

  function HistogramResult(agg: Agg, items: seq<Item>): AggResult {
    var seen := Select(items, Observed(agg));
    AggResult(HistogramBuckets(agg, items), |seen|, SumBy(seen, Observation(agg)))
  }

  // ---- observations, in the fields

  /** `value` gives the number that each of these items with the field holds there. */
  ghost predicate Measured(items: seq<Item>, field: string, value: Item -> real) {
    forall x: Item :: x in items && field in x ==> Measures(x[field], value(x))
  }

  function HasField(field: string): Item -> bool {
    item => field in item
  }

  function HasAtMost(field: string, value: Item -> real, bound: real): Item -> bool {
    item => field in item && value(item) <= bound
  }

  lemma NumericIsMeasured(v: Val)
    ensures Numeric(v) <==> exists x :: Measures(v, x)
    ensures forall x :: Measures(v, x) ==> ToFloat(v) == x
  {
    assert Numeric(v) ==> Measures(v, ToFloat(v));
  }

  lemma AtMostMeasured(agg: Agg, items: seq<Item>, value: Item -> real, bound: real)
    requires Measured(items, agg.field, value)
    ensures Select(items, AtMost(agg, bound)) == Select(items, HasAtMost(agg.field, value, bound))
  {
    forall x | x in items ensures AtMost(agg, bound)(x) == HasAtMost(agg.field, value, bound)(x) {
      NumericIsMeasured(Field(x, agg.field));
    }
    SelectSame(items, AtMost(agg, bound), HasAtMost(agg.field, value, bound));
  }

  lemma ObservedMeasured(agg: Agg, items: seq<Item>, value: Item -> real)
    requires Measured(items, agg.field, value)
    ensures var seen := Select(items, HasField(agg.field));
      Select(items, Observed(agg)) == seen && SumBy(seen, Observation(agg)) == SumBy(seen, value)
  {
    var seen := Select(items, HasField(agg.field));
    SelectSame(items, Observed(agg), HasField(agg.field));
    forall x | x in seen ensures Observation(agg)(x) == value(x) {
      NumericIsMeasured(Field(x, agg.field));
    }
    SumBySame(seen, Observation(agg), value);
  }

  lemma BelowIsOrder(dom: set<real>)
    ensures StrictWeakOrder(dom, Below())
  {
  }

  lemma SortedBounds(agg: Agg)
    ensures var s := StableSort(agg.bounds, Below());
      && |s| == |agg.bounds| && Elements(s) == Elements(agg.bounds) && multiset(s) == multiset(agg.bounds)
      && forall i, j :: 0 <= i < j < |s| ==> s[i] <= s[j]
  {
    var s := StableSort(agg.bounds, Below());
    BelowIsOrder(Elements(agg.bounds));
    SortSpec(agg.bounds, Below());
    PermutationElements(s, agg.bounds);
    forall i, j | 0 <= i < j < |s| ensures s[i] <= s[j] {
      assert !Below()(s[j], s[i]);
    }
  }

  /** The bounds in ascending order, each as often as it is listed, with the values at or below
      it counted once per listing; and how many values there are, and their sum. */
  ghost predicate IsHistogram(r: AggResult, bounds: seq<real>, items: seq<Item>, field: string, value: Item -> real) {
    && r.docCount == |Select(items, HasField(field))| && r.sum == SumBy(Select(items, HasField(field)), value)
    && (forall i :: 0 <= i < |r.buckets| ==> BoundCounted(r.buckets[i], bounds, items, field, value))
    && (forall i, j :: 0 <= i < j < |r.buckets| ==> r.buckets[i].key.x <= r.buckets[j].key.x)
    && multiset(Map(r.buckets, KeyNumber())) == multiset(bounds)
  }

  ghost predicate BoundCounted(b: Bucket, bounds: seq<real>, items: seq<Item>, field: string, value: Item -> real) {
    && b.key.Float64? && b.aggs == map[]
    && b.docCount == multiset(bounds)[b.key.x] * |Select(items, HasAtMost(field, value, b.key.x))|
  }

  function KeyNumber(): Bucket -> real {
    (b: Bucket) => if b.key.Float64? then b.key.x else 0.0
  }

  lemma HistogramOfValues(agg: Agg, items: seq<Item>, value: Item -> real)
    requires Measured(items, agg.field, value)
    ensures IsHistogram(HistogramResult(agg, items), agg.bounds, items, agg.field, value)
  {
    var r, s := HistogramResult(agg, items), StableSort(agg.bounds, Below());
    SortedBounds(agg);
    ObservedMeasured(agg, items, value);
    forall i | 0 <= i < |r.buckets| ensures BoundCounted(r.buckets[i], agg.bounds, items, agg.field, value) {
      AtMostMeasured(agg, items, value, s[i]);
    }
    assert Map(r.buckets, KeyNumber()) == s;
  }

  // ---- failure

  /** The item's field has a type this aggregation rejects. */
  predicate Rejects(agg: Agg, item: Item) {
    agg.field in item
    && ((agg.op == DateHistogram && !item[agg.field].Time?) || (agg.op == Histogram && !Numeric(item[agg.field])))
  }

  ghost predicate NoneRejected(agg: Agg, items: seq<Item>) {
    forall i :: 0 <= i < |items| ==> !Rejects(agg, items[i])
  }

  ghost predicate AggOk(fmt: Format, agg: Agg, items: seq<Item>)
    decreases agg, 1
  {
    match agg.op
    case UnknownOp => false
    case Histogram => agg.bounds != [] && agg.aggs == map[] && NoneRejected(agg, items)
    case _ =>
      && NoneRejected(agg, items)
      && forall k :: k in KeySet(fmt, agg, items) ==> SubsOk(fmt, agg, Group(fmt, agg, items, k))
  }

  ghost predicate SubsOk(fmt: Format, agg: Agg, items: seq<Item>)
    decreases agg, 0
  {
    forall n :: n in agg.aggs ==> AggOk(fmt, agg.aggs[n], items)
  }

  // ---- value

  ghost function AggValue(fmt: Format, agg: Agg, items: seq<Item>): AggResult
    decreases agg, 3
  {
    match agg.op
    case UnknownOp => AggResult([], 0, 0.0)
    case Histogram => HistogramResult(agg, items)
    case _ => AggResult(BucketsFor(fmt, agg, items, Listing(KeySet(fmt, agg, items))), 0, 0.0)
  }

  ghost function BucketsFor(fmt: Format, agg: Agg, items: seq<Item>, ks: seq<string>): (bs: seq<Bucket>)
    ensures |bs| == |ks|
    decreases agg, 2, |ks|
  {
    if ks == [] then [] else [BucketOf(fmt, agg, items, ks[0])] + BucketsFor(fmt, agg, items, ks[1..])
  }

  ghost function BucketOf(fmt: Format, agg: Agg, items: seq<Item>, k: string): Bucket
    decreases agg, 1
  {
    var g := Group(fmt, agg, items, k);
    Bucket(FirstKey(agg, g, k), |g|, SubValues(fmt, agg, g))
  }

  /** The named results of a node's sub-aggregations over the same items. */
  ghost function SubValues(fmt: Format, agg: Agg, items: seq<Item>): map<string, AggResult>
    decreases agg, 0
  {
    map n | n in agg.aggs :: AggValue(fmt, agg.aggs[n], items)
  }

  // ---- the keys of a sequence

  lemma KeySetConcat(fmt: Format, agg: Agg, xs: seq<Item>, ys: seq<Item>)
    ensures KeySet(fmt, agg, xs + ys) == KeySet(fmt, agg, xs) + KeySet(fmt, agg, ys)
  {
    var zs := xs + ys;
    forall i | 0 <= i < |zs| ensures ItemKeys(fmt, agg, zs[i]) <= KeySet(fmt, agg, xs) + KeySet(fmt, agg, ys) {
      assert zs[i] == if i < |xs| then xs[i] else ys[i - |xs|];
    }
    forall i | 0 <= i < |xs| ensures ItemKeys(fmt, agg, xs[i]) <= KeySet(fmt, agg, zs) {
      assert zs[i] == xs[i];
    }
    forall i | 0 <= i < |ys| ensures ItemKeys(fmt, agg, ys[i]) <= KeySet(fmt, agg, zs) {
      assert zs[|xs| + i] == ys[i];
    }
  }

  /** A key is in the key set exactly when its group is not empty. */
  lemma KeyHasGroup(fmt: Format, agg: Agg, items: seq<Item>, k: string)
    ensures k in KeySet(fmt, agg, items) <==> Group(fmt, agg, items, k) != []
  {
    var g := Group(fmt, agg, items, k);
    if k in KeySet(fmt, agg, items) {
      var i :| 0 <= i < |items| && k in ItemKeys(fmt, agg, items[i]);
      assert items[i] in items && HasKey(fmt, agg, k)(items[i]);
    }
    if g != [] {
      assert g[0] in g;
      var i :| 0 <= i < |items| && items[i] == g[0];
    }
  }

  lemma GroupConcat(fmt: Format, agg: Agg, xs: seq<Item>, ys: seq<Item>, k: string)
    ensures Group(fmt, agg, xs + ys, k) == Group(fmt, agg, xs, k) + Group(fmt, agg, ys, k)
  {
    SelectConcat(xs, ys, HasKey(fmt, agg, k));
  }

  lemma {:induction false} BucketAt(fmt: Format, agg: Agg, items: seq<Item>, ks: seq<string>, i: nat)
    requires i < |ks|
    ensures BucketsFor(fmt, agg, items, ks)[i] == BucketOf(fmt, agg, items, ks[i])
  {
    if i > 0 {
      BucketAt(fmt, agg, items, ks[1..], i - 1);
    }
  }

  lemma {:induction false} BucketsForConcat(fmt: Format, agg: Agg, items: seq<Item>, ks: seq<string>, ls: seq<string>)
    ensures BucketsFor(fmt, agg, items, ks + ls) == BucketsFor(fmt, agg, items, ks) + BucketsFor(fmt, agg, items, ls)
  {
    if ks == [] {
      assert ks + ls == ls;
    } else {
      assert (ks + ls)[1..] == ks[1..] + ls;
      BucketsForConcat(fmt, agg, items, ks[1..], ls);
    }
  }
}
