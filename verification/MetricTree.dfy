/** Emission of Prometheus histograms from an aggregation tree: a chain of keyed levels
    with one histogram at the end, walked to one series per leaf. */
module MetricTree {
  import opened Seqs
  import opened Sorting
  import opened Ordering
  import opened Values
  import opened Printing
  import opened Aggregation
  import opened Queries
  import opened OwnerKeys

  /** How a level's bucket key becomes label values. */
  datatype Label = OwnerLabels | TextLabel | OrderLabel

  datatype Level = Level(name: string, op: AggOp, field: string, interval: string, format: string, how: Label)

  datatype Leaf = Leaf(name: string, field: string, bounds: seq<real>)

  datatype Series = Series(labels: seq<string>, count: nat, sum: real, buckets: map<real, nat>)

  function LeafAgg(leaf: Leaf): Agg {
    Agg(Histogram, leaf.field, leaf.bounds, "", "", map[])
  }

  function LevelAgg(levels: seq<Level>, leaf: Leaf): Agg
    requires levels != []
    decreases |levels|, 0
  {
    var l := levels[0];
    Agg(l.op, l.field, [], l.interval, l.format, Chain(levels[1..], leaf))
  }

  /** The query's aggregation tree. */
  function Chain(levels: seq<Level>, leaf: Leaf): map<string, Agg>
    decreases |levels|, 1
  {
    if levels == [] then map[leaf.name := LeafAgg(leaf)]
    else map[levels[0].name := LevelAgg(levels, leaf)]
  }

  // ---- labels

  /** The order of a task, printed with at least two digits. */
  function PadOrder(s: string): string {
    if |s| < 2 then "0" + s else s
  }

  /** A float converted to an integer: cut off towards zero. */
  function Truncated(x: real): int {
    if x >= 0.0 then x.Floor else -(-x).Floor
  }

  datatype LabelOutcome = Labels(values: seq<string>) | Skip | Fail

  /** A key of the wrong type stops the walk; an owner key without separator skips its bucket. */
  function ParseKey(how: Label, key: Val): LabelOutcome {
    match how
    case OrderLabel =>
      (match key
       case Int(n) => Labels([PadOrder(Decimal(n))])
       case Int64(n) => Labels([PadOrder(Decimal(n))])
       case Float64(x) => Labels([PadOrder(Decimal(Truncated(x)))])
       case _ => Fail)
    case TextLabel => if key.Str? then Labels([key.str]) else Fail
    case OwnerLabels =>
      if !key.Str? then Fail
      else
        match SplitOwnerKey(key.str)
        case None => Skip
        case Some((team, comp)) => Labels([team, comp])
  }

  /** The usual way to write n, filled up to two characters with a zero in front. */
  ghost predicate PaddedInteger(s: string, n: int) {
    if |s| == 2 && s[0] == '0' then PlainInteger(s[1..], n) else |s| >= 2 && PlainInteger(s, n)
  }

  lemma PaddedIs(s: string, n: int)
    ensures PaddedInteger(s, n) <==> s == PadOrder(Decimal(n))
  {
    DecimalReads(n);
    PlainIntegerPrints(s, n);
    if |s| == 2 && s[0] == '0' {
      PlainIntegerPrints(s[1..], n);
      assert s == "0" + s[1..];
    }
  }

  lemma TruncatedTowardsZero(x: real)
    ensures if x >= 0.0 then Truncated(x) as real <= x < Truncated(x) as real + 1.0
            else Truncated(x) as real - 1.0 < x <= Truncated(x) as real
  {
  }

  /** A number as an integer, cut off towards zero. */
  ghost predicate CutOff(key: Val, n: int) {
    match key
    case Int(m) => n == m
    case Int64(m) => n == m
    case Float64(x) => if x >= 0.0 then n as real <= x < n as real + 1.0 else n as real - 1.0 < x <= n as real
    case _ => false
  }

  /** What the labels of a key are: an owner key is cut at its first separator, and skipped if it
      has none; an order is a padded integer; and a key of another type stops the walk. */
  lemma {:induction false} KeyBecomesLabels(how: Label, key: Val)
    ensures match how
            case TextLabel => ParseKey(how, key) == if key.Str? then Labels([key.str]) else Fail
            case OwnerLabels =>
              (match ParseKey(how, key)
               case Fail => !key.Str?
               case Skip => key.Str? && '|' !in key.str
               case Labels(values) =>
                 |values| == 2 && key == Str(values[0] + "|" + values[1]) && '|' !in values[0])
            case OrderLabel =>
              match ParseKey(how, key)
              case Fail => !key.Int? && !key.Int64? && !key.Float64?
              case Skip => false
              case Labels(values) => |values| == 1 && exists n :: CutOff(key, n) && PaddedInteger(values[0], n)
  {
    match how
    case TextLabel =>
    case OwnerLabels =>
      if key.Str? {
        JoinSplit(key.str);
      }
    case OrderLabel =>
      match key
      case Int(n) => PaddedIs(PadOrder(Decimal(n)), n); assert CutOff(key, n);
      case Int64(n) => PaddedIs(PadOrder(Decimal(n)), n); assert CutOff(key, n);
      case Float64(x) =>
        TruncatedTowardsZero(x);
        PaddedIs(PadOrder(Decimal(Truncated(x))), Truncated(x));
        assert CutOff(key, Truncated(x));
      case _ =>
  }

  // ---- the walk

  function SubBuckets(aggs: map<string, AggResult>, name: string): seq<Bucket> {
    if name in aggs then aggs[name].buckets else []
  }

  /** Upper bound to cumulative count; None if a key is not a number. */
  function BucketMap(bs: seq<Bucket>): Option<map<real, nat>> {
    if bs == [] then Some(map[])
    else
      var last := bs[|bs| - 1];
      match BucketMap(bs[..|bs| - 1])
      case None => None
      case Some(m) => if last.key.Float64? then Some(m[last.key.x := last.docCount]) else None
  }

  /** What the walk emits below one result, and whether it ended well. */
  function Walk(levels: seq<Level>, leaf: Leaf, labels: seq<string>, aggs: map<string, AggResult>): Stream<Series>
    decreases |levels|, 1, 0
  {
    if levels == [] then
      if leaf.name !in aggs then Stream([], true)
      else
        match BucketMap(aggs[leaf.name].buckets)
        case None => Stream([], false)
        case Some(m) => Stream([Series(labels, aggs[leaf.name].docCount, aggs[leaf.name].sum, m)], true)
    else
      WalkBuckets(levels, leaf, labels, SubBuckets(aggs, levels[0].name))
  }

  function WalkBuckets(levels: seq<Level>, leaf: Leaf, labels: seq<string>, bs: seq<Bucket>): Stream<Series>
    requires levels != []
    decreases |levels|, 0, |bs|
  {
    if bs == [] then Stream([], true)
    else
      var before := WalkBuckets(levels, leaf, labels, bs[..|bs| - 1]);
      if !before.ok then before
      else
        match ParseKey(levels[0].how, bs[|bs| - 1].key)
        case Fail => Stream(before.emitted, false)
        case Skip => before
        case Labels(values) =>
          var here := Walk(levels[1..], leaf, labels + values, bs[|bs| - 1].aggs);
          Stream(before.emitted + here.emitted, here.ok)
  }

  /** The innermost loop's body: one series, unless there is no histogram. */
  method EmitLeaf(leaf: Leaf, labels: seq<string>, aggs: map<string, AggResult>) returns (r: Stream<Series>)
    ensures r == Walk([], leaf, labels, aggs)
  {
    if leaf.name !in aggs {
      return Stream([], true);
    }
    var m := ExtractBucketMap(aggs[leaf.name].buckets);
    if m.None? {
      return Stream([], false);
    }
    return Stream([Series(labels, aggs[leaf.name].docCount, aggs[leaf.name].sum, m.value)], true);
  }

  /** The nested loops, one per level. */
  method Emit(levels: seq<Level>, leaf: Leaf, labels: seq<string>, aggs: map<string, AggResult>)
    returns (r: Stream<Series>)
    ensures r == Walk(levels, leaf, labels, aggs)
    decreases |levels|
  {
    if levels == [] {
      r := EmitLeaf(leaf, labels, aggs);
      return;
    }
    var bs := SubBuckets(aggs, levels[0].name);
    var emitted: seq<Series> := [];
    for i := 0 to |bs|
      invariant WalkBuckets(levels, leaf, labels, bs[..i]) == Stream(emitted, true)
      invariant forall j :: 0 <= j < i ==> WalkBuckets(levels, leaf, labels, bs[..j]).ok
    {
      assert bs[..i + 1][..i] == bs[..i];
      match ParseKey(levels[0].how, bs[i].key)
      case Fail =>
        FailStaysFailed(levels, leaf, labels, bs, i + 1);
        return Stream(emitted, false);
      case Skip =>
      case Labels(values) =>
        var here := Emit(levels[1..], leaf, labels + values, bs[i].aggs);
        emitted := emitted + here.emitted;
        if !here.ok {
          FailStaysFailed(levels, leaf, labels, bs, i + 1);
          return Stream(emitted, false);
        }
    }
    assert bs[..|bs|] == bs;
    return Stream(emitted, true);
  }

  lemma {:induction false} FailStaysFailed(levels: seq<Level>, leaf: Leaf, labels: seq<string>, bs: seq<Bucket>, i: nat)
    requires levels != [] && i <= |bs| && !WalkBuckets(levels, leaf, labels, bs[..i]).ok
    ensures WalkBuckets(levels, leaf, labels, bs) == WalkBuckets(levels, leaf, labels, bs[..i])
    decreases |bs| - i
  {
    if i < |bs| {
      assert bs[..i + 1][..i] == bs[..i];
      FailStaysFailed(levels, leaf, labels, bs, i + 1);
    } else {
      assert bs[..i] == bs;
    }
  }

  method ExtractBucketMap(bs: seq<Bucket>) returns (r: Option<map<real, nat>>)
    ensures r == BucketMap(bs)
  {
    var m: map<real, nat> := map[];
    for i := 0 to |bs|
      invariant BucketMap(bs[..i]) == Some(m)
    {
      assert bs[..i + 1][..i] == bs[..i];
      if !bs[i].key.Float64? {
        NoneStaysNone(bs, i + 1);
        return None;
      }
      m := m[bs[i].key.x := bs[i].docCount];
    }
    assert bs[..|bs|] == bs;
    return Some(m);
  }

  lemma {:induction false} NoneStaysNone(bs: seq<Bucket>, i: nat)
    requires i <= |bs| && BucketMap(bs[..i]).None?
    ensures BucketMap(bs).None?
    decreases |bs| - i
  {
    if i < |bs| {
      assert bs[..i + 1][..i] == bs[..i];
      NoneStaysNone(bs, i + 1);
    } else {
      assert bs[..i] == bs;
    }
  }

  // ---- the tree as received

  /** A key read back from JSON: every number is a float64, a time is a string. */
  function KeyJSON(fmt: Format, key: Val): Val {
    match key
    case Int(n) => Float64(n as real)
    case Int64(n) => Float64(n as real)
    case Float32(x) => Float64(x)
    case Time(t) => Str(fmt.timeJSON(t))
    case _ => key
  }

  function BucketJSON(fmt: Format, b: Bucket): Bucket {
    Bucket(KeyJSON(fmt, b.key), b.docCount, map n | n in b.aggs :: ResultJSON(fmt, b.aggs[n]))
  }

  function ResultJSON(fmt: Format, r: AggResult): AggResult {
    AggResult(seq(|r.buckets|, i requires 0 <= i < |r.buckets| => BucketJSON(fmt, r.buckets[i])), r.docCount, r.sum)
  }

  /** The named results as they arrive over the network. */
  function ReadBack(fmt: Format, aggs: map<string, AggResult>): map<string, AggResult> {
    map n | n in aggs :: ResultJSON(fmt, aggs[n])
  }

  function BucketsJSON(fmt: Format, bs: seq<Bucket>): seq<Bucket> {
    Map(bs, (b: Bucket) => BucketJSON(fmt, b))
  }

  /** Nothing but what JSON can carry: no integers of Go, no times, at any depth. */
  ghost predicate JSONResult(r: AggResult)
    decreases r
  {
    forall i :: 0 <= i < |r.buckets| ==> JSONBucket(r.buckets[i])
  }

  ghost predicate JSONBucket(b: Bucket)
    decreases b
  {
    (b.key.Nil? || b.key.Str? || b.key.Float64? || b.key.Bool? || b.key.StrList?)
    && forall n :: n in b.aggs ==> JSONResult(b.aggs[n])
  }

  lemma {:induction false} ReadBackIsJSON(fmt: Format, r: AggResult)
    ensures JSONResult(ResultJSON(fmt, r))
    decreases r
  {
    forall i | 0 <= i < |r.buckets| ensures JSONBucket(BucketJSON(fmt, r.buckets[i])) {
      BucketBackIsJSON(fmt, r.buckets[i]);
    }
  }

  lemma {:induction false} BucketBackIsJSON(fmt: Format, b: Bucket)
    ensures JSONBucket(BucketJSON(fmt, b))
    decreases b
  {
    forall n | n in b.aggs ensures JSONResult(BucketJSON(fmt, b).aggs[n]) {
      ReadBackIsJSON(fmt, b.aggs[n]);
    }
  }

  /** A number keeps its value, and every other key but a time is left as it is. */
  lemma KeysSurvive(fmt: Format, key: Val)
    ensures match KeyJSON(fmt, key)
            case Float64(x) => Measures(key, x)
            case Str(s) => key == Str(s) || (key.Time? && s == fmt.timeJSON(key.at))
            case back => back == key
  {
  }

  lemma TruncatedWhole(n: int)
    ensures Truncated(n as real) == n
  {
    assert -(n as real) == (-n) as real;
  }

  /** A key that gives labels gives the same ones after JSON: whole numbers come back. */
  lemma ParseKeyReadBack(fmt: Format, how: Label, key: Val)
    requires ParseKey(how, key) != Fail
    ensures ParseKey(how, KeyJSON(fmt, key)) == ParseKey(how, key)
  {
    match key
    case Int(n) => TruncatedWhole(n);
    case Int64(n) => TruncatedWhole(n);
    case _ =>
  }

  lemma BucketsJSONPrefix(fmt: Format, bs: seq<Bucket>, n: nat)
    requires n <= |bs|
    ensures BucketsJSON(fmt, bs)[..n] == BucketsJSON(fmt, bs[..n])
  {
  }

  lemma {:induction false} BucketMapReadBack(fmt: Format, bs: seq<Bucket>)
    requires BucketMap(bs).Some?
    ensures BucketMap(BucketsJSON(fmt, bs)) == BucketMap(bs)
  {
    if bs != [] {
      BucketsJSONPrefix(fmt, bs, |bs| - 1);
      BucketMapReadBack(fmt, bs[..|bs| - 1]);
    }
  }

  lemma ResultReadBack(fmt: Format, aggs: map<string, AggResult>, name: string)
    ensures SubBuckets(ReadBack(fmt, aggs), name) == BucketsJSON(fmt, SubBuckets(aggs, name))
  {
    if name in aggs {
      assert SubBuckets(ReadBack(fmt, aggs), name) == ResultJSON(fmt, aggs[name]).buckets;
    }
  }

  /** Main result: the tree may take the way over JSON: a walk that ends well sends the very
      same series from the tree read back. */
  lemma {:induction false} WalkReadBack(fmt: Format, levels: seq<Level>, leaf: Leaf, labels: seq<string>,
                                        aggs: map<string, AggResult>)
    requires Walk(levels, leaf, labels, aggs).ok
    ensures Walk(levels, leaf, labels, ReadBack(fmt, aggs)) == Walk(levels, leaf, labels, aggs)
    decreases |levels|, 1, 0
  {
    if levels == [] {
      if leaf.name in aggs {
        ResultReadBack(fmt, aggs, leaf.name);
        BucketMapReadBack(fmt, aggs[leaf.name].buckets);
      }
    } else {
      ResultReadBack(fmt, aggs, levels[0].name);
      WalkBucketsReadBack(fmt, levels, leaf, labels, SubBuckets(aggs, levels[0].name));
    }
  }

  lemma {:induction false} WalkBucketsReadBack(fmt: Format, levels: seq<Level>, leaf: Leaf, labels: seq<string>,
                                               bs: seq<Bucket>)
    requires levels != [] && WalkBuckets(levels, leaf, labels, bs).ok
    ensures WalkBuckets(levels, leaf, labels, BucketsJSON(fmt, bs)) == WalkBuckets(levels, leaf, labels, bs)
    decreases |levels|, 0, |bs|
  {
    if bs != [] {
      var n := |bs| - 1;
      BucketsJSONPrefix(fmt, bs, n);
      WalkBucketsReadBack(fmt, levels, leaf, labels, bs[..n]);
      ParseKeyReadBack(fmt, levels[0].how, bs[n].key);
      match ParseKey(levels[0].how, bs[n].key)
      case Labels(values) => WalkReadBack(fmt, levels[1..], leaf, labels + values, bs[n].aggs);
      case _ =>
    }
  }

  // ---- what is emitted

  /** The labels of a printed key. */
  function KeyLabels(how: Label, k: string): seq<string> {
    match how
    case TextLabel => [k]
    case OrderLabel => [PadOrder(k)]
    case OwnerLabels =>
      match SplitOwnerKey(k)
      case None => []
      case Some((team, comp)) => [team, comp]
  }

  /** The key, printed k, is text or a whole number as the label asks, and parses into labels. */
  predicate KeyTyped(how: Label, key: Val, k: string) {
    ParseKey(how, key) == Labels(KeyLabels(how, k)) && (how == OrderLabel ==> !key.Float64?)
  }

  /** Every item has, at this level, keys that parse into labels. */
  ghost predicate LevelTyped(fmt: Format, agg: Agg, how: Label, items: seq<Item>) {
    && (agg.op == Terms || agg.op == DateHistogram)
    && forall x, k :: x in items && k in ItemKeys(fmt, agg, x) ==> KeyTyped(how, RawKey(agg, x, k), k)
  }

  ghost predicate Typed(fmt: Format, levels: seq<Level>, leaf: Leaf, items: seq<Item>)
    decreases |levels|
  {
    levels != [] ==>
      && LevelTyped(fmt, LevelAgg(levels, leaf), levels[0].how, items)
      && Typed(fmt, levels[1..], leaf, items)
  }

  /** The item has key ks[i] at every level i. */
  predicate HasKeys(fmt: Format, levels: seq<Level>, leaf: Leaf, ks: seq<string>, item: Item)
    decreases |levels|
  {
    && |ks| == |levels|
    && (levels != [] ==>
          && ks[0] in ItemKeys(fmt, LevelAgg(levels, leaf), item)
          && HasKeys(fmt, levels[1..], leaf, ks[1..], item))
  }

  function HasAll(fmt: Format, levels: seq<Level>, leaf: Leaf, ks: seq<string>): Item -> bool {
    item => HasKeys(fmt, levels, leaf, ks, item)
  }

  /** The key tuples some item has, in the order the walk meets them. */
  ghost function Tuples(fmt: Format, levels: seq<Level>, leaf: Leaf, items: seq<Item>): seq<seq<string>>
    decreases |levels|, 1, 0
  {
    if levels == [] then [[]]
    else TuplesOver(fmt, levels, leaf, items, Listing(KeySet(fmt, LevelAgg(levels, leaf), items)))
  }

  function Prefixed(k: string): seq<string> -> seq<string> {
    ks => [k] + ks
  }

  ghost function TuplesOver(fmt: Format, levels: seq<Level>, leaf: Leaf, items: seq<Item>, keys: seq<string>)
    : seq<seq<string>>
    requires levels != []
    decreases |levels|, 0, |keys|
  {
    if keys == [] then []
    else
      var k := keys[|keys| - 1];
      TuplesOver(fmt, levels, leaf, items, keys[..|keys| - 1])
      + Map(Tuples(fmt, levels[1..], leaf, Group(fmt, LevelAgg(levels, leaf), items, k)), Prefixed(k))
  }

  function TupleLabels(levels: seq<Level>, ks: seq<string>): seq<string>
    decreases |levels|
  {
    if levels == [] || ks == [] then [] else KeyLabels(levels[0].how, ks[0]) + TupleLabels(levels[1..], ks[1..])
  }

  /** The histogram of exactly the items given, under the given labels. */
  ghost function SeriesOf(labels: seq<string>, leaf: Leaf, items: seq<Item>): Series {
    var h := HistogramResult(LeafAgg(leaf), items);
    Series(labels, h.docCount, h.sum, match BucketMap(h.buckets) case Some(m) => m case None => map[])
  }

  /** The series of one key tuple: the histogram of exactly the items having its keys. */
  ghost function SeriesFor(fmt: Format, levels: seq<Level>, leaf: Leaf, labels: seq<string>, items: seq<Item>,
                           ks: seq<string>): Series
  {
    SeriesOf(labels + TupleLabels(levels, ks), leaf, Select(items, HasAll(fmt, levels, leaf, ks)))
  }

  ghost function AllSeries(fmt: Format, levels: seq<Level>, leaf: Leaf, labels: seq<string>, items: seq<Item>,
                           ts: seq<seq<string>>): (r: seq<Series>)
    ensures |r| == |ts|
  {
    if ts == [] then []
    else
      AllSeries(fmt, levels, leaf, labels, items, ts[..|ts| - 1])
      + [SeriesFor(fmt, levels, leaf, labels, items, ts[|ts| - 1])]
  }

  lemma {:induction false} AllSeriesAt(fmt: Format, levels: seq<Level>, leaf: Leaf, labels: seq<string>,
                                       items: seq<Item>,
                                       ts: seq<seq<string>>, i: nat)
    requires i < |ts|
    ensures AllSeries(fmt, levels, leaf, labels, items, ts)[i] == SeriesFor(fmt, levels, leaf, labels, items, ts[i])
  {
    if i < |ts| - 1 {
      AllSeriesAt(fmt, levels, leaf, labels, items, ts[..|ts| - 1], i);
    }
  }

  lemma {:induction false} AllSeriesConcat(fmt: Format, levels: seq<Level>, leaf: Leaf, labels: seq<string>,
                                           items: seq<Item>, ts: seq<seq<string>>, us: seq<seq<string>>)
    ensures AllSeries(fmt, levels, leaf, labels, items, ts + us)
         == AllSeries(fmt, levels, leaf, labels, items, ts) + AllSeries(fmt, levels, leaf, labels, items, us)
  {
    if us == [] {
      assert ts + us == ts;
    } else {
      var init := us[..|us| - 1];
      assert (ts + us)[..|ts + us| - 1] == ts + init;
      AllSeriesConcat(fmt, levels, leaf, labels, items, ts, init);
    }
  }

  lemma {:induction false} HistogramKeysAreNumbers(bs: seq<Bucket>)
    requires forall i :: 0 <= i < |bs| ==> bs[i].key.Float64?
    ensures BucketMap(bs).Some?
  {
    if bs != [] {
      HistogramKeysAreNumbers(bs[..|bs| - 1]);
    }
  }

  lemma EmptyTupleSelectsAll(fmt: Format, leaf: Leaf, items: seq<Item>)
    ensures Select(items, HasAll(fmt, [], leaf, [])) == items
  {
    SelectAll(items, HasAll(fmt, [], leaf, []));
  }

  /** Below one key: a tuple of the group, prefixed, selects from all what it selects from the group. */
  lemma {:induction false} SeriesBelowKey(fmt: Format, levels: seq<Level>, leaf: Leaf, labels: seq<string>,
                                          items: seq<Item>, k: string,
                                          ks: seq<string>)
    requires levels != []
    ensures SeriesFor(fmt, levels, leaf, labels, items, [k] + ks)
         == SeriesFor(fmt, levels[1..], leaf, labels + KeyLabels(levels[0].how, k),
                      Group(fmt, LevelAgg(levels, leaf), items, k), ks)
  {
    var agg, tuple := LevelAgg(levels, leaf), [k] + ks;
    assert tuple[1..] == ks;
    assert labels + TupleLabels(levels, tuple) == labels + KeyLabels(levels[0].how, k) + TupleLabels(levels[1..], ks);
    SelectSelect(items, HasKey(fmt, agg, k), HasAll(fmt, levels[1..], leaf, ks), HasAll(fmt, levels, leaf, tuple));
  }

  lemma {:induction false} AllSeriesSnoc(fmt: Format, levels: seq<Level>, leaf: Leaf, labels: seq<string>,
                                         items: seq<Item>,
                                         ts: seq<seq<string>>, t: seq<string>)
    ensures AllSeries(fmt, levels, leaf, labels, items, ts + [t])
         == AllSeries(fmt, levels, leaf, labels, items, ts) + [SeriesFor(fmt, levels, leaf, labels, items, t)]
  {
    assert (ts + [t])[..|ts|] == ts;
  }

  lemma {:induction false} AllSeriesBelowKey(fmt: Format, levels: seq<Level>, leaf: Leaf, labels: seq<string>,
                                             items: seq<Item>, k: string, ts: seq<seq<string>>)
    requires levels != []
    ensures AllSeries(fmt, levels, leaf, labels, items, Map(ts, Prefixed(k)))
         == AllSeries(fmt, levels[1..], leaf, labels + KeyLabels(levels[0].how, k),
                      Group(fmt, LevelAgg(levels, leaf), items, k), ts)
  {
    if ts != [] {
      var init, last := ts[..|ts| - 1], ts[|ts| - 1];
      AllSeriesBelowKey(fmt, levels, leaf, labels, items, k, init);
      SeriesBelowKey(fmt, levels, leaf, labels, items, k, last);
      SplitLast(ts);
      MapSnoc(init, last, Prefixed(k));
      AllSeriesSnoc(fmt, levels, leaf, labels, items, Map(init, Prefixed(k)), [k] + last);
      AllSeriesSnoc(fmt, levels[1..], leaf, labels + KeyLabels(levels[0].how, k),
                    Group(fmt, LevelAgg(levels, leaf), items, k), init, last);
    }
  }

  lemma TypedWithin(fmt: Format, levels: seq<Level>, leaf: Leaf, items: seq<Item>, part: seq<Item>)
    requires Typed(fmt, levels, leaf, items) && forall x :: x in part ==> x in items
    ensures Typed(fmt, levels, leaf, part)
    decreases |levels|
  {
    if levels != [] {
      TypedWithin(fmt, levels[1..], leaf, items, part);
    }
  }

  lemma ChainSub(fmt: Format, levels: seq<Level>, leaf: Leaf, items: seq<Item>)
    requires levels != []
    ensures SubBuckets(SubValues(fmt, Root(Chain(levels, leaf)), items), levels[0].name)
         == AggValue(fmt, LevelAgg(levels, leaf), items).buckets
    ensures forall k ::
              BucketOf(fmt, LevelAgg(levels, leaf), items, k).aggs
              == SubValues(fmt, Root(Chain(levels[1..], leaf)), Group(fmt, LevelAgg(levels, leaf), items, k))
  {
    var agg := LevelAgg(levels, leaf);
    forall g: seq<Item> ensures SubValues(fmt, agg, g) == SubValues(fmt, Root(Chain(levels[1..], leaf)), g) {
      assert agg.aggs == Root(Chain(levels[1..], leaf)).aggs;
    }
  }

  lemma {:induction false} WalkEmitsLeaf(fmt: Format, leaf: Leaf, labels: seq<string>, items: seq<Item>)
    ensures Walk([], leaf, labels, SubValues(fmt, Root(Chain([], leaf)), items))
         == Stream(AllSeries(fmt, [], leaf, labels, items, [[]]), true)
  {
    var aggs := SubValues(fmt, Root(Chain([], leaf)), items);
    assert aggs == map[leaf.name := AggValue(fmt, LeafAgg(leaf), items)];
    HistogramKeysAreNumbers(aggs[leaf.name].buckets);
    EmptyTupleSelectsAll(fmt, leaf, items);
    assert labels + TupleLabels([], []) == labels;
  }

  /** The walk over an evaluated tree emits one series per realised key tuple, and each
      is the histogram of exactly the items that have the tuple's keys. */
  lemma {:induction false} WalkEmitsTuples(fmt: Format, levels: seq<Level>, leaf: Leaf, labels: seq<string>,
                                           items: seq<Item>)
    requires Typed(fmt, levels, leaf, items)
    ensures Walk(levels, leaf, labels, SubValues(fmt, Root(Chain(levels, leaf)), items))
         == Stream(AllSeries(fmt, levels, leaf, labels, items, Tuples(fmt, levels, leaf, items)), true)
    decreases |levels|, 1
  {
    if levels == [] {
      WalkEmitsLeaf(fmt, leaf, labels, items);
    } else {
      var agg := LevelAgg(levels, leaf);
      var keys := Listing(KeySet(fmt, agg, items));
      ChainSub(fmt, levels, leaf, items);
      assert forall i :: 0 <= i < |keys| ==> keys[i] in Elements(keys);
      WalkBucketsEmit(fmt, levels, leaf, labels, items, keys);
    }
  }

  lemma {:induction false} WalkBucketsEmit(fmt: Format, levels: seq<Level>, leaf: Leaf, labels: seq<string>,
                                           items: seq<Item>, keys: seq<string>)
    requires levels != [] && Typed(fmt, levels, leaf, items)
    requires forall i :: 0 <= i < |keys| ==> keys[i] in KeySet(fmt, LevelAgg(levels, leaf), items)
    ensures WalkBuckets(levels, leaf, labels, BucketsFor(fmt, LevelAgg(levels, leaf), items, keys))
         == Stream(AllSeries(fmt, levels, leaf, labels, items, TuplesOver(fmt, levels, leaf, items, keys)), true)
    decreases |levels|, 0, |keys|
  {
    if keys != [] {
      var n := |keys| - 1;
      var agg, k, init := LevelAgg(levels, leaf), keys[n], keys[..n];
      var below := Map(Tuples(fmt, levels[1..], leaf, Group(fmt, agg, items, k)), Prefixed(k));
      SplitLast(keys);
      WalkBucketsEmit(fmt, levels, leaf, labels, items, init);
      BucketsForSnoc(fmt, agg, items, init, k);
      KeyParses(fmt, levels, leaf, items, k);
      OneKeyEmits(fmt, levels, leaf, labels, items, k);
      WalkOneMore(levels, leaf, labels, BucketsFor(fmt, agg, items, init), BucketOf(fmt, agg, items, k),
                  KeyLabels(levels[0].how, k));
      AllSeriesConcat(fmt, levels, leaf, labels, items, TuplesOver(fmt, levels, leaf, items, init), below);
    }
  }

  lemma SplitLast<T>(s: seq<T>)
    requires s != []
    ensures s == s[..|s| - 1] + [s[|s| - 1]]
  {
  }

  lemma BucketsForSnoc(fmt: Format, agg: Agg, items: seq<Item>, keys: seq<string>, k: string)
    ensures BucketsFor(fmt, agg, items, keys + [k])
         == BucketsFor(fmt, agg, items, keys) + [BucketOf(fmt, agg, items, k)]
  {
    BucketsForConcat(fmt, agg, items, keys, [k]);
    assert [k][1..] == [];
  }

  lemma WalkOneMore(levels: seq<Level>, leaf: Leaf, labels: seq<string>, bs: seq<Bucket>, b: Bucket,
                    values: seq<string>)
    requires levels != [] && WalkBuckets(levels, leaf, labels, bs).ok
    requires ParseKey(levels[0].how, b.key) == Labels(values)
    ensures var before, here := WalkBuckets(levels, leaf, labels, bs), Walk(levels[1..], leaf, labels + values, b.aggs);
      WalkBuckets(levels, leaf, labels, bs + [b]) == Stream(before.emitted + here.emitted, here.ok)
  {
    assert (bs + [b])[..|bs|] == bs;
  }

  lemma KeyParses(fmt: Format, levels: seq<Level>, leaf: Leaf, items: seq<Item>, k: string)
    requires levels != [] && Typed(fmt, levels, leaf, items) && k in KeySet(fmt, LevelAgg(levels, leaf), items)
    ensures ParseKey(levels[0].how, BucketOf(fmt, LevelAgg(levels, leaf), items, k).key)
         == Labels(KeyLabels(levels[0].how, k))
  {
    var agg := LevelAgg(levels, leaf);
    var g := Group(fmt, agg, items, k);
    KeyHasGroup(fmt, agg, items, k);
    assert g[0] in g;
  }

  lemma {:induction false} OneKeyEmits(fmt: Format, levels: seq<Level>, leaf: Leaf, labels: seq<string>,
                                       items: seq<Item>, k: string)
    requires levels != [] && Typed(fmt, levels, leaf, items)
    ensures var agg := LevelAgg(levels, leaf);
      Walk(levels[1..], leaf, labels + KeyLabels(levels[0].how, k), BucketOf(fmt, agg, items, k).aggs)
         == Stream(AllSeries(fmt, levels, leaf, labels, items,
                             Map(Tuples(fmt, levels[1..], leaf, Group(fmt, agg, items, k)), Prefixed(k))), true)
    decreases |levels| - 1, 2
  {
    var agg := LevelAgg(levels, leaf);
    var g := Group(fmt, agg, items, k);
    var labels' := labels + KeyLabels(levels[0].how, k);
    TypedWithin(fmt, levels[1..], leaf, items, g);
    WalkEmitsTuples(fmt, levels[1..], leaf, labels', g);
    BucketSubs(fmt, levels, leaf, items, k);
    AllSeriesBelowKey(fmt, levels, leaf, labels, items, k, Tuples(fmt, levels[1..], leaf, g));
  }

  lemma BucketSubs(fmt: Format, levels: seq<Level>, leaf: Leaf, items: seq<Item>, k: string)
    requires levels != []
    ensures BucketOf(fmt, LevelAgg(levels, leaf), items, k).aggs
         == SubValues(fmt, Root(Chain(levels[1..], leaf)), Group(fmt, LevelAgg(levels, leaf), items, k))
  {
    ChainSub(fmt, levels, leaf, items);
  }

  // ---- the tuples are the realised ones, each once

  lemma {:induction false} TuplesRealised(fmt: Format, levels: seq<Level>, leaf: Leaf, items: seq<Item>,
                                          ks: seq<string>)
    requires items != [] || levels != []
    ensures ks in Tuples(fmt, levels, leaf, items) <==> exists x :: x in items && HasKeys(fmt, levels, leaf, ks, x)
    decreases |levels|, 1
  {
    if levels == [] {
      assert items[0] in items;
    } else {
      var agg := LevelAgg(levels, leaf);
      var keys := Listing(KeySet(fmt, agg, items));
      assert forall k :: k in keys <==> k in Elements(keys);
      TuplesOverRealised(fmt, levels, leaf, items, keys, ks);
      if x :| x in items && HasKeys(fmt, levels, leaf, ks, x) {
        var i :| 0 <= i < |items| && items[i] == x;
        assert ks[0] in ItemKeys(fmt, agg, items[i]);
      }
    }
  }

  lemma {:induction false} TuplesOverRealised(fmt: Format, levels: seq<Level>, leaf: Leaf, items: seq<Item>,
                                              keys: seq<string>, ks: seq<string>)
    requires levels != [] && forall k :: k in keys ==> k in KeySet(fmt, LevelAgg(levels, leaf), items)
    ensures ks in TuplesOver(fmt, levels, leaf, items, keys)
       <==> ks != [] && ks[0] in keys && exists x :: x in items && HasKeys(fmt, levels, leaf, ks, x)
    decreases |levels|, 0, |keys|
  {
    if keys != [] {
      var agg := LevelAgg(levels, leaf);
      var k, init := keys[|keys| - 1], keys[..|keys| - 1];
      assert keys == init + [k];
      TuplesOverRealised(fmt, levels, leaf, items, init, ks);
      var g := Group(fmt, agg, items, k);
      KeyHasGroup(fmt, agg, items, k);
      if ks != [] {
        TuplesRealised(fmt, levels[1..], leaf, g, ks[1..]);
        PrefixedMembers(Tuples(fmt, levels[1..], leaf, g), k, ks);
        assert forall x :: x in g <==> x in items && k in ItemKeys(fmt, agg, x);
      } else {
        PrefixedMembers(Tuples(fmt, levels[1..], leaf, g), k, ks);
      }
    }
  }

  lemma PrefixedMembers(ts: seq<seq<string>>, k: string, ks: seq<string>)
    ensures ks in Map(ts, Prefixed(k)) <==> ks != [] && ks[0] == k && ks[1..] in ts
  {
    if ks in Map(ts, Prefixed(k)) {
      var i :| 0 <= i < |ts| && Map(ts, Prefixed(k))[i] == ks;
      assert ([k] + ts[i])[1..] == ts[i];
    }
    if ks != [] && ks[0] == k && ks[1..] in ts {
      var i :| 0 <= i < |ts| && ts[i] == ks[1..];
      assert Map(ts, Prefixed(k))[i] == [k] + ks[1..] == ks;
    }
  }

  lemma {:induction false} TuplesDistinct(fmt: Format, levels: seq<Level>, leaf: Leaf, items: seq<Item>)
    ensures NoDuplicates(Tuples(fmt, levels, leaf, items))
    decreases |levels|, 1
  {
    if levels != [] {
      var keys := Listing(KeySet(fmt, LevelAgg(levels, leaf), items));
      AscendingNoDuplicates(keys);
      assert forall k :: k in keys ==> k in Elements(keys);
      TuplesOverDistinct(fmt, levels, leaf, items, keys);
    }
  }

  lemma {:induction false} TuplesOverDistinct(fmt: Format, levels: seq<Level>, leaf: Leaf, items: seq<Item>,
                                              keys: seq<string>)
    requires levels != [] && NoDuplicates(keys)
    requires forall k :: k in keys ==> k in KeySet(fmt, LevelAgg(levels, leaf), items)
    ensures NoDuplicates(TuplesOver(fmt, levels, leaf, items, keys))
    decreases |levels|, 0, |keys|
  {
    if keys != [] {
      var k, init := keys[|keys| - 1], keys[..|keys| - 1];
      assert forall l :: l in init ==> l in keys;
      TuplesOverDistinct(fmt, levels, leaf, items, init);
      var before := TuplesOver(fmt, levels, leaf, items, init);
      var ts := Tuples(fmt, levels[1..], leaf, Group(fmt, LevelAgg(levels, leaf), items, k));
      TuplesDistinct(fmt, levels[1..], leaf, Group(fmt, LevelAgg(levels, leaf), items, k));
      PrefixedDistinct(ts, k);
      forall ks | ks in before ensures ks !in Map(ts, Prefixed(k)) {
        TuplesOverRealised(fmt, levels, leaf, items, init, ks);
        PrefixedMembers(ts, k, ks);
        assert k !in init;
      }
      ConcatDistinct(before, Map(ts, Prefixed(k)));
    }
  }

  lemma PrefixedDistinct(ts: seq<seq<string>>, k: string)
    requires NoDuplicates(ts)
    ensures NoDuplicates(Map(ts, Prefixed(k)))
  {
    var ps := Map(ts, Prefixed(k));
    forall i, j | 0 <= i < j < |ps| ensures ps[i] != ps[j] {
      assert ps[i][1..] == ts[i] && ps[j][1..] == ts[j];
    }
  }

  // ---- labels tell tuples apart

  /** The printed keys a level with this label can have. */
  ghost predicate Readable(how: Label, k: string) {
    match how
    case TextLabel => true
    case OwnerLabels => SplitOwnerKey(k).Some?
    case OrderLabel => exists n :: k == Decimal(n)
  }

  lemma PadInjective(m: int, n: int)
    requires PadOrder(Decimal(m)) == PadOrder(Decimal(n))
    ensures Decimal(m) == Decimal(n)
  {
    var s, t := Decimal(m), Decimal(n);
    if |s| < 2 <= |t| {
      PadIsNotDecimal(n, s);
    } else if |t| < 2 <= |s| {
      PadIsNotDecimal(m, t);
    } else if |s| < 2 {
      assert ("0" + s)[1..] == s && ("0" + t)[1..] == t;
    }
  }

  lemma PadIsNotDecimal(n: int, s: string)
    requires |Decimal(n)| >= 2
    ensures "0" + s != Decimal(n)
  {
    DecimalReads(n);
    assert n < 0 ==> Decimal(n)[0] == '-';
    assert ("0" + s)[0] == '0';
  }

  lemma KeyLabelsInjective(how: Label, k: string, l: string)
    requires Readable(how, k) && Readable(how, l) && KeyLabels(how, k) == KeyLabels(how, l)
    ensures k == l
  {
    match how
    case TextLabel => assert KeyLabels(how, k)[0] == k;
    case OrderLabel =>
      var m :| k == Decimal(m);
      var n :| l == Decimal(n);
      assert KeyLabels(how, k)[0] == PadOrder(k) && KeyLabels(how, l)[0] == PadOrder(l);
      PadInjective(m, n);
    case OwnerLabels =>
      assert KeyLabels(how, k)[0] == SplitOwnerKey(k).value.0 && KeyLabels(how, k)[1] == SplitOwnerKey(k).value.1;
      assert KeyLabels(how, l)[0] == SplitOwnerKey(l).value.0 && KeyLabels(how, l)[1] == SplitOwnerKey(l).value.1;
      SplitInjective(k, l);
  }

  ghost predicate ReadableTuple(levels: seq<Level>, ks: seq<string>)
    decreases |levels|
  {
    |ks| == |levels| && (levels != [] ==> Readable(levels[0].how, ks[0]) && ReadableTuple(levels[1..], ks[1..]))
  }

  lemma {:induction false} TupleLabelsInjective(levels: seq<Level>, ks: seq<string>, ls: seq<string>)
    requires ReadableTuple(levels, ks) && ReadableTuple(levels, ls)
    requires TupleLabels(levels, ks) == TupleLabels(levels, ls)
    ensures ks == ls
    decreases |levels|
  {
    if levels != [] {
      var how := levels[0].how;
      var a, b := KeyLabels(how, ks[0]), KeyLabels(how, ls[0]);
      assert |a| == |b| == if how == OwnerLabels then 2 else 1;
      assert TupleLabels(levels, ks)[..|a|] == a && TupleLabels(levels, ls)[..|b|] == b;
      assert TupleLabels(levels, ks)[|a|..] == TupleLabels(levels[1..], ks[1..]);
      assert TupleLabels(levels, ls)[|b|..] == TupleLabels(levels[1..], ls[1..]);
      KeyLabelsInjective(how, ks[0], ls[0]);
      TupleLabelsInjective(levels[1..], ks[1..], ls[1..]);
      assert ks == [ks[0]] + ks[1..] && ls == [ls[0]] + ls[1..];
    }
  }

  /** A key that parsed is readable: text is text, an order is a number, an owner splits. */
  lemma ParsedIsReadable(fmt: Format, agg: Agg, how: Label, x: Item, k: string)
    requires agg.op == Terms || agg.op == DateHistogram
    requires k in ItemKeys(fmt, agg, x) && KeyTyped(how, RawKey(agg, x, k), k)
    ensures Readable(how, k)
  {
    var v := RawKey(agg, x, k);
    assert Sprint(fmt, v) == k;
  }

  lemma {:induction false} RealisedIsReadable(fmt: Format, levels: seq<Level>, leaf: Leaf, items: seq<Item>,
                                              x: Item, ks: seq<string>)
    requires Typed(fmt, levels, leaf, items) && x in items && HasKeys(fmt, levels, leaf, ks, x)
    ensures ReadableTuple(levels, ks)
    decreases |levels|
  {
    if levels != [] {
      ParsedIsReadable(fmt, LevelAgg(levels, leaf), levels[0].how, x, ks[0]);
      RealisedIsReadable(fmt, levels[1..], leaf, items, x, ks[1..]);
    }
  }

  /** A series is the histogram of exactly the items having its keys. */
  ghost predicate IsSeriesOf(fmt: Format, levels: seq<Level>, leaf: Leaf, items: seq<Item>, ks: seq<string>,
                             s: Series) {
    && ReadableTuple(levels, ks) && (exists x :: x in items && HasKeys(fmt, levels, leaf, ks, x))
    && s == SeriesOf(TupleLabels(levels, ks), leaf, Select(items, HasAll(fmt, levels, leaf, ks)))
  }

  ghost predicate IsSomeSeries(fmt: Format, levels: seq<Level>, leaf: Leaf, items: seq<Item>, s: Series) {
    exists ks :: IsSeriesOf(fmt, levels, leaf, items, ks, s)
  }

  lemma TupleHasSeries(fmt: Format, levels: seq<Level>, leaf: Leaf, items: seq<Item>, i: nat)
    requires levels != [] && Typed(fmt, levels, leaf, items) && i < |Tuples(fmt, levels, leaf, items)|
    ensures var r := Walk(levels, leaf, [], SubValues(fmt, Root(Chain(levels, leaf)), items));
      i < |r.emitted| && IsSeriesOf(fmt, levels, leaf, items, Tuples(fmt, levels, leaf, items)[i], r.emitted[i])
  {
    var ts := Tuples(fmt, levels, leaf, items);
    var ks := ts[i];
    assert ks in ts;
    WalkEmitsTuples(fmt, levels, leaf, [], items);
    AllSeriesAt(fmt, levels, leaf, [], items, ts, i);
    TuplesRealised(fmt, levels, leaf, items, ks);
    var x :| x in items && HasKeys(fmt, levels, leaf, ks, x);
    RealisedIsReadable(fmt, levels, leaf, items, x, ks);
    assert [] + TupleLabels(levels, ks) == TupleLabels(levels, ks);
  }

  lemma WalkLength(fmt: Format, levels: seq<Level>, leaf: Leaf, items: seq<Item>)
    requires Typed(fmt, levels, leaf, items)
    ensures var r := Walk(levels, leaf, [], SubValues(fmt, Root(Chain(levels, leaf)), items));
      r.ok && |r.emitted| == |Tuples(fmt, levels, leaf, items)|
  {
    WalkEmitsTuples(fmt, levels, leaf, [], items);
  }

  ghost predicate DistinctLabels(emitted: seq<Series>) {
    forall i, j :: 0 <= i < j < |emitted| ==> emitted[i].labels != emitted[j].labels
  }

  ghost predicate HasSeries(emitted: seq<Series>, labels: seq<string>) {
    exists i :: 0 <= i < |emitted| && emitted[i].labels == labels
  }

  lemma {:induction false} DistinctTuplesDistinctLabels(fmt: Format, levels: seq<Level>, leaf: Leaf, items: seq<Item>,
                                                        ts: seq<seq<string>>, emitted: seq<Series>)
    requires NoDuplicates(ts) && |ts| == |emitted|
    requires forall i :: 0 <= i < |ts| ==> IsSeriesOf(fmt, levels, leaf, items, ts[i], emitted[i])
    ensures DistinctLabels(emitted)
  {
    forall i, j | 0 <= i < j < |ts| ensures emitted[i].labels != emitted[j].labels {
      assert IsSeriesOf(fmt, levels, leaf, items, ts[i], emitted[i]);
      assert IsSeriesOf(fmt, levels, leaf, items, ts[j], emitted[j]);
      if TupleLabels(levels, ts[i]) == TupleLabels(levels, ts[j]) {
        TupleLabelsInjective(levels, ts[i], ts[j]);
      }
    }
  }

  lemma RealisedHasSeries(fmt: Format, levels: seq<Level>, leaf: Leaf, items: seq<Item>,
                          x: Item, ks: seq<string>, emitted: seq<Series>)
    requires levels != [] && x in items && HasKeys(fmt, levels, leaf, ks, x)
    requires |emitted| == |Tuples(fmt, levels, leaf, items)|
    requires forall i :: 0 <= i < |emitted| ==>
               IsSeriesOf(fmt, levels, leaf, items, Tuples(fmt, levels, leaf, items)[i], emitted[i])
    ensures HasSeries(emitted, TupleLabels(levels, ks))
  {
    TuplesRealised(fmt, levels, leaf, items, ks);
    var i :| 0 <= i < |emitted| && Tuples(fmt, levels, leaf, items)[i] == ks;
    assert emitted[i].labels == TupleLabels(levels, ks);
  }

  /** Main result: the walk over an evaluated chain succeeds and emits series with pairwise
      distinct labels; each is the histogram of exactly the items having its keys; and
      every combination of keys that some item has gets its series. */
  lemma EmissionIsExact(fmt: Format, levels: seq<Level>, leaf: Leaf, items: seq<Item>)
    requires levels != [] && Typed(fmt, levels, leaf, items)
    ensures var r := Walk(levels, leaf, [], SubValues(fmt, Root(Chain(levels, leaf)), items));
      && r.ok && DistinctLabels(r.emitted)
      && (forall i :: 0 <= i < |r.emitted| ==> IsSomeSeries(fmt, levels, leaf, items, r.emitted[i]))
      && (forall x, ks :: x in items && HasKeys(fmt, levels, leaf, ks, x) ==>
            HasSeries(r.emitted, TupleLabels(levels, ks)))
  {
    var r := Walk(levels, leaf, [], SubValues(fmt, Root(Chain(levels, leaf)), items));
    var ts := Tuples(fmt, levels, leaf, items);
    WalkLength(fmt, levels, leaf, items);
    TuplesDistinct(fmt, levels, leaf, items);
    forall i | 0 <= i < |ts|
      ensures IsSeriesOf(fmt, levels, leaf, items, ts[i], r.emitted[i])
      ensures IsSomeSeries(fmt, levels, leaf, items, r.emitted[i])
    {
      TupleHasSeries(fmt, levels, leaf, items, i);
    }
    DistinctTuplesDistinctLabels(fmt, levels, leaf, items, ts, r.emitted);
    forall x, ks | x in items && HasKeys(fmt, levels, leaf, ks, x)
      ensures HasSeries(r.emitted, TupleLabels(levels, ks))
    {
      RealisedHasSeries(fmt, levels, leaf, items, x, ks, r.emitted);
    }
  }
}
