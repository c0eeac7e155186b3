/** Laws of the aggregation engine: evaluation is a homomorphism from
    concatenation to merging, the order of items matters in one way only, and a
    bucket is what a filter would have selected. */
module AggregationLaws {
  import opened Seqs
  import opened Sorting
  import opened Ordering
  import opened Values
  import opened Printing
  import opened Aggregation

  // ---- merging two result trees

  ghost function Merge(fmt: Format, agg: Agg, a: AggResult, b: AggResult): AggResult
    decreases agg, 2
  {
    var buckets := if agg.op == Histogram then AddBuckets(a.buckets, b.buckets)
                   else MergeBuckets(fmt, agg, a.buckets, b.buckets);
    AggResult(buckets, a.docCount + b.docCount, a.sum + b.sum)
  }

  /** Histogram buckets are added bound by bound. */
  function AddBuckets(xs: seq<Bucket>, ys: seq<Bucket>): seq<Bucket> {
    if xs == [] || ys == [] then []
    else [Bucket(xs[0].key, xs[0].docCount + ys[0].docCount, map[])] + AddBuckets(xs[1..], ys[1..])
  }

  /** Keyed buckets are merged like sorted lists; equal printed keys become one bucket. */
  ghost function MergeBuckets(fmt: Format, agg: Agg, xs: seq<Bucket>, ys: seq<Bucket>): seq<Bucket>
    decreases agg, 1, |xs| + |ys|
  {
    if xs == [] then ys
    else if ys == [] then xs
    else
      var kx, ky := Sprint(fmt, xs[0].key), Sprint(fmt, ys[0].key);
      if kx == ky then
        [Bucket(xs[0].key, xs[0].docCount + ys[0].docCount, MergeSubs(fmt, agg, xs[0].aggs, ys[0].aggs))]
        + MergeBuckets(fmt, agg, xs[1..], ys[1..])
      else if StrLt(kx, ky) then [xs[0]] + MergeBuckets(fmt, agg, xs[1..], ys)
      else [ys[0]] + MergeBuckets(fmt, agg, xs, ys[1..])
  }

  /** Sub-trees are merged name by name. */
  ghost function MergeSubs(fmt: Format, agg: Agg, a: map<string, AggResult>, b: map<string, AggResult>)
    : map<string, AggResult>
    decreases agg, 0
  {
    map n | n in agg.aggs && n in a && n in b :: Merge(fmt, agg.aggs[n], a[n], b[n])
  }

  // ---- the homomorphism

  lemma NoneRejectedConcat(agg: Agg, xs: seq<Item>, ys: seq<Item>)
    ensures NoneRejected(agg, xs + ys) <==> NoneRejected(agg, xs) && NoneRejected(agg, ys)
  {
    if NoneRejected(agg, xs + ys) {
      forall i | 0 <= i < |xs| ensures !Rejects(agg, xs[i]) {
        assert xs[i] == (xs + ys)[i];
      }
      forall i | 0 <= i < |ys| ensures !Rejects(agg, ys[i]) {
        assert ys[i] == (xs + ys)[|xs| + i];
      }
    }
  }

  /** Evaluation of the concatenation succeeds exactly when both parts do. */
  lemma {:induction false} OkConcat(fmt: Format, agg: Agg, xs: seq<Item>, ys: seq<Item>)
    ensures AggOk(fmt, agg, xs + ys) <==> AggOk(fmt, agg, xs) && AggOk(fmt, agg, ys)
    decreases agg, 1
  {
    NoneRejectedConcat(agg, xs, ys);
    if agg.op == Terms || agg.op == DateHistogram {
      KeySetConcat(fmt, agg, xs, ys);
      forall k | k in KeySet(fmt, agg, xs + ys)
        ensures SubsOk(fmt, agg, Group(fmt, agg, xs + ys, k)) <==>
                  (k in KeySet(fmt, agg, xs) ==> SubsOk(fmt, agg, Group(fmt, agg, xs, k)))
                  && (k in KeySet(fmt, agg, ys) ==> SubsOk(fmt, agg, Group(fmt, agg, ys, k)))
      {
        var gx, gy := Group(fmt, agg, xs, k), Group(fmt, agg, ys, k);
        GroupConcat(fmt, agg, xs, ys, k);
        KeyHasGroup(fmt, agg, xs, k);
        KeyHasGroup(fmt, agg, ys, k);
        if gx == [] {
          assert gx + gy == gy;
        } else if gy == [] {
          assert gx + gy == gx;
        } else {
          SubsOkConcat(fmt, agg, gx, gy);
        }
      }
    }
  }

  lemma {:induction false} SubsOkConcat(fmt: Format, agg: Agg, xs: seq<Item>, ys: seq<Item>)
    ensures SubsOk(fmt, agg, xs + ys) <==> SubsOk(fmt, agg, xs) && SubsOk(fmt, agg, ys)
    decreases agg, 0
  {
    forall n | n in agg.aggs
      ensures AggOk(fmt, agg.aggs[n], xs + ys) <==> AggOk(fmt, agg.aggs[n], xs) && AggOk(fmt, agg.aggs[n], ys)
    {
      OkConcat(fmt, agg.aggs[n], xs, ys);
    }
  }

  /** A bucket's key prints as the key it was filed under. */
  lemma KeyPrints(fmt: Format, agg: Agg, items: seq<Item>, k: string)
    requires k in KeySet(fmt, agg, items)
    ensures Sprint(fmt, BucketOf(fmt, agg, items, k).key) == k
  {
    KeyHasGroup(fmt, agg, items, k);
    assert Group(fmt, agg, items, k)[0] in Group(fmt, agg, items, k);
  }

  function Present(fmt: Format, agg: Agg, items: seq<Item>): string -> bool {
    k => k in KeySet(fmt, agg, items)
  }

  lemma FirstKeyConcat(agg: Agg, gx: seq<Item>, gy: seq<Item>, k: string)
    ensures FirstKey(agg, gx + gy, k) == if gx != [] then FirstKey(agg, gx, k) else FirstKey(agg, gy, k)
  {
    assert gx == [] ==> gx + gy == gy;
  }

  /** The bucket of a concatenation, from the buckets of its parts. */
  lemma {:induction false} BucketConcat(fmt: Format, agg: Agg, xs: seq<Item>, ys: seq<Item>, k: string)
    ensures var b, b1, b2 := BucketOf(fmt, agg, xs + ys, k), BucketOf(fmt, agg, xs, k), BucketOf(fmt, agg, ys, k);
      && (k !in KeySet(fmt, agg, xs) ==> b == b2)
      && (k !in KeySet(fmt, agg, ys) ==> b == b1)
      && (k in KeySet(fmt, agg, xs) && k in KeySet(fmt, agg, ys) ==>
            b == Bucket(b1.key, b1.docCount + b2.docCount, MergeSubs(fmt, agg, b1.aggs, b2.aggs)))
    decreases agg, 1
  {
    var gx, gy := Group(fmt, agg, xs, k), Group(fmt, agg, ys, k);
    GroupConcat(fmt, agg, xs, ys, k);
    KeyHasGroup(fmt, agg, xs, k);
    KeyHasGroup(fmt, agg, ys, k);
    FirstKeyConcat(agg, gx, gy, k);
    assert gx == [] ==> gx + gy == gy;
    assert gy == [] ==> gx + gy == gx;
    SubValuesConcat(fmt, agg, gx, gy);
  }

  lemma {:induction false} SubValuesConcat(fmt: Format, agg: Agg, xs: seq<Item>, ys: seq<Item>)
    ensures SubValues(fmt, agg, xs + ys) == MergeSubs(fmt, agg, SubValues(fmt, agg, xs), SubValues(fmt, agg, ys))
    decreases agg, 0
  {
    forall n | n in agg.aggs
      ensures AggValue(fmt, agg.aggs[n], xs + ys)
           == Merge(fmt, agg.aggs[n], AggValue(fmt, agg.aggs[n], xs), AggValue(fmt, agg.aggs[n], ys))
    {
      ValueConcat(fmt, agg.aggs[n], xs, ys);
    }
  }

  /** The buckets of those keys of ks that occur in the items. */
  ghost function Kept(fmt: Format, agg: Agg, items: seq<Item>, ks: seq<string>): seq<Bucket> {
    BucketsFor(fmt, agg, items, Select(ks, Present(fmt, agg, items)))
  }

  /** Merging the bucket lists over any ascending list of candidate keys. */
  lemma {:induction false} MergeOver(fmt: Format, agg: Agg, xs: seq<Item>, ys: seq<Item>, ks: seq<string>)
    requires Ascending(ks)
    ensures MergeBuckets(fmt, agg, Kept(fmt, agg, xs, ks), Kept(fmt, agg, ys, ks)) == Kept(fmt, agg, xs + ys, ks)
    decreases agg, 2, |ks|
  {
    if ks != [] {
      MergeOver(fmt, agg, xs, ys, ks[1..]);
      BucketConcat(fmt, agg, xs, ys, ks[0]);
      MergeOverHead(fmt, agg, xs, ys, ks);
    }
  }

  lemma MergeOverHead(fmt: Format, agg: Agg, xs: seq<Item>, ys: seq<Item>, ks: seq<string>)
    requires ks != [] && Ascending(ks)
    requires var k, b, b1, b2 := ks[0], BucketOf(fmt, agg, xs + ys, ks[0]),
                                 BucketOf(fmt, agg, xs, ks[0]), BucketOf(fmt, agg, ys, ks[0]);
      && (k !in KeySet(fmt, agg, xs) ==> b == b2)
      && (k !in KeySet(fmt, agg, ys) ==> b == b1)
      && (k in KeySet(fmt, agg, xs) && k in KeySet(fmt, agg, ys) ==>
            b == Bucket(b1.key, b1.docCount + b2.docCount, MergeSubs(fmt, agg, b1.aggs, b2.aggs)))
    requires MergeBuckets(fmt, agg, Kept(fmt, agg, xs, ks[1..]), Kept(fmt, agg, ys, ks[1..]))
          == Kept(fmt, agg, xs + ys, ks[1..])
    ensures MergeBuckets(fmt, agg, Kept(fmt, agg, xs, ks), Kept(fmt, agg, ys, ks)) == Kept(fmt, agg, xs + ys, ks)
  {
    var k := ks[0];
    KeySetConcat(fmt, agg, xs, ys);
    KeptHead(fmt, agg, xs, ks);
    KeptHead(fmt, agg, ys, ks);
    KeptHead(fmt, agg, xs + ys, ks);
    MergeHeads(fmt, agg, k in KeySet(fmt, agg, xs), BucketOf(fmt, agg, xs, k), Kept(fmt, agg, xs, ks[1..]),
               k in KeySet(fmt, agg, ys), BucketOf(fmt, agg, ys, k), Kept(fmt, agg, ys, ks[1..]),
               BucketOf(fmt, agg, xs + ys, k));
  }

  /** A bucket put before the others, if its key occurs. */
  function Headed(occurs: bool, b: Bucket, rest: seq<Bucket>): seq<Bucket> {
    if occurs then [b] + rest else rest
  }

  lemma MergeHeads(fmt: Format, agg: Agg, inX: bool, b: Bucket, bs: seq<Bucket>, inY: bool, c: Bucket, cs: seq<Bucket>,
                   d: Bucket)
    requires inX && inY ==>
               && Sprint(fmt, b.key) == Sprint(fmt, c.key)
               && d == Bucket(b.key, b.docCount + c.docCount, MergeSubs(fmt, agg, b.aggs, c.aggs))
    requires inX && !inY ==> d == b && (cs != [] ==> StrLt(Sprint(fmt, b.key), Sprint(fmt, cs[0].key)))
    requires inY && !inX ==> d == c && (bs != [] ==> StrLt(Sprint(fmt, c.key), Sprint(fmt, bs[0].key)))
    ensures MergeBuckets(fmt, agg, Headed(inX, b, bs), Headed(inY, c, cs))
         == Headed(inX || inY, d, MergeBuckets(fmt, agg, bs, cs))
  {
    if inX && inY {
      MergeBoth(fmt, agg, b, bs, c, cs);
    } else if inX {
      MergeLeft(fmt, agg, b, bs, cs);
    } else if inY {
      MergeRight(fmt, agg, bs, c, cs);
    }
  }

  lemma MergeBoth(fmt: Format, agg: Agg, b: Bucket, bs: seq<Bucket>, c: Bucket, cs: seq<Bucket>)
    requires Sprint(fmt, b.key) == Sprint(fmt, c.key)
    ensures MergeBuckets(fmt, agg, [b] + bs, [c] + cs)
         == [Bucket(b.key, b.docCount + c.docCount, MergeSubs(fmt, agg, b.aggs, c.aggs))]
            + MergeBuckets(fmt, agg, bs, cs)
  {
    assert ([b] + bs)[1..] == bs && ([c] + cs)[1..] == cs;
  }

  lemma MergeLeft(fmt: Format, agg: Agg, b: Bucket, bs: seq<Bucket>, cs: seq<Bucket>)
    requires cs != [] ==> StrLt(Sprint(fmt, b.key), Sprint(fmt, cs[0].key))
    ensures MergeBuckets(fmt, agg, [b] + bs, cs) == [b] + MergeBuckets(fmt, agg, bs, cs)
  {
    assert ([b] + bs)[1..] == bs;
    if cs != [] {
      StrLtAsymmetric(Sprint(fmt, b.key), Sprint(fmt, cs[0].key));
    }
  }

  lemma MergeRight(fmt: Format, agg: Agg, bs: seq<Bucket>, c: Bucket, cs: seq<Bucket>)
    requires bs != [] ==> StrLt(Sprint(fmt, c.key), Sprint(fmt, bs[0].key))
    ensures MergeBuckets(fmt, agg, bs, [c] + cs) == [c] + MergeBuckets(fmt, agg, bs, cs)
  {
    assert ([c] + cs)[1..] == cs;
    if bs != [] {
      StrLtAsymmetric(Sprint(fmt, c.key), Sprint(fmt, bs[0].key));
    }
  }

  /** The kept buckets of a key list, from those of its tail. */
  lemma KeptHead(fmt: Format, agg: Agg, items: seq<Item>, ks: seq<string>)
    requires ks != [] && Ascending(ks)
    ensures var rest := Kept(fmt, agg, items, ks[1..]);
      && Kept(fmt, agg, items, ks) == Headed(ks[0] in KeySet(fmt, agg, items), BucketOf(fmt, agg, items, ks[0]), rest)
      && (rest != [] ==> StrLt(ks[0], Sprint(fmt, rest[0].key)))
      && (ks[0] in KeySet(fmt, agg, items) ==> Sprint(fmt, BucketOf(fmt, agg, items, ks[0]).key) == ks[0])
  {
    var p := Present(fmt, agg, items);
    var s := Select(ks[1..], p);
    if p(ks[0]) {
      SelectHead(ks, p);
      KeyPrints(fmt, agg, items, ks[0]);
    } else {
      assert Select(ks, p) == s;
    }
    if s != [] {
      assert s[0] in s;
      KeyPrints(fmt, agg, items, s[0]);
    }
  }

  lemma SelectHead<T>(s: seq<T>, p: T -> bool)
    requires s != [] && p(s[0])
    ensures Select(s, p) != [] && Select(s, p)[0] == s[0] && Select(s, p)[1..] == Select(s[1..], p)
  {
  }

  lemma PresentKeys(fmt: Format, agg: Agg, items: seq<Item>, ks: seq<string>)
    requires Ascending(ks) && KeySet(fmt, agg, items) <= Elements(ks)
    ensures Select(ks, Present(fmt, agg, items)) == Listing(KeySet(fmt, agg, items))
  {
    var s := Select(ks, Present(fmt, agg, items));
    SelectAscending(ks, Present(fmt, agg, items));
    assert Elements(s) == KeySet(fmt, agg, items);
    ListingOf(s, KeySet(fmt, agg, items));
  }

  lemma {:induction false} SelectAscending(ks: seq<string>, p: string -> bool)
    requires Ascending(ks)
    ensures Ascending(Select(ks, p))
  {
    if ks != [] {
      SelectAscending(ks[1..], p);
      forall k | k in Select(ks[1..], p) ensures StrLt(ks[0], k) {
        assert k in ks[1..];
      }
    }
  }

  lemma {:induction false} AddBucketsPointwise(xs: seq<Bucket>, ys: seq<Bucket>)
    requires |xs| == |ys|
    ensures |AddBuckets(xs, ys)| == |xs|
    ensures forall i :: 0 <= i < |xs| ==>
              AddBuckets(xs, ys)[i] == Bucket(xs[i].key, xs[i].docCount + ys[i].docCount, map[])
  {
    if xs != [] {
      AddBucketsPointwise(xs[1..], ys[1..]);
    }
  }

  lemma HistogramBucketConcat(agg: Agg, xs: seq<Item>, ys: seq<Item>, b: real)
    ensures HistogramBucket(agg, xs + ys, b).docCount
         == HistogramBucket(agg, xs, b).docCount + HistogramBucket(agg, ys, b).docCount
  {
    SelectConcat(xs, ys, AtMost(agg, b));
    Distribute(multiset(agg.bounds)[b], |Select(xs, AtMost(agg, b))|, |Select(ys, AtMost(agg, b))|);
  }

  lemma HistogramBucketsConcat(agg: Agg, xs: seq<Item>, ys: seq<Item>)
    ensures HistogramBuckets(agg, xs + ys) == AddBuckets(HistogramBuckets(agg, xs), HistogramBuckets(agg, ys))
  {
    var b1, b2, bounds := HistogramBuckets(agg, xs), HistogramBuckets(agg, ys), StableSort(agg.bounds, Below());
    AddBucketsPointwise(b1, b2);
    forall i | 0 <= i < |bounds| ensures HistogramBuckets(agg, xs + ys)[i] == AddBuckets(b1, b2)[i] {
      HistogramBucketConcat(agg, xs, ys, bounds[i]);
    }
  }

  lemma HistogramConcat(agg: Agg, xs: seq<Item>, ys: seq<Item>)
    ensures var h, hx, hy := HistogramResult(agg, xs + ys), HistogramResult(agg, xs), HistogramResult(agg, ys);
      h == AggResult(AddBuckets(hx.buckets, hy.buckets), hx.docCount + hy.docCount, hx.sum + hy.sum)
  {
    SelectConcat(xs, ys, Observed(agg));
    SumByConcat(Select(xs, Observed(agg)), Select(ys, Observed(agg)), Observation(agg));
    HistogramBucketsConcat(agg, xs, ys);
  }

  lemma Distribute(m: nat, a: nat, b: nat)
    ensures m * (a + b) == m * a + m * b
  {
  }

  lemma {:induction false} ValueConcat(fmt: Format, agg: Agg, xs: seq<Item>, ys: seq<Item>)
    ensures AggValue(fmt, agg, xs + ys) == Merge(fmt, agg, AggValue(fmt, agg, xs), AggValue(fmt, agg, ys))
    decreases agg, 3
  {
    if agg.op == Histogram {
      HistogramConcat(agg, xs, ys);
    } else if agg.op != UnknownOp {
      var ks := Listing(KeySet(fmt, agg, xs + ys));
      KeySetConcat(fmt, agg, xs, ys);
      MergeOver(fmt, agg, xs, ys, ks);
      PresentKeys(fmt, agg, xs, ks);
      PresentKeys(fmt, agg, ys, ks);
      PresentKeys(fmt, agg, xs + ys, ks);
    }
  }

  /** Main result: for every tree, evaluating the concatenation of two item lists
      succeeds exactly when both parts do, and is the merge of their results. */
  lemma EvaluationIsHomomorphism(fmt: Format, node: Agg, xs: seq<Item>, ys: seq<Item>)
    ensures SubsOk(fmt, node, xs + ys) <==> SubsOk(fmt, node, xs) && SubsOk(fmt, node, ys)
    ensures SubValues(fmt, node, xs + ys) == MergeSubs(fmt, node, SubValues(fmt, node, xs), SubValues(fmt, node, ys))
  {
    SubsOkConcat(fmt, node, xs, ys);
    SubValuesConcat(fmt, node, xs, ys);
  }
}
