/** The workflow run metric end to end: from stored runs through projection,
    aggregation and the tree walk to what each Prometheus series says about them;
    and the same for any chain of levels over any rows. */
module Metrics {
  import opened Seqs
  import opened Sorting
  import opened Values
  import opened Printing
  import opened Queries
  import opened Aggregation
  import opened BucketLaws
  import opened OwnerKeys
  import opened Ownership
  import opened MetricTree

  // ---- any chain over any rows

  /** The keys of an item at a level. */
  function LevelKeys(fmt: Format, l: Level, item: Item): set<string> {
    ItemKeys(fmt, Agg(l.op, l.field, [], l.interval, l.format, map[]), item)
  }

  /** The row is filed under ks[i] at every level i. */
  function RowHas<T>(fmt: Format, levels: seq<Level>, project: T -> Item, ks: seq<string>): T -> bool {
    row => |ks| == |levels| && forall i :: 0 <= i < |levels| ==> ks[i] in LevelKeys(fmt, levels[i], project(row))
  }

  lemma {:induction false} HasKeysAtEveryLevel(fmt: Format, levels: seq<Level>, leaf: Leaf, ks: seq<string>, item: Item)
    ensures HasKeys(fmt, levels, leaf, ks, item)
       <==> |ks| == |levels| && forall i :: 0 <= i < |levels| ==> ks[i] in LevelKeys(fmt, levels[i], item)
    decreases |levels|
  {
    if levels != [] && |ks| == |levels| {
      HasKeysAtEveryLevel(fmt, levels[1..], leaf, ks[1..], item);
      assert ItemKeys(fmt, LevelAgg(levels, leaf), item) == LevelKeys(fmt, levels[0], item);
      if forall i :: 0 <= i < |levels| ==> ks[i] in LevelKeys(fmt, levels[i], item) {
        forall i | 0 <= i < |levels[1..]| ensures ks[1..][i] in LevelKeys(fmt, levels[1..][i], item) {
          assert ks[i + 1] in LevelKeys(fmt, levels[i + 1], item);
        }
      }
      if HasKeys(fmt, levels, leaf, ks, item) {
        forall i | 0 <= i < |levels| ensures ks[i] in LevelKeys(fmt, levels[i], item) {
          assert i > 0 ==> ks[i] == ks[1..][i - 1] && levels[i] == levels[1..][i - 1];
        }
      }
    }
  }

  /** At this level every row has keys that parse into labels. */
  ghost predicate RowsTyped<T>(fmt: Format, l: Level, rows: seq<T>, project: T -> Item) {
    LevelTyped(fmt, Agg(l.op, l.field, [], l.interval, l.format, map[]), l.how, Map(rows, project))
  }

  lemma {:induction false} TypedAtEveryLevel<T>(fmt: Format, levels: seq<Level>, leaf: Leaf, rows: seq<T>,
                                                project: T -> Item)
    requires forall i :: 0 <= i < |levels| ==> RowsTyped(fmt, levels[i], rows, project)
    ensures Typed(fmt, levels, leaf, Map(rows, project))
    decreases |levels|
  {
    if levels != [] {
      forall i | 0 <= i < |levels[1..]| ensures RowsTyped(fmt, levels[1..][i], rows, project) {
        assert levels[1..][i] == levels[i + 1];
      }
      TypedAtEveryLevel(fmt, levels[1..], leaf, rows, project);
      LevelTypedSame(fmt, LevelAgg(levels, leaf), levels[0], Map(rows, project));
      assert RowsTyped(fmt, levels[0], rows, project);
    }
  }

  lemma LevelTypedSame(fmt: Format, agg: Agg, l: Level, items: seq<Item>)
    requires agg.op == l.op && agg.field == l.field && agg.interval == l.interval && agg.format == l.format
    requires LevelTyped(fmt, Agg(l.op, l.field, [], l.interval, l.format, map[]), l.how, items)
    ensures LevelTyped(fmt, agg, l.how, items)
  {
    var bare := Agg(l.op, l.field, [], l.interval, l.format, map[]);
    forall x, k | x in items && k in ItemKeys(fmt, agg, x)
      ensures KeyTyped(l.how, RawKey(agg, x, k), k)
    {
      assert ItemKeys(fmt, agg, x) == ItemKeys(fmt, bare, x) && RawKey(agg, x, k) == RawKey(bare, x, k);
    }
  }

  function UpTo<T>(value: T -> real, bound: real): T -> bool {
    row => value(row) <= bound
  }

  /** The series is the histogram of exactly these rows: how many, the total of their values, and
      under each bound how many of the values are at or below it. */
  ghost predicate Summarises<T>(s: Series, rows: seq<T>, bounds: seq<real>, value: T -> real) {
    && s.count == |rows| && s.sum == SumBy(rows, value) && s.buckets.Keys == Elements(bounds)
    && forall b :: b in bounds ==> s.buckets[b] == |Select(rows, UpTo(value, b))|
  }

  /** The row holds its value in the field. */
  ghost predicate Holding<T>(row: T, field: string, project: T -> Item, value: T -> real) {
    field in project(row) && Measures(project(row)[field], value(row))
  }

  lemma {:induction false} BucketMapOfDistinct(bs: seq<Bucket>)
    requires forall i :: 0 <= i < |bs| ==> bs[i].key.Float64?
    requires forall i, j :: 0 <= i < j < |bs| ==> bs[i].key.x != bs[j].key.x
    ensures BucketMap(bs).Some?
    ensures forall i :: 0 <= i < |bs| ==>
              bs[i].key.x in BucketMap(bs).value && BucketMap(bs).value[bs[i].key.x] == bs[i].docCount
    ensures forall x :: x in BucketMap(bs).value ==> exists i :: 0 <= i < |bs| && bs[i].key.x == x
  {
    if bs != [] {
      var init := bs[..|bs| - 1];
      BucketMapOfDistinct(init);
      forall x | x in BucketMap(bs).value ensures exists i :: 0 <= i < |bs| && bs[i].key.x == x {
        if x != bs[|bs| - 1].key.x {
          var i :| 0 <= i < |init| && init[i].key.x == x;
          assert bs[i].key.x == x;
        }
      }
      forall i | 0 <= i < |bs|
        ensures bs[i].key.x in BucketMap(bs).value && BucketMap(bs).value[bs[i].key.x] == bs[i].docCount
      {
        if i < |init| {
          assert bs[i] == init[i];
        }
      }
    }
  }

  /** Read as a map, distinct buckets that count n(x) at bound x give n. */
  lemma BucketMapReads(bs: seq<Bucket>, bounds: seq<real>, n: real -> nat)
    requires forall i :: 0 <= i < |bs| ==>
               bs[i].key.Float64? && bs[i].key.x in bounds && bs[i].docCount == n(bs[i].key.x)
    requires forall i, j :: 0 <= i < j < |bs| ==> bs[i].key.x != bs[j].key.x
    requires forall b :: b in bounds ==> exists i :: 0 <= i < |bs| && bs[i].key == Float64(b)
    ensures BucketMap(bs).Some? && BucketMap(bs).value.Keys == Elements(bounds)
    ensures forall b :: b in bounds ==> BucketMap(bs).value[b] == n(b)
  {
    BucketMapOfDistinct(bs);
    forall b | b in bounds ensures b in BucketMap(bs).value && BucketMap(bs).value[b] == n(b) {
      var i :| 0 <= i < |bs| && bs[i].key == Float64(b);
    }
    forall b | b in BucketMap(bs).value ensures b in Elements(bounds) {
      var i :| 0 <= i < |bs| && bs[i].key.x == b;
    }
  }

  function CountAtMost(field: string, value: Item -> real, items: seq<Item>): real -> nat {
    bound => |Select(items, HasAtMost(field, value, bound))|
  }

  /** A series over items that all hold a value, for distinct bounds. */
  lemma {:induction false} SeriesOfValues(fmt: Format, labels: seq<string>, leaf: Leaf, items: seq<Item>,
                                          value: Item -> real)
    requires NoDuplicates(leaf.bounds)
    requires forall x :: x in items ==> leaf.field in x && Measures(x[leaf.field], value(x))
    ensures var s := SeriesOf(labels, leaf, items);
      && s.count == |items| && s.sum == SumBy(items, value) && s.buckets.Keys == Elements(leaf.bounds)
      && forall b :: b in leaf.bounds ==> s.buckets[b] == |Select(items, HasAtMost(leaf.field, value, b))|
  {
    var agg := LeafAgg(leaf);
    HistogramIsCumulative(fmt, agg, items, value);
    SelectAll(items, HasField(leaf.field));
    BucketMapReads(AggValue(fmt, agg, items).buckets, leaf.bounds, CountAtMost(leaf.field, value, items));
    assert forall b :: CountAtMost(leaf.field, value, items)(b) == |Select(items, HasAtMost(leaf.field, value, b))|;
  }

  function ReadFrom(field: string): Item -> real {
    item => ToFloat(Field(item, field))
  }

  lemma {:induction false} SeriesSummarises<T>(fmt: Format, labels: seq<string>, leaf: Leaf, rows: seq<T>,
                                               project: T -> Item, value: T -> real)
    requires NoDuplicates(leaf.bounds) && forall row :: row in rows ==> Holding(row, leaf.field, project, value)
    ensures Summarises(SeriesOf(labels, leaf, Map(rows, project)), rows, leaf.bounds, value)
  {
    var items, read := Map(rows, project), ReadFrom(leaf.field);
    forall row | row in rows ensures read(project(row)) == value(row) {
      assert Holding(row, leaf.field, project, value);
      NumericIsMeasured(project(row)[leaf.field]);
    }
    forall x | x in items ensures leaf.field in x && Measures(x[leaf.field], read(x)) {
      var i :| 0 <= i < |rows| && items[i] == x;
      assert rows[i] in rows && Holding(rows[i], leaf.field, project, value);
    }
    SeriesOfValues(fmt, labels, leaf, items, read);
    SumByMap(rows, project, read, value);
    forall b | b in leaf.bounds
      ensures |Select(items, HasAtMost(leaf.field, read, b))| == |Select(rows, UpTo(value, b))|
    {
      forall row | row in rows ensures HasAtMost(leaf.field, read, b)(project(row)) == UpTo(value, b)(row) {
        assert Holding(row, leaf.field, project, value);
      }
      SelectMap(rows, project, HasAtMost(leaf.field, read, b), UpTo(value, b));
    }
  }

  ghost predicate SummarisesSome<T>(fmt: Format, levels: seq<Level>, leaf: Leaf, rows: seq<T>, project: T -> Item,
                                    value: T -> real, s: Series) {
    exists ks :: SummarisesKeys(fmt, levels, leaf, rows, project, value, ks, s)
  }

  ghost predicate SummarisesKeys<T>(fmt: Format, levels: seq<Level>, leaf: Leaf, rows: seq<T>, project: T -> Item,
                                    value: T -> real, ks: seq<string>, s: Series)
  {
    var those := Select(rows, RowHas(fmt, levels, project, ks));
    && ReadableTuple(levels, ks) && s.labels == TupleLabels(levels, ks)
    && those != [] && Summarises(s, those, leaf.bounds, value)
  }

  /** What the walk emits for rows aggregated over a chain. */
  ghost function Emitted<T>(fmt: Format, levels: seq<Level>, leaf: Leaf, rows: seq<T>,
                            project: T -> Item): Stream<Series> {
    Walk(levels, leaf, [], SubValues(fmt, Root(Chain(levels, leaf)), Map(rows, project)))
  }

  /** What it emits when the tree comes over the network. */
  ghost function EmittedRemotely<T>(fmt: Format, levels: seq<Level>, leaf: Leaf, rows: seq<T>, project: T -> Item)
    : Stream<Series>
  {
    Walk(levels, leaf, [], ReadBack(fmt, SubValues(fmt, Root(Chain(levels, leaf)), Map(rows, project))))
  }

  lemma RemotelyTheSame<T>(fmt: Format, levels: seq<Level>, leaf: Leaf, rows: seq<T>, project: T -> Item)
    requires Emitted(fmt, levels, leaf, rows, project).ok
    ensures EmittedRemotely(fmt, levels, leaf, rows, project) == Emitted(fmt, levels, leaf, rows, project)
  {
    WalkReadBack(fmt, levels, leaf, [], SubValues(fmt, Root(Chain(levels, leaf)), Map(rows, project)));
  }

  lemma {:induction false} RowsOfKeys<T>(fmt: Format, levels: seq<Level>, leaf: Leaf, rows: seq<T>,
                                         project: T -> Item, value: T -> real, ks: seq<string>, s: Series)
    requires NoDuplicates(leaf.bounds) && forall row :: row in rows ==> Holding(row, leaf.field, project, value)
    requires IsSeriesOf(fmt, levels, leaf, Map(rows, project), ks, s)
    ensures SummarisesKeys(fmt, levels, leaf, rows, project, value, ks, s)
  {
    var items, p, q := Map(rows, project), HasAll(fmt, levels, leaf, ks), RowHas(fmt, levels, project, ks);
    forall row ensures p(project(row)) == q(row) {
      HasKeysAtEveryLevel(fmt, levels, leaf, ks, project(row));
    }
    SelectMap(rows, project, p, q);
    var those := Select(rows, q);
    SeriesSummarises(fmt, TupleLabels(levels, ks), leaf, those, project, value);
    var x :| x in items && HasKeys(fmt, levels, leaf, ks, x);
    assert x in Select(items, p);
  }

  /** For any chain of levels over any rows that hold a value in the measured field: the metric is
      emitted without failure, label tuples are pairwise distinct, each series summarises exactly
      the rows with its keys, and each realised combination of keys has its series. */
  lemma ChainMetricIsExact<T>(fmt: Format, levels: seq<Level>, leaf: Leaf, rows: seq<T>, project: T -> Item,
                              value: T -> real)
    requires levels != [] && NoDuplicates(leaf.bounds)
    requires forall row :: row in rows ==> Holding(row, leaf.field, project, value)
    requires forall i :: 0 <= i < |levels| ==> RowsTyped(fmt, levels[i], rows, project)
    ensures var r := Emitted(fmt, levels, leaf, rows, project);
      && r.ok && DistinctLabels(r.emitted)
      && (forall i :: 0 <= i < |r.emitted| ==> SummarisesSome(fmt, levels, leaf, rows, project, value, r.emitted[i]))
      && (forall row, ks :: row in rows && RowHas(fmt, levels, project, ks)(row) ==>
            HasSeries(r.emitted, TupleLabels(levels, ks)))
  {
    var items := Map(rows, project);
    var r := Emitted(fmt, levels, leaf, rows, project);
    TypedAtEveryLevel(fmt, levels, leaf, rows, project);
    EmissionIsExact(fmt, levels, leaf, items);
    forall i | 0 <= i < |r.emitted| ensures SummarisesSome(fmt, levels, leaf, rows, project, value, r.emitted[i]) {
      assert IsSomeSeries(fmt, levels, leaf, items, r.emitted[i]);
      var ks :| IsSeriesOf(fmt, levels, leaf, items, ks, r.emitted[i]);
      RowsOfKeys(fmt, levels, leaf, rows, project, value, ks, r.emitted[i]);
    }
    forall row, ks | row in rows && RowHas(fmt, levels, project, ks)(row)
      ensures HasSeries(r.emitted, TupleLabels(levels, ks))
    {
      var i :| 0 <= i < |rows| && rows[i] == row;
      assert items[i] in items;
      HasKeysAtEveryLevel(fmt, levels, leaf, ks, items[i]);
    }
  }

  // ---- the queries

  function TextLevel(name: string, field: string): Level {
    Level(name, Terms, field, "", "", TextLabel)
  }

  const ByOwner := Level("by_owner", Terms, "owner", "", "", OwnerLabels)

  const RunLevels: seq<Level> := [
    ByOwner, TextLevel("by_workflow_id", "workflow_id"), TextLevel("by_workflow_name", "workflow_name"),
    TextLevel("by_branch", "branch"), TextLevel("by_status", "status")]

  const RunLeaf := Leaf("duration", "duration", [60.0, 300.0, 900.0, 1800.0, 3600.0, 7200.0, 21600.0])

  lemma {:induction false} TextLabelsAreKeys(levels: seq<Level>, ks: seq<string>)
    requires |ks| == |levels| && forall i :: 0 <= i < |levels| ==> levels[i].how == TextLabel
    ensures TupleLabels(levels, ks) == ks
    decreases |levels|
  {
    if levels != [] {
      forall i | 0 <= i < |levels[1..]| ensures levels[1..][i].how == TextLabel {
        assert levels[1..][i] == levels[i + 1];
      }
      TextLabelsAreKeys(levels[1..], ks[1..]);
      assert ks == [ks[0]] + ks[1..];
    }
  }

  // ---- workflow runs

  /** The run has this team and component among its owners, and these other labels. */
  function RunMatches(l: OwnerLookup, labels: seq<string>): WorkflowRun -> bool
    requires |labels| == 6
  {
    (r: WorkflowRun) =>
      && Owner(labels[1], labels[0]) in OwnersOf(l, r.workflowID)
      && r.workflowID == labels[2] && WorkflowNameOf(l, r.workflowID) == labels[3]
      && r.branch == labels[4] && r.status == labels[5]
  }

  function RunLabels(l: OwnerLookup, r: WorkflowRun, o: Owner): seq<string> {
    [o.team, o.component, r.workflowID, WorkflowNameOf(l, r.workflowID), r.branch, r.status]
  }

  ghost predicate CleanTeams(l: OwnerLookup, runs: seq<WorkflowRun>) {
    forall r, o :: r in runs && o in OwnersOf(l, r.workflowID) ==> Sep !in o.team
  }

  lemma PivotOfOwner(owners: seq<Owner>, o: Owner)
    ensures o in owners ==> OwnerKey(o.team, o.component) in OwnerPivots(owners)
    ensures (forall p :: p in owners ==> Sep !in p.team) && Sep !in o.team ==>
              (OwnerKey(o.team, o.component) in OwnerPivots(owners) ==> o in owners)
  {
    if o in owners {
      var i :| 0 <= i < |owners| && owners[i] == o;
      assert OwnerPivots(owners)[i] == OwnerKey(o.team, o.component);
    }
    if (forall p :: p in owners ==> Sep !in p.team) && Sep !in o.team
       && OwnerKey(o.team, o.component) in OwnerPivots(owners) {
      var i :| 0 <= i < |owners| && OwnerPivots(owners)[i] == OwnerKey(o.team, o.component);
      assert owners[i] in owners;
      SplitJoin(owners[i].team, owners[i].component);
      SplitJoin(o.team, o.component);
    }
  }

  lemma OwnerLevelTyped(fmt: Format, items: seq<Item>)
    requires forall x :: x in items ==> IsOwnerList()(x)
    ensures LevelTyped(fmt, Agg(Terms, "owner", [], "", "", map[]), OwnerLabels, items)
  {
    var agg := Agg(Terms, "owner", [], "", "", map[]);
    forall x, k | x in items && k in ItemKeys(fmt, agg, x)
      ensures KeyTyped(OwnerLabels, RawKey(agg, x, k), k)
    {
      JoinSplit(k);
    }
  }

  lemma PivotsHaveSeparator(owners: seq<Owner>)
    ensures forall k :: k in OwnerPivots(owners) ==> Sep in k
  {
    forall k | k in OwnerPivots(owners) ensures Sep in k {
      var i :| 0 <= i < |owners| && OwnerPivots(owners)[i] == k;
      assert k[|owners[i].team|] == Sep;
    }
  }

  lemma TextLevelTyped(fmt: Format, field: string, items: seq<Item>)
    requires forall x :: x in items ==> Field(x, field).Str?
    ensures LevelTyped(fmt, Agg(Terms, field, [], "", "", map[]), TextLabel, items)
  {
  }

  /** Each item is the projection of some row. */
  lemma ItemsAreProjections<T>(rows: seq<T>, project: T -> Item, p: Item -> bool)
    requires forall row :: row in rows ==> p(project(row))
    ensures forall x :: x in Map(rows, project) ==> p(x)
  {
    forall x | x in Map(rows, project) ensures p(x) {
      var i :| 0 <= i < |rows| && Map(rows, project)[i] == x;
      assert rows[i] in rows;
    }
  }

  function IsText(field: string): Item -> bool {
    x => Field(x, field).Str?
  }

  function IsOwnerList(): Item -> bool {
    x =>
      && Field(x, "owner").StrList?
      && forall i :: 0 <= i < |Field(x, "owner").elems| ==> Sep in Field(x, "owner").elems[i]
  }

  lemma OwnerRowsTyped<T>(fmt: Format, rows: seq<T>, project: T -> Item)
    requires forall row :: row in rows ==> IsOwnerList()(project(row))
    ensures RowsTyped(fmt, ByOwner, rows, project)
  {
    ItemsAreProjections(rows, project, IsOwnerList());
    OwnerLevelTyped(fmt, Map(rows, project));
  }

  lemma TextRowsTyped<T>(fmt: Format, name: string, field: string, rows: seq<T>, project: T -> Item)
    requires forall row :: row in rows ==> IsText(field)(project(row))
    ensures RowsTyped(fmt, TextLevel(name, field), rows, project)
  {
    ItemsAreProjections(rows, project, IsText(field));
    TextLevelTyped(fmt, field, Map(rows, project));
  }

  lemma RunOwnerField(l: OwnerLookup, r: WorkflowRun)
    ensures Field(ProjectWorkflowRun(l)(r), "owner") == StrList(OwnerPivots(OwnersOf(l, r.workflowID)))
    ensures IsOwnerList()(ProjectWorkflowRun(l)(r))
  {
    PivotsHaveSeparator(OwnersOf(l, r.workflowID));
  }

  lemma RunFields(l: OwnerLookup, r: WorkflowRun)
    ensures var x := ProjectWorkflowRun(l)(r);
      && Field(x, "workflow_id") == Str(r.workflowID)
      && Field(x, "workflow_name") == Str(WorkflowNameOf(l, r.workflowID))
      && Field(x, "branch") == Str(r.branch) && Field(x, "status") == Str(r.status)
      && "duration" in x && x["duration"] == Float64(r.duration)
  {
  }

  lemma RunsTyped(fmt: Format, l: OwnerLookup, runs: seq<WorkflowRun>)
    ensures forall i :: 0 <= i < |RunLevels| ==> RowsTyped(fmt, RunLevels[i], runs, ProjectWorkflowRun(l))
  {
    var project := ProjectWorkflowRun(l);
    forall r | r in runs
      ensures IsOwnerList()(project(r)) && IsText("workflow_id")(project(r)) && IsText("workflow_name")(project(r))
      ensures IsText("branch")(project(r)) && IsText("status")(project(r))
    {
      RunOwnerField(l, r);
      RunFields(l, r);
    }
    OwnerRowsTyped(fmt, runs, project);
    TextRowsTyped(fmt, "by_workflow_id", "workflow_id", runs, project);
    TextRowsTyped(fmt, "by_workflow_name", "workflow_name", runs, project);
    TextRowsTyped(fmt, "by_branch", "branch", runs, project);
    TextRowsTyped(fmt, "by_status", "status", runs, project);
  }

  lemma RunLevelKeys(fmt: Format, l: OwnerLookup, r: WorkflowRun)
    ensures var x := ProjectWorkflowRun(l)(r);
      && (forall k :: k in LevelKeys(fmt, RunLevels[0], x) <==> k in OwnerPivots(OwnersOf(l, r.workflowID)))
      && LevelKeys(fmt, RunLevels[1], x) == {r.workflowID}
      && LevelKeys(fmt, RunLevels[2], x) == {WorkflowNameOf(l, r.workflowID)}
      && LevelKeys(fmt, RunLevels[3], x) == {r.branch} && LevelKeys(fmt, RunLevels[4], x) == {r.status}
  {
    RunOwnerField(l, r);
    RunFields(l, r);
  }

  /** Which runs have the keys, in plain terms. */
  lemma RunHasKeys(fmt: Format, l: OwnerLookup, r: WorkflowRun, ks: seq<string>)
    requires |ks| == 5
    ensures RowHas(fmt, RunLevels, ProjectWorkflowRun(l), ks)(r)
       <==> && ks[0] in OwnerPivots(OwnersOf(l, r.workflowID))
            && ks[1] == r.workflowID && ks[2] == WorkflowNameOf(l, r.workflowID)
            && ks[3] == r.branch && ks[4] == r.status
  {
    RunLevelKeys(fmt, l, r);
    FiveKeys(fmt, RunLevels, ProjectWorkflowRun(l), ks, r);
  }

  lemma FiveKeys<T>(fmt: Format, levels: seq<Level>, project: T -> Item, ks: seq<string>, row: T)
    requires |ks| == |levels| == 5
    ensures var x := project(row);
       RowHas(fmt, levels, project, ks)(row)
       <==> && ks[0] in LevelKeys(fmt, levels[0], x) && ks[1] in LevelKeys(fmt, levels[1], x)
            && ks[2] in LevelKeys(fmt, levels[2], x) && ks[3] in LevelKeys(fmt, levels[3], x)
            && ks[4] in LevelKeys(fmt, levels[4], x)
  {
  }

  lemma RunTupleLabels(ks: seq<string>)
    requires |ks| == 5
    ensures TupleLabels(RunLevels, ks) == KeyLabels(OwnerLabels, ks[0]) + ks[1..]
  {
    TextLabelsAreKeys(RunLevels[1..], ks[1..]);
  }

  function DurationOfRun(): WorkflowRun -> real {
    (r: WorkflowRun) => r.duration
  }

  /** A series of run durations: which runs it is about, and what it says of them, with buckets
      up to 1, 5, 15 and 30 minutes, and 1, 2 and 6 hours. */
  ghost predicate RunSeriesIsExact(l: OwnerLookup, runs: seq<WorkflowRun>, s: Series) {
    && |s.labels| == 6
    && Select(runs, RunMatches(l, s.labels)) != []
    && Summarises(s, Select(runs, RunMatches(l, s.labels)), RunLeaf.bounds, DurationOfRun())
    && s.buckets.Keys == Minutes({1, 5, 15, 30, 60, 120, 360})
  }

  function Minutes(ms: set<int>): set<real> {
    set m | m in ms :: 60.0 * m as real
  }

  lemma RunBounds()
    ensures Elements(RunLeaf.bounds) == Minutes({1, 5, 15, 30, 60, 120, 360})
  {
  }

  lemma RunMatchesKeys(fmt: Format, l: OwnerLookup, r: WorkflowRun, ks: seq<string>)
    requires ReadableTuple(RunLevels, ks) && forall o :: o in OwnersOf(l, r.workflowID) ==> Sep !in o.team
    ensures var labels := TupleLabels(RunLevels, ks);
      |labels| == 6 && (RowHas(fmt, RunLevels, ProjectWorkflowRun(l), ks)(r) <==> RunMatches(l, labels)(r))
  {
    var labels := TupleLabels(RunLevels, ks);
    RunTupleLabels(ks);
    JoinSplit(ks[0]);
    RunHasKeys(fmt, l, r, ks);
    PivotOfOwner(OwnersOf(l, r.workflowID), Owner(labels[1], labels[0]));
  }

  lemma {:induction false} RunSeriesOf(fmt: Format, l: OwnerLookup, runs: seq<WorkflowRun>, ks: seq<string>, s: Series)
    requires CleanTeams(l, runs)
    requires SummarisesKeys(fmt, RunLevels, RunLeaf, runs, ProjectWorkflowRun(l), DurationOfRun(), ks, s)
    ensures RunSeriesIsExact(l, runs, s)
  {
    forall r | r in runs
      ensures |s.labels| == 6 && RowHas(fmt, RunLevels, ProjectWorkflowRun(l), ks)(r) == RunMatches(l, s.labels)(r)
    {
      RunMatchesKeys(fmt, l, r, ks);
    }
    var those := Select(runs, RowHas(fmt, RunLevels, ProjectWorkflowRun(l), ks));
    assert those[0] in those;
    SelectSame(runs, RowHas(fmt, RunLevels, ProjectWorkflowRun(l), ks), RunMatches(l, s.labels));
    RunBounds();
  }

  /** Main result for runs: label tuples are pairwise distinct; the series of a tuple counts,
      sums and buckets exactly the runs one of whose owners is that very pair and whose
      other fields match; every run has its series under each of its owners; and a tree that
      comes over the network emits the very same. */
  lemma RunMetricIsExact(fmt: Format, l: OwnerLookup, runs: seq<WorkflowRun>)
    requires CleanTeams(l, runs)
    ensures var e := Emitted(fmt, RunLevels, RunLeaf, runs, ProjectWorkflowRun(l));
      && e.ok && DistinctLabels(e.emitted)
      && (forall i :: 0 <= i < |e.emitted| ==> RunSeriesIsExact(l, runs, e.emitted[i]))
      && (forall r, o :: r in runs && o in OwnersOf(l, r.workflowID) ==> HasSeries(e.emitted, RunLabels(l, r, o)))
      && EmittedRemotely(fmt, RunLevels, RunLeaf, runs, ProjectWorkflowRun(l)) == e
  {
    var e := Emitted(fmt, RunLevels, RunLeaf, runs, ProjectWorkflowRun(l));
    RunsEmit(fmt, l, runs);
    RemotelyTheSame(fmt, RunLevels, RunLeaf, runs, ProjectWorkflowRun(l));
    forall i | 0 <= i < |e.emitted| ensures RunSeriesIsExact(l, runs, e.emitted[i]) {
      assert SummarisesSome(fmt, RunLevels, RunLeaf, runs, ProjectWorkflowRun(l), DurationOfRun(), e.emitted[i]);
      var ks :| SummarisesKeys(fmt, RunLevels, RunLeaf, runs, ProjectWorkflowRun(l), DurationOfRun(), ks, e.emitted[i]);
      RunSeriesOf(fmt, l, runs, ks, e.emitted[i]);
    }
    forall r, o | r in runs && o in OwnersOf(l, r.workflowID) ensures HasSeries(e.emitted, RunLabels(l, r, o)) {
      RunOwnerHasSeries(fmt, l, runs, r, o);
    }
  }

  lemma RunLabelsClean(fmt: Format, l: OwnerLookup, runs: seq<WorkflowRun>, s: Series)
    requires SummarisesSome(fmt, RunLevels, RunLeaf, runs, ProjectWorkflowRun(l), DurationOfRun(), s)
    ensures |s.labels| == 6 && Sep !in s.labels[0]
  {
    var ks :| SummarisesKeys(fmt, RunLevels, RunLeaf, runs, ProjectWorkflowRun(l), DurationOfRun(), ks, s);
    RunTupleLabels(ks);
    JoinSplit(ks[0]);
  }

  lemma OwnerKeyLabels(o: Owner)
    requires Sep !in o.team
    ensures KeyLabels(OwnerLabels, OwnerKey(o.team, o.component)) == [o.team, o.component]
  {
    SplitJoin(o.team, o.component);
  }

  /** The keys of a run under one of its owners. */
  function OwnerTuple(l: OwnerLookup, r: WorkflowRun, o: Owner): seq<string> {
    [OwnerKey(o.team, o.component), r.workflowID, WorkflowNameOf(l, r.workflowID), r.branch, r.status]
  }

  lemma OwnerTupleLabels(l: OwnerLookup, r: WorkflowRun, o: Owner)
    requires Sep !in o.team
    ensures TupleLabels(RunLevels, OwnerTuple(l, r, o)) == RunLabels(l, r, o)
  {
    RunTupleLabels(OwnerTuple(l, r, o));
    OwnerKeyLabels(o);
    assert OwnerTuple(l, r, o)[1..] == RunLabels(l, r, o)[2..];
  }

  lemma RunOwnerKeys(fmt: Format, l: OwnerLookup, r: WorkflowRun, o: Owner)
    requires o in OwnersOf(l, r.workflowID)
    ensures RowHas(fmt, RunLevels, ProjectWorkflowRun(l), OwnerTuple(l, r, o))(r)
  {
    PivotOfOwner(OwnersOf(l, r.workflowID), o);
    RunHasKeys(fmt, l, r, OwnerTuple(l, r, o));
  }

  /** A run appears under one of its owners exactly when that team's name has no separator. */
  lemma RunOwnerHasSeries(fmt: Format, l: OwnerLookup, runs: seq<WorkflowRun>, r: WorkflowRun, o: Owner)
    requires r in runs && o in OwnersOf(l, r.workflowID)
    ensures HasSeries(Emitted(fmt, RunLevels, RunLeaf, runs, ProjectWorkflowRun(l)).emitted, RunLabels(l, r, o))
       <==> Sep !in o.team
  {
    var e := Emitted(fmt, RunLevels, RunLeaf, runs, ProjectWorkflowRun(l));
    RunsEmit(fmt, l, runs);
    if i :| 0 <= i < |e.emitted| && e.emitted[i].labels == RunLabels(l, r, o) {
      RunLabelsClean(fmt, l, runs, e.emitted[i]);
    }
    if Sep !in o.team {
      RunOwnerKeys(fmt, l, r, o);
      OwnerTupleLabels(l, r, o);
    }
  }

  lemma RunsEmit(fmt: Format, l: OwnerLookup, runs: seq<WorkflowRun>)
    ensures var e := Emitted(fmt, RunLevels, RunLeaf, runs, ProjectWorkflowRun(l));
      && e.ok && DistinctLabels(e.emitted)
      && (forall i :: 0 <= i < |e.emitted| ==>
            SummarisesSome(fmt, RunLevels, RunLeaf, runs, ProjectWorkflowRun(l), DurationOfRun(), e.emitted[i]))
      && (forall r, ks :: r in runs && RowHas(fmt, RunLevels, ProjectWorkflowRun(l), ks)(r) ==>
            HasSeries(e.emitted, TupleLabels(RunLevels, ks)))
  {
    RunsTyped(fmt, l, runs);
    forall r | r in runs ensures Holding(r, RunLeaf.field, ProjectWorkflowRun(l), DurationOfRun()) {
      RunFields(l, r);
    }
    ChainMetricIsExact(fmt, RunLevels, RunLeaf, runs, ProjectWorkflowRun(l), DurationOfRun());
  }
}
