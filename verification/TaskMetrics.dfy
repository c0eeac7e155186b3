/** The workflow task and pull request metrics, end to end. */
module TaskMetrics {
  import opened Seqs
  import opened Sorting
  import opened Values
  import opened Printing
  import opened Aggregation
  import opened OwnerKeys
  import opened Ownership
  import opened MetricTree
  import opened Metrics

  lemma {:induction false} TupleLabelsConcat(levels: seq<Level>, more: seq<Level>, ks: seq<string>, ls: seq<string>)
    requires |ks| == |levels|
    ensures TupleLabels(levels + more, ks + ls) == TupleLabels(levels, ks) + TupleLabels(more, ls)
    decreases |levels|
  {
    if levels == [] {
      assert levels + more == more && ks + ls == ls;
    } else if levels + more != [] && ks + ls != [] {
      assert (levels + more)[1..] == levels[1..] + more && (ks + ls)[1..] == ks[1..] + ls;
      TupleLabelsConcat(levels[1..], more, ks[1..], ls);
      ConcatAssociative(KeyLabels(levels[0].how, ks[0]), TupleLabels(levels[1..], ks[1..]), TupleLabels(more, ls));
    }
  }

  // ---- workflow tasks

  const OrderLevel := Level("by_task_order", Terms, "order", "", "", OrderLabel)

  const TaskLevels: seq<Level> := [
    ByOwner, TextLevel("by_workflow_id", "workflow_id"), TextLevel("by_workflow_name", "workflow_name"),
    TextLevel("by_branch", "branch"), TextLevel("by_task_name", "name"), OrderLevel, TextLevel("by_status", "status")]

  const TaskLeaf := Leaf("duration", "duration", [30.0, 60.0, 120.0, 300.0, 600.0, 1800.0, 3600.0])

  /** The stored runs a task query joins with. */
  datatype TaskContext = TaskContext(lookup: OwnerLookup, runs: map<string, WorkflowRun>)

  function Project(c: TaskContext): WorkflowTask -> Item {
    ProjectWorkflowTask(c.lookup, c.runs)
  }

  function OwnersOfTask(c: TaskContext, t: WorkflowTask): seq<Owner> {
    OwnersOf(c.lookup, WorkflowOfTask(c.runs, t))
  }

  /** The labels of a task after team and component. */
  function TaskFields(c: TaskContext, t: WorkflowTask): seq<string> {
    var workflowID := WorkflowOfTask(c.runs, t);
    [workflowID, WorkflowNameOf(c.lookup, workflowID), BranchOfTask(c.runs, t), t.name,
     PadOrder(Decimal(t.order)), t.status]
  }

  function TaskMatches(c: TaskContext, labels: seq<string>): WorkflowTask -> bool
    requires |labels| == 8
  {
    (t: WorkflowTask) => Owner(labels[1], labels[0]) in OwnersOfTask(c, t) && TaskFields(c, t) == labels[2..]
  }

  ghost predicate CleanTaskTeams(c: TaskContext, tasks: seq<WorkflowTask>) {
    forall t, o :: t in tasks && o in OwnersOfTask(c, t) ==> Sep !in o.team
  }

  lemma OwnTaskFields(c: TaskContext, t: WorkflowTask)
    ensures var x := Project(c)(t);
      && Field(x, "name") == Str(t.name) && Field(x, "order") == Int(t.order) && Field(x, "status") == Str(t.status)
      && "duration" in x && x["duration"] == Float64(t.duration)
  {
  }

  lemma TaskRunFields(c: TaskContext, t: WorkflowTask)
    ensures var x := Project(c)(t);
      && Field(x, "workflow_id") == Str(WorkflowOfTask(c.runs, t))
      && Field(x, "workflow_name") == Str(WorkflowNameOf(c.lookup, WorkflowOfTask(c.runs, t)))
      && Field(x, "branch") == Str(BranchOfTask(c.runs, t))
  {
  }

  lemma TaskOwnerField(c: TaskContext, t: WorkflowTask)
    ensures Field(Project(c)(t), "owner") == StrList(OwnerPivots(OwnersOfTask(c, t)))
    ensures IsOwnerList()(Project(c)(t))
  {
    PivotsHaveSeparator(OwnersOfTask(c, t));
  }

  lemma TaskFieldTypes(c: TaskContext, t: WorkflowTask)
    ensures var x := Project(c)(t);
      && IsOwnerList()(x) && IsText("workflow_id")(x) && IsText("workflow_name")(x) && IsText("branch")(x)
      && IsText("name")(x) && IsText("status")(x) && IsInt("order")(x) && "duration" in x
  {
    TaskOwnerField(c, t);
    TaskRunFields(c, t);
    OwnTaskFields(c, t);
  }

  function IsInt(field: string): Item -> bool {
    x => Field(x, field).Int?
  }

  lemma OrderRowsTyped<T>(fmt: Format, rows: seq<T>, project: T -> Item)
    requires forall row :: row in rows ==> IsInt("order")(project(row))
    ensures RowsTyped(fmt, OrderLevel, rows, project)
  {
    ItemsAreProjections(rows, project, IsInt("order"));
  }

  lemma TasksTyped(fmt: Format, c: TaskContext, tasks: seq<WorkflowTask>)
    ensures forall i :: 0 <= i < |TaskLevels| ==> RowsTyped(fmt, TaskLevels[i], tasks, Project(c))
  {
    var project := Project(c);
    forall t | t in tasks
      ensures IsOwnerList()(project(t)) && IsText("workflow_id")(project(t)) && IsText("workflow_name")(project(t))
      ensures IsText("branch")(project(t)) && IsText("name")(project(t)) && IsText("status")(project(t))
      ensures IsInt("order")(project(t))
    {
      TaskFieldTypes(c, t);
    }
    OwnerRowsTyped(fmt, tasks, project);
    TextRowsTyped(fmt, "by_workflow_id", "workflow_id", tasks, project);
    TextRowsTyped(fmt, "by_workflow_name", "workflow_name", tasks, project);
    TextRowsTyped(fmt, "by_branch", "branch", tasks, project);
    TextRowsTyped(fmt, "by_task_name", "name", tasks, project);
    OrderRowsTyped(fmt, tasks, project);
    TextRowsTyped(fmt, "by_status", "status", tasks, project);
  }

  lemma TextLevelKeys(fmt: Format, name: string, field: string, x: Item)
    requires Field(x, field).Str?
    ensures LevelKeys(fmt, TextLevel(name, field), x) == {Field(x, field).str}
  {
  }

  lemma OrderLevelKeys(fmt: Format, x: Item)
    requires Field(x, "order").Int?
    ensures LevelKeys(fmt, OrderLevel, x) == {Decimal(Field(x, "order").n)}
  {
  }

  lemma OwnerLevelKeys(fmt: Format, x: Item, k: string)
    requires Field(x, "owner").StrList?
    ensures k in LevelKeys(fmt, ByOwner, x) <==> k in Field(x, "owner").elems
  {
  }

  lemma TaskLevelKeys(fmt: Format, c: TaskContext, t: WorkflowTask, k: string)
    ensures var x := Project(c)(t);
      && (k in LevelKeys(fmt, ByOwner, x) <==> k in OwnerPivots(OwnersOfTask(c, t)))
      && LevelKeys(fmt, TextLevel("by_workflow_id", "workflow_id"), x) == {WorkflowOfTask(c.runs, t)}
      && LevelKeys(fmt, TextLevel("by_workflow_name", "workflow_name"), x)
         == {WorkflowNameOf(c.lookup, WorkflowOfTask(c.runs, t))}
      && LevelKeys(fmt, TextLevel("by_branch", "branch"), x) == {BranchOfTask(c.runs, t)}
  {
    var x := Project(c)(t);
    TaskOwnerField(c, t);
    TaskRunFields(c, t);
    OwnerLevelKeys(fmt, x, k);
    TextLevelKeys(fmt, "by_workflow_id", "workflow_id", x);
    TextLevelKeys(fmt, "by_workflow_name", "workflow_name", x);
    TextLevelKeys(fmt, "by_branch", "branch", x);
  }

  lemma OwnTaskLevelKeys(fmt: Format, c: TaskContext, t: WorkflowTask)
    ensures var x := Project(c)(t);
      && LevelKeys(fmt, TextLevel("by_task_name", "name"), x) == {t.name}
      && LevelKeys(fmt, OrderLevel, x) == {Decimal(t.order)}
      && LevelKeys(fmt, TextLevel("by_status", "status"), x) == {t.status}
  {
    var x := Project(c)(t);
    OwnTaskFields(c, t);
    TextLevelKeys(fmt, "by_task_name", "name", x);
    OrderLevelKeys(fmt, x);
    TextLevelKeys(fmt, "by_status", "status", x);
  }

  /** The seven levels, spelt out. */
  lemma SevenKeys<T>(fmt: Format, a: Level, b: Level, c: Level, d: Level, e: Level, f: Level, g: Level,
                     project: T -> Item, ks: seq<string>, row: T)
    requires |ks| == 7
    ensures var x := project(row);
       RowHas(fmt, [a, b, c, d, e, f, g], project, ks)(row)
       <==> && ks[0] in LevelKeys(fmt, a, x) && ks[1] in LevelKeys(fmt, b, x) && ks[2] in LevelKeys(fmt, c, x)
            && ks[3] in LevelKeys(fmt, d, x) && ks[4] in LevelKeys(fmt, e, x) && ks[5] in LevelKeys(fmt, f, x)
            && ks[6] in LevelKeys(fmt, g, x)
  {
    var levels := [a, b, c, d, e, f, g];
    assert levels[0] == a && levels[1] == b && levels[2] == c && levels[3] == d && levels[4] == e && levels[5] == f;
    assert levels[6] == g;
  }

  lemma TaskHasKeys(fmt: Format, c: TaskContext, t: WorkflowTask, ks: seq<string>)
    requires |ks| == 7
    ensures RowHas(fmt, TaskLevels, Project(c), ks)(t)
       <==> && ks[0] in OwnerPivots(OwnersOfTask(c, t))
            && ks[1] == WorkflowOfTask(c.runs, t) && ks[2] == WorkflowNameOf(c.lookup, WorkflowOfTask(c.runs, t))
            && ks[3] == BranchOfTask(c.runs, t) && ks[4] == t.name && ks[5] == Decimal(t.order) && ks[6] == t.status
  {
    TaskLevelKeys(fmt, c, t, ks[0]);
    OwnTaskLevelKeys(fmt, c, t);
    SevenKeys(fmt, ByOwner, TextLevel("by_workflow_id", "workflow_id"), TextLevel("by_workflow_name", "workflow_name"),
              TextLevel("by_branch", "branch"), TextLevel("by_task_name", "name"), OrderLevel,
              TextLevel("by_status", "status"), Project(c), ks, t);
  }

  const TaskTextLevels := [
    TextLevel("by_workflow_id", "workflow_id"), TextLevel("by_workflow_name", "workflow_name"),
    TextLevel("by_branch", "branch"), TextLevel("by_task_name", "name")]

  const LastTaskLevels := [OrderLevel, TextLevel("by_status", "status")]

  lemma TaskLevelsSplit()
    ensures TaskLevels == [ByOwner] + (TaskTextLevels + LastTaskLevels)
    ensures forall i :: 0 <= i < |TaskTextLevels| ==> TaskTextLevels[i].how == TextLabel
  {
  }

  lemma SevenSplit(ks: seq<string>)
    requires |ks| == 7
    ensures ks == [ks[0]] + (ks[1..5] + ks[5..]) && ks[5..] == [ks[5], ks[6]]
    ensures forall a, b :: ks[1..5] + [a, b] == [ks[1], ks[2], ks[3], ks[4], a, b]
  {
  }

  /** Below the first level come text levels, and then others. */
  lemma TextsBetween(first: Level, texts: seq<Level>, last: seq<Level>, k: string, ks: seq<string>, ls: seq<string>)
    requires |ks| == |texts| && forall i :: 0 <= i < |texts| ==> texts[i].how == TextLabel
    ensures TupleLabels([first] + (texts + last), [k] + (ks + ls))
         == KeyLabels(first.how, k) + (ks + TupleLabels(last, ls))
  {
    TextLabelsAreKeys(texts, ks);
    TupleLabelsConcat(texts, last, ks, ls);
    assert ([first] + (texts + last))[1..] == texts + last && ([k] + (ks + ls))[1..] == ks + ls;
  }

  lemma TaskTupleLabels(ks: seq<string>)
    requires |ks| == 7
    ensures TupleLabels(TaskLevels, ks)
         == KeyLabels(OwnerLabels, ks[0]) + [ks[1], ks[2], ks[3], ks[4], PadOrder(ks[5]), ks[6]]
  {
    TaskLevelsSplit();
    SevenSplit(ks);
    TextsBetween(ByOwner, TaskTextLevels, LastTaskLevels, ks[0], ks[1..5], ks[5..]);
    OrderThenText("by_status", "status", ks[5], ks[6]);
  }

  lemma OrderThenText(name: string, field: string, k: string, l: string)
    ensures TupleLabels([OrderLevel, TextLevel(name, field)], [k, l]) == [PadOrder(k), l]
  {
    var rest := [TextLevel(name, field)];
    TextLabelsAreKeys(rest, [l]);
    assert [OrderLevel, TextLevel(name, field)][1..] == rest && [k, l][1..] == [l];
  }

  function DurationOfTask(): WorkflowTask -> real {
    (t: WorkflowTask) => t.duration
  }

  /** A series of task durations, with buckets up to half a minute, 1, 2, 5, 10 and 30 minutes,
      and an hour. */
  ghost predicate TaskSeriesIsExact(c: TaskContext, tasks: seq<WorkflowTask>, s: Series) {
    && |s.labels| == 8
    && Select(tasks, TaskMatches(c, s.labels)) != []
    && Summarises(s, Select(tasks, TaskMatches(c, s.labels)), TaskLeaf.bounds, DurationOfTask())
    && s.buckets.Keys == {30.0} + Minutes({1, 2, 5, 10, 30, 60})
  }

  lemma TaskBounds()
    ensures Elements(TaskLeaf.bounds) == {30.0} + Minutes({1, 2, 5, 10, 30, 60})
  {
  }

  lemma TaskMatchesKeys(fmt: Format, c: TaskContext, t: WorkflowTask, ks: seq<string>)
    requires ReadableTuple(TaskLevels, ks) && forall o :: o in OwnersOfTask(c, t) ==> Sep !in o.team
    ensures var labels := TupleLabels(TaskLevels, ks);
      |labels| == 8 && (RowHas(fmt, TaskLevels, Project(c), ks)(t) <==> TaskMatches(c, labels)(t))
  {
    var labels := TupleLabels(TaskLevels, ks);
    TaskTupleLabels(ks);
    JoinSplit(ks[0]);
    TaskHasKeys(fmt, c, t, ks);
    PivotOfOwner(OwnersOfTask(c, t), Owner(labels[1], labels[0]));
    assert labels[2..] == [ks[1], ks[2], ks[3], ks[4], PadOrder(ks[5]), ks[6]];
    ReadableAt(TaskLevels, ks, 5);
    var m :| ks[5] == Decimal(m);
    if PadOrder(Decimal(m)) == PadOrder(Decimal(t.order)) {
      PadInjective(m, t.order);
    }
  }

  lemma {:induction false} ReadableAt(levels: seq<Level>, ks: seq<string>, i: nat)
    requires ReadableTuple(levels, ks) && i < |levels|
    ensures Readable(levels[i].how, ks[i])
    decreases i
  {
    if i > 0 {
      ReadableAt(levels[1..], ks[1..], i - 1);
    }
  }

  lemma {:induction false} TaskSeriesOf(fmt: Format, c: TaskContext, tasks: seq<WorkflowTask>, s: Series)
    requires CleanTaskTeams(c, tasks)
    requires SummarisesSome(fmt, TaskLevels, TaskLeaf, tasks, Project(c), DurationOfTask(), s)
    ensures TaskSeriesIsExact(c, tasks, s)
  {
    var ks :| SummarisesKeys(fmt, TaskLevels, TaskLeaf, tasks, Project(c), DurationOfTask(), ks, s);
    TaskTupleLabels(ks);
    JoinSplit(ks[0]);
    forall t | t in tasks ensures RowHas(fmt, TaskLevels, Project(c), ks)(t) == TaskMatches(c, s.labels)(t) {
      TaskMatchesKeys(fmt, c, t, ks);
    }
    SelectSame(tasks, RowHas(fmt, TaskLevels, Project(c), ks), TaskMatches(c, s.labels));
    TaskBounds();
  }

  lemma TaskOwnerKeys(fmt: Format, c: TaskContext, t: WorkflowTask, o: Owner) returns (ks: seq<string>)
    requires o in OwnersOfTask(c, t) && Sep !in o.team
    ensures RowHas(fmt, TaskLevels, Project(c), ks)(t)
    ensures TupleLabels(TaskLevels, ks) == [o.team, o.component] + TaskFields(c, t)
  {
    var workflowID := WorkflowOfTask(c.runs, t);
    ks := [OwnerKey(o.team, o.component), workflowID, WorkflowNameOf(c.lookup, workflowID), BranchOfTask(c.runs, t),
           t.name, Decimal(t.order), t.status];
    PivotOfOwner(OwnersOfTask(c, t), o);
    TaskHasKeys(fmt, c, t, ks);
    TaskTupleLabels(ks);
    OwnerKeyLabels(o);
  }

  lemma TasksEmit(fmt: Format, c: TaskContext, tasks: seq<WorkflowTask>)
    ensures var e := Emitted(fmt, TaskLevels, TaskLeaf, tasks, Project(c));
      && e.ok && DistinctLabels(e.emitted)
      && (forall i :: 0 <= i < |e.emitted| ==>
            SummarisesSome(fmt, TaskLevels, TaskLeaf, tasks, Project(c), DurationOfTask(), e.emitted[i]))
      && (forall t, ks :: t in tasks && RowHas(fmt, TaskLevels, Project(c), ks)(t) ==>
            HasSeries(e.emitted, TupleLabels(TaskLevels, ks)))
  {
    TasksTyped(fmt, c, tasks);
    forall t | t in tasks ensures Holding(t, "duration", Project(c), DurationOfTask()) {
      OwnTaskFields(c, t);
    }
    ChainMetricIsExact(fmt, TaskLevels, TaskLeaf, tasks, Project(c), DurationOfTask());
  }

  /** Main result for tasks: as for runs, with owner, workflow and branch found through
      the run it belongs to, and the order printed with two digits, also when it comes back
      from JSON as a float. */
  lemma TaskMetricIsExact(fmt: Format, c: TaskContext, tasks: seq<WorkflowTask>)
    requires CleanTaskTeams(c, tasks)
    ensures var e := Emitted(fmt, TaskLevels, TaskLeaf, tasks, Project(c));
      && e.ok && DistinctLabels(e.emitted)
      && (forall i :: 0 <= i < |e.emitted| ==> TaskSeriesIsExact(c, tasks, e.emitted[i]))
      && (forall t, o :: t in tasks && o in OwnersOfTask(c, t) ==>
            HasSeries(e.emitted, [o.team, o.component] + TaskFields(c, t)))
      && EmittedRemotely(fmt, TaskLevels, TaskLeaf, tasks, Project(c)) == e
  {
    var e := Emitted(fmt, TaskLevels, TaskLeaf, tasks, Project(c));
    TasksEmit(fmt, c, tasks);
    RemotelyTheSame(fmt, TaskLevels, TaskLeaf, tasks, Project(c));
    forall i | 0 <= i < |e.emitted| ensures TaskSeriesIsExact(c, tasks, e.emitted[i]) {
      TaskSeriesOf(fmt, c, tasks, e.emitted[i]);
    }
    forall t, o | t in tasks && o in OwnersOfTask(c, t)
      ensures HasSeries(e.emitted, [o.team, o.component] + TaskFields(c, t))
    {
      var ks := TaskOwnerKeys(fmt, c, t, o);
    }
  }

  /** A task appears under one of its owners exactly when that team's name has no separator. */
  lemma TaskOwnerHasSeries(fmt: Format, c: TaskContext, tasks: seq<WorkflowTask>, t: WorkflowTask, o: Owner)
    requires t in tasks && o in OwnersOfTask(c, t)
    ensures HasSeries(Emitted(fmt, TaskLevels, TaskLeaf, tasks, Project(c)).emitted,
                      [o.team, o.component] + TaskFields(c, t))
       <==> Sep !in o.team
  {
    var e := Emitted(fmt, TaskLevels, TaskLeaf, tasks, Project(c));
    TasksEmit(fmt, c, tasks);
    if i :| 0 <= i < |e.emitted| && e.emitted[i].labels == [o.team, o.component] + TaskFields(c, t) {
      TaskLabelsClean(fmt, c, tasks, e.emitted[i]);
    }
    if Sep !in o.team {
      var ks := TaskOwnerKeys(fmt, c, t, o);
    }
  }

  lemma TaskLabelsClean(fmt: Format, c: TaskContext, tasks: seq<WorkflowTask>, s: Series)
    requires SummarisesSome(fmt, TaskLevels, TaskLeaf, tasks, Project(c), DurationOfTask(), s)
    ensures |s.labels| == 8 && Sep !in s.labels[0]
  {
    var ks :| SummarisesKeys(fmt, TaskLevels, TaskLeaf, tasks, Project(c), DurationOfTask(), ks, s);
    TaskTupleLabels(ks);
    JoinSplit(ks[0]);
  }

  // ---- pull requests

  const MonthLevel := Level("by_month", DateHistogram, "created_at", "month", "2006-01", TextLabel)

  const PRLevels: seq<Level> := [TextLevel("by_repo", "repo_id"), MonthLevel, TextLevel("by_state", "state")]

  const PRLeaf := Leaf("cycle_time", "cycle_time_seconds", [3600.0, 14400.0, 86400.0, 259200.0, 604800.0])

  function PRLabels(fmt: Format, pr: PullRequest): seq<string> {
    [pr.repoID, fmt.date(pr.createdAt, "month", "2006-01"), pr.state]
  }

  function PRMatches(fmt: Format, labels: seq<string>): PullRequest -> bool {
    pr => PRLabels(fmt, pr) == labels
  }

  lemma PRsTyped(fmt: Format, prs: seq<PullRequest>, now: int)
    ensures forall i :: 0 <= i < |PRLevels| ==> RowsTyped(fmt, PRLevels[i], prs, ProjectPullRequest(now))
  {
    var project := ProjectPullRequest(now);
    TextRowsTyped(fmt, "by_repo", "repo_id", prs, project);
    TextRowsTyped(fmt, "by_state", "state", prs, project);
    assert RowsTyped(fmt, MonthLevel, prs, project);
  }

  lemma PRFields(pr: PullRequest, now: int)
    ensures var x := ProjectPullRequest(now)(pr);
      && Field(x, "repo_id") == Str(pr.repoID) && Field(x, "state") == Str(pr.state)
      && Field(x, "created_at") == Time(pr.createdAt) && "cycle_time_seconds" in x
      && x["cycle_time_seconds"] == Float64(CycleTimeSeconds(pr, now))
  {
  }

  lemma PRHasKeys(fmt: Format, pr: PullRequest, now: int, ks: seq<string>)
    ensures RowHas(fmt, PRLevels, ProjectPullRequest(now), ks)(pr) <==> ks == PRLabels(fmt, pr)
  {
    var x := ProjectPullRequest(now)(pr);
    assert LevelKeys(fmt, PRLevels[0], x) == {pr.repoID};
    assert LevelKeys(fmt, PRLevels[1], x) == {fmt.date(pr.createdAt, "month", "2006-01")};
    assert LevelKeys(fmt, PRLevels[2], x) == {pr.state};
    if RowHas(fmt, PRLevels, ProjectPullRequest(now), ks)(pr) {
      assert ks == [ks[0], ks[1], ks[2]];
    }
  }

  /** How long a request has been open, in nanoseconds: until it was merged or declined, or so far. */
  function NanosecondsOpen(pr: PullRequest, now: int): int {
    if pr.state == "MERGED" then pr.updatedAt - pr.createdAt
    else if pr.state == "DECLINED" then pr.updatedAt - pr.createdAt
    else now - pr.createdAt
  }

  function SecondsOpen(now: int): PullRequest -> real {
    (pr: PullRequest) => 0.000000001 * NanosecondsOpen(pr, now) as real
  }

  lemma CycleTimeIsTimeOpen(pr: PullRequest, now: int)
    ensures CycleTimeSeconds(pr, now) == SecondsOpen(now)(pr)
  {
  }

  /** A series of cycle times, with buckets up to 1 and 4 hours, and 1, 3 and 7 days. */
  ghost predicate PRSeriesIsExact(fmt: Format, prs: seq<PullRequest>, now: int, s: Series) {
    && Select(prs, PRMatches(fmt, s.labels)) != []
    && Summarises(s, Select(prs, PRMatches(fmt, s.labels)), PRLeaf.bounds, SecondsOpen(now))
    && s.buckets.Keys == Minutes({60, 4 * 60, 24 * 60, 3 * 24 * 60, 7 * 24 * 60})
  }

  lemma PRBounds()
    ensures Elements(PRLeaf.bounds) == Minutes({60, 4 * 60, 24 * 60, 3 * 24 * 60, 7 * 24 * 60})
  {
  }

  /** Main result for pull requests: one series per repo, creation month and state that
      occur, summarising exactly the requests with them. */
  lemma PRMetricIsExact(fmt: Format, prs: seq<PullRequest>, now: int)
    ensures var e := Emitted(fmt, PRLevels, PRLeaf, prs, ProjectPullRequest(now));
      && e.ok && DistinctLabels(e.emitted)
      && (forall i :: 0 <= i < |e.emitted| ==> PRSeriesIsExact(fmt, prs, now, e.emitted[i]))
      && (forall pr :: pr in prs ==> HasSeries(e.emitted, PRLabels(fmt, pr)))
      && EmittedRemotely(fmt, PRLevels, PRLeaf, prs, ProjectPullRequest(now)) == e
  {
    var project := ProjectPullRequest(now);
    var e := Emitted(fmt, PRLevels, PRLeaf, prs, project);
    PRsTyped(fmt, prs, now);
    PRsHold(prs, now);
    ChainMetricIsExact(fmt, PRLevels, PRLeaf, prs, project, SecondsOpen(now));
    RemotelyTheSame(fmt, PRLevels, PRLeaf, prs, project);
    forall i | 0 <= i < |e.emitted| ensures PRSeriesIsExact(fmt, prs, now, e.emitted[i]) {
      assert SummarisesSome(fmt, PRLevels, PRLeaf, prs, project, SecondsOpen(now), e.emitted[i]);
      PRSeriesOf(fmt, prs, now, e.emitted[i]);
    }
    forall pr | pr in prs ensures HasSeries(e.emitted, PRLabels(fmt, pr)) {
      PRHasKeys(fmt, pr, now, PRLabels(fmt, pr));
      TextLabelsAreKeys(PRLevels, PRLabels(fmt, pr));
    }
  }

  lemma PRsHold(prs: seq<PullRequest>, now: int)
    ensures forall pr :: pr in prs ==> Holding(pr, PRLeaf.field, ProjectPullRequest(now), SecondsOpen(now))
  {
    forall pr | pr in prs ensures Holding(pr, PRLeaf.field, ProjectPullRequest(now), SecondsOpen(now)) {
      PRFields(pr, now);
      CycleTimeIsTimeOpen(pr, now);
    }
  }

  lemma PRSeriesOf(fmt: Format, prs: seq<PullRequest>, now: int, s: Series)
    requires SummarisesSome(fmt, PRLevels, PRLeaf, prs, ProjectPullRequest(now), SecondsOpen(now), s)
    ensures PRSeriesIsExact(fmt, prs, now, s)
  {
    var project := ProjectPullRequest(now);
    var ks :| SummarisesKeys(fmt, PRLevels, PRLeaf, prs, project, SecondsOpen(now), ks, s);
    TextLabelsAreKeys(PRLevels, ks);
    forall pr ensures RowHas(fmt, PRLevels, project, ks)(pr) == PRMatches(fmt, s.labels)(pr) {
      PRHasKeys(fmt, pr, now, ks);
    }
    SelectSame(prs, RowHas(fmt, PRLevels, project, ks), PRMatches(fmt, s.labels));
    PRBounds();
  }
}
