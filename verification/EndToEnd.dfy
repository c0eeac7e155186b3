/** From what a repository stores to the Prometheus series of a scrape, whatever order the
    repository's maps are iterated in, and whichever repository it is. */
module EndToEnd {
  import opened Seqs
  import opened Values
  import opened Printing
  import opened Queries
  import opened Aggregation
  import opened AggregationOrder
  import opened Ownership
  import opened Repositories
  import opened MetricTree
  import opened Metrics
  import opened TaskMetrics
  import opened StoredRows
  import opened Components

  ghost predicate LevelsTyped(levels: seq<Level>, items: seq<Item>) {
    forall i :: 0 <= i < |levels| ==>
      levels[i].op == DateHistogram || (levels[i].op == Terms && OneKeyType(items, levels[i].field))
  }

  lemma {:induction false} ChainTypedKeys(levels: seq<Level>, leaf: Leaf, items: seq<Item>)
    requires LevelsTyped(levels, items)
    ensures forall n :: n in Chain(levels, leaf) ==> TypedKeys(Chain(levels, leaf)[n], items)
    decreases |levels|
  {
    if levels != [] {
      forall i | 0 <= i < |levels[1..]|
        ensures levels[1..][i].op == DateHistogram
             || (levels[1..][i].op == Terms && OneKeyType(items, levels[1..][i].field))
      {
        assert levels[1..][i] == levels[i + 1];
      }
      ChainTypedKeys(levels[1..], leaf, items);
      var agg := LevelAgg(levels, leaf);
      assert agg.aggs == Chain(levels[1..], leaf);
      assert levels[0].op == DateHistogram || OneKeyType(items, levels[0].field);
      assert TypedKeys(agg, items);
    }
  }

  lemma TextIsOneType<T>(rows: seq<T>, project: T -> Item, field: string)
    requires forall row :: row in rows ==> IsText(field)(project(row))
    ensures OneKeyType(Map(rows, project), field)
  {
    ItemsAreProjections(rows, project, IsText(field));
  }

  lemma IntIsOneType<T>(rows: seq<T>, project: T -> Item, field: string)
    requires forall row :: row in rows ==> IsInt(field)(project(row))
    ensures OneKeyType(Map(rows, project), field)
  {
    ItemsAreProjections(rows, project, IsInt(field));
  }

  lemma OwnersAreOneType<T>(rows: seq<T>, project: T -> Item)
    requires forall row :: row in rows ==> IsOwnerList()(project(row))
    ensures OneKeyType(Map(rows, project), "owner")
  {
    ItemsAreProjections(rows, project, IsOwnerList());
  }

  lemma {:induction false} RunLevelsTyped(l: OwnerLookup, runs: seq<WorkflowRun>)
    ensures LevelsTyped(RunLevels, Map(runs, ProjectWorkflowRun(l)))
  {
    var project := ProjectWorkflowRun(l);
    forall r | r in runs
      ensures IsOwnerList()(project(r)) && IsText("workflow_id")(project(r)) && IsText("workflow_name")(project(r))
      ensures IsText("branch")(project(r)) && IsText("status")(project(r))
    {
      RunOwnerField(l, r);
      RunFields(l, r);
    }
    OwnersAreOneType(runs, project);
    TextIsOneType(runs, project, "workflow_id");
    TextIsOneType(runs, project, "workflow_name");
    TextIsOneType(runs, project, "branch");
    TextIsOneType(runs, project, "status");
  }

  lemma NoFilterSelectsAll<T>(rows: seq<T>, project: T -> Item)
    ensures Select(rows, AcceptedBy(None, project)) == rows && !SomeFails(rows, None, project)
  {
    SelectAll(rows, AcceptedBy(None, project));
  }

  /** Main result: the series of a state are determined by it: for any chain with one type
      per level, two iterations over the stored rows lead to the very same emission. */
  lemma EmissionIsDetermined<T>(fmt: Format, levels: seq<Level>, leaf: Leaf, rows: map<string, T>, project: T -> Item,
                                s: seq<T>, t: seq<T>)
    requires Enumerates(rows, s) && Enumerates(rows, t) && LevelsTyped(levels, Map(s, project))
    ensures Emitted(fmt, levels, leaf, s, project) == Emitted(fmt, levels, leaf, t, project)
  {
    if s == [] {
      assert rows == map[] && t == [];
    } else {
      EnumerationsPermute(rows, s, t, s[0]);
      NoFilterSelectsAll(s, project);
      NoFilterSelectsAll(t, project);
      ChainTypedKeys(levels, leaf, Map(s, project));
      AggregateIsDetermined(fmt, Root(Chain(levels, leaf)), s, t, None, project);
    }
  }

  lemma RunEmissionIsDetermined(fmt: Format, l: OwnerLookup, runs: map<string, WorkflowRun>,
                                s: seq<WorkflowRun>, t: seq<WorkflowRun>)
    requires Enumerates(runs, s) && Enumerates(runs, t)
    ensures Emitted(fmt, RunLevels, RunLeaf, s, ProjectWorkflowRun(l))
         == Emitted(fmt, RunLevels, RunLeaf, t, ProjectWorkflowRun(l))
  {
    RunLevelsTyped(l, s);
    EmissionIsDetermined(fmt, RunLevels, RunLeaf, runs, ProjectWorkflowRun(l), s, t);
  }

  lemma {:induction false} TaskLevelsTyped(c: TaskContext, tasks: seq<WorkflowTask>)
    ensures LevelsTyped(TaskLevels, Map(tasks, Project(c)))
  {
    var project := Project(c);
    forall t | t in tasks
      ensures IsOwnerList()(project(t)) && IsText("workflow_id")(project(t)) && IsText("workflow_name")(project(t))
      ensures IsText("branch")(project(t)) && IsText("name")(project(t)) && IsText("status")(project(t))
      ensures IsInt("order")(project(t))
    {
      TaskFieldTypes(c, t);
    }
    OwnersAreOneType(tasks, project);
    TextIsOneType(tasks, project, "workflow_id");
    TextIsOneType(tasks, project, "workflow_name");
    TextIsOneType(tasks, project, "branch");
    TextIsOneType(tasks, project, "name");
    IntIsOneType(tasks, project, "order");
    TextIsOneType(tasks, project, "status");
  }

  lemma TaskEmissionIsDetermined(fmt: Format, c: TaskContext, tasks: map<string, WorkflowTask>,
                                 s: seq<WorkflowTask>, t: seq<WorkflowTask>)
    requires Enumerates(tasks, s) && Enumerates(tasks, t)
    ensures Emitted(fmt, TaskLevels, TaskLeaf, s, Project(c)) == Emitted(fmt, TaskLevels, TaskLeaf, t, Project(c))
  {
    TaskLevelsTyped(c, s);
    EmissionIsDetermined(fmt, TaskLevels, TaskLeaf, tasks, Project(c), s, t);
  }

  lemma {:induction false} PRLevelsTyped(prs: seq<PullRequest>, now: int)
    ensures LevelsTyped(PRLevels, Map(prs, ProjectPullRequest(now)))
  {
    TextIsOneType(prs, ProjectPullRequest(now), "repo_id");
    TextIsOneType(prs, ProjectPullRequest(now), "state");
  }

  lemma {:induction false} PREmissionIsDetermined(fmt: Format, prs: map<string, PullRequest>, now: int,
                                                  s: seq<PullRequest>, t: seq<PullRequest>)
    requires Enumerates(prs, s) && Enumerates(prs, t)
    ensures Emitted(fmt, PRLevels, PRLeaf, s, ProjectPullRequest(now))
         == Emitted(fmt, PRLevels, PRLeaf, t, ProjectPullRequest(now))
  {
    PRLevelsTyped(s, now);
    EmissionIsDetermined(fmt, PRLevels, PRLeaf, prs, ProjectPullRequest(now), s, t);
  }

  /** Main result: after the same events, all harmless, and with the same workflows and runs,
      both repositories lead to the very same run series. */
  lemma BackendsEmitAlike(fmt: Format, m: MemoryRepository, q: SQLiteRepository, runs: map<string, WorkflowRun>,
                          s: seq<WorkflowRun>, t: seq<WorkflowRun>)
    requires m.Valid() && q.Valid() && m.history == q.history && m.workflows == q.workflows
    requires AlwaysHarmless(m.history) && Enumerates(runs, s) && Enumerates(runs, t)
    ensures Emitted(fmt, RunLevels, RunLeaf, s, ProjectWorkflowRun(m.Lookup()))
         == Emitted(fmt, RunLevels, RunLeaf, t, ProjectWorkflowRun(q.Lookup()))
  {
    BackendsAnswerAlike(m, q, "");
    RunEmissionIsDetermined(fmt, m.Lookup(), runs, s, t);
  }

  // ---- from the stored rows to the series sent

  /** Grouped by terms or by times, over a numeric measure: nothing the evaluation rejects. */
  ghost predicate Accepted(levels: seq<Level>, leaf: Leaf, items: seq<Item>) {
    && (forall i :: 0 <= i < |levels| ==> LevelAccepts(levels[i], items)) && leaf.bounds != []
    && forall x :: x in items && leaf.field in x ==> Numeric(x[leaf.field])
  }

  ghost predicate LevelAccepts(l: Level, items: seq<Item>) {
    || l.op == Terms
    || (l.op == DateHistogram && forall x: Item :: x in items && l.field in x ==> x[l.field].Time?)
  }

  lemma {:induction false} ChainEvaluates(fmt: Format, levels: seq<Level>, leaf: Leaf, items: seq<Item>)
    requires Accepted(levels, leaf, items)
    ensures forall n :: n in Chain(levels, leaf) ==> AggOk(fmt, Chain(levels, leaf)[n], items)
    decreases |levels|
  {
    if levels == [] {
      assert NoneRejected(LeafAgg(leaf), items);
    } else {
      var agg := LevelAgg(levels, leaf);
      assert agg.aggs == Chain(levels[1..], leaf);
      forall k ensures SubsOk(fmt, agg, Group(fmt, agg, items, k)) {
        var g := Group(fmt, agg, items, k);
        AcceptedBelow(levels, leaf, items, g);
        ChainEvaluates(fmt, levels[1..], leaf, g);
      }
      assert LevelAccepts(levels[0], items);
      assert NoneRejected(agg, items);
    }
  }

  lemma AcceptedBelow(levels: seq<Level>, leaf: Leaf, items: seq<Item>, part: seq<Item>)
    requires levels != [] && Accepted(levels, leaf, items) && forall x :: x in part ==> x in items
    ensures Accepted(levels[1..], leaf, part)
  {
    forall i | 0 <= i < |levels[1..]| ensures LevelAccepts(levels[1..][i], part) {
      assert LevelAccepts(levels[i + 1], items);
    }
  }

  function HasNumber(field: string): Item -> bool {
    x => field in x ==> Numeric(x[field])
  }

  function HasTime(field: string): Item -> bool {
    (x: Item) => field in x ==> x[field].Time?
  }

  lemma RunsAccepted(l: OwnerLookup, runs: seq<WorkflowRun>)
    ensures Accepted(RunLevels, RunLeaf, Map(runs, ProjectWorkflowRun(l)))
  {
    forall r | r in runs ensures HasNumber("duration")(ProjectWorkflowRun(l)(r)) {
      RunFields(l, r);
    }
    ItemsAreProjections(runs, ProjectWorkflowRun(l), HasNumber("duration"));
    assert forall x :: HasNumber("duration")(x) ==> "duration" !in x || Numeric(x["duration"]);
  }

  lemma TasksAccepted(c: TaskContext, tasks: seq<WorkflowTask>)
    ensures Accepted(TaskLevels, TaskLeaf, Map(tasks, Project(c)))
  {
    forall t | t in tasks ensures HasNumber("duration")(Project(c)(t)) {
      OwnTaskFields(c, t);
    }
    ItemsAreProjections(tasks, Project(c), HasNumber("duration"));
    assert forall x :: HasNumber("duration")(x) ==> "duration" !in x || Numeric(x["duration"]);
  }

  lemma PRsAccepted(prs: seq<PullRequest>, now: int)
    ensures Accepted(PRLevels, PRLeaf, Map(prs, ProjectPullRequest(now)))
  {
    var field := "cycle_time_seconds";
    forall pr | pr in prs
      ensures HasNumber(field)(ProjectPullRequest(now)(pr)) && HasTime("created_at")(ProjectPullRequest(now)(pr))
    {
      PRFields(pr, now);
    }
    ItemsAreProjections(prs, ProjectPullRequest(now), HasNumber(field));
    ItemsAreProjections(prs, ProjectPullRequest(now), HasTime("created_at"));
    assert forall x :: HasNumber(field)(x) ==> field !in x || Numeric(x[field]);
    assert forall x: Item :: HasTime("created_at")(x) ==> "created_at" !in x || x["created_at"].Time?;
  }

  /** The refresh of accepted rows never fails; and what it stored is the evaluation of them,
      in some order. */
  lemma {:induction false} RefreshSucceeds<T(!new)>(fmt: Format, levels: seq<Level>, leaf: Leaf, rows: map<string, T>,
                                                    project: T -> Item, r: Result<map<string, AggResult>>)
    returns (s: seq<T>)
    requires AggregatesRows(fmt, Root(Chain(levels, leaf)), rows, None, project, r)
    requires forall s :: Enumerates(rows, s) ==> Accepted(levels, leaf, Map(s, project))
    ensures Enumerates(rows, s) && r.Ok?
    ensures r.value == SubValues(fmt, Root(Chain(levels, leaf)), Map(s, project))
  {
    s :| Enumerates(rows, s) && AggregatesTo(fmt, Root(Chain(levels, leaf)), s, None, project, r);
    NoFilterSelectsAll(s, project);
    ChainEvaluates(fmt, levels, leaf, Map(s, project));
  }

  /** Collects the stored tree, handed over directly or read back from JSON. */
  method Collect(fmt: Format, levels: seq<Level>, leaf: Leaf, tree: map<string, AggResult>, remote: bool)
    returns (sent: Stream<Series>)
    ensures Walk(levels, leaf, [], tree).ok ==> sent == Walk(levels, leaf, [], tree)
  {
    sent := Emit(levels, leaf, [], if remote then ReadBack(fmt, tree) else tree);
    if Walk(levels, leaf, [], tree).ok {
      WalkReadBack(fmt, levels, leaf, [], tree);
    }
  }

  /** Refreshes the run metric and collects it: the aggregation of the stored runs never
      fails, and what is sent is their emission, for any order of iterating them, whether
      the tree is handed over directly or read back from JSON; and it tells what is stored. */
  method RefreshAndCollectRuns(fmt: Format, repo: MemoryRepository, remote: bool) returns (sent: Stream<Series>)
    ensures forall s :: Enumerates(repo.workflowRuns, s) ==>
              sent == Emitted(fmt, RunLevels, RunLeaf, s, ProjectWorkflowRun(repo.Lookup()))
    ensures forall s :: Enumerates(repo.workflowRuns, s) && NoBars(TablesOf(repo), WorkflowsOfRuns(s)) ==>
              RunsTold(TablesOf(repo), s, sent)
  {
    var result := repo.AggregateRuns(fmt, Root(Chain(RunLevels, RunLeaf)), None);
    ghost var l := repo.Lookup();
    forall s: seq<WorkflowRun> ensures Accepted(RunLevels, RunLeaf, Map(s, ProjectWorkflowRun(l))) {
      RunsAccepted(l, s);
    }
    ghost var s0 := RefreshSucceeds(fmt, RunLevels, RunLeaf, repo.workflowRuns, ProjectWorkflowRun(l), result);
    RunsEmit(fmt, l, s0);
    sent := Collect(fmt, RunLevels, RunLeaf, result.value, remote);
    forall s | Enumerates(repo.workflowRuns, s)
      ensures sent == Emitted(fmt, RunLevels, RunLeaf, s, ProjectWorkflowRun(l))
      ensures NoBars(TablesOf(repo), WorkflowsOfRuns(s)) ==> RunsTold(TablesOf(repo), s, sent)
    {
      RunEmissionIsDetermined(fmt, l, repo.workflowRuns, s0, s);
      if NoBars(TablesOf(repo), WorkflowsOfRuns(s)) {
        StoredRunsTold(fmt, l, TablesOf(repo), s);
      }
    }
  }

  /** The same for the task metric, joined with the stored runs. */
  method RefreshAndCollectTasks(fmt: Format, repo: MemoryRepository, remote: bool) returns (sent: Stream<Series>)
    ensures forall s :: Enumerates(repo.workflowTasks, s) ==>
              sent == Emitted(fmt, TaskLevels, TaskLeaf, s, Project(ContextOf(repo)))
    ensures forall s :: Enumerates(repo.workflowTasks, s)
                        && NoBars(TablesOf(repo), WorkflowsOfTasks(repo.workflowRuns, s)) ==>
              TasksTold(TablesOf(repo), repo.workflowRuns, s, sent)
  {
    var result := repo.AggregateTasks(fmt, Root(Chain(TaskLevels, TaskLeaf)), None);
    ghost var c := ContextOf(repo);
    forall s: seq<WorkflowTask> ensures Accepted(TaskLevels, TaskLeaf, Map(s, Project(c))) {
      TasksAccepted(c, s);
    }
    ghost var s0 := RefreshSucceeds(fmt, TaskLevels, TaskLeaf, repo.workflowTasks, Project(c), result);
    TasksEmit(fmt, c, s0);
    sent := Collect(fmt, TaskLevels, TaskLeaf, result.value, remote);
    forall s | Enumerates(repo.workflowTasks, s)
      ensures sent == Emitted(fmt, TaskLevels, TaskLeaf, s, Project(c))
      ensures NoBars(TablesOf(repo), WorkflowsOfTasks(repo.workflowRuns, s)) ==>
                TasksTold(TablesOf(repo), repo.workflowRuns, s, sent)
    {
      TaskEmissionIsDetermined(fmt, c, repo.workflowTasks, s0, s);
      if NoBars(TablesOf(repo), WorkflowsOfTasks(repo.workflowRuns, s)) {
        StoredTasksTold(fmt, c, TablesOf(repo), s);
      }
    }
  }

  ghost function ContextOf(repo: MemoryRepository): TaskContext
    reads repo
  {
    TaskContext(repo.Lookup(), repo.workflowRuns)
  }

  /** And for the pull request metric, which is always exact. */
  method RefreshAndCollectPullRequests(fmt: Format, repo: MemoryRepository, now: int, remote: bool)
    returns (sent: Stream<Series>)
    ensures forall s :: Enumerates(repo.pullRequests, s) ==>
              && sent == Emitted(fmt, PRLevels, PRLeaf, s, ProjectPullRequest(now))
              && PRsAreExact(fmt, s, now, sent)
  {
    var result := repo.AggregatePullRequests(fmt, Root(Chain(PRLevels, PRLeaf)), None, now);
    forall s: seq<PullRequest> ensures Accepted(PRLevels, PRLeaf, Map(s, ProjectPullRequest(now))) {
      PRsAccepted(s, now);
    }
    ghost var s0 := RefreshSucceeds(fmt, PRLevels, PRLeaf, repo.pullRequests, ProjectPullRequest(now), result);
    PRMetricIsExact(fmt, s0, now);
    sent := Collect(fmt, PRLevels, PRLeaf, result.value, remote);
    forall s | Enumerates(repo.pullRequests, s)
      ensures sent == Emitted(fmt, PRLevels, PRLeaf, s, ProjectPullRequest(now)) && PRsAreExact(fmt, s, now, sent)
    {
      PREmissionIsDetermined(fmt, repo.pullRequests, now, s0, s);
      PRMetricIsExact(fmt, s, now);
    }
  }

  ghost predicate PRsAreExact(fmt: Format, prs: seq<PullRequest>, now: int, sent: Stream<Series>) {
    && sent.ok && DistinctLabels(sent.emitted)
    && (forall i :: 0 <= i < |sent.emitted| ==> PRSeriesIsExact(fmt, prs, now, sent.emitted[i]))
    && (forall pr :: pr in prs ==> HasSeries(sent.emitted, PRLabels(fmt, pr)))
  }
}
