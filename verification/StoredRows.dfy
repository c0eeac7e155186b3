/** What the metrics say of the stored rows, in the fields of those rows: which owners a workflow
    has, and which rows a tuple of labels is about. */
module StoredRows {
  import opened Seqs
  import opened Printing
  import opened Queries
  import opened Ownership
  import opened OwnerKeys
  import opened Repositories
  import opened MetricTree
  import opened Metrics
  import opened TaskMetrics

  /** The stored workflows, and the indexes from repo to component and from component to team. */
  datatype Tables = Tables(workflows: map<string, Workflow>, owners: map<string, string>, teams: map<string, string>)

  ghost function TablesOf(repo: MemoryRepository): Tables
    reads repo
  {
    Tables(repo.workflows, repo.repoToComponent, repo.componentToTeam)
  }

  predicate Indexed(d: Tables, repo: string) {
    repo in d.owners && d.owners[repo] != ""
  }

  /** The repo is indexed to the component, which has the team, or none. */
  predicate RepoOwned(d: Tables, repo: string, team: string, comp: string) {
    && repo in d.owners && d.owners[repo] == comp && comp != ""
    && team == if comp in d.teams && d.teams[comp] != "" then d.teams[comp] else "unknown"
  }

  /** Some repo of the workflow is; or none of its repos has a component, and the owner is unknown. */
  predicate WorkflowOwned(d: Tables, workflowID: string, team: string, comp: string) {
    var repos := if workflowID in d.workflows then d.workflows[workflowID].repoIDs else [];
    || (exists repo :: repo in repos && RepoOwned(d, repo, team, comp))
    || (team == comp == "unknown" && !exists repo :: repo in repos && Indexed(d, repo))
  }

  function NameStored(d: Tables, workflowID: string): string {
    if workflowID in d.workflows then d.workflows[workflowID].name else workflowID
  }

  ghost predicate IsLookup(l: OwnerLookup, d: Tables) {
    l.rtc == d.owners && l.ct == d.teams && DescribesAll(l, d.workflows)
  }

  lemma {:induction false} OwnersStored(l: OwnerLookup, d: Tables, workflowID: string, o: Owner)
    requires IsLookup(l, d)
    ensures o in OwnersOf(l, workflowID) <==> WorkflowOwned(d, workflowID, o.team, o.component)
  {
    var repos := ReposOf(l, workflowID);
    OwnersAreResolvedRepos(l, workflowID);
    forall repo ensures HasComponent(l, repo) <==> Indexed(d, repo)
      ensures LeadsTo(l, repo, o) <==> RepoOwned(d, repo, o.team, o.component)
    {
    }
    if repo :| repo in repos && RepoOwned(d, repo, o.team, o.component) {
      var i :| 0 <= i < |repos| && repos[i] == repo;
      assert LeadsTo(l, repos[i], o) && HasComponent(l, repo);
    }
    if i :| 0 <= i < |repos| && LeadsTo(l, repos[i], o) {
      assert repos[i] in repos && RepoOwned(d, repos[i], o.team, o.component);
    }
  }

  /** No owner's team has the separator in its name. */
  ghost predicate NoBars(d: Tables, workflowIDs: set<string>) {
    forall w, team, comp :: w in workflowIDs && WorkflowOwned(d, w, team, comp) ==> '|' !in team
  }

  // ---- runs

  predicate RunIs(d: Tables, r: WorkflowRun, labels: seq<string>)
    requires |labels| == 6
  {
    && WorkflowOwned(d, r.workflowID, labels[0], labels[1]) && labels[2] == r.workflowID
    && labels[3] == NameStored(d, r.workflowID) && labels[4] == r.branch && labels[5] == r.status
  }

  function RunsWith(d: Tables, labels: seq<string>): WorkflowRun -> bool
    requires |labels| == 6
  {
    (r: WorkflowRun) => RunIs(d, r, labels)
  }

  ghost function WorkflowsOfRuns(runs: seq<WorkflowRun>): set<string> {
    set r | r in runs :: r.workflowID
  }

  /** The series sent tell exactly what the runs are: their labels are distinct; each is about the
      runs that have its labels, some at least, and has their number, the sum of their durations
      and how many last up to each bound; and a run has a series under a team and a component if
      and only if its workflow is theirs. */
  ghost predicate RunsTold(d: Tables, runs: seq<WorkflowRun>, sent: Stream<Series>) {
    && sent.ok && DistinctLabels(sent.emitted)
    && (forall i :: 0 <= i < |sent.emitted| ==> RunSeriesTold(d, runs, sent.emitted[i]))
    && (forall r, team, comp :: r in runs ==>
          (HasSeries(sent.emitted, LabelsOfRun(d, r, team, comp)) <==> WorkflowOwned(d, r.workflowID, team, comp)))
  }

  function LabelsOfRun(d: Tables, r: WorkflowRun, team: string, comp: string): seq<string> {
    [team, comp, r.workflowID, NameStored(d, r.workflowID), r.branch, r.status]
  }

  ghost predicate RunSeriesTold(d: Tables, runs: seq<WorkflowRun>, s: Series) {
    && |s.labels| == 6
    && var those := Select(runs, RunsWith(d, s.labels));
       && those != [] && s.count == |those| && s.sum == SumBy(those, DurationOfRun())
       && s.buckets.Keys == Minutes({1, 5, 15, 30, 60, 120, 360})
       && forall b :: b in s.buckets ==> s.buckets[b] == |Select(those, UpTo(DurationOfRun(), b))|
  }

  lemma RunMatchesIs(l: OwnerLookup, d: Tables, r: WorkflowRun, labels: seq<string>)
    requires IsLookup(l, d) && |labels| == 6
    ensures RunMatches(l, labels)(r) <==> RunIs(d, r, labels)
  {
    OwnersStored(l, d, r.workflowID, Owner(labels[1], labels[0]));
  }

  lemma RunSeriesIsTold(l: OwnerLookup, d: Tables, runs: seq<WorkflowRun>, s: Series)
    requires IsLookup(l, d) && RunSeriesIsExact(l, runs, s)
    ensures RunSeriesTold(d, runs, s)
  {
    forall r | r in runs ensures RunMatches(l, s.labels)(r) == RunsWith(d, s.labels)(r) {
      RunMatchesIs(l, d, r, s.labels);
    }
    SelectSame(runs, RunMatches(l, s.labels), RunsWith(d, s.labels));
    RunBounds();
    assert forall b :: b in s.buckets ==> b in RunLeaf.bounds;
  }

  lemma BarsOfRuns(l: OwnerLookup, d: Tables, runs: seq<WorkflowRun>)
    requires IsLookup(l, d) && NoBars(d, WorkflowsOfRuns(runs))
    ensures CleanTeams(l, runs)
  {
    forall r, o | r in runs && o in OwnersOf(l, r.workflowID) ensures Sep !in o.team {
      OwnersStored(l, d, r.workflowID, o);
      assert r.workflowID in WorkflowsOfRuns(runs);
    }
  }

  /** A series under these labels is about a run of that workflow. */
  lemma RunUnderLabels(d: Tables, runs: seq<WorkflowRun>, sent: seq<Series>, r: WorkflowRun, team: string, comp: string)
    requires forall i :: 0 <= i < |sent| ==> RunSeriesTold(d, runs, sent[i])
    requires HasSeries(sent, LabelsOfRun(d, r, team, comp))
    ensures WorkflowOwned(d, r.workflowID, team, comp)
  {
    var i :| 0 <= i < |sent| && sent[i].labels == LabelsOfRun(d, r, team, comp);
    var those := Select(runs, RunsWith(d, sent[i].labels));
    assert RunSeriesTold(d, runs, sent[i]);
    assert those[0] in those;
    assert RunIs(d, those[0], sent[i].labels);
  }

  /** Main result for stored runs. */
  lemma {:induction false} StoredRunsTold(fmt: Format, l: OwnerLookup, d: Tables, runs: seq<WorkflowRun>)
    requires IsLookup(l, d) && NoBars(d, WorkflowsOfRuns(runs))
    ensures RunsTold(d, runs, Emitted(fmt, RunLevels, RunLeaf, runs, ProjectWorkflowRun(l)))
  {
    var sent := Emitted(fmt, RunLevels, RunLeaf, runs, ProjectWorkflowRun(l));
    BarsOfRuns(l, d, runs);
    RunMetricIsExact(fmt, l, runs);
    forall i | 0 <= i < |sent.emitted| ensures RunSeriesTold(d, runs, sent.emitted[i]) {
      RunSeriesIsTold(l, d, runs, sent.emitted[i]);
    }
    forall r, team, comp | r in runs
      ensures HasSeries(sent.emitted, LabelsOfRun(d, r, team, comp)) <==> WorkflowOwned(d, r.workflowID, team, comp)
    {
      OwnersStored(l, d, r.workflowID, Owner(comp, team));
      if WorkflowOwned(d, r.workflowID, team, comp) {
        assert RunLabels(l, r, Owner(comp, team)) == LabelsOfRun(d, r, team, comp);
      }
      if HasSeries(sent.emitted, LabelsOfRun(d, r, team, comp)) {
        RunUnderLabels(d, runs, sent.emitted, r, team, comp);
      }
    }
  }

  // ---- tasks

  /** The labels of a task: its workflow and branch are those of its run, if that is stored. */
  ghost predicate TaskIs(d: Tables, runs: map<string, WorkflowRun>, t: WorkflowTask, labels: seq<string>)
    requires |labels| == 8
  {
    && (if t.workflowRunID in runs
        then labels[2] == runs[t.workflowRunID].workflowID && labels[4] == runs[t.workflowRunID].branch
        else labels[2] == "" && labels[4] == "")
    && WorkflowOwned(d, labels[2], labels[0], labels[1]) && labels[3] == NameStored(d, labels[2])
    && labels[5] == t.name && PaddedInteger(labels[6], t.order) && labels[7] == t.status
  }

  ghost function TasksWith(d: Tables, runs: map<string, WorkflowRun>, labels: seq<string>): WorkflowTask -> bool
    requires |labels| == 8
  {
    (t: WorkflowTask) => TaskIs(d, runs, t, labels)
  }

  /** As for runs: each series is about the tasks that have its labels, some at least; and every
      tuple of labels that a task has is that of a series. */
  ghost predicate TasksTold(d: Tables, runs: map<string, WorkflowRun>, tasks: seq<WorkflowTask>, sent: Stream<Series>) {
    && sent.ok && DistinctLabels(sent.emitted)
    && (forall i :: 0 <= i < |sent.emitted| ==> TaskSeriesTold(d, runs, tasks, sent.emitted[i]))
    && (forall t, labels :: t in tasks && |labels| == 8 && TaskIs(d, runs, t, labels) ==>
          HasSeries(sent.emitted, labels))
  }

  ghost predicate TaskSeriesTold(d: Tables, runs: map<string, WorkflowRun>, tasks: seq<WorkflowTask>, s: Series) {
    && |s.labels| == 8
    && var those := Select(tasks, TasksWith(d, runs, s.labels));
       && those != [] && s.count == |those| && s.sum == SumBy(those, DurationOfTask())
       && s.buckets.Keys == {30.0} + Minutes({1, 2, 5, 10, 30, 60})
       && forall b :: b in s.buckets ==> s.buckets[b] == |Select(those, UpTo(DurationOfTask(), b))|
  }

  lemma TaskMatchesIs(c: TaskContext, d: Tables, t: WorkflowTask, labels: seq<string>)
    requires IsLookup(c.lookup, d) && |labels| == 8
    ensures TaskMatches(c, labels)(t) <==> TaskIs(d, c.runs, t, labels)
  {
    var fields := TaskFields(c, t);
    OwnersStored(c.lookup, d, fields[0], Owner(labels[1], labels[0]));
    PaddedIs(labels[6], t.order);
    EightLabels(labels, fields);
  }

  lemma EightLabels(labels: seq<string>, fields: seq<string>)
    requires |labels| == 8 && |fields| == 6
    ensures labels[2..] == fields
       <==> && labels[2] == fields[0] && labels[3] == fields[1] && labels[4] == fields[2]
            && labels[5] == fields[3] && labels[6] == fields[4] && labels[7] == fields[5]
  {
    var rest := labels[2..];
    assert rest[0] == labels[2] && rest[1] == labels[3] && rest[2] == labels[4];
    assert rest[3] == labels[5] && rest[4] == labels[6] && rest[5] == labels[7];
  }

  lemma TaskSeriesIsTold(c: TaskContext, d: Tables, tasks: seq<WorkflowTask>, s: Series)
    requires IsLookup(c.lookup, d) && TaskSeriesIsExact(c, tasks, s)
    ensures TaskSeriesTold(d, c.runs, tasks, s)
  {
    forall t | t in tasks ensures TaskMatches(c, s.labels)(t) == TasksWith(d, c.runs, s.labels)(t) {
      TaskMatchesIs(c, d, t, s.labels);
    }
    SelectSame(tasks, TaskMatches(c, s.labels), TasksWith(d, c.runs, s.labels));
    TaskBounds();
    assert forall b :: b in s.buckets ==> b in TaskLeaf.bounds;
  }

  ghost function WorkflowsOfTasks(runs: map<string, WorkflowRun>, tasks: seq<WorkflowTask>): set<string> {
    set t | t in tasks :: if t.workflowRunID in runs then runs[t.workflowRunID].workflowID else ""
  }

  lemma BarsOfTasks(c: TaskContext, d: Tables, tasks: seq<WorkflowTask>)
    requires IsLookup(c.lookup, d) && NoBars(d, WorkflowsOfTasks(c.runs, tasks))
    ensures CleanTaskTeams(c, tasks)
  {
    forall t, o | t in tasks && o in OwnersOfTask(c, t) ensures Sep !in o.team {
      OwnersStored(c.lookup, d, WorkflowOfTask(c.runs, t), o);
      assert WorkflowOfTask(c.runs, t) in WorkflowsOfTasks(c.runs, tasks);
    }
  }

  lemma TaskUnderItsLabels(c: TaskContext, d: Tables, t: WorkflowTask, labels: seq<string>)
    requires IsLookup(c.lookup, d) && |labels| == 8 && TaskIs(d, c.runs, t, labels)
    ensures var o := Owner(labels[1], labels[0]);
      o in OwnersOfTask(c, t) && [o.team, o.component] + TaskFields(c, t) == labels
  {
    TaskMatchesIs(c, d, t, labels);
    assert labels == [labels[0], labels[1]] + labels[2..];
  }

  /** Main result for stored tasks. */
  lemma {:induction false} StoredTasksTold(fmt: Format, c: TaskContext, d: Tables, tasks: seq<WorkflowTask>)
    requires IsLookup(c.lookup, d) && NoBars(d, WorkflowsOfTasks(c.runs, tasks))
    ensures TasksTold(d, c.runs, tasks, Emitted(fmt, TaskLevels, TaskLeaf, tasks, Project(c)))
  {
    var sent := Emitted(fmt, TaskLevels, TaskLeaf, tasks, Project(c));
    BarsOfTasks(c, d, tasks);
    TaskMetricIsExact(fmt, c, tasks);
    forall i | 0 <= i < |sent.emitted| ensures TaskSeriesTold(d, c.runs, tasks, sent.emitted[i]) {
      TaskSeriesIsTold(c, d, tasks, sent.emitted[i]);
    }
    forall t, labels | t in tasks && |labels| == 8 && TaskIs(d, c.runs, t, labels)
      ensures HasSeries(sent.emitted, labels)
    {
      TaskUnderItsLabels(c, d, t, labels);
    }
  }
}
