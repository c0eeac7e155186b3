/** The two repositories as objects.  Each keeps the events applied to it as a ghost
    history; validity says that its fields are what the pure steps make of it. */
module Repositories {
  import opened Seqs
  import opened Sorting
  import opened Ordering
  import opened Values
  import opened Printing
  import opened Filters
  import opened Aggregation
  import opened AggregationOrder
  import opened Ownership
  import opened Components

  datatype Workflow = Workflow(id: string, name: string, repoIDs: seq<string>)

  function WorkflowRepos(workflows: map<string, Workflow>): map<string, seq<string>> {
    map w | w in workflows :: workflows[w].repoIDs
  }

  function WorkflowNames(workflows: map<string, Workflow>): map<string, string> {
    map w | w in workflows :: workflows[w].name
  }

  ghost predicate DescribesAll(l: OwnerLookup, workflows: map<string, Workflow>) {
    && l.wtr.Keys == l.wfNames.Keys == workflows.Keys
    && forall w :: w in workflows ==> l.wtr[w] == workflows[w].repoIDs && l.wfNames[w] == workflows[w].name
  }

  /** Tasks are stored under their run and order. */
  function TaskKey(t: WorkflowTask): string {
    t.workflowRunID + "/" + Decimal(t.order)
  }

  lemma DecimalHasNoSlash(n: int)
    ensures '/' !in Decimal(n)
  {
    DecimalReads(n);
    forall i | 0 <= i < |Decimal(n)| ensures Decimal(n)[i] != '/' {
      assert n < 0 && i > 0 ==> Decimal(n)[i] == Decimal(n)[1..][i - 1];
    }
  }

  lemma NoSlashAfter(a: string, x: string)
    requires '/' !in x
    ensures var s := a + "/" + x; s[|a|] == '/' && forall i :: |a| < i < |s| ==> s[i] != '/'
  {
    var s := a + "/" + x;
    forall i | |a| < i < |s| ensures s[i] != '/' {
      assert s[i] == x[i - |a| - 1];
    }
  }

  lemma LastSlash(a: string, x: string, b: string, y: string)
    requires a + "/" + x == b + "/" + y && '/' !in x && '/' !in y
    ensures a == b && x == y
  {
    var s, t := a + "/" + x, b + "/" + y;
    NoSlashAfter(a, x);
    NoSlashAfter(b, y);
    assert |a| == |b|;
    assert a == s[..|a|] == t[..|b|] == b && x == s[|a| + 1..] == t[|b| + 1..] == y;
  }

  /** No two tasks share a key, unless they have the same run and order. */
  lemma TaskKeyTellsApart(t: WorkflowTask, u: WorkflowTask)
    ensures TaskKey(t) == TaskKey(u) <==> t.workflowRunID == u.workflowRunID && t.order == u.order
  {
    DecimalHasNoSlash(t.order);
    DecimalHasNoSlash(u.order);
    if TaskKey(t) == TaskKey(u) {
      LastSlash(t.workflowRunID, Decimal(t.order), u.workflowRunID, Decimal(u.order));
      DecimalInjective(t.order, u.order);
    }
  }

  lemma StoredByKey(tasks: map<string, WorkflowTask>, task: WorkflowTask)
    requires FiledByKey(tasks)
    ensures forall t :: t in tasks[TaskKey(task) := task].Values <==>
              t == task || (t in tasks.Values && TaskKey(t) != TaskKey(task))
  {
    var after := tasks[TaskKey(task) := task];
    forall t ensures t in after.Values <==> t == task || (t in tasks.Values && TaskKey(t) != TaskKey(task)) {
      if t in after.Values {
        var k :| k in after && after[k] == t;
        assert k != TaskKey(task) ==> k in tasks && tasks[k] == t;
      }
      if t in tasks.Values && TaskKey(t) != TaskKey(task) {
        var k :| k in tasks && tasks[k] == t;
        assert after[k] == t;
      }
      assert after[TaskKey(task)] == task;
    }
  }

  ghost predicate FiledByKey(tasks: map<string, WorkflowTask>) {
    forall k :: k in tasks ==> TaskKey(tasks[k]) == k
  }

  class MemoryRepository {
    var teams: set<string>
    var workflows: map<string, Workflow>
    var workflowRuns: map<string, WorkflowRun>
    var workflowTasks: map<string, WorkflowTask>
    var pullRequests: map<string, PullRequest>
    var components: map<string, Component>
    var repoToComponent: map<string, string>
    var componentToTeam: map<string, string>
    ghost var history: seq<Event>

    ghost predicate Valid()
      reads this
    {
      MemState(components, repoToComponent, componentToTeam) == MemRun(history) && FiledByKey(workflowTasks)
    }

    constructor ()
      ensures Valid() && history == [] && teams == {} && workflows == map[] && workflowRuns == map[]
      ensures workflowTasks == map[] && pullRequests == map[]
    {
      teams, workflows, workflowRuns, workflowTasks, pullRequests := {}, map[], map[], map[], map[];
      components, repoToComponent, componentToTeam := map[], map[], map[];
      history := [];
    }

    method AddWorkflow(w: Workflow)
      requires Valid()
      modifies this`workflows
      ensures Valid() && workflows == old(workflows)[w.id := w]
    {
      workflows := workflows[w.id := w];
    }

    method AddWorkflowRun(run: WorkflowRun)
      requires Valid()
      modifies this`workflowRuns
      ensures Valid() && workflowRuns == old(workflowRuns)[run.id := run]
    {
      workflowRuns := workflowRuns[run.id := run];
    }

    /** Stores a task; one that has its run and order is replaced, every other one is kept. */
    method AddWorkflowTask(task: WorkflowTask)
      requires Valid()
      modifies this`workflowTasks
      ensures Valid() && workflowTasks == old(workflowTasks)[TaskKey(task) := task]
      ensures forall t :: t in workflowTasks.Values <==>
                t == task || (t in old(workflowTasks).Values
                              && (t.workflowRunID != task.workflowRunID || t.order != task.order))
    {
      workflowTasks := workflowTasks[TaskKey(task) := task];
      forall t ensures TaskKey(t) == TaskKey(task) <==> t.workflowRunID == task.workflowRunID && t.order == task.order {
        TaskKeyTellsApart(t, task);
      }
      StoredByKey(old(workflowTasks), task);
    }

    method AddPullRequest(pr: PullRequest)
      requires Valid()
      modifies this`pullRequests
      ensures Valid() && pullRequests == old(pullRequests)[pr.id := pr]
    {
      pullRequests := pullRequests[pr.id := pr];
    }

    /** Stores a component: takes its stale index entries away, walking its previous
        list, then indexes its new list. */
    method AddComponent(comp: Component)
      requires Valid()
      modifies this`components, this`repoToComponent, this`componentToTeam, this`history
      ensures Valid() && history == old(history) + [ComponentEvent(comp)]
      ensures components == old(components)[comp.name := comp]
      ensures repoToComponent == AbsAddComponent(old(repoToComponent), comp)
      ensures componentToTeam == TeamsOf(components)
    {
      ghost var s := MemState(components, repoToComponent, componentToTeam);
      if comp.name in components {
        var prev := components[comp.name];
        repoToComponent := DropStale(repoToComponent, prev.repoIDs, prev.name);
      }
      components := components[comp.name := comp];
      componentToTeam := componentToTeam[comp.name := comp.teamName];
      repoToComponent := IndexRepos(repoToComponent, comp.repoIDs, comp.name);
      assert MemState(components, repoToComponent, componentToTeam) == MemAddComponent(s, comp);
      history := history + [ComponentEvent(comp)];
      StepEffects(old(history), ComponentEvent(comp));
    }

    /** Applies a self-onboarding event: takes the repo out of the component the index
        names, then files it under its new one. */
    method AddRepoOnboarding(o: RepoOnboarding)
      requires Valid()
      modifies this`teams, this`components, this`repoToComponent, this`componentToTeam, this`history
      ensures Valid() && history == old(history) + [OnboardingEvent(o)]
      ensures teams == old(teams) + {o.team}
      ensures repoToComponent == AbsOnboard(old(repoToComponent), o)
      ensures componentToTeam == TeamsOf(components)
    {
      ghost var s := MemState(components, repoToComponent, componentToTeam);
      teams := teams + {o.team};
      components, repoToComponent, componentToTeam := MoveRepo(components, repoToComponent, componentToTeam, o);
      history := history + [OnboardingEvent(o)];
      StepEffects(old(history), OnboardingEvent(o));
    }

    /** The indexes, and of every stored workflow all its repos and its name. */
    ghost function Lookup(): (l: OwnerLookup)
      reads this
      ensures l.rtc == repoToComponent && l.ct == componentToTeam && DescribesAll(l, workflows)
    {
      OwnerLookup(repoToComponent, WorkflowRepos(workflows), componentToTeam, WorkflowNames(workflows))
    }

    /** Copies the indexes for use without the lock. */
    method SnapshotOwnerLookup() returns (l: OwnerLookup)
      ensures l == Lookup()
    {
      l := OwnerLookup(repoToComponent, WorkflowRepos(workflows), componentToTeam, WorkflowNames(workflows));
    }

    /** Aggregates the stored runs, in whatever order the map yields them. */
    method AggregateRuns(fmt: Format, node: Agg, filter: Option<Filter>) returns (r: Result<map<string, AggResult>>)
      ensures AggregatesRows(fmt, node, workflowRuns, filter, ProjectWorkflowRun(Lookup()), r)
    {
      var snapshot := ValuesInAnyOrder(workflowRuns);
      var l := SnapshotOwnerLookup();
      r := Aggregate(fmt, node, snapshot, filter, ProjectWorkflowRun(l));
    }

    /** Aggregates the stored tasks, joined with the stored runs. */
    method AggregateTasks(fmt: Format, node: Agg, filter: Option<Filter>) returns (r: Result<map<string, AggResult>>)
      ensures AggregatesRows(fmt, node, workflowTasks, filter, ProjectWorkflowTask(Lookup(), workflowRuns), r)
    {
      var snapshot := ValuesInAnyOrder(workflowTasks);
      var l := SnapshotOwnerLookup();
      r := Aggregate(fmt, node, snapshot, filter, ProjectWorkflowTask(l, workflowRuns));
    }

    /** Aggregates the stored pull requests as of now. */
    method AggregatePullRequests(fmt: Format, node: Agg, filter: Option<Filter>, now: int)
      returns (r: Result<map<string, AggResult>>)
      ensures AggregatesRows(fmt, node, pullRequests, filter, ProjectPullRequest(now), r)
    {
      var snapshot := ValuesInAnyOrder(pullRequests);
      r := Aggregate(fmt, node, snapshot, filter, ProjectPullRequest(now));
    }
  }

  class SQLiteRepository {
    var teams: set<string>
    var workflows: map<string, Workflow>
    var components: map<string, Component>
    ghost var history: seq<Event>

    ghost predicate Valid()
      reads this
    {
      components == SqlRun(history)
    }

    constructor ()
      ensures Valid() && history == [] && teams == {} && workflows == map[]
    {
      teams, workflows, components := {}, map[], map[];
      history := [];
    }

    method AddWorkflow(w: Workflow)
      requires Valid()
      modifies this`workflows
      ensures Valid() && workflows == old(workflows)[w.id := w]
    {
      workflows := workflows[w.id := w];
    }

    method AddComponent(c: Component)
      requires Valid()
      modifies this`components, this`history
      ensures Valid() && history == old(history) + [ComponentEvent(c)]
      ensures components == old(components)[c.name := c]
    {
      components := components[c.name := c];
      history := history + [ComponentEvent(c)];
      RunNext(old(history), ComponentEvent(c));
    }

    /** One transaction: reads all rows, strips the repo from every other component that
        lists it, row by row, and writes the target. */
    method AddRepoOnboarding(o: RepoOnboarding)
      requires Valid()
      modifies this`teams, this`components, this`history
      ensures Valid() && history == old(history) + [OnboardingEvent(o)]
      ensures teams == old(teams) + {o.team}
      ensures components == SqlOnboard(old(components), o)
    {
      teams := teams + {o.team};
      var rows := components;
      components := StripRows(rows, o);
      var target := Component(o.component, o.team, if o.component in rows then rows[o.component].repoIDs else []);
      if o.repoID !in target.repoIDs {
        target := target.(repoIDs := target.repoIDs + [o.repoID]);
      }
      components := components[o.component := target];
      assert target == Target(StripAll(rows, o), o);
      history := history + [OnboardingEvent(o)];
      RunNext(old(history), OnboardingEvent(o));
    }

    ghost function Lookup(): (l: OwnerLookup)
      reads this
      ensures l.rtc == Rebuild(components) && l.ct == TeamsOf(components) && DescribesAll(l, workflows)
    {
      OwnerLookup(Rebuild(components), WorkflowRepos(workflows), TeamsOf(components), WorkflowNames(workflows))
    }

    /** Rebuilds the lookup from the rows, ordered by component name. */
    method OwnerLookupFromDB() returns (l: OwnerLookup)
      ensures l == Lookup()
    {
      var names := SortedNames(components);
      assert forall n :: n in names ==> n in Elements(names);
      var rtc: map<string, string>, ct: map<string, string> := map[], map[];
      for i := 0 to |names|
        invariant rtc == RebuildOver(components, names[..i])
        invariant ct == TeamRows(components, names[..i])
      {
        NextName(components, names, i);
        ct := ct[names[i] := components[names[i]].teamName];
        rtc := IndexRepos(rtc, components[names[i]].repoIDs, names[i]);
      }
      assert names[..|names|] == names;
      AllTeamRows(components, names);
      l := OwnerLookup(rtc, WorkflowRepos(workflows), ct, WorkflowNames(workflows));
    }
  }

  ghost function TeamRows(rows: Table, names: seq<string>): map<string, string>
    requires forall n :: n in names ==> n in rows
  {
    map n | n in names :: rows[n].teamName
  }

  lemma NextName(rows: Table, names: seq<string>, i: nat)
    requires i < |names| && forall n :: n in names ==> n in rows
    ensures RebuildOver(rows, names[..i + 1])
         == RebuildOver(rows, names[..i]) + Owned(rows[names[i]].repoIDs, names[i])
    ensures TeamRows(rows, names[..i + 1]) == TeamRows(rows, names[..i])[names[i] := rows[names[i]].teamName]
  {
    assert names[..i + 1][..i] == names[..i];
    assert names[..i + 1] == names[..i] + [names[i]];
  }

  lemma AllTeamRows(rows: Table, names: seq<string>)
    requires Elements(names) == rows.Keys && forall n :: n in names ==> n in rows
    ensures TeamRows(rows, names) == TeamsOf(rows)
  {
    assert forall n :: n in rows ==> n in Elements(names);
  }

  /** What one more event makes of the memory state of a run. */
  lemma StepEffects(events: seq<Event>, e: Event)
    ensures MemRun(events + [e]) == MemStep(MemRun(events), e)
    ensures MemRun(events + [e]).rtc == AbsStep(MemRun(events).rtc, e)
    ensures MemRun(events + [e]).ct == TeamsOf(MemRun(events + [e]).components)
  {
    RunNext(events, e);
    MemoryIndexRefines(events);
    match e {
      case ComponentEvent(c) => AddComponentRefines(MemRun(events), c);
      case OnboardingEvent(o) => OnboardRefines(MemRun(events), o);
    }
    TeamIndex(MemRun(events + [e]));
  }

  /** Deletes the listed repos whose entry still names the component. */
  method DropStale(rtc: map<string, string>, repos: seq<string>, name: string) returns (r: map<string, string>)
    ensures r == Drop(rtc, repos, name)
  {
    r := rtc;
    for i := 0 to |repos|
      invariant r == Drop(rtc, repos[..i], name)
    {
      assert repos[..i + 1] == repos[..i] + [repos[i]];
      if repos[i] in r && r[repos[i]] == name {
        r := r - {repos[i]};
      }
    }
    assert repos[..|repos|] == repos;
  }

  /** Takes the repo out of the component the index names, unless that is the new one, then
      files it under its new one. */
  method MoveRepo(components: Table, repoToComponent: map<string, string>, componentToTeam: map<string, string>,
                  o: RepoOnboarding)
    returns (components': Table, rtc: map<string, string>, ct: map<string, string>)
    ensures MemState(components', rtc, ct) == MemOnboard(MemState(components, repoToComponent, componentToTeam), o)
    ensures Moved(MemState(components, repoToComponent, componentToTeam), o, components')
  {
    components' := components;
    if o.repoID in repoToComponent && repoToComponent[o.repoID] != o.component {
      var prevName := repoToComponent[o.repoID];
      if prevName in components {
        var prev := components[prevName];
        components' := components'[prevName := prev.(repoIDs := Without(prev.repoIDs, o.repoID))];
      }
    }
    ghost var s := MemState(components, repoToComponent, componentToTeam);
    assert components' == StripIndexed(s, o);
    var comp := if o.component in components' then components'[o.component] else Component("", "", []);
    comp := comp.(name := o.component, teamName := o.team);
    if o.repoID !in comp.repoIDs {
      comp := comp.(repoIDs := comp.repoIDs + [o.repoID]);
    }
    assert comp == Target(StripIndexed(s, o), o);
    components' := components'[o.component := comp];
    rtc := repoToComponent[o.repoID := o.component];
    ct := componentToTeam[o.component := o.team];
    OnboardMoves(s, o);
  }

  /** Points every listed repo at the component. */
  method IndexRepos(rtc: map<string, string>, repos: seq<string>, name: string) returns (r: map<string, string>)
    ensures r == rtc + Owned(repos, name)
  {
    r := rtc;
    for j := 0 to |repos|
      invariant r == rtc + Owned(repos[..j], name)
    {
      assert repos[..j + 1] == repos[..j] + [repos[j]];
      r := r[repos[j] := name];
    }
    assert repos[..|repos|] == repos;
  }

  /** Strips the repo from every row but the target's, row by row. */
  method StripRows(rows: Table, o: RepoOnboarding) returns (t: Table)
    ensures t == StripAll(rows, o)
  {
    t := rows;
    var pending := rows.Keys;
    while pending != {}
      invariant pending <= rows.Keys && t.Keys == rows.Keys
      invariant forall n :: n in rows ==> t[n] == if n in pending then rows[n] else StripAll(rows, o)[n]
      decreases pending
    {
      var n :| n in pending;
      pending := pending - {n};
      if n != o.component {
        if o.repoID in rows[n].repoIDs {
          t := t[n := rows[n].(repoIDs := Without(rows[n].repoIDs, o.repoID))];
        } else {
          SelectAll(rows[n].repoIDs, IsNot(o.repoID));
        }
      }
    }
  }

  method SortedNames(t: Table) returns (names: seq<string>)
    ensures names == Listing(t.Keys)
  {
    var pending: set<string>, found: seq<string> := t.Keys, [];
    while pending != {}
      invariant pending <= t.Keys && Elements(found) == t.Keys - pending && NoDuplicates(found)
      decreases pending
    {
      var n :| n in pending;
      GrowOrder(found, n);
      found := found + [n];
      pending := pending - {n};
    }
    names := StableSort(found, Alphabetical());
    SortedKeysAscend(found);
    ListingOf(names, t.Keys);
  }

  // ---- ranging over a map

  /** s lists the values of m, each key once, in some order. */
  ghost predicate Enumerates<V>(m: map<string, V>, s: seq<V>) {
    exists ks :: EnumeratesBy(m, s, ks)
  }

  ghost predicate EnumeratesBy<V>(m: map<string, V>, s: seq<V>, ks: seq<string>) {
    && NoDuplicates(ks) && Elements(ks) == m.Keys && |s| == |ks|
    && forall i :: 0 <= i < |ks| ==> ks[i] in m && s[i] == m[ks[i]]
  }

  /** r is what aggregating the stored rows returns, for some order of iterating them. */
  ghost predicate AggregatesRows<V(!new)>(fmt: Format, node: Agg, m: map<string, V>, filter: Option<Filter>,
                                          project: V -> Item, r: Result<map<string, AggResult>>)
  {
    exists s :: Enumerates(m, s) && AggregatesTo(fmt, node, s, filter, project, r)
  }

  method ValuesInAnyOrder<V>(m: map<string, V>) returns (s: seq<V>)
    ensures Enumerates(m, s)
  {
    s := [];
    var pending := m.Keys;
    ghost var ks: seq<string> := [];
    while pending != {}
      invariant pending <= m.Keys && Elements(ks) == m.Keys - pending && NoDuplicates(ks) && |s| == |ks|
      invariant forall i :: 0 <= i < |ks| ==> ks[i] in m && s[i] == m[ks[i]]
      decreases pending
    {
      var k :| k in pending;
      GrowOrder(ks, k);
      s := s + [m[k]];
      ks := ks + [k];
      pending := pending - {k};
    }
    assert EnumeratesBy(m, s, ks);
  }

  lemma NoDuplicatesPermute(ks: seq<string>, ls: seq<string>)
    requires NoDuplicates(ks) && NoDuplicates(ls) && Elements(ks) == Elements(ls)
    ensures Permutation(ks, ls)
  {
    forall k ensures multiset(ks)[k] == multiset(ls)[k] {
      if k in Elements(ks) {
        assert k in Elements(ls);
        NoDuplicatesMultiplicity(ks, k);
        NoDuplicatesMultiplicity(ls, k);
      } else {
        assert k !in ks && k !in ls;
      }
    }
  }

  /** Two iterations over one map yield permutations of each other. */
  lemma {:induction false} EnumerationsPermute<V>(m: map<string, V>, s: seq<V>, t: seq<V>, default: V)
    requires Enumerates(m, s) && Enumerates(m, t)
    ensures Permutation(s, t)
  {
    var ks :| EnumeratesBy(m, s, ks);
    var ls :| EnumeratesBy(m, t, ls);
    NoDuplicatesPermute(ks, ls);
    MapPermutation(ks, ls, ValueAt(m, default));
    EnumerationIsMap(m, s, ks, default);
    EnumerationIsMap(m, t, ls, default);
  }

  function ValueAt<V>(m: map<string, V>, default: V): string -> V {
    k => if k in m then m[k] else default
  }

  lemma EnumerationIsMap<V>(m: map<string, V>, s: seq<V>, ks: seq<string>, default: V)
    requires EnumeratesBy(m, s, ks)
    ensures s == Map(ks, ValueAt(m, default))
  {
  }

  /** Main result: after the same events, all harmless, and with the same workflows, both
      repositories resolve, name and diagnose every workflow alike. */
  lemma {:induction false} BackendsAnswerAlike(m: MemoryRepository, q: SQLiteRepository, workflowID: string)
    requires m.Valid() && q.Valid() && m.history == q.history && m.workflows == q.workflows
    requires AlwaysHarmless(m.history)
    ensures OwnersOf(m.Lookup(), workflowID) == OwnersOf(q.Lookup(), workflowID)
    ensures WorkflowNameOf(m.Lookup(), workflowID) == WorkflowNameOf(q.Lookup(), workflowID)
    ensures DiagnosisOf(m.Lookup(), workflowID) == DiagnosisOf(q.Lookup(), workflowID)
    ensures ProjectWorkflowRun(m.Lookup()) == ProjectWorkflowRun(q.Lookup())
  {
    BackendsAgree(m.history);
    assert m.Lookup() == q.Lookup();
  }
}
