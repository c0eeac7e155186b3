/** What a caller's filter sees of a stored row: each field of the query language answers for its
    own field of the row. */
module QueryFields {
  import opened Values
  import opened Filters
  import opened Queries
  import opened BucketLaws
  import opened Ownership

  /** The field has this value, or one from it on. */
  function Equal(field: string, w: Scalar): Option<Filter> {
    Some(TermFilter(field, w))
  }

  function AtLeast(field: string, w: Scalar): Option<Filter> {
    Some(Filter(OpRange, [], [], [], field, None, [], Some(Range(None, Some(w), None, None))))
  }

  ghost predicate TextAnswers(x: Item, field: string, value: string) {
    forall k :: Accepts(Equal(field, StringValue(k)), x) <==> k == value
  }

  ghost predicate NumberAnswers(x: Item, field: string, value: int) {
    forall n :: Accepts(Equal(field, IntValue(n)), x) <==> n == value
  }

  ghost predicate TimeAnswers(x: Item, field: string, value: int) {
    forall t :: Accepts(AtLeast(field, TimeValue(t)), x) <==> t <= value
  }

  ghost predicate RealAnswers(x: Item, field: string, value: real) {
    forall y :: Accepts(AtLeast(field, FloatValue(y)), x) <==> y <= value
  }

  /** A list answers for each name that is given to some owner. */
  ghost predicate NamesAnswer(x: Item, field: string, owners: seq<Owner>, name: Owner -> string) {
    forall k :: Accepts(Equal(field, StringValue(k)), x) <==> exists o :: o in owners && name(o) == k
  }

  lemma TextField(x: Item, field: string, value: string)
    requires Field(x, field) == Str(value)
    ensures TextAnswers(x, field, value)
  {
    forall k ensures Accepts(Equal(field, StringValue(k)), x) <==> k == value {
      TermOnText(x, field, k);
    }
  }

  lemma NumberField(x: Item, field: string, value: int)
    requires Field(x, field) == Int(value)
    ensures NumberAnswers(x, field, value)
  {
    forall n ensures Accepts(Equal(field, IntValue(n)), x) <==> n == value {
      ComparisonMeaning(Int(value), IntValue(n));
      assert Match(TermFilter(field, IntValue(n)), x) == Equals(Int(value), IntValue(n));
    }
  }

  lemma RangeField(x: Item, field: string, v: Val, w: Scalar)
    requires field in x && x[field] == v && !v.StrList? && Comparable(v, w)
    ensures Accepts(AtLeast(field, w), x) <==> Over(v, w) || Same(v, w)
  {
    RangeOutcome(v, Range(None, Some(w), None, None));
  }

  lemma TimeField(x: Item, field: string, value: int)
    requires Field(x, field) == Time(value)
    ensures TimeAnswers(x, field, value)
  {
    forall t ensures Accepts(AtLeast(field, TimeValue(t)), x) <==> t <= value {
      RangeField(x, field, Time(value), TimeValue(t));
    }
  }

  lemma RealField(x: Item, field: string, value: real)
    requires Field(x, field) == Float64(value)
    ensures RealAnswers(x, field, value)
  {
    forall y ensures Accepts(AtLeast(field, FloatValue(y)), x) <==> y <= value {
      RangeField(x, field, Float64(value), FloatValue(y));
    }
  }

  lemma NamesField(x: Item, field: string, owners: seq<Owner>, name: Owner -> string, listed: seq<string>)
    requires Field(x, field) == StrList(listed) && NamesOnce(owners, name, listed)
    ensures NamesAnswer(x, field, owners, name)
  {
    forall k ensures Accepts(Equal(field, StringValue(k)), x) <==> exists o :: o in owners && name(o) == k {
      TermOnText(x, field, k);
    }
  }

  lemma OwnerFields(x: Item, owners: seq<Owner>)
    requires Field(x, "component_name") == StrList(OwnerComponents(owners))
    requires Field(x, "team_name") == StrList(OwnerTeams(owners))
    ensures NamesAnswer(x, "component_name", owners, ComponentOf())
    ensures NamesAnswer(x, "team_name", owners, TeamOf())
  {
    OwnerNames(owners);
    NamesField(x, "component_name", owners, ComponentOf(), OwnerComponents(owners));
    NamesField(x, "team_name", owners, TeamOf(), OwnerTeams(owners));
  }

  /** The name of a stored workflow, or its ID. */
  ghost predicate NameAnswers(x: Item, l: OwnerLookup, workflowID: string) {
    TextAnswers(x, "workflow_name", if workflowID in l.wfNames then l.wfNames[workflowID] else workflowID)
  }

  lemma {:induction false} RunTexts(l: OwnerLookup, r: WorkflowRun)
    ensures var x := ProjectWorkflowRun(l)(r);
      && TextAnswers(x, "id", r.id) && TextAnswers(x, "workflow_id", r.workflowID)
      && TextAnswers(x, "status", r.status) && TextAnswers(x, "branch", r.branch)
      && TextAnswers(x, "commit_sha", r.commitSHA) && NameAnswers(x, l, r.workflowID)
  {
    var x := ProjectWorkflowRun(l)(r);
    TextField(x, "id", r.id);
    TextField(x, "workflow_id", r.workflowID);
    TextField(x, "status", r.status);
    TextField(x, "branch", r.branch);
    TextField(x, "commit_sha", r.commitSHA);
    TextField(x, "workflow_name", WorkflowNameOf(l, r.workflowID));
  }

  lemma {:induction false} RunNumbers(l: OwnerLookup, r: WorkflowRun)
    ensures var x := ProjectWorkflowRun(l)(r);
      NumberAnswers(x, "number", r.number) && TimeAnswers(x, "started_at", r.startedAt)
      && RealAnswers(x, "duration", r.duration)
  {
    var x := ProjectWorkflowRun(l)(r);
    NumberField(x, "number", r.number);
    TimeField(x, "started_at", r.startedAt);
    RealField(x, "duration", r.duration);
  }

  /** Each field of a run query answers for that field of the stored run, or for its owners. */
  lemma {:induction false} RunFieldsAnswer(l: OwnerLookup, r: WorkflowRun)
    ensures var x, owners := ProjectWorkflowRun(l)(r), OwnersOf(l, r.workflowID);
      && TextAnswers(x, "id", r.id) && TextAnswers(x, "workflow_id", r.workflowID)
      && TextAnswers(x, "status", r.status) && TextAnswers(x, "branch", r.branch)
      && TextAnswers(x, "commit_sha", r.commitSHA) && NameAnswers(x, l, r.workflowID)
      && NumberAnswers(x, "number", r.number) && TimeAnswers(x, "started_at", r.startedAt)
      && RealAnswers(x, "duration", r.duration)
      && NamesAnswer(x, "component_name", owners, ComponentOf()) && NamesAnswer(x, "team_name", owners, TeamOf())
  {
    RunTexts(l, r);
    RunNumbers(l, r);
    OwnerFields(ProjectWorkflowRun(l)(r), OwnersOf(l, r.workflowID));
  }

  lemma {:induction false} TaskTexts(l: OwnerLookup, runs: map<string, WorkflowRun>, t: WorkflowTask,
                                     workflowID: string, branch: string)
    requires workflowID == (if t.workflowRunID in runs then runs[t.workflowRunID].workflowID else "")
    requires branch == (if t.workflowRunID in runs then runs[t.workflowRunID].branch else "")
    ensures var x := ProjectWorkflowTask(l, runs)(t);
      && TextAnswers(x, "workflow_run_id", t.workflowRunID) && TextAnswers(x, "name", t.name)
      && TextAnswers(x, "status", t.status) && TextAnswers(x, "workflow_id", workflowID)
      && NameAnswers(x, l, workflowID) && TextAnswers(x, "branch", branch)
  {
    var x := ProjectWorkflowTask(l, runs)(t);
    TextField(x, "workflow_run_id", t.workflowRunID);
    TextField(x, "name", t.name);
    TextField(x, "status", t.status);
    TextField(x, "workflow_id", workflowID);
    TextField(x, "workflow_name", WorkflowNameOf(l, workflowID));
    TextField(x, "branch", branch);
  }

  lemma {:induction false} TaskNumbers(l: OwnerLookup, runs: map<string, WorkflowRun>, t: WorkflowTask)
    ensures var x := ProjectWorkflowTask(l, runs)(t);
      NumberAnswers(x, "order", t.order) && TimeAnswers(x, "started_at", t.startedAt)
      && RealAnswers(x, "duration", t.duration)
  {
    var x := ProjectWorkflowTask(l, runs)(t);
    NumberField(x, "order", t.order);
    TimeField(x, "started_at", t.startedAt);
    RealField(x, "duration", t.duration);
  }

  /** Likewise of a task; its workflow and branch are those of its run, or empty without it. */
  lemma {:induction false} TaskFieldsAnswer(l: OwnerLookup, runs: map<string, WorkflowRun>, t: WorkflowTask)
    ensures var x := ProjectWorkflowTask(l, runs)(t);
      var workflowID := if t.workflowRunID in runs then runs[t.workflowRunID].workflowID else "";
      var branch := if t.workflowRunID in runs then runs[t.workflowRunID].branch else "";
      var owners := OwnersOf(l, workflowID);
      && TextAnswers(x, "workflow_run_id", t.workflowRunID) && TextAnswers(x, "name", t.name)
      && TextAnswers(x, "status", t.status) && TextAnswers(x, "workflow_id", workflowID)
      && NameAnswers(x, l, workflowID) && TextAnswers(x, "branch", branch)
      && NumberAnswers(x, "order", t.order) && TimeAnswers(x, "started_at", t.startedAt)
      && RealAnswers(x, "duration", t.duration)
      && NamesAnswer(x, "component_name", owners, ComponentOf()) && NamesAnswer(x, "team_name", owners, TeamOf())
  {
    var workflowID := if t.workflowRunID in runs then runs[t.workflowRunID].workflowID else "";
    var branch := if t.workflowRunID in runs then runs[t.workflowRunID].branch else "";
    TaskTexts(l, runs, t, workflowID, branch);
    TaskNumbers(l, runs, t);
    OwnerFields(ProjectWorkflowTask(l, runs)(t), OwnersOf(l, workflowID));
  }

  lemma {:induction false} PullRequestTexts(pr: PullRequest, now: int)
    ensures var x := ProjectPullRequest(now)(pr);
      && TextAnswers(x, "id", pr.id) && TextAnswers(x, "repo_id", pr.repoID) && TextAnswers(x, "name", pr.name)
      && TextAnswers(x, "title", pr.title) && TextAnswers(x, "description", pr.description)
      && TextAnswers(x, "state", pr.state) && TextAnswers(x, "author", pr.author)
  {
    var x := ProjectPullRequest(now)(pr);
    TextField(x, "id", pr.id);
    TextField(x, "repo_id", pr.repoID);
    TextField(x, "name", pr.name);
    TextField(x, "title", pr.title);
    TextField(x, "description", pr.description);
    TextField(x, "state", pr.state);
    TextField(x, "author", pr.author);
  }

  /** And of a pull request, with the seconds it was open till it was merged or declined, or till
      now; times are in nanoseconds. */
  lemma {:induction false} PullRequestFieldsAnswer(pr: PullRequest, now: int)
    ensures var x := ProjectPullRequest(now)(pr);
      && TextAnswers(x, "id", pr.id) && TextAnswers(x, "repo_id", pr.repoID) && TextAnswers(x, "name", pr.name)
      && TextAnswers(x, "title", pr.title) && TextAnswers(x, "description", pr.description)
      && TextAnswers(x, "state", pr.state) && TextAnswers(x, "author", pr.author)
      && TimeAnswers(x, "created_at", pr.createdAt) && TimeAnswers(x, "updated_at", pr.updatedAt)
      && RealAnswers(x, "cycle_time_seconds",
                     ((if pr.state == "MERGED" || pr.state == "DECLINED" then pr.updatedAt else now) - pr.createdAt)
                     as real / 1000000000.0)
  {
    var x := ProjectPullRequest(now)(pr);
    PullRequestTexts(pr, now);
    TimeField(x, "created_at", pr.createdAt);
    TimeField(x, "updated_at", pr.updatedAt);
    RealField(x, "cycle_time_seconds", CycleTimeSeconds(pr, now));
  }
}
