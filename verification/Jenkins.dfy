/** The incremental build crawler as a protocol.  Builds of a job complete in number order,
    and a listing may leave some out.  Between any two steps of the crawler builds may complete
    and the process may restart; every call to the client or the store may fail. */
module Jenkins {
  import opened Seqs
  import opened Ownership

  datatype JobEntry = JobEntry(path: string, isBranch: bool)

  datatype Build = Build(number: nat, inProgress: bool, result: string)

  datatype Run = Run(job: string, number: nat)

  /** The new builds collected for a discovered job. */
  datatype Batch = Batch(entry: JobEntry, builds: seq<nat>)

  // ---- grouping by pipeline

  /** A path without its last element. */
  function Dir(path: string): string {
    if path == "" then "."
    else if path == "/" then "/"
    else if path[|path| - 1] == '/' then path[..|path| - 1]
    else Dir(path[..|path| - 1])
  }

  /** The branches of one pipeline share one identifier. */
  function PipelinePath(e: JobEntry): string {
    if e.isBranch then Dir(e.path) else e.path
  }

  lemma {:induction false} DirOfChild(parent: string, name: string)
    requires parent != "" && parent[|parent| - 1] != '/' && '/' !in name
    ensures Dir(parent + "/" + name) == parent
    decreases |name|
  {
    var path := parent + "/" + name;
    if name == "" {
      assert path[..|path| - 1] == parent;
    } else {
      assert path[..|path| - 1] == parent + "/" + name[..|name| - 1];
      assert path[|path| - 1] == name[|name| - 1] && name[|name| - 1] in name;
      DirOfChild(parent, name[..|name| - 1]);
    }
  }

  lemma {:induction false} DirOfTop(name: string)
    requires '/' !in name
    ensures Dir(name) == "."
  {
    if name != "" {
      assert name[|name| - 1] in name;
      DirOfTop(name[..|name| - 1]);
    }
  }

  /** A branch belongs to the pipeline it is a child of, whichever branch it is; a job that is
      no branch is its own pipeline. */
  lemma BranchesShareTheirPipeline(parent: string, branch: string, other: string)
    requires parent != "" && parent[|parent| - 1] != '/' && '/' !in branch && '/' !in other
    ensures PipelinePath(JobEntry(parent + "/" + branch, true)) == parent
    ensures PipelinePath(JobEntry(parent + "/" + branch, true)) == PipelinePath(JobEntry(parent + "/" + other, true))
    ensures PipelinePath(JobEntry(branch, true)) == "."
    ensures forall path :: PipelinePath(JobEntry(path, false)) == path
  {
    DirOfChild(parent, branch);
    DirOfChild(parent, other);
    DirOfTop(branch);
  }

  /** What a tick publishes: a workflow, then the builds of each of its jobs. */
  datatype Task = Workflow(id: string) | Job(batch: Batch)

  function InPipeline(id: string): Batch -> bool {
    (b: Batch) => PipelinePath(b.entry) == id && b.builds != []
  }

  function Pipelines(pending: seq<Batch>): seq<string> {
    FirstSeen(Map(pending, (b: Batch) => PipelinePath(b.entry)))
  }

  function GroupTasks(pending: seq<Batch>, id: string): seq<Task> {
    var jobs := Select(pending, InPipeline(id));
    if jobs == [] then [] else [Workflow(id)] + Map(jobs, (b: Batch) => Job(b))
  }

  function GroupsOf(pending: seq<Batch>, ids: seq<string>): seq<seq<Task>> {
    Map(ids, (id: string) => GroupTasks(pending, id))
  }

  /** The first n groups one after the other. */
  function Flatten(groups: seq<seq<Task>>, n: nat): seq<Task>
    requires n <= |groups|
  {
    if n == 0 then [] else Flatten(groups, n - 1) + groups[n - 1]
  }

  /** Pipelines in the order they were first met; one with nothing new is passed over. */
  function TasksOf(pending: seq<Batch>): seq<Task> {
    Flatten(GroupsOf(pending, Pipelines(pending)), |Pipelines(pending)|)
  }

  function Batches(tasks: seq<Task>): (r: seq<Batch>)
    ensures forall k :: 0 <= k < |tasks| && tasks[k].Job? ==> tasks[k].batch in r
    ensures forall b :: b in r ==> Job(b) in tasks
  {
    if tasks == [] then []
    else (if tasks[0].Job? then [tasks[0].batch] else []) + Batches(tasks[1..])
  }

  lemma {:induction false} BatchesConcat(s: seq<Task>, t: seq<Task>)
    ensures Batches(s + t) == Batches(s) + Batches(t)
  {
    if s == [] {
      assert s + t == t;
    } else {
      assert (s + t)[1..] == s[1..] + t;
      BatchesConcat(s[1..], t);
    }
  }

  lemma {:induction false} BatchesOfJobs(jobs: seq<Batch>)
    ensures Batches(Map(jobs, (b: Batch) => Job(b))) == jobs
  {
    if jobs != [] {
      BatchesOfJobs(jobs[1..]);
      assert Map(jobs, (b: Batch) => Job(b))[1..] == Map(jobs[1..], (b: Batch) => Job(b));
    }
  }

  lemma {:induction false} BatchesOfGroup(pending: seq<Batch>, id: string)
    ensures Batches(GroupTasks(pending, id)) == Select(pending, InPipeline(id))
  {
    var jobs := Select(pending, InPipeline(id));
    BatchesOfJobs(jobs);
    if jobs != [] {
      var tasks := Map(jobs, (b: Batch) => Job(b));
      assert ([Workflow(id)] + tasks)[1..] == tasks;
    }
  }

  lemma {:induction false} GroupMultiplicity(pending: seq<Batch>, id: string, b: Batch)
    ensures multiset(Batches(GroupTasks(pending, id)))[b]
         == if PipelinePath(b.entry) == id && b.builds != [] then multiset(pending)[b] else 0
  {
    BatchesOfGroup(pending, id);
    SelectMultiplicity(pending, InPipeline(id), b);
  }

  lemma {:induction false} FlattenMultiplicity(groups: seq<seq<Task>>, n: nat, b: Batch)
    requires 0 < n <= |groups|
    ensures multiset(Batches(Flatten(groups, n)))[b]
         == multiset(Batches(Flatten(groups, n - 1)))[b] + multiset(Batches(groups[n - 1]))[b]
  {
    BatchesConcat(Flatten(groups, n - 1), groups[n - 1]);
  }

  lemma {:induction false} BatchMultiplicity(pending: seq<Batch>, ids: seq<string>, n: nat, b: Batch)
    requires NoDuplicates(ids) && n <= |ids|
    ensures multiset(Batches(Flatten(GroupsOf(pending, ids), n)))[b]
         == if PipelinePath(b.entry) in ids[..n] && b.builds != [] then multiset(pending)[b] else 0
    decreases n
  {
    if n > 0 {
      assert ids[..n] == ids[..n - 1] + [ids[n - 1]];
      assert ids[n - 1] !in ids[..n - 1];
      BatchMultiplicity(pending, ids, n - 1, b);
      FlattenMultiplicity(GroupsOf(pending, ids), n, b);
      GroupMultiplicity(pending, ids[n - 1], b);
    }
  }

  function HasBuilds(): Batch -> bool {
    (b: Batch) => b.builds != []
  }

  lemma {:induction false} GroupedOnce(pending: seq<Batch>, b: Batch)
    ensures multiset(Batches(TasksOf(pending)))[b] == multiset(Select(pending, HasBuilds()))[b]
  {
    var names := Map(pending, (b: Batch) => PipelinePath(b.entry));
    FirstSeenOrder(names);
    var ids := Pipelines(pending);
    BatchMultiplicity(pending, ids, |ids|, b);
    assert ids[..|ids|] == ids;
    SelectMultiplicity(pending, HasBuilds(), b);
    if b in pending {
      var i :| 0 <= i < |pending| && pending[i] == b;
      assert names[i] in names;
    }
  }

  /** Grouping loses nothing and repeats nothing. */
  lemma {:induction false} GroupingIsPermutation(pending: seq<Batch>)
    ensures Permutation(Batches(TasksOf(pending)), Select(pending, HasBuilds()))
  {
    var grouped, picked := multiset(Batches(TasksOf(pending))), multiset(Select(pending, HasBuilds()));
    forall b | b in grouped + picked ensures grouped[b] == picked[b] {
      GroupedOnce(pending, b);
    }
    assert forall b :: b in grouped ==> b in grouped + picked;
    assert forall b :: b in picked ==> b in grouped + picked;
  }

  /** The builds at k follow the announcement of their own workflow, with only other jobs
      of that workflow in between. */
  ghost predicate Announced(tasks: seq<Task>, k: nat)
    requires k < |tasks|
  {
    tasks[k].Job? ==> exists j :: 0 <= j < k && AnnouncedAt(tasks, j, k)
  }

  ghost predicate AnnouncedAt(tasks: seq<Task>, j: nat, k: nat)
    requires j < k < |tasks| && tasks[k].Job?
  {
    && tasks[j] == Workflow(PipelinePath(tasks[k].batch.entry))
    && forall i :: j < i <= k ==> tasks[i].Job? && PipelinePath(tasks[i].batch.entry) == tasks[j].id
  }

  ghost predicate AllAnnounced(tasks: seq<Task>) {
    forall k :: 0 <= k < |tasks| ==> Announced(tasks, k)
  }

  lemma GroupAnnounces(pending: seq<Batch>, id: string)
    ensures AllAnnounced(GroupTasks(pending, id))
  {
    var jobs, tasks := Select(pending, InPipeline(id)), GroupTasks(pending, id);
    forall i | 0 < i < |tasks| ensures tasks[i].Job? && PipelinePath(tasks[i].batch.entry) == id {
      assert tasks[i] == Job(jobs[i - 1]);
      assert jobs[i - 1] in jobs;
    }
    forall k | 0 <= k < |tasks| ensures Announced(tasks, k) {
      assert k > 0 ==> AnnouncedAt(tasks, 0, k);
    }
  }

  lemma ConcatAnnounces(front: seq<Task>, back: seq<Task>)
    requires AllAnnounced(front) && AllAnnounced(back)
    ensures AllAnnounced(front + back)
  {
    var tasks := front + back;
    forall k | 0 <= k < |tasks| && tasks[k].Job? ensures Announced(tasks, k) {
      if k < |front| {
        assert Announced(front, k);
        var j :| 0 <= j < k && AnnouncedAt(front, j, k);
        assert AnnouncedAt(tasks, j, k);
      } else {
        assert Announced(back, k - |front|);
        var j :| 0 <= j < k - |front| && AnnouncedAt(back, j, k - |front|);
        ShiftAnnounced(front, back, j, k - |front|);
      }
    }
  }

  lemma ShiftAnnounced(front: seq<Task>, back: seq<Task>, j: nat, k: nat)
    requires j < k < |back| && back[k].Job? && AnnouncedAt(back, j, k)
    ensures AnnouncedAt(front + back, |front| + j, |front| + k)
  {
    forall i | |front| + j < i <= |front| + k ensures (front + back)[i] == back[i - |front|] {
    }
  }

  lemma {:induction false} FlattenAnnounces(groups: seq<seq<Task>>, n: nat)
    requires n <= |groups| && forall i :: 0 <= i < n ==> AllAnnounced(groups[i])
    ensures AllAnnounced(Flatten(groups, n))
  {
    if n > 0 {
      FlattenAnnounces(groups, n - 1);
      ConcatAnnounces(Flatten(groups, n - 1), groups[n - 1]);
    }
  }

  /** Every job's builds are published under their own workflow, announced just before. */
  lemma WorkflowsComeFirst(pending: seq<Batch>)
    ensures AllAnnounced(TasksOf(pending))
  {
    var ids := Pipelines(pending);
    forall i | 0 <= i < |ids| ensures AllAnnounced(GroupsOf(pending, ids)[i]) {
      GroupAnnounces(pending, ids[i]);
    }
    FlattenAnnounces(GroupsOf(pending, ids), |ids|);
  }

  // ---- the state and its steps

  /** Where the crawler stands within a tick: collecting new builds from job after job, then
      publishing them task after task. */
  datatype Phase =
    | Idle
    | Collecting(entries: seq<JobEntry>, pending: seq<Batch>)
    | Clearing(entries: seq<JobEntry>, pending: seq<Batch>)
    | Fetching(entries: seq<JobEntry>, pending: seq<Batch>, cursor: nat)
    | Publishing(tasks: seq<Task>, next: nat, built: nat)

  /** The environment (completed builds, store), the process (loaded, cursors, phase), the
      publisher's logs, the builds this tick is to hand over because they had completed when
      it began, and those that finished ticks had to. */
  datatype State = State(
    completed: map<string, set<nat>>, store: map<string, nat>, loaded: bool, cursors: map<string, nat>,
    phase: Phase, workflows: seq<string>, runs: seq<Run>, due: set<Run>, settled: set<Run>)

  const Start := State(map[], map[], false, map[], Idle, [], [], {}, {})

  datatype ProbeAnswer = ProbeFailed | NoBuilds | Last(number: nat)

  datatype ListAnswer = Builds(builds: seq<Build>) | ListFailed

  /** A save that reports an error may have taken effect all the same. */
  datatype SaveOutcome = Saved | NotSaved | SavedButFailed

  datatype Action =
    | Complete(job: string, number: nat)
    | Restart
    | Load(ok: bool)
    | Begin(jobs: seq<JobEntry>)
    | Probe(probed: ProbeAnswer)
    | Clear(effective: bool)
    | List(listed: ListAnswer)
    | StartPublishing
    | PublishWorkflow
    | PublishRun
    | Save(outcome: SaveOutcome)
    | Finish

  function CompletedOf(completed: map<string, set<nat>>, job: string): set<nat> {
    if job in completed then completed[job] else {}
  }

  function CursorOf(cursors: map<string, nat>, job: string): nat {
    if job in cursors then cursors[job] else 0
  }

  ghost predicate IsLast(numbers: set<nat>, n: nat) {
    n in numbers && forall m :: m in numbers ==> m <= n
  }

  ghost predicate ProbeAnswers(completed: map<string, set<nat>>, job: string, answer: ProbeAnswer) {
    match answer
    case ProbeFailed => true
    case NoBuilds => CompletedOf(completed, job) == {}
    case Last(n) => IsLast(CompletedOf(completed, job), n)
  }

  predicate IsComplete(b: Build) {
    !b.inProgress && b.result != ""
  }

  /** The listing has build n as ended, whatever its result. */
  ghost predicate Shows(builds: seq<Build>, n: nat) {
    exists i :: 0 <= i < |builds| && builds[i].number == n && !builds[i].inProgress && builds[i].result != ""
  }

  ghost predicate ShowsOnce(builds: seq<Build>) {
    forall i, j :: 0 <= i < j < |builds| && !builds[i].inProgress && !builds[j].inProgress
                   && builds[i].result != "" && builds[j].result != "" ==>
      builds[i].number != builds[j].number
  }

  /** What is listed as ended has completed, and is listed once; builds in progress may be in the
      listing or not, and it may leave builds out. */
  ghost predicate ListAnswers(completed: map<string, set<nat>>, job: string, answer: ListAnswer) {
    answer.Builds? ==>
      && ShowsOnce(answer.builds)
      && forall n :: Shows(answer.builds, n) ==> n in CompletedOf(completed, job)
  }

  /** The numbers of the completed builds above the cursor. */
  function NewBuilds(builds: seq<Build>, cursor: nat): seq<nat> {
    Map(Select(builds, (b: Build) => IsComplete(b) && b.number > cursor), (b: Build) => b.number)
  }

  function Collected(answer: ListAnswer, cursor: nat): seq<nat> {
    if answer.Builds? then NewBuilds(answer.builds, cursor) else []
  }

  /** The highest number published. */
  function Highest(builds: seq<nat>): (m: nat)
    ensures forall n :: n in builds ==> n <= m
    ensures m == 0 || m in builds
  {
    if builds == [] then 0
    else
      var m := Highest(builds[..|builds| - 1]);
      assert builds == builds[..|builds| - 1] + [builds[|builds| - 1]];
      if builds[|builds| - 1] > m then builds[|builds| - 1] else m
  }

  function EntryOf(phase: Phase): JobEntry
    requires (phase.Collecting? || phase.Clearing? || phase.Fetching?) && |phase.pending| < |phase.entries|
  {
    phase.entries[|phase.pending|]
  }

  predicate AtEntry(phase: Phase) {
    (phase.Collecting? || phase.Clearing? || phase.Fetching?) && |phase.pending| < |phase.entries|
  }

  ghost predicate Enabled(s: State, a: Action) {
    match a
    case Complete(job, n) => n > 0 && forall m :: m in CompletedOf(s.completed, job) ==> m < n
    case Restart => true
    case Load(_) => s.phase.Idle? && !s.loaded
    case Begin(_) => s.phase.Idle? && s.loaded
    case Probe(answer) =>
      s.phase.Collecting? && AtEntry(s.phase) && ProbeAnswers(s.completed, EntryOf(s.phase).path, answer)
    case Clear(_) => s.phase.Clearing? && AtEntry(s.phase)
    case List(answer) =>
      s.phase.Fetching? && AtEntry(s.phase) && ListAnswers(s.completed, EntryOf(s.phase).path, answer)
    case StartPublishing => s.phase.Collecting? && |s.phase.pending| == |s.phase.entries|
    case PublishWorkflow => AtTask(s.phase) && s.phase.tasks[s.phase.next].Workflow?
    case PublishRun =>
      AtTask(s.phase) && s.phase.tasks[s.phase.next].Job? && s.phase.built < |s.phase.tasks[s.phase.next].batch.builds|
    case Save(_) =>
      AtTask(s.phase) && s.phase.tasks[s.phase.next].Job? && s.phase.built == |s.phase.tasks[s.phase.next].batch.builds|
    case Finish => s.phase.Publishing? && s.phase.next == |s.phase.tasks|
  }

  predicate AtTask(phase: Phase) {
    phase.Publishing? && phase.next < |phase.tasks|
  }

  /** Files the builds of the entry at hand and goes on to the next. */
  function Collect(phase: Phase, builds: seq<nat>): Phase
    requires AtEntry(phase)
  {
    Collecting(phase.entries, phase.pending + [Batch(EntryOf(phase), builds)])
  }

  /** A probe that fails does not skip the job; one behind the cursor means the job was reset. */
  function Probed(s: State, answer: ProbeAnswer): Phase
    requires AtEntry(s.phase)
  {
    var cursor := CursorOf(s.cursors, EntryOf(s.phase).path);
    match answer
    case ProbeFailed => Fetching(s.phase.entries, s.phase.pending, cursor)
    case NoBuilds => Collect(s.phase, [])
    case Last(n) =>
      if n < cursor then Clearing(s.phase.entries, s.phase.pending)
      else if n == cursor then Collect(s.phase, [])
      else Fetching(s.phase.entries, s.phase.pending, cursor)
  }

  ghost function DueRuns(completed: map<string, set<nat>>, entries: seq<JobEntry>): set<Run> {
    set i, n | 0 <= i < |entries| && n in CompletedOf(completed, entries[i].path) :: Run(entries[i].path, n)
  }

  function Without(runs: set<Run>, job: string): set<Run> {
    set r | r in runs && r.job != job
  }

  ghost function Apply(s: State, a: Action): State
    requires Enabled(s, a)
  {
    match a
    case Complete(job, n) => s.(completed := s.completed[job := CompletedOf(s.completed, job) + {n}])
    case Restart => s.(loaded := false, cursors := map[], phase := Idle, due := {})
    case Load(ok) => s.(loaded := true, cursors := if ok then s.store else map[])
    case Begin(entries) => s.(phase := Collecting(entries, []), due := DueRuns(s.completed, entries))
    case Probe(answer) => s.(phase := Probed(s, answer))
    case Clear(effective) =>
      var job := EntryOf(s.phase).path;
      s.(store := if effective then s.store - {job} else s.store, cursors := s.cursors - {job},
         phase := Fetching(s.phase.entries, s.phase.pending, 0))
    case List(answer) =>
      s.(phase := Collect(s.phase, Collected(answer, s.phase.cursor)),
         due := if answer.Builds? then s.due else Without(s.due, EntryOf(s.phase).path))
    case StartPublishing => s.(phase := Publishing(TasksOf(s.phase.pending), 0, 0))
    case PublishWorkflow =>
      s.(workflows := s.workflows + [s.phase.tasks[s.phase.next].id], phase := s.phase.(next := s.phase.next + 1))
    case PublishRun =>
      var b := s.phase.tasks[s.phase.next].batch;
      s.(runs := s.runs + [Run(b.entry.path, b.builds[s.phase.built])], phase := s.phase.(built := s.phase.built + 1))
    case Save(outcome) =>
      var b := s.phase.tasks[s.phase.next].batch;
      var job, newest := b.entry.path, Highest(b.builds);
      s.(store := if outcome.NotSaved? then s.store else s.store[job := newest],
         cursors := if outcome.Saved? then s.cursors[job := newest] else s.cursors,
         phase := s.phase.(next := s.phase.next + 1, built := 0))
    case Finish => s.(phase := Idle, settled := s.settled + s.due, due := {})
  }

  /** The actions can be taken one after the other from s. */
  ghost predicate Legal(s: State, acts: seq<Action>)
    decreases |acts|, 0
  {
    acts != [] ==>
      var init := acts[..|acts| - 1];
      Legal(s, init) && Enabled(After(s, init), acts[|acts| - 1])
  }

  ghost function After(s: State, acts: seq<Action>): State
    requires Legal(s, acts)
    decreases |acts|, 1
  {
    if acts == [] then s else Apply(After(s, acts[..|acts| - 1]), acts[|acts| - 1])
  }

  lemma OneMore(s: State, acts: seq<Action>, a: Action)
    requires Legal(s, acts) && Enabled(After(s, acts), a)
    ensures Legal(s, acts + [a]) && After(s, acts + [a]) == Apply(After(s, acts), a)
  {
    assert (acts + [a])[..|acts|] == acts;
  }

  // ---- what a listing must hold

  /** The listing holds every completed build above the cursor. */
  ghost predicate ListsAllNew(s: State, answer: ListAnswer) {
    s.phase.Fetching? && AtEntry(s.phase) && answer.Builds? ==>
      forall n :: n in CompletedOf(s.completed, EntryOf(s.phase).path) && n > s.phase.cursor ==>
        Shows(answer.builds, n)
  }

  /** It holds every completed build above the cursor that is not handed over yet. */
  ghost predicate CoversNew(s: State, answer: ListAnswer) {
    s.phase.Fetching? && AtEntry(s.phase) && answer.Builds? ==>
      forall n :: n in CompletedOf(s.completed, EntryOf(s.phase).path) && n > s.phase.cursor ==>
        Shows(answer.builds, n) || Run(EntryOf(s.phase).path, n) in s.runs
  }

  /** So does every listing of the run. */
  ghost predicate ListsCover(s: State, acts: seq<Action>)
    requires Legal(s, acts)
    decreases |acts|
  {
    acts != [] ==>
      var init, a := acts[..|acts| - 1], acts[|acts| - 1];
      ListsCover(s, init) && (a.List? ==> CoversNew(After(s, init), a.listed))
  }

  // ---- safety

  /** Every completed build of the job up to n has been handed to the publisher. */
  ghost predicate Covered(s: State, job: string, n: nat) {
    forall m :: m in CompletedOf(s.completed, job) && m <= n ==> Run(job, m) in s.runs
  }

  ghost predicate CursorOk(s: State, job: string, n: nat) {
    (n == 0 || n in CompletedOf(s.completed, job)) && Covered(s, job, n)
  }

  /** The batch has only completed builds, and all that are not yet handed over up to its highest. */
  ghost predicate BatchOk(s: State, b: Batch) {
    && (forall n :: n in b.builds ==> n > 0 && n in CompletedOf(s.completed, b.entry.path))
    && forall m :: m in CompletedOf(s.completed, b.entry.path) && m <= Highest(b.builds) ==>
         Run(b.entry.path, m) in s.runs || m in b.builds
  }

  ghost predicate BatchesOk(s: State) {
    if s.phase.Publishing? then TasksOk(s, s.phase.tasks, s.phase.next, s.phase.built)
    else s.phase.Idle? || PendingOk(s, s.phase.entries, s.phase.pending)
  }

  ghost predicate TasksOk(s: State, tasks: seq<Task>, next: nat, built: nat) {
    && next <= |tasks| && (forall k :: next <= k < |tasks| && tasks[k].Job? ==> BatchOk(s, tasks[k].batch))
    && (next < |tasks| && tasks[next].Job? ==> PartlyBuilt(s, tasks[next].batch, built))
    && (next < |tasks| && tasks[next].Workflow? ==> built == 0)
  }

  ghost predicate PartlyBuilt(s: State, b: Batch, built: nat) {
    built <= |b.builds| && forall i :: 0 <= i < built ==> Run(b.entry.path, b.builds[i]) in s.runs
  }

  ghost predicate PendingOk(s: State, entries: seq<JobEntry>, pending: seq<Batch>) {
    && |pending| <= |entries| && (forall k :: 0 <= k < |pending| ==> BatchOk(s, pending[k]))
    && (s.phase.Fetching? && AtEntry(s.phase) ==> CursorOk(s, EntryOf(s.phase).path, s.phase.cursor))
  }

  ghost predicate BatchHas(b: Batch, r: Run) {
    b.entry.path == r.job && r.number in b.builds
  }

  ghost predicate TaskHas(t: Task, r: Run) {
    t.Job? && BatchHas(t.batch, r)
  }

  /** The build is in some batch, or its job is still to come. */
  ghost predicate Underway(phase: Phase, r: Run) {
    if phase.Idle? then false
    else if phase.Publishing? then exists k :: phase.next <= k < |phase.tasks| && TaskHas(phase.tasks[k], r)
    else
      || (exists k :: |phase.pending| <= k < |phase.entries| && phase.entries[k].path == r.job)
      || (exists k :: 0 <= k < |phase.pending| && BatchHas(phase.pending[k], r))
  }

  ghost predicate Awaited(s: State, r: Run) {
    r.number in CompletedOf(s.completed, r.job) && (r in s.runs || Underway(s.phase, r))
  }

  ghost predicate Inv(s: State) {
    && (forall job, n :: n in CompletedOf(s.completed, job) ==> n > 0)
    && (forall job :: job in s.cursors ==> CursorOk(s, job, s.cursors[job]))
    && (forall job :: job in s.store ==> CursorOk(s, job, s.store[job]))
    && !s.phase.Clearing? && BatchesOk(s)
    && (forall r :: r in s.due ==> Awaited(s, r))
    && (forall r :: r in s.settled ==> r in s.runs)
  }

  lemma CursorOfOk(s: State, job: string)
    requires Inv(s)
    ensures CursorOk(s, job, CursorOf(s.cursors, job))
  {
  }

  /** What was fine stays fine when a build completes above all others of its job. */
  lemma CompleteKeepsOk(s: State, t: State, job: string, n: nat, c: nat, other: string, b: Batch)
    requires n > 0 && (forall m :: m in CompletedOf(s.completed, job) ==> m < n) && t.runs == s.runs
    requires t.completed == s.completed[job := CompletedOf(s.completed, job) + {n}]
    ensures CursorOk(s, other, c) ==> CursorOk(t, other, c)
    ensures BatchOk(s, b) ==> BatchOk(t, b)
  {
  }

  lemma CompleteKeepsInv(s: State, job: string, n: nat)
    requires Inv(s) && Enabled(s, Complete(job, n))
    ensures Inv(Apply(s, Complete(job, n)))
  {
    var t := Apply(s, Complete(job, n));
    forall other, c, b
      ensures CursorOk(s, other, c) ==> CursorOk(t, other, c)
      ensures BatchOk(s, b) ==> BatchOk(t, b)
    {
      CompleteKeepsOk(s, t, job, n, c, other, b);
    }
    forall other, m | m in CompletedOf(t.completed, other) ensures m > 0 {
      assert other != job ==> m in CompletedOf(s.completed, other);
      assert other == job && m != n ==> m in CompletedOf(s.completed, job);
    }
    forall r | r in t.due ensures Awaited(t, r) {
      assert Awaited(s, r);
    }
  }

  lemma BeginKeepsInv(s: State, entries: seq<JobEntry>)
    requires Inv(s) && Enabled(s, Begin(entries))
    ensures Inv(Apply(s, Begin(entries)))
  {
    var t := Apply(s, Begin(entries));
    forall r | r in t.due ensures Awaited(t, r) {
      var i :| 0 <= i < |entries| && entries[i].path == r.job && r.number in CompletedOf(s.completed, entries[i].path);
    }
  }

  /** After collecting: the batch is good, and holds what is due and not handed over. */
  lemma CollectKeepsInv(s: State, builds: seq<nat>, t: State)
    requires Inv(s) && AtEntry(s.phase) && t.phase == Collect(s.phase, builds)
    requires BatchOk(s, Batch(EntryOf(s.phase), builds))
    requires t.completed == s.completed && t.store == s.store && t.cursors == s.cursors && t.runs == s.runs
    requires t.settled == s.settled && t.due <= s.due
    requires forall r :: r in t.due && r.job == EntryOf(s.phase).path ==> r in s.runs || r.number in builds
    ensures Inv(t)
  {
    var e, n := EntryOf(s.phase), |s.phase.pending|;
    forall r | r in t.due ensures Awaited(t, r) {
      assert Awaited(s, r);
      assert t.phase.pending[n] == Batch(e, builds);
      if r !in s.runs {
        if r.job == e.path {
          assert BatchHas(t.phase.pending[n], r);
        } else if k :| 0 <= k < n && BatchHas(s.phase.pending[k], r) {
          assert t.phase.pending[k] == s.phase.pending[k];
        } else {
          var k :| n <= k < |s.phase.entries| && s.phase.entries[k].path == r.job;
          assert k != n;
        }
      }
    }
    forall k | 0 <= k < |t.phase.pending| ensures BatchOk(t, t.phase.pending[k]) {
      assert k < n ==> BatchOk(s, s.phase.pending[k]);
    }
  }

  lemma ProbeKeepsInv(s: State, answer: ProbeAnswer)
    requires Inv(s) && Enabled(s, Probe(answer))
    ensures Inv(Apply(s, Probe(answer)))
  {
    var t, job := Apply(s, Probe(answer)), EntryOf(s.phase).path;
    CursorOfOk(s, job);
    if t.phase.Fetching? {
      forall r | r in t.due ensures Awaited(t, r) {
        assert Awaited(s, r);
      }
    } else {
      forall r | r in t.due && r.job == job ensures r in s.runs {
        assert Awaited(s, r);
      }
      CollectKeepsInv(s, [], t);
    }
  }

  lemma NewBuildsCons(builds: seq<Build>, cursor: nat)
    requires builds != []
    ensures NewBuilds(builds, cursor)
         == (if IsComplete(builds[0]) && builds[0].number > cursor then [builds[0].number] else [])
            + NewBuilds(builds[1..], cursor)
  {
    var p := (b: Build) => IsComplete(b) && b.number > cursor;
    assert Select(builds, p) == (if p(builds[0]) then [builds[0]] else []) + Select(builds[1..], p);
  }

  lemma ShowsCons(builds: seq<Build>, n: nat)
    requires builds != []
    ensures Shows(builds, n)
       <==> (builds[0].number == n && !builds[0].inProgress && builds[0].result != "") || Shows(builds[1..], n)
  {
    forall i | 0 <= i < |builds[1..]| ensures builds[1..][i] == builds[i + 1] {
    }
  }

  /** The kept builds are those that ended, whatever their result, above the cursor. */
  lemma {:induction false} NewBuildsAbove(builds: seq<Build>, cursor: nat, n: nat)
    ensures n in NewBuilds(builds, cursor) <==> n > cursor && Shows(builds, n)
  {
    if builds != [] {
      NewBuildsCons(builds, cursor);
      ShowsCons(builds, n);
      NewBuildsAbove(builds[1..], cursor, n);
    }
  }

  lemma {:induction false} NewBuildsOnce(builds: seq<Build>, cursor: nat)
    requires ShowsOnce(builds)
    ensures NoDuplicates(NewBuilds(builds, cursor))
  {
    if builds != [] {
      NewBuildsCons(builds, cursor);
      NewBuildsOnce(builds[1..], cursor);
      NewBuildsAbove(builds[1..], cursor, builds[0].number);
    }
  }

  lemma ListKeepsInv(s: State, answer: ListAnswer)
    requires Inv(s) && Enabled(s, List(answer)) && CoversNew(s, answer)
    ensures Inv(Apply(s, List(answer)))
  {
    var t, job, builds := Apply(s, List(answer)), EntryOf(s.phase).path, Collected(answer, s.phase.cursor);
    if answer.Builds? {
      forall n: nat ensures n in builds <==> n > s.phase.cursor && Shows(answer.builds, n) {
        NewBuildsAbove(answer.builds, s.phase.cursor, n);
      }
    }
    forall r | r in t.due && r.job == job ensures r in s.runs || r.number in builds {
      assert Awaited(s, r);
    }
    CollectKeepsInv(s, builds, t);
  }

  /** The tasks are about the pending batches that have builds. */
  lemma TasksHoldBatches(pending: seq<Batch>)
    ensures forall b :: b in Batches(TasksOf(pending)) <==> b in pending && b.builds != []
  {
    GroupingIsPermutation(pending);
    PermutationMembers(Batches(TasksOf(pending)), Select(pending, HasBuilds()));
  }

  lemma StartPublishingKeepsInv(s: State)
    requires Inv(s) && Enabled(s, StartPublishing)
    ensures Inv(Apply(s, StartPublishing))
  {
    var t, tasks := Apply(s, StartPublishing), TasksOf(s.phase.pending);
    GroupedOk(s, s.phase.pending, tasks);
    forall r | r in t.due ensures Awaited(t, r) {
      StillUnderway(s, r);
    }
    forall k | 0 <= k < |tasks| && tasks[k].Job? ensures BatchOk(t, tasks[k].batch) {
      assert BatchOk(s, tasks[k].batch);
    }
  }

  lemma StillUnderway(s: State, r: Run)
    requires Enabled(s, StartPublishing) && Awaited(s, r)
    ensures Awaited(Apply(s, StartPublishing), r)
  {
    if i :| 0 <= i < |s.phase.pending| && BatchHas(s.phase.pending[i], r) {
      BatchUnderway(s.phase.pending, i, r);
    }
  }

  lemma BatchUnderway(pending: seq<Batch>, i: nat, r: Run)
    requires i < |pending| && BatchHas(pending[i], r)
    ensures Underway(Publishing(TasksOf(pending), 0, 0), r)
  {
    var k := TaskOfBatch(pending, i);
    assert TaskHas(TasksOf(pending)[k], r);
  }

  lemma GroupedOk(s: State, pending: seq<Batch>, tasks: seq<Task>)
    requires tasks == TasksOf(pending) && forall k :: 0 <= k < |pending| ==> BatchOk(s, pending[k])
    ensures forall k :: 0 <= k < |tasks| && tasks[k].Job? ==> BatchOk(s, tasks[k].batch)
  {
    TasksHoldBatches(pending);
    forall k | 0 <= k < |tasks| && tasks[k].Job? ensures BatchOk(s, tasks[k].batch) {
      var i :| 0 <= i < |pending| && pending[i] == tasks[k].batch;
    }
  }

  lemma TaskOfBatch(pending: seq<Batch>, i: nat) returns (k: nat)
    requires i < |pending| && pending[i].builds != []
    ensures k < |TasksOf(pending)| && TasksOf(pending)[k] == Job(pending[i])
  {
    TasksHoldBatches(pending);
    assert pending[i] in Batches(TasksOf(pending));
    k :| 0 <= k < |TasksOf(pending)| && TasksOf(pending)[k] == Job(pending[i]);
  }

  lemma PublishWorkflowKeepsInv(s: State)
    requires Inv(s) && Enabled(s, PublishWorkflow)
    ensures Inv(Apply(s, PublishWorkflow))
  {
    var t := Apply(s, PublishWorkflow);
    forall k | t.phase.next <= k < |t.phase.tasks| && t.phase.tasks[k].Job? ensures BatchOk(t, t.phase.tasks[k].batch) {
      assert BatchOk(s, s.phase.tasks[k].batch);
    }
    forall r | r in t.due ensures Awaited(t, r) {
      assert Awaited(s, r);
      if r !in s.runs {
        var k :| s.phase.next <= k < |s.phase.tasks| && TaskHas(s.phase.tasks[k], r);
        assert TaskHas(t.phase.tasks[k], r);
      }
    }
  }

  lemma PublishRunKeepsInv(s: State)
    requires Inv(s) && Enabled(s, PublishRun)
    ensures Inv(Apply(s, PublishRun))
  {
    var t := Apply(s, PublishRun);
    assert t.runs[|s.runs|] in t.runs;
    forall k | t.phase.next <= k < |t.phase.tasks| && t.phase.tasks[k].Job? ensures BatchOk(t, t.phase.tasks[k].batch) {
      assert BatchOk(s, s.phase.tasks[k].batch);
    }
    forall r | r in t.due ensures Awaited(t, r) {
      assert Awaited(s, r);
      if r !in s.runs {
        var k :| s.phase.next <= k < |s.phase.tasks| && TaskHas(s.phase.tasks[k], r);
        assert TaskHas(t.phase.tasks[k], r);
      }
    }
  }

  lemma SaveKeepsInv(s: State, outcome: SaveOutcome)
    requires Inv(s) && Enabled(s, Save(outcome))
    ensures Inv(Apply(s, Save(outcome)))
  {
    var t, b := Apply(s, Save(outcome)), s.phase.tasks[s.phase.next].batch;
    assert BatchOk(s, b) && PartlyBuilt(s, b, |b.builds|);
    assert forall n :: n in b.builds ==> Run(b.entry.path, n) in s.runs;
    assert CursorOk(t, b.entry.path, Highest(b.builds));
    forall k | t.phase.next <= k < |t.phase.tasks| && t.phase.tasks[k].Job? ensures BatchOk(t, t.phase.tasks[k].batch) {
      assert BatchOk(s, s.phase.tasks[k].batch);
    }
    forall r | r in t.due ensures Awaited(t, r) {
      assert Awaited(s, r);
      if r !in s.runs {
        var k :| s.phase.next <= k < |s.phase.tasks| && TaskHas(s.phase.tasks[k], r);
        assert k != s.phase.next;
        assert TaskHas(t.phase.tasks[k], r);
      }
    }
  }

  lemma {:induction false} StepKeepsInv(s: State, a: Action)
    requires Inv(s) && Enabled(s, a) && (a.List? ==> CoversNew(s, a.listed))
    ensures Inv(Apply(s, a))
  {
    match a
    case Complete(job, n) => CompleteKeepsInv(s, job, n);
    case Begin(entries) => BeginKeepsInv(s, entries);
    case Probe(answer) => ProbeKeepsInv(s, answer);
    case List(answer) => ListKeepsInv(s, answer);
    case StartPublishing => StartPublishingKeepsInv(s);
    case PublishWorkflow => PublishWorkflowKeepsInv(s);
    case PublishRun => PublishRunKeepsInv(s);
    case Save(outcome) => SaveKeepsInv(s, outcome);
    case Load(_) => ProcessKeepsInv(s, a);
    case Restart => ProcessKeepsInv(s, a);
    case Finish => ProcessKeepsInv(s, a);
    case Clear(_) =>
  }

  /** Loading, restarting and finishing a tick. */
  lemma ProcessKeepsInv(s: State, a: Action)
    requires Inv(s) && Enabled(s, a) && (a.Load? || a.Restart? || a.Finish?)
    ensures Inv(Apply(s, a))
  {
    var t := Apply(s, a);
    if a.Finish? {
      forall r | r in s.due ensures r in s.runs {
        assert Awaited(s, r);
      }
    }
    forall r | r in t.due ensures Awaited(t, r) {
      assert Awaited(s, r);
    }
  }

  lemma {:induction false} RunKeepsInv(s: State, acts: seq<Action>)
    requires Inv(s) && Legal(s, acts) && ListsCover(s, acts)
    ensures Inv(After(s, acts))
    decreases |acts|
  {
    if acts != [] {
      var init := acts[..|acts| - 1];
      RunKeepsInv(s, init);
      StepKeepsInv(After(s, init), acts[|acts| - 1]);
    }
  }

  /** Every completed build at or below a cursor, in memory or stored, has been handed to the
      publisher, and so has every build that a finished tick had to hand over. */
  ghost predicate Safe(s: State) {
    && (forall job, n :: job in s.cursors && n in CompletedOf(s.completed, job) && n <= s.cursors[job] ==>
          Run(job, n) in s.runs)
    && (forall job, n :: job in s.store && n in CompletedOf(s.completed, job) && n <= s.store[job] ==>
          Run(job, n) in s.runs)
    && forall r :: r in s.settled ==> r in s.runs
  }

  /** Main result: whatever fails and whenever the process restarts, as long as no listing
      leaves out a completed build above the cursor that is not handed over yet, in every
      reachable state every completed build at or below a cursor, in memory or stored, has
      been handed to the publisher; the branch that clears a cursor is never taken; and a
      finished tick has handed over every build that had completed when it began, of each
      job whose builds it could list. */
  lemma CrawlIsSafe(acts: seq<Action>)
    requires Legal(Start, acts) && ListsCover(Start, acts)
    ensures Safe(After(Start, acts)) && !After(Start, acts).phase.Clearing?
  {
    RunKeepsInv(Start, acts);
    InvIsSafe(After(Start, acts));
  }

  lemma InvIsSafe(s: State)
    requires Inv(s)
    ensures Safe(s)
  {
    assert forall job :: job in s.cursors ==> Covered(s, job, s.cursors[job]);
    assert forall job :: job in s.store ==> Covered(s, job, s.store[job]);
  }
}
