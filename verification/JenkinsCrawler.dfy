/** The Jenkins crawler's code: each method is proved to take a legal run of protocol steps,
    between any two of which builds may complete. */
module JenkinsCrawler {
  import opened Seqs
  import opened Sorting
  import opened Values
  import opened Ownership
  import opened Jenkins

  /** The environment over time, counted in steps of the crawler: which builds have completed
      at each step, and how the client and the store answer there. */
  datatype Env = Env(completed: nat -> map<string, set<nat>>, loads: nat -> bool,
                     probes: (nat, string) -> ProbeAnswer, listings: (nat, string) -> ListAnswer,
                     clears: (nat, string) -> bool, saves: (nat, string) -> SaveOutcome)

  /** From c to d builds have completed, each above those of its job before it. */
  ghost predicate Grows(c: map<string, set<nat>>, d: map<string, set<nat>>) {
    && c.Keys <= d.Keys
    && forall job :: job in d ==> (job in c || d[job] != {}) && NewAbove(CompletedOf(c, job), d[job])
  }

  ghost predicate NewAbove(before: set<nat>, later: set<nat>) {
    before <= later && forall n :: n in later && n !in before ==> n > 0 && forall m :: m in before ==> m < n
  }

  ghost predicate BuildsComplete(env: Env, n: nat) {
    Grows(env.completed(n), env.completed(n + 1))
  }

  ghost predicate TellsTruth(env: Env, n: nat, job: string) {
    ProbeAnswers(env.completed(n), job, env.probes(n, job)) && ListAnswers(env.completed(n), job, env.listings(n, job))
  }

  /** Builds complete in number order, and each answer is about the builds of its moment. */
  ghost predicate Faithful(env: Env) {
    (forall n: nat :: BuildsComplete(env, n)) && forall n: nat, job :: TellsTruth(env, n, job)
  }

  datatype Moment = Moment(clock: nat, state: State)

  /** What the next step of the crawler finds: builds have completed. */
  ghost function Found(env: Env, now: Moment): State {
    now.state.(completed := env.completed(now.clock + 1))
  }

  function Tick(a: Action): nat {
    if a.Complete? then 0 else 1
  }

  function JobsOf(a: Action): seq<seq<JobEntry>> {
    if a.Begin? then [a.jobs] else []
  }

  /** A step of the crawler got the environment's answer of moment n. */
  ghost predicate Answered(env: Env, n: nat, s: State, a: Action) {
    a.Complete? || (s.completed == env.completed(n) && GotAnswer(env, n, s, a))
  }

  ghost predicate GotAnswer(env: Env, n: nat, s: State, a: Action) {
    match a
    case Complete(_, _) => false
    case Restart => false
    case Load(ok) => ok == env.loads(n)
    case Probe(answer) => AtEntry(s.phase) && answer == env.probes(n, EntryOf(s.phase).path)
    case Clear(effective) => AtEntry(s.phase) && effective == env.clears(n, EntryOf(s.phase).path)
    case List(answer) => AtEntry(s.phase) && answer == env.listings(n, EntryOf(s.phase).path)
    case Save(outcome) =>
      && AtTask(s.phase) && s.phase.tasks[s.phase.next].Job?
      && outcome == env.saves(n, s.phase.tasks[s.phase.next].batch.entry.path)
    case _ => true
  }

  ghost predicate IsStep(env: Env, now: Moment, a: Action, next: Moment) {
    && Enabled(now.state, a) && Answered(env, now.clock + Tick(a), now.state, a)
    && next == Moment(now.clock + Tick(a), Apply(now.state, a))
  }

  /** The actions lead from one moment to the other: builds completing, and steps of the
      crawler that get the answers of their moments. */
  ghost predicate Leads(env: Env, from: Moment, acts: seq<Action>, to: Moment)
    decreases |acts|, 0
  {
    if acts == [] then from == to else LeadsOn(env, from, acts[..|acts| - 1], acts[|acts| - 1], to)
  }

  ghost predicate LeadsOn(env: Env, from: Moment, init: seq<Action>, a: Action, to: Moment)
    decreases |init|, 1
  {
    exists mid :: Leads(env, from, init, mid) && IsStep(env, mid, a, to)
  }

  /** The job lists that ticks were begun for, in order. */
  function Begun(acts: seq<Action>): seq<seq<JobEntry>> {
    if acts == [] then [] else Begun(acts[..|acts| - 1]) + JobsOf(acts[|acts| - 1])
  }

  /** A run of the crawler and its environment that begins these ticks. */
  ghost predicate IsRun(env: Env, from: Moment, acts: seq<Action>, to: Moment, ticks: seq<seq<JobEntry>>) {
    Leads(env, from, acts, to) && Begun(acts) == ticks
  }

  /** Such a run is one of the protocol. */
  lemma {:induction false} RunIsLegal(env: Env, from: Moment, acts: seq<Action>, to: Moment)
    requires Leads(env, from, acts, to)
    ensures Legal(from.state, acts) && After(from.state, acts) == to.state
    decreases |acts|
  {
    if acts != [] {
      var mid :| Leads(env, from, acts[..|acts| - 1], mid) && IsStep(env, mid, acts[|acts| - 1], to);
      RunIsLegal(env, from, acts[..|acts| - 1], mid);
    }
  }

  lemma {:induction false} RunsKeepInv(env: Env, from: Moment, acts: seq<Action>, to: Moment, ticks: seq<seq<JobEntry>>)
    requires IsRun(env, from, acts, to, ticks)
    ensures Legal(from.state, acts)
    ensures Inv(from.state) && ListsCover(from.state, acts) ==> Inv(to.state)
  {
    RunIsLegal(env, from, acts, to);
    if Inv(from.state) && ListsCover(from.state, acts) {
      RunKeepsInv(from.state, acts);
    }
  }

  lemma {:induction false} OneMoreStep(env: Env, from: Moment, acts: seq<Action>, now: Moment,
                                       ticks: seq<seq<JobEntry>>, a: Action, next: Moment)
    requires IsRun(env, from, acts, now, ticks) && IsStep(env, now, a, next)
    ensures IsRun(env, from, acts + [a], next, ticks + JobsOf(a))
  {
    assert (acts + [a])[..|acts|] == acts;
  }

  lemma {:induction false} LeadsCompose(env: Env, from: Moment, front: seq<Action>, mid: Moment, back: seq<Action>,
                                        to: Moment)
    requires Leads(env, from, front, mid) && Leads(env, mid, back, to)
    ensures Leads(env, from, front + back, to)
    decreases |back|
  {
    if back == [] {
      assert front + back == front;
    } else {
      var init, a := back[..|back| - 1], back[|back| - 1];
      assert LeadsOn(env, mid, init, a, to);
      var late :| Leads(env, mid, init, late) && IsStep(env, late, a, to);
      LeadsCompose(env, from, front, mid, init, late);
      assert (front + back)[..|front + back| - 1] == front + init;
    }
  }

  lemma {:induction false} BegunOfBoth(front: seq<Action>, back: seq<Action>)
    ensures Begun(front + back) == Begun(front) + Begun(back)
  {
    if back == [] {
      assert front + back == front;
    } else {
      var init := back[..|back| - 1];
      assert (front + back)[..|front + back| - 1] == front + init;
      BegunOfBoth(front, init);
    }
  }

  lemma RunsCompose(env: Env, from: Moment, front: seq<Action>, mid: Moment, back: seq<Action>, to: Moment,
                    ticks: seq<seq<JobEntry>>, more: seq<seq<JobEntry>>)
    requires IsRun(env, from, front, mid, ticks) && IsRun(env, mid, back, to, more)
    ensures IsRun(env, from, front + back, to, ticks + more)
  {
    LeadsCompose(env, from, front, mid, back, to);
    BegunOfBoth(front, back);
  }

  // ---- builds completing between two steps

  ghost function Missing(c: map<string, set<nat>>, d: map<string, set<nat>>): set<Run> {
    set job, n | job in d && n in d[job] && n !in CompletedOf(c, job) :: Run(job, n)
  }

  lemma {:induction false} Least(s: set<nat>) returns (n: nat)
    requires s != {}
    ensures n in s && forall m :: m in s ==> n <= m
    decreases s
  {
    var some :| some in s;
    n := some;
    assert forall m :: m in s ==> m == some || m in s - {some};
    if s - {some} != {} {
      var least := Least(s - {some});
      n := if least < some then least else some;
    }
  }

  lemma NothingMissing(c: map<string, set<nat>>, d: map<string, set<nat>>)
    requires Grows(c, d) && Missing(c, d) == {}
    ensures c == d
  {
    forall job | job in d ensures job in c && c[job] == d[job] {
      assert forall n :: n in d[job] ==> Run(job, n) !in Missing(c, d);
    }
  }

  /** The next build of a job to complete. */
  lemma NextMissing(c: map<string, set<nat>>, d: map<string, set<nat>>) returns (job: string, n: nat)
    requires Grows(c, d) && Missing(c, d) != {}
    ensures n > 0 && forall m :: m in CompletedOf(c, job) ==> m < n
    ensures var next := c[job := CompletedOf(c, job) + {n}];
      Grows(next, d) && Missing(next, d) < Missing(c, d)
  {
    var r :| r in Missing(c, d);
    job := r.job;
    assert r.number in d[job] - CompletedOf(c, job);
    n := Least(d[job] - CompletedOf(c, job));
    var next := c[job := CompletedOf(c, job) + {n}];
    assert Run(job, n) in Missing(c, d) && Run(job, n) !in Missing(next, d);
    assert NewAbove(CompletedOf(c, job), d[job]);
    forall m | m in d[job] && m !in CompletedOf(next, job) ensures m > n {
      assert m in d[job] - CompletedOf(c, job);
    }
    assert NewAbove(CompletedOf(next, job), d[job]);
    forall other | other in d && other != job ensures NewAbove(CompletedOf(next, other), d[other]) {
      assert CompletedOf(next, other) == CompletedOf(c, other);
      assert NewAbove(CompletedOf(c, other), d[other]);
    }
  }

  lemma {:induction false} BuildsMove(env: Env, now: Moment, goal: map<string, set<nat>>) returns (acts: seq<Action>)
    requires Grows(now.state.completed, goal)
    ensures IsRun(env, now, acts, now.(state := now.state.(completed := goal)), [])
    decreases Missing(now.state.completed, goal)
  {
    acts := [];
    if Missing(now.state.completed, goal) == {} {
      NothingMissing(now.state.completed, goal);
    } else {
      var job, n := NextMissing(now.state.completed, goal);
      var a := Complete(job, n);
      var next := Moment(now.clock, Apply(now.state, a));
      OneMoreStep(env, now, [], now, [], a, next);
      var rest := BuildsMove(env, next, goal);
      RunsCompose(env, now, [] + [a], next, rest, now.(state := now.state.(completed := goal)), [] + JobsOf(a), []);
      acts := ([] + [a]) + rest;
    }
  }

  /** Builds complete, then the crawler takes a step. */
  lemma {:induction false} Step(env: Env, now: Moment, a: Action, next: Moment) returns (acts: seq<Action>)
    requires Faithful(env) && now.state.completed == env.completed(now.clock) && !a.Complete?
    requires Enabled(Found(env, now), a) && GotAnswer(env, now.clock + 1, Found(env, now), a)
    requires next == Moment(now.clock + 1, Apply(Found(env, now), a))
    ensures IsRun(env, now, acts, next, JobsOf(a))
  {
    assert BuildsComplete(env, now.clock);
    var moves := BuildsMove(env, now, env.completed(now.clock + 1));
    OneMoreStep(env, now, moves, now.(state := Found(env, now)), [], a, next);
    acts := moves + [a];
  }

  lemma {:induction false} ClearStep(env: Env, now: Moment, effective: bool) returns (acts: seq<Action>)
    requires Faithful(env) && now.state.completed == env.completed(now.clock)
    requires now.state.phase.Clearing? && AtEntry(now.state.phase)
    requires effective == env.clears(now.clock + 1, EntryOf(now.state.phase).path)
    ensures var s, job := now.state, EntryOf(now.state.phase).path;
      IsRun(env, now, acts,
            Moment(now.clock + 1,
                   Found(env, now).(store := if effective then s.store - {job} else s.store,
                                    cursors := s.cursors - {job},
                                    phase := Fetching(s.phase.entries, s.phase.pending, 0))), [])
  {
    acts := Step(env, now, Clear(effective), Moment(now.clock + 1, Apply(Found(env, now), Clear(effective))));
  }

  lemma {:induction false} ListStep(env: Env, now: Moment, answer: ListAnswer) returns (acts: seq<Action>)
    requires Faithful(env) && now.state.completed == env.completed(now.clock)
    requires now.state.phase.Fetching? && AtEntry(now.state.phase)
    requires answer == env.listings(now.clock + 1, EntryOf(now.state.phase).path)
    ensures var s, job := now.state, EntryOf(now.state.phase).path;
      IsRun(env, now, acts,
            Moment(now.clock + 1,
                   Found(env, now).(phase := Collect(s.phase, Collected(answer, s.phase.cursor)),
                                    due := if answer.Builds? then s.due else Without(s.due, job))), [])
  {
    assert TellsTruth(env, now.clock + 1, EntryOf(now.state.phase).path);
    acts := Step(env, now, List(answer), Moment(now.clock + 1, Apply(Found(env, now), List(answer))));
  }

  lemma {:induction false} StartStep(env: Env, now: Moment) returns (acts: seq<Action>)
    requires Faithful(env) && now.state.completed == env.completed(now.clock)
    requires now.state.phase.Collecting? && |now.state.phase.pending| == |now.state.phase.entries|
    ensures IsRun(env, now, acts,
                  Moment(now.clock + 1,
                         Found(env, now).(phase := Publishing(TasksOf(now.state.phase.pending), 0, 0))), [])
  {
    acts := Step(env, now, StartPublishing, Moment(now.clock + 1, Apply(Found(env, now), StartPublishing)));
  }

  lemma {:induction false} SaveStep(env: Env, now: Moment, b: Batch, outcome: SaveOutcome) returns (acts: seq<Action>)
    requires Faithful(env) && now.state.completed == env.completed(now.clock) && AtTask(now.state.phase)
    requires now.state.phase.tasks[now.state.phase.next] == Job(b) && now.state.phase.built == |b.builds|
    requires outcome == env.saves(now.clock + 1, b.entry.path)
    ensures var s, job, newest := now.state, b.entry.path, Highest(b.builds);
      IsRun(env, now, acts,
            Moment(now.clock + 1,
                   Found(env, now).(store := if outcome.NotSaved? then s.store else s.store[job := newest],
                                    cursors := if outcome.Saved? then s.cursors[job := newest] else s.cursors,
                                    phase := s.phase.(next := s.phase.next + 1, built := 0))), [])
  {
    acts := Step(env, now, Save(outcome), Moment(now.clock + 1, Apply(Found(env, now), Save(outcome))));
  }

  // ---- what stays due

  /** The builds of the job can be listed throughout. */
  ghost predicate Listable(env: Env, job: string, after: nat, until: nat) {
    forall n :: after < n <= until ==> env.listings(n, job).Builds?
  }

  /** Nothing is released but builds of jobs that could not be listed meanwhile. */
  ghost predicate KeepsDue(env: Env, before: set<Run>, later: set<Run>, after: nat, until: nat) {
    forall r :: r in before && Listable(env, r.job, after, until) ==> r in later
  }

  lemma KeepsDueTwice(env: Env, first: set<Run>, second: set<Run>, third: set<Run>, after: nat, mid: nat, until: nat)
    requires after <= mid <= until
    requires KeepsDue(env, first, second, after, mid) && KeepsDue(env, second, third, mid, until)
    ensures KeepsDue(env, first, third, after, until)
  {
    forall r | r in first && Listable(env, r.job, after, until) ensures r in third {
      assert Listable(env, r.job, after, mid) && Listable(env, r.job, mid, until);
    }
  }

  lemma DueGrows(c: map<string, set<nat>>, d: map<string, set<nat>>, entries: seq<JobEntry>)
    requires Grows(c, d)
    ensures DueRuns(c, entries) <= DueRuns(d, entries)
  {
    forall r | r in DueRuns(c, entries) ensures r in DueRuns(d, entries) {
      var i :| 0 <= i < |entries| && entries[i].path == r.job && r.number in CompletedOf(c, entries[i].path);
      assert NewAbove(CompletedOf(c, r.job), d[r.job]);
    }
  }

  // ---- the groups built while collecting

  function OfPipeline(id: string): Batch -> bool {
    (b: Batch) => PipelinePath(b.entry) == id
  }

  ghost predicate Grouped(order: seq<string>, groups: map<string, seq<Batch>>, pending: seq<Batch>) {
    && order == Pipelines(pending) && groups.Keys == Elements(order)
    && forall id :: id in groups ==> groups[id] == Select(pending, OfPipeline(id))
  }

  lemma GroupNext(order: seq<string>, groups: map<string, seq<Batch>>, pending: seq<Batch>, b: Batch)
    requires Grouped(order, groups, pending)
    ensures var id := PipelinePath(b.entry);
      Grouped(if id in groups then order else order + [id],
              groups[id := (if id in groups then groups[id] else []) + [b]], pending + [b])
  {
    var id, name := PipelinePath(b.entry), (b: Batch) => PipelinePath(b.entry);
    var names := Map(pending, name);
    assert Map(pending + [b], name) == names + [id];
    FirstSeenNext(names, id);
    FirstSeenMembers(names);
    assert id in order <==> id in names;
    assert id in groups <==> id in order;
    var order', groups' := if id in groups then order else order + [id],
                           groups[id := (if id in groups then groups[id] else []) + [b]];
    assert groups'.Keys == Elements(order');
    forall l | l in groups' ensures groups'[l] == Select(pending + [b], OfPipeline(l)) {
      SelectSnoc(pending, b, OfPipeline(l));
      if l !in groups {
        NoneOfPipeline(pending, l);
      }
    }
  }

  lemma NoneOfPipeline(pending: seq<Batch>, id: string)
    requires id !in Pipelines(pending)
    ensures Select(pending, OfPipeline(id)) == []
  {
    var names := Map(pending, (b: Batch) => PipelinePath(b.entry));
    FirstSeenMembers(names);
    forall b | b in pending ensures !OfPipeline(id)(b) {
      var i :| 0 <= i < |pending| && pending[i] == b;
      assert names[i] in names;
    }
    SelectNone(pending, OfPipeline(id));
  }

  lemma GroupHasTasks(pending: seq<Batch>, id: string)
    ensures Select(Select(pending, OfPipeline(id)), HasBuilds()) == Select(pending, InPipeline(id))
  {
    SelectSelect(pending, OfPipeline(id), HasBuilds(), InPipeline(id));
  }

  // ---- the loops over builds

  lemma NewBuildsNext(builds: seq<Build>, i: nat, cursor: nat)
    requires i < |builds|
    ensures NewBuilds(builds[..i + 1], cursor)
         == NewBuilds(builds[..i], cursor)
            + if IsComplete(builds[i]) && builds[i].number > cursor then [builds[i].number] else []
  {
    var p, number := (b: Build) => IsComplete(b) && b.number > cursor, (b: Build) => b.number;
    SelectSnoc(builds[..i], builds[i], p);
    assert builds[..i + 1] == builds[..i] + [builds[i]];
    assert NewBuilds(builds[..i + 1], cursor) == Map(Select(builds[..i + 1], p), number);
  }

  /** r has the numbers of the builds at the places `at`: in the order they are listed, and of
      the first n all that ended above the cursor, whatever their result, and no others. */
  ghost predicate KeptFrom(builds: seq<Build>, cursor: nat, n: nat, r: seq<nat>, at: seq<nat>)
    requires n <= |builds|
  {
    && |at| == |r| && (forall k :: 0 <= k < |r| ==> at[k] < n && builds[at[k]].number == r[k])
    && (forall k, l :: 0 <= k < l < |at| ==> at[k] < at[l])
    && forall i :: 0 <= i < n ==>
         (i in at <==> !builds[i].inProgress && builds[i].result != "" && builds[i].number > cursor)
  }

  method FilterNew(builds: seq<Build>, cursor: nat) returns (r: seq<nat>, ghost at: seq<nat>)
    ensures r == NewBuilds(builds, cursor)
    ensures KeptFrom(builds, cursor, |builds|, r, at)
    ensures forall n :: n in r <==>
              exists i :: 0 <= i < |builds| && builds[i].number == n > cursor
                          && !builds[i].inProgress && builds[i].result != ""
  {
    r, at := [], [];
    for i := 0 to |builds|
      invariant r == NewBuilds(builds[..i], cursor) && KeptFrom(builds, cursor, i, r, at)
    {
      NewBuildsNext(builds, i, cursor);
      if builds[i].inProgress || builds[i].result == "" {
        continue;
      }
      if builds[i].number > cursor {
        r, at := r + [builds[i].number], at + [i];
      }
    }
    assert builds[..|builds|] == builds;
    forall n: nat ensures n in r <==> n > cursor && Shows(builds, n) {
      NewBuildsAbove(builds, cursor, n);
    }
  }

  /** The builds are those the answer shows as ended above the cursor; none if it failed. */
  ghost predicate IsNew(answer: ListAnswer, cursor: nat, builds: seq<nat>) {
    forall n :: n in builds <==> answer.Builds? && n > cursor && Shows(answer.builds, n)
  }

  method MaxPublished(builds: seq<nat>) returns (m: nat)
    ensures m == Highest(builds)
  {
    m := 0;
    for i := 0 to |builds|
      invariant m == Highest(builds[..i])
    {
      assert builds[..i + 1][..i] == builds[..i];
      if builds[i] > m {
        m := builds[i];
      }
    }
    assert builds[..|builds|] == builds;
  }

  /** The new builds of all jobs of a pipeline together. */
  method NewBuildsOf(group: seq<Batch>) returns (all: seq<nat>)
    ensures all == [] <==> Select(group, HasBuilds()) == []
  {
    all := [];
    for j := 0 to |group|
      invariant all == [] <==> Select(group[..j], HasBuilds()) == []
    {
      SelectSnoc(group[..j], group[j], HasBuilds());
      assert group[..j + 1] == group[..j] + [group[j]];
      all := all + group[j].builds;
    }
    assert group[..|group|] == group;
  }

  /** `clock` counts the steps taken; the ghost fields are the environment as it stands, and what
      the protocol keeps account of. */
  class Crawler {
    const env: Env
    var clock: nat
    var store: map<string, nat>
    var cursors: map<string, nat>
    var loaded: bool
    var workflows: seq<string>
    var runs: seq<Run>
    ghost var completed: map<string, set<nat>>
    ghost var phase: Phase
    ghost var due: set<Run>
    ghost var settled: set<Run>

    ghost function Now(): Moment
      reads this
    {
      Moment(clock, State(completed, store, loaded, cursors, phase, workflows, runs, due, settled))
    }

    /** The client is faithful, and no completion has been missed. */
    ghost predicate Connected()
      reads this
    {
      Faithful(env) && completed == env.completed(clock)
    }

    ghost predicate Valid()
      reads this
    {
      Connected() && phase.Idle?
    }

    /** A new process over what the store and the publisher already hold. */
    constructor (env: Env, clock: nat, store: map<string, nat>, workflows: seq<string>, runs: seq<Run>,
                 ghost before: State)
      requires Faithful(env) && before.completed == env.completed(clock)
      requires before.store == store && before.workflows == workflows && before.runs == runs
      ensures this.env == env && Valid() && Now() == Moment(clock, Apply(before, Restart))
      ensures Inv(before) ==> Inv(Now().state)
    {
      this.env, this.clock, this.store, this.workflows, this.runs := env, clock, store, workflows, runs;
      cursors, loaded := map[], false;
      completed, phase, due, settled := before.completed, Idle, {}, before.settled;
      new;
      if Inv(before) {
        StepKeepsInv(before, Restart);
      }
    }

    /** What became of one entry: with nothing new, no listing; with the last build behind the
        cursor, the cursor is cleared and everything that ended is new; else what ended above it. */
    ghost predicate Turned(path: string, began: nat, was: nat, builds: seq<nat>)
      reads this
    {
      var probe := env.probes(began + 1, path);
      if probe.NoBuilds? || (probe.Last? && probe.number == was) then clock == began + 1 && builds == []
      else if probe.Last? && probe.number < was then clock == began + 3 && IsNew(env.listings(clock, path), 0, builds)
      else clock == began + 2 && IsNew(env.listings(clock, path), was, builds)
    }

    /** One turn of the collecting loop: probe, and fetch unless there is nothing new. */
    method CollectEntry(entry: JobEntry) returns (builds: seq<nat>, ghost acts: seq<Action>)
      requires Connected() && phase.Collecting? && AtEntry(phase) && EntryOf(phase) == entry
      modifies this`clock, this`completed, this`store, this`cursors, this`phase, this`due
      ensures Connected() && clock > old(clock)
      ensures IsRun(env, old(Now()), acts, Now(), []) && phase == Collect(old(phase), builds)
      ensures due <= old(due) && KeepsDue(env, old(due), due, old(clock), clock)
      ensures Turned(entry.path, old(clock), CursorOf(old(cursors), entry.path), builds)
      ensures var probe := env.probes(old(clock) + 1, entry.path);
        var behind := probe.Last? && probe.number < CursorOf(old(cursors), entry.path);
        && cursors == (if behind then old(cursors) - {entry.path} else old(cursors))
        && store == (if behind && env.clears(old(clock) + 2, entry.path) then old(store) - {entry.path} else old(store))
    {
      var cursor := CursorOf(cursors, entry.path);
      var answer;
      answer, acts := ProbeEntry(entry);
      match answer {
        case NoBuilds =>
          return [], acts;
        case Last(last) =>
          if last < cursor {
            ghost var probed := Now();
            ghost var more := ClearCursor(entry);
            RunsCompose(env, old(Now()), acts, probed, more, Now(), [], []);
            acts := acts + more;
            cursor := 0;
          } else if last == cursor {
            return [], acts;
          }
        case ProbeFailed =>
      }
      ghost var probed, more := Now(), [];
      builds, more := FetchBuilds(entry, cursor);
      RunsCompose(env, old(Now()), acts, probed, more, Now(), [], []);
      acts := acts + more;
    }

    method ProbeEntry(entry: JobEntry) returns (answer: ProbeAnswer, ghost acts: seq<Action>)
      requires Connected() && phase.Collecting? && AtEntry(phase) && EntryOf(phase) == entry
      modifies this`clock, this`completed, this`phase
      ensures Connected() && clock == old(clock) + 1 && answer == env.probes(clock, entry.path)
      ensures IsRun(env, old(Now()), acts, Now(), []) && phase == Probed(old(Now()).state, answer)
    {
      answer := env.probes(clock + 1, entry.path);
      assert TellsTruth(env, clock + 1, entry.path);
      acts := Step(env, Now(), Probe(answer), Moment(clock + 1, Apply(Found(env, Now()), Probe(answer))));
      phase := Probed(Now().state, answer);
      clock, completed := clock + 1, env.completed(clock + 1);
    }

    method ClearCursor(entry: JobEntry) returns (ghost acts: seq<Action>)
      requires Connected() && phase.Clearing? && AtEntry(phase) && EntryOf(phase) == entry
      modifies this`clock, this`completed, this`store, this`cursors, this`phase
      ensures Connected() && clock == old(clock) + 1 && IsRun(env, old(Now()), acts, Now(), [])
      ensures phase == Fetching(old(phase).entries, old(phase).pending, 0) && cursors == old(cursors) - {entry.path}
      ensures store == if env.clears(clock, entry.path) then old(store) - {entry.path} else old(store)
    {
      var effective := env.clears(clock + 1, entry.path);
      acts := ClearStep(env, Now(), effective);
      if effective {
        store := store - {entry.path};
      }
      cursors := cursors - {entry.path};
      phase := Fetching(phase.entries, phase.pending, 0);
      clock, completed := clock + 1, env.completed(clock + 1);
    }

    /** Fetches the builds and keeps the completed ones above the cursor. */
    method FetchBuilds(entry: JobEntry, cursor: nat) returns (builds: seq<nat>, ghost acts: seq<Action>)
      requires Connected() && phase.Fetching? && AtEntry(phase) && EntryOf(phase) == entry && phase.cursor == cursor
      modifies this`clock, this`completed, this`phase, this`due
      ensures Connected() && clock == old(clock) + 1 && IsRun(env, old(Now()), acts, Now(), [])
      ensures builds == Collected(env.listings(clock, entry.path), cursor) && phase == Collect(old(phase), builds)
      ensures due == if env.listings(clock, entry.path).Builds? then old(due) else Without(old(due), entry.path)
      ensures IsNew(env.listings(clock, entry.path), cursor, builds)
    {
      var answer := env.listings(clock + 1, entry.path);
      acts := ListStep(env, Now(), answer);
      builds := [];
      if answer.Builds? {
        ghost var at;
        builds, at := FilterNew(answer.builds, cursor);
      } else {
        due := Without(due, entry.path);
      }
      phase := Collect(phase, builds);
      clock, completed := clock + 1, env.completed(clock + 1);
    }

    /** Collects the new builds of all entries, grouped by pipeline in the order of discovery. */
    method CollectAll(entries: seq<JobEntry>)
      returns (order: seq<string>, groups: map<string, seq<Batch>>, ghost acts: seq<Action>)
      requires Connected() && phase == Collecting(entries, [])
      modifies this`clock, this`completed, this`store, this`cursors, this`phase, this`due
      ensures Connected() && clock >= old(clock) && IsRun(env, old(Now()), acts, Now(), [])
      ensures phase.Collecting? && phase.entries == entries && |phase.pending| == |entries|
      ensures Grouped(order, groups, phase.pending) && KeepsDue(env, old(due), due, old(clock), clock)
    {
      acts, order, groups := [], [], map[];
      for i := 0 to |entries|
        invariant Connected() && clock >= old(clock) && IsRun(env, old(Now()), acts, Now(), [])
        invariant phase.Collecting? && phase.entries == entries && |phase.pending| == i
        invariant Grouped(order, groups, phase.pending) && KeepsDue(env, old(due), due, old(clock), clock)
      {
        ghost var before, more := Now(), [];
        order, groups, more := CollectNext(entries[i], order, groups);
        RunsCompose(env, old(Now()), acts, before, more, Now(), [], []);
        acts := acts + more;
        KeepsDueTwice(env, old(due), before.state.due, due, old(clock), before.clock, clock);
      }
    }

    /** One turn of the collecting loop. */
    method CollectNext(entry: JobEntry, order: seq<string>, groups: map<string, seq<Batch>>)
      returns (order': seq<string>, groups': map<string, seq<Batch>>, ghost acts: seq<Action>)
      requires Connected() && phase.Collecting? && AtEntry(phase) && EntryOf(phase) == entry
      requires Grouped(order, groups, phase.pending)
      modifies this`clock, this`completed, this`store, this`cursors, this`phase, this`due
      ensures Connected() && clock > old(clock) && IsRun(env, old(Now()), acts, Now(), [])
      ensures phase.Collecting? && phase.entries == old(phase).entries && |phase.pending| == |old(phase).pending| + 1
      ensures Grouped(order', groups', phase.pending) && KeepsDue(env, old(due), due, old(clock), clock)
    {
      order', groups' := order, groups;
      var id := PipelinePath(entry);
      if id !in groups' {
        groups' := groups'[id := []];
        order' := order' + [id];
      }
      var builds;
      builds, acts := CollectEntry(entry);
      GroupNext(order, groups, old(phase).pending, Batch(entry, builds));
      groups' := groups'[id := groups'[id] + [Batch(entry, builds)]];
    }

    /** Publishes the builds of one job in order; a failed publish is logged and passed over. */
    method CrawlJob(b: Batch) returns (ghost acts: seq<Action>)
      requires Connected() && AtTask(phase) && phase.tasks[phase.next] == Job(b) && phase.built == 0
      modifies this`clock, this`completed, this`runs, this`phase
      ensures Connected() && clock >= old(clock) && IsRun(env, old(Now()), acts, Now(), [])
      ensures phase == old(phase).(built := |b.builds|) && runs == old(runs) + RunsFrom(b, |b.builds|)
    {
      acts := [];
      for i := 0 to |b.builds|
        invariant Connected() && clock >= old(clock) && IsRun(env, old(Now()), acts, Now(), [])
        invariant phase == old(phase).(built := i) && runs == old(runs) + RunsFrom(b, i)
      {
        ghost var before := Now();
        ghost var more := PublishBuild(b, i);
        RunsCompose(env, old(Now()), acts, before, more, Now(), [], []);
        acts := acts + more;
        ConcatAssociative(old(runs), RunsFrom(b, i), [Run(b.entry.path, b.builds[i])]);
      }
    }

    method PublishBuild(b: Batch, i: nat) returns (ghost acts: seq<Action>)
      requires Connected() && AtTask(phase) && phase.tasks[phase.next] == Job(b) && phase.built == i < |b.builds|
      modifies this`clock, this`completed, this`runs, this`phase
      ensures Connected() && clock > old(clock) && IsRun(env, old(Now()), acts, Now(), [])
      ensures phase == old(phase).(built := i + 1) && runs == old(runs) + [Run(b.entry.path, b.builds[i])]
    {
      acts := Step(env, Now(), PublishRun, Moment(clock + 1, Apply(Found(env, Now()), PublishRun)));
      runs := runs + [Run(b.entry.path, b.builds[i])];
      phase := phase.(built := i + 1);
      clock, completed := clock + 1, env.completed(clock + 1);
    }

    /** Advances the cursor to the highest number published; only an accepted save is remembered. */
    method SaveCursor(b: Batch) returns (ghost acts: seq<Action>)
      requires Connected() && AtTask(phase) && phase.tasks[phase.next] == Job(b) && phase.built == |b.builds|
      modifies this`clock, this`completed, this`store, this`cursors, this`phase
      ensures Connected() && clock > old(clock) && IsRun(env, old(Now()), acts, Now(), [])
      ensures phase == old(phase).(next := old(phase).next + 1, built := 0)
      ensures store == if env.saves(clock, b.entry.path).NotSaved? then old(store)
                       else old(store)[b.entry.path := Highest(b.builds)]
      ensures cursors == if env.saves(clock, b.entry.path).Saved? then old(cursors)[b.entry.path := Highest(b.builds)]
                         else old(cursors)
    {
      var outcome := env.saves(clock + 1, b.entry.path);
      acts := SaveStep(env, Now(), b, outcome);
      var newest := MaxPublished(b.builds);
      if !outcome.NotSaved? {
        store := store[b.entry.path := newest];
      }
      if outcome.Saved? {
        cursors := cursors[b.entry.path := newest];
      }
      phase := phase.(next := phase.next + 1, built := 0);
      clock, completed := clock + 1, env.completed(clock + 1);
    }

    method PublishJob(b: Batch, ghost tasks: seq<Task>, ghost k: nat) returns (ghost acts: seq<Action>)
      requires Connected() && k < |tasks| && tasks[k] == Job(b) && phase == Publishing(tasks, k, 0)
      modifies this`clock, this`completed, this`store, this`cursors, this`runs, this`phase
      ensures Connected() && clock >= old(clock) && IsRun(env, old(Now()), acts, Now(), [])
      ensures phase == Publishing(tasks, k + 1, 0)
    {
      ghost var front := CrawlJob(b);
      ghost var published := Now();
      ghost var back := SaveCursor(b);
      RunsCompose(env, old(Now()), front, published, back, Now(), [], []);
      acts := front + back;
    }

    method PublishJobs(group: seq<Batch>, ghost tasks: seq<Task>, ghost start: nat) returns (ghost acts: seq<Action>)
      requires Connected() && phase == Publishing(tasks, start, 0) && Follow(tasks, start, Select(group, HasBuilds()))
      modifies this`clock, this`completed, this`store, this`cursors, this`runs, this`phase
      ensures Connected() && clock >= old(clock) && IsRun(env, old(Now()), acts, Now(), [])
      ensures phase == Publishing(tasks, start + JobsBefore(group, |group|), 0)
    {
      acts := [];
      for j := 0 to |group|
        invariant Connected() && clock >= old(clock) && IsRun(env, old(Now()), acts, Now(), [])
        invariant phase == Publishing(tasks, start + JobsBefore(group, j), 0)
      {
        acts := PublishIfNew(group, j, tasks, start, old(Now()), acts);
      }
    }

    /** One turn of the loop over the jobs of a pipeline. */
    method PublishIfNew(group: seq<Batch>, j: nat, ghost tasks: seq<Task>, ghost start: nat,
                        ghost from: Moment, ghost done: seq<Action>)
      returns (ghost acts: seq<Action>)
      requires Connected() && j < |group| && Follow(tasks, start, Select(group, HasBuilds()))
      requires phase == Publishing(tasks, start + JobsBefore(group, j), 0) && IsRun(env, from, done, Now(), [])
      modifies this`clock, this`completed, this`store, this`cursors, this`runs, this`phase
      ensures Connected() && clock >= old(clock) && IsRun(env, from, acts, Now(), [])
      ensures phase == Publishing(tasks, start + JobsBefore(group, j + 1), 0)
    {
      JobsBeforeNext(group, j);
      if group[j].builds == [] {
        return done;
      }
      NextJob(tasks, start, group, j);
      ghost var before := Now();
      ghost var more := PublishJob(group[j], tasks, start + JobsBefore(group, j));
      RunsCompose(env, from, done, before, more, Now(), [], []);
      acts := done + more;
    }

    /** Publishes the workflow and then its jobs, unless no job has anything new. */
    method PublishGroup(id: string, group: seq<Batch>, ghost tasks: seq<Task>, ghost start: nat)
      returns (ghost acts: seq<Action>)
      requires Connected() && phase == Publishing(tasks, start, 0) && HasTasks(tasks, start, TasksFor(id, group))
      modifies this`clock, this`completed, this`store, this`cursors, this`workflows, this`runs, this`phase
      ensures Connected() && clock >= old(clock) && IsRun(env, old(Now()), acts, Now(), [])
      ensures phase == Publishing(tasks, start + |TasksFor(id, group)|, 0)
    {
      var allNewBuilds := NewBuildsOf(group);
      if allNewBuilds == [] {
        return [];
      }
      TasksFollow(tasks, start, id, group);
      ghost var front := Announce(id);
      ghost var announced := Now();
      ghost var back := PublishJobs(group, tasks, start + 1);
      RunsCompose(env, old(Now()), front, announced, back, Now(), [], []);
      acts := front + back;
    }

    method Announce(id: string) returns (ghost acts: seq<Action>)
      requires Connected() && AtTask(phase) && phase.tasks[phase.next] == Workflow(id)
      modifies this`clock, this`completed, this`workflows, this`phase
      ensures Connected() && clock > old(clock) && IsRun(env, old(Now()), acts, Now(), [])
      ensures phase == old(phase).(next := old(phase).next + 1) && workflows == old(workflows) + [id]
    {
      acts := Step(env, Now(), PublishWorkflow, Moment(clock + 1, Apply(Found(env, Now()), PublishWorkflow)));
      workflows := workflows + [id];
      phase := phase.(next := phase.next + 1);
      clock, completed := clock + 1, env.completed(clock + 1);
    }

    method PublishGroups(order: seq<string>, groups: map<string, seq<Batch>>, ghost tasks: seq<Task>,
                         ghost starts: seq<nat>)
      returns (ghost acts: seq<Action>)
      requires Connected() && LaidOut(order, groups, tasks, starts) && phase == Publishing(tasks, 0, 0)
      modifies this`clock, this`completed, this`store, this`cursors, this`workflows, this`runs, this`phase
      ensures Connected() && clock >= old(clock) && IsRun(env, old(Now()), acts, Now(), [])
      ensures phase == Publishing(tasks, |tasks|, 0)
    {
      acts := [];
      for i := 0 to |order|
        invariant Connected() && clock >= old(clock) && IsRun(env, old(Now()), acts, Now(), [])
        invariant phase == Publishing(tasks, starts[i], 0)
      {
        assert GroupLaidOut(order, groups, tasks, starts, i);
        ghost var before := Now();
        ghost var more := PublishNext(order, groups, tasks, starts, i);
        RunsCompose(env, old(Now()), acts, before, more, Now(), [], []);
        acts := acts + more;
      }
    }

    method PublishNext(order: seq<string>, groups: map<string, seq<Batch>>, ghost tasks: seq<Task>,
                       ghost starts: seq<nat>, i: nat)
      returns (ghost acts: seq<Action>)
      requires i < |order| && |starts| == |order| + 1 && GroupLaidOut(order, groups, tasks, starts, i)
      requires Connected() && phase == Publishing(tasks, starts[i], 0)
      modifies this`clock, this`completed, this`store, this`cursors, this`workflows, this`runs, this`phase
      ensures Connected() && clock >= old(clock) && IsRun(env, old(Now()), acts, Now(), [])
      ensures phase == Publishing(tasks, starts[i + 1], 0)
    {
      acts := PublishGroup(order[i], groups[order[i]], tasks, starts[i]);
    }

    /** One tick.  The first tick of a process loads the cursors, or starts fresh; if the jobs
        cannot be discovered nothing else happens. */
    method Crawl(discovered: Option<seq<JobEntry>>) returns (ghost acts: seq<Action>)
      requires Valid()
      modifies this
      ensures Valid() && loaded
      ensures IsRun(env, old(Now()), acts, Now(), if discovered.Some? then [discovered.value] else [])
      ensures Legal(old(Now()).state, acts)
      ensures old(Inv(Now().state)) && ListsCover(old(Now()).state, acts) ==>
                && Inv(Now().state)
                && (discovered.Some? ==>
                      forall i :: 0 <= i < |discovered.value| ==>
                        Delivered(env, old(completed), runs, discovered.value[i].path, old(clock), clock))
    {
      acts := Hydrate();
      if discovered.Some? {
        ghost var ready := Now();
        ghost var more := CrawlJobs(discovered.value);
        RunsCompose(env, old(Now()), acts, ready, more, Now(), [], [discovered.value]);
        acts := acts + more;
      }
      RunsKeepInv(env, old(Now()), acts, Now(), if discovered.Some? then [discovered.value] else []);
      if discovered.Some? && Inv(Now().state) {
        AllDelivered(env, old(completed), Now().state, discovered.value, old(clock), clock);
      }
    }

    /** Loads the stored cursors once per process; if that fails, starts without. */
    method Hydrate() returns (ghost acts: seq<Action>)
      requires Connected() && phase.Idle?
      modifies this`clock, this`completed, this`cursors, this`loaded
      ensures Connected() && loaded && clock >= old(clock) && IsRun(env, old(Now()), acts, Now(), [])
      ensures cursors == if old(loaded) then old(cursors) else if env.loads(clock) then store else map[]
      ensures forall entries :: DueRuns(old(completed), entries) <= DueRuns(completed, entries)
    {
      if loaded {
        return [];
      }
      var ok := env.loads(clock + 1);
      assert BuildsComplete(env, clock);
      forall entries ensures DueRuns(completed, entries) <= DueRuns(env.completed(clock + 1), entries) {
        DueGrows(completed, env.completed(clock + 1), entries);
      }
      acts := Step(env, Now(), Load(ok), Moment(clock + 1, Apply(Found(env, Now()), Load(ok))));
      cursors := if ok then store else map[];
      loaded, clock, completed := true, clock + 1, env.completed(clock + 1);
    }

    method CrawlJobs(entries: seq<JobEntry>) returns (ghost acts: seq<Action>)
      requires Connected() && phase.Idle? && loaded
      modifies this`clock, this`completed, this`store, this`cursors, this`workflows, this`runs, this`phase, this`due,
               this`settled
      ensures Connected() && phase.Idle? && clock >= old(clock) && IsRun(env, old(Now()), acts, Now(), [entries])
      ensures KeepsDue(env, DueRuns(old(completed), entries), settled, old(clock), clock)
    {
      var order, groups;
      ghost var front, back;
      order, groups, front := CollectJobs(entries);
      ghost var collected := Now();
      back := PublishCollected(order, groups);
      RunsCompose(env, old(Now()), front, collected, back, Now(), [entries], []);
      acts := front + back;
      assert KeepsDue(env, collected.state.due, settled, collected.clock, clock);
      KeepsDueTwice(env, DueRuns(old(completed), entries), collected.state.due, settled,
                    old(clock), collected.clock, clock);
    }

    method CollectJobs(entries: seq<JobEntry>)
      returns (order: seq<string>, groups: map<string, seq<Batch>>, ghost acts: seq<Action>)
      requires Connected() && phase.Idle? && loaded
      modifies this`clock, this`completed, this`store, this`cursors, this`phase, this`due
      ensures Connected() && clock >= old(clock) && IsRun(env, old(Now()), acts, Now(), [entries])
      ensures phase.Collecting? && |phase.pending| == |phase.entries| && Grouped(order, groups, phase.pending)
      ensures KeepsDue(env, DueRuns(old(completed), entries), due, old(clock), clock)
    {
      ghost var front := BeginTick(entries);
      ghost var begun, more := Now(), [];
      order, groups, more := CollectAll(entries);
      RunsCompose(env, old(Now()), front, begun, more, Now(), [entries], []);
      acts := front + more;
      assert KeepsDue(env, DueRuns(old(completed), entries), begun.state.due, old(clock), begun.clock);
      KeepsDueTwice(env, DueRuns(old(completed), entries), begun.state.due, due, old(clock), begun.clock, clock);
    }

    /** The tick begins: what has completed by now is due.  No call is made. */
    method BeginTick(ghost entries: seq<JobEntry>) returns (ghost acts: seq<Action>)
      requires Connected() && phase.Idle? && loaded
      modifies this`clock, this`completed, this`phase, this`due
      ensures Connected() && clock > old(clock) && IsRun(env, old(Now()), acts, Now(), [entries])
      ensures phase == Collecting(entries, []) && DueRuns(old(completed), entries) <= due
    {
      assert BuildsComplete(env, clock);
      DueGrows(completed, env.completed(clock + 1), entries);
      acts := Step(env, Now(), Begin(entries), Moment(clock + 1, Apply(Found(env, Now()), Begin(entries))));
      clock, completed := clock + 1, env.completed(clock + 1);
      phase, due := Collecting(entries, []), DueRuns(completed, entries);
    }

    /** Collecting is over, publishing begins.  No call is made. */
    method StartTasks() returns (ghost acts: seq<Action>)
      requires Connected() && phase.Collecting? && |phase.pending| == |phase.entries|
      modifies this`clock, this`completed, this`phase
      ensures Connected() && clock > old(clock) && IsRun(env, old(Now()), acts, Now(), [])
      ensures phase == Publishing(TasksOf(old(phase).pending), 0, 0)
    {
      acts := StartStep(env, Now());
      clock, completed := clock + 1, env.completed(clock + 1);
      phase := Publishing(TasksOf(phase.pending), 0, 0);
    }

    /** Everything is published: what was due is settled.  No call is made. */
    method EndTick() returns (ghost acts: seq<Action>)
      requires Connected() && phase.Publishing? && phase.next == |phase.tasks|
      modifies this`clock, this`completed, this`phase, this`due, this`settled
      ensures Connected() && clock > old(clock) && IsRun(env, old(Now()), acts, Now(), [])
      ensures phase.Idle? && settled == old(settled) + old(due)
    {
      acts := Step(env, Now(), Finish, Moment(clock + 1, Apply(Found(env, Now()), Finish)));
      clock, completed := clock + 1, env.completed(clock + 1);
      phase, settled, due := Idle, settled + due, {};
    }

    /** The second half of a tick. */
    method PublishCollected(order: seq<string>, groups: map<string, seq<Batch>>) returns (ghost acts: seq<Action>)
      requires Connected() && phase.Collecting? && |phase.pending| == |phase.entries|
      requires Grouped(order, groups, phase.pending)
      modifies this`clock, this`completed, this`store, this`cursors, this`workflows, this`runs, this`phase, this`due,
               this`settled
      ensures Connected() && phase.Idle? && clock >= old(clock) && IsRun(env, old(Now()), acts, Now(), [])
      ensures settled == old(settled) + old(due)
    {
      ghost var tasks := TasksOf(phase.pending);
      ghost var starts := LayOut(order, groups, phase.pending);
      ghost var front := StartTasks();
      ghost var started := Now();
      ghost var rest := PublishTasks(order, groups, tasks, starts);
      RunsCompose(env, old(Now()), front, started, rest, Now(), [], []);
      acts := front + rest;
    }

    method PublishTasks(order: seq<string>, groups: map<string, seq<Batch>>, ghost tasks: seq<Task>,
                        ghost starts: seq<nat>)
      returns (ghost acts: seq<Action>)
      requires Connected() && LaidOut(order, groups, tasks, starts) && phase == Publishing(tasks, 0, 0)
      modifies this`clock, this`completed, this`store, this`cursors, this`workflows, this`runs, this`phase, this`due,
               this`settled
      ensures Connected() && phase.Idle? && clock >= old(clock) && IsRun(env, old(Now()), acts, Now(), [])
      ensures settled == old(settled) + old(due)
    {
      ghost var front := PublishGroups(order, groups, tasks, starts);
      ghost var published := Now();
      ghost var back := EndTick();
      RunsCompose(env, old(Now()), front, published, back, Now(), [], []);
      acts := front + back;
    }
  }

  /** The first n builds of the batch, as handed over. */
  function RunsFrom(b: Batch, n: nat): seq<Run>
    requires n <= |b.builds|
  {
    if n == 0 then [] else RunsFrom(b, n - 1) + [Run(b.entry.path, b.builds[n - 1])]
  }

  /** If the builds of the job could be listed throughout, every one that had completed before
      is handed over. */
  ghost predicate Delivered(env: Env, completed: map<string, set<nat>>, runs: seq<Run>, job: string,
                            after: nat, until: nat)
  {
    Listable(env, job, after, until) ==> forall n :: n in CompletedOf(completed, job) ==> Run(job, n) in runs
  }

  lemma AllDelivered(env: Env, completed: map<string, set<nat>>, s: State, entries: seq<JobEntry>, after: nat,
                     until: nat)
    requires Inv(s) && KeepsDue(env, DueRuns(completed, entries), s.settled, after, until)
    ensures forall i :: 0 <= i < |entries| ==> Delivered(env, completed, s.runs, entries[i].path, after, until)
  {
    forall i | 0 <= i < |entries| ensures Delivered(env, completed, s.runs, entries[i].path, after, until) {
      assert forall n :: n in CompletedOf(completed, entries[i].path) ==>
                           Run(entries[i].path, n) in DueRuns(completed, entries);
    }
  }

  /** These tasks come next. */
  ghost predicate HasTasks(tasks: seq<Task>, next: nat, these: seq<Task>) {
    next + |these| <= |tasks| && tasks[next..next + |these|] == these
  }

  /** The tasks of these jobs come next. */
  ghost predicate Follow(tasks: seq<Task>, next: nat, jobs: seq<Batch>) {
    HasTasks(tasks, next, Map(jobs, (b: Batch) => Job(b)))
  }

  /** The tasks of a pipeline, from its group. */
  function TasksFor(id: string, group: seq<Batch>): seq<Task> {
    var jobs := Select(group, HasBuilds());
    if jobs == [] then [] else [Workflow(id)] + Map(jobs, (b: Batch) => Job(b))
  }

  lemma TasksOfGroup(pending: seq<Batch>, id: string)
    ensures TasksFor(id, Select(pending, OfPipeline(id))) == GroupTasks(pending, id)
  {
    GroupHasTasks(pending, id);
  }

  /** The i-th pipeline's tasks start at starts[i] and end where the next one's start. */
  ghost predicate GroupLaidOut(order: seq<string>, groups: map<string, seq<Batch>>, tasks: seq<Task>,
                               starts: seq<nat>, i: nat)
    requires i < |order| && |starts| == |order| + 1
  {
    && order[i] in groups && HasTasks(tasks, starts[i], TasksFor(order[i], groups[order[i]]))
    && starts[i + 1] == starts[i] + |TasksFor(order[i], groups[order[i]])|
  }

  ghost predicate LaidOut(order: seq<string>, groups: map<string, seq<Batch>>, tasks: seq<Task>, starts: seq<nat>) {
    && |starts| == |order| + 1 && starts[0] == 0 && starts[|order|] == |tasks|
    && forall i :: 0 <= i < |order| ==> GroupLaidOut(order, groups, tasks, starts, i)
  }

  lemma GroupFits(order: seq<string>, groups: map<string, seq<Batch>>, pending: seq<Batch>, i: nat)
    requires Grouped(order, groups, pending) && i < |order|
    ensures var parts := GroupsOf(pending, order);
      && order[i] in groups && parts[i] == TasksFor(order[i], groups[order[i]])
      && HasTasks(Flatten(parts, |order|), |Flatten(parts, i)|, parts[i])
  {
    var parts := GroupsOf(pending, order);
    assert order[i] in Elements(order);
    TasksOfGroup(pending, order[i]);
    assert parts[i] == GroupTasks(pending, order[i]);
    PartOfFlattened(parts, i, |order|);
  }

  /** Where each group starts, and where the last one ends. */
  ghost function Starts(parts: seq<seq<Task>>): (r: seq<nat>)
    ensures |r| == |parts| + 1
    ensures forall i :: 0 <= i <= |parts| ==> r[i] == |Flatten(parts, i)|
  {
    seq(|parts| + 1, i requires 0 <= i <= |parts| => |Flatten(parts, i)|)
  }

  lemma LayOut(order: seq<string>, groups: map<string, seq<Batch>>, pending: seq<Batch>) returns (starts: seq<nat>)
    requires Grouped(order, groups, pending)
    ensures LaidOut(order, groups, TasksOf(pending), starts)
  {
    var parts := GroupsOf(pending, order);
    starts := Starts(parts);
    forall i | 0 <= i < |order| ensures GroupLaidOut(order, groups, TasksOf(pending), starts, i) {
      GroupFits(order, groups, pending, i);
      assert Flatten(parts, i + 1) == Flatten(parts, i) + parts[i];
    }
  }

  lemma TasksFollow(tasks: seq<Task>, next: nat, id: string, group: seq<Batch>)
    requires HasTasks(tasks, next, TasksFor(id, group)) && Select(group, HasBuilds()) != []
    ensures next < |tasks| && tasks[next] == Workflow(id) && Follow(tasks, next + 1, Select(group, HasBuilds()))
    ensures |TasksFor(id, group)| == 1 + JobsBefore(group, |group|)
  {
    assert group[..|group|] == group;
    var rest := Map(Select(group, HasBuilds()), (b: Batch) => Job(b));
    HeadOfTasks(tasks, next, Workflow(id), rest);
  }

  lemma HeadOfTasks(tasks: seq<Task>, next: nat, first: Task, rest: seq<Task>)
    requires HasTasks(tasks, next, [first] + rest)
    ensures next < |tasks| && tasks[next] == first && HasTasks(tasks, next + 1, rest)
  {
    var these := tasks[next..next + 1 + |rest|];
    assert these[0] == tasks[next] && these[1..] == tasks[next + 1..next + 1 + |rest|];
    assert ([first] + rest)[1..] == rest;
  }

  lemma TaskAt(tasks: seq<Task>, next: nat, these: seq<Task>, k: nat)
    requires HasTasks(tasks, next, these) && k < |these|
    ensures next + k < |tasks| && tasks[next + k] == these[k]
  {
    assert tasks[next..next + |these|][k] == tasks[next + k];
  }

  lemma {:induction false} NextJob(tasks: seq<Task>, next: nat, group: seq<Batch>, j: nat)
    requires j < |group| && Follow(tasks, next, Select(group, HasBuilds()))
    requires group[j].builds != []
    ensures var k := next + JobsBefore(group, j); k < |tasks| && tasks[k] == Job(group[j])
  {
    SelectedAt(group, HasBuilds(), j);
    TaskAt(tasks, next, Map(Select(group, HasBuilds()), (b: Batch) => Job(b)), JobsBefore(group, j));
  }

  lemma JobsBeforeNext(group: seq<Batch>, j: nat)
    requires j < |group|
    ensures JobsBefore(group, j + 1) == JobsBefore(group, j) + if group[j].builds == [] then 0 else 1
  {
    SelectSnoc(group[..j], group[j], HasBuilds());
    assert group[..j + 1] == group[..j] + [group[j]];
  }

  function JobsBefore(group: seq<Batch>, j: nat): nat
    requires j <= |group|
  {
    |Select(group[..j], HasBuilds())|
  }

  /** Where the i-th group stands. */
  lemma {:induction false} PartOfFlattened(parts: seq<seq<Task>>, i: nat, n: nat)
    requires i < n <= |parts|
    ensures HasTasks(Flatten(parts, n), |Flatten(parts, i)|, parts[i])
    decreases n
  {
    if i < n - 1 {
      PartOfFlattened(parts, i, n - 1);
      StillHasTasks(Flatten(parts, n - 1), parts[n - 1], |Flatten(parts, i)|, parts[i]);
    }
  }

  lemma StillHasTasks(tasks: seq<Task>, more: seq<Task>, next: nat, these: seq<Task>)
    requires HasTasks(tasks, next, these)
    ensures HasTasks(tasks + more, next, these)
  {
  }
}
