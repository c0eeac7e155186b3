/** Runs of the build crawler without failures: when each build is handed over once. */
module JenkinsOnce {
  import opened Seqs
  import opened Ordering
  import opened Ownership
  import opened Jenkins

  function PathOf(): Batch -> string {
    (b: Batch) => b.entry.path
  }

  /** A step without failure: loads, listings and saves succeed, a listing holding every
      completed build above the cursor, and the process only restarts between ticks.  A probe
      may fail, for then the builds are listed all the same; and a tick may meet a job any
      number of times. */
  ghost predicate Clean(s: State, a: Action) {
    match a
    case Restart => s.phase.Idle?
    case Load(ok) => ok
    case List(answer) => answer.Builds? && ListsAllNew(s, answer)
    case Save(outcome) => outcome.Saved?
    case _ => true
  }

  ghost predicate CleanRun(s: State, acts: seq<Action>)
    requires Legal(s, acts)
    decreases |acts|
  {
    acts != [] ==>
      var init := acts[..|acts| - 1];
      CleanRun(s, init) && Clean(After(s, init), acts[|acts| - 1])
  }

  /** The tick will meet the job at hand again. */
  ghost predicate MetAgain(phase: Phase)
    requires AtEntry(phase)
  {
    exists l :: |phase.pending| < l < |phase.entries| && phase.entries[l].path == EntryOf(phase).path
  }

  /** The job at hand, if the tick will meet it again, has no completed build above its cursor. */
  ghost predicate NothingNewTwice(s: State) {
    s.phase.Fetching? && AtEntry(s.phase) && MetAgain(s.phase) ==>
      forall n :: n in CompletedOf(s.completed, EntryOf(s.phase).path) ==> n <= s.phase.cursor
  }

  /** So at every listing of the run. */
  ghost predicate ListsNewOnce(s: State, acts: seq<Action>)
    requires Legal(s, acts)
    decreases |acts|
  {
    acts != [] ==>
      var init, a := acts[..|acts| - 1], acts[|acts| - 1];
      ListsNewOnce(s, init) && (a.List? ==> NothingNewTwice(After(s, init)))
  }

  /** The batch is new: each build once, all above the stored cursor. */
  ghost predicate NewBatch(store: map<string, nat>, b: Batch) {
    NoDuplicates(b.builds) && forall n :: n in b.builds ==> n > CursorOf(store, b.entry.path)
  }

  /** Handed over in the batch being published. */
  ghost predicate InFlight(phase: Phase, r: Run) {
    && AtTask(phase) && phase.tasks[phase.next].Job? && phase.built <= |phase.tasks[phase.next].batch.builds|
    && phase.tasks[phase.next].batch.entry.path == r.job
    && r.number in phase.tasks[phase.next].batch.builds[..phase.built]
  }

  ghost predicate Accounted(s: State, r: Run) {
    r.number <= CursorOf(s.store, r.job) || InFlight(s.phase, r)
  }

  ghost predicate DistinctJobs(tasks: seq<Task>) {
    forall k, l :: 0 <= k < l < |tasks| && tasks[k].Job? && tasks[l].Job? ==>
      tasks[k].batch.entry.path != tasks[l].batch.entry.path
  }

  ghost predicate NewTasks(store: map<string, nat>, tasks: seq<Task>, next: nat) {
    && DistinctJobs(tasks)
    && forall k :: next <= k < |tasks| && tasks[k].Job? ==>
         NewBatch(store, tasks[k].batch) && tasks[k].batch.builds != []
  }

  /** A job met again has had nothing new so far. */
  ghost predicate NoneRepeats(entries: seq<JobEntry>, pending: seq<Batch>) {
    forall k, l :: 0 <= k < |pending| && k < l < |entries| && pending[k].builds != [] ==>
      pending[k].entry.path != entries[l].path
  }

  ghost predicate NewPending(store: map<string, nat>, entries: seq<JobEntry>, pending: seq<Batch>) {
    && NoneRepeats(entries, pending) && |pending| <= |entries|
    && forall k :: 0 <= k < |pending| ==> pending[k].entry == entries[k] && NewBatch(store, pending[k])
  }

  ghost predicate PhaseNew(s: State) {
    if s.phase.Idle? then true
    else
      && s.loaded
      && if s.phase.Publishing? then NewTasks(s.store, s.phase.tasks, s.phase.next)
         else
           && NewPending(s.store, s.phase.entries, s.phase.pending)
           && (s.phase.Fetching? && AtEntry(s.phase) ==> s.phase.cursor == CursorOf(s.store, EntryOf(s.phase).path))
  }

  ghost predicate OnceInv(s: State) {
    && Inv(s) && (s.loaded ==> s.cursors == s.store) && PhaseNew(s)
    && NoDuplicates(s.runs) && forall r :: r in s.runs ==> Accounted(s, r)
  }

  // ---- what the listing and the grouping keep

  ghost predicate DistinctBatches(bs: seq<Batch>) {
    forall i, j :: 0 <= i < j < |bs| ==> bs[i].entry.path != bs[j].entry.path
  }

  lemma {:induction false} JobsDistinct(tasks: seq<Task>)
    requires DistinctBatches(Batches(tasks))
    ensures DistinctJobs(tasks)
  {
    if tasks != [] {
      var rest := Batches(tasks[1..]);
      assert Batches(tasks)[|Batches(tasks)| - |rest|..] == rest;
      assert DistinctBatches(rest);
      JobsDistinct(tasks[1..]);
      forall k, l | 0 <= k < l < |tasks| && tasks[k].Job? && tasks[l].Job?
        ensures tasks[k].batch.entry.path != tasks[l].batch.entry.path
      {
        assert tasks[l] == tasks[1..][l - 1];
        if k == 0 {
          FirstJobDiffers(tasks, tasks[l].batch);
        } else {
          assert tasks[k] == tasks[1..][k - 1];
        }
      }
    }
  }

  lemma FirstJobDiffers(tasks: seq<Task>, b: Batch)
    requires tasks != [] && tasks[0].Job? && DistinctBatches(Batches(tasks)) && b in Batches(tasks[1..])
    ensures tasks[0].batch.entry.path != b.entry.path
  {
    var all, rest := Batches(tasks), Batches(tasks[1..]);
    var i :| 0 <= i < |rest| && rest[i] == b;
    assert all[0] == tasks[0].batch && all[i + 1] == b;
  }

  ghost predicate DistinctWithBuilds(pending: seq<Batch>) {
    forall k, l :: 0 <= k < l < |pending| && pending[k].builds != [] && pending[l].builds != [] ==>
      pending[k].entry.path != pending[l].entry.path
  }

  /** Batches with builds from distinct paths stay distinct when grouped. */
  lemma GroupedJobsDistinct(pending: seq<Batch>)
    requires DistinctWithBuilds(pending)
    ensures DistinctJobs(TasksOf(pending))
  {
    var picked, grouped := Select(pending, HasBuilds()), Batches(TasksOf(pending));
    PickedDistinct(pending);
    GroupingIsPermutation(pending);
    MapPermutation(grouped, picked, PathOf());
    var ps, gs := Map(picked, PathOf()), Map(grouped, PathOf());
    PermutationKeepsNoDuplicates(ps, gs);
    forall i, j | 0 <= i < j < |grouped| ensures grouped[i].entry.path != grouped[j].entry.path {
      assert gs[i] != gs[j];
    }
    JobsDistinct(TasksOf(pending));
  }

  lemma {:induction false} PickedDistinct(pending: seq<Batch>)
    requires DistinctWithBuilds(pending)
    ensures DistinctBatches(Select(pending, HasBuilds()))
  {
    if pending != [] {
      var rest, picked := pending[1..], Select(pending[1..], HasBuilds());
      assert forall i :: 0 <= i < |rest| ==> rest[i] == pending[i + 1];
      PickedDistinct(rest);
      forall i | 0 <= i < |picked| && HasBuilds()(pending[0]) ensures picked[i].entry.path != pending[0].entry.path {
        assert picked[i] in picked;
        var j :| 0 <= j < |rest| && rest[j] == picked[i];
        assert pending[j + 1] == rest[j];
      }
      assert Select(pending, HasBuilds()) == (if HasBuilds()(pending[0]) then [pending[0]] else []) + picked;
    }
  }

  // ---- the steps

  lemma CollectKeepsOnce(s: State, builds: seq<nat>, t: State)
    requires OnceInv(s) && Inv(t) && AtEntry(s.phase) && t.phase == Collect(s.phase, builds)
    requires NewBatch(s.store, Batch(EntryOf(s.phase), builds)) && (builds != [] ==> !MetAgain(s.phase))
    requires t.store == s.store && t.cursors == s.cursors && t.runs == s.runs && t.loaded == s.loaded
    ensures OnceInv(t)
  {
    forall r | r in t.runs ensures Accounted(t, r) {
      assert Accounted(s, r);
    }
    var n := |s.phase.pending|;
    forall k | 0 <= k < |t.phase.pending|
      ensures t.phase.pending[k].entry == t.phase.entries[k] && NewBatch(t.store, t.phase.pending[k])
    {
      assert k < n ==> NewBatch(s.store, s.phase.pending[k]);
    }
  }

  lemma ProbeKeepsOnce(s: State, answer: ProbeAnswer)
    requires OnceInv(s) && Enabled(s, Probe(answer))
    ensures OnceInv(Apply(s, Probe(answer)))
  {
    var t := Apply(s, Probe(answer));
    StepKeepsInv(s, Probe(answer));
    if t.phase.Fetching? {
      forall r | r in t.runs ensures Accounted(t, r) {
        assert Accounted(s, r);
      }
    } else {
      CollectKeepsOnce(s, [], t);
    }
  }

  lemma ListKeepsOnce(s: State, answer: ListAnswer)
    requires OnceInv(s) && Enabled(s, List(answer)) && Clean(s, List(answer)) && NothingNewTwice(s)
    ensures OnceInv(Apply(s, List(answer)))
  {
    var builds := NewBuilds(answer.builds, s.phase.cursor);
    StepKeepsInv(s, List(answer));
    NewBuildsOnce(answer.builds, s.phase.cursor);
    forall n: nat ensures n in builds <==> n > s.phase.cursor && n in CompletedOf(s.completed, EntryOf(s.phase).path) {
      NewBuildsAbove(answer.builds, s.phase.cursor, n);
    }
    assert builds != [] ==> builds[0] in builds;
    CollectKeepsOnce(s, builds, Apply(s, List(answer)));
  }

  lemma {:induction false} GroupedNew(store: map<string, nat>, entries: seq<JobEntry>, pending: seq<Batch>)
    requires NewPending(store, entries, pending)
    ensures NewTasks(store, TasksOf(pending), 0)
  {
    var tasks := TasksOf(pending);
    assert NoneRepeats(entries, pending);
    GroupedJobsDistinct(pending);
    TasksHoldBatches(pending);
    forall k | 0 <= k < |tasks| && tasks[k].Job?
      ensures NewBatch(store, tasks[k].batch) && tasks[k].batch.builds != []
    {
      assert tasks[k].batch in Batches(tasks);
      var i :| 0 <= i < |pending| && pending[i] == tasks[k].batch;
    }
  }

  lemma StartPublishingKeepsOnce(s: State)
    requires OnceInv(s) && Enabled(s, StartPublishing)
    ensures OnceInv(Apply(s, StartPublishing))
  {
    var t := Apply(s, StartPublishing);
    StepKeepsInv(s, StartPublishing);
    GroupedNew(s.store, s.phase.entries, s.phase.pending);
    forall r | r in t.runs ensures Accounted(t, r) {
      assert Accounted(s, r);
    }
  }

  lemma PublishRunKeepsOnce(s: State)
    requires OnceInv(s) && Enabled(s, PublishRun)
    ensures OnceInv(Apply(s, PublishRun))
  {
    var t, b, k := Apply(s, PublishRun), s.phase.tasks[s.phase.next].batch, s.phase.built;
    StepKeepsInv(s, PublishRun);
    assert NewBatch(s.store, b) && b.builds[k] in b.builds;
    assert b.builds[..k + 1] == b.builds[..k] + [b.builds[k]];
    forall i | 0 <= i < |s.runs| ensures s.runs[i] != Run(b.entry.path, b.builds[k]) {
      assert s.runs[i] in s.runs;
      assert Accounted(s, s.runs[i]);
    }
    forall r | r in t.runs ensures Accounted(t, r) {
      if r in s.runs {
        assert Accounted(s, r);
      }
    }
  }

  lemma SaveKeepsOnce(s: State)
    requires OnceInv(s) && Enabled(s, Save(Saved))
    ensures OnceInv(Apply(s, Save(Saved)))
  {
    var t, tasks, next := Apply(s, Save(Saved)), s.phase.tasks, s.phase.next;
    var b := tasks[next].batch;
    StepKeepsInv(s, Save(Saved));
    assert NewBatch(s.store, b) && b.builds[0] in b.builds;
    assert Highest(b.builds) > CursorOf(s.store, b.entry.path);
    assert b.builds[..|b.builds|] == b.builds;
    forall r | r in t.runs ensures Accounted(t, r) {
      assert Accounted(s, r);
      if r.job == b.entry.path {
        assert r.number <= Highest(b.builds);
      }
    }
    forall k | next < k < |tasks| && tasks[k].Job? ensures NewBatch(t.store, tasks[k].batch) {
      assert NewBatch(s.store, tasks[k].batch);
    }
  }

  /** The steps that leave runs and cursors alone. */
  lemma OtherKeepsOnce(s: State, a: Action)
    requires OnceInv(s) && Enabled(s, a) && Clean(s, a)
    requires a.Complete? || a.Restart? || a.Load? || a.Begin? || a.PublishWorkflow? || a.Finish?
    ensures OnceInv(Apply(s, a))
  {
    var t := Apply(s, a);
    StepKeepsInv(s, a);
    forall r | r in t.runs ensures Accounted(t, r) {
      assert Accounted(s, r);
    }
  }

  lemma StepKeepsOnce(s: State, a: Action)
    requires OnceInv(s) && Enabled(s, a) && Clean(s, a) && (a.List? ==> NothingNewTwice(s))
    ensures OnceInv(Apply(s, a))
  {
    match a
    case Probe(answer) => ProbeKeepsOnce(s, answer);
    case List(answer) => ListKeepsOnce(s, answer);
    case StartPublishing => StartPublishingKeepsOnce(s);
    case PublishRun => PublishRunKeepsOnce(s);
    case Save(_) => SaveKeepsOnce(s);
    case Clear(_) =>
    case Complete(_, _) => OtherKeepsOnce(s, a);
    case Restart => OtherKeepsOnce(s, a);
    case Load(_) => OtherKeepsOnce(s, a);
    case Begin(_) => OtherKeepsOnce(s, a);
    case PublishWorkflow => OtherKeepsOnce(s, a);
    case Finish => OtherKeepsOnce(s, a);
  }

  lemma {:induction false} NewOnceKeepsOnce(acts: seq<Action>)
    requires Legal(Start, acts) && CleanRun(Start, acts) && ListsNewOnce(Start, acts)
    ensures OnceInv(After(Start, acts))
    decreases |acts|
  {
    if acts != [] {
      var init := acts[..|acts| - 1];
      NewOnceKeepsOnce(init);
      StepKeepsOnce(After(Start, init), acts[|acts| - 1]);
    }
  }

  // ---- otherwise a repetition is on its way

  function RunsOf(b: Batch): seq<Run> {
    Map(b.builds, (n: nat) => Run(b.entry.path, n))
  }

  function FlatRuns(bs: seq<Batch>): seq<Run> {
    if bs == [] then [] else RunsOf(bs[0]) + FlatRuns(bs[1..])
  }

  /** The runs this tick has still to publish. */
  function Remaining(phase: Phase): seq<Run> {
    if phase.Publishing? && phase.next <= |phase.tasks| && phase.built <= |FlatRuns(Batches(phase.tasks[phase.next..]))|
    then FlatRuns(Batches(phase.tasks[phase.next..]))[phase.built..] else []
  }

  /** Some job with new builds is to be met again, or was. */
  ghost predicate SomeRepeats(phase: Phase) {
    (phase.Collecting? || phase.Fetching?) && !NoneRepeats(phase.entries, phase.pending)
  }

  ghost predicate Doomed(s: State) {
    !NoDuplicates(s.runs + Remaining(s.phase)) || SomeRepeats(s.phase)
  }

  /** A job met again has at least the builds it had before: all completed ones above the cursor. */
  ghost predicate Growing(pending: seq<Batch>) {
    forall k, l, n :: 0 <= k < l < |pending| && pending[k].entry.path == pending[l].entry.path
                      && n in pending[k].builds ==>
      n in pending[l].builds
  }

  ghost predicate Collected(s: State, entries: seq<JobEntry>, pending: seq<Batch>) {
    && |pending| <= |entries| && Growing(pending)
    && forall k :: 0 <= k < |pending| ==> pending[k].entry == entries[k] && AboveCursor(s.store, pending[k])
  }

  ghost predicate AboveCursor(store: map<string, nat>, b: Batch) {
    forall n :: n in b.builds ==> n > CursorOf(store, b.entry.path)
  }

  ghost predicate CleanInv(s: State) {
    && Inv(s) && (s.loaded ==> s.cursors == s.store) && (!s.phase.Idle? ==> s.loaded)
    && (s.phase.Collecting? || s.phase.Fetching? ==> Collected(s, s.phase.entries, s.phase.pending))
    && (s.phase.Fetching? && AtEntry(s.phase) ==> s.phase.cursor == CursorOf(s.store, EntryOf(s.phase).path))
  }

  lemma {:induction false} RunsOfMembers(b: Batch)
    ensures forall r :: r in RunsOf(b) <==> r.job == b.entry.path && r.number in b.builds
  {
    forall r ensures r in RunsOf(b) <==> r.job == b.entry.path && r.number in b.builds {
      if r.job == b.entry.path && r.number in b.builds {
        var i :| 0 <= i < |b.builds| && b.builds[i] == r.number;
        assert RunsOf(b)[i] == r;
      }
    }
  }

  lemma {:induction false} FlatRunsHold(bs: seq<Batch>, i: nat, r: Run)
    requires i < |bs| && r in RunsOf(bs[i])
    ensures r in FlatRuns(bs)
  {
    if i > 0 {
      FlatRunsHold(bs[1..], i - 1, r);
    }
  }

  /** Two batches that share a run repeat it. */
  lemma {:induction false} SharedRunRepeats(bs: seq<Batch>, k: nat, l: nat, r: Run)
    requires k < l < |bs| && r in RunsOf(bs[k]) && r in RunsOf(bs[l])
    ensures !NoDuplicates(FlatRuns(bs))
  {
    ConcatDistinct(RunsOf(bs[0]), FlatRuns(bs[1..]));
    if k == 0 {
      FlatRunsHold(bs[1..], l - 1, r);
    } else {
      SharedRunRepeats(bs[1..], k - 1, l - 1, r);
    }
  }

  lemma {:induction false} FlatRunsConcat(bs: seq<Batch>, cs: seq<Batch>)
    ensures FlatRuns(bs + cs) == FlatRuns(bs) + FlatRuns(cs)
  {
    if bs == [] {
      assert bs + cs == cs;
    } else {
      assert (bs + cs)[1..] == bs[1..] + cs;
      FlatRunsConcat(bs[1..], cs);
    }
  }

  lemma {:induction false} FlatRunsTakeOut(bs: seq<Batch>, j: nat)
    requires j < |bs|
    ensures multiset(FlatRuns(bs)) == multiset(RunsOf(bs[j])) + multiset(FlatRuns(bs[..j] + bs[j + 1..]))
  {
    FlatRunsConcat(bs[..j], bs[j..]);
    FlatRunsConcat(bs[..j], bs[j + 1..]);
    assert bs == bs[..j] + bs[j..];
    assert bs[j..][1..] == bs[j + 1..];
  }

  lemma {:induction false} FlatRunsPermute(bs: seq<Batch>, cs: seq<Batch>)
    requires Permutation(bs, cs)
    ensures Permutation(FlatRuns(bs), FlatRuns(cs))
  {
    PermutationMembers(bs, cs);
    if bs != [] {
      assert bs[0] in cs;
      var j :| 0 <= j < |cs| && cs[j] == bs[0];
      TakeOutSame(bs, cs, j);
      FlatRunsPermute(bs[1..], cs[..j] + cs[j + 1..]);
      FlatRunsTakeOut(cs, j);
    }
  }

  lemma FlatRunsCons(b: Batch, bs: seq<Batch>)
    ensures FlatRuns([b] + bs) == RunsOf(b) + FlatRuns(bs)
  {
    assert ([b] + bs)[1..] == bs;
  }

  lemma {:induction false} EmptyBatchesAddNothing(bs: seq<Batch>)
    ensures FlatRuns(Select(bs, HasBuilds())) == FlatRuns(bs)
  {
    if bs != [] {
      var rest := bs[1..];
      var picked := Select(rest, HasBuilds());
      EmptyBatchesAddNothing(rest);
      assert bs == [bs[0]] + rest;
      FlatRunsCons(bs[0], rest);
      FlatRunsCons(bs[0], picked);
      if bs[0].builds == [] {
        assert Select(bs, HasBuilds()) == picked && RunsOf(bs[0]) == [];
      }
    }
  }

  /** Grouping a repetition plans it. */
  lemma {:induction false} GroupingPlansRepetition(entries: seq<JobEntry>, pending: seq<Batch>)
    requires |pending| == |entries| && (forall k :: 0 <= k < |pending| ==> pending[k].entry == entries[k])
    requires Growing(pending) && !NoneRepeats(entries, pending)
    ensures !NoDuplicates(FlatRuns(Batches(TasksOf(pending))))
  {
    var k, l :| 0 <= k < |pending| && k < l < |entries| && pending[k].builds != []
                && pending[k].entry.path == entries[l].path;
    var n := pending[k].builds[0];
    assert n in pending[k].builds;
    RunsOfMembers(pending[k]);
    RunsOfMembers(pending[l]);
    SharedRunRepeats(pending, k, l, Run(entries[l].path, n));
    GroupingIsPermutation(pending);
    FlatRunsPermute(Batches(TasksOf(pending)), Select(pending, HasBuilds()));
    EmptyBatchesAddNothing(pending);
    if NoDuplicates(FlatRuns(Batches(TasksOf(pending)))) {
      PermutationKeepsNoDuplicates(FlatRuns(Batches(TasksOf(pending))), FlatRuns(pending));
    }
  }

  // ---- the steps once more

  /** A listing that breaks the condition plans a repetition. */
  lemma {:induction false} ListDooms(s: State, answer: ListAnswer)
    requires CleanInv(s) && Enabled(s, List(answer)) && Clean(s, List(answer)) && !NothingNewTwice(s)
    ensures Doomed(Apply(s, List(answer)))
  {
    var t, job := Apply(s, List(answer)), EntryOf(s.phase).path;
    var n :| n in CompletedOf(s.completed, job) && n > s.phase.cursor;
    NewBuildsAbove(answer.builds, s.phase.cursor, n);
    var k := |s.phase.pending|;
    assert t.phase.pending[k].builds != [];
  }

  lemma {:induction false} CollectKeepsClean(s: State, builds: seq<nat>, t: State)
    requires CleanInv(s) && Inv(t) && AtEntry(s.phase) && t.phase == Collect(s.phase, builds)
    requires !s.phase.Clearing? && t.store == s.store && t.cursors == s.cursors && t.loaded == s.loaded
    requires AboveCursor(s.store, Batch(EntryOf(s.phase), builds))
    requires forall n :: n in CompletedOf(s.completed, EntryOf(s.phase).path) ==>
                           n <= CursorOf(s.store, EntryOf(s.phase).path) || n in builds
    ensures CleanInv(t) && (SomeRepeats(s.phase) ==> SomeRepeats(t.phase))
  {
    var e, m, pending := EntryOf(s.phase), |s.phase.pending|, t.phase.pending;
    forall k | 0 <= k < |pending| ensures pending[k].entry == t.phase.entries[k] && AboveCursor(t.store, pending[k]) {
      assert k < m ==> pending[k] == s.phase.pending[k];
    }
    forall k, l, n | 0 <= k < l < |pending| && pending[k].entry.path == pending[l].entry.path && n in pending[k].builds
      ensures n in pending[l].builds
    {
      assert pending[k] == s.phase.pending[k] && BatchOk(s, pending[k]) && AboveCursor(s.store, pending[k]);
      assert l < m ==> pending[l] == s.phase.pending[l];
    }
    if SomeRepeats(s.phase) {
      var k, l :| 0 <= k < m && k < l < |s.phase.entries| && s.phase.pending[k].builds != []
                  && s.phase.pending[k].entry.path == s.phase.entries[l].path;
      assert pending[k] == s.phase.pending[k];
    }
  }

  lemma {:induction false} ProbeKeepsClean(s: State, answer: ProbeAnswer)
    requires CleanInv(s) && Enabled(s, Probe(answer))
    ensures CleanInv(Apply(s, Probe(answer))) && (Doomed(s) ==> Doomed(Apply(s, Probe(answer))))
  {
    var t := Apply(s, Probe(answer));
    StepKeepsInv(s, Probe(answer));
    if !t.phase.Fetching? {
      CollectKeepsClean(s, [], t);
    }
  }

  lemma {:induction false} ListKeepsClean(s: State, answer: ListAnswer)
    requires CleanInv(s) && Enabled(s, List(answer)) && Clean(s, List(answer))
    ensures CleanInv(Apply(s, List(answer))) && (Doomed(s) ==> Doomed(Apply(s, List(answer))))
  {
    var builds := NewBuilds(answer.builds, s.phase.cursor);
    StepKeepsInv(s, List(answer));
    forall n: nat ensures n in builds <==> n > s.phase.cursor && n in CompletedOf(s.completed, EntryOf(s.phase).path) {
      NewBuildsAbove(answer.builds, s.phase.cursor, n);
    }
    CollectKeepsClean(s, builds, Apply(s, List(answer)));
  }

  lemma {:induction false} StartPublishingKeepsDoom(s: State)
    requires CleanInv(s) && Enabled(s, StartPublishing) && Doomed(s)
    ensures Doomed(Apply(s, StartPublishing))
  {
    var t, pending := Apply(s, StartPublishing), s.phase.pending;
    var tasks := TasksOf(pending);
    assert tasks[0..] == tasks && Remaining(t.phase) == FlatRuns(Batches(tasks));
    assert Remaining(s.phase) == [] && s.runs + [] == s.runs;
    ConcatDistinct(s.runs, FlatRuns(Batches(tasks)));
    if SomeRepeats(s.phase) {
      GroupingPlansRepetition(s.phase.entries, pending);
    }
  }

  lemma {:induction false} RemainingAtJob(phase: Phase, later: seq<Run>)
    requires AtTask(phase) && phase.tasks[phase.next].Job? && phase.built <= |phase.tasks[phase.next].batch.builds|
    requires later == FlatRuns(Batches(phase.tasks[phase.next + 1..]))
    ensures Remaining(phase) == (RunsOf(phase.tasks[phase.next].batch) + later)[phase.built..]
  {
    var tasks, next := phase.tasks, phase.next;
    assert tasks[next..][1..] == tasks[next + 1..];
    FlatRunsCons(tasks[next].batch, Batches(tasks[next + 1..]));
  }

  lemma {:induction false} RemainingAfter(phase: Phase)
    requires phase.Publishing? && phase.next <= |phase.tasks| && phase.built == 0
    ensures Remaining(phase) == FlatRuns(Batches(phase.tasks[phase.next..]))
  {
  }

  lemma HeadOf(todo: seq<Run>, k: nat)
    requires k < |todo|
    ensures todo[k..] == [todo[k]] + todo[k + 1..]
  {
  }

  lemma {:induction false} NextRemaining(phase: Phase, later: seq<Run>)
    requires AtTask(phase) && phase.tasks[phase.next].Job? && phase.built < |phase.tasks[phase.next].batch.builds|
    requires later == FlatRuns(Batches(phase.tasks[phase.next + 1..]))
    ensures var b := phase.tasks[phase.next].batch;
      Remaining(phase) == [Run(b.entry.path, b.builds[phase.built])] + Remaining(phase.(built := phase.built + 1))
  {
    RemainingAtJob(phase, later);
    RemainingAtJob(phase.(built := phase.built + 1), later);
    HeadOf(RunsOf(phase.tasks[phase.next].batch) + later, phase.built);
  }

  lemma DropFront(front: seq<Run>, back: seq<Run>)
    ensures (front + back)[|front|..] == back
  {
  }

  lemma {:induction false} RunStepKeepsPlan(s: State)
    requires Enabled(s, PublishRun)
    ensures Apply(s, PublishRun).runs + Remaining(Apply(s, PublishRun).phase) == s.runs + Remaining(s.phase)
  {
    PublishRunKeepsPlan(s.runs, s.phase, FlatRuns(Batches(s.phase.tasks[s.phase.next + 1..])));
  }

  /** While publishing, what is handed over and what remains stay the same together. */
  lemma {:induction false} PublishKeepsPlan(s: State, a: Action)
    requires Inv(s) && Enabled(s, a) && (a.PublishWorkflow? || a.PublishRun? || a.Save?)
    ensures Apply(s, a).runs + Remaining(Apply(s, a).phase) == s.runs + Remaining(s.phase)
  {
    match a
    case PublishWorkflow => AnnounceKeepsPlan(s);
    case PublishRun => RunStepKeepsPlan(s);
    case Save(outcome) => SaveKeepsPlan(s, outcome, FlatRuns(Batches(s.phase.tasks[s.phase.next + 1..])));
  }

  lemma {:induction false} AnnounceKeepsPlan(s: State)
    requires Inv(s) && Enabled(s, PublishWorkflow)
    ensures Remaining(Apply(s, PublishWorkflow).phase) == Remaining(s.phase)
  {
    var tasks, next := s.phase.tasks, s.phase.next;
    assert tasks[next..][1..] == tasks[next + 1..];
    assert Batches(tasks[next..]) == Batches(tasks[next + 1..]);
    RemainingAfter(s.phase);
    RemainingAfter(Apply(s, PublishWorkflow).phase);
  }

  lemma {:induction false} PublishRunKeepsPlan(runs: seq<Run>, phase: Phase, later: seq<Run>)
    requires AtTask(phase) && phase.tasks[phase.next].Job? && phase.built < |phase.tasks[phase.next].batch.builds|
    requires later == FlatRuns(Batches(phase.tasks[phase.next + 1..]))
    ensures var b := phase.tasks[phase.next].batch;
      (runs + [Run(b.entry.path, b.builds[phase.built])]) + Remaining(phase.(built := phase.built + 1))
      == runs + Remaining(phase)
  {
    var b := phase.tasks[phase.next].batch;
    NextRemaining(phase, later);
    ConcatAssociative(runs, [Run(b.entry.path, b.builds[phase.built])], Remaining(phase.(built := phase.built + 1)));
  }

  lemma {:induction false} SaveKeepsPlan(s: State, outcome: SaveOutcome, later: seq<Run>)
    requires Inv(s) && Enabled(s, Save(outcome)) && later == FlatRuns(Batches(s.phase.tasks[s.phase.next + 1..]))
    ensures Remaining(Apply(s, Save(outcome)).phase) == Remaining(s.phase)
  {
    RemainingAtJob(s.phase, later);
    DropFront(RunsOf(s.phase.tasks[s.phase.next].batch), later);
    RemainingAfter(Apply(s, Save(outcome)).phase);
  }

  lemma {:induction false} PublishKeepsDoom(s: State, a: Action)
    requires CleanInv(s) && Enabled(s, a) && Clean(s, a) && (a.PublishWorkflow? || a.PublishRun? || a.Save?)
    ensures CleanInv(Apply(s, a)) && (Doomed(s) ==> Doomed(Apply(s, a)))
  {
    StepKeepsInv(s, a);
    PublishKeepsPlan(s, a);
  }

  lemma {:induction false} OtherKeepsDoom(s: State, a: Action)
    requires CleanInv(s) && Enabled(s, a) && Clean(s, a)
    requires a.Complete? || a.Restart? || a.Load? || a.Begin? || a.Finish?
    ensures CleanInv(Apply(s, a)) && (Doomed(s) ==> Doomed(Apply(s, a)))
  {
    StepKeepsInv(s, a);
    if a.Finish? {
      assert s.phase.tasks[s.phase.next..] == [];
      assert Remaining(s.phase) == [];
    }
  }

  lemma {:induction false} StepKeepsDoom(s: State, a: Action)
    requires CleanInv(s) && Enabled(s, a) && Clean(s, a)
    ensures CleanInv(Apply(s, a)) && (Doomed(s) ==> Doomed(Apply(s, a)))
  {
    match a
    case Probe(answer) => ProbeKeepsClean(s, answer);
    case List(answer) => ListKeepsClean(s, answer);
    case StartPublishing =>
      StepKeepsInv(s, a);
      if Doomed(s) {
        StartPublishingKeepsDoom(s);
      }
    case PublishWorkflow => PublishKeepsDoom(s, a);
    case PublishRun => PublishKeepsDoom(s, a);
    case Save(_) => PublishKeepsDoom(s, a);
    case Clear(_) =>
    case Complete(_, _) => OtherKeepsDoom(s, a);
    case Restart => OtherKeepsDoom(s, a);
    case Load(_) => OtherKeepsDoom(s, a);
    case Begin(_) => OtherKeepsDoom(s, a);
    case Finish => OtherKeepsDoom(s, a);
  }

  lemma {:induction false} NewTwiceDooms(acts: seq<Action>)
    requires Legal(Start, acts) && CleanRun(Start, acts)
    ensures CleanInv(After(Start, acts)) && (!ListsNewOnce(Start, acts) ==> Doomed(After(Start, acts)))
    decreases |acts|
  {
    if acts != [] {
      var init, a := acts[..|acts| - 1], acts[|acts| - 1];
      var s := After(Start, init);
      NewTwiceDooms(init);
      StepKeepsDoom(s, a);
      if ListsNewOnce(Start, init) && !ListsNewOnce(Start, acts) {
        ListDooms(s, a.listed);
      }
    }
  }

  /** Main result: a run without failures that is between ticks has handed over no build
      twice if and only if no listed job that its tick met again had a completed build above
      its cursor; and then each build a finished tick was to hand over exactly once. */
  lemma {:induction false} HandedOverOnceIff(acts: seq<Action>)
    requires Legal(Start, acts) && CleanRun(Start, acts) && After(Start, acts).phase.Idle?
    ensures NoDuplicates(After(Start, acts).runs) <==> ListsNewOnce(Start, acts)
    ensures ListsNewOnce(Start, acts) ==>
              forall r :: r in After(Start, acts).settled ==> multiset(After(Start, acts).runs)[r] == 1
  {
    var s := After(Start, acts);
    NewTwiceDooms(acts);
    assert Remaining(s.phase) == [] && s.runs + [] == s.runs;
    if ListsNewOnce(Start, acts) {
      NewOnceKeepsOnce(acts);
      forall r | r in s.settled ensures multiset(s.runs)[r] == 1 {
        NoDuplicatesMultiplicity(s.runs, r);
      }
    }
  }

  ghost predicate DistinctPaths(entries: seq<JobEntry>) {
    forall i, j :: 0 <= i < j < |entries| ==> entries[i].path != entries[j].path
  }

  ghost predicate EntriesDistinct(phase: Phase) {
    phase.Collecting? || phase.Fetching? || phase.Clearing? ==> DistinctPaths(phase.entries)
  }

  lemma StepKeepsEntriesDistinct(s: State, a: Action)
    requires EntriesDistinct(s.phase) && Enabled(s, a) && (a.Begin? ==> DistinctPaths(a.jobs))
    ensures EntriesDistinct(Apply(s, a).phase)
  {
  }

  lemma DistinctPathsNothingNewTwice(s: State)
    requires EntriesDistinct(s.phase)
    ensures NothingNewTwice(s)
  {
  }

  /** Ticks over distinct paths meet no job again. */
  lemma {:induction false} DistinctPathsListNewOnce(acts: seq<Action>)
    requires Legal(Start, acts) && forall i :: 0 <= i < |acts| && acts[i].Begin? ==> DistinctPaths(acts[i].jobs)
    ensures EntriesDistinct(After(Start, acts).phase) && ListsNewOnce(Start, acts)
    decreases |acts|
  {
    if acts != [] {
      var init, a := acts[..|acts| - 1], acts[|acts| - 1];
      DistinctPathsListNewOnce(init);
      StepKeepsEntriesDistinct(After(Start, init), a);
      DistinctPathsNothingNewTwice(After(Start, init));
    }
  }

  // ---- a run that meets a job twice

  const Twin := JobEntry("j", false)

  const OneBuild := [Build(1, false, "SUCCESS")]

  const TwinBatch := Batch(Twin, [1])

  predicate NoFailure(a: Action) {
    match a
    case Restart => false
    case Load(ok) => ok
    case Probe(answer) => !answer.ProbeFailed?
    case List(answer) => answer.Builds?
    case Save(outcome) => outcome.Saved?
    case _ => true
  }

  /** The run without failures leads to s. */
  ghost predicate LeadsTo(acts: seq<Action>, s: State) {
    Legal(Start, acts) && After(Start, acts) == s && forall i :: 0 <= i < |acts| ==> NoFailure(acts[i])
  }

  lemma Next(acts: seq<Action>, s: State, a: Action) returns (longer: seq<Action>)
    requires LeadsTo(acts, s) && Enabled(s, a) && NoFailure(a)
    ensures LeadsTo(longer, Apply(s, a))
  {
    OneMore(Start, acts, a);
    longer := acts + [a];
  }

  lemma OneBuildListed()
    ensures NewBuilds(OneBuild, 0) == [1]
  {
    assert OneBuild[1..] == [];
    assert Select(OneBuild, (b: Build) => IsComplete(b) && b.number > 0) == OneBuild;
  }

  lemma {:induction false} TwinPipelines()
    ensures Pipelines([TwinBatch, TwinBatch]) == ["j"]
  {
    var names := Map([TwinBatch, TwinBatch], (b: Batch) => PipelinePath(b.entry));
    FirstSeenNext([], "j");
    FirstSeenNext(["j"], "j");
    assert names == ["j"] + ["j"] && ["j"] == [] + ["j"];
  }

  lemma {:induction false} TwinGroup()
    ensures GroupTasks([TwinBatch, TwinBatch], "j") == [Workflow("j"), Job(TwinBatch), Job(TwinBatch)]
  {
    SelectAll([TwinBatch, TwinBatch], InPipeline("j"));
  }

  lemma {:induction false} TwinTasks()
    ensures TasksOf([TwinBatch, TwinBatch]) == [Workflow("j"), Job(TwinBatch), Job(TwinBatch)]
  {
    TwinPipelines();
    TwinGroup();
    var groups := GroupsOf([TwinBatch, TwinBatch], ["j"]);
    assert Flatten(groups, 1) == Flatten(groups, 0) + groups[0];
  }

  /** A job met twice in one tick: both times its cursor is still behind, and its build is
      collected. */
  lemma TwinCollected(acts: seq<Action>, s: State) returns (longer: seq<Action>)
    requires LeadsTo(acts, s) && s.phase.Collecting? && AtEntry(s.phase) && EntryOf(s.phase) == Twin
    requires s.cursors == map[] && CompletedOf(s.completed, "j") == {1}
    ensures LeadsTo(longer, s.(phase := Collect(s.phase, [1])))
  {
    OneBuildListed();
    longer := Next(acts, s, Probe(Last(1)));
    var t := Apply(s, Probe(Last(1)));
    longer := Next(longer, t, List(Builds(OneBuild)));
    assert Apply(t, List(Builds(OneBuild))) == s.(phase := Collect(s.phase, [1]));
  }

  /** A configured job listed twice is crawled twice in one tick, and its build handed over
      twice, with no failure at all. */
  lemma {:induction false} RepeatedPathHandsOverTwice() returns (acts: seq<Action>)
    ensures Legal(Start, acts) && (forall i :: 0 <= i < |acts| ==> NoFailure(acts[i]))
    ensures multiset(After(Start, acts).runs)[Run("j", 1)] == 2
  {
    acts := Next([], Start, Complete("j", 1));
    var s := Apply(Start, Complete("j", 1));
    acts := Next(acts, s, Load(true));
    s := Apply(s, Load(true));
    acts := Next(acts, s, Begin([Twin, Twin]));
    s := Apply(s, Begin([Twin, Twin]));
    acts := TwinCollected(acts, s);
    s := s.(phase := Collect(s.phase, [1]));
    acts := TwinCollected(acts, s);
    s := s.(phase := Collect(s.phase, [1]));
    assert s.phase.pending == [TwinBatch, TwinBatch];
    acts := TwinPublished(acts, s);
  }

  lemma {:induction false} TwinPublished(acts: seq<Action>, start: State) returns (longer: seq<Action>)
    requires LeadsTo(acts, start) && start.phase == Collecting([Twin, Twin], [TwinBatch, TwinBatch]) && start.runs == []
    ensures Legal(Start, longer) && (forall i :: 0 <= i < |longer| ==> NoFailure(longer[i]))
    ensures multiset(After(Start, longer).runs)[Run("j", 1)] == 2
  {
    TwinTasks();
    longer := Next(acts, start, StartPublishing);
    var s := Apply(start, StartPublishing);
    longer := Next(longer, s, PublishWorkflow);
    s := Apply(s, PublishWorkflow);
    longer := TwinBothPublished(longer, s);
  }

  lemma {:induction false} TwinBothPublished(acts: seq<Action>, start: State) returns (longer: seq<Action>)
    requires LeadsTo(acts, start) && start.runs == []
    requires start.phase == Publishing([Workflow("j"), Job(TwinBatch), Job(TwinBatch)], 1, 0)
    ensures Legal(Start, longer) && (forall i :: 0 <= i < |longer| ==> NoFailure(longer[i]))
    ensures multiset(After(Start, longer).runs)[Run("j", 1)] == 2
  {
    var s;
    longer, s := OneTwinPublished(acts, start);
    longer, s := OneTwinPublished(longer, s);
    assert s.runs == [Run("j", 1), Run("j", 1)];
  }

  lemma {:induction false} OneTwinPublished(acts: seq<Action>, s: State) returns (longer: seq<Action>, t: State)
    requires LeadsTo(acts, s) && AtTask(s.phase) && s.phase.tasks[s.phase.next] == Job(TwinBatch) && s.phase.built == 0
    ensures LeadsTo(longer, t) && t.runs == s.runs + [Run("j", 1)]
    ensures t.phase == s.phase.(next := s.phase.next + 1)
  {
    longer := Next(acts, s, PublishRun);
    t := Apply(s, PublishRun);
    longer := Next(longer, t, Save(Saved));
    t := Apply(t, Save(Saved));
  }
}
