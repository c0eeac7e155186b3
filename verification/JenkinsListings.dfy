/** Listings that leave builds out.  A server may cut the history of a job, which does no harm
    below the cursor; what a tick plans to publish shows whether it does above. */
module JenkinsListings {
  import opened Seqs
  import opened Ownership
  import opened Jenkins
  import JenkinsOnce

  // ---- what a plan must hold

  /** Some of the tasks from `from` up to `to` hands the build over. */
  ghost predicate HeldBetween(tasks: seq<Task>, from: nat, to: nat, r: Run) {
    exists j :: from <= j < to && j < |tasks| && TaskHas(tasks[j], r)
  }

  /** When the k-th task saves its cursor, every completed build it passes has been handed over. */
  ghost predicate TaskCovers(s: State, tasks: seq<Task>, next: nat, k: nat)
    requires k < |tasks|
  {
    tasks[k].Job? ==>
      var b := tasks[k].batch;
      forall m :: m in CompletedOf(s.completed, b.entry.path) && m <= Highest(b.builds) ==>
        Run(b.entry.path, m) in s.runs || HeldBetween(tasks, next, k + 1, Run(b.entry.path, m))
  }

  /** So it is for each task to come; and what is due has been handed over or will be. */
  ghost predicate TasksCover(s: State, tasks: seq<Task>, next: nat) {
    && (forall k :: next <= k < |tasks| ==> TaskCovers(s, tasks, next, k))
    && forall r :: r in s.due ==> r in s.runs || HeldBetween(tasks, next, |tasks|, r)
  }

  ghost predicate PlanCovers(s: State) {
    s.phase.Collecting? ==> TasksCover(s, TasksOf(s.phase.pending), 0)
  }

  /** The plan covers whenever the run starts publishing. */
  ghost predicate PlansCover(s: State, acts: seq<Action>)
    requires Legal(s, acts)
    decreases |acts|
  {
    acts != [] ==>
      var init, a := acts[..|acts| - 1], acts[|acts| - 1];
      PlansCover(s, init) && (a.StartPublishing? ==> PlanCovers(After(s, init)))
  }

  ghost predicate AlwaysSafe(s: State, acts: seq<Action>)
    requires Legal(s, acts)
    decreases |acts|
  {
    Safe(After(s, acts)) && (acts != [] ==> AlwaysSafe(s, acts[..|acts| - 1]))
  }

  /** What a tick has begun to publish it publishes to the end, and each save takes effect,
      though it may report an error.  Loads, probes, listings and saves may fail so, and the
      process may restart whenever it is not publishing. */
  ghost predicate Uninterrupted(s: State, acts: seq<Action>)
    requires Legal(s, acts)
    decreases |acts|
  {
    acts != [] ==>
      var init, a := acts[..|acts| - 1], acts[|acts| - 1];
      Uninterrupted(s, init) && GoesThrough(After(s, init), a)
  }

  ghost predicate GoesThrough(s: State, a: Action) {
    (a.Restart? ==> !s.phase.Publishing?) && (a.Save? ==> !a.outcome.NotSaved?)
  }

  // ---- what truthful answers keep, whatever the listings leave out

  ghost predicate Named(s: State, job: string, n: nat) {
    n == 0 || n in CompletedOf(s.completed, job)
  }

  ghost predicate BatchTrue(s: State, b: Batch) {
    forall n :: n in b.builds ==> n > 0 && n in CompletedOf(s.completed, b.entry.path)
  }

  ghost predicate BatchesTrue(s: State) {
    if s.phase.Publishing? then
      && s.phase.next <= |s.phase.tasks|
      && (forall k :: 0 <= k < |s.phase.tasks| && s.phase.tasks[k].Job? ==> BatchTrue(s, s.phase.tasks[k].batch))
      && (AtTask(s.phase) && s.phase.tasks[s.phase.next].Job? ==>
            PartlyBuilt(s, s.phase.tasks[s.phase.next].batch, s.phase.built))
      && (AtTask(s.phase) && s.phase.tasks[s.phase.next].Workflow? ==> s.phase.built == 0)
    else
      s.phase.Idle? || forall k :: 0 <= k < |s.phase.pending| ==> BatchTrue(s, s.phase.pending[k])
  }

  ghost predicate Truthful(s: State) {
    && (forall job, n :: n in CompletedOf(s.completed, job) ==> n > 0)
    && (forall job :: job in s.cursors ==> Named(s, job, s.cursors[job]))
    && (forall job :: job in s.store ==> Named(s, job, s.store[job]))
    && !s.phase.Clearing? && BatchesTrue(s)
  }

  lemma {:induction false} CompleteKeepsTruth(s: State, job: string, n: nat)
    requires Truthful(s) && Enabled(s, Complete(job, n))
    ensures Truthful(Apply(s, Complete(job, n)))
  {
    var t := Apply(s, Complete(job, n));
    forall other: string ensures CompletedOf(s.completed, other) <= CompletedOf(t.completed, other) {
    }
    forall other, m | m in CompletedOf(t.completed, other) ensures m > 0 {
      assert m in CompletedOf(s.completed, other) || m == n;
    }
    forall b | BatchTrue(s, b) ensures BatchTrue(t, b) {
    }
  }

  lemma {:induction false} ListKeepsTruth(s: State, answer: ListAnswer)
    requires Truthful(s) && Enabled(s, List(answer))
    ensures Truthful(Apply(s, List(answer)))
  {
    var b := Batch(EntryOf(s.phase), Collected(answer, s.phase.cursor));
    forall n | n in b.builds ensures n > 0 && n in CompletedOf(s.completed, b.entry.path) {
      NewBuildsAbove(answer.builds, s.phase.cursor, n);
    }
    assert BatchTrue(s, b);
  }

  lemma {:induction false} StartPublishingKeepsTruth(s: State)
    requires Truthful(s) && Enabled(s, StartPublishing)
    ensures Truthful(Apply(s, StartPublishing))
  {
    var t, tasks := Apply(s, StartPublishing), TasksOf(s.phase.pending);
    GroupedTrue(s, s.phase.pending, tasks);
    forall k | 0 <= k < |tasks| && tasks[k].Job? ensures BatchTrue(t, tasks[k].batch) {
      assert BatchTrue(s, tasks[k].batch);
    }
  }

  lemma {:induction false} GroupedTrue(s: State, pending: seq<Batch>, tasks: seq<Task>)
    requires tasks == TasksOf(pending) && forall i :: 0 <= i < |pending| ==> BatchTrue(s, pending[i])
    ensures forall k :: 0 <= k < |tasks| && tasks[k].Job? ==> BatchTrue(s, tasks[k].batch)
  {
    TasksHoldBatches(pending);
    forall k | 0 <= k < |tasks| && tasks[k].Job? ensures BatchTrue(s, tasks[k].batch) {
      var i :| 0 <= i < |pending| && pending[i] == tasks[k].batch;
    }
  }

  lemma {:induction false} PublishKeepsTruth(s: State, a: Action)
    requires Truthful(s) && Enabled(s, a) && (a.PublishWorkflow? || a.PublishRun? || a.Save?)
    ensures Truthful(Apply(s, a))
  {
    var t := Apply(s, a);
    assert forall b :: BatchTrue(s, b) ==> BatchTrue(t, b);
    if a.PublishRun? {
      assert t.runs[|s.runs|] in t.runs;
    }
  }

  lemma {:induction false} StepKeepsTruth(s: State, a: Action)
    requires Truthful(s) && Enabled(s, a)
    ensures Truthful(Apply(s, a))
  {
    match a
    case Complete(job, n) => CompleteKeepsTruth(s, job, n);
    case List(answer) => ListKeepsTruth(s, answer);
    case StartPublishing => StartPublishingKeepsTruth(s);
    case PublishWorkflow => PublishKeepsTruth(s, a);
    case PublishRun => PublishKeepsTruth(s, a);
    case Save(_) => PublishKeepsTruth(s, a);
    case _ =>
  }

  // ---- plans that cover keep the run safe

  ghost predicate OnCourse(s: State) {
    && (forall job :: job in s.cursors ==> Covered(s, job, s.cursors[job]))
    && (forall job :: job in s.store ==> Covered(s, job, s.store[job]))
    && (forall r :: r in s.settled ==> r in s.runs)
    && (s.phase.Publishing? ==> TasksCover(s, s.phase.tasks, s.phase.next))
  }

  lemma {:induction false} CompleteKeepsCourse(s: State, job: string, n: nat)
    requires Truthful(s) && OnCourse(s) && Enabled(s, Complete(job, n))
    ensures OnCourse(Apply(s, Complete(job, n)))
  {
    var t := Apply(s, Complete(job, n));
    forall other, c | Named(s, other, c) && Covered(s, other, c) ensures Covered(t, other, c) {
      CompleteAbove(s, t, job, n, other, c);
    }
    if s.phase.Publishing? {
      forall k | s.phase.next <= k < |s.phase.tasks| ensures TaskCovers(t, s.phase.tasks, s.phase.next, k) {
        assert TaskCovers(s, s.phase.tasks, s.phase.next, k);
        if s.phase.tasks[k].Job? {
          var b := s.phase.tasks[k].batch;
          CompleteAbove(s, t, job, n, b.entry.path, Highest(b.builds));
        }
      }
    }
  }

  /** Nothing new completes at or below a number that is named. */
  lemma CompleteAbove(s: State, t: State, job: string, n: nat, other: string, c: nat)
    requires Enabled(s, Complete(job, n)) && t == Apply(s, Complete(job, n)) && Named(s, other, c)
    ensures forall m :: m in CompletedOf(t.completed, other) && m <= c ==> m in CompletedOf(s.completed, other)
  {
  }

  /** What the task at hand leaves to the others. */
  lemma HeldLater(tasks: seq<Task>, next: nat, to: nat, r: Run)
    requires HeldBetween(tasks, next, to, r)
    ensures HeldBetween(tasks, next + 1, to, r) || (next < |tasks| && TaskHas(tasks[next], r))
  {
    var j :| next <= j < to && j < |tasks| && TaskHas(tasks[j], r);
    assert j > next ==> next + 1 <= j;
  }

  /** When all that the task at hand has is handed over, the rest covers what all covered. */
  lemma {:induction false} RestCovers(s: State, t: State)
    requires AtTask(s.phase) && TasksCover(s, s.phase.tasks, s.phase.next)
    requires t.completed == s.completed && t.due == s.due && t.runs == s.runs
    requires forall r :: TaskHas(s.phase.tasks[s.phase.next], r) ==> r in s.runs
    ensures TasksCover(t, s.phase.tasks, s.phase.next + 1)
  {
    var tasks, next, later := s.phase.tasks, s.phase.next, s.phase.next + 1;
    forall r, to: nat | HeldBetween(tasks, next, to, r) ensures r in t.runs || HeldBetween(tasks, later, to, r) {
      HeldLater(tasks, next, to, r);
    }
    forall k | later <= k < |tasks| ensures TaskCovers(t, tasks, later, k) {
      assert TaskCovers(s, tasks, next, k);
    }
  }

  lemma {:induction false} TaskAtHandDone(s: State)
    requires Truthful(s) && AtTask(s.phase)
    requires s.phase.tasks[s.phase.next].Job? ==> s.phase.built == |s.phase.tasks[s.phase.next].batch.builds|
    ensures forall r :: TaskHas(s.phase.tasks[s.phase.next], r) ==> r in s.runs
  {
    forall r | TaskHas(s.phase.tasks[s.phase.next], r) ensures r in s.runs {
      var b := s.phase.tasks[s.phase.next].batch;
      var i :| 0 <= i < |b.builds| && b.builds[i] == r.number;
      assert PartlyBuilt(s, b, s.phase.built);
    }
  }

  lemma {:induction false} SaveKeepsCourse(s: State, outcome: SaveOutcome)
    requires Truthful(s) && OnCourse(s) && Enabled(s, Save(outcome))
    ensures OnCourse(Apply(s, Save(outcome)))
  {
    var t := Apply(s, Save(outcome));
    TaskAtHandDone(s);
    RestCovers(s, t);
    SavedIsCovered(s);
    assert forall job, c :: Covered(s, job, c) ==> Covered(t, job, c);
  }

  lemma {:induction false} SavedIsCovered(s: State)
    requires AtTask(s.phase) && s.phase.tasks[s.phase.next].Job? && TasksCover(s, s.phase.tasks, s.phase.next)
    requires forall r :: TaskHas(s.phase.tasks[s.phase.next], r) ==> r in s.runs
    ensures var b := s.phase.tasks[s.phase.next].batch; Covered(s, b.entry.path, Highest(b.builds))
  {
    var tasks, next := s.phase.tasks, s.phase.next;
    var b := tasks[next].batch;
    assert TaskCovers(s, tasks, next, next);
    forall m | m in CompletedOf(s.completed, b.entry.path) && m <= Highest(b.builds)
      ensures Run(b.entry.path, m) in s.runs
    {
      assert HeldBetween(tasks, next, next + 1, Run(b.entry.path, m)) ==> TaskHas(tasks[next], Run(b.entry.path, m));
    }
  }

  lemma {:induction false} PublishRunKeepsCourse(s: State)
    requires OnCourse(s) && Enabled(s, PublishRun)
    ensures OnCourse(Apply(s, PublishRun))
  {
    var t := Apply(s, PublishRun);
    assert forall r :: r in s.runs ==> r in t.runs;
    forall k | s.phase.next <= k < |s.phase.tasks| ensures TaskCovers(t, s.phase.tasks, s.phase.next, k) {
      assert TaskCovers(s, s.phase.tasks, s.phase.next, k);
    }
  }

  lemma {:induction false} StepKeepsCourse(s: State, a: Action)
    requires Truthful(s) && OnCourse(s) && Enabled(s, a) && (a.StartPublishing? ==> PlanCovers(s))
    ensures OnCourse(Apply(s, a))
  {
    var t := Apply(s, a);
    match a
    case Complete(job, n) => CompleteKeepsCourse(s, job, n);
    case StartPublishing =>
      assert forall k :: 0 <= k < |t.phase.tasks| && TaskCovers(s, t.phase.tasks, 0, k) ==>
               TaskCovers(t, t.phase.tasks, 0, k);
    case PublishWorkflow =>
      TaskAtHandDone(s);
      RestCovers(s, t);
    case PublishRun => PublishRunKeepsCourse(s);
    case Save(outcome) => SaveKeepsCourse(s, outcome);
    case Finish =>
      assert forall r :: !HeldBetween(s.phase.tasks, s.phase.next, |s.phase.tasks|, r);
    case _ =>
  }

  /** Whatever fails and whenever the process restarts. */
  lemma {:induction false} CoveringPlansAreSafe(acts: seq<Action>)
    requires Legal(Start, acts) && PlansCover(Start, acts)
    ensures Truthful(After(Start, acts)) && OnCourse(After(Start, acts)) && AlwaysSafe(Start, acts)
    decreases |acts|
  {
    if acts != [] {
      var init, a := acts[..|acts| - 1], acts[|acts| - 1];
      CoveringPlansAreSafe(init);
      StepKeepsTruth(After(Start, init), a);
      StepKeepsCourse(After(Start, init), a);
    }
    OnCourseIsSafe(After(Start, acts));
  }

  lemma OnCourseIsSafe(s: State)
    requires OnCourse(s)
    ensures Safe(s)
  {
    assert forall job :: job in s.cursors ==> Covered(s, job, s.cursors[job]);
    assert forall job :: job in s.store ==> Covered(s, job, s.store[job]);
  }

  // ---- one that does not loses a build

  /** The completed build r will be passed by the cursor that the k-th task saves. */
  ghost predicate PassedBy(s: State, k: nat, r: Run)
    requires s.phase.Publishing?
  {
    && s.phase.next <= k < |s.phase.tasks| && s.phase.tasks[k].Job?
    && s.phase.tasks[k].batch.entry.path == r.job && r.number <= Highest(s.phase.tasks[k].batch.builds)
    && r.number in CompletedOf(s.completed, r.job) && r !in s.runs
    && !HeldBetween(s.phase.tasks, s.phase.next, k + 1, r)
  }

  /** A build due that no task to come hands over. */
  ghost predicate Forgotten(s: State, r: Run)
    requires s.phase.Publishing?
  {
    r in s.due && r !in s.runs && !HeldBetween(s.phase.tasks, s.phase.next, |s.phase.tasks|, r)
  }

  ghost predicate Losing(s: State) {
    s.phase.Publishing? && ((exists k, r :: PassedBy(s, k, r)) || exists r :: Forgotten(s, r))
  }

  lemma UncoveredIsLosing(s: State)
    requires s.phase.Publishing? && !TasksCover(s, s.phase.tasks, s.phase.next)
    ensures Losing(s)
  {
    if k :| s.phase.next <= k < |s.phase.tasks| && !TaskCovers(s, s.phase.tasks, s.phase.next, k) {
      var b := s.phase.tasks[k].batch;
      var m :| m in CompletedOf(s.completed, b.entry.path) && m <= Highest(b.builds)
               && Run(b.entry.path, m) !in s.runs
               && !HeldBetween(s.phase.tasks, s.phase.next, k + 1, Run(b.entry.path, m));
      assert PassedBy(s, k, Run(b.entry.path, m));
    } else {
      var r :| r in s.due && r !in s.runs && !HeldBetween(s.phase.tasks, s.phase.next, |s.phase.tasks|, r);
      assert Forgotten(s, r);
    }
  }

  /** The build handed over next is held by the task at hand. */
  lemma NextIsHeld(s: State, to: nat)
    requires Enabled(s, PublishRun) && s.phase.next < to
    ensures var r := Apply(s, PublishRun).runs[|s.runs|];
      Apply(s, PublishRun).runs == s.runs + [r] && HeldBetween(s.phase.tasks, s.phase.next, to, r)
  {
    assert TaskHas(s.phase.tasks[s.phase.next], Apply(s, PublishRun).runs[|s.runs|]);
  }

  lemma {:induction false} PassedStays(s: State, a: Action, k: nat, r: Run)
    requires Enabled(s, a) && GoesThrough(s, a) && s.phase.Publishing? && PassedBy(s, k, r)
    ensures var t := Apply(s, a); (t.phase.Publishing? && PassedBy(t, k, r)) || !Safe(t)
  {
    var t := Apply(s, a);
    if a.PublishRun? {
      NextIsHeld(s, k + 1);
    } else if a.Save? && k == s.phase.next {
      assert t.store[r.job] == Highest(s.phase.tasks[k].batch.builds);
      assert r.job in t.store && r.number in CompletedOf(t.completed, r.job) && r !in t.runs;
      assert r == Run(r.job, r.number);
    }
  }

  lemma {:induction false} ForgottenStays(s: State, a: Action, r: Run)
    requires Enabled(s, a) && GoesThrough(s, a) && s.phase.Publishing? && Forgotten(s, r)
    ensures var t := Apply(s, a); (t.phase.Publishing? && Forgotten(t, r)) || !Safe(t)
  {
    if a.PublishRun? {
      NextIsHeld(s, |s.phase.tasks|);
    }
  }

  lemma {:induction false} LosingLoses(s: State, a: Action)
    requires Enabled(s, a) && GoesThrough(s, a) && Losing(s)
    ensures Losing(Apply(s, a)) || !Safe(Apply(s, a))
  {
    if k, r :| PassedBy(s, k, r) {
      PassedStays(s, a, k, r);
    } else {
      var r :| Forgotten(s, r);
      ForgottenStays(s, a, r);
    }
  }

  lemma {:induction false} StartsLosing(s: State)
    requires Enabled(s, StartPublishing) && !PlanCovers(s)
    ensures Losing(Apply(s, StartPublishing))
  {
    var t := Apply(s, StartPublishing);
    assert forall k :: 0 <= k < |t.phase.tasks| && TaskCovers(t, t.phase.tasks, 0, k) ==>
             TaskCovers(s, t.phase.tasks, 0, k);
    UncoveredIsLosing(t);
  }

  lemma {:induction false} UncoveredPlanLoses(acts: seq<Action>)
    requires Legal(Start, acts) && Uninterrupted(Start, acts) && AlwaysSafe(Start, acts) && !PlansCover(Start, acts)
    ensures Losing(After(Start, acts))
    decreases |acts|
  {
    var init, a := acts[..|acts| - 1], acts[|acts| - 1];
    if PlansCover(Start, init) {
      StartsLosing(After(Start, init));
    } else {
      UncoveredPlanLoses(init);
      LosingLoses(After(Start, init), a);
    }
  }

  /** Main result: listings may leave out any builds, calls may fail, and a job may be met any
      number of times.  If no tick is interrupted while it publishes, the run up to the end of
      a tick is safe in every state if and only if, whenever it starts publishing, each task is
      preceded by all that its cursor passes, and all that is due is in some task or has been
      handed over. */
  lemma {:induction false} SafeIffPlansCover(acts: seq<Action>)
    requires Legal(Start, acts) && Uninterrupted(Start, acts) && After(Start, acts).phase.Idle?
    ensures AlwaysSafe(Start, acts) <==> PlansCover(Start, acts)
  {
    if PlansCover(Start, acts) {
      CoveringPlansAreSafe(acts);
    } else if AlwaysSafe(Start, acts) {
      UncoveredPlanLoses(acts);
    }
  }

  // ---- plans and listings

  /** The batch has what is not handed over up to its highest. */
  ghost predicate NoGap(s: State, b: Batch) {
    forall m :: m in CompletedOf(s.completed, b.entry.path) && m <= Highest(b.builds) ==>
      Run(b.entry.path, m) in s.runs || m in b.builds
  }

  /** The tick has collected batches without a gap, and all that is due. */
  ghost predicate CollectedAll(s: State)
    requires s.phase.Collecting?
  {
    && (forall i :: 0 <= i < |s.phase.pending| ==> NoGap(s, s.phase.pending[i]))
    && forall r :: r in s.due ==>
         r in s.runs || exists i :: 0 <= i < |s.phase.pending| && BatchHas(s.phase.pending[i], r)
  }

  lemma {:induction false} CollectedAllCovers(s: State)
    requires s.phase.Collecting? && CollectedAll(s)
    ensures PlanCovers(s)
  {
    var pending, tasks := s.phase.pending, TasksOf(s.phase.pending);
    TasksHoldBatches(pending);
    forall k | 0 <= k < |tasks| ensures TaskCovers(s, tasks, 0, k) {
      if tasks[k].Job? {
        assert tasks[k].batch in Batches(tasks);
        var b := tasks[k].batch;
        assert NoGap(s, b);
        forall m | m in b.builds ensures HeldBetween(tasks, 0, k + 1, Run(b.entry.path, m)) {
          assert TaskHas(tasks[k], Run(b.entry.path, m));
        }
      }
    }
    forall r | r in s.due && r !in s.runs ensures HeldBetween(tasks, 0, |tasks|, r) {
      var i :| 0 <= i < |pending| && BatchHas(pending[i], r);
      var k := TaskOfBatch(pending, i);
      assert TaskHas(tasks[k], r);
    }
  }

  /** The batch behind a task that hands the build over. */
  lemma HeldByBatch(pending: seq<Batch>, to: nat, r: Run) returns (i: nat)
    requires HeldBetween(TasksOf(pending), 0, to, r)
    ensures i < |pending| && BatchHas(pending[i], r)
  {
    var tasks := TasksOf(pending);
    TasksHoldBatches(pending);
    var j :| 0 <= j < to && j < |tasks| && TaskHas(tasks[j], r);
    assert tasks[j].batch in Batches(tasks);
    i :| 0 <= i < |pending| && pending[i] == tasks[j].batch;
  }

  /** With a job met once in the tick, the plan covers exactly if each batch by itself does. */
  lemma {:induction false} PlanOfDistinctJobs(s: State)
    requires Truthful(s) && s.phase.Collecting? && JenkinsOnce.DistinctBatches(s.phase.pending)
    ensures PlanCovers(s) <==> CollectedAll(s)
  {
    if CollectedAll(s) {
      CollectedAllCovers(s);
    } else if PlanCovers(s) {
      var pending, tasks := s.phase.pending, TasksOf(s.phase.pending);
      forall i | 0 <= i < |pending| ensures NoGap(s, pending[i]) {
        CoveredHasNoGap(s, i);
      }
      forall r | r in s.due && HeldBetween(tasks, 0, |tasks|, r)
        ensures exists i :: 0 <= i < |pending| && BatchHas(pending[i], r)
      {
        var i := HeldByBatch(pending, |tasks|, r);
      }
    }
  }

  lemma {:induction false} CoveredHasNoGap(s: State, i: nat)
    requires Truthful(s) && s.phase.Collecting? && JenkinsOnce.DistinctBatches(s.phase.pending) && PlanCovers(s)
    requires i < |s.phase.pending|
    ensures NoGap(s, s.phase.pending[i])
  {
    var pending, b := s.phase.pending, s.phase.pending[i];
    if b.builds != [] {
      var k := TaskOfBatch(pending, i);
      assert TaskCovers(s, TasksOf(pending), 0, k);
      forall m | m in CompletedOf(s.completed, b.entry.path) && m <= Highest(b.builds)
                 && Run(b.entry.path, m) !in s.runs
        ensures m in b.builds
      {
        var l := HeldByBatch(pending, k + 1, Run(b.entry.path, m));
        assert pending[l].entry.path == pending[i].entry.path;
      }
    }
  }

  /** Listings that leave out nothing new make plans that cover. */
  lemma {:induction false} CoveringListingsPlan(acts: seq<Action>)
    requires Legal(Start, acts) && ListsCover(Start, acts)
    ensures PlansCover(Start, acts)
    decreases |acts|
  {
    if acts != [] {
      var init := acts[..|acts| - 1];
      CoveringListingsPlan(init);
      RunKeepsInv(Start, init);
      if acts[|acts| - 1].StartPublishing? {
        InvCollectsAll(After(Start, init));
        CollectedAllCovers(After(Start, init));
      }
    }
  }

  lemma InvCollectsAll(s: State)
    requires Inv(s) && Enabled(s, StartPublishing)
    ensures CollectedAll(s)
  {
    assert forall i :: 0 <= i < |s.phase.pending| ==> BatchOk(s, s.phase.pending[i]);
    assert forall r :: r in s.due ==> Awaited(s, r);
  }

  // ---- a listing that is cut

  const Only := JobEntry("j", false)

  const NewestOnly := [Build(2, false, "SUCCESS")]

  lemma NewestListed()
    ensures NewBuilds(NewestOnly, 0) == [2]
  {
    assert NewestOnly[1..] == [];
    assert Select(NewestOnly, (b: Build) => IsComplete(b) && b.number > 0) == NewestOnly;
  }

  lemma {:induction false} OneJobTasks(b: Batch)
    requires b.builds != []
    ensures TasksOf([b]) == [Workflow(PipelinePath(b.entry)), Job(b)]
  {
    var id := PipelinePath(b.entry);
    FirstSeenNext([], id);
    assert Map([b], (b: Batch) => PipelinePath(b.entry)) == [] + [id];
    assert [b][1..] == [];
    assert GroupTasks([b], id) == [Workflow(id), Job(b)];
    var groups := GroupsOf([b], [id]);
    assert Flatten(groups, 1) == Flatten(groups, 0) + groups[0];
  }

  /** Two builds complete, and the tick is shown the newer one. */
  lemma {:induction false} CutCollected() returns (acts: seq<Action>, s: State)
    ensures JenkinsOnce.LeadsTo(acts, s) && s.phase == Collecting([Only], [Batch(Only, [2])]) && s.runs == []
    ensures CompletedOf(s.completed, "j") == {1, 2}
  {
    NewestListed();
    acts, s := TwoCompleted();
    acts := JenkinsOnce.Next(acts, s, Begin([Only]));
    s := Apply(s, Begin([Only]));
    acts := JenkinsOnce.Next(acts, s, Probe(Last(2)));
    s := Apply(s, Probe(Last(2)));
    acts := JenkinsOnce.Next(acts, s, List(Builds(NewestOnly)));
    s := Apply(s, List(Builds(NewestOnly)));
  }

  lemma {:induction false} TwoCompleted() returns (acts: seq<Action>, s: State)
    ensures JenkinsOnce.LeadsTo(acts, s) && s.phase.Idle? && s.loaded && s.cursors == map[] && s.runs == []
    ensures CompletedOf(s.completed, "j") == {1, 2}
  {
    acts := JenkinsOnce.Next([], Start, Complete("j", 1));
    s := Apply(Start, Complete("j", 1));
    acts := JenkinsOnce.Next(acts, s, Complete("j", 2));
    s := Apply(s, Complete("j", 2));
    acts := JenkinsOnce.Next(acts, s, Load(true));
    s := Apply(s, Load(true));
  }

  /** A listing cut to the newest build loses the one before it, with no failure at all. */
  lemma {:induction false} CutListingIsUnsafe() returns (acts: seq<Action>)
    ensures Legal(Start, acts) && (forall i :: 0 <= i < |acts| ==> JenkinsOnce.NoFailure(acts[i]))
    ensures var s := After(Start, acts);
      1 in CompletedOf(s.completed, "j") && CursorOf(s.cursors, "j") == 2 && Run("j", 1) !in s.runs
  {
    var s;
    acts, s := CutCollected();
    OneJobTasks(Batch(Only, [2]));
    acts := JenkinsOnce.Next(acts, s, StartPublishing);
    s := Apply(s, StartPublishing);
    acts := JenkinsOnce.Next(acts, s, PublishWorkflow);
    s := Apply(s, PublishWorkflow);
    acts := JenkinsOnce.Next(acts, s, PublishRun);
    s := Apply(s, PublishRun);
    acts := JenkinsOnce.Next(acts, s, Save(Saved));
  }
}
