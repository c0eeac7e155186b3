/** Runs of the commit crawler without failures: when each commit is handed over once. */
module BitbucketOnce {
  import opened Seqs
  import opened Ordering
  import opened Bitbucket

  /** A step without failure: calls succeed, and the process does not restart in the middle
      of a repository.  Tips move anywhere. */
  ghost predicate Clean(s: State, a: Action) {
    match a
    case Restart => s.phase.Idle?
    case Load(ok) => ok
    case Fetch(_, answer) => answer.Commits?
    case Save(outcome) => outcome.Saved?
    case _ => true
  }

  ghost predicate CleanRun(h: History, s: State, acts: seq<Action>)
    requires Legal(h, s, acts)
    decreases |acts|
  {
    acts != [] ==>
      var init := acts[..|acts| - 1];
      CleanRun(h, s, init) && Clean(After(h, s, init), acts[|acts| - 1])
  }

  /** What the tip of the repository shares with an earlier crawled tip lies behind the cursor. */
  ghost predicate SharesOnlyOld(h: History, s: State, repo: string) {
    forall c, x :: c in s.crawled && c.repo == repo && Reaches(h, repo, c.sha, x) && repo in s.tips
                   && Reaches(h, repo, s.tips[repo], x) ==>
      repo in s.cursors && Reaches(h, repo, s.cursors[repo], x)
  }

  /** So at every fetch of the run. */
  ghost predicate FetchesOnlyNew(h: History, s: State, acts: seq<Action>)
    requires Legal(h, s, acts)
    decreases |acts|
  {
    acts != [] ==>
      var init, a := acts[..|acts| - 1], acts[|acts| - 1];
      FetchesOnlyNew(h, s, init) && (a.Fetch? ==> SharesOnlyOld(h, After(h, s, init), a.repo))
  }

  // ---- what is handed over and what is about to be

  /** The part of the batch still to be published. */
  function Rest(phase: Phase): seq<Handed> {
    if phase.Publishing? && phase.next <= |phase.commits| then HandedFrom(phase.repo, phase.commits[phase.next..])
    else []
  }

  function Planned(s: State): seq<Handed> {
    s.published + Rest(s.phase)
  }

  /** A cursor is a crawled tip. */
  ghost predicate CursorCrawled(s: State, repo: string) {
    repo in s.store ==> s.store[repo] != "" && Handed(repo, s.store[repo]) in s.crawled
  }

  ghost predicate UnderCrawled(h: History, s: State, c: Handed) {
    exists tip :: tip in s.crawled && tip.repo == c.repo && Reaches(h, c.repo, tip.sha, c.sha)
  }

  /** What has been handed over lies under a crawled tip, or under the tip being crawled. */
  ghost predicate Origin(h: History, s: State, c: Handed) {
    UnderCrawled(h, s, c)
    || (s.phase.Publishing? && s.phase.repo == c.repo && Reaches(h, c.repo, s.phase.tip, c.sha))
  }

  ghost predicate BatchUnderTip(h: History, phase: Phase) {
    phase.Publishing? ==>
      && 0 <= phase.next <= |phase.commits| && 0 < |phase.commits| && phase.commits[0] == phase.tip
      && "" !in phase.commits && forall x :: x in phase.commits ==> Reaches(h, phase.repo, phase.tip, x)
  }

  ghost predicate CleanInv(h: History, s: State) {
    && Inv(h, s) && (s.phase.Idle? || s.phase.Publishing?) && (s.loaded ==> s.cursors == s.store)
    && (forall repo :: repo in s.store ==> CursorCrawled(s, repo))
    && BatchUnderTip(h, s.phase)
    && forall c :: c in s.published ==> Origin(h, s, c)
  }

  lemma {:induction false} HandedFromMembers(repo: string, commits: seq<string>)
    ensures forall c :: c in HandedFrom(repo, commits) <==> c.repo == repo && c.sha in commits
    ensures NoDuplicates(commits) ==> NoDuplicates(HandedFrom(repo, commits))
  {
    var hs := HandedFrom(repo, commits);
    forall c ensures c in hs <==> c.repo == repo && c.sha in commits {
      if c.repo == repo && c.sha in commits {
        var i :| 0 <= i < |commits| && commits[i] == c.sha;
        assert hs[i] == c;
      }
    }
  }

  /** A listing repeats nothing exactly when the tip shares only what is behind the cursor. */
  lemma {:induction false} ListingIsNewIff(h: History, s: State, repo: string, commits: seq<string>)
    requires CleanInv(h, s) && s.phase.Idle? && s.loaded && repo in s.tips
    requires IsListing(h, s.tips, repo, CursorOf(s.cursors, repo), commits)
    ensures SharesOnlyOld(h, s, repo) <==> forall x :: x in commits ==> Handed(repo, x) !in s.published
  {
    assert repo in s.cursors ==> CursorCrawled(s, repo);
    if SharesOnlyOld(h, s, repo) {
      forall x | x in commits ensures Handed(repo, x) !in s.published {
        if Handed(repo, x) in s.published {
          assert Origin(h, s, Handed(repo, x));
          var tip :| tip in s.crawled && tip.repo == repo && Reaches(h, repo, tip.sha, x);
        }
      }
    }
    if forall x :: x in commits ==> Handed(repo, x) !in s.published {
      forall c, x | c in s.crawled && c.repo == repo && Reaches(h, repo, c.sha, x) && Reaches(h, repo, s.tips[repo], x)
        ensures repo in s.cursors && Reaches(h, repo, s.cursors[repo], x)
      {
        assert AllHanded(h, s.published, c.repo, c.sha);
      }
    }
  }

  /** A fetch plans a repetition exactly when the tip shares more than what is behind the cursor. */
  lemma {:induction false} FetchPlans(h: History, s: State, repo: string, answer: Answer)
    requires CleanInv(h, s) && Enabled(h, s, Fetch(repo, answer)) && answer.Commits?
    ensures var t := Apply(h, s, Fetch(repo, answer));
      NoDuplicates(Planned(t)) <==> NoDuplicates(Planned(s)) && SharesOnlyOld(h, s, repo)
  {
    var t, commits := Apply(h, s, Fetch(repo, answer)), answer.commits;
    assert Planned(s) == s.published;
    if repo in s.tips {
      ListingIsNewIff(h, s, repo, commits);
      HandedFromMembers(repo, commits);
      ConcatDistinct(s.published, HandedFrom(repo, commits));
      assert commits[0..] == commits;
      assert Planned(t) == s.published + HandedFrom(repo, commits);
    }
  }

  lemma {:induction false} FetchKeepsClean(h: History, s: State, repo: string, answer: Answer)
    requires CleanInv(h, s) && Enabled(h, s, Fetch(repo, answer)) && answer.Commits?
    ensures CleanInv(h, Apply(h, s, Fetch(repo, answer)))
  {
    var t := Apply(h, s, Fetch(repo, answer));
    StepKeepsInv(h, s, Fetch(repo, answer));
    if t.phase.Publishing? {
      ListingStartsAtTip(h, s.tips, repo, CursorOf(s.cursors, repo), answer.commits);
    }
    StayCrawled(h, s, t);
  }

  /** Steps that only add crawled tips, or leave everything handed over alone. */
  lemma {:induction false} StayCrawled(h: History, s: State, t: State)
    requires CleanInv(h, s) && t.published == s.published && s.crawled <= t.crawled && t.store == s.store
    requires s.phase.Idle? || t.phase == s.phase
    ensures forall c :: c in t.published ==> Origin(h, t, c)
    ensures forall repo :: repo in t.store ==> CursorCrawled(t, repo)
  {
    forall c | c in t.published ensures Origin(h, t, c) {
      assert Origin(h, s, c);
    }
    forall repo | repo in t.store ensures CursorCrawled(t, repo) {
      assert CursorCrawled(s, repo);
    }
  }

  lemma {:induction false} PublishKeepsClean(h: History, s: State)
    requires CleanInv(h, s) && Enabled(h, s, Publish)
    ensures CleanInv(h, Apply(h, s, Publish))
  {
    var t, x := Apply(h, s, Publish), s.phase.commits[s.phase.next];
    StepKeepsInv(h, s, Publish);
    assert x in s.phase.commits;
    forall c | c in t.published ensures Origin(h, t, c) {
      assert c in s.published ==> Origin(h, s, c);
    }
    forall repo | repo in t.store ensures CursorCrawled(t, repo) {
      assert CursorCrawled(s, repo);
    }
  }

  lemma {:induction false} PublishKeepsPlan(h: History, s: State)
    requires Enabled(h, s, Publish)
    ensures Planned(Apply(h, s, Publish)) == Planned(s)
  {
    var t, x, rest := Apply(h, s, Publish), s.phase.commits[s.phase.next], s.phase.commits[s.phase.next + 1..];
    assert s.phase.commits[s.phase.next..] == [x] + rest;
    assert Rest(s.phase) == [Handed(s.phase.repo, x)] + HandedFrom(s.phase.repo, rest);
    ConcatAssociative(s.published, [Handed(s.phase.repo, x)], HandedFrom(s.phase.repo, rest));
  }

  lemma {:induction false} SaveKeepsClean(h: History, s: State)
    requires CleanInv(h, s) && Enabled(h, s, Save(Saved))
    ensures CleanInv(h, Apply(h, s, Save(Saved))) && Planned(Apply(h, s, Save(Saved))) == Planned(s)
  {
    var t := Apply(h, s, Save(Saved));
    StepKeepsInv(h, s, Save(Saved));
    assert s.phase.commits[0] in s.phase.commits;
    forall c | c in t.published ensures UnderCrawled(h, t, c) {
      assert Origin(h, s, c);
      assert Handed(s.phase.repo, s.phase.tip) in t.crawled;
    }
    forall repo | repo in t.store ensures CursorCrawled(t, repo) {
      assert repo in s.store ==> CursorCrawled(s, repo);
    }
    assert Rest(s.phase) == [];
  }

  /** Pushes, restarts between repositories, and loading. */
  lemma {:induction false} OutsideKeepsClean(h: History, s: State, a: Action)
    requires CleanInv(h, s) && Enabled(h, s, a) && Clean(s, a) && (a.MoveTip? || a.Restart? || a.Load?)
    ensures CleanInv(h, Apply(h, s, a)) && Planned(Apply(h, s, a)) == Planned(s)
  {
    StepKeepsInv(h, s, a);
    StayCrawled(h, s, Apply(h, s, a));
  }

  lemma {:induction false} StepKeepsClean(h: History, s: State, a: Action)
    requires CleanInv(h, s) && Enabled(h, s, a) && Clean(s, a)
    ensures CleanInv(h, Apply(h, s, a))
    ensures NoDuplicates(Planned(Apply(h, s, a)))
       <==> NoDuplicates(Planned(s)) && (a.Fetch? ==> SharesOnlyOld(h, s, a.repo))
  {
    match a
    case Fetch(repo, answer) =>
      FetchKeepsClean(h, s, repo, answer);
      FetchPlans(h, s, repo, answer);
    case Publish =>
      PublishKeepsClean(h, s);
      PublishKeepsPlan(h, s);
    case Save(_) => SaveKeepsClean(h, s);
    case Clear(_) =>
    case Refetch(_) =>
    case MoveTip(_, _) => OutsideKeepsClean(h, s, a);
    case Restart => OutsideKeepsClean(h, s, a);
    case Load(_) => OutsideKeepsClean(h, s, a);
  }

  lemma {:induction false} CleanRunPlans(h: History, acts: seq<Action>)
    requires Legal(h, Start, acts) && CleanRun(h, Start, acts)
    ensures CleanInv(h, After(h, Start, acts))
    ensures NoDuplicates(Planned(After(h, Start, acts))) <==> FetchesOnlyNew(h, Start, acts)
    decreases |acts|
  {
    if acts != [] {
      var init := acts[..|acts| - 1];
      CleanRunPlans(h, init);
      StepKeepsClean(h, After(h, Start, init), acts[|acts| - 1]);
    }
  }

  /** Main result: a run without failures that is not in the middle of a repository has
      handed over nothing twice if and only if, at every fetch, the tip shared with the tips
      crawled before only what was behind the cursor; and then each ancestor of a crawled
      tip has been handed over exactly once. */
  lemma {:induction false} HandedOverOnceIff(h: History, acts: seq<Action>)
    requires Legal(h, Start, acts) && CleanRun(h, Start, acts) && After(h, Start, acts).phase.Idle?
    ensures NoDuplicates(After(h, Start, acts).published) <==> FetchesOnlyNew(h, Start, acts)
    ensures FetchesOnlyNew(h, Start, acts) ==>
              forall c, x :: c in After(h, Start, acts).crawled && Reaches(h, c.repo, c.sha, x) ==>
                multiset(After(h, Start, acts).published)[Handed(c.repo, x)] == 1
  {
    var s := After(h, Start, acts);
    CleanRunPlans(h, acts);
    assert Planned(s) == s.published;
    if FetchesOnlyNew(h, Start, acts) {
      forall c, x | c in s.crawled && Reaches(h, c.repo, c.sha, x)
        ensures multiset(s.published)[Handed(c.repo, x)] == 1
      {
        assert AllHanded(h, s.published, c.repo, c.sha);
        NoDuplicatesMultiplicity(s.published, Handed(c.repo, x));
      }
    }
  }

  // ---- tips that only move forward

  ghost predicate Forward(h: History, s: State, a: Action) {
    a.MoveTip? && a.repo in s.tips ==> Reaches(h, a.repo, a.sha, s.tips[a.repo])
  }

  ghost predicate ForwardRun(h: History, s: State, acts: seq<Action>)
    requires Legal(h, s, acts)
    decreases |acts|
  {
    acts != [] ==>
      var init := acts[..|acts| - 1];
      ForwardRun(h, s, init) && Forward(h, After(h, s, init), acts[|acts| - 1])
  }

  /** Everything crawled lies behind the cursor, and that behind the tip. */
  ghost predicate InLine(h: History, s: State, repo: string) {
    && (repo in s.store ==> repo in s.tips && Reaches(h, repo, s.tips[repo], s.store[repo]))
    && forall c :: c in s.crawled && c.repo == repo ==>
         repo in s.store && Reaches(h, repo, s.store[repo], c.sha)
  }

  /** So does the batch being published. */
  ghost predicate BatchInLine(h: History, s: State) {
    s.phase.Publishing? ==>
      var repo := s.phase.repo;
      && repo in s.tips && Reaches(h, repo, s.tips[repo], s.phase.tip)
      && (repo in s.store ==> Reaches(h, repo, s.phase.tip, s.store[repo]))
  }

  ghost predicate ForwardInv(h: History, s: State) {
    BatchInLine(h, s) && forall repo :: InLine(h, s, repo)
  }

  lemma {:induction false} InLineSharesOnlyOld(h: History, s: State, repo: string)
    requires CleanInv(h, s) && s.loaded && InLine(h, s, repo)
    ensures SharesOnlyOld(h, s, repo)
  {
    forall c, x | c in s.crawled && c.repo == repo && Reaches(h, repo, c.sha, x)
      ensures repo in s.cursors && Reaches(h, repo, s.cursors[repo], x)
    {
      ReachesTransitive(h, repo, s.store[repo], c.sha, x);
    }
  }

  lemma {:induction false} MoveKeepsForward(h: History, s: State, repo: string, sha: string)
    requires ForwardInv(h, s) && Forward(h, s, MoveTip(repo, sha))
    ensures ForwardInv(h, Apply(h, s, MoveTip(repo, sha)))
  {
    var t := Apply(h, s, MoveTip(repo, sha));
    assert InLine(h, s, repo);
    if repo in s.store {
      ReachesTransitive(h, repo, sha, s.tips[repo], s.store[repo]);
    }
    if s.phase.Publishing? && s.phase.repo == repo {
      ReachesTransitive(h, repo, sha, s.tips[repo], s.phase.tip);
    }
    forall r ensures InLine(h, t, r) {
      assert InLine(h, s, r);
    }
  }

  lemma {:induction false} FetchKeepsForward(h: History, s: State, repo: string, answer: Answer)
    requires CleanInv(h, s) && ForwardInv(h, s) && Enabled(h, s, Fetch(repo, answer)) && answer.Commits?
    ensures ForwardInv(h, Apply(h, s, Fetch(repo, answer)))
  {
    var t := Apply(h, s, Fetch(repo, answer));
    assert InLine(h, s, repo);
    if repo in s.tips {
      ReachesSelf(h, repo, s.tips[repo]);
      assert answer.commits == [] ==> repo in s.store && Reaches(h, repo, s.store[repo], s.tips[repo]);
    }
    forall r ensures InLine(h, t, r) {
      assert InLine(h, s, r);
    }
  }

  lemma {:induction false} SaveKeepsForward(h: History, s: State)
    requires CleanInv(h, s) && ForwardInv(h, s) && Enabled(h, s, Save(Saved))
    ensures ForwardInv(h, Apply(h, s, Save(Saved)))
  {
    var t, repo, tip := Apply(h, s, Save(Saved)), s.phase.repo, s.phase.tip;
    assert InLine(h, s, repo);
    ReachesSelf(h, repo, tip);
    forall c | c in t.crawled && c.repo == repo ensures Reaches(h, repo, tip, c.sha) {
      if c in s.crawled {
        ReachesTransitive(h, repo, tip, s.store[repo], c.sha);
      }
    }
    forall r ensures InLine(h, t, r) {
      assert InLine(h, s, r);
    }
  }

  /** Steps that move neither tips nor cursors. */
  lemma {:induction false} OtherKeepsForward(h: History, s: State, t: State)
    requires ForwardInv(h, s) && t.tips == s.tips && t.store == s.store && t.crawled == s.crawled
    requires t.phase.Idle? || (s.phase.Publishing? && t.phase.Publishing? && t.phase.repo == s.phase.repo
                               && t.phase.tip == s.phase.tip)
    ensures ForwardInv(h, t)
  {
    forall r ensures InLine(h, t, r) {
      assert InLine(h, s, r);
    }
  }

  lemma {:induction false} StepKeepsForward(h: History, s: State, a: Action)
    requires CleanInv(h, s) && ForwardInv(h, s) && Enabled(h, s, a) && Clean(s, a) && Forward(h, s, a)
    ensures ForwardInv(h, Apply(h, s, a))
  {
    match a
    case MoveTip(repo, sha) => MoveKeepsForward(h, s, repo, sha);
    case Fetch(repo, answer) => FetchKeepsForward(h, s, repo, answer);
    case Save(_) => SaveKeepsForward(h, s);
    case Publish => OtherKeepsForward(h, s, Apply(h, s, a));
    case Load(_) => OtherKeepsForward(h, s, Apply(h, s, a));
    case Restart => OtherKeepsForward(h, s, Apply(h, s, a));
    case Clear(_) =>
    case Refetch(_) =>
  }

  /** Tips that only move forward are such runs: they never share more. */
  lemma {:induction false} ForwardFetchesOnlyNew(h: History, acts: seq<Action>)
    requires Legal(h, Start, acts) && CleanRun(h, Start, acts) && ForwardRun(h, Start, acts)
    ensures ForwardInv(h, After(h, Start, acts)) && FetchesOnlyNew(h, Start, acts)
    decreases |acts|
  {
    if acts != [] {
      var init, a := acts[..|acts| - 1], acts[|acts| - 1];
      var s := After(h, Start, init);
      ForwardFetchesOnlyNew(h, init);
      CleanRunPlans(h, init);
      StepKeepsForward(h, s, a);
      if a.Fetch? {
        InLineSharesOnlyOld(h, s, a.repo);
      }
    }
  }

  // ---- a run that does share more

  /** No commit has parents. */
  const Unrelated: History := (_, _) => {}

  lemma {:induction false} UnrelatedListing(tips: map<string, string>, since: string, sha: string)
    requires "r" in tips && tips["r"] == sha && sha != "" && sha != since
    ensures IsListing(Unrelated, tips, "r", since, [sha])
  {
    ReachesSelf(Unrelated, "r", sha);
    assert forall a, b :: Reaches(Unrelated, "r", a, b) ==> a == b;
  }

  /** The tip moves to a commit, which is then fetched, published and saved. */
  function Round(sha: string): seq<Action> {
    [MoveTip("r", sha), Fetch("r", Commits([sha])), Publish, Save(Saved)]
  }

  lemma {:induction false} RoundHandsOver(acts: seq<Action>, sha: string)
    requires Legal(Unrelated, Start, acts) && sha != ""
    requires var s := After(Unrelated, Start, acts); s.phase.Idle? && s.loaded && CursorOf(s.cursors, "r") != sha
    ensures Legal(Unrelated, Start, acts + Round(sha))
    ensures var s, t := After(Unrelated, Start, acts), After(Unrelated, Start, acts + Round(sha));
      t.phase.Idle? && t.loaded && CursorOf(t.cursors, "r") == sha && t.published == s.published + [Handed("r", sha)]
  {
    var fetched := acts + [MoveTip("r", sha)] + [Fetch("r", Commits([sha]))];
    RoundFetches(acts, sha);
    OneMore(Unrelated, Start, fetched, Publish);
    OneMore(Unrelated, Start, fetched + [Publish], Save(Saved));
    assert acts + Round(sha) == fetched + [Publish] + [Save(Saved)];
  }

  lemma {:induction false} RoundFetches(acts: seq<Action>, sha: string)
    requires Legal(Unrelated, Start, acts) && sha != ""
    requires var s := After(Unrelated, Start, acts); s.phase.Idle? && s.loaded && CursorOf(s.cursors, "r") != sha
    ensures var s, fetched := After(Unrelated, Start, acts), acts + [MoveTip("r", sha)] + [Fetch("r", Commits([sha]))];
      && Legal(Unrelated, Start, fetched)
      && After(Unrelated, Start, fetched) == s.(tips := s.tips["r" := sha], phase := Publishing("r", sha, [sha], 0))
  {
    var s, moved := After(Unrelated, Start, acts), acts + [MoveTip("r", sha)];
    OneMore(Unrelated, Start, acts, MoveTip("r", sha));
    UnrelatedListing(s.tips["r" := sha], CursorOf(s.cursors, "r"), sha);
    OneMore(Unrelated, Start, moved, Fetch("r", Commits([sha])));
  }

  lemma {:induction false} Loaded()
    ensures Legal(Unrelated, Start, [Load(true)])
    ensures var s := After(Unrelated, Start, [Load(true)]);
      s.phase.Idle? && s.loaded && s.cursors == map[] && s.published == []
  {
    OneMore(Unrelated, Start, [], Load(true));
    assert [] + [Load(true)] == [Load(true)];
  }

  /** A tip that is rewritten and comes back is handed over twice, with no failure at all. */
  lemma {:induction false} RewritingHandsOverTwice()
    ensures var acts := [Load(true)] + Round("a") + Round("b") + Round("a");
      Legal(Unrelated, Start, acts) && multiset(After(Unrelated, Start, acts).published)[Handed("r", "a")] == 2
  {
    Loaded();
    var first := [Load(true)] + Round("a");
    RoundHandsOver([Load(true)], "a");
    var second := first + Round("b");
    RoundHandsOver(first, "b");
    RoundHandsOver(second, "a");
    assert After(Unrelated, Start, second + Round("a")).published
        == [Handed("r", "a"), Handed("r", "b"), Handed("r", "a")];
  }
}
