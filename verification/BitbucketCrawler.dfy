/** The Bitbucket crawler's code: each method is proved to take a legal run of protocol
    steps, between any two of which the tips may move. */
module BitbucketCrawler {
  import opened Seqs
  import opened Values
  import opened Bitbucket

  /** The environment over time, counted in steps of the crawler: where the tips stand at
      each step, and how the client and the store answer there. */
  datatype Env = Env(tips: nat -> map<string, string>, loads: nat -> bool, listings: (nat, string, string) -> Answer,
                     clears: (nat, string) -> bool, saves: (nat, string) -> SaveOutcome)

  ghost predicate TipsStay(env: Env, n: nat) {
    env.tips(n).Keys <= env.tips(n + 1).Keys
  }

  ghost predicate Lists(h: History, env: Env, n: nat, repo: string, since: string) {
    Answers(h, env.tips(n), repo, since, env.listings(n, repo, since))
  }

  /** Tips move but do not vanish, and each listing is about the tips of its moment. */
  ghost predicate Faithful(h: History, env: Env) {
    (forall n: nat :: TipsStay(env, n)) && forall n: nat, repo, since :: Lists(h, env, n, repo, since)
  }

  datatype Moment = Moment(clock: nat, state: State)

  /** What the next step of the crawler finds: the tips have moved on. */
  ghost function Found(env: Env, now: Moment): State {
    now.state.(tips := env.tips(now.clock + 1))
  }

  function Tick(a: Action): nat {
    if a.MoveTip? then 0 else 1
  }

  function FetchOf(a: Action): seq<string> {
    if a.Fetch? then [a.repo] else []
  }

  /** A step of the crawler got the environment's answer of moment n. */
  ghost predicate Answered(env: Env, n: nat, s: State, a: Action) {
    a.MoveTip? || (s.tips == env.tips(n) && GotAnswer(env, n, s, a))
  }

  ghost predicate GotAnswer(env: Env, n: nat, s: State, a: Action) {
    match a
    case MoveTip(_, _) => false
    case Restart => false
    case Load(ok) => ok == env.loads(n)
    case Fetch(repo, answer) => answer == env.listings(n, repo, CursorOf(s.cursors, repo))
    case Clear(effective) => s.phase.Clearing? && effective == env.clears(n, s.phase.repo)
    case Refetch(answer) => s.phase.Refetching? && answer == env.listings(n, s.phase.repo, "")
    case Publish => true
    case Save(outcome) => s.phase.Publishing? && outcome == env.saves(n, s.phase.repo)
  }

  ghost predicate IsStep(h: History, env: Env, now: Moment, a: Action, next: Moment) {
    && Enabled(h, now.state, a) && Answered(env, now.clock + Tick(a), now.state, a)
    && next == Moment(now.clock + Tick(a), Apply(h, now.state, a))
  }

  /** The actions lead from one moment to the other: moves of tips, and steps of the crawler
      that get the answers of their moments. */
  ghost predicate Leads(h: History, env: Env, from: Moment, acts: seq<Action>, to: Moment)
    decreases |acts|, 0
  {
    if acts == [] then from == to else LeadsOn(h, env, from, acts[..|acts| - 1], acts[|acts| - 1], to)
  }

  ghost predicate LeadsOn(h: History, env: Env, from: Moment, init: seq<Action>, a: Action, to: Moment)
    decreases |init|, 1
  {
    exists mid :: Leads(h, env, from, init, mid) && IsStep(h, env, mid, a, to)
  }

  /** The repositories fetched from their cursor, in order. */
  function FetchesOf(acts: seq<Action>): seq<string> {
    if acts == [] then [] else FetchesOf(acts[..|acts| - 1]) + FetchOf(acts[|acts| - 1])
  }

  /** A run of the crawler and its environment that crawls these repositories, in order. */
  ghost predicate IsRun(h: History, env: Env, from: Moment, acts: seq<Action>, to: Moment, repos: seq<string>) {
    Leads(h, env, from, acts, to) && FetchesOf(acts) == repos
  }

  /** Such a run is one of the protocol. */
  lemma {:induction false} RunIsLegal(h: History, env: Env, from: Moment, acts: seq<Action>, to: Moment)
    requires Leads(h, env, from, acts, to)
    ensures Legal(h, from.state, acts) && After(h, from.state, acts) == to.state
    decreases |acts|
  {
    if acts != [] {
      var mid :| Leads(h, env, from, acts[..|acts| - 1], mid) && IsStep(h, env, mid, acts[|acts| - 1], to);
      RunIsLegal(h, env, from, acts[..|acts| - 1], mid);
    }
  }

  lemma {:induction false} RunsKeepInv(h: History, env: Env, from: Moment, acts: seq<Action>, to: Moment,
                                       repos: seq<string>)
    requires IsRun(h, env, from, acts, to, repos) && Inv(h, from.state)
    ensures Inv(h, to.state)
  {
    RunIsLegal(h, env, from, acts, to);
    RunKeepsInv(h, from.state, acts);
  }

  lemma {:induction false} OneMoreStep(h: History, env: Env, from: Moment, acts: seq<Action>, now: Moment,
                                       repos: seq<string>, a: Action, next: Moment)
    requires IsRun(h, env, from, acts, now, repos) && IsStep(h, env, now, a, next)
    ensures IsRun(h, env, from, acts + [a], next, repos + FetchOf(a))
  {
    assert (acts + [a])[..|acts|] == acts;
  }

  lemma {:induction false} LeadsCompose(h: History, env: Env, from: Moment, front: seq<Action>, mid: Moment,
                                        back: seq<Action>, to: Moment)
    requires Leads(h, env, from, front, mid) && Leads(h, env, mid, back, to)
    ensures Leads(h, env, from, front + back, to)
    decreases |back|
  {
    if back == [] {
      assert front + back == front;
    } else {
      var init, a := back[..|back| - 1], back[|back| - 1];
      assert LeadsOn(h, env, mid, init, a, to);
      var late :| Leads(h, env, mid, init, late) && IsStep(h, env, late, a, to);
      LeadsCompose(h, env, from, front, mid, init, late);
      assert (front + back)[..|front + back| - 1] == front + init;
    }
  }

  lemma {:induction false} FetchesOfBoth(front: seq<Action>, back: seq<Action>)
    ensures FetchesOf(front + back) == FetchesOf(front) + FetchesOf(back)
  {
    if back == [] {
      assert front + back == front;
    } else {
      var init := back[..|back| - 1];
      assert (front + back)[..|front + back| - 1] == front + init;
      FetchesOfBoth(front, init);
    }
  }

  lemma RunsCompose(h: History, env: Env, from: Moment, front: seq<Action>, mid: Moment,
                    back: seq<Action>, to: Moment, repos: seq<string>, more: seq<string>)
    requires IsRun(h, env, from, front, mid, repos) && IsRun(h, env, mid, back, to, more)
    ensures IsRun(h, env, from, front + back, to, repos + more)
  {
    LeadsCompose(h, env, from, front, mid, back, to);
    FetchesOfBoth(front, back);
  }

  function Differing(tips: map<string, string>, goal: map<string, string>): set<string> {
    set repo | repo in goal && (repo !in tips || tips[repo] != goal[repo])
  }

  /** Moves of tips from where they stand to where the next step finds them. */
  lemma {:induction false} TipsMove(h: History, env: Env, now: Moment,
                                    goal: map<string, string>) returns (acts: seq<Action>)
    requires now.state.tips.Keys <= goal.Keys
    ensures IsRun(h, env, now, acts, now.(state := now.state.(tips := goal)), [])
    decreases Differing(now.state.tips, goal)
  {
    var tips := now.state.tips;
    acts := [];
    if Differing(tips, goal) == {} {
      assert forall repo :: repo in goal ==> repo !in Differing(tips, goal);
      assert tips == goal;
    } else {
      var repo :| repo in Differing(tips, goal);
      var a := MoveTip(repo, goal[repo]);
      var next := Moment(now.clock, Apply(h, now.state, a));
      OneMoreStep(h, env, now, [], now, [], a, next);
      assert Differing(next.state.tips, goal) == Differing(tips, goal) - {repo};
      var rest := TipsMove(h, env, next, goal);
      RunsCompose(h, env, now, [] + [a], next, rest, now.(state := now.state.(tips := goal)), [] + FetchOf(a), []);
      acts := ([] + [a]) + rest;
    }
  }

  /** The tips move, then the crawler takes a step. */
  lemma {:induction false} Step(h: History, env: Env, now: Moment, a: Action, next: Moment) returns (acts: seq<Action>)
    requires Faithful(h, env) && now.state.tips == env.tips(now.clock) && !a.MoveTip?
    requires Enabled(h, Found(env, now), a) && GotAnswer(env, now.clock + 1, Found(env, now), a)
    requires next == Moment(now.clock + 1, Apply(h, Found(env, now), a))
    ensures IsRun(h, env, now, acts, next, FetchOf(a))
  {
    assert TipsStay(env, now.clock);
    var moves := TipsMove(h, env, now, env.tips(now.clock + 1));
    OneMoreStep(h, env, now, moves, now.(state := Found(env, now)), [], a, next);
    acts := moves + [a];
  }

  // ---- the answers a crawl gets

  predicate Retries(env: Env, n: nat, repo: string, since: string) {
    env.listings(n + 1, repo, since).Failed? && since != ""
  }

  /** When the last fetch of a crawl begun at n takes place. */
  function FetchedAt(env: Env, n: nat, repo: string, since: string): nat {
    if Retries(env, n, repo, since) then n + 3 else n + 1
  }

  /** The answer the crawl of a repository ends up with. */
  function FinalAnswer(env: Env, n: nat, repo: string, since: string): Answer {
    env.listings(FetchedAt(env, n, repo, since), repo, if Retries(env, n, repo, since) then "" else since)
  }

  /** The cursors after a crawl: set to the newest commit, or else perhaps forgotten. */
  function Advanced(cursors: map<string, string>, repo: string, forgotten: bool, commits: seq<string>, saved: bool)
    : map<string, string>
  {
    if saved && commits != [] then cursors[repo := commits[0]] else if forgotten then cursors - {repo} else cursors
  }

  lemma AdvancedTwice(cursors: map<string, string>, repo: string, forgotten: bool, commits: seq<string>, saved: bool)
    ensures Advanced(Advanced(cursors, repo, forgotten, [], false), repo, false, commits, saved)
         == Advanced(cursors, repo, forgotten, commits, saved)
  {
  }

  /** After the last fetch of a repository: nothing to do, or a batch to publish. */
  ghost predicate Fetched(s: State, repo: string, answer: Answer) {
    if answer.Failed? then s.phase.Idle?
    else if answer.commits == [] then s.phase.Idle? && (repo in s.tips ==> Handed(repo, s.tips[repo]) in s.crawled)
    else repo in s.tips && s.phase == Publishing(repo, s.tips[repo], answer.commits, 0)
  }

  lemma ReceivedFetched(h: History, s: State, repo: string, since: string, answer: Answer)
    requires answer.Commits? && Answers(h, s.tips, repo, since, answer)
    ensures Fetched(Received(s, repo, answer.commits), repo, answer)
  {
  }

  lemma HandedFromNext(repo: string, commits: seq<string>, i: nat)
    requires i < |commits|
    ensures HandedFrom(repo, commits[..i + 1]) == HandedFrom(repo, commits[..i]) + [Handed(repo, commits[i])]
  {
  }

  /** `clock` counts the steps taken; the ghost fields are the environment as it stands, and what
      the protocol keeps account of. */
  class Crawler {
    ghost const h: History
    const env: Env
    var clock: nat
    var store: map<string, string>
    var cursors: map<string, string>
    var loaded: bool
    var published: seq<Handed>
    ghost var tips: map<string, string>
    ghost var crawled: set<Handed>
    ghost var phase: Phase

    ghost function Now(): Moment
      reads this
    {
      Moment(clock, State(tips, store, loaded, cursors, phase, published, crawled))
    }

    /** The client and the store are faithful, and nothing has been missed. */
    ghost predicate Connected()
      reads this
    {
      Faithful(h, env) && tips == env.tips(clock) && Inv(h, Now().state)
    }

    ghost predicate Valid()
      reads this
    {
      Connected() && phase.Idle?
    }

    /** A new process over what the store and the publisher already hold. */
    constructor (env: Env, clock: nat, store: map<string, string>, published: seq<Handed>,
                 ghost h: History, ghost before: State)
      requires Faithful(h, env) && Inv(h, before) && before.tips == env.tips(clock)
      requires before.store == store && before.published == published
      ensures this.h == h && this.env == env && Valid() && Now() == Moment(clock, Apply(h, before, Restart))
    {
      this.h, this.env, this.clock, this.store, this.published := h, env, clock, store, published;
      cursors, loaded := map[], false;
      tips, crawled, phase := before.tips, before.crawled, Idle;
      new;
      StepKeepsInv(h, before, Restart);
    }

    method CrawlCommits(repo: string) returns (hasNew: bool, ok: bool, ghost acts: seq<Action>)
      requires Valid() && loaded
      modifies this
      ensures Valid() && loaded && IsRun(h, env, old(Now()), acts, Now(), [repo])
      ensures var since := CursorOf(old(cursors), repo);
        var n, answer := FetchedAt(env, old(clock), repo, since), FinalAnswer(env, old(clock), repo, since);
        && n <= clock && (ok <==> answer.Commits?)
        && (ok && repo in env.tips(n) ==> AllHanded(h, published, repo, env.tips(n)[repo]))
      ensures var since := CursorOf(old(cursors), repo);
        var commits := if ok then FinalAnswer(env, old(clock), repo, since).commits else [];
        && hasNew == (commits != []) && published == old(published) + HandedFrom(repo, commits)
        && cursors == Advanced(old(cursors), repo, Retries(env, old(clock), repo, since), commits,
                               env.saves(clock, repo).Saved?)
        && store == Advanced(old(store), repo,
                             Retries(env, old(clock), repo, since) && env.clears(old(clock) + 2, repo), commits,
                             !env.saves(clock, repo).NotSaved?)
    {
      var answer;
      ghost var front, back;
      answer, front := FetchCommits(repo);
      if answer.Failed? || answer.commits == [] {
        return false, answer.Commits?, front;
      }
      ghost var fetched := Now();
      back := PublishAndSave(repo, answer.commits);
      AdvancedTwice(old(cursors), repo, Retries(env, old(clock), repo, CursorOf(old(cursors), repo)), answer.commits,
                    env.saves(clock, repo).Saved?);
      AdvancedTwice(old(store), repo,
                    Retries(env, old(clock), repo, CursorOf(old(cursors), repo)) && env.clears(old(clock) + 2, repo),
                    answer.commits, !env.saves(clock, repo).NotSaved?);
      RunsCompose(h, env, old(Now()), front, fetched, back, Now(), [repo], []);
      return true, true, front + back;
    }

    method PublishAndSave(repo: string, commits: seq<string>) returns (ghost acts: seq<Action>)
      requires Connected() && commits != [] && phase.Publishing? && phase == Publishing(repo, phase.tip, commits, 0)
      modifies this`clock, this`tips, this`store, this`cursors, this`phase, this`published, this`crawled
      ensures Valid() && clock > old(clock) && IsRun(h, env, old(Now()), acts, Now(), [])
      ensures published == old(published) + HandedFrom(repo, commits)
      ensures AllHanded(h, published, repo, old(phase).tip)
      ensures store == Advanced(old(store), repo, false, commits, !env.saves(clock, repo).NotSaved?)
      ensures cursors == Advanced(old(cursors), repo, false, commits, env.saves(clock, repo).Saved?)
    {
      ghost var front := PublishAll(repo, commits);
      ghost var handed := Now();
      ghost var back := SaveCursor(repo, commits);
      RunsCompose(h, env, old(Now()), front, handed, back, Now(), [], []);
      assert Handed(repo, old(phase).tip) in crawled;
      return front + back;
    }

    /** Fetches from the cursor on; if that fails, clears the cursor and fetches everything. */
    method FetchCommits(repo: string) returns (answer: Answer, ghost acts: seq<Action>)
      requires Valid() && loaded
      modifies this`clock, this`tips, this`store, this`cursors, this`phase, this`crawled
      ensures Connected() && IsRun(h, env, old(Now()), acts, Now(), [repo])
      ensures var since := CursorOf(old(cursors), repo);
        && clock == FetchedAt(env, old(clock), repo, since) && answer == FinalAnswer(env, old(clock), repo, since)
        && cursors == Advanced(old(cursors), repo, Retries(env, old(clock), repo, since), [], false)
        && store == Advanced(old(store), repo,
                             Retries(env, old(clock), repo, since) && env.clears(old(clock) + 2, repo), [], false)
      ensures Fetched(Now().state, repo, answer)
    {
      var since := CursorOf(cursors, repo);
      answer, acts := FetchFrom(repo, since);
      if answer.Failed? && since != "" {
        ghost var failed, more := Now(), [];
        answer, more := FetchAll(repo);
        RunsCompose(h, env, old(Now()), acts, failed, more, Now(), [repo], []);
        acts := acts + more;
      }
    }

    method FetchFrom(repo: string, since: string) returns (answer: Answer, ghost acts: seq<Action>)
      requires Valid() && loaded && since == CursorOf(cursors, repo)
      modifies this`clock, this`tips, this`phase, this`crawled
      ensures Connected() && clock == old(clock) + 1 && answer == env.listings(clock, repo, since)
      ensures IsRun(h, env, old(Now()), acts, Now(), [repo])
      ensures if answer.Failed? && since != "" then phase == Clearing(repo) else Fetched(Now().state, repo, answer)
    {
      answer := env.listings(clock + 1, repo, since);
      assert Lists(h, env, clock + 1, repo, since);
      if answer.Commits? {
        ReceivedFetched(h, Found(env, Now()), repo, since, answer);
      }
      ghost var next := Apply(h, Found(env, Now()), Fetch(repo, answer));
      acts := Step(h, env, Now(), Fetch(repo, answer), Moment(clock + 1, next));
      clock, tips, phase, crawled := clock + 1, next.tips, next.phase, next.crawled;
      RunsKeepInv(h, env, old(Now()), acts, Now(), [repo]);
    }

    /** Forgets the cursor, in memory for certain and in the store if the call has effect,
        and fetches from the beginning. */
    method FetchAll(repo: string) returns (answer: Answer, ghost acts: seq<Action>)
      requires Connected() && phase == Clearing(repo)
      modifies this`clock, this`tips, this`store, this`cursors, this`phase, this`crawled
      ensures Connected() && clock == old(clock) + 2 && answer == env.listings(clock, repo, "")
      ensures IsRun(h, env, old(Now()), acts, Now(), []) && Fetched(Now().state, repo, answer)
      ensures cursors == old(cursors) - {repo}
      ensures store == if env.clears(old(clock) + 1, repo) then old(store) - {repo} else old(store)
    {
      acts := ClearCursor(repo);
      ghost var cleared, more := Now(), [];
      answer, more := Refetch(repo);
      RunsCompose(h, env, old(Now()), acts, cleared, more, Now(), [], []);
      acts := acts + more;
    }

    method ClearCursor(repo: string) returns (ghost acts: seq<Action>)
      requires Connected() && phase == Clearing(repo)
      modifies this`clock, this`tips, this`store, this`cursors, this`phase
      ensures Connected() && clock == old(clock) + 1 && phase == Refetching(repo)
      ensures IsRun(h, env, old(Now()), acts, Now(), []) && cursors == old(cursors) - {repo}
      ensures store == if env.clears(clock, repo) then old(store) - {repo} else old(store)
    {
      var effective := env.clears(clock + 1, repo);
      acts := Step(h, env, Now(), Clear(effective), Moment(clock + 1, Apply(h, Found(env, Now()), Clear(effective))));
      if effective {
        store := store - {repo};
      }
      cursors := cursors - {repo};
      clock, tips, phase := clock + 1, env.tips(clock + 1), Refetching(repo);
      RunsKeepInv(h, env, old(Now()), acts, Now(), []);
    }

    method Refetch(repo: string) returns (answer: Answer, ghost acts: seq<Action>)
      requires Connected() && phase == Refetching(repo)
      modifies this`clock, this`tips, this`phase, this`crawled
      ensures Connected() && clock == old(clock) + 1 && answer == env.listings(clock, repo, "")
      ensures IsRun(h, env, old(Now()), acts, Now(), []) && Fetched(Now().state, repo, answer)
    {
      answer := env.listings(clock + 1, repo, "");
      assert Lists(h, env, clock + 1, repo, "");
      if answer.Commits? {
        ReceivedFetched(h, Found(env, Now()), repo, "", answer);
      }
      ghost var next := Apply(h, Found(env, Now()), Action.Refetch(answer));
      acts := Step(h, env, Now(), Action.Refetch(answer), Moment(clock + 1, next));
      clock, tips, phase, crawled := clock + 1, next.tips, next.phase, next.crawled;
      RunsKeepInv(h, env, old(Now()), acts, Now(), []);
    }

    /** Hands the commits over in order; a failed publish is logged and passed over. */
    method PublishAll(repo: string, commits: seq<string>) returns (ghost acts: seq<Action>)
      requires Connected() && phase.Publishing? && phase == Publishing(repo, phase.tip, commits, 0)
      modifies this`clock, this`tips, this`published, this`phase
      ensures Connected() && clock == old(clock) + |commits| && IsRun(h, env, old(Now()), acts, Now(), [])
      ensures phase == old(phase).(next := |commits|) && published == old(published) + HandedFrom(repo, commits)
    {
      acts := [];
      for i := 0 to |commits|
        invariant Connected() && clock == old(clock) + i && IsRun(h, env, old(Now()), acts, Now(), [])
        invariant phase == old(phase).(next := i) && published == old(published) + HandedFrom(repo, commits[..i])
      {
        ghost var before := Now();
        ghost var more := PublishNext(repo, commits, i);
        RunsCompose(h, env, old(Now()), acts, before, more, Now(), [], []);
        acts := acts + more;
        HandedFromNext(repo, commits, i);
        ConcatAssociative(old(published), HandedFrom(repo, commits[..i]), [Handed(repo, commits[i])]);
      }
      assert commits[..|commits|] == commits;
    }

    method PublishNext(repo: string, commits: seq<string>, i: nat) returns (ghost acts: seq<Action>)
      requires Connected() && i < |commits| && phase.Publishing? && phase == Publishing(repo, phase.tip, commits, i)
      modifies this`clock, this`tips, this`published, this`phase
      ensures Connected() && clock == old(clock) + 1 && IsRun(h, env, old(Now()), acts, Now(), [])
      ensures phase == old(phase).(next := i + 1) && published == old(published) + [Handed(repo, commits[i])]
    {
      acts := Step(h, env, Now(), Publish, Moment(clock + 1, Apply(h, Found(env, Now()), Publish)));
      published := published + [Handed(repo, commits[i])];
      clock, tips, phase := clock + 1, env.tips(clock + 1), phase.(next := i + 1);
      RunsKeepInv(h, env, old(Now()), acts, Now(), []);
    }

    /** Stores the newest commit as the cursor, and remembers it only if the store accepted it. */
    method SaveCursor(repo: string, commits: seq<string>) returns (ghost acts: seq<Action>)
      requires Connected() && commits != []
      requires phase.Publishing? && phase == Publishing(repo, phase.tip, commits, |commits|)
      modifies this`clock, this`tips, this`store, this`cursors, this`phase, this`crawled
      ensures Valid() && clock == old(clock) + 1 && IsRun(h, env, old(Now()), acts, Now(), [])
      ensures store == if env.saves(clock, repo).NotSaved? then old(store) else old(store)[repo := commits[0]]
      ensures cursors == if env.saves(clock, repo).Saved? then old(cursors)[repo := commits[0]] else old(cursors)
      ensures crawled == old(crawled) + {Handed(repo, old(phase).tip)}
    {
      var outcome := env.saves(clock + 1, repo);
      acts := Step(h, env, Now(), Save(outcome), Moment(clock + 1, Apply(h, Found(env, Now()), Save(outcome))));
      crawled, phase := crawled + {Handed(repo, phase.tip)}, Idle;
      if !outcome.NotSaved? {
        store := store[repo := commits[0]];
      }
      if outcome.Saved? {
        cursors := cursors[repo := commits[0]];
      }
      clock, tips := clock + 1, env.tips(clock + 1);
      RunsKeepInv(h, env, old(Now()), acts, Now(), []);
    }

    /** Crawls the repositories of one project in turn; one that fails does not stop the rest. */
    method CrawlProject(repos: seq<string>) returns (ghost acts: seq<Action>)
      requires Valid() && loaded
      modifies this
      ensures Valid() && loaded && clock >= old(clock) && IsRun(h, env, old(Now()), acts, Now(), repos)
      ensures old(published) <= published
      ensures AllDelivered(h, env, published, repos, |repos|, old(clock), clock)
    {
      acts := [];
      for i := 0 to |repos|
        invariant Valid() && loaded && clock >= old(clock) && IsRun(h, env, old(Now()), acts, Now(), repos[..i])
        invariant old(published) <= published
        invariant AllDelivered(h, env, published, repos, i, old(clock), clock)
      {
        acts := CrawlNext(repos, i, old(Now()), acts);
      }
      assert repos[..|repos|] == repos;
    }

    method CrawlNext(repos: seq<string>, i: nat, ghost start: Moment, ghost done: seq<Action>)
      returns (ghost acts: seq<Action>)
      requires Valid() && loaded && i < |repos| && start.clock <= clock
      requires IsRun(h, env, start, done, Now(), repos[..i])
      requires AllDelivered(h, env, published, repos, i, start.clock, clock)
      modifies this
      ensures Valid() && loaded && clock >= old(clock) && old(published) <= published
      ensures IsRun(h, env, start, acts, Now(), repos[..i + 1])
      ensures AllDelivered(h, env, published, repos, i + 1, start.clock, clock)
    {
      ghost var before, more := Now(), [];
      more := CrawlRepo(repos[i]);
      RunsCompose(h, env, start, done, before, more, Now(), repos[..i], [repos[i]]);
      acts := done + more;
      assert repos[..i + 1] == repos[..i] + [repos[i]];
      OneMoreDelivered(h, env, before.state.published, published, repos, i, start.clock, before.clock, clock);
    }

    method CrawlRepo(repo: string) returns (ghost acts: seq<Action>)
      requires Valid() && loaded
      modifies this
      ensures Valid() && loaded && clock >= old(clock) && IsRun(h, env, old(Now()), acts, Now(), [repo])
      ensures old(published) <= published && Delivered(h, env, published, repo, old(clock), clock)
    {
      ghost var since := CursorOf(cursors, repo);
      var hasNew, ok;
      hasNew, ok, acts := CrawlCommits(repo);
      ghost var n := FetchedAt(env, old(clock), repo, since);
      assert Listable(env, repo, old(clock), clock) ==> ok by {
        assert old(clock) < n <= clock && old(clock) + 1 <= n;
      }
      assert ok ==> HandedAt(h, env, published, repo, n);
    }

    /** One tick. */
    method Crawl(projects: seq<Option<seq<string>>>) returns (ghost acts: seq<Action>)
      requires Valid()
      modifies this
      ensures Valid() && loaded && IsRun(h, env, old(Now()), acts, Now(), ReposOf(projects, |projects|))
      ensures AllListed(h, env, published, projects, |projects|, old(clock), clock)
    {
      ghost var front := Hydrate();
      ghost var ready := Now();
      ghost var back := CrawlProjects(projects);
      RunsCompose(h, env, old(Now()), front, ready, back, Now(), [], ReposOf(projects, |projects|));
      assert [] + ReposOf(projects, |projects|) == ReposOf(projects, |projects|);
      StillListed(h, env, published, published, projects, |projects|, ready.clock, clock, old(clock), clock);
      acts := front + back;
    }

    /** Loads the stored cursors once per process; if that fails, starts without. */
    method Hydrate() returns (ghost acts: seq<Action>)
      requires Valid()
      modifies this`clock, this`tips, this`cursors, this`loaded
      ensures Valid() && loaded && clock >= old(clock) && IsRun(h, env, old(Now()), acts, Now(), [])
      ensures cursors == if old(loaded) then old(cursors) else if env.loads(clock) then store else map[]
    {
      if loaded {
        return [];
      }
      var ok := env.loads(clock + 1);
      acts := Step(h, env, Now(), Load(ok), Moment(clock + 1, Apply(h, Found(env, Now()), Load(ok))));
      cursors := if ok then store else map[];
      loaded, clock, tips := true, clock + 1, env.tips(clock + 1);
      RunsKeepInv(h, env, old(Now()), acts, Now(), []);
    }

    /** A project whose repositories cannot be listed is passed over. */
    method CrawlProjects(projects: seq<Option<seq<string>>>) returns (ghost acts: seq<Action>)
      requires Valid() && loaded
      modifies this
      ensures Valid() && loaded && clock >= old(clock)
      ensures IsRun(h, env, old(Now()), acts, Now(), ReposOf(projects, |projects|))
      ensures AllListed(h, env, published, projects, |projects|, old(clock), clock)
    {
      acts := [];
      for p := 0 to |projects|
        invariant Valid() && loaded && clock >= old(clock)
        invariant IsRun(h, env, old(Now()), acts, Now(), ReposOf(projects, p))
        invariant AllListed(h, env, published, projects, p, old(clock), clock)
      {
        acts := CrawlIfListed(projects, p, old(Now()), acts);
      }
    }

    method CrawlIfListed(projects: seq<Option<seq<string>>>, p: nat, ghost start: Moment, ghost done: seq<Action>)
      returns (ghost acts: seq<Action>)
      requires Valid() && loaded && p < |projects| && start.clock <= clock
      requires IsRun(h, env, start, done, Now(), ReposOf(projects, p))
      requires AllListed(h, env, published, projects, p, start.clock, clock)
      modifies this
      ensures Valid() && loaded && clock >= old(clock)
      ensures IsRun(h, env, start, acts, Now(), ReposOf(projects, p + 1))
      ensures AllListed(h, env, published, projects, p + 1, start.clock, clock)
    {
      acts := done;
      if projects[p].Some? {
        ghost var before := Now();
        ghost var more := CrawlProject(projects[p].value);
        RunsCompose(h, env, start, done, before, more, Now(), ReposOf(projects, p), projects[p].value);
        acts := done + more;
        OneMoreListed(h, env, before.state.published, published, projects, p, start.clock, before.clock, clock);
      } else {
        assert ReposOf(projects, p + 1) == ReposOf(projects, p);
      }
    }
  }

  // ---- what a tick delivers

  /** The server can list all of the repository throughout. */
  ghost predicate Listable(env: Env, repo: string, after: nat, until: nat) {
    forall n :: after < n <= until ==> env.listings(n, repo, "").Commits?
  }

  /** Everything below the tip of moment n is handed over. */
  ghost predicate HandedAt(h: History, env: Env, published: seq<Handed>, repo: string, n: nat) {
    repo in env.tips(n) ==> AllHanded(h, published, repo, env.tips(n)[repo])
  }

  /** If the repository could be listed throughout, all ancestors of its tip, as it stood at
      some moment meanwhile, are handed over. */
  ghost predicate Delivered(h: History, env: Env, published: seq<Handed>, repo: string, after: nat, until: nat) {
    Listable(env, repo, after, until) ==> exists n :: after < n <= until && HandedAt(h, env, published, repo, n)
  }

  ghost predicate AllDelivered(h: History, env: Env, published: seq<Handed>, repos: seq<string>, k: nat,
                               after: nat, until: nat)
    requires k <= |repos|
  {
    forall i :: 0 <= i < k ==> Delivered(h, env, published, repos[i], after, until)
  }

  lemma StaysDelivered(h: History, env: Env, before: seq<Handed>, later: seq<Handed>, repo: string,
                       after: nat, until: nat, after': nat, until': nat)
    requires before <= later && Delivered(h, env, before, repo, after, until) && after' <= after && until <= until'
    ensures Delivered(h, env, later, repo, after', until')
  {
    if Listable(env, repo, after', until') {
      var n :| after < n <= until && HandedAt(h, env, before, repo, n);
      assert forall c :: c in before ==> c in later;
      assert HandedAt(h, env, later, repo, n);
    }
  }

  lemma OneMoreDelivered(h: History, env: Env, before: seq<Handed>, later: seq<Handed>, repos: seq<string>, k: nat,
                         after: nat, mid: nat, until: nat)
    requires k < |repos| && before <= later && after <= mid <= until
    requires AllDelivered(h, env, before, repos, k, after, mid) && Delivered(h, env, later, repos[k], mid, until)
    ensures AllDelivered(h, env, later, repos, k + 1, after, until)
  {
    forall i | 0 <= i < k ensures Delivered(h, env, later, repos[i], after, until) {
      StaysDelivered(h, env, before, later, repos[i], after, mid, after, until);
    }
    StaysDelivered(h, env, later, later, repos[k], mid, until, after, until);
  }

  /** Every repository of the first k projects that could be listed is delivered. */
  ghost predicate AllListed(h: History, env: Env, published: seq<Handed>, projects: seq<Option<seq<string>>>, k: nat,
                            after: nat, until: nat)
    requires k <= |projects|
  {
    forall p :: 0 <= p < k && projects[p].Some? ==>
      AllDelivered(h, env, published, projects[p].value, |projects[p].value|, after, until)
  }

  lemma StillListed(h: History, env: Env, before: seq<Handed>, later: seq<Handed>, projects: seq<Option<seq<string>>>,
                    k: nat, after: nat, until: nat, after': nat, until': nat)
    requires k <= |projects| && before <= later && after' <= after && until <= until'
    requires AllListed(h, env, before, projects, k, after, until)
    ensures AllListed(h, env, later, projects, k, after', until')
  {
    forall p | 0 <= p < k && projects[p].Some?
      ensures AllDelivered(h, env, later, projects[p].value, |projects[p].value|, after', until')
    {
      forall i | 0 <= i < |projects[p].value|
        ensures Delivered(h, env, later, projects[p].value[i], after', until')
      {
        StaysDelivered(h, env, before, later, projects[p].value[i], after, until, after', until');
      }
    }
  }

  lemma OneMoreListed(h: History, env: Env, before: seq<Handed>, later: seq<Handed>, projects: seq<Option<seq<string>>>,
                      k: nat, after: nat, mid: nat, until: nat)
    requires k < |projects| && before <= later && after <= mid <= until && projects[k].Some?
    requires AllListed(h, env, before, projects, k, after, mid)
    requires AllDelivered(h, env, later, projects[k].value, |projects[k].value|, mid, until)
    ensures AllListed(h, env, later, projects, k + 1, after, until)
  {
    StillListed(h, env, before, later, projects, k, after, mid, after, until);
    forall i | 0 <= i < |projects[k].value| ensures Delivered(h, env, later, projects[k].value[i], after, until) {
      StaysDelivered(h, env, later, later, projects[k].value[i], mid, until, after, until);
    }
  }

  /** The repositories of the first n projects; one that cannot be listed has none. */
  function ReposOf(projects: seq<Option<seq<string>>>, n: nat): seq<string>
    requires n <= |projects|
  {
    if n == 0 then [] else ReposOf(projects, n - 1) + if projects[n - 1].Some? then projects[n - 1].value else []
  }
}
