/** The incremental commit crawler as a protocol.  A commit's parents are fixed by its
    SHA, so the history is an immutable graph in which only the tips of the repositories
    move, by pushes or by rewriting.  Between any two steps of the crawler tips may move
    and the process may restart; every call to the client or the store may fail. */
module Bitbucket {
  import opened Seqs

  /** The parents of a commit of a repository. */
  type History = (string, string) -> set<string>

  datatype Handed = Handed(repo: string, sha: string)

  function HandedFrom(repo: string, commits: seq<string>): seq<Handed> {
    Map(commits, (sha: string) => Handed(repo, sha))
  }

  ghost predicate ReachesIn(h: History, repo: string, a: string, b: string, steps: nat)
    decreases steps
  {
    if steps == 0 then a == b
    else exists p :: p in h(repo, a) && ReachesIn(h, repo, p, b, steps - 1)
  }

  /** b is a or one of its ancestors. */
  ghost predicate Reaches(h: History, repo: string, a: string, b: string) {
    exists steps: nat :: ReachesIn(h, repo, a, b, steps)
  }

  lemma ReachesSelf(h: History, repo: string, a: string)
    ensures Reaches(h, repo, a, a)
  {
    assert ReachesIn(h, repo, a, a, 0);
  }

  lemma {:induction false} ReachesInTransitive(h: History, repo: string, a: string, b: string, c: string, m: nat,
                                               n: nat)
    requires ReachesIn(h, repo, a, b, m) && ReachesIn(h, repo, b, c, n)
    ensures ReachesIn(h, repo, a, c, m + n)
    decreases m
  {
    if m > 0 {
      var p :| p in h(repo, a) && ReachesIn(h, repo, p, b, m - 1);
      ReachesInTransitive(h, repo, p, b, c, m - 1, n);
    }
  }

  lemma ReachesTransitive(h: History, repo: string, a: string, b: string, c: string)
    requires Reaches(h, repo, a, b) && Reaches(h, repo, b, c)
    ensures Reaches(h, repo, a, c)
  {
    var m: nat :| ReachesIn(h, repo, a, b, m);
    var n: nat :| ReachesIn(h, repo, b, c, n);
    ReachesInTransitive(h, repo, a, b, c, m, n);
  }

  // ---- the state and its steps

  /** Where the crawler stands within a tick. */
  datatype Phase =
    | Idle
    | Clearing(repo: string)
    | Refetching(repo: string)
    | Publishing(repo: string, tip: string, commits: seq<string>, next: nat)

  /** The environment (tips, store), the process (loaded, cursors, phase), the publisher's
      log, and the tips whose crawl has come to its end. */
  datatype State = State(
    tips: map<string, string>, store: map<string, string>, loaded: bool, cursors: map<string, string>,
    phase: Phase, published: seq<Handed>, crawled: set<Handed>)

  const Start := State(map[], map[], false, map[], Idle, [], {})

  datatype Answer = Commits(commits: seq<string>) | Failed

  /** A save that reports an error may have taken effect all the same. */
  datatype SaveOutcome = Saved | NotSaved | SavedButFailed

  datatype Action =
    | MoveTip(repo: string, sha: string)
    | Restart
    | Load(ok: bool)
    | Fetch(repo: string, answer: Answer)
    | Clear(effective: bool)
    | Refetch(answer: Answer)
    | Publish
    | Save(outcome: SaveOutcome)

  function CursorOf(cursors: map<string, string>, repo: string): string {
    if repo in cursors then cursors[repo] else ""
  }

  /** What the server lists: the commits of the tip that are not commits of `since`, the tip
      first and every other commit after one of its children. */
  ghost predicate IsListing(h: History, tips: map<string, string>, repo: string, since: string, commits: seq<string>) {
    if repo !in tips then commits == []
    else
      && (forall x :: x in commits <==> Reaches(h, repo, tips[repo], x) && !(since != "" && Reaches(h, repo, since, x)))
      && (forall i :: 0 <= i < |commits| ==> commits[i] == tips[repo] || HasEarlierChild(h, repo, commits, i))
      && NoDuplicates(commits) && "" !in commits
  }

  ghost predicate HasEarlierChild(h: History, repo: string, commits: seq<string>, i: nat)
    requires i < |commits|
  {
    exists j :: 0 <= j < i && commits[i] in h(repo, commits[j])
  }

  ghost predicate Answers(h: History, tips: map<string, string>, repo: string, since: string, answer: Answer) {
    answer.Commits? ==> IsListing(h, tips, repo, since, answer.commits)
  }

  ghost predicate Enabled(h: History, s: State, a: Action) {
    match a
    case MoveTip(_, _) => true
    case Restart => true
    case Load(_) => s.phase.Idle? && !s.loaded
    case Fetch(repo, answer) =>
      s.phase.Idle? && s.loaded && Answers(h, s.tips, repo, CursorOf(s.cursors, repo), answer)
    case Clear(_) => s.phase.Clearing?
    case Refetch(answer) => s.phase.Refetching? && Answers(h, s.tips, s.phase.repo, "", answer)
    case Publish => s.phase.Publishing? && s.phase.next < |s.phase.commits|
    case Save(_) => s.phase.Publishing? && s.phase.next == |s.phase.commits| > 0
  }

  /** The end of a successful fetch: publish what was listed, or be done with the repo. */
  function Received(s: State, repo: string, commits: seq<string>): State {
    if repo !in s.tips then s.(phase := Idle)
    else if commits == [] then s.(phase := Idle, crawled := s.crawled + {Handed(repo, s.tips[repo])})
    else s.(phase := Publishing(repo, s.tips[repo], commits, 0))
  }

  ghost function Apply(h: History, s: State, a: Action): State
    requires Enabled(h, s, a)
  {
    match a
    case MoveTip(repo, sha) => s.(tips := s.tips[repo := sha])
    case Restart => s.(loaded := false, cursors := map[], phase := Idle)
    case Load(ok) => s.(loaded := true, cursors := if ok then s.store else map[])
    case Fetch(repo, answer) =>
      if answer.Commits? then Received(s, repo, answer.commits)
      else if CursorOf(s.cursors, repo) != "" then s.(phase := Clearing(repo))
      else s
    case Clear(effective) =>
      var repo := s.phase.repo;
      s.(store := if effective then s.store - {repo} else s.store, cursors := s.cursors - {repo},
         phase := Refetching(repo))
    case Refetch(answer) =>
      if answer.Commits? then Received(s, s.phase.repo, answer.commits) else s.(phase := Idle)
    case Publish =>
      s.(published := s.published + [Handed(s.phase.repo, s.phase.commits[s.phase.next])],
         phase := s.phase.(next := s.phase.next + 1))
    case Save(outcome) =>
      var repo, newest := s.phase.repo, s.phase.commits[0];
      s.(store := if outcome.NotSaved? then s.store else s.store[repo := newest],
         cursors := if outcome.Saved? then s.cursors[repo := newest] else s.cursors,
         phase := Idle, crawled := s.crawled + {Handed(repo, s.phase.tip)})
  }

  /** The actions can be taken one after the other from s. */
  ghost predicate Legal(h: History, s: State, acts: seq<Action>)
    decreases |acts|, 0
  {
    acts != [] ==>
      var init := acts[..|acts| - 1];
      Legal(h, s, init) && Enabled(h, After(h, s, init), acts[|acts| - 1])
  }

  ghost function After(h: History, s: State, acts: seq<Action>): State
    requires Legal(h, s, acts)
    decreases |acts|, 1
  {
    if acts == [] then s else Apply(h, After(h, s, acts[..|acts| - 1]), acts[|acts| - 1])
  }

  lemma OneMore(h: History, s: State, acts: seq<Action>, a: Action)
    requires Legal(h, s, acts) && Enabled(h, After(h, s, acts), a)
    ensures Legal(h, s, acts + [a]) && After(h, s, acts + [a]) == Apply(h, After(h, s, acts), a)
  {
    assert (acts + [a])[..|acts|] == acts;
  }

  // ---- safety

  /** The commit and all its ancestors have been handed to the publisher. */
  ghost predicate AllHanded(h: History, published: seq<Handed>, repo: string, sha: string) {
    forall x :: Reaches(h, repo, sha, x) ==> Handed(repo, x) in published
  }

  ghost predicate CursorsCovered(h: History, published: seq<Handed>, cursors: map<string, string>) {
    forall repo :: repo in cursors ==> AllHanded(h, published, repo, cursors[repo])
  }

  /** Every ancestor of the tip being crawled is handed over or still to come. */
  ghost predicate BatchCovers(h: History, published: seq<Handed>, phase: Phase) {
    phase.Publishing? ==>
      && 0 <= phase.next <= |phase.commits| && 0 < |phase.commits| && phase.commits[0] == phase.tip
      && forall x :: Reaches(h, phase.repo, phase.tip, x) ==>
           Handed(phase.repo, x) in published || x in phase.commits[phase.next..]
  }

  ghost predicate Inv(h: History, s: State) {
    && CursorsCovered(h, s.published, s.cursors)
    && CursorsCovered(h, s.published, s.store)
    && BatchCovers(h, s.published, s.phase)
    && forall c :: c in s.crawled ==> AllHanded(h, s.published, c.repo, c.sha)
  }

  lemma ListingStartsAtTip(h: History, tips: map<string, string>, repo: string, since: string, commits: seq<string>)
    requires IsListing(h, tips, repo, since, commits) && commits != []
    ensures repo in tips && commits[0] == tips[repo]
  {
  }

  lemma ReceivedKeepsInv(h: History, s: State, repo: string, since: string, commits: seq<string>)
    requires Inv(h, s) && IsListing(h, s.tips, repo, since, commits)
    requires since != "" ==> AllHanded(h, s.published, repo, since)
    ensures Inv(h, Received(s, repo, commits))
  {
    if repo in s.tips && commits != [] {
      ListingStartsAtTip(h, s.tips, repo, since, commits);
      assert commits[0..] == commits;
    }
  }

  lemma AppendKeepsHanded(h: History, published: seq<Handed>, x: Handed, repo: string, sha: string)
    requires AllHanded(h, published, repo, sha)
    ensures AllHanded(h, published + [x], repo, sha)
  {
  }

  lemma PublishKeepsInv(h: History, s: State)
    requires Inv(h, s) && Enabled(h, s, Publish)
    ensures Inv(h, Apply(h, s, Publish))
  {
    var t, x := Apply(h, s, Publish), s.phase.commits[s.phase.next];
    assert s.phase.commits[s.phase.next..] == [x] + t.phase.commits[t.phase.next..];
    forall y | Reaches(h, s.phase.repo, s.phase.tip, y)
      ensures Handed(s.phase.repo, y) in t.published || y in t.phase.commits[t.phase.next..]
    {
      assert Handed(s.phase.repo, x) in t.published;
    }
    forall repo, sha | AllHanded(h, s.published, repo, sha) ensures AllHanded(h, t.published, repo, sha) {
      AppendKeepsHanded(h, s.published, Handed(s.phase.repo, x), repo, sha);
    }
  }

  lemma SaveKeepsInv(h: History, s: State, outcome: SaveOutcome)
    requires Inv(h, s) && Enabled(h, s, Save(outcome))
    ensures Inv(h, Apply(h, s, Save(outcome)))
  {
    assert AllHanded(h, s.published, s.phase.repo, s.phase.tip);
  }

  lemma StepKeepsInv(h: History, s: State, a: Action)
    requires Inv(h, s) && Enabled(h, s, a)
    ensures Inv(h, Apply(h, s, a))
  {
    match a
    case Fetch(repo, answer) =>
      if answer.Commits? {
        ReceivedKeepsInv(h, s, repo, CursorOf(s.cursors, repo), answer.commits);
      }
    case Refetch(answer) =>
      if answer.Commits? {
        ReceivedKeepsInv(h, s, s.phase.repo, "", answer.commits);
      }
    case Publish => PublishKeepsInv(h, s);
    case Save(outcome) => SaveKeepsInv(h, s, outcome);
    case _ =>
  }

  lemma {:induction false} RunKeepsInv(h: History, s: State, acts: seq<Action>)
    requires Inv(h, s) && Legal(h, s, acts)
    ensures Inv(h, After(h, s, acts))
    decreases |acts|
  {
    if acts != [] {
      var init := acts[..|acts| - 1];
      RunKeepsInv(h, s, init);
      StepKeepsInv(h, After(h, s, init), acts[|acts| - 1]);
    }
  }

  /** Main result: whatever the history, the moves of the tips, the failures and the
      restarts, in every reachable state all ancestors of every cursor, in memory or
      stored, have been handed to the publisher, and so have all ancestors of every tip
      whose crawl got a listing and came to its end. */
  lemma {:induction false} CrawlIsSafe(h: History, acts: seq<Action>)
    requires Legal(h, Start, acts)
    ensures var s := After(h, Start, acts);
      && (forall repo, x :: repo in s.cursors && Reaches(h, repo, s.cursors[repo], x) ==>
            Handed(repo, x) in s.published)
      && (forall repo, x :: repo in s.store && Reaches(h, repo, s.store[repo], x) ==> Handed(repo, x) in s.published)
      && (forall c, x :: c in s.crawled && Reaches(h, c.repo, c.sha, x) ==> Handed(c.repo, x) in s.published)
  {
    RunKeepsInv(h, Start, acts);
  }
}
