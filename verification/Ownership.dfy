/** Ownership resolution: workflow to repos to components to teams, the diagnosis of
    where the chain breaks, and the projections that carry the result. */
module Ownership {
  import opened Seqs
  import opened Sorting
  import opened Values
  import opened Filters
  import opened FilterLaws
  import opened Queries
  import opened SortKeys
  import opened BucketLaws
  import opened OwnerKeys

  datatype Owner = Owner(component: string, team: string)

  /** The four maps a lookup is built from. */
  datatype OwnerLookup = OwnerLookup(
    rtc: map<string, string>, wtr: map<string, seq<string>>,
    ct: map<string, string>, wfNames: map<string, string>)

  const Unknown := "unknown"

  /** Go map indexing: a missing key reads as the empty string. */
  function Get(m: map<string, string>, k: string): string {
    if k in m then m[k] else ""
  }

  function ReposOf(l: OwnerLookup, workflowID: string): seq<string> {
    if workflowID in l.wtr then l.wtr[workflowID] else []
  }

  /** The owner a repo contributes, if it maps to a component. */
  function OwnerOfRepo(l: OwnerLookup, repo: string): Option<Owner> {
    var comp := Get(l.rtc, repo);
    if comp == "" then None
    else
      var team := Get(l.ct, comp);
      Some(Owner(comp, if team == "" then Unknown else team))
  }

  function Resolved(l: OwnerLookup, repos: seq<string>): seq<Owner> {
    if repos == [] then []
    else
      Resolved(l, repos[..|repos| - 1])
      + match OwnerOfRepo(l, repos[|repos| - 1])
        case None => []
        case Some(o) => [o]
  }

  /** The elements of s in the order of their first occurrence. */
  function FirstSeen<T(==)>(s: seq<T>): seq<T> {
    if s == [] then []
    else
      var init, last := s[..|s| - 1], s[|s| - 1];
      FirstSeen(init) + if last in init then [] else [last]
  }

  function OwnersOf(l: OwnerLookup, workflowID: string): seq<Owner> {
    var out := FirstSeen(Resolved(l, ReposOf(l, workflowID)));
    if out == [] then [Owner(Unknown, Unknown)] else out
  }

  function WorkflowNameOf(l: OwnerLookup, workflowID: string): string {
    if workflowID in l.wfNames then l.wfNames[workflowID] else workflowID
  }

  function OwnerComponents(owners: seq<Owner>): seq<string> {
    FirstSeen(Map(owners, (o: Owner) => o.component))
  }

  function OwnerTeams(owners: seq<Owner>): seq<string> {
    FirstSeen(Map(owners, (o: Owner) => o.team))
  }

  function OwnerPivots(owners: seq<Owner>): seq<string> {
    Map(owners, (o: Owner) => OwnerKey(o.team, o.component))
  }

  // ---- first-seen order

  ghost function FirstAt<T>(s: seq<T>, x: T): nat
    requires x in s
    ensures FirstAt(s, x) < |s| && s[FirstAt(s, x)] == x && x !in s[..FirstAt(s, x)]
  {
    if s[0] == x then 0 else 1 + FirstAt(s[1..], x)
  }

  lemma {:induction false} FirstSeenMembers<T>(s: seq<T>)
    ensures forall x :: x in FirstSeen(s) ==> x in s
    ensures forall x :: x in s ==> x in FirstSeen(s)
  {
    if s != [] {
      var init := s[..|s| - 1];
      FirstSeenMembers(init);
      assert s == init + [s[|s| - 1]];
    }
  }

  lemma {:induction false} FirstAtPrefix<T>(s: seq<T>, t: seq<T>, x: T)
    requires x in s
    ensures x in s + t && FirstAt(s + t, x) == FirstAt(s, x)
  {
    assert (s + t)[0] == s[0];
    if s[0] != x {
      assert (s + t)[1..] == s[1..] + t;
      FirstAtPrefix(s[1..], t, x);
    }
  }

  lemma {:induction false} FirstAtLast<T>(s: seq<T>, x: T)
    requires x !in s
    ensures x in s + [x] && FirstAt(s + [x], x) == |s|
  {
    assert (s + [x])[|s|] == x;
    if s != [] {
      assert (s + [x])[1..] == s[1..] + [x];
      FirstAtLast(s[1..], x);
    }
  }

  ghost predicate InFirstOrder<T>(s: seq<T>, r: seq<T>) {
    && (forall i :: 0 <= i < |r| ==> r[i] in s)
    && forall i, j :: 0 <= i < j < |r| ==> FirstAt(s, r[i]) < FirstAt(s, r[j])
  }

  lemma InFirstOrderSnoc<T>(s: seq<T>, r: seq<T>, x: T)
    requires InFirstOrder(s, r)
    ensures InFirstOrder(s + [x], r)
    ensures x !in s ==> InFirstOrder(s + [x], r + [x])
  {
    forall i | 0 <= i < |r| ensures r[i] in s + [x] && FirstAt(s + [x], r[i]) == FirstAt(s, r[i]) < |s| {
      FirstAtPrefix(s, [x], r[i]);
    }
    if x !in s {
      FirstAtLast(s, x);
      var q := r + [x];
      forall i, j | 0 <= i < j < |q| ensures FirstAt(s + [x], q[i]) < FirstAt(s + [x], q[j]) {
        assert q[i] == r[i] && (j < |r| ==> q[j] == r[j]);
      }
    }
  }

  /** Deduplication keeps each value once, in the order of first occurrence. */
  lemma {:induction false} FirstSeenOrder<T>(s: seq<T>)
    ensures InFirstOrder(s, FirstSeen(s)) && NoDuplicates(FirstSeen(s))
    ensures forall x :: x in s ==> x in FirstSeen(s)
  {
    FirstSeenMembers(s);
    if s != [] {
      var init, last := s[..|s| - 1], s[|s| - 1];
      assert s == init + [last];
      FirstSeenOrder(init);
      InFirstOrderSnoc(init, FirstSeen(init), last);
      FirstSeenNext(init, last);
      if last !in init {
        assert last !in FirstSeen(init);
      }
    }
  }

  lemma FirstSeenNext<T>(s: seq<T>, x: T)
    ensures FirstSeen(s + [x]) == if x in s then FirstSeen(s) else FirstSeen(s) + [x]
  {
    assert (s + [x])[..|s|] == s;
  }

  // ---- the loops

  lemma ResolvedNext(l: OwnerLookup, repos: seq<string>, i: nat)
    requires i < |repos|
    ensures var compName, prior := Get(l.rtc, repos[i]), Resolved(l, repos[..i]);
      var teamName := Get(l.ct, compName);
      Resolved(l, repos[..i + 1])
        == if compName == "" then prior
           else prior + [Owner(compName, if teamName == "" then Unknown else teamName)]
  {
    assert repos[..i + 1][..i] == repos[..i];
  }

  method Owners(l: OwnerLookup, workflowID: string) returns (r: seq<Owner>)
    ensures r == OwnersOf(l, workflowID)
  {
    var repos := ReposOf(l, workflowID);
    var out: seq<Owner>, seen: set<Owner> := [], {};
    for i := 0 to |repos|
      invariant out == FirstSeen(Resolved(l, repos[..i]))
      invariant seen == Elements(Resolved(l, repos[..i]))
    {
      ResolvedNext(l, repos, i);
      var compName := Get(l.rtc, repos[i]);
      if compName == "" {
        continue;
      }
      var teamName := Get(l.ct, compName);
      if teamName == "" {
        teamName := Unknown;
      }
      var o := Owner(compName, teamName);
      ghost var prior := Resolved(l, repos[..i]);
      FirstSeenNext(prior, o);
      ElementsSnoc(prior, o);
      if o !in seen {
        seen := seen + {o};
        out := out + [o];
      }
    }
    assert repos[..|repos|] == repos;
    if |out| == 0 {
      return [Owner(Unknown, Unknown)];
    }
    return out;
  }

  /** The deduplicating loop of ownerComponents and ownerTeams. */
  method Distinct(names: seq<string>) returns (out: seq<string>)
    ensures out == FirstSeen(names)
  {
    out := [];
    var seen: set<string> := {};
    for i := 0 to |names|
      invariant out == FirstSeen(names[..i])
      invariant seen == set x | x in names[..i]
    {
      assert names[..i + 1][..i] == names[..i];
      if names[i] in seen {
        continue;
      }
      seen := seen + {names[i]};
      out := out + [names[i]];
    }
    assert names[..|names|] == names;
  }

  // ---- diagnosis

  datatype Reason = OwnedOk | MissingRepoID | NoComponentForRepo | NoTeamForComponent

  datatype RepoOwnership = RepoOwnership(repoID: string, componentName: string, teamName: string, reason: Reason)

  datatype Diagnostics = Diagnostics(workflowID: string, reason: Reason, owners: seq<RepoOwnership>)

  function ResolveRepo(l: OwnerLookup, repo: string): RepoOwnership {
    var comp := Get(l.rtc, repo);
    if comp == "" then RepoOwnership(repo, "", "", NoComponentForRepo)
    else
      var team := Get(l.ct, comp);
      if team == "" then RepoOwnership(repo, comp, "", NoTeamForComponent)
      else RepoOwnership(repo, comp, team, OwnedOk)
  }

  predicate SomeRepo(l: OwnerLookup, repos: seq<string>, reason: Reason) {
    exists i :: 0 <= i < |repos| && ResolveRepo(l, repos[i]).reason == reason
  }

  function ReasonOf(l: OwnerLookup, workflowID: string): Reason {
    var repos := ReposOf(l, workflowID);
    if repos == [] then MissingRepoID
    else if SomeRepo(l, repos, OwnedOk) then OwnedOk
    else if SomeRepo(l, repos, NoTeamForComponent) then NoTeamForComponent
    else NoComponentForRepo
  }

  function DiagnosisOf(l: OwnerLookup, workflowID: string): Diagnostics {
    Diagnostics(workflowID, ReasonOf(l, workflowID),
                Map(ReposOf(l, workflowID), (repo: string) => ResolveRepo(l, repo)))
  }

  method Diagnose(l: OwnerLookup, workflowID: string) returns (r: Diagnostics)
    ensures r == DiagnosisOf(l, workflowID)
  {
    var repos := ReposOf(l, workflowID);
    if |repos| == 0 {
      return Diagnostics(workflowID, MissingRepoID, []);
    }
    var perRepo: seq<RepoOwnership> := [];
    var reason, hasComponent := NoComponentForRepo, false;
    for i := 0 to |repos|
      invariant |perRepo| == i && forall k :: 0 <= k < i ==> perRepo[k] == ResolveRepo(l, repos[k])
      invariant reason == if SomeRepo(l, repos[..i], OwnedOk) then OwnedOk else NoComponentForRepo
      invariant hasComponent <==> SomeRepo(l, repos[..i], NoTeamForComponent)
    {
      perRepo := perRepo + [ResolveRepo(l, repos[i])];
      SomeRepoNext(l, repos, i);
      match perRepo[i].reason
      case OwnedOk => reason := OwnedOk;
      case NoTeamForComponent => hasComponent := true;
      case _ =>
    }
    assert repos[..|repos|] == repos;
    if reason != OwnedOk && hasComponent {
      reason := NoTeamForComponent;
    }
    assert perRepo == DiagnosisOf(l, workflowID).owners;
    return Diagnostics(workflowID, reason, perRepo);
  }

  lemma SomeRepoNext(l: OwnerLookup, repos: seq<string>, i: nat)
    requires i < |repos|
    ensures forall reason ::
              SomeRepo(l, repos[..i + 1], reason)
              <==> SomeRepo(l, repos[..i], reason) || ResolveRepo(l, repos[i]).reason == reason
  {
    forall reason
      ensures SomeRepo(l, repos[..i + 1], reason)
         <==> SomeRepo(l, repos[..i], reason) || ResolveRepo(l, repos[i]).reason == reason
    {
      if SomeRepo(l, repos[..i], reason) {
        var k :| 0 <= k < i && ResolveRepo(l, repos[..i][k]).reason == reason;
        assert repos[..i + 1][k] == repos[..i][k];
      }
      if ResolveRepo(l, repos[i]).reason == reason {
        assert repos[..i + 1][i] == repos[i];
      }
      if SomeRepo(l, repos[..i + 1], reason) {
        var k :| 0 <= k < i + 1 && ResolveRepo(l, repos[..i + 1][k]).reason == reason;
        assert k < i ==> repos[..i][k] == repos[..i + 1][k];
      }
    }
  }

  lemma {:induction false} ResolvedMembers(l: OwnerLookup, repos: seq<string>, o: Owner)
    ensures o in Resolved(l, repos) <==> exists i :: 0 <= i < |repos| && OwnerOfRepo(l, repos[i]) == Some(o)
  {
    if repos != [] {
      var n := |repos| - 1;
      var init := repos[..n];
      ResolvedMembers(l, init, o);
      if i :| 0 <= i < |init| && OwnerOfRepo(l, init[i]) == Some(o) {
        assert repos[i] == init[i];
      }
      if i :| 0 <= i < |repos| && OwnerOfRepo(l, repos[i]) == Some(o) {
        assert i < n ==> init[i] == repos[i];
      }
    }
  }

  // ---- owners, in the maps

  predicate HasComponent(l: OwnerLookup, repo: string) {
    repo in l.rtc && l.rtc[repo] != ""
  }

  /** The repo is indexed to the owner's component, which has the owner's team, or none. */
  predicate LeadsTo(l: OwnerLookup, repo: string, o: Owner) {
    && repo in l.rtc && l.rtc[repo] == o.component && o.component != ""
    && o.team == if o.component in l.ct && l.ct[o.component] != "" then l.ct[o.component] else "unknown"
  }

  lemma OwnerOfRepoLeads(l: OwnerLookup, repo: string, o: Owner)
    ensures OwnerOfRepo(l, repo) == Some(o) <==> LeadsTo(l, repo, o)
    ensures OwnerOfRepo(l, repo).Some? <==> HasComponent(l, repo)
  {
  }

  ghost predicate SomeLeadsTo(l: OwnerLookup, repos: seq<string>, o: Owner) {
    exists i :: 0 <= i < |repos| && LeadsTo(l, repos[i], o)
  }

  /** Some repo leads to o before any leads to p. */
  ghost predicate LedToBefore(l: OwnerLookup, repos: seq<string>, o: Owner, p: Owner) {
    exists i :: 0 <= i < |repos| && LeadsTo(l, repos[i], o) && forall j :: 0 <= j <= i ==> !LeadsTo(l, repos[j], p)
  }

  ghost predicate InRepoOrder(l: OwnerLookup, repos: seq<string>, owners: seq<Owner>) {
    forall i, j :: 0 <= i < j < |owners| ==> LedToBefore(l, repos, owners[i], owners[j])
  }

  lemma LedToMembers(l: OwnerLookup, repos: seq<string>, o: Owner)
    ensures o in Resolved(l, repos) <==> SomeLeadsTo(l, repos, o)
  {
    ResolvedMembers(l, repos, o);
    forall i | 0 <= i < |repos| ensures OwnerOfRepo(l, repos[i]) == Some(o) <==> LeadsTo(l, repos[i], o) {
      OwnerOfRepoLeads(l, repos[i], o);
    }
  }

  lemma StillBefore(l: OwnerLookup, repos: seq<string>, last: string, o: Owner, p: Owner)
    requires LedToBefore(l, repos, o, p)
    ensures LedToBefore(l, repos + [last], o, p)
  {
    var i :| 0 <= i < |repos| && LeadsTo(l, repos[i], o) && forall j :: 0 <= j <= i ==> !LeadsTo(l, repos[j], p);
    var more := repos + [last];
    assert more[i] == repos[i] && forall j :: 0 <= j <= i ==> more[j] == repos[j];
  }

  lemma NewcomerIsLater(l: OwnerLookup, repos: seq<string>, last: string, o: Owner, p: Owner)
    requires o in Resolved(l, repos) && p !in Resolved(l, repos)
    ensures LedToBefore(l, repos + [last], o, p)
  {
    LedToMembers(l, repos, o);
    LedToMembers(l, repos, p);
    var i :| 0 <= i < |repos| && LeadsTo(l, repos[i], o);
    assert forall j :: 0 <= j <= i ==> !LeadsTo(l, repos[j], p);
    StillBefore(l, repos, last, o, p);
  }

  lemma {:induction false} FirstSeenInRepoOrder(l: OwnerLookup, repos: seq<string>)
    ensures InRepoOrder(l, repos, FirstSeen(Resolved(l, repos)))
  {
    if repos != [] {
      var init, last := repos[..|repos| - 1], repos[|repos| - 1];
      var before := Resolved(l, init);
      assert repos == init + [last];
      FirstSeenInRepoOrder(l, init);
      OldInRepoOrder(l, init, last, FirstSeen(before));
      if OwnerOfRepo(l, last).None? {
        assert Resolved(l, repos) == before;
      } else {
        var o := OwnerOfRepo(l, last).value;
        assert Resolved(l, repos) == before + [o];
        FirstSeenNext(before, o);
        if o !in before {
          NewInRepoOrder(l, init, last, o);
        }
      }
    }
  }

  lemma OldInRepoOrder(l: OwnerLookup, repos: seq<string>, last: string, owners: seq<Owner>)
    requires InRepoOrder(l, repos, owners)
    ensures InRepoOrder(l, repos + [last], owners)
  {
    forall i, j | 0 <= i < j < |owners| ensures LedToBefore(l, repos + [last], owners[i], owners[j]) {
      StillBefore(l, repos, last, owners[i], owners[j]);
    }
  }

  lemma NewInRepoOrder(l: OwnerLookup, repos: seq<string>, last: string, o: Owner)
    requires o !in Resolved(l, repos) && InRepoOrder(l, repos + [last], FirstSeen(Resolved(l, repos)))
    ensures InRepoOrder(l, repos + [last], FirstSeen(Resolved(l, repos)) + [o])
  {
    var found := FirstSeen(Resolved(l, repos));
    FirstSeenMembers(Resolved(l, repos));
    forall i | 0 <= i < |found| ensures LedToBefore(l, repos + [last], found[i], o) {
      assert found[i] in found;
      NewcomerIsLater(l, repos, last, found[i], o);
    }
  }

  /** The owners of a workflow are exactly those its repos lead to, each once, in the order the
      repos first lead to them; the fallback pair stands for no repo with a component. */
  lemma {:induction false} OwnersAreResolvedRepos(l: OwnerLookup, workflowID: string)
    ensures var repos := if workflowID in l.wtr then l.wtr[workflowID] else [];
      var owners := OwnersOf(l, workflowID);
      if exists repo :: repo in repos && HasComponent(l, repo)
      then
        && NoDuplicates(owners) && InRepoOrder(l, repos, owners)
        && forall o :: o in owners <==> SomeLeadsTo(l, repos, o)
      else owners == [Owner("unknown", "unknown")]
  {
    var repos := ReposOf(l, workflowID);
    var found := Resolved(l, repos);
    FirstSeenOrder(found);
    FirstSeenInRepoOrder(l, repos);
    ResolvedIffComponent(l, repos);
    forall o ensures o in FirstSeen(found) <==> SomeLeadsTo(l, repos, o) {
      FirstSeenMembers(found);
      LedToMembers(l, repos, o);
    }
    assert found != [] ==> found[0] in FirstSeen(found);
  }

  lemma ResolvedIffComponent(l: OwnerLookup, repos: seq<string>)
    ensures Resolved(l, repos) != [] <==> exists repo :: repo in repos && HasComponent(l, repo)
  {
    var found := Resolved(l, repos);
    if found != [] {
      LedToMembers(l, repos, found[0]);
      var i :| 0 <= i < |repos| && LeadsTo(l, repos[i], found[0]);
      assert repos[i] in repos && HasComponent(l, repos[i]);
    }
    if repo :| repo in repos && HasComponent(l, repo) {
      var i :| 0 <= i < |repos| && repos[i] == repo;
      OwnerOfRepoLeads(l, repo, OwnerOfRepo(l, repo).value);
      LedToMembers(l, repos, OwnerOfRepo(l, repo).value);
    }
  }

  /** The fallback is taken exactly when the diagnosis says that no repo reaches a component. */
  lemma FallbackIffUnresolved(l: OwnerLookup, workflowID: string)
    ensures Resolved(l, ReposOf(l, workflowID)) == []
       <==> ReasonOf(l, workflowID) == MissingRepoID || ReasonOf(l, workflowID) == NoComponentForRepo
  {
    var repos := ReposOf(l, workflowID);
    var found := Resolved(l, repos);
    if found != [] {
      ResolvedMembers(l, repos, found[0]);
      var i :| 0 <= i < |repos| && OwnerOfRepo(l, repos[i]) == Some(found[0]);
      assert ResolveRepo(l, repos[i]).reason in {OwnedOk, NoTeamForComponent};
    }
    if ReasonOf(l, workflowID) == OwnedOk || ReasonOf(l, workflowID) == NoTeamForComponent {
      var i :| 0 <= i < |repos| && ResolveRepo(l, repos[i]).reason == ReasonOf(l, workflowID);
      ResolvedMembers(l, repos, OwnerOfRepo(l, repos[i]).value);
    }
  }

  /** The links of one repo: its component, that component's team, and where they break. */
  ghost predicate Linked(l: OwnerLookup, r: RepoOwnership) {
    if !HasComponent(l, r.repoID) then
      r.componentName == "" && r.teamName == "" && r.reason == NoComponentForRepo
    else
      var comp := l.rtc[r.repoID];
      && r.componentName == comp
      && if comp in l.ct && l.ct[comp] != "" then r.teamName == l.ct[comp] && r.reason == OwnedOk
         else r.teamName == "" && r.reason == NoTeamForComponent
  }

  /** The diagnosis has the links of every repo, in order; and its reason is that of the repo that
      gets farthest. */
  lemma {:induction false} DiagnosisInFields(l: OwnerLookup, workflowID: string)
    ensures var repos := if workflowID in l.wtr then l.wtr[workflowID] else [];
      var d := DiagnosisOf(l, workflowID);
      && d.workflowID == workflowID && |d.owners| == |repos|
      && (forall i :: 0 <= i < |repos| ==> d.owners[i].repoID == repos[i] && Linked(l, d.owners[i]))
      && (d.reason == MissingRepoID <==> repos == [])
      && (d.reason == OwnedOk <==> exists i :: 0 <= i < |repos| && d.owners[i].reason == OwnedOk)
      && (d.reason == NoComponentForRepo <==>
            repos != [] && forall i :: 0 <= i < |repos| ==> !HasComponent(l, repos[i]))
  {
    var repos, d := ReposOf(l, workflowID), DiagnosisOf(l, workflowID);
    forall i | 0 <= i < |repos| ensures d.owners[i] == ResolveRepo(l, repos[i]) && Linked(l, d.owners[i]) {
    }
    forall reason
      ensures SomeRepo(l, repos, reason) <==> exists i :: 0 <= i < |repos| && d.owners[i].reason == reason
    {
      if i :| 0 <= i < |repos| && ResolveRepo(l, repos[i]).reason == reason {
        assert d.owners[i].reason == reason;
      }
    }
    if d.reason == NoTeamForComponent {
      var i :| 0 <= i < |repos| && ResolveRepo(l, repos[i]).reason == NoTeamForComponent;
      assert HasComponent(l, repos[i]);
    }
    if i :| 0 <= i < |repos| && HasComponent(l, repos[i]) {
      assert ResolveRepo(l, repos[i]).reason in {OwnedOk, NoTeamForComponent};
    }
  }

  /** "ok" exactly when some repo of the workflow leads to a component with a team. */
  lemma OkIffNamedTeam(l: OwnerLookup, workflowID: string)
    ensures ReasonOf(l, workflowID) == OwnedOk
       <==> exists repo :: repo in ReposOf(l, workflowID) && Get(l.rtc, repo) != "" && Get(l.ct, Get(l.rtc, repo)) != ""
  {
    var repos := ReposOf(l, workflowID);
    if repo :| repo in repos && Get(l.rtc, repo) != "" && Get(l.ct, Get(l.rtc, repo)) != "" {
      var i :| 0 <= i < |repos| && repos[i] == repo;
      assert ResolveRepo(l, repos[i]).reason == OwnedOk;
    }
    if ReasonOf(l, workflowID) == OwnedOk {
      var i :| 0 <= i < |repos| && ResolveRepo(l, repos[i]).reason == OwnedOk;
      assert repos[i] in repos;
    }
  }

  /** The diagnosed reason does not depend on the order of a workflow's repos. */
  lemma ReasonOrderIndependent(l: OwnerLookup, m: OwnerLookup, workflowID: string)
    requires l.rtc == m.rtc && l.ct == m.ct && Permutation(ReposOf(l, workflowID), ReposOf(m, workflowID))
    ensures ReasonOf(l, workflowID) == ReasonOf(m, workflowID)
  {
    var r, s := ReposOf(l, workflowID), ReposOf(m, workflowID);
    PermutationMembers(r, s);
    forall reason ensures SomeRepo(l, r, reason) <==> SomeRepo(m, s, reason) {
      if i :| 0 <= i < |r| && ResolveRepo(l, r[i]).reason == reason {
        assert r[i] in s;
        var j :| 0 <= j < |s| && s[j] == r[i];
      }
      if i :| 0 <= i < |s| && ResolveRepo(m, s[i]).reason == reason {
        assert s[i] in r;
        var j :| 0 <= j < |r| && r[j] == s[i];
      }
    }
  }

  // ---- runs and tasks

  datatype WorkflowRun = WorkflowRun(
    id: string, workflowID: string, number: int, status: string, branch: string, commitSHA: string,
    startedAt: int, duration: real,
    workflowName: string, componentNames: seq<string>, teamNames: seq<string>)

  datatype WorkflowTask = WorkflowTask(
    workflowRunID: string, order: int, name: string, status: string, startedAt: int, duration: real)

  function ProjectWorkflowRun(l: OwnerLookup): WorkflowRun -> Item {
    (r: WorkflowRun) =>
      var owners := OwnersOf(l, r.workflowID);
      map[
        "id" := Str(r.id), "workflow_id" := Str(r.workflowID), "number" := Int(r.number),
        "status" := Str(r.status), "branch" := Str(r.branch), "commit_sha" := Str(r.commitSHA),
        "started_at" := Time(r.startedAt), "duration" := Float64(r.duration),
        "workflow_name" := Str(WorkflowNameOf(l, r.workflowID)),
        "component_name" := StrList(OwnerComponents(owners)),
        "team_name" := StrList(OwnerTeams(owners)),
        "owner" := StrList(OwnerPivots(owners))]
  }

  /** A task finds its workflow and branch through its run, if that is known. */
  function WorkflowOfTask(runs: map<string, WorkflowRun>, t: WorkflowTask): string {
    if t.workflowRunID in runs then runs[t.workflowRunID].workflowID else ""
  }

  function BranchOfTask(runs: map<string, WorkflowRun>, t: WorkflowTask): string {
    if t.workflowRunID in runs then runs[t.workflowRunID].branch else ""
  }

  function ProjectWorkflowTask(l: OwnerLookup, runs: map<string, WorkflowRun>): WorkflowTask -> Item {
    (t: WorkflowTask) =>
      var workflowID := WorkflowOfTask(runs, t);
      var owners := OwnersOf(l, workflowID);
      map[
        "workflow_run_id" := Str(t.workflowRunID), "order" := Int(t.order), "name" := Str(t.name),
        "status" := Str(t.status), "started_at" := Time(t.startedAt), "duration" := Float64(t.duration),
        "workflow_id" := Str(workflowID), "workflow_name" := Str(WorkflowNameOf(l, workflowID)),
        "component_name" := StrList(OwnerComponents(owners)),
        "team_name" := StrList(OwnerTeams(owners)),
        "owner" := StrList(OwnerPivots(owners)),
        "branch" := Str(BranchOfTask(runs, t))]
  }

  datatype PullRequest = PullRequest(
    id: string, repoID: string, name: string, title: string, description: string, state: string, author: string,
    createdAt: int, updatedAt: int)

  /** Seconds from creation to the last update of a merged or declined request, or to now; times in nanoseconds. */
  function CycleTimeSeconds(pr: PullRequest, now: int): real {
    var end := if pr.state == "MERGED" || pr.state == "DECLINED" then pr.updatedAt else now;
    (end - pr.createdAt) as real / 1000000000.0
  }

  function ProjectPullRequest(now: int): PullRequest -> Item {
    (pr: PullRequest) =>
      map[
        "id" := Str(pr.id), "repo_id" := Str(pr.repoID), "name" := Str(pr.name), "title" := Str(pr.title),
        "description" := Str(pr.description), "state" := Str(pr.state), "author" := Str(pr.author),
        "created_at" := Time(pr.createdAt), "updated_at" := Time(pr.updatedAt),
        "cycle_time_seconds" := Float64(CycleTimeSeconds(pr, now))]
  }

  /** What a run query adds to each run before emitting it. */
  function Enriched(l: OwnerLookup): WorkflowRun -> WorkflowRun {
    (r: WorkflowRun) =>
      var owners := OwnersOf(l, r.workflowID);
      r.(workflowName := WorkflowNameOf(l, r.workflowID),
         componentNames := OwnerComponents(owners), teamNames := OwnerTeams(owners))
  }

  /** `listed` has the names of the owners, each once, in the order they first occur. */
  ghost predicate NamesOnce(owners: seq<Owner>, name: Owner -> string, listed: seq<string>) {
    && NoDuplicates(listed) && (forall n :: n in listed <==> exists o :: o in owners && name(o) == n)
    && forall i, j :: 0 <= i < j < |listed| ==> NamedBefore(owners, name, listed[i], listed[j])
  }

  ghost predicate NamedBefore(owners: seq<Owner>, name: Owner -> string, m: string, n: string) {
    exists i :: 0 <= i < |owners| && name(owners[i]) == m && forall j :: 0 <= j <= i ==> name(owners[j]) != n
  }

  function TeamOf(): Owner -> string {
    (o: Owner) => o.team
  }

  function ComponentOf(): Owner -> string {
    (o: Owner) => o.component
  }

  lemma {:induction false} FirstSeenNames(owners: seq<Owner>, name: Owner -> string)
    ensures NamesOnce(owners, name, FirstSeen(Map(owners, name)))
  {
    var names := Map(owners, name);
    var listed := FirstSeen(names);
    FirstSeenOrder(names);
    FirstSeenMembers(names);
    forall n ensures n in listed <==> exists o :: o in owners && name(o) == n {
      if n in names {
        var i :| 0 <= i < |owners| && names[i] == n;
        assert owners[i] in owners && name(owners[i]) == n;
      }
      if o :| o in owners && name(o) == n {
        var i :| 0 <= i < |owners| && owners[i] == o;
        assert names[i] == n;
      }
    }
    forall i, j | 0 <= i < j < |listed| ensures NamedBefore(owners, name, listed[i], listed[j]) {
      var k := FirstAt(names, listed[i]);
      assert name(owners[k]) == listed[i] && k < FirstAt(names, listed[j]);
      forall q | 0 <= q <= k ensures name(owners[q]) != listed[j] {
        assert names[..FirstAt(names, listed[j])][q] == names[q];
      }
    }
  }

  /** What a run carries when it is emitted: the name of its workflow, or its ID if that is not
      stored, and the components and teams of its owners; the rest is as stored. */
  ghost predicate Carries(l: OwnerLookup, run: WorkflowRun, e: WorkflowRun) {
    && e == run.(workflowName := e.workflowName, componentNames := e.componentNames, teamNames := e.teamNames)
    && e.workflowName == (if run.workflowID in l.wfNames then l.wfNames[run.workflowID] else run.workflowID)
    && NamesOnce(OwnersOf(l, run.workflowID), ComponentOf(), e.componentNames)
    && NamesOnce(OwnersOf(l, run.workflowID), TeamOf(), e.teamNames)
  }

  lemma OwnerNames(owners: seq<Owner>)
    ensures NamesOnce(owners, TeamOf(), OwnerTeams(owners))
    ensures NamesOnce(owners, ComponentOf(), OwnerComponents(owners))
  {
    FirstSeenNames(owners, TeamOf());
    FirstSeenNames(owners, ComponentOf());
    assert Map(owners, (o: Owner) => o.team) == Map(owners, TeamOf());
    assert Map(owners, (o: Owner) => o.component) == Map(owners, ComponentOf());
  }

  lemma EnrichedCarries(l: OwnerLookup, run: WorkflowRun)
    ensures Carries(l, run, Enriched(l)(run))
  {
    OwnerNames(OwnersOf(l, run.workflowID));
  }

  /** A query of runs: a page of the sorted matches is emitted, up to the first failing call, and
      each run carries what its owners are. */
  method QueryWorkflowRuns(snapshot: seq<WorkflowRun>, l: OwnerLookup, q: Query, emitOk: nat -> bool)
    returns (r: Stream<WorkflowRun>, ghost sorted: seq<WorkflowRun>)
    ensures SomeFails(snapshot, q.filter, ProjectWorkflowRun(l)) ==> r == Stream([], false)
    ensures !SomeFails(snapshot, q.filter, ProjectWorkflowRun(l)) ==>
              && SortOutcome(Select(snapshot, AcceptedBy(q.filter, ProjectWorkflowRun(l))), sorted,
                             By(q.sort, ProjectWorkflowRun(l)))
              && Streamed(Map(Paginate(sorted, q.from, q.size), Enriched(l)), emitOk, r)
              && |r.emitted| <= |Paginate(sorted, q.from, q.size)|
              && forall i :: 0 <= i < |r.emitted| ==> Carries(l, Paginate(sorted, q.from, q.size)[i], r.emitted[i])
  {
    var found;
    found, sorted := QueryEntities(snapshot, q, ProjectWorkflowRun(l), emitOk);
    if !SomeFails(snapshot, q.filter, ProjectWorkflowRun(l)) {
      StreamedMap(Paginate(sorted, q.from, q.size), Enriched(l), emitOk, found);
    }
    r := Stream(Map(found.emitted, Enriched(l)), found.ok);
    forall i | 0 <= i < |r.emitted| ensures Carries(l, found.emitted[i], r.emitted[i]) {
      EnrichedCarries(l, found.emitted[i]);
    }
  }

  /** The team is among the owners of the run's workflow. */
  predicate OwnedBy(l: OwnerLookup, team: string, r: WorkflowRun) {
    exists o :: o in OwnersOf(l, r.workflowID) && o.team == team
  }

  function OwnedByTeam(l: OwnerLookup, team: string): WorkflowRun -> bool {
    (r: WorkflowRun) => OwnedBy(l, team, r)
  }

  function TeamFilter(team: string): Option<Filter> {
    Some(TermFilter("team_name", StringValue(team)))
  }

  lemma TeamFilterAccepts(l: OwnerLookup, team: string, r: WorkflowRun)
    ensures Accepts(TeamFilter(team), ProjectWorkflowRun(l)(r)) <==> OwnedBy(l, team, r)
    ensures !Fails(TeamFilter(team), ProjectWorkflowRun(l)(r))
  {
    var item, ws, owners := ProjectWorkflowRun(l)(r), [StringValue(team)], OwnersOf(l, r.workflowID);
    assert Field(item, "team_name") == StrList(OwnerTeams(owners));
    TermOnText(item, "team_name", team);
    assert ws[1..] == [] && StringPrefix(ws) == [team] && AllStrings(ws);
    AnyElementOutcome(item["team_name"].elems, ws);
    OwnerNames(owners);
    assert Accepts(TeamFilter(team), item) <==> team in OwnerTeams(owners);
  }

  /** Filtering runs by a team never fails and selects exactly the runs one of whose owners has
      that team, whatever the sort does with them. */
  lemma {:induction false} TeamFilterSelectsOwnedRuns(snapshot: seq<WorkflowRun>, l: OwnerLookup, team: string,
                                                      sort: seq<SortField>, sorted: seq<WorkflowRun>)
    requires SortOutcome(Select(snapshot, AcceptedBy(TeamFilter(team), ProjectWorkflowRun(l))), sorted,
                         By(sort, ProjectWorkflowRun(l)))
    ensures !SomeFails(snapshot, TeamFilter(team), ProjectWorkflowRun(l))
    ensures Permutation(Paginate(sorted, 0, 0), Select(snapshot, OwnedByTeam(l, team)))
  {
    TeamFilterSelects(snapshot, l, team);
    TeamFilterNeverFails(snapshot, l, team);
    assert Paginate(sorted, 0, 0) == sorted;
  }

  lemma TeamFilterSelects(snapshot: seq<WorkflowRun>, l: OwnerLookup, team: string)
    ensures Select(snapshot, AcceptedBy(TeamFilter(team), ProjectWorkflowRun(l)))
         == Select(snapshot, OwnedByTeam(l, team))
  {
    var accepted, owned := AcceptedBy(TeamFilter(team), ProjectWorkflowRun(l)), OwnedByTeam(l, team);
    forall r | r in snapshot ensures accepted(r) == owned(r) {
      TeamFilterAccepts(l, team, r);
    }
    SelectSame(snapshot, accepted, owned);
  }

  lemma TeamFilterNeverFails(snapshot: seq<WorkflowRun>, l: OwnerLookup, team: string)
    ensures !SomeFails(snapshot, TeamFilter(team), ProjectWorkflowRun(l))
  {
    forall i | 0 <= i < |snapshot| ensures !Fails(TeamFilter(team), ProjectWorkflowRun(l)(snapshot[i])) {
      TeamFilterAccepts(l, team, snapshot[i]);
    }
  }
}
