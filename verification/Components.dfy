/** The ownership tables of the two repositories as pure state, and how each event
    changes them: the incremental index of the memory backend, the bare component
    table of the SQLite backend, and the plain ownership map both stand for. */
module Components {
  import opened Seqs
  import opened Ordering
  import opened Sorting
  import opened Values

  datatype Component = Component(name: string, teamName: string, repoIDs: seq<string>)

  datatype RepoOnboarding = RepoOnboarding(repoID: string, component: string, team: string)

  type Table = map<string, Component>

  /** Memory: the component table with the two reverse indexes. */
  datatype MemState = MemState(components: Table, rtc: map<string, string>, ct: map<string, string>)

  const EmptyMem := MemState(map[], map[], map[])

  function IsNot(x: string): string -> bool {
    y => y != x
  }

  function Without(s: seq<string>, x: string): seq<string> {
    Select(s, IsNot(x))
  }

  function Owned(repos: seq<string>, name: string): map<string, string> {
    map r | r in repos :: name
  }

  /** Deletes the listed repos that still point at `name`. */
  function Drop(rtc: map<string, string>, repos: seq<string>, name: string): map<string, string> {
    map r | r in rtc && !(r in repos && rtc[r] == name) :: rtc[r]
  }

  // ---- memory

  function MemAddComponent(s: MemState, c: Component): MemState {
    var rtc := if c.name in s.components
               then Drop(s.rtc, s.components[c.name].repoIDs, s.components[c.name].name) else s.rtc;
    MemState(s.components[c.name := c], rtc + Owned(c.repoIDs, c.name), s.ct[c.name := c.teamName])
  }

  /** The component an onboarding event creates or updates. */
  function Target(t: Table, o: RepoOnboarding): Component {
    var repos := if o.component in t then t[o.component].repoIDs else [];
    Component(o.component, o.team, if o.repoID in repos then repos else repos + [o.repoID])
  }

  /** Strips the repo from the one component the index names. */
  function StripIndexed(s: MemState, o: RepoOnboarding): Table {
    if o.repoID in s.rtc && s.rtc[o.repoID] != o.component && s.rtc[o.repoID] in s.components then
      var prev := s.components[s.rtc[o.repoID]];
      s.components[s.rtc[o.repoID] := prev.(repoIDs := Without(prev.repoIDs, o.repoID))]
    else s.components
  }

  function MemOnboard(s: MemState, o: RepoOnboarding): MemState {
    var t := StripIndexed(s, o);
    MemState(t[o.component := Target(t, o)], s.rtc[o.repoID := o.component], s.ct[o.component := o.team])
  }

  // ---- SQLite

  function SqlAddComponent(t: Table, c: Component): Table {
    t[c.name := c]
  }

  /** Strips the repo from every other component. */
  function StripAll(t: Table, o: RepoOnboarding): Table {
    map n | n in t :: if n == o.component then t[n] else t[n].(repoIDs := Without(t[n].repoIDs, o.repoID))
  }

  function SqlOnboard(t: Table, o: RepoOnboarding): Table {
    var t' := StripAll(t, o);
    t'[o.component := Target(t', o)]
  }

  /** The reverse index rebuilt by reading the rows in the order of `names`: later rows win. */
  function RebuildOver(t: Table, names: seq<string>): map<string, string>
    requires forall n :: n in names ==> n in t
  {
    if names == [] then map[]
    else
      var last := names[|names| - 1];
      RebuildOver(t, names[..|names| - 1]) + Owned(t[last].repoIDs, last)
  }

  ghost function Rebuild(t: Table): map<string, string> {
    var names := Listing(t.Keys);
    assert forall n :: n in names ==> n in Elements(names);
    RebuildOver(t, names)
  }

  function TeamsOf(t: Table): map<string, string> {
    map n | n in t :: t[n].teamName
  }

  // ---- the plain ownership map

  /** A component event takes away everything its component owned, then claims its list. */
  function AbsAddComponent(own: map<string, string>, c: Component): map<string, string> {
    (map r | r in own && own[r] != c.name :: own[r]) + Owned(c.repoIDs, c.name)
  }

  /** The last writer of a repo owns it. */
  function AbsOnboard(own: map<string, string>, o: RepoOnboarding): map<string, string> {
    own[o.repoID := o.component]
  }

  // ---- the invariant of the memory index

  predicate Lists(t: Table, n: string, r: string) {
    n in t && r in t[n].repoIDs
  }

  predicate IndexedTo(rtc: map<string, string>, r: string, n: string) {
    r in rtc && rtc[r] == n
  }

  /** An entry r -> n means that n exists and lists r. */
  ghost predicate Sound(s: MemState) {
    forall n, r :: IndexedTo(s.rtc, r, n) ==> Lists(s.components, n, r)
  }

  /** A component is stored under its name, and its team is indexed. */
  predicate Filed(s: MemState, n: string) {
    if n in s.components
    then s.components[n].name == n && n in s.ct && s.ct[n] == s.components[n].teamName
    else n !in s.ct
  }

  ghost predicate Valid(s: MemState) {
    Sound(s) && forall n :: Filed(s, n)
  }

  lemma TeamIndex(s: MemState)
    requires Valid(s)
    ensures s.ct == TeamsOf(s.components)
  {
    forall n ensures n in s.ct <==> n in s.components {
      assert Filed(s, n);
    }
    forall n | n in s.ct ensures s.ct[n] == s.components[n].teamName {
      assert Filed(s, n);
    }
  }

  /** Deleting by the old list deletes by owner, because the index is sound. */
  lemma DropByListIsDropByOwner(s: MemState, name: string)
    requires Sound(s)
    ensures (if name in s.components then Drop(s.rtc, s.components[name].repoIDs, name) else s.rtc)
         == (map r | r in s.rtc && s.rtc[r] != name :: s.rtc[r])
  {
    forall r | r in s.rtc && s.rtc[r] == name ensures name in s.components && r in s.components[name].repoIDs {
      assert IndexedTo(s.rtc, r, name);
    }
  }

  lemma AddComponentRefines(s: MemState, c: Component)
    requires Valid(s)
    ensures Valid(MemAddComponent(s, c))
    ensures MemAddComponent(s, c).rtc == AbsAddComponent(s.rtc, c)
  {
    var s' := MemAddComponent(s, c);
    assert Filed(s, c.name);
    DropByListIsDropByOwner(s, c.name);
    forall n, r | IndexedTo(s'.rtc, r, n) ensures Lists(s'.components, n, r) {
      if r !in c.repoIDs {
        assert IndexedTo(s.rtc, r, n) && n != c.name;
        assert Lists(s.components, n, r);
      }
    }
    forall n ensures Filed(s', n) {
      assert Filed(s, n);
    }
  }

  lemma WithoutMembers(s: seq<string>, x: string)
    ensures forall y :: y in Without(s, x) <==> y in s && y != x
  {
    forall y ensures y in Without(s, x) <==> y in s && y != x {
      assert IsNot(x)(y) == (y != x);
    }
  }

  /** After stripping, a component keeps its name and team, and its list loses at most the repo. */
  lemma StripKeeps(s: MemState, o: RepoOnboarding, n: string)
    ensures n in StripIndexed(s, o) <==> n in s.components
    ensures n in s.components ==>
              && StripIndexed(s, o)[n].name == s.components[n].name
              && StripIndexed(s, o)[n].teamName == s.components[n].teamName
              && forall r :: r != o.repoID ==>
                   (r in StripIndexed(s, o)[n].repoIDs <==> r in s.components[n].repoIDs)
  {
    if n in s.components {
      WithoutMembers(s.components[n].repoIDs, o.repoID);
    }
  }

  lemma OnboardLists(s: MemState, o: RepoOnboarding, n: string, r: string)
    requires r != o.repoID
    ensures Lists(MemOnboard(s, o).components, n, r) <==> Lists(s.components, n, r)
  {
    StripKeeps(s, o, n);
  }

  lemma OnboardRefines(s: MemState, o: RepoOnboarding)
    requires Valid(s)
    ensures Valid(MemOnboard(s, o))
    ensures MemOnboard(s, o).rtc == AbsOnboard(s.rtc, o)
  {
    var s' := MemOnboard(s, o);
    forall n, r | IndexedTo(s'.rtc, r, n) ensures Lists(s'.components, n, r) {
      if r != o.repoID {
        assert IndexedTo(s.rtc, r, n);
        OnboardLists(s, o, n, r);
      }
    }
    forall n ensures Filed(s', n) {
      assert Filed(s, n);
      StripKeeps(s, o, n);
    }
  }

  /** The repo moves: the new component lists it, at the end if it did not yet, and has the team;
      the component it is indexed to, if that is another, loses it and keeps the rest in order;
      all others stay. */
  ghost predicate Moved(s: MemState, o: RepoOnboarding, t: Table) {
    && t.Keys == s.components.Keys + {o.component}
    && (forall n :: n in s.components && n != o.component ==>
          && t[n].name == s.components[n].name && t[n].teamName == s.components[n].teamName
          && t[n].repoIDs == if IndexedTo(s.rtc, o.repoID, n) then Without(s.components[n].repoIDs, o.repoID)
                             else s.components[n].repoIDs)
    && var was := if o.component in s.components then s.components[o.component].repoIDs else [];
       t[o.component] == Component(o.component, o.team, if o.repoID in was then was else was + [o.repoID])
  }

  lemma OnboardMoves(s: MemState, o: RepoOnboarding)
    ensures Moved(s, o, MemOnboard(s, o).components)
  {
  }

  // ---- runs

  datatype Event = ComponentEvent(c: Component) | OnboardingEvent(o: RepoOnboarding)

  function MemStep(s: MemState, e: Event): MemState {
    match e
    case ComponentEvent(c) => MemAddComponent(s, c)
    case OnboardingEvent(o) => MemOnboard(s, o)
  }

  function SqlStep(t: Table, e: Event): Table {
    match e
    case ComponentEvent(c) => SqlAddComponent(t, c)
    case OnboardingEvent(o) => SqlOnboard(t, o)
  }

  function AbsStep(own: map<string, string>, e: Event): map<string, string> {
    match e
    case ComponentEvent(c) => AbsAddComponent(own, c)
    case OnboardingEvent(o) => AbsOnboard(own, o)
  }

  function MemRun(events: seq<Event>): MemState {
    if events == [] then EmptyMem else MemStep(MemRun(events[..|events| - 1]), events[|events| - 1])
  }

  function SqlRun(events: seq<Event>): Table {
    if events == [] then map[] else SqlStep(SqlRun(events[..|events| - 1]), events[|events| - 1])
  }

  function AbsRun(events: seq<Event>): map<string, string> {
    if events == [] then map[] else AbsStep(AbsRun(events[..|events| - 1]), events[|events| - 1])
  }

  lemma RunNext(events: seq<Event>, e: Event)
    ensures MemRun(events + [e]) == MemStep(MemRun(events), e)
    ensures SqlRun(events + [e]) == SqlStep(SqlRun(events), e)
  {
    assert (events + [e])[..|events|] == events;
  }

  /** Main result: over every run of events the incremental index is the plain
      last-writer ownership map, it only ever points at a component that lists the
      repo, and the team index is the stored team names. */
  lemma {:induction false} MemoryIndexRefines(events: seq<Event>)
    ensures Valid(MemRun(events))
    ensures MemRun(events).rtc == AbsRun(events)
  {
    if events != [] {
      var init, e := events[..|events| - 1], events[|events| - 1];
      MemoryIndexRefines(init);
      match e
      case ComponentEvent(c) => AddComponentRefines(MemRun(init), c);
      case OnboardingEvent(o) => OnboardRefines(MemRun(init), o);
    }
  }

  // ---- the two backends

  /** One onboarding event leaves equal tables equal exactly when the index names every
      other component that lists the repo. */
  lemma OnboardTablesAgree(s: MemState, o: RepoOnboarding)
    ensures MemOnboard(s, o).components == SqlOnboard(s.components, o)
       <==> forall n :: n != o.component && Lists(s.components, n, o.repoID) ==> IndexedTo(s.rtc, o.repoID, n)
  {
    if n :| n != o.component && Lists(s.components, n, o.repoID) && !IndexedTo(s.rtc, o.repoID, n) {
      WithoutMembers(s.components[n].repoIDs, o.repoID);
      assert Lists(MemOnboard(s, o).components, n, o.repoID);
      assert !Lists(SqlOnboard(s.components, o), n, o.repoID);
    } else {
      forall n | n in s.components ensures StripsSame(s, o, n) {
        if n != o.component && !IndexedTo(s.rtc, o.repoID, n) {
          assert !Lists(s.components, n, o.repoID);
          SelectAll(s.components[n].repoIDs, IsNot(o.repoID));
        }
      }
      StripsSameEverywhere(s, o);
    }
  }

  predicate StripsSame(s: MemState, o: RepoOnboarding, n: string)
    requires n in s.components
  {
    n in StripIndexed(s, o) && StripIndexed(s, o)[n] == StripAll(s.components, o)[n]
  }

  lemma StripsSameEverywhere(s: MemState, o: RepoOnboarding)
    requires forall n :: n in s.components ==> StripsSame(s, o, n)
    ensures StripIndexed(s, o) == StripAll(s.components, o)
  {
    assert StripIndexed(s, o).Keys == s.components.Keys == StripAll(s.components, o).Keys;
    forall n | n in s.components ensures StripIndexed(s, o)[n] == StripAll(s.components, o)[n] {
      assert StripsSame(s, o, n);
    }
  }

  /** r is indexed to some component not before n. */
  predicate IndexedNotBefore(rtc: map<string, string>, r: string, n: string) {
    r in rtc && !StrLt(rtc[r], n)
  }

  /** The rebuilt index names, for each listed repo, the last row that lists it. */
  ghost predicate IsLastLister(t: Table, rtc: map<string, string>, names: seq<string>) {
    && (forall n, r :: IndexedTo(rtc, r, n) ==> n in names && Lists(t, n, r))
    && (forall n, r :: n in names && Lists(t, n, r) ==> IndexedNotBefore(rtc, r, n))
  }

  lemma {:induction false} RebuildOverLast(t: Table, names: seq<string>)
    requires Ascending(names) && forall n :: n in names ==> n in t
    ensures IsLastLister(t, RebuildOver(t, names), names)
  {
    if names != [] {
      var init, last := names[..|names| - 1], names[|names| - 1];
      RebuildOverLast(t, init);
      var before, rtc := RebuildOver(t, init), RebuildOver(t, names);
      assert names == init + [last];
      forall n, r | IndexedTo(rtc, r, n) ensures n in names && Lists(t, n, r) {
        assert r !in t[last].repoIDs ==> IndexedTo(before, r, n);
      }
      forall n, r | n in names && Lists(t, n, r) ensures IndexedNotBefore(rtc, r, n) {
        if r in t[last].repoIDs {
          NotBeforeLast(names, n);
        } else {
          assert n in init && IndexedNotBefore(before, r, n);
        }
      }
    }
  }

  lemma NotBeforeLast(names: seq<string>, n: string)
    requires Ascending(names) && n in names
    ensures !StrLt(names[|names| - 1], n)
  {
    var i :| 0 <= i < |names| && names[i] == n;
    var last := names[|names| - 1];
    if StrLt(last, n) {
      StrLtAsymmetric(last, n);
    }
  }

  lemma RebuildLast(t: Table)
    ensures IsLastLister(t, Rebuild(t), Listing(t.Keys))
    ensures forall n, r :: IndexedTo(Rebuild(t), r, n) ==> Lists(t, n, r)
    ensures forall n, r :: Lists(t, n, r) ==> IndexedNotBefore(Rebuild(t), r, n)
  {
    var names := Listing(t.Keys);
    assert forall n :: n in names ==> n in Elements(names);
    RebuildOverLast(t, names);
    forall n, r | Lists(t, n, r) ensures IndexedNotBefore(Rebuild(t), r, n) {
      assert n in Elements(names);
    }
  }

  /** Given the same table, the incremental index equals the rebuilt one exactly when
      every listed repo is indexed, to the alphabetically last component listing it. */
  lemma IndexEqualsRebuild(s: MemState)
    requires Sound(s)
    ensures s.rtc == Rebuild(s.components)
       <==> forall n, r :: Lists(s.components, n, r) ==> IndexedNotBefore(s.rtc, r, n)
  {
    RebuildLast(s.components);
    if forall n, r :: Lists(s.components, n, r) ==> IndexedNotBefore(s.rtc, r, n) {
      SameLastListers(s.components, s.rtc, Rebuild(s.components));
    }
  }

  lemma SameLastListers(t: Table, a: map<string, string>, b: map<string, string>)
    requires forall n, r :: IndexedTo(a, r, n) || IndexedTo(b, r, n) ==> Lists(t, n, r)
    requires forall n, r :: Lists(t, n, r) ==> IndexedNotBefore(a, r, n) && IndexedNotBefore(b, r, n)
    ensures a == b
  {
    forall r | r in a ensures r in b && a[r] == b[r] {
      assert IndexedTo(a, r, a[r]);
      assert IndexedNotBefore(b, r, a[r]);
      assert IndexedTo(b, r, b[r]);
      assert IndexedNotBefore(a, r, b[r]);
      StrLtTotal(a[r], b[r]);
    }
    forall r | r in b ensures r in a {
      assert IndexedTo(b, r, b[r]);
      assert IndexedNotBefore(a, r, b[r]);
    }
  }

  /** Both backends hold the same table, and the indexes memory maintains are those SQLite rebuilds. */
  ghost predicate Agree(s: MemState, t: Table) {
    s.components == t && s.rtc == Rebuild(t) && s.ct == TeamsOf(t)
  }

  /** Of the other components that list a repo, none comes after the one that now claims it,
      and none is left with it by the one the index names. */
  ghost predicate ClaimIsHarmless(t: Table, c: Component) {
    forall n, r :: n != c.name && Lists(t, n, r) ==>
      if r in c.repoIDs then StrLt(n, c.name) else !IndexedTo(Rebuild(t), r, c.name)
  }

  /** Every other component that lists the repo is the one the index names. */
  ghost predicate MoveIsHarmless(t: Table, o: RepoOnboarding) {
    forall n :: n != o.component && Lists(t, n, o.repoID) ==> IndexedTo(Rebuild(t), o.repoID, n)
  }

  ghost predicate Harmless(t: Table, e: Event) {
    match e
    case ComponentEvent(c) => ClaimIsHarmless(t, c)
    case OnboardingEvent(o) => MoveIsHarmless(t, o)
  }

  ghost predicate HarmlessAt(events: seq<Event>, i: nat)
    requires i < |events|
  {
    Harmless(SqlRun(events[..i]), events[i])
  }

  ghost predicate AlwaysHarmless(events: seq<Event>) {
    forall i :: 0 <= i < |events| ==> HarmlessAt(events, i)
  }

  ghost predicate AlwaysAgree(events: seq<Event>) {
    forall i :: 0 <= i <= |events| ==> Agree(MemRun(events[..i]), SqlRun(events[..i]))
  }

  /** What a component event does to the place of another component's repo in the index. */
  lemma ClaimIndexes(s: MemState, c: Component, n: string, r: string)
    requires Valid(s) && Agree(s, s.components) && n != c.name && Lists(s.components, n, r)
    ensures IndexedNotBefore(MemAddComponent(s, c).rtc, r, n)
       <==> if r in c.repoIDs then StrLt(n, c.name) else !IndexedTo(s.rtc, r, c.name)
  {
    AddComponentRefines(s, c);
    RebuildLast(s.components);
    StrLtTotal(n, c.name);
    if StrLt(n, c.name) {
      StrLtAsymmetric(n, c.name);
    }
    assert IndexedNotBefore(s.rtc, r, n);
  }

  lemma ClaimAgrees(s: MemState, c: Component)
    requires Valid(s) && Agree(s, s.components)
    ensures Agree(MemAddComponent(s, c), SqlAddComponent(s.components, c)) <==> ClaimIsHarmless(s.components, c)
  {
    var s' := MemAddComponent(s, c);
    AddComponentRefines(s, c);
    TeamIndex(s');
    IndexEqualsRebuild(s');
    forall r | Lists(s'.components, c.name, r) ensures IndexedNotBefore(s'.rtc, r, c.name) {
      NotBeforeItself(c.name);
    }
    forall n, r | n != c.name && Lists(s.components, n, r)
      ensures IndexedNotBefore(s'.rtc, r, n)
         <==> if r in c.repoIDs then StrLt(n, c.name) else !IndexedTo(s.rtc, r, c.name)
    {
      ClaimIndexes(s, c, n, r);
    }
    forall n, r | n != c.name ensures Lists(s'.components, n, r) <==> Lists(s.components, n, r) {
    }
  }

  lemma NotBeforeItself(n: string)
    ensures !StrLt(n, n)
  {
    if StrLt(n, n) {
      StrLtAsymmetric(n, n);
    }
  }

  lemma MoveAgrees(s: MemState, o: RepoOnboarding)
    requires Valid(s) && Agree(s, s.components)
    ensures Agree(MemOnboard(s, o), SqlOnboard(s.components, o)) <==> MoveIsHarmless(s.components, o)
  {
    OnboardTablesAgree(s, o);
    if MoveIsHarmless(s.components, o) {
      MoveKeepsIndex(s, o);
    }
  }

  lemma MoveKeepsIndex(s: MemState, o: RepoOnboarding)
    requires Valid(s) && Agree(s, s.components) && MoveIsHarmless(s.components, o)
    ensures Agree(MemOnboard(s, o), MemOnboard(s, o).components)
  {
    var s' := MemOnboard(s, o);
    OnboardRefines(s, o);
    TeamIndex(s');
    RebuildLast(s.components);
    IndexEqualsRebuild(s');
    forall n, r | Lists(s'.components, n, r) ensures IndexedNotBefore(s'.rtc, r, n) {
      if r != o.repoID {
        OnboardLists(s, o, n, r);
        assert IndexedNotBefore(s.rtc, r, n);
      } else {
        if n != o.component {
          OthersLoseIt(s, o, n);
        }
        NotBeforeItself(n);
      }
    }
  }

  /** After a harmless move only the new component lists the repo. */
  lemma OthersLoseIt(s: MemState, o: RepoOnboarding, n: string)
    requires Agree(s, s.components) && MoveIsHarmless(s.components, o) && n != o.component
    ensures !Lists(MemOnboard(s, o).components, n, o.repoID)
  {
    StripKeeps(s, o, n);
    if n in s.components {
      WithoutMembers(s.components[n].repoIDs, o.repoID);
      assert !Lists(s.components, n, o.repoID) || IndexedTo(s.rtc, o.repoID, n);
    }
  }

  lemma StepAgrees(s: MemState, t: Table, e: Event)
    requires Valid(s) && Agree(s, t)
    ensures Agree(MemStep(s, e), SqlStep(t, e)) <==> Harmless(t, e)
  {
    match e
    case ComponentEvent(c) => ClaimAgrees(s, c);
    case OnboardingEvent(o) => MoveAgrees(s, o);
  }

  lemma PrefixOf<T>(s: seq<T>, n: nat, i: nat)
    requires i <= n <= |s|
    ensures s[..n][..i] == s[..i]
  {
  }

  lemma AlwaysAgreeNext(events: seq<Event>, n: nat)
    requires n + 1 == |events|
    ensures AlwaysAgree(events) <==> AlwaysAgree(events[..n]) && Agree(MemRun(events), SqlRun(events))
  {
    forall i | 0 <= i <= n ensures events[..n][..i] == events[..i] {
      PrefixOf(events, n, i);
    }
    assert events[..n + 1] == events;
  }

  lemma HarmlessInPrefix(events: seq<Event>, n: nat, i: nat)
    requires i < n <= |events|
    ensures HarmlessAt(events[..n], i) <==> HarmlessAt(events, i)
  {
    PrefixOf(events, n, i);
  }

  lemma AlwaysHarmlessNext(events: seq<Event>, n: nat)
    requires n + 1 == |events|
    ensures AlwaysHarmless(events) <==> AlwaysHarmless(events[..n]) && HarmlessAt(events, n)
  {
    forall i | 0 <= i < n ensures HarmlessAt(events[..n], i) <==> HarmlessAt(events, i) {
      HarmlessInPrefix(events, n, i);
    }
  }

  /** Main result: both backends hold the same table and the same indexes all through a run
      of events if and only if every event is harmless for the table it meets. */
  lemma {:induction false} BackendsAgree(events: seq<Event>)
    ensures AlwaysAgree(events) <==> AlwaysHarmless(events)
    ensures AlwaysAgree(events) ==> Agree(MemRun(events), SqlRun(events))
  {
    if events == [] {
      assert events[..0] == [];
      EmptyAgrees();
    } else {
      var n := |events| - 1;
      BackendsAgree(events[..n]);
      MemoryIndexRefines(events[..n]);
      AlwaysAgreeNext(events, n);
      AlwaysHarmlessNext(events, n);
      if Agree(MemRun(events[..n]), SqlRun(events[..n])) {
        StepAgrees(MemRun(events[..n]), SqlRun(events[..n]), events[n]);
      }
    }
  }

  lemma EmptyAgrees()
    ensures Agree(EmptyMem, map[])
  {
    RebuildLast(map[]);
    assert forall r :: r in Rebuild(map[]) ==> IndexedTo(Rebuild(map[]), r, Rebuild(map[])[r]);
  }

  // ---- claims that do not overlap

  /** No repo of the event is listed by another component at that moment. */
  ghost predicate ClaimsOnlyItsOwn(t: Table, e: Event) {
    e.ComponentEvent? ==> forall n, r :: n != e.c.name && r in e.c.repoIDs ==> !Lists(t, n, r)
  }

  ghost predicate NoOverlappingClaims(events: seq<Event>) {
    forall i :: 0 <= i < |events| ==> ClaimsOnlyItsOwn(SqlRun(events[..i]), events[i])
  }

  /** No repo is listed twice. */
  ghost predicate ListedOnce(t: Table) {
    forall m, n, r :: Lists(t, m, r) && Lists(t, n, r) ==> m == n
  }

  lemma StripAllLists(t: Table, o: RepoOnboarding, n: string, r: string)
    ensures Lists(SqlOnboard(t, o), n, r) <==> if r == o.repoID then n == o.component else Lists(t, n, r)
  {
    if n in t {
      WithoutMembers(t[n].repoIDs, o.repoID);
    }
  }

  lemma ListedOnceIsIndexed(t: Table, n: string, r: string)
    requires ListedOnce(t) && Lists(t, n, r)
    ensures IndexedTo(Rebuild(t), r, n)
  {
    RebuildLast(t);
    assert IndexedNotBefore(Rebuild(t), r, n);
    assert IndexedTo(Rebuild(t), r, Rebuild(t)[r]);
  }

  lemma ClaimKeepsListedOnce(t: Table, e: Event)
    requires ListedOnce(t) && ClaimsOnlyItsOwn(t, e)
    ensures Harmless(t, e) && ListedOnce(SqlStep(t, e))
  {
    forall n, r | Lists(t, n, r) ensures IndexedTo(Rebuild(t), r, n) {
      ListedOnceIsIndexed(t, n, r);
    }
    match e
    case ComponentEvent(c) =>
      forall n, r | n != c.name ensures Lists(SqlStep(t, e), n, r) <==> Lists(t, n, r) {
      }
    case OnboardingEvent(o) =>
      forall n, r ensures Lists(SqlStep(t, e), n, r) <==> if r == o.repoID then n == o.component else Lists(t, n, r) {
        StripAllLists(t, o, n, r);
      }
  }

  /** Events that claim no repo another component lists are harmless. */
  lemma {:induction false} OwnClaimsAreHarmless(events: seq<Event>)
    requires NoOverlappingClaims(events)
    ensures AlwaysHarmless(events) && ListedOnce(SqlRun(events))
  {
    if events != [] {
      var n := |events| - 1;
      forall i | 0 <= i < n ensures events[..n][..i] == events[..i] && events[..n][i] == events[i] {
        PrefixOf(events, n, i);
      }
      OwnClaimsAreHarmless(events[..n]);
      ClaimKeepsListedOnce(SqlRun(events[..n]), events[n]);
      AlwaysHarmlessNext(events, n);
    }
  }

  /** They need not be: a claim by a later name is harmless, as long as it is kept. */
  lemma {:induction false} OverlapCanBeHarmless()
    ensures var events := [ComponentEvent(Component("a", "t", ["r"])), ComponentEvent(Component("b", "t", ["r"]))];
      AlwaysHarmless(events) && !NoOverlappingClaims(events)
  {
    var ca, cb := Component("a", "t", ["r"]), Component("b", "t", ["r"]);
    var first, events := [ComponentEvent(ca)], [ComponentEvent(ca), ComponentEvent(cb)];
    assert events[..1] == first && events[..0] == first[..0] == [];
    assert SqlRun(first) == SqlAddComponent(SqlRun([]), ca);
    assert Lists(SqlRun(first), "a", "r");
    assert StrLt("a", "b");
    assert !ClaimsOnlyItsOwn(SqlRun(events[..1]), events[1]);
    assert HarmlessAt(events, 0) && HarmlessAt(events, 1);
  }

  /** With an overlapping claim they can part: memory goes by the last write, the
      rebuild by the name. */
  lemma OverlappingClaimsDiffer()
    ensures var events := [ComponentEvent(Component("b", "t", ["r"])), ComponentEvent(Component("a", "t", ["r"]))];
      IndexedTo(MemRun(events).rtc, "r", "a") && IndexedTo(Rebuild(SqlRun(events)), "r", "b")
  {
    var cb, ca := Component("b", "t", ["r"]), Component("a", "t", ["r"]);
    var first, events := [ComponentEvent(cb)], [ComponentEvent(cb), ComponentEvent(ca)];
    assert events[..1] == first && first[..0] == [];
    MemoryIndexRefines(events);
    assert AbsRun(events) == AbsAddComponent(AbsRun(first), ca);
    assert SqlRun(first) == SqlAddComponent(SqlRun([]), cb);
    assert SqlRun(events) == SqlAddComponent(SqlRun(first), ca);
    LaterNameWins(SqlRun(events));
  }

  lemma LaterNameWins(t: Table)
    requires t.Keys == {"a", "b"} && Lists(t, "b", "r")
    ensures IndexedTo(Rebuild(t), "r", "b")
  {
    RebuildLast(t);
    assert IndexedNotBefore(Rebuild(t), "r", "b");
    assert IndexedTo(Rebuild(t), "r", Rebuild(t)["r"]);
    assert Lists(t, Rebuild(t)["r"], "r");
    assert StrLt("a", "b");
  }

  // ---- closed form for onboarding

  /** Whether some event names the repo, and the last one that does. */
  function LastFor(os: seq<RepoOnboarding>, repo: string): Option<RepoOnboarding> {
    if os == [] then None
    else if os[|os| - 1].repoID == repo then Some(os[|os| - 1])
    else LastFor(os[..|os| - 1], repo)
  }

  function LastNaming(os: seq<RepoOnboarding>, component: string): Option<RepoOnboarding> {
    if os == [] then None
    else if os[|os| - 1].component == component then Some(os[|os| - 1])
    else LastNaming(os[..|os| - 1], component)
  }

  function Onboardings(os: seq<RepoOnboarding>): seq<Event> {
    Map(os, (o: RepoOnboarding) => OnboardingEvent(o))
  }

  lemma OnboardingsNeverOverlap(os: seq<RepoOnboarding>)
    ensures NoOverlappingClaims(Onboardings(os))
  {
  }

  lemma WithoutNoDuplicates(s: seq<string>, x: string)
    requires NoDuplicates(s)
    ensures NoDuplicates(Without(s, x))
  {
    SelectNoDuplicates(s, IsNot(x));
  }

  /** The last event naming repo r named component n. */
  ghost predicate LastSent(os: seq<RepoOnboarding>, r: string, n: string) {
    LastFor(os, r).Some? && LastFor(os, r).value.component == n
  }

  /** What the tables hold after onboarding events: for component n. */
  ghost predicate ClosedAt(os: seq<RepoOnboarding>, s: MemState, n: string) {
    && (n in s.components <==> LastNaming(os, n).Some?)
    && (n in s.components ==>
          s.components[n].teamName == LastNaming(os, n).value.team && NoDuplicates(s.components[n].repoIDs))
  }

  ghost predicate Closed(os: seq<RepoOnboarding>, s: MemState) {
    && (forall n, r :: IndexedTo(s.rtc, r, n) <==> LastSent(os, r, n))
    && (forall n, r :: Lists(s.components, n, r) <==> LastSent(os, r, n))
    && (forall n :: ClosedAt(os, s, n))
  }

  /** Main result: after any onboarding events a repo is listed, once, in the component
      its last event named and in no other; the components are those some event named;
      each has the team of the last event naming it; and both backends hold that table. */
  lemma {:induction false} OnboardingClosedForm(os: seq<RepoOnboarding>)
    ensures Closed(os, MemRun(Onboardings(os)))
    ensures SqlRun(Onboardings(os)) == MemRun(Onboardings(os)).components
  {
    OnboardingsClose(os);
    OnboardingsNeverOverlap(os);
    OwnClaimsAreHarmless(Onboardings(os));
    BackendsAgree(Onboardings(os));
  }

  lemma {:induction false} OnboardingsClose(os: seq<RepoOnboarding>)
    ensures Closed(os, MemRun(Onboardings(os)))
  {
    if os != [] {
      var init, o := os[..|os| - 1], os[|os| - 1];
      OnboardingsClose(init);
      var events := Onboardings(os);
      assert events[..|events| - 1] == Onboardings(init);
      ClosedStep(init, MemRun(Onboardings(init)), o);
      assert init + [o] == os;
    }
  }

  lemma LastSnoc(os: seq<RepoOnboarding>, o: RepoOnboarding)
    ensures forall r :: LastFor(os + [o], r) == if o.repoID == r then Some(o) else LastFor(os, r)
    ensures forall n :: LastNaming(os + [o], n) == if o.component == n then Some(o) else LastNaming(os, n)
  {
    assert (os + [o])[..|os|] == os;
  }

  lemma ClosedStep(os: seq<RepoOnboarding>, s: MemState, o: RepoOnboarding)
    requires Closed(os, s)
    ensures Closed(os + [o], MemOnboard(s, o))
  {
    var os', s' := os + [o], MemOnboard(s, o);
    LastSnoc(os, o);
    forall n, r ensures IndexedTo(s'.rtc, r, n) <==> LastSent(os', r, n) {
      assert IndexedTo(s.rtc, r, n) <==> LastSent(os, r, n);
    }
    forall n, r ensures Lists(s'.components, n, r) <==> LastSent(os', r, n) {
      if r == o.repoID {
        StripRemoves(os, s, o, n);
      } else {
        OnboardLists(s, o, n, r);
        assert Lists(s.components, n, r) <==> LastSent(os, r, n);
      }
    }
    forall n ensures ClosedAt(os', s', n) {
      assert ClosedAt(os, s, n);
      StripKeeps(s, o, n);
      if n in s.components {
        WithoutNoDuplicates(s.components[n].repoIDs, o.repoID);
      }
    }
  }

  /** The repo is gone from every component but its new one. */
  lemma StripRemoves(os: seq<RepoOnboarding>, s: MemState, o: RepoOnboarding, n: string)
    requires Closed(os, s)
    ensures Lists(MemOnboard(s, o).components, n, o.repoID) <==> n == o.component
  {
    if n in s.components {
      WithoutMembers(s.components[n].repoIDs, o.repoID);
      assert Lists(s.components, n, o.repoID) <==> LastSent(os, o.repoID, n);
      assert IndexedTo(s.rtc, o.repoID, n) <==> LastSent(os, o.repoID, n);
    }
    StripKeeps(s, o, n);
  }

  /** Re-applying an onboarding event changes nothing, in either backend. */
  lemma OnboardingIsIdempotent(s: MemState, t: Table, o: RepoOnboarding)
    ensures MemOnboard(MemOnboard(s, o), o) == MemOnboard(s, o)
    ensures SqlOnboard(SqlOnboard(t, o), o) == SqlOnboard(t, o)
  {
    MemOnboardTwice(s, o);
    SqlOnboardTwice(t, o);
  }

  lemma MemOnboardTwice(s: MemState, o: RepoOnboarding)
    ensures MemOnboard(MemOnboard(s, o), o) == MemOnboard(s, o)
  {
    var once := MemOnboard(s, o);
    assert once.components[o.component] == Target(once.components, o);
    assert StripIndexed(once, o) == once.components;
  }

  lemma SqlOnboardTwice(t: Table, o: RepoOnboarding)
    ensures SqlOnboard(SqlOnboard(t, o), o) == SqlOnboard(t, o)
  {
    var once := SqlOnboard(t, o);
    forall n | n in once ensures StripAll(once, o)[n] == once[n] {
      if n != o.component {
        WithoutMembers(t[n].repoIDs, o.repoID);
        SelectAll(once[n].repoIDs, IsNot(o.repoID));
      }
    }
    assert StripAll(once, o) == once;
    assert once[o.component] == Target(once, o);
  }
}
