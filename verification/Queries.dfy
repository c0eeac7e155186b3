/** Sorting, paging and the shared query loop. */
module Queries {
  import opened Seqs
  import opened Sorting
  import opened Values
  import opened Filters
  import opened SortKeys

  /** x has been swapped down to place j; the elements above it have moved up by one. */
  ghost predicate Sifting<T>(s: seq<T>, done: seq<T>, j: nat, x: T) {
    && j <= |done| && |s| == |done| + 1 && s[j] == x && (forall k :: 0 <= k < j ==> s[k] == done[k])
    && forall k :: j < k < |s| ==> s[k] == done[k - 1]
  }

  lemma SiftOne<T>(s: seq<T>, done: seq<T>, j: nat, x: T)
    requires Sifting(s, done, j, x) && j > 0
    ensures Sifting(s[j := s[j - 1]][j - 1 := x], done, j - 1, x)
  {
  }

  lemma Sifted<T>(s: seq<T>, done: seq<T>, j: nat, x: T)
    requires Sifting(s, done, j, x)
    ensures s == done[..j] + [x] + done[j..]
  {
  }

  /** The inner loop of the sort: swaps element i down past the ones it is less than. */
  method SiftDown<T>(items: array<T>, i: nat, fields: seq<SortField>, project: T -> Item)
    requires i < items.Length
    modifies items
    ensures items[..i + 1] == Insert(old(items[..i]), old(items[i]), By(fields, project))
    ensures items[i + 1..] == old(items[i + 1..])
  {
    var x, less := items[i], By(fields, project);
    ghost var done, goal := items[..i], Insert(items[..i], items[i], less);
    var j := i;
    assert done[..i] == done && done[i..] == [];
    while j > 0 && Less(fields, project(items[j]), project(items[j - 1]))
      invariant 0 <= j <= i && Sifting(items[..i + 1], done, j, x)
      invariant Insert(done[..j], x, less) + done[j..] == goal
      invariant items[i + 1..] == old(items[i + 1..])
    {
      ghost var s := items[..i + 1];
      assert s[j] == items[j] && s[j - 1] == items[j - 1];
      InsertPasses(done, j, x, less);
      SiftOne(s, done, j, x);
      items[j], items[j - 1] := items[j - 1], items[j];
      assert items[..i + 1] == s[j := s[j - 1]][j - 1 := x];
      j := j - 1;
    }
    assert items[..i + 1][j] == items[j] && (j > 0 ==> items[..i + 1][j - 1] == items[j - 1]);
    InsertStays(done, j, x, less);
    Sifted(items[..i + 1], done, j, x);
  }

  lemma InsertPasses<T>(done: seq<T>, j: nat, x: T, less: (T, T) -> bool)
    requires 0 < j <= |done| && less(x, done[j - 1])
    ensures Insert(done[..j], x, less) + done[j..] == Insert(done[..j - 1], x, less) + done[j - 1..]
  {
    assert done[..j][..j - 1] == done[..j - 1];
    assert done[j - 1..] == [done[j - 1]] + done[j..];
  }

  lemma InsertStays<T>(done: seq<T>, j: nat, x: T, less: (T, T) -> bool)
    requires j <= |done| && (j > 0 ==> !less(x, done[j - 1]))
    ensures Insert(done[..j], x, less) == done[..j] + [x]
  {
    if j > 0 {
      assert done[..j][j - 1] == done[j - 1];
    }
  }

  /** Sorts in place, the way the library sorts a short slice: by insertion.  Where the fields rank
      the items, none ends up before one that is ahead of it. */
  method SortBy<T>(items: array<T>, fields: seq<SortField>, project: T -> Item)
    modifies items
    ensures SortOutcome(old(items[..]), items[..], By(fields, project))
    ensures OrderedByValues(old(items[..]), items[..], fields, project)
  {
    ghost var s := items[..];
    var i := 0;
    while i < items.Length
      invariant 0 <= i <= items.Length
      invariant items[..i] == StableSort(s[..i], By(fields, project))
      invariant items[i..] == s[i..]
    {
      assert s[..i + 1][..i] == s[..i];
      assert items[i] == items[i..][0] == s[i];
      ghost var rest := items[i..];
      SiftDown(items, i, fields, project);
      assert items[i + 1..] == rest[1..];
      i := i + 1;
    }
    assert s[..i] == s && items[..i] == items[..];
    SortPermutes(s, By(fields, project));
    SortedInValues(s, items[..], fields, project);
  }

  /** Where the fields rank the items of s, none in r stands before one that is ahead of it; by
      one field, the values ascend or descend. */
  ghost predicate OrderedByValues<T>(s: seq<T>, r: seq<T>, fields: seq<SortField>, project: T -> Item) {
    && ((forall k :: 0 <= k < |fields| ==> Ranked(s, fields[k].field, project)) ==>
          forall i, j :: 0 <= i < j < |r| ==> !Ahead(fields, project(r[j]), project(r[i])))
    && (|fields| == 1 && Ranked(s, fields[0].field, project) ==> InOrder(r, fields[0], project))
  }

  lemma SortedInValues<T>(s: seq<T>, r: seq<T>, fields: seq<SortField>, project: T -> Item)
    requires SortOutcome(s, r, By(fields, project))
    ensures OrderedByValues(s, r, fields, project)
  {
    if forall k :: 0 <= k < |fields| ==> Ranked(s, fields[k].field, project) {
      SortedByValues(s, r, fields, project);
    }
    if |fields| == 1 && Ranked(s, fields[0].field, project) {
      assert fields == [fields[0]];
      SortedByOne(s, r, fields[0], project);
    }
  }

  /** The page starting at `from` with at most `size` items, all of them if size is not positive. */
  function Paginate<T>(items: seq<T>, from: nat, size: int): seq<T> {
    if from >= |items| then []
    else if 0 < size < |items| - from then items[from..from + size]
    else items[from..]
  }

  datatype Query = Query(filter: Option<Filter>, sort: seq<SortField>, from: nat, size: int)

  /** The outcome of a query that streams its results: what was handed to `emit`, and whether it ended well. */
  datatype Stream<T> = Stream(emitted: seq<T>, ok: bool)

  predicate Accepts(f: Option<Filter>, item: Item) {
    MatchOptional(f, item) == Ok(true)
  }

  predicate Fails(f: Option<Filter>, item: Item) {
    MatchOptional(f, item).Err?
  }

  function AcceptedBy<T>(f: Option<Filter>, project: T -> Item): T -> bool {
    x => Accepts(f, project(x))
  }

  ghost predicate SomeFails<T>(snapshot: seq<T>, f: Option<Filter>, project: T -> Item) {
    exists i :: 0 <= i < |snapshot| && Fails(f, project(snapshot[i]))
  }

  /** The page a query selects: filter, stable sort, paginate. */
  function Page<T>(snapshot: seq<T>, q: Query, project: T -> Item): seq<T> {
    Paginate(StableSort(Select(snapshot, AcceptedBy(q.filter, project)), By(q.sort, project)), q.from, q.size)
  }

  lemma FilterNext<T>(snapshot: seq<T>, filter: Option<Filter>, project: T -> Item, i: nat, outcome: Result<bool>)
    requires i < |snapshot| && outcome == MatchOptional(filter, project(snapshot[i]))
    ensures outcome.Err? <==> Fails(filter, project(snapshot[i]))
    ensures Select(snapshot[..i + 1], AcceptedBy(filter, project))
         == Select(snapshot[..i], AcceptedBy(filter, project)) + if outcome == Ok(true) then [snapshot[i]] else []
  {
    SelectNext(snapshot, AcceptedBy(filter, project), i);
  }

  /** The filter loop shared by queries and aggregations. */
  method FilterSnapshot<T>(snapshot: seq<T>, filter: Option<Filter>, project: T -> Item)
    returns (r: Result<seq<T>>)
    ensures r.Err? <==> SomeFails(snapshot, filter, project)
    ensures r.Ok? ==> r.value == Select(snapshot, AcceptedBy(filter, project))
  {
    var filtered: seq<T> := [];
    for i := 0 to |snapshot|
      invariant filtered == Select(snapshot[..i], AcceptedBy(filter, project))
      invariant forall k :: 0 <= k < i ==> !Fails(filter, project(snapshot[k]))
    {
      var outcome := MatchOptional(filter, project(snapshot[i]));
      FilterNext(snapshot, filter, project, i, outcome);
      if outcome.Err? {
        return Err;
      }
      if outcome.value {
        filtered := filtered + [snapshot[i]];
      }
    }
    assert snapshot[..|snapshot|] == snapshot;
    return Ok(filtered);
  }

  /** Calls emit on the items in turn; `emitOk(k)` says whether the k-th call
      succeeds, and the first that does not ends the stream. */
  method EmitAll<T>(page: seq<T>, emitOk: nat -> bool) returns (r: Stream<T>)
    ensures r.emitted <= page
    ensures r.ok ==> r.emitted == page && forall k :: 0 <= k < |page| ==> emitOk(k)
    ensures !r.ok ==>
              && r.emitted != [] && !emitOk(|r.emitted| - 1)
              && forall k :: 0 <= k < |r.emitted| - 1 ==> emitOk(k)
  {
    var emitted: seq<T> := [];
    for i := 0 to |page|
      invariant emitted == page[..i]
      invariant forall k :: 0 <= k < i ==> emitOk(k)
    {
      emitted := emitted + [page[i]];
      if !emitOk(i) {
        return Stream(emitted, false);
      }
    }
    return Stream(emitted, true);
  }

  /** The items handed to emit are a prefix of the page: the whole of it unless some call of
      emit failed, and then up to the first that did. */
  ghost predicate Streamed<T>(page: seq<T>, emitOk: nat -> bool, r: Stream<T>) {
    && r.emitted <= page
    && (r.ok ==> r.emitted == page)
    && (r.ok <==> forall k :: 0 <= k < |page| ==> emitOk(k))
    && (!r.ok ==>
          && r.emitted != [] && !emitOk(|r.emitted| - 1)
          && forall k :: 0 <= k < |r.emitted| - 1 ==> emitOk(k))
  }

  lemma StreamedMap<S, T>(page: seq<S>, f: S -> T, emitOk: nat -> bool, r: Stream<S>)
    requires Streamed(page, emitOk, r)
    ensures Streamed(Map(page, f), emitOk, Stream(Map(r.emitted, f), r.ok))
  {
  }

  /** The shared query loop: filter, sort, paginate, emit.  A filter failure emits nothing;
      otherwise a page of the sorted matches is streamed: the page of the query, whenever
      its sort fields order the matches. */
  method QueryEntities<T>(snapshot: seq<T>, q: Query, project: T -> Item, emitOk: nat -> bool)
    returns (r: Stream<T>, ghost sorted: seq<T>)
    ensures SomeFails(snapshot, q.filter, project) ==> r == Stream([], false)
    ensures !SomeFails(snapshot, q.filter, project) ==>
              && SortOutcome(Select(snapshot, AcceptedBy(q.filter, project)), sorted, By(q.sort, project))
              && Streamed(Paginate(sorted, q.from, q.size), emitOk, r)
    ensures !SomeFails(snapshot, q.filter, project) && Orders(snapshot, q, project) ==>
              Streamed(Page(snapshot, q, project), emitOk, r)
  {
    var filtered := FilterSnapshot(snapshot, q.filter, project);
    if filtered.Err? {
      return Stream([], false), [];
    }
    var items := SortedCopy(filtered.value, q.sort, project);
    sorted := items;
    r := EmitAll(Paginate(items, q.from, q.size), emitOk);
  }

  /** The matches are a fresh slice, sorted in place. */
  method SortedCopy<T>(items: seq<T>, fields: seq<SortField>, project: T -> Item) returns (sorted: seq<T>)
    ensures SortOutcome(items, sorted, By(fields, project))
  {
    var a := new T[|items|](i requires 0 <= i < |items| => items[i]);
    assert a[..] == items;
    SortBy(a, fields, project);
    sorted := a[..];
  }

  /** The sort fields of the query order the items it matches. */
  ghost predicate Orders<T>(snapshot: seq<T>, q: Query, project: T -> Item) {
    StrictWeakOrder(Elements(Select(snapshot, AcceptedBy(q.filter, project))), By(q.sort, project))
  }
}
