/** What a multi-key sort is, and why pages taken from different iterations of the same state
    fit together. */
module QueryLaws {
  import opened Seqs
  import opened Sorting
  import opened Values
  import opened Queries
  import opened SortKeys

  // ---- multi-key sort

  /** Stable-sorts by the last key first, the first key last. */
  function SortKeyByKey<T>(s: seq<T>, fields: seq<SortField>, project: T -> Item): seq<T> {
    if fields == [] then s
    else StableSort(SortKeyByKey(s, fields[1..], project), By([fields[0]], project))
  }

  lemma SortByNothing<T>(s: seq<T>, project: T -> Item)
    ensures StableSort(s, By([], project)) == s
  {
    StableSortUnique(s, s, By([], project));
  }

  lemma SortedByBoth<T>(r: seq<T>, t: seq<T>, fields: seq<SortField>, project: T -> Item)
    requires fields != []
    requires StrictWeakOrder(Elements(r), By([fields[0]], project))
    requires StrictWeakOrder(Elements(r), By(fields[1..], project))
    requires Sorted(t, By(fields[1..], project))
    requires Sorted(r, By([fields[0]], project)) && KeepsTies(t, r, By([fields[0]], project))
    requires Permutation(r, t)
    ensures Sorted(r, By(fields, project))
  {
    var first, rest, less := By([fields[0]], project), By(fields[1..], project), By(fields, project);
    LexicographicOrder(Elements(r), fields, project);
    PermutationMembers(r, t);
    forall i, j | 0 <= i < j < |r| ensures !less(r[j], r[i]) {
      assert r[i] in Elements(r) && r[j] in Elements(r);
      if Tied(r[j], r[i], first) {
        var p := TiedWith(r[i], first);
        assert r[i] in t;
        SelectSorted(t, p, rest);
        SelectKeepsOrder(r, p, i, j, rest);
      }
    }
  }

  lemma {:induction false} SelectKeepsOrder<T>(s: seq<T>, p: T -> bool, i: nat, j: nat, less: (T, T) -> bool)
    requires i < j < |s| && p(s[i]) && p(s[j]) && Sorted(Select(s, p), less)
    ensures !less(s[j], s[i])
  {
    var front, back := Select(s[..i], p), Select(s[i + 1..], p);
    SplitAt(s, p, i);
    assert s[j] == s[i + 1..][j - i - 1];
    assert s[j] in back;
    var k :| 0 <= k < |back| && back[k] == s[j];
    assert Select(s, p)[|front|] == s[i] && Select(s, p)[|front| + 1 + k] == s[j];
  }

  lemma {:induction false} TiesWithinTies<T>(s: seq<T>, t: seq<T>, r: seq<T>, fields: seq<SortField>,
                                             project: T -> Item)
    requires fields != []
    requires StrictWeakOrder(Elements(s), By([fields[0]], project))
    requires StrictWeakOrder(Elements(s), By(fields[1..], project))
    requires Permutation(s, t) && Permutation(s, r)
    requires KeepsTies(s, t, By(fields[1..], project))
    requires KeepsTies(t, r, By([fields[0]], project))
    ensures KeepsTies(s, r, By(fields, project))
  {
    var first, rest, less := By([fields[0]], project), By(fields[1..], project), By(fields, project);
    LexicographicOrder(Elements(s), fields, project);
    PermutationElements(s, t);
    PermutationElements(s, r);
    forall x | x in s ensures Select(r, TiedWith(x, less)) == Select(s, TiedWith(x, less)) {
      assert x in Elements(t);
      forall y | y in Elements(s)
        ensures TiedWith(x, less)(y) == (TiedWith(x, first)(y) && TiedWith(x, rest)(y))
      {
        assert x in Elements(s);
      }
      forall u | u == r || u == t
        ensures Select(Select(u, TiedWith(x, first)), TiedWith(x, rest)) == Select(u, TiedWith(x, less))
      {
        assert forall y :: y in u ==> y in Elements(u);
        SelectSelect(u, TiedWith(x, first), TiedWith(x, rest), TiedWith(x, less));
      }
      forall u | u == s || u == t
        ensures Select(Select(u, TiedWith(x, rest)), TiedWith(x, first)) == Select(u, TiedWith(x, less))
      {
        assert forall y :: y in u ==> y in Elements(u);
        SelectSelect(u, TiedWith(x, rest), TiedWith(x, first), TiedWith(x, less));
      }
    }
  }

  /** Main result: sorting by the keys at once is sorting by each of them in turn,
      least significant first. */
  lemma {:induction false} SortIsKeyByKey<T>(s: seq<T>, fields: seq<SortField>, project: T -> Item)
    requires EachFieldOrders(Elements(s), fields, project)
    ensures SortKeyByKey(s, fields, project) == StableSort(s, By(fields, project))
  {
    if fields == [] {
      SortByNothing(s, project);
    } else {
      forall i | 0 <= i < |fields[1..]| ensures OneKind(Elements(s), fields[1..][i].field, project) {
        assert fields[1..][i] == fields[i + 1];
      }
      SortIsKeyByKey(s, fields[1..], project);
      var first, rest := By([fields[0]], project), By(fields[1..], project);
      OneFieldOrder(Elements(s), fields[0], project);
      FieldsOrder(Elements(s), fields[1..], project);
      FieldsOrder(Elements(s), fields, project);
      var t := StableSort(s, rest);
      SortSpec(s, rest);
      PermutationElements(t, s);
      var r := StableSort(t, first);
      SortSpec(t, first);
      PermutationElements(r, t);
      SortedByBoth(r, t, fields, project);
      TiesWithinTies(s, t, r, fields, project);
      StableSortUnique(s, r, By(fields, project));
    }
  }

  // ---- paging

  /** A page starts at its offset, keeps the order, and has `size` items while there are as many. */
  lemma PageIsWindow<T>(items: seq<T>, from: nat, size: int)
    ensures var page := Paginate(items, from, size);
      && (forall k :: 0 <= k < |page| ==> from + k < |items| && page[k] == items[from + k])
      && (size > 0 ==> |page| <= size && (|page| < size ==> from + |page| >= |items|))
      && (size <= 0 ==> from + |page| >= |items|)
  {
  }

  /** Successive pages of `size` items, from offset `from` on. */
  function Pages<T>(items: seq<T>, from: nat, size: nat): seq<T>
    requires size > 0
    decreases |items| - from
  {
    if from >= |items| then [] else Paginate(items, from, size) + Pages(items, from + size, size)
  }

  lemma {:induction false} PagesTile<T>(items: seq<T>, from: nat, size: nat)
    requires size > 0
    ensures Pages(items, from, size) == if from >= |items| then [] else items[from..]
    decreases |items| - from
  {
    if from < |items| {
      PagesTile(items, from + size, size);
    }
  }

  ghost predicate TiesAreEqual<T>(s: seq<T>, fields: seq<SortField>, project: T -> Item) {
    forall a, b :: a in s && b in s && Tied(a, b, By(fields, project)) ==> a == b
  }

  /** A query's answer is the same for every order the snapshot is listed in,
      exactly when matching items that tie on all sort fields are equal. */
  lemma {:induction false} QueryOrderIndependent<T(!new)>(s: seq<T>, q: Query, project: T -> Item)
    requires Orders(s, q, project)
    ensures TiesAreEqual(Select(s, AcceptedBy(q.filter, project)), q.sort, project)
       <==> (forall t, from: nat, size ::
               Permutation(s, t) ==>
                 Page(t, q.(from := from, size := size), project) == Page(s, q.(from := from, size := size), project))
  {
    var p, less := AcceptedBy(q.filter, project), By(q.sort, project);
    var m := Select(s, p);
    if TiesAreEqual(m, q.sort, project) {
      forall t | Permutation(s, t) ensures StableSort(Select(t, p), less) == StableSort(m, less) {
        SelectPermutation(s, t, p);
        SortOrderIndependent(m, Select(t, p), less);
      }
    } else {
      var a, b :| a in m && b in m && Tied(a, b, less) && a != b;
      var n := TiesShow(m, a, b, less);
      var t := Rearranged(s, p, n);
      var all := q.(from := 0, size := 0);
      WholePage(t, all, project);
      WholePage(s, all, project);
      assert Page(t, all, project) != Page(s, all, project);
    }
  }

  lemma WholePage<T>(s: seq<T>, q: Query, project: T -> Item)
    requires q.from == 0 && q.size == 0
    ensures Page(s, q, project) == StableSort(Select(s, AcceptedBy(q.filter, project)), By(q.sort, project))
  {
  }

  function Offset(page: nat, size: nat): nat {
    page * size
  }

  /** Pages taken one by one from different listings of the same state. */
  function PagesAcross<T>(listing: nat -> seq<T>, q: Query, project: T -> Item, size: nat, k: nat, n: nat): seq<T>
    requires k <= n
    decreases n - k
  {
    if k == n then []
    else
      Page(listing(k), q.(from := Offset(k, size), size := size), project)
      + PagesAcross(listing, q, project, size, k + 1, n)
  }

  function From<T>(items: seq<T>, from: nat): seq<T> {
    if from >= |items| then [] else items[from..]
  }

  lemma PageThenRest<T>(items: seq<T>, k: nat, size: nat)
    requires size > 0
    ensures Paginate(items, Offset(k, size), size) + From(items, Offset(k + 1, size)) == From(items, Offset(k, size))
  {
    assert Offset(k + 1, size) == Offset(k, size) + size;
  }

  lemma {:induction false} PagesAcrossTile<T(!new)>(listing: nat -> seq<T>, s: seq<T>, q: Query, project: T -> Item,
                                                    size: nat, k: nat, n: nat)
    requires k <= n && size > 0
    requires Orders(s, q, project)
    requires TiesAreEqual(Select(s, AcceptedBy(q.filter, project)), q.sort, project)
    requires forall i :: Permutation(s, listing(i))
    ensures var all := Page(s, q.(from := 0, size := 0), project);
      PagesAcross(listing, q, project, size, k, n) + From(all, Offset(n, size)) == From(all, Offset(k, size))
    decreases n - k
  {
    if k < n {
      var all := Page(s, q.(from := 0, size := 0), project);
      PagesAcrossTile(listing, s, q, project, size, k + 1, n);
      OnePageAcross(listing(k), s, q, project, Offset(k, size), size);
      PageThenRest(all, k, size);
      ConcatAssociative(Page(listing(k), q.(from := Offset(k, size), size := size), project),
                        PagesAcross(listing, q, project, size, k + 1, n), From(all, Offset(n, size)));
    }
  }

  /** A page of any order of the snapshot is that page of the sorted matches. */
  lemma OnePageAcross<T(!new)>(t: seq<T>, s: seq<T>, q: Query, project: T -> Item, from: nat, size: int)
    requires Orders(s, q, project)
    requires TiesAreEqual(Select(s, AcceptedBy(q.filter, project)), q.sort, project) && Permutation(s, t)
    ensures Page(t, q.(from := from, size := size), project)
         == Paginate(Page(s, q.(from := 0, size := 0), project), from, size)
  {
    QueryOrderIndependent(s, q, project);
    WholePage(s, q.(from := 0, size := 0), project);
    assert Page(t, q.(from := from, size := size), project) == Page(s, q.(from := from, size := size), project);
  }

  /** Main result: as long as the sort fields separate the matching items, pages
      fetched from separate iterations concatenate to the sorted matches, nothing
      lost and nothing repeated. */
  lemma {:induction false} PagesOfSeparateIterations<T(!new)>(listing: nat -> seq<T>, s: seq<T>, q: Query,
                                                              project: T -> Item, size: nat, n: nat)
    requires size > 0 && |s| <= Offset(n, size)
    requires Orders(s, q, project)
    requires TiesAreEqual(Select(s, AcceptedBy(q.filter, project)), q.sort, project)
    requires forall i :: Permutation(s, listing(i))
    ensures PagesAcross(listing, q, project, size, 0, n)
         == StableSort(Select(s, AcceptedBy(q.filter, project)), By(q.sort, project))
  {
    var m := Select(s, AcceptedBy(q.filter, project));
    SortPermutes(m, By(q.sort, project));
    PermutationElements(StableSort(m, By(q.sort, project)), m);
    WholePage(s, q.(from := 0, size := 0), project);
    PagesAcrossTile(listing, s, q, project, size, 0, n);
  }
}
