/** The library sort used by the query engine, specified by the insertion it
    performs, and the fact that makes it a specification: over a strict weak
    order there is exactly one sorted sequence that keeps ties in their original
    order. */
module Sorting {
  import opened Seqs

  function Insert<T>(t: seq<T>, x: T, less: (T, T) -> bool): seq<T> {
    if t == [] || !less(x, t[|t| - 1]) then t + [x]
    else Insert(t[..|t| - 1], x, less) + [t[|t| - 1]]
  }

  function StableSort<T>(s: seq<T>, less: (T, T) -> bool): seq<T> {
    if s == [] then [] else Insert(StableSort(s[..|s| - 1], less), s[|s| - 1], less)
  }

  /** The order laws on the elements of `dom`: a smaller one is not larger, and
      whoever is below c is below b or has b below c.  The second law is
      transitivity of `less` and of being tied, in one. */
  ghost predicate StrictWeakOrder<T>(dom: set<T>, less: (T, T) -> bool) {
    && (forall a, b {:trigger less(a, b)} :: a in dom && b in dom && less(a, b) ==> !less(b, a))
    && (forall a, b, c {:trigger less(a, b), less(b, c)} ::
          a in dom && b in dom && c in dom && less(a, c) ==> less(a, b) || less(b, c))
  }

  ghost function Elements<T>(s: seq<T>): set<T> {
    set x | x in s
  }

  lemma ElementsSnoc<T>(s: seq<T>, x: T)
    ensures Elements(s + [x]) == Elements(s) + {x}
  {
  }

  ghost predicate Sorted<T>(s: seq<T>, less: (T, T) -> bool) {
    forall i, j :: 0 <= i < j < |s| ==> !less(s[j], s[i])
  }

  predicate Tied<T>(a: T, b: T, less: (T, T) -> bool) {
    !less(a, b) && !less(b, a)
  }

  function TiedWith<T>(x: T, less: (T, T) -> bool): T -> bool {
    y => Tied(x, y, less)
  }

  /** `t` has each group of ties in the order `s` has it. */
  ghost predicate KeepsTies<T>(s: seq<T>, t: seq<T>, less: (T, T) -> bool) {
    forall x :: x in s ==> Select(t, TiedWith(x, less)) == Select(s, TiedWith(x, less))
  }

  lemma {:induction false} InsertPermutes<T>(t: seq<T>, x: T, less: (T, T) -> bool)
    ensures multiset(Insert(t, x, less)) == multiset(t) + multiset{x}
  {
    if t == [] || !less(x, t[|t| - 1]) {
    } else {
      InsertPermutes(t[..|t| - 1], x, less);
      assert t == t[..|t| - 1] + [t[|t| - 1]];
    }
  }

  lemma {:induction false} SortPermutes<T>(s: seq<T>, less: (T, T) -> bool)
    ensures Permutation(StableSort(s, less), s)
    ensures Elements(StableSort(s, less)) == Elements(s)
  {
    if s != [] {
      SortPermutes(s[..|s| - 1], less);
      InsertPermutes(StableSort(s[..|s| - 1], less), s[|s| - 1], less);
      assert s == s[..|s| - 1] + [s[|s| - 1]];
    }
    PermutationElements(StableSort(s, less), s);
  }

  lemma PermutationElements<T>(s: seq<T>, t: seq<T>)
    requires Permutation(s, t)
    ensures Elements(s) == Elements(t) && |s| == |t|
  {
    PermutationMembers(s, t);
  }

  lemma {:induction false} InsertSorted<T>(t: seq<T>, x: T, less: (T, T) -> bool, dom: set<T>)
    requires StrictWeakOrder(dom, less) && Sorted(t, less)
    requires Elements(t) <= dom && x in dom
    ensures Sorted(Insert(t, x, less), less)
  {
    var r := Insert(t, x, less);
    if t == [] {
    } else {
      var init, last := t[..|t| - 1], t[|t| - 1];
      assert last in Elements(t);
      if !less(x, last) {
        forall i | 0 <= i < |t| ensures !less(x, t[i]) {
          assert t[i] in Elements(t);
          assert i < |t| - 1 ==> !less(last, t[i]);
        }
      } else {
        assert Elements(init) <= Elements(t);
        InsertSorted(init, x, less, dom);
        InsertPermutes(init, x, less);
        PermutationElements(Insert(init, x, less), init + [x]);
        forall i | 0 <= i < |r| - 1 ensures !less(last, r[i]) {
          assert r[i] in Elements(Insert(init, x, less));
          assert r[i] in init + [x];
        }
      }
    }
  }

  lemma {:induction false} SortSorts<T>(s: seq<T>, less: (T, T) -> bool, dom: set<T>)
    requires StrictWeakOrder(dom, less) && Elements(s) <= dom
    ensures Sorted(StableSort(s, less), less)
  {
    if s != [] {
      var init, last := s[..|s| - 1], s[|s| - 1];
      assert Elements(init) <= Elements(s) && last in Elements(s);
      SortSorts(init, less, dom);
      SortPermutes(init, less);
      InsertSorted(StableSort(init, less), last, less, dom);
    }
  }

  lemma SwapUntied<T>(s: seq<T>, a: T, b: T, p: T -> bool)
    requires !(p(a) && p(b))
    ensures Select(s + [a] + [b], p) == Select(s + [b], p) + (if p(a) then [a] else [])
  {
    SelectSnoc(s + [a], b, p);
    SelectSnoc(s, a, p);
    SelectSnoc(s, b, p);
  }

  /** Insertion walks past elements strictly above x only, so it never passes a tie. */
  lemma {:induction false} InsertKeepsTies<T>(t: seq<T>, x: T, y: T, less: (T, T) -> bool, dom: set<T>)
    requires StrictWeakOrder(dom, less) && Elements(t) <= dom && x in dom && y in dom
    ensures Select(Insert(t, x, less), TiedWith(y, less)) == Select(t + [x], TiedWith(y, less))
  {
    if t != [] && less(x, t[|t| - 1]) {
      var init, last := t[..|t| - 1], t[|t| - 1];
      assert last in Elements(t) && Elements(init) <= Elements(t);
      NotBothTied(x, last, y, less, dom);
      InsertKeepsTies(init, x, y, less, dom);
      SelectSnoc(Insert(init, x, less), last, TiedWith(y, less));
      SwapUntied(init, last, x, TiedWith(y, less));
      assert t == init + [last];
    }
  }

  lemma NotBothTied<T>(a: T, b: T, y: T, less: (T, T) -> bool, dom: set<T>)
    requires StrictWeakOrder(dom, less) && a in dom && b in dom && y in dom && less(a, b)
    ensures !(TiedWith(y, less)(a) && TiedWith(y, less)(b))
  {
  }

  lemma {:induction false} SortKeepsTiesOf<T>(s: seq<T>, y: T, less: (T, T) -> bool, dom: set<T>)
    requires StrictWeakOrder(dom, less) && Elements(s) <= dom && y in dom
    ensures Select(StableSort(s, less), TiedWith(y, less)) == Select(s, TiedWith(y, less))
  {
    if s != [] {
      var p := TiedWith(y, less);
      var init, last := s[..|s| - 1], s[|s| - 1];
      assert s == init + [last];
      assert Elements(init) <= Elements(s) && last in Elements(s);
      SortKeepsTiesOf(init, y, less, dom);
      var t := StableSort(init, less);
      SortPermutes(init, less);
      InsertKeepsTies(t, last, y, less, dom);
      SelectSnoc(t, last, p);
      SelectSnoc(init, last, p);
    }
  }

  /** What the library promises of a stable sort: a rearrangement, sorted, ties untouched. */
  lemma SortSpec<T>(s: seq<T>, less: (T, T) -> bool)
    requires StrictWeakOrder(Elements(s), less)
    ensures Permutation(StableSort(s, less), s)
    ensures Sorted(StableSort(s, less), less)
    ensures KeepsTies(s, StableSort(s, less), less)
  {
    SortPermutes(s, less);
    SortSorts(s, less, Elements(s));
    forall x | x in s
      ensures Select(StableSort(s, less), TiedWith(x, less)) == Select(s, TiedWith(x, less))
    {
      SortKeepsTiesOf(s, x, less, Elements(s));
    }
  }

  /** What may be relied on: always a rearrangement, and the stable sort whenever `less`
      orders the elements.  Without an order the result depends on which pairs the
      library happens to compare. */
  ghost predicate SortOutcome<T>(s: seq<T>, t: seq<T>, less: (T, T) -> bool) {
    Permutation(s, t) && (StrictWeakOrder(Elements(s), less) ==> t == StableSort(s, less))
  }

  lemma HeadsTied<T>(r: seq<T>, t: seq<T>, less: (T, T) -> bool)
    requires r != [] && StrictWeakOrder(Elements(r), less) && Sorted(r, less) && Sorted(t, less)
    requires Permutation(r, t)
    ensures t != [] && Tied(r[0], t[0], less) && Tied(r[0], r[0], less)
  {
    PermutationMembers(r, t);
    assert r[0] in t;
    assert t[0] in r;
    assert r[0] in Elements(r) && t[0] in Elements(r);
    var k :| 0 <= k < |t| && t[k] == r[0];
    var j :| 0 <= j < |r| && r[j] == t[0];
  }

  lemma TailsKeepTies<T>(r: seq<T>, t: seq<T>, less: (T, T) -> bool)
    requires r != [] && t != [] && r[0] == t[0] && KeepsTies(r, t, less)
    ensures KeepsTies(r[1..], t[1..], less)
  {
    forall y | y in r[1..]
      ensures Select(t[1..], TiedWith(y, less)) == Select(r[1..], TiedWith(y, less))
    {
      assert y in r;
      var p := TiedWith(y, less);
      var d := if p(r[0]) then 1 else 0;
      assert Select(r[1..], p) == Select(r, p)[d..];
      assert Select(t[1..], p) == Select(t, p)[d..];
    }
  }

  /** Uniqueness: sortedness and the order within ties determine the sequence. */
  lemma {:induction false} SortedUnique<T>(r: seq<T>, t: seq<T>, less: (T, T) -> bool)
    requires StrictWeakOrder(Elements(r), less) && Sorted(r, less) && Sorted(t, less)
    requires Permutation(r, t) && KeepsTies(r, t, less)
    ensures r == t
  {
    PermutationElements(r, t);
    if r != [] {
      var x := r[0];
      HeadsTied(r, t, less);
      assert Select(r, TiedWith(x, less))[0] == x;
      assert Select(t, TiedWith(x, less))[0] == t[0];
      TailsKeepTies(r, t, less);
      PermutationTails(r, t);
      assert Elements(r[1..]) <= Elements(r);
      SortedUnique(r[1..], t[1..], less);
    }
  }

  /** Any sorted rearrangement that keeps ties is what StableSort computes. */
  lemma StableSortUnique<T>(s: seq<T>, t: seq<T>, less: (T, T) -> bool)
    requires StrictWeakOrder(Elements(s), less)
    requires Permutation(s, t) && Sorted(t, less) && KeepsTies(s, t, less)
    ensures t == StableSort(s, less)
  {
    var r := StableSort(s, less);
    SortSpec(s, less);
    PermutationElements(r, s);
    forall x | x in r ensures Select(t, TiedWith(x, less)) == Select(r, TiedWith(x, less)) {
      assert x in Elements(s);
    }
    SortedUnique(r, t, less);
  }

  lemma {:induction false} SelectSorted<T>(s: seq<T>, p: T -> bool, less: (T, T) -> bool)
    requires Sorted(s, less)
    ensures Sorted(Select(s, p), less)
  {
    if s != [] {
      var rest := s[1..];
      forall i, j | 0 <= i < j < |rest| ensures !less(rest[j], rest[i]) {
        assert rest[j] == s[j + 1] && rest[i] == s[i + 1];
      }
      SelectSorted(rest, p, less);
      forall y | y in Select(rest, p) ensures !less(y, s[0]) {
        var k :| 0 <= k < |rest| && rest[k] == y;
        assert s[k + 1] == y;
      }
    }
  }

  lemma {:induction false} AllEqual<T>(s: seq<T>, t: seq<T>, x: T)
    requires Permutation(s, t) && forall y :: y in s ==> y == x
    ensures s == t
  {
    PermutationMembers(s, t);
    forall i | 0 <= i < |s| ensures s[i] == t[i] {
      assert s[i] in s && t[i] in t;
    }
  }

  /** When ties are equal, the sort does not depend on the order it is given. */
  lemma SortOrderIndependent<T>(s: seq<T>, t: seq<T>, less: (T, T) -> bool)
    requires StrictWeakOrder(Elements(s), less) && Permutation(s, t)
    requires forall a, b :: a in s && b in s && Tied(a, b, less) ==> a == b
    ensures StableSort(s, less) == StableSort(t, less)
  {
    PermutationElements(s, t);
    var r := StableSort(t, less);
    SortSpec(t, less);
    PermutationElements(r, t);
    forall x | x in s ensures Select(r, TiedWith(x, less)) == Select(s, TiedWith(x, less)) {
      var p := TiedWith(x, less);
      SelectPermutation(s, r, p);
      forall y | y in Select(s, p) ensures y == x {
        assert Tied(x, y, less);
      }
      AllEqual(Select(s, p), Select(r, p), x);
    }
    StableSortUnique(s, r, less);
  }

  lemma {:induction false} SortShowsFirstTie<T>(s: seq<T>, i: nat, less: (T, T) -> bool)
    requires StrictWeakOrder(Elements(s), less) && i < |s|
    ensures var t := [s[i]] + (s[..i] + s[i + 1..]);
      && Permutation(s, t)
      && |Select(StableSort(t, less), TiedWith(s[i], less))| > 0
      && Select(StableSort(t, less), TiedWith(s[i], less))[0] == s[i]
  {
    var t := [s[i]] + (s[..i] + s[i + 1..]);
    MoveToFront(s, i);
    PermutationElements(s, t);
    assert s[i] in Elements(s);
    SortSpec(t, less);
    assert t[0] in t;
  }

  /** Two different ties show through: some order of the same elements sorts differently. */
  lemma {:induction false} TiesShow<T>(s: seq<T>, a: T, b: T, less: (T, T) -> bool) returns (t: seq<T>)
    requires StrictWeakOrder(Elements(s), less) && a in s && b in s && a != b && Tied(a, b, less)
    ensures Permutation(s, t) && StableSort(t, less) != StableSort(s, less)
  {
    var i :| 0 <= i < |s| && s[i] == a;
    var j :| 0 <= j < |s| && s[j] == b;
    var ta, tb := [a] + (s[..i] + s[i + 1..]), [b] + (s[..j] + s[j + 1..]);
    SortsDiffer(s, i, j, less);
    t := if StableSort(ta, less) == StableSort(s, less) then tb else ta;
  }

  /** Bringing one or the other of two ties to the front sorts differently. */
  lemma SortsDiffer<T>(s: seq<T>, i: nat, j: nat, less: (T, T) -> bool)
    requires StrictWeakOrder(Elements(s), less) && i < |s| && j < |s| && s[i] != s[j] && Tied(s[i], s[j], less)
    ensures var ta, tb := [s[i]] + (s[..i] + s[i + 1..]), [s[j]] + (s[..j] + s[j + 1..]);
      Permutation(s, ta) && Permutation(s, tb) && StableSort(ta, less) != StableSort(tb, less)
  {
    SortShowsFirstTie(s, i, less);
    SortShowsFirstTie(s, j, less);
    TiedWithSame(s, [s[i]] + (s[..i] + s[i + 1..]), s[i], s[j], less);
  }

  /** What ties with one of two ties ties with the other. */
  lemma TiedWithSame<T>(s: seq<T>, t: seq<T>, a: T, b: T, less: (T, T) -> bool)
    requires StrictWeakOrder(Elements(s), less) && a in s && b in s && Tied(a, b, less) && Permutation(s, t)
    ensures Select(StableSort(t, less), TiedWith(a, less)) == Select(StableSort(t, less), TiedWith(b, less))
  {
    var r := StableSort(t, less);
    assert a in Elements(s) && b in Elements(s);
    PermutationElements(s, t);
    SortPermutes(t, less);
    PermutationElements(t, r);
    forall y | y in r ensures Tied(a, y, less) == Tied(b, y, less) {
      assert y in Elements(r);
    }
    SelectSame(r, TiedWith(a, less), TiedWith(b, less));
  }
}
