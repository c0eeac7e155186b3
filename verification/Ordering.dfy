/** Lexicographic string order, and strictly ascending key lists: the canonical
    way to list a finite set of strings. */
module Ordering {
  import opened Seqs
  import opened Sorting

  predicate StrLt(a: string, b: string) {
    b != [] && (a == [] || a[0] < b[0] || (a[0] == b[0] && StrLt(a[1..], b[1..])))
  }

  function Alphabetical(): (string, string) -> bool {
    (a, b) => StrLt(a, b)
  }

  lemma {:induction false} StrLtAsymmetric(a: string, b: string)
    requires StrLt(a, b)
    ensures !StrLt(b, a) && a != b
  {
    if a != [] && a[0] == b[0] {
      StrLtAsymmetric(a[1..], b[1..]);
    }
  }

  lemma {:induction false} StrLtTransitive(a: string, b: string, c: string)
    requires StrLt(a, b) && StrLt(b, c)
    ensures StrLt(a, c)
  {
    if a != [] && a[0] == b[0] == c[0] {
      StrLtTransitive(a[1..], b[1..], c[1..]);
    }
  }

  lemma {:induction false} StrLtTotal(a: string, b: string)
    ensures StrLt(a, b) || a == b || StrLt(b, a)
  {
    if a != [] && b != [] && a[0] == b[0] {
      StrLtTotal(a[1..], b[1..]);
      assert a == [a[0]] + a[1..] && b == [b[0]] + b[1..];
    }
  }

  /** a and b share their first i characters; there a ends, or has the smaller character. */
  ghost predicate BeforeAt(a: string, b: string, i: nat) {
    i <= |a| && i < |b| && a[..i] == b[..i] && (i == |a| || a[i] < b[i])
  }

  /** a comes before b in the dictionary. */
  ghost predicate Before(a: string, b: string) {
    exists i :: BeforeAt(a, b, i)
  }

  lemma {:induction false} StrLtIsBefore(a: string, b: string)
    ensures StrLt(a, b) <==> Before(a, b)
  {
    if StrLt(a, b) {
      BeforeOfStrLt(a, b);
    }
    if i: nat :| BeforeAt(a, b, i) {
      StrLtOfBefore(a, b, i);
    }
  }

  lemma {:induction false} BeforeOfStrLt(a: string, b: string)
    requires StrLt(a, b)
    ensures Before(a, b)
  {
    if a == [] || a[0] < b[0] {
      assert BeforeAt(a, b, 0);
    } else {
      BeforeOfStrLt(a[1..], b[1..]);
      var i: nat :| BeforeAt(a[1..], b[1..], i);
      assert a[..i + 1] == [a[0]] + a[1..][..i] && b[..i + 1] == [b[0]] + b[1..][..i];
      assert BeforeAt(a, b, i + 1);
    }
  }

  lemma {:induction false} StrLtOfBefore(a: string, b: string, i: nat)
    requires BeforeAt(a, b, i)
    ensures StrLt(a, b)
  {
    if i > 0 {
      assert a[..i][0] == a[0] && b[..i][0] == b[0];
      assert a[1..][..i - 1] == a[..i][1..] && b[1..][..i - 1] == b[..i][1..];
      StrLtOfBefore(a[1..], b[1..], i - 1);
    }
  }

  lemma AlphabeticalIsOrder(dom: set<string>)
    ensures StrictWeakOrder(dom, Alphabetical())
  {
    var less := Alphabetical();
    forall a, b | a in dom && b in dom && less(a, b) ensures !less(b, a) {
      StrLtAsymmetric(a, b);
    }
    forall a, b, c | a in dom && b in dom && c in dom && less(a, c) ensures less(a, b) || less(b, c) {
      StrLtTotal(a, b);
      if StrLt(b, a) {
        StrLtTransitive(b, a, c);
      }
    }
  }

  ghost predicate Ascending(ks: seq<string>) {
    forall i, j :: 0 <= i < j < |ks| ==> StrLt(ks[i], ks[j])
  }

  lemma AscendingNoDuplicates(ks: seq<string>)
    requires Ascending(ks)
    ensures NoDuplicates(ks)
  {
    forall i, j | 0 <= i < j < |ks| ensures ks[i] != ks[j] {
      StrLtAsymmetric(ks[i], ks[j]);
    }
  }

  lemma AscendingHead(ks: seq<string>, k: string)
    requires Ascending(ks) && k in ks && k != ks[0]
    ensures StrLt(ks[0], k)
  {
  }

  lemma {:induction false} AscendingUnique(ks: seq<string>, ls: seq<string>)
    requires Ascending(ks) && Ascending(ls) && Elements(ks) == Elements(ls)
    ensures ks == ls
  {
    assert ls != [] ==> ls[0] in Elements(ls);
    if ks != [] {
      assert ks[0] in Elements(ls);
      assert ls[0] in Elements(ks);
      if ks[0] != ls[0] {
        AscendingHead(ks, ls[0]);
        AscendingHead(ls, ks[0]);
        StrLtAsymmetric(ks[0], ls[0]);
      }
      AscendingNoDuplicates(ks);
      AscendingNoDuplicates(ls);
      assert Elements(ks[1..]) == Elements(ks) - {ks[0]};
      assert Elements(ls[1..]) == Elements(ls) - {ls[0]};
      AscendingUnique(ks[1..], ls[1..]);
      assert ks == [ks[0]] + ks[1..] && ls == [ls[0]] + ls[1..];
    }
  }

  /** Sorting a duplicate-free list lists its elements in ascending order. */
  lemma SortedKeysAscend(ks: seq<string>)
    requires NoDuplicates(ks)
    ensures Ascending(StableSort(ks, Alphabetical()))
    ensures Elements(StableSort(ks, Alphabetical())) == Elements(ks)
  {
    var r := StableSort(ks, Alphabetical());
    AlphabeticalIsOrder(Elements(ks));
    SortSpec(ks, Alphabetical());
    PermutationElements(r, ks);
    PermutationKeepsNoDuplicates(ks, r);
    forall i, j | 0 <= i < j < |r| ensures StrLt(r[i], r[j]) {
      assert !Alphabetical()(r[j], r[i]);
      StrLtTotal(r[i], r[j]);
    }
  }

  lemma NoDuplicatesMultiplicity<T>(s: seq<T>, x: T)
    requires NoDuplicates(s) && x in s
    ensures multiset(s)[x] == 1
  {
    var i :| 0 <= i < |s| && s[i] == x;
    assert s == s[..i] + [s[i]] + s[i + 1..];
    assert x !in s[..i] && x !in s[i + 1..];
  }

  lemma RepeatMultiplicity<T>(s: seq<T>, i: nat, j: nat)
    requires i < j < |s| && s[i] == s[j]
    ensures multiset(s)[s[i]] >= 2
  {
    assert s == s[..i] + [s[i]] + s[i + 1..j] + [s[j]] + s[j + 1..];
  }

  lemma PermutationKeepsNoDuplicates<T>(s: seq<T>, t: seq<T>)
    requires NoDuplicates(s) && Permutation(s, t)
    ensures NoDuplicates(t)
  {
    PermutationMembers(s, t);
    forall i, j | 0 <= i < j < |t| ensures t[i] != t[j] {
      if t[i] == t[j] {
        RepeatMultiplicity(t, i, j);
        assert t[i] in s;
        NoDuplicatesMultiplicity(s, t[i]);
      }
    }
  }

  lemma GrowOrder(order: seq<string>, k: string)
    requires NoDuplicates(order) && k !in Elements(order)
    ensures NoDuplicates(order + [k]) && Elements(order + [k]) == Elements(order) + {k}
  {
    forall i | 0 <= i < |order| ensures order[i] != k {
      assert order[i] in Elements(order);
    }
  }

  /** The ascending listing of a finite set of strings. */
  ghost function Listing(s: set<string>): (ks: seq<string>)
    ensures Ascending(ks) && Elements(ks) == s
  {
    ListingExists(s);
    var ks :| Ascending(ks) && Elements(ks) == s;
    ks
  }

  lemma {:induction false} ListingExists(s: set<string>)
    ensures exists ks :: Ascending(ks) && Elements(ks) == s
  {
    var ls := AnyListing(s);
    SortedKeysAscend(ls);
  }

  lemma {:induction false} AnyListing(s: set<string>) returns (ls: seq<string>)
    ensures NoDuplicates(ls) && Elements(ls) == s
  {
    if s == {} {
      ls := [];
    } else {
      var x :| x in s;
      var rest := AnyListing(s - {x});
      ls := [x] + rest;
      forall i, j | 0 <= i < j < |ls| ensures ls[i] != ls[j] {
        assert ls[j] in Elements(rest);
      }
      assert Elements(ls) == {x} + Elements(rest);
    }
  }

  lemma ListingOf(ks: seq<string>, s: set<string>)
    requires Ascending(ks) && Elements(ks) == s
    ensures ks == Listing(s)
  {
    AscendingUnique(ks, Listing(s));
  }
}
