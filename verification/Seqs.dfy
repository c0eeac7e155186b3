/** Selecting, counting and summing of sequences, and how they behave under
    concatenation and permutation.  Two sequences are permutations of each other
    when their multisets are equal. */
module Seqs {

  function Select<T>(s: seq<T>, p: T -> bool): (r: seq<T>)
    ensures forall x :: x in r ==> x in s && p(x)
    ensures forall x :: x in s && p(x) ==> x in r
    ensures |r| <= |s|
  {
    if s == [] then [] else (if p(s[0]) then [s[0]] else []) + Select(s[1..], p)
  }

  function SumBy<T>(s: seq<T>, f: T -> real): real {
    if s == [] then 0.0 else f(s[0]) + SumBy(s[1..], f)
  }

  function Map<S, T>(s: seq<S>, f: S -> T): (r: seq<T>)
    ensures |r| == |s|
    ensures forall i :: 0 <= i < |s| ==> r[i] == f(s[i])
  {
    seq(|s|, i requires 0 <= i < |s| => f(s[i]))
  }

  ghost predicate Permutation<T>(s: seq<T>, t: seq<T>) {
    multiset(s) == multiset(t)
  }

  ghost predicate NoDuplicates<T>(s: seq<T>) {
    forall i, j :: 0 <= i < j < |s| ==> s[i] != s[j]
  }

  lemma PermutationMembers<T>(s: seq<T>, t: seq<T>)
    requires Permutation(s, t)
    ensures |s| == |t|
    ensures forall x :: x in s ==> x in t
    ensures forall x :: x in t ==> x in s
  {
    assert |multiset(s)| == |s| && |multiset(t)| == |t|;
    forall x | x in s ensures x in t {
      assert x in multiset(t);
    }
    forall x | x in t ensures x in s {
      assert x in multiset(s);
    }
  }

  /** Moving one element to the front is a permutation. */
  lemma MoveToFront<T>(s: seq<T>, i: nat)
    requires i < |s|
    ensures Permutation(s, [s[i]] + (s[..i] + s[i + 1..]))
  {
    assert s == s[..i] + [s[i]] + s[i + 1..];
  }

  lemma {:induction false} SelectConcat<T>(s: seq<T>, t: seq<T>, p: T -> bool)
    ensures Select(s + t, p) == Select(s, p) + Select(t, p)
  {
    if s == [] {
      assert s + t == t;
    } else {
      assert (s + t)[1..] == s[1..] + t;
      SelectConcat(s[1..], t, p);
    }
  }

  lemma SelectSnoc<T>(s: seq<T>, x: T, p: T -> bool)
    ensures Select(s + [x], p) == Select(s, p) + (if p(x) then [x] else [])
  {
    SelectConcat(s, [x], p);
    assert [x][1..] == [];
    assert Select([x], p) == if p(x) then [x] else [];
  }

  /** One more element of a prefix. */
  lemma SelectNext<T>(s: seq<T>, p: T -> bool, i: nat)
    requires i < |s|
    ensures Select(s[..i + 1], p) == if p(s[i]) then Select(s[..i], p) + [s[i]] else Select(s[..i], p)
  {
    SelectSnoc(s[..i], s[i], p);
    assert s[..i + 1] == s[..i] + [s[i]];
  }

  lemma SplitAt<T>(s: seq<T>, p: T -> bool, i: nat)
    requires i < |s| && p(s[i])
    ensures Select(s, p) == Select(s[..i], p) + ([s[i]] + Select(s[i + 1..], p))
  {
    SelectConcat(s[..i], s[i..], p);
    assert s == s[..i] + s[i..];
    assert s[i..][0] == s[i] && s[i..][1..] == s[i + 1..];
  }

  function Flat<T>(ss: seq<seq<T>>): seq<T> {
    if ss == [] then [] else ss[0] + Flat(ss[1..])
  }

  lemma FlatOne<T>(s: seq<T>)
    ensures Flat([s]) == s
  {
    assert [s][1..] == [];
  }

  lemma {:induction false} FlatConcat<T>(ss: seq<seq<T>>, ts: seq<seq<T>>)
    ensures Flat(ss + ts) == Flat(ss) + Flat(ts)
  {
    if ss == [] {
      assert ss + ts == ts;
    } else {
      assert (ss + ts)[1..] == ss[1..] + ts;
      FlatConcat(ss[1..], ts);
    }
  }

  /** A concatenation has no duplicates exactly when neither part has and they share nothing. */
  lemma ConcatDistinct<T>(s: seq<T>, t: seq<T>)
    ensures NoDuplicates(s + t) <==> NoDuplicates(s) && NoDuplicates(t) && forall x :: x in s ==> x !in t
  {
    var st := s + t;
    if NoDuplicates(s) && NoDuplicates(t) && forall x :: x in s ==> x !in t {
      forall i, j | 0 <= i < j < |st| ensures st[i] != st[j] {
        if i < |s| <= j {
          assert s[i] in s && t[j - |s|] in t;
        }
      }
    }
    if NoDuplicates(st) {
      DistinctParts(s, t);
    }
  }

  lemma DistinctParts<T>(s: seq<T>, t: seq<T>)
    requires NoDuplicates(s + t)
    ensures NoDuplicates(s) && NoDuplicates(t) && forall x :: x in s ==> x !in t
  {
    var st := s + t;
    forall i, j | 0 <= i < j < |s| ensures s[i] != s[j] {
      assert st[i] == s[i] && st[j] == s[j];
    }
    forall i, j | 0 <= i < j < |t| ensures t[i] != t[j] {
      assert st[|s| + i] == t[i] && st[|s| + j] == t[j];
    }
    forall i, j | 0 <= i < |s| && 0 <= j < |t| ensures s[i] != t[j] {
      assert st[i] == s[i] && st[|s| + j] == t[j];
    }
  }

  /** A selected element is found behind the selected ones before it. */
  lemma SelectedAt<T>(s: seq<T>, p: T -> bool, i: nat)
    requires i < |s| && p(s[i])
    ensures var k := |Select(s[..i], p)|; k < |Select(s, p)| && Select(s, p)[k] == s[i]
  {
    SplitAt(s, p, i);
    InMiddle(Select(s[..i], p), s[i], Select(s[i + 1..], p));
  }

  lemma InMiddle<T>(front: seq<T>, x: T, back: seq<T>)
    ensures (front + ([x] + back))[|front|] == x
  {
  }

  lemma ConcatAssociative<T>(s: seq<T>, t: seq<T>, u: seq<T>)
    ensures (s + t) + u == s + (t + u)
  {
  }

  lemma {:induction false} SelectMultiplicity<T>(s: seq<T>, p: T -> bool, x: T)
    ensures multiset(Select(s, p))[x] == if p(x) then multiset(s)[x] else 0
  {
    if s != [] {
      SelectMultiplicity(s[1..], p, x);
      assert s == [s[0]] + s[1..];
    }
  }

  lemma SelectPermutation<T>(s: seq<T>, t: seq<T>, p: T -> bool)
    requires Permutation(s, t)
    ensures Permutation(Select(s, p), Select(t, p))
  {
    var fs, ft := multiset(Select(s, p)), multiset(Select(t, p));
    forall x | x in fs + ft ensures fs[x] == ft[x] {
      SelectMultiplicity(s, p, x);
      SelectMultiplicity(t, p, x);
    }
    assert forall x :: x in fs ==> x in fs + ft;
    assert forall x :: x in ft ==> x in fs + ft;
  }

  lemma {:induction false} SelectSame<T>(s: seq<T>, p: T -> bool, q: T -> bool)
    requires forall x :: x in s ==> p(x) == q(x)
    ensures Select(s, p) == Select(s, q)
  {
    if s != [] {
      SelectSame(s[1..], p, q);
    }
  }

  lemma {:induction false} SelectNoDuplicates<T>(s: seq<T>, p: T -> bool)
    requires NoDuplicates(s)
    ensures NoDuplicates(Select(s, p))
  {
    if s != [] {
      forall i, j | 0 <= i < j < |s[1..]| ensures s[1..][i] != s[1..][j] {
        assert s[i + 1] != s[j + 1];
      }
      SelectNoDuplicates(s[1..], p);
      forall x | x in Select(s[1..], p) ensures x != s[0] {
        var i :| 0 <= i < |s[1..]| && s[1..][i] == x;
        assert s[i + 1] == x;
      }
    }
  }

  lemma {:induction false} SelectAll<T>(s: seq<T>, p: T -> bool)
    requires forall x :: x in s ==> p(x)
    ensures Select(s, p) == s
  {
    if s != [] {
      SelectAll(s[1..], p);
    }
  }

  lemma {:induction false} SelectSelect<T>(s: seq<T>, p: T -> bool, q: T -> bool, both: T -> bool)
    requires forall x :: x in s ==> both(x) == (p(x) && q(x))
    ensures Select(Select(s, p), q) == Select(s, both)
  {
    if s != [] {
      SelectSelect(s[1..], p, q, both);
      SelectConcat(if p(s[0]) then [s[0]] else [], Select(s[1..], p), q);
    }
  }

  lemma MapCons<S, T>(x: S, s: seq<S>, f: S -> T)
    ensures Map([x] + s, f) == [f(x)] + Map(s, f)
  {
  }

  lemma MapSnoc<S, T>(s: seq<S>, x: S, f: S -> T)
    ensures Map(s + [x], f) == Map(s, f) + [f(x)]
  {
  }

  lemma SelectCons<T>(x: T, s: seq<T>, p: T -> bool)
    ensures Select([x] + s, p) == if p(x) then [x] + Select(s, p) else Select(s, p)
  {
    assert ([x] + s)[1..] == s;
  }

  /** Selecting the image is the image of filtering. */
  lemma {:induction false} SelectMap<S, T>(s: seq<S>, f: S -> T, p: T -> bool, q: S -> bool)
    requires forall x :: x in s ==> p(f(x)) == q(x)
    ensures Select(Map(s, f), p) == Map(Select(s, q), f)
  {
    if s != [] {
      var x, rest := s[0], s[1..];
      assert s == [x] + rest && p(f(x)) == q(x);
      SelectMap(rest, f, p, q);
      MapCons(x, rest, f);
      SelectCons(f(x), Map(rest, f), p);
      SelectCons(x, rest, q);
      MapCons(x, Select(rest, q), f);
    }
  }

  lemma {:induction false} SumByConcat<T>(s: seq<T>, t: seq<T>, f: T -> real)
    ensures SumBy(s + t, f) == SumBy(s, f) + SumBy(t, f)
  {
    if s == [] {
      assert s + t == t;
    } else {
      assert (s + t)[1..] == s[1..] + t;
      SumByConcat(s[1..], t, f);
    }
  }

  lemma {:induction false} SumByTakeOut<T>(t: seq<T>, j: nat, f: T -> real)
    requires j < |t|
    ensures SumBy(t, f) == f(t[j]) + SumBy(t[..j] + t[j + 1..], f)
  {
    SumByConcat(t[..j], t[j..], f);
    SumByConcat(t[..j], t[j + 1..], f);
    assert t == t[..j] + t[j..];
    assert t[j..][1..] == t[j + 1..];
  }

  lemma {:induction false} SumByPermutation<T>(s: seq<T>, t: seq<T>, f: T -> real)
    requires Permutation(s, t)
    ensures SumBy(s, f) == SumBy(t, f)
  {
    PermutationMembers(s, t);
    if s != [] {
      assert s[0] in s && s[0] in t;
      var j :| 0 <= j < |t| && t[j] == s[0];
      SumByTakeOut(t, j, f);
      TakeOutSame(s, t, j);
      SumByPermutation(s[1..], t[..j] + t[j + 1..], f);
    }
  }

  lemma PermutationTails<T>(s: seq<T>, t: seq<T>)
    requires s != [] && t != [] && s[0] == t[0] && Permutation(s, t)
    ensures Permutation(s[1..], t[1..])
  {
    assert s == [s[0]] + s[1..] && t == [t[0]] + t[1..];
    assert multiset(s[1..]) == multiset(s) - multiset{s[0]};
    assert multiset(t[1..]) == multiset(t) - multiset{s[0]};
  }

  lemma {:induction false} SumBySame<T>(s: seq<T>, f: T -> real, g: T -> real)
    requires forall x :: x in s ==> f(x) == g(x)
    ensures SumBy(s, f) == SumBy(s, g)
  {
    if s != [] {
      SumBySame(s[1..], f, g);
    }
  }

  lemma {:induction false} SumByMap<S, T>(s: seq<S>, f: S -> T, g: T -> real, h: S -> real)
    requires forall x :: x in s ==> g(f(x)) == h(x)
    ensures SumBy(Map(s, f), g) == SumBy(s, h)
  {
    if s != [] {
      assert Map(s, f)[1..] == Map(s[1..], f);
      SumByMap(s[1..], f, g, h);
    }
  }

  /** Any order of the selected elements is the selection of some order of all. */
  lemma {:induction false} Rearranged<T>(s: seq<T>, p: T -> bool, n: seq<T>) returns (t: seq<T>)
    requires Permutation(Select(s, p), n)
    ensures Permutation(s, t) && Select(t, p) == n
  {
    var others := (x: T) => !p(x);
    t := n + Select(s, others);
    PermutationMembers(Select(s, p), n);
    SelectAll(n, p);
    SelectConcat(n, Select(s, others), p);
    SelectNone(Select(s, others), p);
    SplitBySelection(s, p, others);
  }

  lemma {:induction false} SelectNone<T>(s: seq<T>, p: T -> bool)
    requires forall x :: x in s ==> !p(x)
    ensures Select(s, p) == []
  {
    if s != [] {
      SelectNone(s[1..], p);
    }
  }

  lemma SplitBySelection<T>(s: seq<T>, p: T -> bool, others: T -> bool)
    requires forall x :: x in s ==> others(x) == !p(x)
    ensures multiset(s) == multiset(Select(s, p)) + multiset(Select(s, others))
  {
    var parts := multiset(Select(s, p)) + multiset(Select(s, others));
    forall x | x in multiset(s) + parts ensures parts[x] == multiset(s)[x] {
      SelectMultiplicity(s, p, x);
      SelectMultiplicity(s, others, x);
      assert x in s <==> x in multiset(s);
    }
    assert forall x :: x in parts ==> x in multiset(s) + parts;
    assert forall x :: x in multiset(s) ==> x in multiset(s) + parts;
  }

  lemma {:induction false} MapPermutation<S, T>(s: seq<S>, t: seq<S>, f: S -> T)
    requires Permutation(s, t)
    ensures Permutation(Map(s, f), Map(t, f))
  {
    PermutationMembers(s, t);
    if s != [] {
      assert s[0] in t;
      var j :| 0 <= j < |t| && t[j] == s[0];
      var rest := t[..j] + t[j + 1..];
      TakeOutSame(s, t, j);
      MapPermutation(s[1..], rest, f);
      MapHead(s, f);
      MapTakeOut(t, j, f);
    }
  }

  lemma MapHead<S, T>(s: seq<S>, f: S -> T)
    requires s != []
    ensures multiset(Map(s, f)) == multiset{f(s[0])} + multiset(Map(s[1..], f))
  {
    assert Map(s, f) == [f(s[0])] + Map(s[1..], f);
  }

  /** Taking the same element out of both leaves permutations. */
  lemma TakeOutSame<T>(s: seq<T>, t: seq<T>, j: nat)
    requires s != [] && j < |t| && t[j] == s[0] && Permutation(s, t)
    ensures Permutation(s[1..], t[..j] + t[j + 1..])
  {
    MoveToFront(t, j);
    var moved := [t[j]] + (t[..j] + t[j + 1..]);
    PermutationTails(s, moved);
    assert moved[1..] == t[..j] + t[j + 1..];
  }

  lemma MapTakeOut<S, T>(t: seq<S>, j: nat, f: S -> T)
    requires j < |t|
    ensures multiset(Map(t, f)) == multiset{f(t[j])} + multiset(Map(t[..j] + t[j + 1..], f))
  {
    assert Map(t, f) == Map(t[..j], f) + [f(t[j])] + Map(t[j + 1..], f);
    assert Map(t[..j] + t[j + 1..], f) == Map(t[..j], f) + Map(t[j + 1..], f);
  }
}
