/** The comparison a sort goes by: its fields in turn, each ascending or descending. */
module SortKeys {
  import opened Seqs
  import opened Sorting
  import opened Values

  datatype SortField = SortField(field: string, descending: bool)

  /** Lexicographic comparison by the sort fields; false when all compare equal. */
  function Less(fields: seq<SortField>, a: Item, b: Item): bool {
    if fields == [] then false
    else
      var c := CompareAny(Field(a, fields[0].field), Field(b, fields[0].field));
      if c == 0 then Less(fields[1..], a, b)
      else if fields[0].descending then c > 0
      else c < 0
  }

  function By<T>(fields: seq<SortField>, project: T -> Item): (T, T) -> bool {
    (a, b) => Less(fields, project(a), project(b))
  }

  // ---- Less as an order

  /** Values of one kind are totally ordered; the unordered ones (nil, lists,
      float32) compare equal to everything. */
  function Kind(v: Val): nat {
    match v
    case Nil => 0
    case StrList(_) => 0
    case Float32(_) => 0
    case Str(_) => 1
    case Int(_) => 2
    case Int64(_) => 3
    case Float64(_) => 4
    case Bool(_) => 5
    case Time(_) => 6
  }

  lemma CompareAnyLaws(a: Val, b: Val, c: Val)
    ensures CompareAny(a, b) == -CompareAny(b, a)
    ensures Kind(a) != Kind(b) ==> CompareAny(a, b) == 0
    ensures Kind(a) == Kind(b) == Kind(c) && CompareAny(a, c) < 0 ==> CompareAny(a, b) < 0 || CompareAny(b, c) < 0
    ensures Kind(a) == Kind(b) == Kind(c) && CompareAny(a, c) > 0 ==> CompareAny(a, b) > 0 || CompareAny(b, c) > 0
  {
    if a.Str? && b.Str? {
      CmpStringLaws(a.str, b.str, b.str);
      if c.Str? {
        CmpStringLaws(a.str, c.str, b.str);
        CmpStringLaws(b.str, a.str, c.str);
        CmpStringLaws(a.str, c.str, c.str);
        CmpStringLaws(b.str, c.str, a.str);
        CmpStringLaws(c.str, a.str, b.str);
      }
    }
  }

  function At<T>(x: T, f: string, project: T -> Item): Val {
    Field(project(x), f)
  }

  /** Whoever differs from another item on f has every item's kind there. */
  ghost predicate OneKind<T>(dom: set<T>, f: string, project: T -> Item) {
    forall a, b, c :: a in dom && b in dom && c in dom
      && CompareAny(At(a, f, project), At(b, f, project)) != 0
      ==> Kind(At(c, f, project)) == Kind(At(a, f, project))
  }

  /** The comparison by one field alone, turned round when descending. */
  function CompareBy<T>(a: T, b: T, f: SortField, project: T -> Item): int {
    var c := CompareAny(At(a, f.field, project), At(b, f.field, project));
    if f.descending then -c else c
  }

  lemma ByOne<T>(a: T, b: T, f: SortField, project: T -> Item)
    ensures By([f], project)(a, b) <==> CompareBy(a, b, f, project) < 0
  {
    assert [f][1..] == [];
    assert !Less([], project(a), project(b));
    assert Less([f], project(a), project(b)) <==> CompareBy(a, b, f, project) < 0;
  }

  lemma ByFirstThenRest<T>(a: T, b: T, fields: seq<SortField>, project: T -> Item)
    requires fields != []
    ensures By(fields, project)(a, b)
       <==> CompareBy(a, b, fields[0], project) < 0
            || (CompareBy(a, b, fields[0], project) == 0 && By(fields[1..], project)(a, b))
  {
  }

  lemma CompareByLaws<T>(a: T, b: T, c: T, f: SortField, project: T -> Item)
    ensures CompareBy(a, b, f, project) == -CompareBy(b, a, f, project)
    ensures Kind(At(a, f.field, project)) != Kind(At(b, f.field, project)) ==> CompareBy(a, b, f, project) == 0
    ensures Kind(At(a, f.field, project)) == Kind(At(b, f.field, project)) == Kind(At(c, f.field, project)) ==>
              (CompareBy(a, c, f, project) < 0 ==> CompareBy(a, b, f, project) < 0 || CompareBy(b, c, f, project) < 0)
  {
    CompareAnyLaws(At(a, f.field, project), At(b, f.field, project), At(c, f.field, project));
    CompareAnyLaws(At(a, f.field, project), At(c, f.field, project), At(b, f.field, project));
    CompareAnyLaws(At(b, f.field, project), At(c, f.field, project), At(a, f.field, project));
  }

  /** Sorting by one field is sorting by a strict weak order exactly when the field
      has one type, or never tells two items apart. */
  lemma OneFieldOrder<T>(dom: set<T>, f: SortField, project: T -> Item)
    ensures StrictWeakOrder(dom, By([f], project)) <==> OneKind(dom, f.field, project)
  {
    var less := By([f], project);
    forall a, b ensures less(a, b) <==> CompareBy(a, b, f, project) < 0 {
      ByOne(a, b, f, project);
    }
    forall a, b, c | a in dom && b in dom && c in dom
      ensures CompareBy(a, b, f, project) == -CompareBy(b, a, f, project)
      ensures OneKind(dom, f.field, project) && less(a, c) ==> less(a, b) || less(b, c)
    {
      CompareByLaws(a, b, c, f, project);
    }
    if StrictWeakOrder(dom, less) {
      forall a, b, c | a in dom && b in dom && c in dom
        && CompareAny(At(a, f.field, project), At(b, f.field, project)) != 0
        ensures Kind(At(c, f.field, project)) == Kind(At(a, f.field, project))
      {
        CompareByLaws(a, b, c, f, project);
        CompareByLaws(a, c, b, f, project);
        CompareByLaws(b, c, a, f, project);
        assert less(a, b) || less(b, a);
        assert less(a, c) || less(c, a) || less(b, c) || less(c, b);
      }
    }
  }

  /** A nil among distinct values breaks it: nil ties with both, they do not tie. */
  lemma NilBreaksOrder(project: int -> Item)
    requires project(0) == map[] && project(1) == map["n" := Int(1)] && project(2) == map["n" := Int(2)]
    ensures !StrictWeakOrder({0, 1, 2}, By([SortField("n", false)], project))
  {
    OneFieldOrder({0, 1, 2}, SortField("n", false), project);
    assert CompareAny(At(1, "n", project), At(2, "n", project)) != 0;
    assert Kind(At(0, "n", project)) == 0;
  }

  lemma LexicographicOrder<T>(dom: set<T>, fields: seq<SortField>, project: T -> Item)
    requires fields != []
    requires StrictWeakOrder(dom, By([fields[0]], project)) && StrictWeakOrder(dom, By(fields[1..], project))
    ensures StrictWeakOrder(dom, By(fields, project))
    ensures forall a, b :: a in dom && b in dom ==>
      By(fields, project)(a, b) == (By([fields[0]], project)(a, b)
        || (Tied(a, b, By([fields[0]], project)) && By(fields[1..], project)(a, b)))
  {
    var less, first, rest := By(fields, project), By([fields[0]], project), By(fields[1..], project);
    forall a, b | a in dom && b in dom
      ensures less(a, b) == (first(a, b) || (Tied(a, b, first) && rest(a, b)))
    {
      CompareByLaws(a, b, a, fields[0], project);
      ByOne(a, b, fields[0], project);
      ByOne(b, a, fields[0], project);
      ByFirstThenRest(a, b, fields, project);
    }
    forall a, b, c | a in dom && b in dom && c in dom && less(a, c) ensures less(a, b) || less(b, c) {
      assert first(a, c) ==> first(a, b) || first(b, c);
      assert rest(a, c) ==> rest(a, b) || rest(b, c);
      assert first(b, a) ==> first(b, c) || first(c, a);
      assert first(c, b) ==> first(c, a) || first(a, b);
    }
  }

  ghost predicate EachFieldOrders<T>(dom: set<T>, fields: seq<SortField>, project: T -> Item) {
    forall i :: 0 <= i < |fields| ==> OneKind(dom, fields[i].field, project)
  }

  lemma {:induction false} FieldsOrder<T>(dom: set<T>, fields: seq<SortField>, project: T -> Item)
    requires EachFieldOrders(dom, fields, project)
    ensures StrictWeakOrder(dom, By(fields, project))
  {
    if fields != [] {
      forall i | 0 <= i < |fields[1..]| ensures OneKind(dom, fields[1..][i].field, project) {
        assert fields[1..][i] == fields[i + 1];
      }
      FieldsOrder(dom, fields[1..], project);
      OneFieldOrder(dom, fields[0], project);
      LexicographicOrder(dom, fields, project);
    }
  }

  // ---- sorted, in the values

  /** The k-th field tells a and b apart, in that order, and none before it does. */
  ghost predicate AheadAt(fields: seq<SortField>, a: Item, b: Item, k: nat) {
    && k < |fields|
    && (forall j :: 0 <= j < k ==> !Apart(Field(a, fields[j].field), Field(b, fields[j].field)))
    && var u, v := Field(a, fields[k].field), Field(b, fields[k].field);
       if fields[k].descending then Lower(v, u) else Lower(u, v)
  }

  ghost predicate Apart(u: Val, v: Val) {
    Lower(u, v) || Lower(v, u)
  }

  ghost predicate Ahead(fields: seq<SortField>, a: Item, b: Item) {
    exists k :: AheadAt(fields, a, b, k)
  }

  lemma AheadNext(fields: seq<SortField>, a: Item, b: Item, k: nat)
    requires fields != [] && !Apart(Field(a, fields[0].field), Field(b, fields[0].field))
    ensures AheadAt(fields[1..], a, b, k) <==> AheadAt(fields, a, b, k + 1)
  {
    if AheadAt(fields[1..], a, b, k) {
      forall j | 0 <= j < k + 1 ensures !Apart(Field(a, fields[j].field), Field(b, fields[j].field)) {
        assert j > 0 ==> fields[j] == fields[1..][j - 1];
      }
    }
    if AheadAt(fields, a, b, k + 1) {
      forall j | 0 <= j < k ensures fields[1..][j] == fields[j + 1] {
      }
    }
  }

  /** The comparison of a sort goes by the first field that tells the items apart. */
  lemma {:induction false} LessIsAhead(fields: seq<SortField>, a: Item, b: Item)
    ensures Less(fields, a, b) <==> Ahead(fields, a, b)
  {
    if fields != [] {
      var u, v := Field(a, fields[0].field), Field(b, fields[0].field);
      SortComparisonMeaning(u, v);
      if Apart(u, v) {
        assert Less(fields, a, b) ==> AheadAt(fields, a, b, 0);
        assert forall k :: AheadAt(fields, a, b, k) ==> k == 0;
      } else {
        LessIsAhead(fields[1..], a, b);
        if k: nat :| AheadAt(fields[1..], a, b, k) {
          AheadNext(fields, a, b, k);
        }
        if k: nat :| AheadAt(fields, a, b, k) {
          assert k > 0;
          AheadNext(fields, a, b, k - 1);
        }
      }
    }
  }

  /** Any two of the items hold, in this field, the same value or one that is below the other. */
  ghost predicate Ranked<T>(s: seq<T>, field: string, project: T -> Item) {
    forall x, y :: x in s && y in s ==>
      At(x, field, project) == At(y, field, project) || Apart(At(x, field, project), At(y, field, project))
  }

  lemma RankedIsOneKind<T>(s: seq<T>, field: string, project: T -> Item)
    requires Ranked(s, field, project)
    ensures OneKind(Elements(s), field, project)
  {
    forall a, b, c | a in Elements(s) && b in Elements(s) && c in Elements(s)
      && CompareAny(At(a, field, project), At(b, field, project)) != 0
      ensures Kind(At(c, field, project)) == Kind(At(a, field, project))
    {
      SortComparisonMeaning(At(a, field, project), At(b, field, project));
      assert a in s && c in s;
    }
  }

  /** Main result: in what the sort leaves, no item stands before one that is ahead of it by the
      first field telling them apart; and the items sorted are those given. */
  lemma {:induction false} SortedByValues<T>(s: seq<T>, r: seq<T>, fields: seq<SortField>, project: T -> Item)
    requires SortOutcome(s, r, By(fields, project))
    requires forall i :: 0 <= i < |fields| ==> Ranked(s, fields[i].field, project)
    ensures Permutation(s, r)
    ensures forall i, j :: 0 <= i < j < |r| ==> !Ahead(fields, project(r[j]), project(r[i]))
  {
    forall i | 0 <= i < |fields| ensures OneKind(Elements(s), fields[i].field, project) {
      RankedIsOneKind(s, fields[i].field, project);
    }
    FieldsOrder(Elements(s), fields, project);
    SortSpec(s, By(fields, project));
    forall i, j | 0 <= i < j < |r| ensures !Ahead(fields, project(r[j]), project(r[i])) {
      assert !By(fields, project)(r[j], r[i]);
      LessIsAhead(fields, project(r[j]), project(r[i]));
    }
  }

  /** By one field: the values ascend, or descend. */
  ghost predicate InOrder<T>(r: seq<T>, f: SortField, project: T -> Item) {
    forall i, j :: 0 <= i < j < |r| ==>
      At(r[i], f.field, project) == At(r[j], f.field, project)
      || if f.descending then Lower(At(r[j], f.field, project), At(r[i], f.field, project))
         else Lower(At(r[i], f.field, project), At(r[j], f.field, project))
  }

  lemma {:induction false} SortedByOne<T>(s: seq<T>, r: seq<T>, f: SortField, project: T -> Item)
    requires SortOutcome(s, r, By([f], project)) && Ranked(s, f.field, project)
    ensures InOrder(r, f, project)
  {
    SortedByValues(s, r, [f], project);
    PermutationMembers(s, r);
    forall i, j | 0 <= i < j < |r|
      ensures At(r[i], f.field, project) == At(r[j], f.field, project)
           || if f.descending then Lower(At(r[j], f.field, project), At(r[i], f.field, project))
              else Lower(At(r[i], f.field, project), At(r[j], f.field, project))
    {
      assert r[i] in s && r[j] in s;
      if (if f.descending then Lower(At(r[i], f.field, project), At(r[j], f.field, project))
          else Lower(At(r[j], f.field, project), At(r[i], f.field, project))) {
        assert AheadAt([f], project(r[j]), project(r[i]), 0);
      }
    }
  }
}
