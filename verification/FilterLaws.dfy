/** The boolean algebra of the filter builders, stated on the evaluator's whole
    answer: not just true and false but also when it fails. */
module FilterLaws {
  import opened Seqs
  import opened Values
  import opened Filters

  function NotEach(fs: seq<Filter>): seq<Filter> {
    Map(fs, (g: Filter) => NotFilter([g]))
  }

  function Negated(r: Result<bool>): Result<bool> {
    match r
    case Ok(b) => Ok(!b)
    case Err => Err
  }

  lemma MatchAnd(fs: seq<Filter>, item: Item)
    ensures Match(AndFilter(fs), item) == AllMatch(fs, item)
  {
    assert AnyMatch([], item) == Ok(false);
    assert MatchBool(AndFilter(fs), item) == AllMatch(fs, item);
  }

  /** With no clause at all, Or is the one builder that does not read its list. */
  lemma MatchOr(fs: seq<Filter>, item: Item)
    ensures Match(OrFilter(fs), item) == if fs == [] then Ok(true) else AnyMatch(fs, item)
  {
    assert AnyMatch([], item) == Ok(false) && AllMatch([], item) == Ok(true);
    assert MatchBool(OrFilter(fs), item) == if fs == [] then Ok(true) else AnyMatch(fs, item);
  }

  lemma MatchNone(fs: seq<Filter>, item: Item)
    ensures Match(NotFilter(fs), item) == Negated(AnyMatch(fs, item))
  {
    assert AllMatch([], item) == Ok(true);
    assert MatchBool(NotFilter(fs), item) == Negated(AnyMatch(fs, item));
  }

  lemma MatchNot(f: Filter, item: Item)
    ensures Match(NotFilter([f]), item) == Negated(Match(f, item))
  {
    MatchNone([f], item);
    assert [f][1..] == [];
    assert AnyMatch([f][1..], item) == Ok(false);
  }

  lemma {:induction false} NotEachMatch(fs: seq<Filter>, item: Item)
    ensures AllMatch(NotEach(fs), item) == Negated(AnyMatch(fs, item))
    ensures AnyMatch(NotEach(fs), item) == Negated(AllMatch(fs, item))
  {
    if fs != [] {
      MatchNot(fs[0], item);
      NotEachMatch(fs[1..], item);
      assert NotEach(fs)[1..] == NotEach(fs[1..]);
    }
  }

  /** Not(Not(f)) is f, on every filter and item, failures included. */
  lemma DoubleNegation(f: Filter, item: Item)
    ensures Match(NotFilter([NotFilter([f])]), item) == Match(f, item)
  {
    MatchNot(f, item);
    MatchNot(NotFilter([f]), item);
  }

  /** Not(And(fs)) is Or(Not f for each f), except that the empty Or matches everything. */
  lemma DeMorganAnd(fs: seq<Filter>, item: Item)
    ensures Match(NotFilter([AndFilter(fs)]), item) == Match(OrFilter(NotEach(fs)), item) <==> fs != []
  {
    MatchNot(AndFilter(fs), item);
    NotEachMatch(fs, item);
    MatchAnd(fs, item);
    MatchOr(NotEach(fs), item);
  }

  /** Not(Or(fs)) is And(Not f for each f), with the same exception. */
  lemma DeMorganOr(fs: seq<Filter>, item: Item)
    ensures Match(NotFilter([OrFilter(fs)]), item) == Match(AndFilter(NotEach(fs)), item) <==> fs != []
  {
    MatchNot(OrFilter(fs), item);
    NotEachMatch(fs, item);
    MatchOr(fs, item);
    MatchAnd(NotEach(fs), item);
  }

  /** The n-ary Not is the conjunction of the negations. */
  lemma NotIsNoneOf(fs: seq<Filter>, item: Item)
    ensures Match(NotFilter(fs), item) == Match(AndFilter(NotEach(fs)), item)
  {
    NotEachMatch(fs, item);
    MatchNone(fs, item);
    MatchAnd(NotEach(fs), item);
  }

  // ---- clause order

  /** The same node with the clauses of each list in another order. */
  ghost predicate Reordered(f: Filter, g: Filter) {
    && f.op == g.op == OpBool
    && Permutation(f.must, g.must) && Permutation(f.mustNot, g.mustNot) && Permutation(f.should, g.should)
  }

  /** On well-typed trees the order of clauses is irrelevant. */
  lemma ReorderedMatch(f: Filter, g: Filter, item: Item)
    requires Reordered(f, g) && WellTyped(f, item)
    ensures Match(g, item) == Match(f, item)
  {
    PermutationMembers(f.must, g.must);
    PermutationMembers(f.mustNot, g.mustNot);
    PermutationMembers(f.should, g.should);
    assert (f.must == []) == (g.must == []) && (f.should == []) == (g.should == []);
    MatchMeaning(f, item);
    MatchMeaning(g, item);
  }

  ghost predicate SomeClause(fs: seq<Filter>, item: Item, r: Result<bool>) {
    exists f :: f in fs && Match(f, item) == r
  }

  lemma {:induction false} AllMatchOutcome(fs: seq<Filter>, item: Item)
    ensures AllMatch(fs, item) == Ok(true) <==> !SomeClause(fs, item, Err) && !SomeClause(fs, item, Ok(false))
    ensures AllMatch(fs, item) == Err ==> SomeClause(fs, item, Err)
    ensures AllMatch(fs, item) == Ok(false) ==> SomeClause(fs, item, Ok(false))
  {
    if fs != [] {
      AllMatchOutcome(fs[1..], item);
      assert forall f :: f in fs <==> f == fs[0] || f in fs[1..];
    }
  }

  lemma {:induction false} AnyMatchOutcome(fs: seq<Filter>, item: Item)
    ensures AnyMatch(fs, item) == Ok(false) <==> !SomeClause(fs, item, Err) && !SomeClause(fs, item, Ok(true))
    ensures AnyMatch(fs, item) in [Err, Ok(false), Ok(true)]
    ensures AnyMatch(fs, item) == Err ==> SomeClause(fs, item, Err)
    ensures AnyMatch(fs, item) == Ok(true) ==> SomeClause(fs, item, Ok(true))
  {
    if fs != [] {
      AnyMatchOutcome(fs[1..], item);
      assert forall f :: f in fs <==> f == fs[0] || f in fs[1..];
    }
  }

  lemma SomePermuted(fs: seq<Filter>, gs: seq<Filter>, item: Item, r: Result<bool>)
    requires Permutation(fs, gs)
    ensures SomeClause(fs, item, r) <==> SomeClause(gs, item, r)
  {
    PermutationMembers(fs, gs);
  }

  /** Off the well-typed trees short-circuiting shows: And is independent of the
      order of its clauses exactly when no clause fails beside one that is false. */
  lemma AndOrderIndependent(fs: seq<Filter>, item: Item)
    ensures (forall gs :: Permutation(fs, gs) ==> Match(AndFilter(gs), item) == Match(AndFilter(fs), item))
       <==> !(SomeClause(fs, item, Err) && SomeClause(fs, item, Ok(false)))
  {
    forall gs | Permutation(fs, gs)
      ensures !(SomeClause(fs, item, Err) && SomeClause(fs, item, Ok(false))) ==>
                Match(AndFilter(gs), item) == Match(AndFilter(fs), item)
    {
      AllMatchOutcome(fs, item);
      AllMatchOutcome(gs, item);
      SomePermuted(fs, gs, item, Err);
      SomePermuted(fs, gs, item, Ok(false));
      MatchAnd(fs, item);
      MatchAnd(gs, item);
    }
    if SomeClause(fs, item, Err) && SomeClause(fs, item, Ok(false)) {
      var gs := FirstClause(fs, item, Err);
      var hs := FirstClause(fs, item, Ok(false));
      MatchAnd(gs, item);
      MatchAnd(hs, item);
    }
  }

  lemma AnyMatchPermuted(fs: seq<Filter>, gs: seq<Filter>, item: Item)
    requires Permutation(fs, gs)
    ensures !(SomeClause(fs, item, Err) && SomeClause(fs, item, Ok(true))) ==> AnyMatch(gs, item) == AnyMatch(fs, item)
  {
    AnyMatchOutcome(fs, item);
    AnyMatchOutcome(gs, item);
    SomePermuted(fs, gs, item, Err);
    SomePermuted(fs, gs, item, Ok(true));
  }

  /** Or likewise: exactly when no clause fails beside one that is true. */
  lemma OrOrderIndependent(fs: seq<Filter>, item: Item)
    ensures (forall gs :: Permutation(fs, gs) ==> Match(OrFilter(gs), item) == Match(OrFilter(fs), item))
       <==> !(SomeClause(fs, item, Err) && SomeClause(fs, item, Ok(true)))
  {
    forall gs | Permutation(fs, gs)
      ensures !(SomeClause(fs, item, Err) && SomeClause(fs, item, Ok(true))) ==>
                Match(OrFilter(gs), item) == Match(OrFilter(fs), item)
    {
      PermutationMembers(fs, gs);
      MatchOr(fs, item);
      MatchOr(gs, item);
      AnyMatchPermuted(fs, gs, item);
    }
    if SomeClause(fs, item, Err) && SomeClause(fs, item, Ok(true)) {
      var gs := FirstClause(fs, item, Err);
      var hs := FirstClause(fs, item, Ok(true));
      MatchOr(gs, item);
      MatchOr(hs, item);
    }
  }

  lemma FirstClause(fs: seq<Filter>, item: Item, r: Result<bool>) returns (gs: seq<Filter>)
    requires SomeClause(fs, item, r)
    ensures Permutation(fs, gs) && gs != [] && Match(gs[0], item) == r
  {
    var f :| f in fs && Match(f, item) == r;
    var i :| 0 <= i < |fs| && fs[i] == f;
    MoveToFront(fs, i);
    gs := [fs[i]] + (fs[..i] + fs[i + 1..]);
  }

  // ---- terms as a disjunction

  function TermEach(field: string, ws: seq<Scalar>): seq<Filter> {
    Map(ws, (w: Scalar) => TermFilter(field, w))
  }

  lemma {:induction false} TermsOnScalar(field: string, ws: seq<Scalar>, item: Item)
    requires field in item && !item[field].StrList?
    ensures AnyMatch(TermEach(field, ws), item) == EqualsAny(item[field], ws)
  {
    if ws != [] {
      assert TermEach(field, ws)[1..] == TermEach(field, ws[1..]);
      TermsOnScalar(field, ws[1..], item);
    }
  }

  lemma {:induction false} TermsOnMissing(field: string, ws: seq<Scalar>, item: Item)
    requires field !in item
    ensures AnyMatch(TermEach(field, ws), item) == Ok(false)
  {
    if ws != [] {
      assert TermEach(field, ws)[1..] == TermEach(field, ws[1..]);
      TermsOnMissing(field, ws[1..], item);
    }
  }

  /** The values up to the first that is not a string. */
  function StringPrefix(ws: seq<Scalar>): (p: seq<string>)
    ensures |p| <= |ws|
  {
    if ws == [] || !ws[0].StringValue? then [] else [ws[0].s] + StringPrefix(ws[1..])
  }

  predicate AllStrings(ws: seq<Scalar>) {
    |StringPrefix(ws)| == |ws|
  }

  lemma {:induction false} ElementEqualsAny(e: string, ws: seq<Scalar>)
    ensures EqualsAny(Str(e), ws)
         == if e in StringPrefix(ws) then Ok(true) else if AllStrings(ws) then Ok(false) else Err
  {
    if ws != [] {
      if ws[0].StringValue? {
        CmpStringLaws(e, ws[0].s, e);
        ElementEqualsAny(e, ws[1..]);
      }
    }
  }

  lemma {:induction false} AnyElementOutcome(elems: seq<string>, ws: seq<Scalar>)
    ensures AnyElement(elems, ws)
         == if elems == [] then Ok(false)
            else if AllStrings(ws) then Ok(exists e :: e in elems && e in StringPrefix(ws))
            else if elems[0] in StringPrefix(ws) then Ok(true) else Err
  {
    if elems != [] {
      ElementEqualsAny(elems[0], ws);
      AnyElementOutcome(elems[1..], ws);
      assert forall e :: e in elems <==> e == elems[0] || e in elems[1..];
    }
  }

  lemma {:induction false} OrOfTermsOutcome(field: string, ws: seq<Scalar>, item: Item)
    requires field in item && item[field].StrList?
    ensures var elems := item[field].elems;
      AnyMatch(TermEach(field, ws), item)
         == if elems == [] then Ok(false)
            else if exists e :: e in elems && e in StringPrefix(ws) then Ok(true)
            else if AllStrings(ws) then Ok(false) else Err
  {
    var elems := item[field].elems;
    if ws != [] {
      var p, q := StringPrefix(ws), StringPrefix([ws[0]]);
      assert TermEach(field, ws)[1..] == TermEach(field, ws[1..]);
      OrOfTermsOutcome(field, ws[1..], item);
      AnyElementOutcome(elems, [ws[0]]);
      assert [ws[0]][1..] == [];
      if ws[0].StringValue? {
        assert q == [ws[0].s] && AllStrings([ws[0]]);
        assert p == [ws[0].s] + StringPrefix(ws[1..]);
        assert forall e :: e in p <==> e == ws[0].s || e in StringPrefix(ws[1..]);
        assert ws[0].s in q;
      }
    }
  }

  // ---- when a leaf fails

  /** The i-th value is of another kind, and v is none of those before it. */
  ghost predicate StopsAt(v: Val, ws: seq<Scalar>, i: nat) {
    && i < |ws| && !Comparable(v, ws[i])
    && forall j :: 0 <= j < i ==> Comparable(v, ws[j]) && !Same(v, ws[j])
  }

  lemma {:induction false} EqualsAnyFails(v: Val, ws: seq<Scalar>)
    ensures EqualsAny(v, ws).Err? <==> exists i :: StopsAt(v, ws, i)
  {
    if ws != [] {
      ComparisonMeaning(v, ws[0]);
      EqualsAnyFails(v, ws[1..]);
      if i: nat :| StopsAt(v, ws, i) {
        assert i > 0 ==> StopsAt(v, ws[1..], i - 1);
      }
      if Comparable(v, ws[0]) && !Same(v, ws[0]) {
        if i: nat :| StopsAt(v, ws[1..], i) {
          assert StopsAt(v, ws, i + 1);
        }
      } else if !Comparable(v, ws[0]) {
        assert StopsAt(v, ws, 0);
      }
    }
  }

  /** A term fails without a value, or if the field holds something of another kind. */
  ghost predicate TermFails(f: Filter, item: Item) {
    f.value.None?
    || (f.field in item
        && if item[f.field].StrList? then item[f.field].elems != [] && !f.value.value.StringValue?
           else !Comparable(item[f.field], f.value.value))
  }

  /** A list of values fails if one of another kind is met before one that equals the field. */
  ghost predicate TermsFail(f: Filter, item: Item) {
    f.field in item
    && if item[f.field].StrList?
       then item[f.field].elems != [] && !AllStrings(f.values) && item[f.field].elems[0] !in StringPrefix(f.values)
       else exists i :: StopsAt(item[f.field], f.values, i)
  }

  /** When a leaf fails, exactly; a field that is missing never does. */
  lemma LeafFails(f: Filter, item: Item)
    requires f.op != OpBool
    ensures Match(f, item).Err?
       <==> match f.op
            case OpTerm => TermFails(f, item)
            case OpTerms => TermsFail(f, item)
            case OpRange =>
              f.range.None? || (f.field in item && (item[f.field].StrList? || RangeFails(item[f.field], f.range.value)))
            case OpUnknown => true
            case _ => false
  {
    match f.op
    case OpTerm =>
      if f.value.Some? && f.field in item {
        var ws := [f.value.value];
        if item[f.field].StrList? {
          OneStringOrNot(f.value.value);
          AnyElementOutcome(item[f.field].elems, ws);
        } else {
          ComparisonMeaning(item[f.field], f.value.value);
        }
      }
    case OpTerms =>
      if f.field in item {
        if item[f.field].StrList? {
          AnyElementOutcome(item[f.field].elems, f.values);
        } else {
          EqualsAnyFails(item[f.field], f.values);
        }
      }
    case OpRange =>
      if f.range.Some? && f.field in item && !item[f.field].StrList? {
        RangeOutcome(item[f.field], f.range.value);
      }
    case _ =>
  }

  lemma OneStringOrNot(w: Scalar)
    ensures StringPrefix([w]) == if w.StringValue? then [w.s] else []
    ensures AllStrings([w]) <==> w.StringValue?
  {
    assert [w][1..] == [];
  }

  /** Terms with at least one value is the Or of its Terms, on missing and scalar
      fields without exception.  On a list field the two loops nest the other way
      round, so with a value that is not a string among the values they can stop at
      different places: the answers agree exactly when every value is a string, or
      the list is empty, or its first element decides, or none of it matches. */
  lemma TermsIsOrOfTerms(field: string, ws: seq<Scalar>, item: Item)
    requires ws != []
    ensures (field in item && item[field].StrList? ==>
              var elems, p := item[field].elems, StringPrefix(ws);
              (Match(TermsFilter(field, ws), item) == Match(OrFilter(TermEach(field, ws)), item)
               <==> AllStrings(ws) || elems == [] || elems[0] in p || !exists e :: e in elems && e in p))
    ensures !(field in item && item[field].StrList?) ==>
              Match(TermsFilter(field, ws), item) == Match(OrFilter(TermEach(field, ws)), item)
  {
    MatchOr(TermEach(field, ws), item);
    if field !in item {
      TermsOnMissing(field, ws, item);
    } else if item[field].StrList? {
      AnyElementOutcome(item[field].elems, ws);
      OrOfTermsOutcome(field, ws, item);
    } else {
      TermsOnScalar(field, ws, item);
    }
  }

  /** The two empty cases differ: Or of nothing matches everything, Terms of nothing nothing. */
  lemma EmptyTermsIsNotEmptyOr(field: string, item: Item)
    ensures Match(TermsFilter(field, []), item) == Ok(false)
    ensures Match(OrFilter([]), item) == Ok(true)
  {
    if Field(item, field).StrList? {
      AnyElementOutcome(item[field].elems, []);
    }
  }
}
