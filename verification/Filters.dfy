/** The filter evaluator: a boolean tree over term, terms, range and exists
    leaves, its meaning, and the algebra of the builders. */
module Filters {
  import opened Seqs
  import opened Values

  datatype FilterOp = OpBool | OpTerm | OpTerms | OpRange | OpExists | OpUnknown

  datatype Range = Range(gt: Option<Scalar>, gte: Option<Scalar>, lt: Option<Scalar>, lte: Option<Scalar>)

  /** One flat node; `op` says which fields are read. */
  datatype Filter = Filter(
    op: FilterOp,
    must: seq<Filter>, mustNot: seq<Filter>, should: seq<Filter>,
    field: string, value: Option<Scalar>, values: seq<Scalar>, range: Option<Range>)

  // ---- builders

  function TermFilter(field: string, value: Scalar): Filter {
    Filter(OpTerm, [], [], [], field, Some(value), [], None)
  }

  function TermsFilter(field: string, values: seq<Scalar>): Filter {
    Filter(OpTerms, [], [], [], field, None, values, None)
  }

  function AndFilter(fs: seq<Filter>): Filter {
    Filter(OpBool, fs, [], [], "", None, [], None)
  }

  function OrFilter(fs: seq<Filter>): Filter {
    Filter(OpBool, [], [], fs, "", None, [], None)
  }

  function NotFilter(fs: seq<Filter>): Filter {
    Filter(OpBool, [], fs, [], "", None, [], None)
  }

  // ---- evaluation

  /** The evaluator on a present filter; a nil filter is MatchOptional's. */
  function Match(f: Filter, item: Item): Result<bool>
    decreases f, 1
  {
    match f.op
    case OpBool => MatchBool(f, item)
    case OpTerm => MatchTerm(f, item)
    case OpTerms => MatchTerms(f, item)
    case OpRange => MatchRange(f, item)
    case OpExists =>
      if f.field !in item then Ok(false)
      else if item[f.field].StrList? then Ok(|item[f.field].elems| > 0)
      else Ok(true)
    case OpUnknown => Err
  }

  function MatchOptional(f: Option<Filter>, item: Item): Result<bool> {
    match f
    case None => Ok(true)
    case Some(g) => Match(g, item)
  }

  function MatchBool(f: Filter, item: Item): Result<bool>
    decreases f, 0
  {
    match AllMatch(f.must, item)
    case Err => Err
    case Ok(false) => Ok(false)
    case Ok(true) =>
      match AnyMatch(f.mustNot, item)
      case Err => Err
      case Ok(true) => Ok(false)
      case Ok(false) =>
        if f.must == [] && f.should != [] then AnyMatch(f.should, item) else Ok(true)
  }

  /** Evaluates clauses in turn up to the first that is false or fails. */
  function AllMatch(fs: seq<Filter>, item: Item): Result<bool>
    decreases fs, 0
  {
    if fs == [] then Ok(true)
    else
      match Match(fs[0], item)
      case Ok(true) => AllMatch(fs[1..], item)
      case r => r
  }

  /** Evaluates clauses in turn up to the first that is true or fails. */
  function AnyMatch(fs: seq<Filter>, item: Item): Result<bool>
    decreases fs, 0
  {
    if fs == [] then Ok(false)
    else
      match Match(fs[0], item)
      case Ok(false) => AnyMatch(fs[1..], item)
      case r => r
  }

  function MatchTerm(f: Filter, item: Item): Result<bool> {
    if f.value.None? then Err
    else if f.field !in item then Ok(false)
    else if item[f.field].StrList? then AnyElement(item[f.field].elems, [f.value.value])
    else Equals(item[f.field], f.value.value)
  }

  function MatchTerms(f: Filter, item: Item): Result<bool> {
    if f.field !in item then Ok(false)
    else if item[f.field].StrList? then AnyElement(item[f.field].elems, f.values)
    else EqualsAny(item[f.field], f.values)
  }

  function Equals(v: Val, w: Scalar): Result<bool> {
    match CompareFieldValue(v, w)
    case Ok(c) => Ok(c == 0)
    case Err => Err
  }

  function EqualsAny(v: Val, ws: seq<Scalar>): Result<bool> {
    if ws == [] then Ok(false)
    else
      match Equals(v, ws[0])
      case Ok(false) => EqualsAny(v, ws[1..])
      case r => r
  }

  function AnyElement(elems: seq<string>, ws: seq<Scalar>): Result<bool> {
    if elems == [] then Ok(false)
    else
      match EqualsAny(Str(elems[0]), ws)
      case Ok(false) => AnyElement(elems[1..], ws)
      case r => r
  }

  function MatchRange(f: Filter, item: Item): Result<bool> {
    if f.range.None? then Err
    else if f.field !in item then Ok(false)
    else if item[f.field].StrList? then Err
    else InBounds(item[f.field], RangeBounds(f.range.value))
  }

  datatype Bound = Gt | Gte | Lt | Lte

  /** The bounds that are set, in the order they are checked. */
  function RangeBounds(r: Range): seq<(Bound, Scalar)> {
    (if r.gt.Some? then [(Gt, r.gt.value)] else [])
    + (if r.gte.Some? then [(Gte, r.gte.value)] else [])
    + (if r.lt.Some? then [(Lt, r.lt.value)] else [])
    + (if r.lte.Some? then [(Lte, r.lte.value)] else [])
  }

  function InBounds(v: Val, bounds: seq<(Bound, Scalar)>): Result<bool> {
    if bounds == [] then Ok(true)
    else
      match CompareFieldValue(v, bounds[0].1)
      case Err => Err
      case Ok(c) => if Satisfies(c, bounds[0].0) then InBounds(v, bounds[1..]) else Ok(false)
  }

  predicate Satisfies(cmp: int, b: Bound) {
    match b
    case Gt => cmp > 0
    case Gte => cmp >= 0
    case Lt => cmp < 0
    case Lte => cmp <= 0
  }

  // ---- meaning

  /** v is within the bounds that are set. */
  ghost predicate Within(v: Val, r: Range) {
    && (r.gt.Some? ==> Over(v, r.gt.value))
    && (r.gte.Some? ==> Over(v, r.gte.value) || Same(v, r.gte.value))
    && (r.lt.Some? ==> Under(v, r.lt.value))
    && (r.lte.Some? ==> Under(v, r.lte.value) || Same(v, r.lte.value))
  }

  /** v can be compared with every bound that is set. */
  ghost predicate InKind(v: Val, r: Range) {
    && (r.gt.Some? ==> Comparable(v, r.gt.value)) && (r.gte.Some? ==> Comparable(v, r.gte.value))
    && (r.lt.Some? ==> Comparable(v, r.lt.value)) && (r.lte.Some? ==> Comparable(v, r.lte.value))
  }

  /** What a field holds, seen as a set of values: a list field holds its elements. */
  function Held(item: Item, field: string): seq<Val> {
    if field !in item then []
    else if item[field].StrList? then Map(item[field].elems, (e: string) => Str(e))
    else [item[field]]
  }

  ghost predicate LeafTyped(f: Filter, item: Item) {
    match f.op
    case OpBool => true
    case OpTerm => f.value.Some? && forall v :: v in Held(item, f.field) ==> Comparable(v, f.value.value)
    case OpTerms => forall v, w :: v in Held(item, f.field) && w in f.values ==> Comparable(v, w)
    case OpRange =>
      && f.range.Some?
      && (f.field in item ==> !item[f.field].StrList?)
      && forall v :: v in Held(item, f.field) ==> InKind(v, f.range.value)
    case OpExists => true
    case OpUnknown => false
  }

  /** Every clause that can be consulted compares values of one kind. */
  ghost predicate WellTyped(f: Filter, item: Item) {
    && LeafTyped(f, item)
    && (f.op == OpBool ==>
          && (forall g :: g in f.must ==> WellTyped(g, item))
          && (forall g :: g in f.mustNot ==> WellTyped(g, item))
          && (f.must == [] ==> forall g :: g in f.should ==> WellTyped(g, item)))
  }

  /** The boolean denotation of the tree. */
  ghost predicate Holds(f: Filter, item: Item) {
    match f.op
    case OpBool =>
      && (forall g :: g in f.must ==> Holds(g, item))
      && (forall g :: g in f.mustNot ==> !Holds(g, item))
      && (f.must == [] && f.should != [] ==> exists g :: g in f.should && Holds(g, item))
    case OpTerm => f.value.Some? && exists v :: v in Held(item, f.field) && Same(v, f.value.value)
    case OpTerms => exists v, w :: v in Held(item, f.field) && w in f.values && Same(v, w)
    case OpRange =>
      && f.range.Some? && Held(item, f.field) != []
      && forall v :: v in Held(item, f.field) ==> Within(v, f.range.value)
    case OpExists => Held(item, f.field) != []
    case OpUnknown => false
  }

  lemma {:induction false} EqualsAnyMeaning(v: Val, ws: seq<Scalar>)
    requires forall w :: w in ws ==> Comparable(v, w)
    ensures EqualsAny(v, ws) == Ok(exists w :: w in ws && Same(v, w))
  {
    if ws != [] {
      EqualsAnyMeaning(v, ws[1..]);
      assert Comparable(v, ws[0]);
      ComparisonMeaning(v, ws[0]);
      assert forall w :: w in ws <==> w == ws[0] || w in ws[1..];
    }
  }

  lemma {:induction false} AnyElementMeaning(elems: seq<string>, ws: seq<Scalar>)
    requires forall e, w :: e in elems && w in ws ==> Comparable(Str(e), w)
    ensures AnyElement(elems, ws) == Ok(exists e, w :: e in elems && w in ws && Same(Str(e), w))
  {
    if elems != [] {
      EqualsAnyMeaning(Str(elems[0]), ws);
      AnyElementMeaning(elems[1..], ws);
      assert forall e :: e in elems <==> e == elems[0] || e in elems[1..];
    }
  }

  /** v is on the right side of the bound. */
  ghost predicate Keeps(v: Val, b: Bound, w: Scalar) {
    match b
    case Gt => Over(v, w)
    case Gte => Over(v, w) || Same(v, w)
    case Lt => Under(v, w)
    case Lte => Under(v, w) || Same(v, w)
  }

  function IfSet(b: Bound, w: Option<Scalar>): seq<(Bound, Scalar)> {
    if w.Some? then [(b, w.value)] else []
  }

  /** A bound that is not set decides nothing; one of another kind fails. */
  ghost function Checked(v: Val, b: Bound, w: Option<Scalar>, rest: Result<bool>): Result<bool> {
    if w.None? then rest
    else if !Comparable(v, w.value) then Err
    else if Keeps(v, b, w.value) then rest else Ok(false)
  }

  lemma OneBound(v: Val, b: Bound, w: Option<Scalar>, rest: seq<(Bound, Scalar)>)
    ensures InBounds(v, IfSet(b, w) + rest) == Checked(v, b, w, InBounds(v, rest))
  {
    if w.None? {
      assert IfSet(b, w) + rest == rest;
    } else {
      ComparisonMeaning(v, w.value);
      assert ([(b, w.value)] + rest)[1..] == rest;
    }
  }

  lemma FourBounds(v: Val, r: Range)
    ensures InBounds(v, RangeBounds(r))
         == Checked(v, Gt, r.gt, Checked(v, Gte, r.gte, Checked(v, Lt, r.lt, Checked(v, Lte, r.lte, Ok(true)))))
  {
    var d := IfSet(Lte, r.lte) + [];
    var c := IfSet(Lt, r.lt) + d;
    var b := IfSet(Gte, r.gte) + c;
    assert RangeBounds(r) == IfSet(Gt, r.gt) + b;
    OneBound(v, Lte, r.lte, []);
    OneBound(v, Lt, r.lt, d);
    OneBound(v, Gte, r.gte, c);
    OneBound(v, Gt, r.gt, b);
  }

  /** Checking the bounds in the order gt, gte, lt, lte meets one of another kind before one
      that v is on the wrong side of. */
  ghost predicate RangeFails(v: Val, r: Range) {
    || (r.gt.Some? && !Comparable(v, r.gt.value))
    || ((r.gt.Some? ==> Over(v, r.gt.value))
        && (|| (r.gte.Some? && !Comparable(v, r.gte.value))
            || ((r.gte.Some? ==> Over(v, r.gte.value) || Same(v, r.gte.value))
                && (|| (r.lt.Some? && !Comparable(v, r.lt.value))
                    || ((r.lt.Some? ==> Under(v, r.lt.value)) && r.lte.Some? && !Comparable(v, r.lte.value))))))
  }

  /** A range accepts what is within its bounds, and fails exactly as said. */
  lemma RangeOutcome(v: Val, r: Range)
    ensures InBounds(v, RangeBounds(r)) == if RangeFails(v, r) then Err else Ok(Within(v, r))
  {
    FourBounds(v, r);
  }

  lemma HeldList(item: Item, field: string)
    requires field in item && item[field].StrList?
    ensures forall e :: e in item[field].elems ==> Str(e) in Held(item, field)
    ensures forall v :: v in Held(item, field) ==> v.Str? && v.str in item[field].elems
  {
    var es, hs := item[field].elems, Held(item, field);
    forall e | e in es ensures Str(e) in hs {
      var i :| 0 <= i < |es| && es[i] == e;
      assert hs[i] == Str(e);
    }
  }

  lemma LeafMeaning(f: Filter, item: Item)
    requires f.op != OpBool && LeafTyped(f, item)
    ensures Match(f, item) == Ok(Holds(f, item))
  {
    if f.field in item {
      var v := item[f.field];
      if v.StrList? {
        HeldList(item, f.field);
        if f.op == OpTerm {
          var w := f.value.value;
          AnyElementMeaning(v.elems, [w]);
          assert w in [w];
          if h :| h in Held(item, f.field) && Same(h, w) {
            assert h.str in v.elems && Same(Str(h.str), w);
          }
        } else if f.op == OpTerms {
          AnyElementMeaning(v.elems, f.values);
        }
      } else {
        assert v in Held(item, f.field);
        if f.op == OpTerm {
          ComparisonMeaning(v, f.value.value);
        } else if f.op == OpTerms {
          EqualsAnyMeaning(v, f.values);
        } else if f.op == OpRange {
          RangeOutcome(v, f.range.value);
        }
      }
    }
  }

  /** Main result: on a well-typed tree the evaluator never fails and computes the
      denotation, short cuts and all. */
  lemma {:induction false} MatchMeaning(f: Filter, item: Item)
    requires WellTyped(f, item)
    ensures Match(f, item) == Ok(Holds(f, item))
    decreases f, 1
  {
    if f.op != OpBool {
      LeafMeaning(f, item);
    } else {
      AllMatchMeaning(f.must, item);
      AnyMatchMeaning(f.mustNot, item);
      if f.must == [] {
        AnyMatchMeaning(f.should, item);
      }
    }
  }

  lemma {:induction false} AllMatchMeaning(fs: seq<Filter>, item: Item)
    requires forall g :: g in fs ==> WellTyped(g, item)
    ensures AllMatch(fs, item) == Ok(forall g :: g in fs ==> Holds(g, item))
    decreases fs, 0
  {
    if fs != [] {
      MatchMeaning(fs[0], item);
      AllMatchMeaning(fs[1..], item);
      assert forall g :: g in fs <==> g == fs[0] || g in fs[1..];
    }
  }

  lemma {:induction false} AnyMatchMeaning(fs: seq<Filter>, item: Item)
    requires forall g :: g in fs ==> WellTyped(g, item)
    ensures AnyMatch(fs, item) == Ok(exists g :: g in fs && Holds(g, item))
    decreases fs, 0
  {
    if fs != [] {
      MatchMeaning(fs[0], item);
      AnyMatchMeaning(fs[1..], item);
      assert forall g :: g in fs <==> g == fs[0] || g in fs[1..];
    }
  }
}
