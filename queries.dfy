/**
 * The log filters of log-changes.php: `build_filter_clauses`, which export
 * and delete use, and the copy of it inside `render_admin_page`, which lacks
 * the date range. A WHERE clause is modelled by what it means for a row:
 * `=` and `LIKE` compare under the collation's case folding, `%d` columns
 * compare as integers and DATETIME bounds compare as text.
 */
module Queries {
  import opened Php
  import opened Host
  import opened Storage

  /** `$_GET` */
  type Query = map<string, string>

  /** The six clause strings the builder can emit, in its fixed order. */
  datatype Clause = ActionTypeIs | ObjectTypeIs | UserIdIs | SearchLike | TimestampFrom | TimestampTo

  /**
   * A bound value. `SqlContains(t)` is the LIKE operand `'%' . esc_like( t ) . '%'`:
   * with `t`'s wildcards escaped, it matches exactly the texts containing `t`.
   */
  datatype SqlValue = SqlText(s: string) | SqlInt(n: int) | SqlContains(term: string)

  function Rank(c: Clause): nat
  {
    match c
    case ActionTypeIs => 0
    case ObjectTypeIs => 1
    case UserIdIs => 2
    case SearchLike => 3
    case TimestampFrom => 4
    case TimestampTo => 5
  }

  /** How many `%` placeholders the clause has. */
  function Arity(c: Clause): nat
  {
    if c == SearchLike then 2 else 1
  }

  /** The clause and value lists are parallel: each clause is followed by exactly its own values. */
  predicate Binds(clauses: seq<Clause>, values: seq<SqlValue>)
  {
    if clauses == [] then values == []
    else |values| >= Arity(clauses[0]) && Binds(clauses[1..], values[Arity(clauses[0])..])
  }

  /** `t` occurs in `s`. */
  predicate Infix(t: string, s: string)
  {
    exists i :: 0 <= i <= |s| && t <= s[i..]
  }

  /** One clause, applied to a row with its bound values. */
  predicate ClauseHolds(c: Clause, vs: seq<SqlValue>, r: LogEntry, fold: string -> string)
  {
    |vs| == Arity(c) &&
    match c
    case ActionTypeIs => vs[0].SqlText? && fold(r.actionType) == fold(vs[0].s)
    case ObjectTypeIs => vs[0].SqlText? && fold(r.objectType) == fold(vs[0].s)
    case UserIdIs => vs[0].SqlInt? && r.userId == Some(vs[0].n)
    case SearchLike =>
      vs[0].SqlContains? && vs[1].SqlContains?
      && (Infix(fold(vs[0].term), fold(r.description)) || Infix(fold(vs[1].term), fold(r.objectName)))
    case TimestampFrom => vs[0].SqlText? && TextLessEq(vs[0].s, r.timestamp)
    case TimestampTo => vs[0].SqlText? && TextLessEq(r.timestamp, vs[0].s)
  }

  /** `WHERE c1 AND c2 AND ...` with the values bound in order; no clauses admit every row. */
  predicate Satisfies(r: LogEntry, clauses: seq<Clause>, values: seq<SqlValue>, fold: string -> string)
  {
    if clauses == [] then true
    else
      var k := Arity(clauses[0]);
      |values| >= k && ClauseHolds(clauses[0], values[..k], r, fold)
      && Satisfies(r, clauses[1..], values[k..], fold)
  }

  /** Adding a clause with its values narrows the filter by exactly that clause. */
  lemma {:induction false} SatisfiesExtend(clauses: seq<Clause>, values: seq<SqlValue>, c: Clause, vs: seq<SqlValue>,
                                           r: LogEntry, fold: string -> string)
    requires Binds(clauses, values) && |vs| == Arity(c)
    ensures Binds(clauses + [c], values + vs)
    ensures Satisfies(r, clauses + [c], values + vs, fold)
      <==> Satisfies(r, clauses, values, fold) && ClauseHolds(c, vs, r, fold)
  {
    if clauses == [] {
      assert [] + [c] == [c];
      assert values + vs == vs;
      assert vs[Arity(c)..] == [];
      assert vs[..Arity(c)] == vs;
    } else {
      var k := Arity(clauses[0]);
      SatisfiesExtend(clauses[1..], values[k..], c, vs, r, fold);
      assert (clauses + [c])[1..] == clauses[1..] + [c];
      assert (values + vs)[k..] == values[k..] + vs;
      assert (values + vs)[..k] == values[..k];
    }
  }

  // ---------------------------------------------------------------------------
  // The criteria as the request states them

  /** `! empty( $_GET[$key] )` */
  predicate Present(query: Query, key: string)
  {
    key in query && !EmptyText(query[key])
  }

  /** `sanitize_text_field( wp_unslash( $_GET[$key] ) )` */
  function Field(query: Query, h: Foreign, key: string): string
    requires key in query
  {
    h.sanitizeText(h.unslash(query[key]))
  }

  predicate Digit(c: char)
  {
    '0' <= c <= '9'
  }

  predicate IsDateText(s: string)
  {
    |s| == 10 && s[4] == '-' && s[7] == '-'
    && Digit(s[0]) && Digit(s[1]) && Digit(s[2]) && Digit(s[3])
    && Digit(s[5]) && Digit(s[6]) && Digit(s[8]) && Digit(s[9])
  }

  /** `preg_match( '/^\d{4}-\d{2}-\d{2}$/', $s )`: `$` also matches before a final newline. */
  predicate IsDateFormat(s: string)
  {
    IsDateText(s) || (|s| == 11 && s[10] == '\n' && IsDateText(s[..10]))
  }

  /** A date criterion that the builder uses: present and in date form. */
  predicate DateGiven(query: Query, h: Foreign, key: string)
  {
    Present(query, key) && IsDateFormat(Field(query, h, key))
  }

  /** The non-date criteria, each one required only when given. */
  predicate AdmitsIgnoringDates(query: Query, h: Foreign, r: LogEntry)
  {
    && (Present(query, "filter_action") ==> h.fold(r.actionType) == h.fold(Field(query, h, "filter_action")))
    && (Present(query, "filter_object") ==> h.fold(r.objectType) == h.fold(Field(query, h, "filter_object")))
    && (Present(query, "filter_user") ==> r.userId == Some(h.absint(query["filter_user"]) as int))
    && (Present(query, "search") ==>
          Infix(h.fold(Field(query, h, "search")), h.fold(r.description))
          || Infix(h.fold(Field(query, h, "search")), h.fold(r.objectName)))
  }

  /** All the criteria: the day range covers whole days, from midnight to 23:59:59. */
  predicate Admits(query: Query, h: Foreign, r: LogEntry)
  {
    && AdmitsIgnoringDates(query, h, r)
    && (DateGiven(query, h, "date_from") ==> TextLessEq(Field(query, h, "date_from") + " 00:00:00", r.timestamp))
    && (DateGiven(query, h, "date_to") ==> TextLessEq(r.timestamp, Field(query, h, "date_to") + " 23:59:59"))
  }

  /** Whether the request asks for the criterion behind a clause. */
  predicate Requested(query: Query, h: Foreign, c: Clause)
  {
    match c
    case ActionTypeIs => Present(query, "filter_action")
    case ObjectTypeIs => Present(query, "filter_object")
    case UserIdIs => Present(query, "filter_user")
    case SearchLike => Present(query, "search")
    case TimestampFrom => DateGiven(query, h, "date_from")
    case TimestampTo => DateGiven(query, h, "date_to")
  }

  /** Clauses strictly in the builder's fixed order (so none twice). */
  predicate InOrder(clauses: seq<Clause>)
  {
    forall i, j :: 0 <= i < j < |clauses| ==> Rank(clauses[i]) < Rank(clauses[j])
  }

  lemma InOrderExtend(clauses: seq<Clause>, c: Clause)
    requires InOrder(clauses)
    requires forall i :: 0 <= i < |clauses| ==> Rank(clauses[i]) < Rank(c)
    ensures InOrder(clauses + [c])
  {
  }

  /** The order in which the builder considers the criteria. */
  const AllCriteria: seq<Clause> := [ActionTypeIs, ObjectTypeIs, UserIdIs, SearchLike, TimestampFrom, TimestampTo]

  /** The criteria the listing considers. */
  const ListingCriteria: seq<Clause> := [ActionTypeIs, ObjectTypeIs, UserIdIs, SearchLike]

  /** The values a requested clause binds; the search term is bound twice. */
  function BoundValues(query: Query, h: Foreign, c: Clause): (vs: seq<SqlValue>)
    requires Requested(query, h, c)
    ensures |vs| == Arity(c)
  {
    match c
    case ActionTypeIs => [SqlText(Field(query, h, "filter_action"))]
    case ObjectTypeIs => [SqlText(Field(query, h, "filter_object"))]
    case UserIdIs => [SqlInt(h.absint(query["filter_user"]))]
    case SearchLike => [SqlContains(Field(query, h, "search")), SqlContains(Field(query, h, "search"))]
    case TimestampFrom => [SqlText(Field(query, h, "date_from") + " 00:00:00")]
    case TimestampTo => [SqlText(Field(query, h, "date_to") + " 23:59:59")]
  }

  /** The clauses emitted when the criteria `cs` are considered in turn. */
  function ClausesFor(query: Query, h: Foreign, cs: seq<Clause>): seq<Clause>
  {
    if cs == [] then []
    else
      var c := cs[|cs| - 1];
      ClausesFor(query, h, cs[..|cs| - 1]) + (if Requested(query, h, c) then [c] else [])
  }

  /** The values emitted alongside `ClausesFor`. */
  function ValuesFor(query: Query, h: Foreign, cs: seq<Clause>): seq<SqlValue>
  {
    if cs == [] then []
    else
      var c := cs[|cs| - 1];
      ValuesFor(query, h, cs[..|cs| - 1]) + (if Requested(query, h, c) then BoundValues(query, h, c) else [])
  }

  /** A requested criterion holds of the row. */
  predicate Meets(query: Query, h: Foreign, c: Clause, r: LogEntry)
  {
    Requested(query, h, c) ==> ClauseHolds(c, BoundValues(query, h, c), r, h.fold)
  }

  /** The emitted lists are parallel, and admit exactly the rows meeting every considered criterion. */
  lemma {:induction false} FilterMeaning(query: Query, h: Foreign, cs: seq<Clause>, r: LogEntry)
    ensures Binds(ClausesFor(query, h, cs), ValuesFor(query, h, cs))
    ensures Satisfies(r, ClausesFor(query, h, cs), ValuesFor(query, h, cs), h.fold)
      <==> forall c :: c in cs ==> Meets(query, h, c, r)
  {
    if cs != [] {
      var init := cs[..|cs| - 1];
      var c := cs[|cs| - 1];
      FilterMeaning(query, h, init, r);
      var prevC, prevV := ClausesFor(query, h, init), ValuesFor(query, h, init);
      assert cs == init + [c];
      assert (forall x :: x in cs ==> Meets(query, h, x, r))
        <==> (forall x :: x in init ==> Meets(query, h, x, r)) && Meets(query, h, c, r);
      if Requested(query, h, c) {
        SatisfiesExtend(prevC, prevV, c, BoundValues(query, h, c), r, h.fold);
      } else {
        assert ClausesFor(query, h, cs) == prevC + [] == prevC;
        assert ValuesFor(query, h, cs) == prevV + [] == prevV;
      }
    }
  }

  /** A clause is emitted iff it is considered and requested. */
  lemma {:induction false} ClausesForMembers(query: Query, h: Foreign, cs: seq<Clause>)
    ensures forall c :: c in ClausesFor(query, h, cs) <==> c in cs && Requested(query, h, c)
  {
    if cs != [] {
      var init := cs[..|cs| - 1];
      ClausesForMembers(query, h, init);
      assert cs == init + [cs[|cs| - 1]];
    }
  }

  /** Emitting keeps the order of the criteria. */
  lemma {:induction false} ClausesForOrder(query: Query, h: Foreign, cs: seq<Clause>)
    requires InOrder(cs)
    ensures InOrder(ClausesFor(query, h, cs))
  {
    if cs != [] {
      var init := cs[..|cs| - 1];
      var c := cs[|cs| - 1];
      ClausesForOrder(query, h, init);
      ClausesForMembers(query, h, init);
      if Requested(query, h, c) {
        var prev := ClausesFor(query, h, init);
        forall i | 0 <= i < |prev| ensures Rank(prev[i]) < Rank(c) {
          assert prev[i] in init;
        }
        InOrderExtend(prev, c);
      } else {
        assert ClausesFor(query, h, init) + [] == ClausesFor(query, h, init);
      }
    }
  }

  /** One value per clause, plus one for the search, which binds its term twice. */
  lemma {:induction false} ValuesForCount(query: Query, h: Foreign, cs: seq<Clause>)
    requires InOrder(cs)
    ensures |ValuesFor(query, h, cs)|
      == |ClausesFor(query, h, cs)| + (if SearchLike in cs && Present(query, "search") then 1 else 0)
  {
    if cs != [] {
      var init := cs[..|cs| - 1];
      ValuesForCount(query, h, init);
      assert cs == init + [cs[|cs| - 1]];
    }
  }

  /** The clause semantics of each non-date criterion is the criterion as the request states it. */
  lemma MeetsListingCriteria(query: Query, h: Foreign, r: LogEntry)
    ensures Meets(query, h, ActionTypeIs, r) && Meets(query, h, ObjectTypeIs, r)
      && Meets(query, h, UserIdIs, r) && Meets(query, h, SearchLike, r)
      <==> AdmitsIgnoringDates(query, h, r)
  {
  }

  /** The same for the two dates: whole days, from midnight to 23:59:59. */
  lemma MeetsDateCriteria(query: Query, h: Foreign, r: LogEntry)
    ensures Meets(query, h, TimestampFrom, r) <==>
      (DateGiven(query, h, "date_from") ==> TextLessEq(Field(query, h, "date_from") + " 00:00:00", r.timestamp))
    ensures Meets(query, h, TimestampTo, r) <==>
      (DateGiven(query, h, "date_to") ==> TextLessEq(r.timestamp, Field(query, h, "date_to") + " 23:59:59"))
  {
  }

  /** Meeting every considered criterion is the reference reading of the request. */
  lemma CriteriaMeaning(query: Query, h: Foreign, r: LogEntry)
    ensures (forall c :: c in ListingCriteria ==> Meets(query, h, c, r)) <==> AdmitsIgnoringDates(query, h, r)
    ensures (forall c :: c in AllCriteria ==> Meets(query, h, c, r)) <==> Admits(query, h, r)
  {
    MeetsListingCriteria(query, h, r);
    MeetsDateCriteria(query, h, r);
    assert ActionTypeIs in ListingCriteria && ObjectTypeIs in ListingCriteria;
    assert UserIdIs in ListingCriteria && SearchLike in ListingCriteria;
    assert ActionTypeIs in AllCriteria && ObjectTypeIs in AllCriteria && UserIdIs in AllCriteria;
    assert SearchLike in AllCriteria && TimestampFrom in AllCriteria && TimestampTo in AllCriteria;
  }

  /** Considering one more criterion appends its clause and values when it is requested. */
  lemma ForSnoc(query: Query, h: Foreign, cs: seq<Clause>, c: Clause)
    ensures ClausesFor(query, h, cs + [c]) == ClausesFor(query, h, cs) + (if Requested(query, h, c) then [c] else [])
    ensures ValuesFor(query, h, cs + [c])
      == ValuesFor(query, h, cs) + (if Requested(query, h, c) then BoundValues(query, h, c) else [])
  {
    assert (cs + [c])[..|cs|] == cs;
  }

  // ---------------------------------------------------------------------------
  // The builders

  /**
   * `build_filter_clauses`: the six criteria are considered in turn, so the
   * lists are those of `ClausesFor`/`ValuesFor` over `AllCriteria`, whose
   * shape and meaning `ExportFilterShape` and
   * `ExportFilterMeaning` state.
   */
  method BuildFilterClauses(query: Query, h: Foreign) returns (clauses: seq<Clause>, values: seq<SqlValue>)
    ensures clauses == ClausesFor(query, h, AllCriteria) && values == ValuesFor(query, h, AllCriteria)
  {
    clauses, values := [], [];
    ghost var done: seq<Clause> := [];
    ForSnoc(query, h, done, ActionTypeIs);
    done := done + [ActionTypeIs];
    clauses, values := AddFieldClause(query, h, ActionTypeIs, clauses, values);
    ForSnoc(query, h, done, ObjectTypeIs);
    done := done + [ObjectTypeIs];
    clauses, values := AddFieldClause(query, h, ObjectTypeIs, clauses, values);
    ForSnoc(query, h, done, UserIdIs);
    done := done + [UserIdIs];
    clauses, values := AddFieldClause(query, h, UserIdIs, clauses, values);
    ForSnoc(query, h, done, SearchLike);
    done := done + [SearchLike];
    clauses, values := AddFieldClause(query, h, SearchLike, clauses, values);
    ForSnoc(query, h, done, TimestampFrom);
    done := done + [TimestampFrom];
    clauses, values := AddDateClause(query, h, TimestampFrom, clauses, values);
    ForSnoc(query, h, done, TimestampTo);
    done := done + [TimestampTo];
    clauses, values := AddDateClause(query, h, TimestampTo, clauses, values);
    assert done == AllCriteria;
  }

  /**
   * One of the blocks for `filter_action`, `filter_object`, `filter_user` and
   * `search`: the clause is added when the parameter is non-empty; the search
   * term is bound once for each of the two columns it is matched against.
   */
  method AddFieldClause(query: Query, h: Foreign, c: Clause, clauses: seq<Clause>, values: seq<SqlValue>)
    returns (clauses': seq<Clause>, values': seq<SqlValue>)
    requires Rank(c) < 4
    ensures clauses' == clauses + (if Requested(query, h, c) then [c] else [])
    ensures values' == values + (if Requested(query, h, c) then BoundValues(query, h, c) else [])
  {
    clauses', values' := clauses, values;
    match c {
      case ActionTypeIs =>
        if Present(query, "filter_action") {
          clauses', values' := clauses + [c], values + [SqlText(Field(query, h, "filter_action"))];
        }
      case ObjectTypeIs =>
        if Present(query, "filter_object") {
          clauses', values' := clauses + [c], values + [SqlText(Field(query, h, "filter_object"))];
        }
      case UserIdIs =>
        if Present(query, "filter_user") {
          clauses', values' := clauses + [c], values + [SqlInt(h.absint(query["filter_user"]))];
        }
      case SearchLike =>
        if Present(query, "search") {
          var search := SqlContains(Field(query, h, "search"));
          clauses', values' := clauses + [c], values + [search, search];
        }
    }
    assert clauses + [] == clauses && values + [] == values;
  }

  /** One of the two date blocks of `build_filter_clauses`: the bound is added only for a well-formed date. */
  method AddDateClause(query: Query, h: Foreign, c: Clause, clauses: seq<Clause>, values: seq<SqlValue>)
    returns (clauses': seq<Clause>, values': seq<SqlValue>)
    requires c == TimestampFrom || c == TimestampTo
    ensures clauses' == clauses + (if Requested(query, h, c) then [c] else [])
    ensures values' == values + (if Requested(query, h, c) then BoundValues(query, h, c) else [])
  {
    var key := if c == TimestampFrom then "date_from" else "date_to";
    var suffix := if c == TimestampFrom then " 00:00:00" else " 23:59:59";
    if Present(query, key) {
      var date := Field(query, h, key);
      if IsDateFormat(date) {
        return clauses + [c], values + [SqlText(date + suffix)];
      }
    }
    assert clauses + [] == clauses && values + [] == values;
    return clauses, values;
  }

  /** The structural facts about the emitted lists, for an ordered list of criteria. */
  lemma FilterProperties(query: Query, h: Foreign, cs: seq<Clause>)
    requires InOrder(cs)
    ensures Binds(ClausesFor(query, h, cs), ValuesFor(query, h, cs)) && InOrder(ClausesFor(query, h, cs))
    ensures forall c :: c in ClausesFor(query, h, cs) <==> c in cs && Requested(query, h, c)
    ensures |ValuesFor(query, h, cs)|
      == |ClausesFor(query, h, cs)| + (if SearchLike in cs && Present(query, "search") then 1 else 0)
  {
    FilterMeaning(query, h, cs, LogEntry(0, "", None, "", "", "", 0, "", "", None, None, "", ""));
    ClausesForMembers(query, h, cs);
    ClausesForOrder(query, h, cs);
    ValuesForCount(query, h, cs);
  }

  /**
   * The shape of what `build_filter_clauses` returns: parallel lists, one
   * clause per requested criterion in the fixed order, and one extra value
   * for the search.
   */
  lemma ExportFilterShape(query: Query, h: Foreign)
    ensures var (clauses, values) := (ClausesFor(query, h, AllCriteria), ValuesFor(query, h, AllCriteria));
      && Binds(clauses, values) && InOrder(clauses)
      && (forall c :: c in clauses <==> Requested(query, h, c))
      && |values| == |clauses| + (if Present(query, "search") then 1 else 0)
  {
    FilterProperties(query, h, AllCriteria);
  }

  /** The export filter admits a row iff the row meets every requested criterion, dates included. */
  lemma ExportFilterMeaning(query: Query, h: Foreign, r: LogEntry)
    ensures Satisfies(r, ClausesFor(query, h, AllCriteria), ValuesFor(query, h, AllCriteria), h.fold) <==> Admits(query, h, r)
  {
    FilterMeaning(query, h, AllCriteria, r);
    CriteriaMeaning(query, h, r);
  }

  /** The same shape for the listing's filter, whose criteria stop before the dates. */
  lemma ListingFilterShape(query: Query, h: Foreign)
    ensures var (clauses, values) := (ClausesFor(query, h, ListingCriteria), ValuesFor(query, h, ListingCriteria));
      && Binds(clauses, values) && InOrder(clauses)
      && (forall c :: c in clauses <==> Requested(query, h, c) && Rank(c) < 4)
      && |values| == |clauses| + (if Present(query, "search") then 1 else 0)
  {
    FilterProperties(query, h, ListingCriteria);
  }

  /** The listing filter admits a row iff the row meets every requested criterion other than the dates. */
  lemma ListingFilterMeaning(query: Query, h: Foreign, r: LogEntry)
    ensures Satisfies(r, ClausesFor(query, h, ListingCriteria), ValuesFor(query, h, ListingCriteria), h.fold)
      <==> AdmitsIgnoringDates(query, h, r)
  {
    FilterMeaning(query, h, ListingCriteria, r);
    CriteriaMeaning(query, h, r);
  }

  /**
   * The filter `render_admin_page` builds for the listing: the same first
   * four criteria and no date range.
   */
  method ListingFilterClauses(query: Query, h: Foreign) returns (clauses: seq<Clause>, values: seq<SqlValue>)
    ensures clauses == ClausesFor(query, h, ListingCriteria) && values == ValuesFor(query, h, ListingCriteria)
  {
    clauses, values := [], [];
    ghost var done: seq<Clause> := [];
    ForSnoc(query, h, done, ActionTypeIs);
    done := done + [ActionTypeIs];
    clauses, values := AddFieldClause(query, h, ActionTypeIs, clauses, values);
    ForSnoc(query, h, done, ObjectTypeIs);
    done := done + [ObjectTypeIs];
    clauses, values := AddFieldClause(query, h, ObjectTypeIs, clauses, values);
    ForSnoc(query, h, done, UserIdIs);
    done := done + [UserIdIs];
    clauses, values := AddFieldClause(query, h, UserIdIs, clauses, values);
    ForSnoc(query, h, done, SearchLike);
    done := done + [SearchLike];
    clauses, values := AddFieldClause(query, h, SearchLike, clauses, values);
    assert done == ListingCriteria;
  }

  // ---------------------------------------------------------------------------
  // Listing versus export

  /** The listing shows every row export or delete would take, and the two agree when no date is given. */
  lemma ListingCoversExport(query: Query, h: Foreign, r: LogEntry)
    ensures Admits(query, h, r) ==> AdmitsIgnoringDates(query, h, r)
    ensures !DateGiven(query, h, "date_from") && !DateGiven(query, h, "date_to") ==>
      (Admits(query, h, r) <==> AdmitsIgnoringDates(query, h, r))
  {
  }

  /**
   * A row from before `date_from` that meets the other criteria is listed,
   * but export and delete leave it out.
   */
  lemma ListingIgnoresDates(query: Query, h: Foreign, r: LogEntry)
    requires DateGiven(query, h, "date_from")
    requires TextLess(r.timestamp, Field(query, h, "date_from") + " 00:00:00")
    requires AdmitsIgnoringDates(query, h, r)
    ensures !Admits(query, h, r)
  {
    TextLessAsymmetric(r.timestamp, Field(query, h, "date_from") + " 00:00:00");
  }
}
