/** The query builders as the server runs them: a shared argument list that grows as placeholders
    are handed out, and loops over the columns, the ranges and the rows read back. Each is proved
    against the statement or response that OrderFilters and OrderPages give. */
module OrderQueries {
  import opened Text
  import Money
  import opened OrderFilters
  import opened OrderPages

  class ArgList {
    var values: seq<Arg>

    constructor ()
      ensures values == []
    {
      values := [];
    }

    /** Binds one more value and hands back its placeholder, which resolves to that value from now on. */
    method Add(value: Arg) returns (placeholder: string)
      modifies this
      ensures values == old(values) + [value]
      ensures placeholder == Placeholder(|values|) && Resolve(placeholder, values) == Some(value)
    {
      values := values + [value];
      ResolvePlaceholder(|values|, values);
      return Placeholder(|values|);
    }
  }

  lemma NumberedAppend(a: seq<Clause>, b: seq<Clause>, from: nat)
    ensures Numbered(a + b, from) == Numbered(a, from) + Numbered(b, from + |a|)
    ensures ArgsOf(a + b) == ArgsOf(a) + ArgsOf(b)
  {}

  lemma NumberedOne(c: Clause, from: nat)
    ensures Numbered([c], from) == [Cond(c.test, Placeholder(from + 1))] && ArgsOf([c]) == [c.arg]
  {}

  /** The conjuncts and arguments collected so far are those of these clauses. */
  ghost predicate Collected(conds: seq<Cond>, values: seq<Arg>, before: seq<Arg>, cs: seq<Clause>) {
    conds == Numbered(cs, |before|) && values == before + ArgsOf(cs)
  }

  lemma NothingCollected(before: seq<Arg>)
    ensures Collected([], before, before, [])
  {}

  lemma CollectOne(conds: seq<Cond>, values: seq<Arg>, before: seq<Arg>, cs: seq<Clause>, c: Clause)
    requires Collected(conds, values, before, cs)
    ensures Collected(conds + [Cond(c.test, Placeholder(|values| + 1))], values + [c.arg], before, cs + [c])
  {
    NumberedAppend(cs, [c], |before|);
    NumberedOne(c, |before| + |cs|);
  }

  lemma CollectMore(conds: seq<Cond>, values: seq<Arg>, before: seq<Arg>, cs: seq<Clause>,
                    more: seq<Cond>, after: seq<Arg>, ds: seq<Clause>)
    requires Collected(conds, values, before, cs) && Collected(more, after, values, ds)
    ensures Collected(conds + more, after, before, cs + ds)
  {
    NumberedAppend(cs, ds, |before|);
  }

  /** One condition with its value bound. */
  method Bind(test: Test, value: Arg, args: ArgList) returns (cond: Cond)
    modifies args
    ensures cond == Cond(test, Placeholder(|old(args.values)| + 1)) && args.values == old(args.values) + [value]
  {
    var placeholder := args.Add(value);
    return Cond(test, placeholder);
  }

  method ColumnConditions(f: Filters, skip: Option<Column>, args: ArgList) returns (conds: seq<Cond>)
    modifies args
    ensures Collected(conds, args.values, old(args.values), ColumnClauses(f, skip, COLUMNS))
  {
    hide Collected, Placeholder;
    ghost var before, cs := args.values, [];
    conds := [];
    NothingCollected(before);
    for i := 0 to |COLUMNS|
      invariant cs == ColumnClauses(f, skip, COLUMNS[..i]) && Collected(conds, args.values, before, cs)
    {
      assert COLUMNS[..i + 1][..i] == COLUMNS[..i];
      var col := COLUMNS[i];
      var values := ValuesFor(f, col);
      if skip == Some(col) || |values| == 0 {
        assert cs + [] == cs;
        continue;
      }
      CollectOne(conds, args.values, before, cs, Clause(AnyOf(col), Texts(values)));
      cs := cs + [Clause(AnyOf(col), Texts(values))];
      var cond := Bind(AnyOf(col), Texts(values), args);
      conds := conds + [cond];
    }
    assert COLUMNS[..|COLUMNS|] == COLUMNS;
  }

  method BoundsConditions(b: Bounds, m: Measure, args: ArgList) returns (conds: seq<Cond>)
    modifies args
    ensures Collected(conds, args.values, old(args.values), BoundsClauses(b, m))
  {
    hide Collected, Placeholder;
    ghost var before, cs := args.values, [];
    conds := [];
    NothingCollected(before);
    if b.min != "" {
      CollectOne(conds, args.values, before, cs, Clause(AtLeast(m), Word(b.min)));
      cs := cs + [Clause(AtLeast(m), Word(b.min))];
      var cond := Bind(AtLeast(m), Word(b.min), args);
      conds := conds + [cond];
    }
    if b.max != "" {
      CollectOne(conds, args.values, before, cs, Clause(AtMost(m), Word(b.max)));
      cs := cs + [Clause(AtMost(m), Word(b.max))];
      var cond := Bind(AtMost(m), Word(b.max), args);
      conds := conds + [cond];
    }
    assert cs == BoundsClauses(b, m);
  }

  method RangeConditions(f: Filters, args: ArgList) returns (conds: seq<Cond>)
    modifies args
    ensures Collected(conds, args.values, old(args.values), RangeClauses(f, MEASURES))
  {
    hide Collected, BoundsClauses;
    ghost var before := args.values;
    conds := [];
    NothingCollected(before);
    for i := 0 to |MEASURES|
      invariant Collected(conds, args.values, before, RangeClauses(f, MEASURES[..i]))
    {
      assert MEASURES[..i + 1][..i] == MEASURES[..i];
      ghost var values := args.values;
      var more := BoundsConditions(BoundsFor(f, MEASURES[i]), MEASURES[i], args);
      CollectMore(conds, values, before, RangeClauses(f, MEASURES[..i]), more, args.values,
                  BoundsClauses(BoundsFor(f, MEASURES[i]), MEASURES[i]));
      conds := conds + more;
    }
    assert MEASURES[..|MEASURES|] == MEASURES;
  }

  method CreatedConditions(f: Filters, args: ArgList) returns (conds: seq<Cond>)
    modifies args
    ensures Collected(conds, args.values, old(args.values), CreatedClauses(f))
  {
    hide Collected, Placeholder;
    ghost var before, cs := args.values, [];
    conds := [];
    NothingCollected(before);
    if f.createdFrom.Some? {
      CollectOne(conds, args.values, before, cs, Clause(NotBefore, When(f.createdFrom.value)));
      cs := cs + [Clause(NotBefore, When(f.createdFrom.value))];
      var cond := Bind(NotBefore, When(f.createdFrom.value), args);
      conds := conds + [cond];
    }
    if f.createdTo.Some? {
      CollectOne(conds, args.values, before, cs, Clause(Before, When(f.createdTo.value)));
      cs := cs + [Clause(Before, When(f.createdTo.value))];
      var cond := Bind(Before, When(f.createdTo.value), args);
      conds := conds + [cond];
    }
    assert cs == CreatedClauses(f);
  }

  method BuildConditions(f: Filters, skip: Option<Column>, args: ArgList) returns (conds: seq<Cond>)
    modifies args
    ensures conds == Conditions(f, skip, |old(args.values)|)
    ensures args.values == old(args.values) + ArgsOf(Clauses(f, skip))
  {
    hide ColumnClauses, RangeClauses, CreatedClauses;
    ghost var before := args.values;
    var columns := ColumnConditions(f, skip, args);
    ghost var middle := args.values;
    var ranges := RangeConditions(f, args);
    CollectMore(columns, middle, before, ColumnClauses(f, skip, COLUMNS), ranges, args.values,
                RangeClauses(f, MEASURES));
    ghost var late := args.values;
    var created := CreatedConditions(f, args);
    CollectMore(columns + ranges, late, before, ColumnClauses(f, skip, COLUMNS) + RangeClauses(f, MEASURES), created,
                args.values, CreatedClauses(f));
    conds := [True] + (columns + ranges + created);
  }

  method BuildListQuery(f: Filters) returns (st: Statement)
    ensures st == ListQuery(f)
  {
    var args := new ArgList();
    var conds := BuildConditions(f, None, args);
    assert args.values == WhereArgs(f, None);
    var limit := args.Add(Number(f.pageSize));
    var offset := args.Add(Number((f.page - 1) * f.pageSize));
    st := Statement(conds, args.values, limit, offset);
  }

  /** buildCountQuery and BuildExportItemIDsQuery share their where clause. */
  method BuildWholeQuery(f: Filters) returns (st: Statement)
    ensures st == WholeQuery(f)
  {
    var args := new ArgList();
    var conds := BuildConditions(f, None, args);
    assert args.values == WhereArgs(f, None);
    st := Statement(conds, args.values, "", "");
  }

  method BuildFacetQuery(q: FacetRequest) returns (st: Statement)
    ensures st == FacetQuery(q)
  {
    hide Placeholder, Resolve, EscapeLike, Conditions, Clauses;
    var args := new ArgList();
    var conds := BuildConditions(q.filters, Some(q.column), args);
    assert args.values == WhereArgs(q.filters, Some(q.column));
    if q.search != "" {
      var placeholder := args.Add(Word("%" + EscapeLike(q.search) + "%"));
      conds := conds + [Cond(Like(q.column), placeholder)];
    }
    var limit := args.Add(Number(q.pageSize));
    var offset := args.Add(Number((q.page - 1) * q.pageSize));
    st := Statement(conds, args.values, limit, offset);
  }

  /** OrderFacets' loop over the rows read: the totals are whatever the last row carried. */
  method ReadFacets(q: FacetRequest, rows: seq<FacetRow>) returns (response: FacetResponse)
    ensures response == Respond(q, rows)
  {
    var values: seq<(string, nat)> := [];
    var total, blankCount := 0, 0;
    for i := 0 to |rows|
      invariant |values| == i && forall j :: 0 <= j < i ==> values[j] == (rows[j].value, rows[j].count)
      invariant i > 0 ==> total == rows[i - 1].total && blankCount == rows[i - 1].blankCount
      invariant i == 0 ==> total == 0 && blankCount == 0
    {
      values := values + [(rows[i].value, rows[i].count)];
      total, blankCount := rows[i].total, rows[i].blankCount;
    }
    response := FacetResponse(values, total, blankCount, q.page * q.pageSize < total);
  }

  /** The export's own conditions, beside the rows its sub-select names. */
  datatype ExportTest = NotRevoked | AmongIds | NotCancelled | StillOwing

  predicate Passes(t: ExportTest, ids: set<nat>, r: Row) {
    match t
    case NotRevoked => !r.revoked
    case AmongIds => r.item in ids
    case NotCancelled => r.status != "cancelled"
    case StillOwing => Money.StillOwes(r.paid, r.amount)
  }

  /** buildOrderItemExportQuery: the condition list grows by two for the unpaid export, and together
      the conditions pass exactly the rows to export. */
  method BuildExportConditions(unpaidOnly: bool) returns (tests: seq<ExportTest>)
    ensures forall ids: set<nat>, r: Row :: (forall t :: t in tests ==> Passes(t, ids, r)) <==>
              Exported(ids, unpaidOnly, r)
  {
    tests := [NotRevoked, AmongIds];
    if unpaidOnly {
      tests := tests + [NotCancelled, StillOwing];
    }
    forall ids: set<nat>, r: Row
      ensures (forall t :: t in tests ==> Passes(t, ids, r)) <==> Exported(ids, unpaidOnly, r)
    {
      assert NotRevoked in tests && AmongIds in tests && (unpaidOnly ==> NotCancelled in tests && StillOwing in tests);
    }
  }

  // ---------- Reading the filters off the URL ----------

  type Query = map<string, seq<string>>

  function Get(query: Query, key: string): string {
    if key in query && query[key] != [] then query[key][0] else ""
  }

  predicate BlankFlag(query: Query, key: string) {
    var flag := Trim(Get(query, key + "_blank"));
    flag == "1" || Lower(flag) == "true"
  }

  /** The distinct non-empty values in order of first appearance, then "" if blanks are asked for. */
  function ValueSet(query: Query, key: string): seq<string> {
    Gathered(if key in query then query[key] else []) + if BlankFlag(query, key) then [""] else []
  }

  function Gathered(raw: seq<string>): seq<string> {
    if raw == [] then []
    else
      var before := Gathered(raw[..|raw| - 1]);
      var trimmed := Trim(raw[|raw| - 1]);
      if trimmed == "" || trimmed in before then before else before + [trimmed]
  }

  lemma {:induction false} GatheredMeans(raw: seq<string>)
    ensures Distinct(Gathered(raw)) && "" !in Gathered(raw)
    ensures forall v :: v in Gathered(raw) <==> v != "" && exists x :: x in raw && Trim(x) == v
  {
    if raw != [] {
      var n := |raw| - 1;
      GatheredMeans(raw[..n]);
      assert raw == raw[..n] + [raw[n]];
    }
  }

  /** A column is filtered exactly when some non-blank value or the blank flag is given; blanks are
      selected by the flag and by nothing else. */
  lemma ValueSetMeans(query: Query, key: string)
    ensures "" in ValueSet(query, key) <==> BlankFlag(query, key)
    ensures forall v :: v != "" ==>
              (v in ValueSet(query, key) <==> key in query && exists x :: x in query[key] && Trim(x) == v)
    ensures Distinct(ValueSet(query, key))
  {
    var raw := if key in query then query[key] else [];
    GatheredMeans(raw);
  }

  method ReadValueSet(query: Query, key: string) returns (values: seq<string>)
    ensures values == ValueSet(query, key)
  {
    var raw := if key in query then query[key] else [];
    var seen: set<string> := {};
    values := [];
    for i := 0 to |raw|
      invariant values == Gathered(raw[..i]) && seen == set v | v in values
    {
      assert raw[..i + 1][..i] == raw[..i];
      var trimmed := Trim(raw[i]);
      if trimmed == "" {
        continue;
      }
      if trimmed in seen {
        continue;
      }
      seen := seen + {trimmed};
      values := values + [trimmed];
    }
    assert raw[..|raw|] == raw;
    if BlankFlag(query, key) {
      values := values + [""];
    }
  }
}
