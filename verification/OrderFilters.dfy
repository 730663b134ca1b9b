/** The filter compiler behind the order list, the facet pop-overs and the detail export
    (backend/internal/orders/filters.go): a filter record becomes a list of conjuncts whose values
    are bound to numbered placeholders. Evaluating the conjuncts with the arguments is proved to be
    the direct reading of the record. */
module OrderFilters {
  import opened Text
  import Money

  // ---------- Rows of the base view ----------

  datatype Column = CN | Project | Item | Series | Group | Category | Role | OrderStatus | PaymentStatus

  const COLUMNS: seq<Column> := [CN, Project, Item, Series, Group, Category, Role, OrderStatus, PaymentStatus]

  /** One order item with its joined columns. Amounts are in cents; `paid` is the approved money
      applied to the item; a blank cell is "". Items and orders are ordered by their ids. */
  datatype Row = Row(
    item: nat, order: nat, revoked: bool,
    cn: string, project: string, name: string, series: string, group: string, category: string, role: string,
    status: string, quantity: int, amount: int, paid: int, created: int, sortOrder: int)

  function StatusName(s: Money.ItemStatus): string {
    match s case Unpaid => "unpaid" case Partial => "partial" case Paid => "paid"
  }

  function ValueOf(r: Row, col: Column): string {
    match col
    case CN => r.cn
    case Project => r.project
    case Item => r.name
    case Series => r.series
    case Group => r.group
    case Category => r.category
    case Role => r.role
    case OrderStatus => r.status
    case PaymentStatus => StatusName(Money.ListStatus(r.paid, r.amount))
  }

  datatype Measure = Quantity | Amount | PaidAmount | UnpaidAmount

  const MEASURES: seq<Measure> := [Quantity, Amount, PaidAmount, UnpaidAmount]

  /** A row's number in ten-thousandths, the finest step a bound can name. */
  function MeasureOf(r: Row, m: Measure): int {
    match m
    case Quantity => r.quantity * 10000
    case Amount => r.amount * 100
    case PaidAmount => Money.Min(r.paid, r.amount) * 100
    case UnpaidAmount => Money.Max(r.amount - r.paid, 0) * 100
  }

  // ---------- Decimals ----------

  function DigitChar(d: nat): char
    requires d < 10
  {
    ('0' as int + d) as char
  }

  function DigitValue(c: char): nat {
    if '0' <= c <= '9' then c as int - '0' as int else 0
  }

  function Itoa(n: nat): string {
    if n < 10 then [DigitChar(n)] else Itoa(n / 10) + [DigitChar(n % 10)]
  }

  function Atoi(s: string): nat {
    if s == "" then 0 else 10 * Atoi(s[..|s| - 1]) + DigitValue(s[|s| - 1])
  }

  lemma {:induction false} AtoiItoa(n: nat)
    ensures Atoi(Itoa(n)) == n
  {
    if n >= 10 {
      AtoiItoa(n / 10);
      assert Itoa(n)[..|Itoa(n)| - 1] == Itoa(n / 10);
    }
  }

  function PointAt(s: string): nat
    ensures PointAt(s) <= |s|
  {
    if s == "" || s[0] == '.' then 0 else 1 + PointAt(s[1..])
  }

  function TenTo(n: nat): nat {
    if n == 0 then 1 else 10 * TenTo(n - 1)
  }

  /** A bound such as "12.5" cast to numeric, in ten-thousandths. */
  function Numeric(s: string): int {
    var point := PointAt(s);
    var fraction := if point < |s| then s[point + 1..] else "";
    Atoi(s[..point]) * 10000 + Atoi(fraction) * TenTo(if |fraction| <= 4 then 4 - |fraction| else 0)
  }

  lemma {:induction false} ItoaDigits(n: nat)
    ensures Itoa(n) != "" && forall c :: c in Itoa(n) ==> '0' <= c <= '9'
  {
    if n >= 10 { ItoaDigits(n / 10); }
  }

  lemma {:induction false} PointBehind(s: string, rest: string)
    requires '.' !in s && (rest != "" ==> rest[0] == '.')
    ensures PointAt(s + rest) == |s|
  {
    if s == "" {
      assert s + rest == rest;
    } else {
      assert (s + rest)[1..] == s[1..] + rest;
      PointBehind(s[1..], rest);
    }
  }

  /** The last so many digits of a number. */
  function Digits(d: nat, places: nat): (s: string)
    ensures |s| == places && forall c :: c in s ==> '0' <= c <= '9'
  {
    if places == 0 then "" else Digits(d / 10, places - 1) + [DigitChar(d % 10)]
  }

  lemma {:induction false} AtoiDigits(d: nat, places: nat)
    requires d < TenTo(places)
    ensures Atoi(Digits(d, places)) == d
  {
    if places > 0 {
      AtoiDigits(d / 10, places - 1);
      assert Digits(d, places)[..places - 1] == Digits(d / 10, places - 1);
    }
  }

  lemma PowersOfTen(places: nat)
    requires places <= 4
    ensures TenTo(places) * TenTo(4 - places) == 10000
  {}

  lemma NoDecimals()
    ensures Atoi("") == 0
  {}

  lemma Scaled(n: nat, d: nat, a: nat, b: nat)
    requires a * b == 10000
    ensures (n * 10000 + d * b) * a == (n * a + d) * 10000
  {
    assert (d * b) * a == d * (a * b);
    assert (n * a) * 10000 == (n * 10000) * a;
  }

  lemma NumericParts(n: nat, fraction: string)
    requires |fraction| <= 4
    ensures Numeric(Itoa(n)) == n * 10000
    ensures Numeric(Itoa(n) + "." + fraction) == n * 10000 + Atoi(fraction) * TenTo(4 - |fraction|)
  {
    hide Itoa, Atoi, PointAt, TenTo;
    ItoaDigits(n);
    AtoiItoa(n);
    NoDecimals();
    var (whole, text) := (Itoa(n), Itoa(n) + "." + fraction);
    PointBehind(whole, "");
    assert whole + "" == whole && whole[..|whole|] == whole;
    PointBehind(whole, "." + fraction);
    assert text == whole + ("." + fraction);
    assert text[..|whole|] == whole && text[|whole| + 1..] == fraction;
  }

  /** A bound reads as the number written: whole, or with up to four decimals. */
  lemma NumericReads(n: nat, d: nat, places: nat)
    requires places <= 4 && d < TenTo(places)
    ensures Numeric(Itoa(n)) == n * 10000
    ensures Numeric(Itoa(n) + "." + Digits(d, places)) * TenTo(places) == (n * TenTo(places) + d) * 10000
  {
    hide Itoa, Atoi, Numeric, TenTo, Digits;
    AtoiDigits(d, places);
    PowersOfTen(places);
    NumericParts(n, Digits(d, places));
    Scaled(n, d, TenTo(places), TenTo(4 - places));
  }

  // ---------- The filter record ----------

  /** Decimal strings; "" means no bound. */
  datatype Bounds = Bounds(min: string, max: string)

  /** A column without values is unfiltered; "" among the values selects blank cells. */
  datatype Filters = Filters(
    values: map<Column, seq<string>>,
    ranges: map<Measure, Bounds>,
    createdFrom: Option<int>, createdTo: Option<int>,
    page: nat, pageSize: nat)

  function ValuesFor(f: Filters, col: Column): seq<string> {
    if col in f.values then f.values[col] else []
  }

  function BoundsFor(f: Filters, m: Measure): Bounds {
    if m in f.ranges then f.ranges[m] else Bounds("", "")
  }

  /** What the record means for one row, leaving out one column's own values if asked. */
  predicate Matches(f: Filters, skip: Option<Column>, r: Row) {
    && (forall col :: col in COLUMNS ==> MatchesColumn(f, skip, col, r))
    && (forall m :: m in MEASURES ==> MatchesBounds(BoundsFor(f, m), MeasureOf(r, m)))
    && (f.createdFrom.Some? ==> f.createdFrom.value <= r.created)
    && (f.createdTo.Some? ==> r.created < f.createdTo.value)
  }

  predicate MatchesColumn(f: Filters, skip: Option<Column>, col: Column, r: Row) {
    skip == Some(col) || ValuesFor(f, col) == [] || ValueOf(r, col) in ValuesFor(f, col)
  }

  predicate MatchesBounds(b: Bounds, x: int) {
    (b.min == "" || Numeric(b.min) <= x) && (b.max == "" || x <= Numeric(b.max))
  }

  lemma EveryColumn(col: Column)
    ensures col in COLUMNS
  {
    assert COLUMNS[0] == CN && COLUMNS[1] == Project && COLUMNS[2] == Item && COLUMNS[3] == Series
             && COLUMNS[4] == Group;
    assert COLUMNS[5] == Category && COLUMNS[6] == Role && COLUMNS[7] == OrderStatus && COLUMNS[8] == PaymentStatus;
  }

  lemma EveryMeasure(m: Measure)
    ensures m in MEASURES
  {
    assert MEASURES[0] == Quantity && MEASURES[1] == Amount && MEASURES[2] == PaidAmount && MEASURES[3] == UnpaidAmount;
  }

  /** The record read plainly: a row matches when each column that values are given for holds one of
      them, each number is within the bounds given for it, and it was created from the one instant on
      and before the other. */
  lemma MatchesMeans(f: Filters, r: Row)
    ensures Matches(f, None, r) <==>
              && (forall col :: col in f.values && f.values[col] != [] ==> ValueOf(r, col) in f.values[col])
              && (forall m :: m in f.ranges && f.ranges[m].min != "" ==> Numeric(f.ranges[m].min) <= MeasureOf(r, m))
              && (forall m :: m in f.ranges && f.ranges[m].max != "" ==> MeasureOf(r, m) <= Numeric(f.ranges[m].max))
              && (f.createdFrom.Some? ==> f.createdFrom.value <= r.created)
              && (f.createdTo.Some? ==> r.created < f.createdTo.value)
  {
    hide Numeric, MeasureOf, ValueOf;
    forall col: Column ensures col in COLUMNS { EveryColumn(col); }
    forall m: Measure ensures m in MEASURES { EveryMeasure(m); }
    if Matches(f, None, r) {
      forall col | col in f.values && f.values[col] != [] ensures ValueOf(r, col) in f.values[col] {
        assert MatchesColumn(f, None, col, r);
      }
      forall m | m in f.ranges ensures MatchesBounds(f.ranges[m], MeasureOf(r, m)) {
        assert MatchesBounds(BoundsFor(f, m), MeasureOf(r, m));
      }
    }
  }

  /** What is paid and what is not add up to the amount; a row's payment status says which of the two is there. */
  lemma MeasuresAddUp(r: Row)
    ensures MeasureOf(r, PaidAmount) + MeasureOf(r, UnpaidAmount) == MeasureOf(r, Amount)
    ensures ValueOf(r, PaymentStatus) == "unpaid" <==> MeasureOf(r, PaidAmount) <= 0
    ensures ValueOf(r, PaymentStatus) == "paid" <==> MeasureOf(r, PaidAmount) > 0 && MeasureOf(r, UnpaidAmount) == 0
  {}

  // ---------- Conjuncts and their arguments ----------

  datatype Arg = Texts(values: seq<string>) | Word(text: string) | When(at: int) | Number(n: int)

  /** The expressions the statement text may hold; every value is behind a placeholder. */
  datatype Test =
    | AnyOf(col: Column) | AtLeast(measure: Measure) | AtMost(measure: Measure) | NotBefore | Before | Like(col: Column)

  datatype Cond = True | Cond(test: Test, placeholder: string)

  /** A test and the value to bind for it. */
  datatype Clause = Clause(test: Test, arg: Arg)

  function Placeholder(n: nat): string {
    "$" + Itoa(n)
  }

  /** The argument a placeholder stands for. */
  function Resolve(placeholder: string, args: seq<Arg>): Option<Arg> {
    if |placeholder| < 2 || placeholder[0] != '$' then None
    else
      var n := Atoi(placeholder[1..]);
      if 1 <= n <= |args| then Some(args[n - 1]) else None
  }

  lemma ResolvePlaceholder(n: nat, args: seq<Arg>)
    ensures Resolve(Placeholder(n), args) == if 1 <= n <= |args| then Some(args[n - 1]) else None
  {
    AtoiItoa(n);
    assert Placeholder(n)[1..] == Itoa(n);
  }

  /** What one test says of one row. */
  predicate Holds(test: Test, arg: Arg, r: Row) {
    match (test, arg)
    case (AnyOf(col), Texts(values)) => ValueOf(r, col) in values
    case (AtLeast(m), Word(text)) => MeasureOf(r, m) >= Numeric(text)
    case (AtMost(m), Word(text)) => MeasureOf(r, m) <= Numeric(text)
    case (NotBefore, When(at)) => r.created >= at
    case (Before, When(at)) => r.created < at
    case (Like(col), Word(pattern)) => ILike(pattern, ValueOf(r, col))
    case _ => false
  }

  predicate Eval(c: Cond, args: seq<Arg>, r: Row) {
    match c
    case True => true
    case Cond(test, placeholder) => Resolve(placeholder, args).Some? && Holds(test, Resolve(placeholder, args).value, r)
  }

  /** The conjunction the where clause joins with "and". */
  predicate EvalAll(cs: seq<Cond>, args: seq<Arg>, r: Row) {
    forall i :: 0 <= i < |cs| ==> Eval(cs[i], args, r)
  }

  // ---------- What the compiler emits ----------

  function ColumnClauses(f: Filters, skip: Option<Column>, cols: seq<Column>): seq<Clause> {
    if cols == [] then []
    else
      var col := cols[|cols| - 1];
      ColumnClauses(f, skip, cols[..|cols| - 1]) +
      if skip == Some(col) || ValuesFor(f, col) == [] then [] else [Clause(AnyOf(col), Texts(ValuesFor(f, col)))]
  }

  function BoundsClauses(b: Bounds, m: Measure): seq<Clause> {
    (if b.min != "" then [Clause(AtLeast(m), Word(b.min))] else []) +
    (if b.max != "" then [Clause(AtMost(m), Word(b.max))] else [])
  }

  function RangeClauses(f: Filters, ms: seq<Measure>): seq<Clause> {
    if ms == [] then []
    else RangeClauses(f, ms[..|ms| - 1]) + BoundsClauses(BoundsFor(f, ms[|ms| - 1]), ms[|ms| - 1])
  }

  function CreatedClauses(f: Filters): seq<Clause> {
    (if f.createdFrom.Some? then [Clause(NotBefore, When(f.createdFrom.value))] else []) +
    (if f.createdTo.Some? then [Clause(Before, When(f.createdTo.value))] else [])
  }

  function Clauses(f: Filters, skip: Option<Column>): seq<Clause> {
    ColumnClauses(f, skip, COLUMNS) + RangeClauses(f, MEASURES) + CreatedClauses(f)
  }

  /** The clauses as conjuncts numbered from `from` + 1 on. */
  function Numbered(cs: seq<Clause>, from: nat): seq<Cond> {
    seq(|cs|, i requires 0 <= i < |cs| => Cond(cs[i].test, Placeholder(from + i + 1)))
  }

  function ArgsOf(cs: seq<Clause>): seq<Arg> {
    seq(|cs|, i requires 0 <= i < |cs| => cs[i].arg)
  }

  /** buildConditions with an argument list that holds `from` values already. */
  function Conditions(f: Filters, skip: Option<Column>, from: nat): seq<Cond> {
    [True] + Numbered(Clauses(f, skip), from)
  }

  // ---------- The compiler preserves meaning ----------

  predicate AllHold(cs: seq<Clause>, r: Row) {
    forall i :: 0 <= i < |cs| ==> Holds(cs[i].test, cs[i].arg, r)
  }

  lemma AllHoldAppend(a: seq<Clause>, b: seq<Clause>, r: Row)
    ensures AllHold(a + b, r) <==> AllHold(a, r) && AllHold(b, r)
  {
    if AllHold(a + b, r) {
      assert forall i :: 0 <= i < |a| ==> (a + b)[i] == a[i];
      assert forall i :: 0 <= i < |b| ==> (a + b)[|a| + i] == b[i];
    }
  }

  lemma OneHolds(c: Clause, r: Row)
    ensures AllHold([c], r) <==> Holds(c.test, c.arg, r)
  {
    if AllHold([c], r) { assert Holds([c][0].test, [c][0].arg, r); }
  }

  lemma {:induction false} ColumnsMean(f: Filters, skip: Option<Column>, cols: seq<Column>, r: Row)
    ensures AllHold(ColumnClauses(f, skip, cols), r) <==> forall col :: col in cols ==> MatchesColumn(f, skip, col, r)
  {
    if cols != [] {
      var n := |cols| - 1;
      var col := cols[n];
      ColumnsMean(f, skip, cols[..n], r);
      var last := if skip == Some(col) || ValuesFor(f, col) == [] then []
        else [Clause(AnyOf(col), Texts(ValuesFor(f, col)))];
      AllHoldAppend(ColumnClauses(f, skip, cols[..n]), last, r);
      assert cols == cols[..n] + [col];
      OneHolds(Clause(AnyOf(col), Texts(ValuesFor(f, col))), r);
      assert AllHold(last, r) <==> MatchesColumn(f, skip, col, r);
    }
  }

  lemma BoundsMean(b: Bounds, m: Measure, r: Row)
    ensures AllHold(BoundsClauses(b, m), r) <==> MatchesBounds(b, MeasureOf(r, m))
  {
    var low := if b.min != "" then [Clause(AtLeast(m), Word(b.min))] else [];
    var high := if b.max != "" then [Clause(AtMost(m), Word(b.max))] else [];
    OneHolds(Clause(AtLeast(m), Word(b.min)), r);
    OneHolds(Clause(AtMost(m), Word(b.max)), r);
    AllHoldAppend(low, high, r);
  }

  lemma {:induction false} RangesMean(f: Filters, ms: seq<Measure>, r: Row)
    ensures AllHold(RangeClauses(f, ms), r) <==> forall m :: m in ms ==> MatchesBounds(BoundsFor(f, m), MeasureOf(r, m))
  {
    if ms != [] {
      var n := |ms| - 1;
      RangesMean(f, ms[..n], r);
      BoundsMean(BoundsFor(f, ms[n]), ms[n], r);
      AllHoldAppend(RangeClauses(f, ms[..n]), BoundsClauses(BoundsFor(f, ms[n]), ms[n]), r);
      assert ms == ms[..n] + [ms[n]];
    }
  }

  lemma CreatedMean(f: Filters, r: Row)
    ensures AllHold(CreatedClauses(f), r) <==>
              (f.createdFrom.Some? ==> f.createdFrom.value <= r.created)
                && (f.createdTo.Some? ==> r.created < f.createdTo.value)
  {
    var low := if f.createdFrom.Some? then [Clause(NotBefore, When(f.createdFrom.value))] else [];
    var high := if f.createdTo.Some? then [Clause(Before, When(f.createdTo.value))] else [];
    if f.createdFrom.Some? { OneHolds(Clause(NotBefore, When(f.createdFrom.value)), r); }
    if f.createdTo.Some? { OneHolds(Clause(Before, When(f.createdTo.value)), r); }
    AllHoldAppend(low, high, r);
  }

  lemma ClausesMean(f: Filters, skip: Option<Column>, r: Row)
    ensures AllHold(Clauses(f, skip), r) <==> Matches(f, skip, r)
  {
    ColumnsMean(f, skip, COLUMNS, r);
    RangesMean(f, MEASURES, r);
    CreatedMean(f, r);
    AllHoldAppend(ColumnClauses(f, skip, COLUMNS), RangeClauses(f, MEASURES), r);
    AllHoldAppend(ColumnClauses(f, skip, COLUMNS) + RangeClauses(f, MEASURES), CreatedClauses(f), r);
  }

  /** Numbered conjuncts read exactly their own arguments, whatever comes before and after them. */
  lemma NumberedMean(cs: seq<Clause>, before: seq<Arg>, after: seq<Arg>, r: Row)
    ensures EvalAll(Numbered(cs, |before|), before + ArgsOf(cs) + after, r) <==> AllHold(cs, r)
  {
    var conds, args := Numbered(cs, |before|), before + ArgsOf(cs) + after;
    forall i | 0 <= i < |cs|
      ensures Eval(conds[i], args, r) <==> Holds(cs[i].test, cs[i].arg, r)
    {
      ResolvePlaceholder(|before| + i + 1, args);
    }
    if EvalAll(conds, args, r) {
      forall i | 0 <= i < |cs| ensures Holds(cs[i].test, cs[i].arg, r) { assert Eval(conds[i], args, r); }
    }
  }

  lemma TrueFirst(cs: seq<Cond>, args: seq<Arg>, r: Row)
    ensures EvalAll([True] + cs, args, r) <==> EvalAll(cs, args, r)
  {
    hide Resolve, Holds;
    var all := [True] + cs;
    assert forall i :: 0 <= i < |cs| ==> all[i + 1] == cs[i];
    if EvalAll(all, args, r) {
      forall i | 0 <= i < |cs| ensures Eval(cs[i], args, r) { assert Eval(all[i + 1], args, r); }
    }
  }

  /** The emitted conjuncts, evaluated with the emitted arguments and any further ones the
      statement binds, select exactly the rows the record describes. */
  lemma CompiledMeans(f: Filters, skip: Option<Column>, more: seq<Arg>, r: Row)
    ensures EvalAll(Conditions(f, skip, 0), ArgsOf(Clauses(f, skip)) + more, r) <==> Matches(f, skip, r)
  {
    hide Matches, Clauses, EvalAll, AllHold, Numbered, ArgsOf;
    var cs := Clauses(f, skip);
    ClausesMean(f, skip, r);
    NumberedMean(cs, [], more, r);
    assert [] + ArgsOf(cs) + more == ArgsOf(cs) + more;
    TrueFirst(Numbered(cs, 0), ArgsOf(cs) + more, r);
  }

  /** The placeholders are $1 to $n, each once and in order, n being the number of arguments. */
  lemma PlaceholdersExact(f: Filters, skip: Option<Column>)
    ensures var conds, args := Conditions(f, skip, 0), ArgsOf(Clauses(f, skip));
            && |conds| == |args| + 1 && conds[0] == True
            && forall i :: 1 <= i < |conds| ==> conds[i].Cond? && conds[i].placeholder == Placeholder(i)
    ensures forall i, j {:trigger Placeholder(i), Placeholder(j)} :: 0 <= i < j ==> Placeholder(i) != Placeholder(j)
  {
    forall i: nat, j: nat | i < j
      ensures Placeholder(i) != Placeholder(j)
    {
      AtoiItoa(i);
      AtoiItoa(j);
      assert Placeholder(i)[1..] == Itoa(i) && Placeholder(j)[1..] == Itoa(j);
    }
  }

  // ---------- Searching ----------

  /** ILIKE with '\' as the escape character; a pattern may not end in a lone escape. */
  predicate ILike(pattern: string, value: string)
    decreases |pattern| + |value|
  {
    if pattern == "" then value == ""
    else if pattern[0] == '%' then ILike(pattern[1..], value) || (value != "" && ILike(pattern, value[1..]))
    else if pattern[0] == '_' then value != "" && ILike(pattern[1..], value[1..])
    else if pattern[0] == '\\' then
      |pattern| >= 2 && value != "" && LowerChar(pattern[1]) == LowerChar(value[0]) && ILike(pattern[2..], value[1..])
    else value != "" && LowerChar(pattern[0]) == LowerChar(value[0]) && ILike(pattern[1..], value[1..])
  }

  /** escapeLike: the three characters with a meaning in a pattern are escaped. */
  function EscapeLike(s: string): string {
    if s == "" then ""
    else (if s[0] == '\\' || s[0] == '%' || s[0] == '_' then ['\\', s[0]] else [s[0]]) + EscapeLike(s[1..])
  }

  predicate HasPrefix(value: string, s: string) {
    |s| <= |value| && forall i :: 0 <= i < |s| ==> LowerChar(value[i]) == LowerChar(s[i])
  }

  /** The value contains the search term somewhere, up to case. */
  predicate ContainsFolded(value: string, s: string) {
    exists k :: 0 <= k <= |value| && HasPrefix(value[k..], s)
  }

  lemma {:induction false} PercentMatchesAll(value: string)
    ensures ILike("%", value)
  {
    if value != "" {
      PercentMatchesAll(value[1..]);
    } else {
      assert "%"[1..] == "";
    }
  }

  lemma EmptyPrefix(value: string)
    ensures HasPrefix(value, "")
  {}

  lemma NoPrefix(s: string)
    requires s != ""
    ensures !HasPrefix("", s)
  {}

  lemma PrefixSplits(value: string, s: string)
    requires value != "" && s != ""
    ensures HasPrefix(value, s) <==> LowerChar(value[0]) == LowerChar(s[0]) && HasPrefix(value[1..], s[1..])
  {
    if LowerChar(value[0]) == LowerChar(s[0]) && HasPrefix(value[1..], s[1..]) {
      forall i | 0 <= i < |s|
        ensures LowerChar(value[i]) == LowerChar(s[i])
      {
        if i > 0 { assert value[1..][i - 1] == value[i] && s[1..][i - 1] == s[i]; }
      }
    }
  }

  lemma {:induction false} EscapedPrefix(s: string, value: string)
    ensures ILike(EscapeLike(s) + "%", value) <==> HasPrefix(value, s)
  {
    hide HasPrefix, LowerChar;
    if s == "" {
      assert EscapeLike(s) + "%" == "%";
      PercentMatchesAll(value);
      EmptyPrefix(value);
    } else {
      var pattern := EscapeLike(s) + "%";
      var rest := EscapeLike(s[1..]) + "%";
      assert (if s[0] == '\\' || s[0] == '%' || s[0] == '_' then pattern[2..] else pattern[1..]) == rest;
      if value == "" {
        NoPrefix(s);
      } else {
        EscapedPrefix(s[1..], value[1..]);
        PrefixSplits(value, s);
      }
    }
  }

  lemma ContainsSplits(value: string, s: string)
    ensures ContainsFolded(value, s) <==> HasPrefix(value, s) || (value != "" && ContainsFolded(value[1..], s))
  {
    hide HasPrefix;
    assert value[0..] == value;
    if ContainsFolded(value, s) {
      var k :| 0 <= k <= |value| && HasPrefix(value[k..], s);
      if k > 0 { assert value[1..][k - 1..] == value[k..]; }
    }
    if value != "" && ContainsFolded(value[1..], s) {
      var k :| 0 <= k <= |value[1..]| && HasPrefix(value[1..][k..], s);
      assert value[1..][k..] == value[k + 1..];
    }
  }

  /** The search a facet binds matches exactly the values that contain the typed text, whatever
      wildcard or escape characters the text holds. */
  lemma {:induction false} SearchIsLiteral(s: string, value: string)
    ensures ILike("%" + EscapeLike(s) + "%", value) <==> ContainsFolded(value, s)
  {
    hide HasPrefix, ContainsFolded, EscapeLike, LowerChar;
    var pattern := "%" + EscapeLike(s) + "%";
    assert pattern[1..] == EscapeLike(s) + "%";
    EscapedPrefix(s, value);
    ContainsSplits(value, s);
    if value != "" { SearchIsLiteral(s, value[1..]); }
  }
}
