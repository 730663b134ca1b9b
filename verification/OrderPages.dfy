/** What the compiled statements return: pages of the order list, facet candidates with their
    counts, and the detail export. All three read the same base view, and their results are proved
    to fit together. */
module OrderPages {
  import opened Text
  import Money
  import opened OrderFilters

  // ---------- Statements ----------

  datatype Statement = Statement(conds: seq<Cond>, args: seq<Arg>, limit: string, offset: string)

  function WhereArgs(f: Filters, skip: Option<Column>): seq<Arg> {
    ArgsOf(Clauses(f, skip))
  }

  /** buildListQuery: the conjuncts, then the page size and the offset as the last two arguments. */
  function ListQuery(f: Filters): Statement {
    var args := WhereArgs(f, None);
    Statement(Conditions(f, None, 0), args + [Number(f.pageSize), Number((f.page - 1) * f.pageSize)],
              Placeholder(|args| + 1), Placeholder(|args| + 2))
  }

  /** buildCountQuery and BuildExportItemIDsQuery: no paging. */
  function WholeQuery(f: Filters): Statement {
    Statement(Conditions(f, None, 0), WhereArgs(f, None), "", "")
  }

  datatype FacetRequest = FacetRequest(column: Column, search: string, page: nat, pageSize: nat, filters: Filters)

  /** buildFacetQuery: every filter but the column's own, then the search if there is one, then paging. */
  function FacetQuery(q: FacetRequest): Statement {
    var args := WhereArgs(q.filters, Some(q.column));
    var searching := q.search != "";
    var conds := Conditions(q.filters, Some(q.column), 0) +
      if searching then [Cond(Like(q.column), Placeholder(|args| + 1))] else [];
    var bound := args + if searching then [Word("%" + EscapeLike(q.search) + "%")] else [];
    Statement(conds, bound + [Number(q.pageSize), Number((q.page - 1) * q.pageSize)], Placeholder(|bound| + 1),
              Placeholder(|bound| + 2))
  }

  function NumberAt(placeholder: string, args: seq<Arg>): int {
    match Resolve(placeholder, args) case Some(Number(n)) => n case _ => 0
  }

  // ---------- Selecting ----------

  /** One row per order item; an item's id is its own. */
  ghost predicate DistinctItems(rows: seq<Row>) {
    forall i, j :: 0 <= i < j < |rows| ==> rows[i].item != rows[j].item
  }

  predicate Selected(st: Statement, r: Row) {
    !r.revoked && EvalAll(st.conds, st.args, r)
  }

  function Where(rows: seq<Row>, st: Statement): seq<Row> {
    if rows == [] then []
    else Where(rows[..|rows| - 1], st) + if Selected(st, rows[|rows| - 1]) then [rows[|rows| - 1]] else []
  }

  lemma {:induction false} WhereSelects(rows: seq<Row>, st: Statement, r: Row)
    ensures multiset(Where(rows, st))[r] == if Selected(st, r) then multiset(rows)[r] else 0
  {
    if rows != [] {
      var n := |rows| - 1;
      WhereSelects(rows[..n], st, r);
      assert rows == rows[..n] + [rows[n]];
    }
  }

  lemma {:induction false} WhereIn(rows: seq<Row>, st: Statement, r: Row)
    ensures r in Where(rows, st) <==> r in rows && Selected(st, r)
  {
    if rows != [] {
      var n := |rows| - 1;
      WhereIn(rows[..n], st, r);
      assert rows == rows[..n] + [rows[n]];
    }
  }

  lemma {:induction false} WhereDistinct(rows: seq<Row>, st: Statement)
    requires DistinctItems(rows)
    ensures DistinctItems(Where(rows, st))
  {
    if rows != [] {
      var n := |rows| - 1;
      WhereDistinct(rows[..n], st);
      forall r | r in Where(rows[..n], st)
        ensures r.item != rows[n].item
      {
        WhereIn(rows[..n], st, r);
      }
    }
  }

  /** The list and the count select what the filter record describes. */
  lemma ListSelects(f: Filters, r: Row)
    ensures Selected(ListQuery(f), r) <==> !r.revoked && Matches(f, None, r)
    ensures Selected(WholeQuery(f), r) <==> !r.revoked && Matches(f, None, r)
  {
    hide Matches, Conditions, Clauses, EvalAll, ArgsOf;
    CompiledMeans(f, None, [Number(f.pageSize), Number((f.page - 1) * f.pageSize)], r);
    CompiledMeans(f, None, [], r);
    assert WhereArgs(f, None) + [] == WhereArgs(f, None);
  }

  lemma EvalAllSnoc(cs: seq<Cond>, c: Cond, args: seq<Arg>, r: Row)
    ensures EvalAll(cs + [c], args, r) <==> EvalAll(cs, args, r) && Eval(c, args, r)
  {
    hide Eval;
    assert (cs + [c])[|cs|] == c;
    if EvalAll(cs + [c], args, r) {
      forall i | 0 <= i < |cs| ensures Eval(cs[i], args, r) { assert (cs + [c])[i] == cs[i]; }
    }
  }

  /** The statement's conjuncts and arguments, as the paging and a search leave them. */
  lemma FacetIs(q: FacetRequest)
    ensures var st, args := FacetQuery(q), WhereArgs(q.filters, Some(q.column));
            var paging := [Number(q.pageSize), Number((q.page - 1) * q.pageSize)];
            var own := Cond(Like(q.column), Placeholder(|args| + 1));
            if q.search == ""
            then st.conds == Conditions(q.filters, Some(q.column), 0) && st.args == args + paging
            else
              && st.conds == Conditions(q.filters, Some(q.column), 0) + [own]
              && st.args == args + ([Word("%" + EscapeLike(q.search) + "%")] + paging)
  {
    hide Conditions, WhereArgs, EscapeLike, Placeholder;
  }

  /** A facet selects by every filter but its own column's, and by the search text taken literally. */
  lemma FacetSelects(q: FacetRequest, r: Row)
    ensures Selected(FacetQuery(q), r) <==>
              && !r.revoked && Matches(q.filters, Some(q.column), r)
              && (q.search == "" || ContainsFolded(ValueOf(r, q.column), q.search))
  {
    hide Matches, ContainsFolded, ILike, EscapeLike, Conditions, FacetQuery, EvalAll, Clauses, ArgsOf;
    FacetIs(q);
    var st, args := FacetQuery(q), WhereArgs(q.filters, Some(q.column));
    var paging := [Number(q.pageSize), Number((q.page - 1) * q.pageSize)];
    if q.search == "" {
      CompiledMeans(q.filters, Some(q.column), paging, r);
    } else {
      var pattern := Word("%" + EscapeLike(q.search) + "%");
      CompiledMeans(q.filters, Some(q.column), [pattern] + paging, r);
      var own := Cond(Like(q.column), Placeholder(|args| + 1));
      ResolvePlaceholder(|args| + 1, st.args);
      assert st.args[|args|] == pattern;
      SearchIsLiteral(q.search, ValueOf(r, q.column));
      EvalAllSnoc(Conditions(q.filters, Some(q.column), 0), own, st.args, r);
    }
  }

  // ---------- The order of the list ----------

  /** Strings compared character by character. */
  predicate Less(a: string, b: string) {
    b != "" && (a == "" || a[0] < b[0] || (a[0] == b[0] && Less(a[1..], b[1..])))
  }

  lemma {:induction false} LessTotal(a: string, b: string)
    ensures Less(a, b) || Less(b, a) || a == b
    ensures !(Less(a, b) && Less(b, a)) && !Less(a, a)
  {
    if a != "" { LessTotal(a[1..], a[1..]); }
    if a != "" && b != "" {
      LessTotal(a[1..], b[1..]);
      if a[0] == b[0] && a[1..] == b[1..] { assert a == [a[0]] + a[1..] && b == [b[0]] + b[1..]; }
    }
  }

  /** As in a dictionary: at the first place where they differ a has the smaller character or has ended. */
  lemma {:induction false} LessMeans(a: string, b: string)
    ensures Less(a, b) <==>
              exists k :: 0 <= k <= |a| && k < |b| && a[..k] == b[..k] && (k == |a| || a[k] < b[k])
  {
    if a != "" && b != "" {
      LessMeans(a[1..], b[1..]);
      if Less(a[1..], b[1..]) && a[0] == b[0] {
        var k :| 0 <= k <= |a[1..]| && k < |b[1..]| && a[1..][..k] == b[1..][..k]
          && (k == |a[1..]| || a[1..][k] < b[1..][k]);
        assert a[..k + 1] == [a[0]] + a[1..][..k] && b[..k + 1] == [b[0]] + b[1..][..k];
      }
      if k :| 0 <= k <= |a| && k < |b| && a[..k] == b[..k] && (k == |a| || a[k] < b[k]) {
        if k > 0 {
          assert a[0] == a[..k][0] == b[0];
          assert a[1..][..k - 1] == a[..k][1..] && b[1..][..k - 1] == b[..k][1..];
        }
      }
    } else if b != "" {
      assert a[..0] == b[..0];
    }
  }

  lemma {:induction false} LessTransitive(a: string, b: string, c: string)
    requires Less(a, b) && Less(b, c)
    ensures Less(a, c)
  {
    if a != "" && a[0] == b[0] == c[0] { LessTransitive(a[1..], b[1..], c[1..]); }
  }

  /** created_at desc, order_id desc, sort_order, item_name, item_id. */
  predicate Precedes(a: Row, b: Row) {
    if a.created != b.created then a.created > b.created
    else if a.order != b.order then a.order > b.order
    else if a.sortOrder != b.sortOrder then a.sortOrder < b.sortOrder
    else if a.name != b.name then Less(a.name, b.name)
    else a.item < b.item
  }

  lemma PrecedesTotal(a: Row, b: Row)
    requires a.item != b.item
    ensures Precedes(a, b) != Precedes(b, a)
  {
    LessTotal(a.name, b.name);
  }

  lemma PrecedesTransitive(a: Row, b: Row, c: Row)
    requires Precedes(a, b) && Precedes(b, c)
    ensures Precedes(a, c)
  {
    if a.name != b.name && b.name != c.name && Less(a.name, b.name) && Less(b.name, c.name) {
      LessTransitive(a.name, b.name, c.name);
      LessTotal(a.name, c.name);
    }
  }

  ghost predicate Sorted(rows: seq<Row>) {
    forall i, j :: 0 <= i < j < |rows| ==> Precedes(rows[i], rows[j])
  }

  function Insert(rows: seq<Row>, r: Row): seq<Row> {
    if rows == [] || Precedes(rows[|rows| - 1], r) then rows + [r]
    else Insert(rows[..|rows| - 1], r) + [rows[|rows| - 1]]
  }

  function Sort(rows: seq<Row>): seq<Row> {
    if rows == [] then [] else Insert(Sort(rows[..|rows| - 1]), rows[|rows| - 1])
  }

  lemma {:induction false} InsertKeeps(rows: seq<Row>, r: Row)
    ensures multiset(Insert(rows, r)) == multiset(rows) + multiset{r}
    ensures forall x :: x in Insert(rows, r) <==> x in rows || x == r
  {
    if rows != [] {
      assert rows == rows[..|rows| - 1] + [rows[|rows| - 1]];
      InsertKeeps(rows[..|rows| - 1], r);
    }
  }

  lemma SortedSnoc(rows: seq<Row>, last: Row)
    requires Sorted(rows) && forall x :: x in rows ==> Precedes(x, last)
    ensures Sorted(rows + [last])
  {
    hide Precedes;
  }

  lemma {:induction false} InsertSorts(rows: seq<Row>, r: Row)
    requires Sorted(rows) && forall x :: x in rows ==> x.item != r.item
    ensures Sorted(Insert(rows, r))
  {
    hide Precedes;
    if rows != [] {
      var n := |rows| - 1;
      var last := rows[n];
      PrecedesTotal(last, r);
      if Precedes(last, r) {
        forall x | x in rows ensures Precedes(x, r) {
          var i :| 0 <= i <= n && rows[i] == x;
          if i < n { PrecedesTransitive(rows[i], last, r); }
        }
        SortedSnoc(rows, r);
      } else {
        InsertSorts(rows[..n], r);
        InsertKeeps(rows[..n], r);
        SortedSnoc(Insert(rows[..n], r), last);
      }
    }
  }

  lemma {:induction false} SortSorts(rows: seq<Row>)
    requires DistinctItems(rows)
    ensures Sorted(Sort(rows)) && multiset(Sort(rows)) == multiset(rows)
    ensures forall x :: x in Sort(rows) <==> x in rows
  {
    if rows != [] {
      var n := |rows| - 1;
      SortSorts(rows[..n]);
      assert rows == rows[..n] + [rows[n]];
      forall x | x in Sort(rows[..n])
        ensures x.item != rows[n].item
      {
        var i :| 0 <= i < n && rows[i] == x;
      }
      InsertSorts(Sort(rows[..n]), rows[n]);
      InsertKeeps(Sort(rows[..n]), rows[n]);
    }
  }

  /** Nothing in a sorted arrangement precedes its first row. */
  lemma FirstIsLeast(a: seq<Row>, x: Row)
    requires Sorted(a) && x in a
    ensures x == a[0] || Precedes(a[0], x)
  {
    hide Precedes;
    var i :| 0 <= i < |a| && a[i] == x;
  }

  lemma SameMembers<T>(a: seq<T>, b: seq<T>)
    requires multiset(a) == multiset(b)
    ensures forall x :: x in a <==> x in b
  {
    forall x ensures x in a <==> x in b { assert x in multiset(a) <==> x in multiset(b); }
  }

  lemma FirstsEqual(a: seq<Row>, b: seq<Row>)
    requires Sorted(a) && Sorted(b) && multiset(a) == multiset(b) && a != [] && b != []
    requires forall x, y :: x in a && y in a && x != y ==> x.item != y.item
    ensures a[0] == b[0]
  {
    hide Precedes, Sorted;
    SameMembers(a, b);
    FirstIsLeast(a, b[0]);
    FirstIsLeast(b, a[0]);
    if a[0] != b[0] { PrecedesTotal(a[0], b[0]); }
  }

  lemma RestEqual<T>(a: seq<T>, b: seq<T>)
    requires multiset(a) == multiset(b) && a != [] && b != [] && a[0] == b[0]
    ensures multiset(a[1..]) == multiset(b[1..])
  {
    assert a == [a[0]] + a[1..] && b == [b[0]] + b[1..];
    assert multiset(a[1..]) == multiset(a) - multiset{a[0]};
    assert multiset(b[1..]) == multiset(b) - multiset{b[0]};
  }

  lemma SameSize<T>(a: seq<T>, b: seq<T>)
    requires multiset(a) == multiset(b)
    ensures |a| == |b|
  {
    assert |multiset(a)| == |a| && |multiset(b)| == |b|;
  }

  /** The order leaves no choice: two sorted arrangements of the same rows are the same, so the
      pages that separate statements return fit together. */
  lemma {:induction false} SortedUnique(a: seq<Row>, b: seq<Row>)
    requires Sorted(a) && Sorted(b) && multiset(a) == multiset(b)
    requires forall x, y :: x in a && y in a && x != y ==> x.item != y.item
    ensures a == b
  {
    hide Precedes;
    SameSize(a, b);
    if a != [] {
      FirstsEqual(a, b);
      RestEqual(a, b);
      SortedUnique(a[1..], b[1..]);
      assert a == [a[0]] + a[1..] && b == [b[0]] + b[1..];
    }
  }

  // ---------- Pages ----------

  function Slice<T>(xs: seq<T>, offset: int, limit: int): seq<T> {
    var from := Money.Min(Money.Max(offset, 0), |xs|);
    var to := Money.Min(from + Money.Max(limit, 0), |xs|);
    xs[from..to]
  }

  /** The filtered list as a whole, in its order. */
  function Listing(rows: seq<Row>, f: Filters): seq<Row> {
    Sort(Where(rows, WholeQuery(f)))
  }

  function Total(rows: seq<Row>, f: Filters): nat {
    |Where(rows, WholeQuery(f))|
  }

  /** What a list statement may return: a slice of some sorted arrangement of the rows it selects. */
  ghost predicate Returns(rows: seq<Row>, st: Statement, page: seq<Row>) {
    exists all :: PageOfArrangement(Where(rows, st), st, all, page)
  }

  ghost predicate PageOfArrangement(found: seq<Row>, st: Statement, all: seq<Row>, page: seq<Row>) {
    && Sorted(all) && multiset(all) == multiset(found)
    && page == Slice(all, NumberAt(st.offset, st.args), NumberAt(st.limit, st.args))
  }

  function TotalPages(total: nat, size: nat): nat
    requires size > 0
  {
    (total + size - 1) / size
  }

  lemma PagingArgs(f: Filters)
    ensures NumberAt(ListQuery(f).limit, ListQuery(f).args) == f.pageSize
    ensures NumberAt(ListQuery(f).offset, ListQuery(f).args) == (f.page - 1) * f.pageSize
  {
    var st, n := ListQuery(f), |WhereArgs(f, None)|;
    ResolvePlaceholder(n + 1, st.args);
    ResolvePlaceholder(n + 2, st.args);
    assert st.args[n] == Number(f.pageSize) && st.args[n + 1] == Number((f.page - 1) * f.pageSize);
  }

  lemma {:induction false} WhereSame(rows: seq<Row>, a: Statement, b: Statement)
    requires forall r :: r in rows ==> (Selected(a, r) <==> Selected(b, r))
    ensures Where(rows, a) == Where(rows, b)
  {
    if rows != [] {
      WhereSame(rows[..|rows| - 1], a, b);
    }
  }

  lemma ListWhere(rows: seq<Row>, f: Filters)
    ensures Where(rows, ListQuery(f)) == Where(rows, WholeQuery(f))
  {
    forall r | r in rows ensures Selected(ListQuery(f), r) <==> Selected(WholeQuery(f), r) { ListSelects(f, r); }
    WhereSame(rows, ListQuery(f), WholeQuery(f));
  }

  lemma ItemsDiffer(rows: seq<Row>)
    requires DistinctItems(rows)
    ensures forall x, y :: x in rows && y in rows && x != y ==> x.item != y.item
  {}

  /** The page a statement returns is fixed: it is its slice of the one listing. */
  lemma PageIsSlice(rows: seq<Row>, f: Filters, page: seq<Row>)
    requires DistinctItems(rows) && Returns(rows, ListQuery(f), page)
    ensures page == Slice(Listing(rows, f), (f.page - 1) * f.pageSize, f.pageSize)
  {
    PagingArgs(f);
    ListWhere(rows, f);
    WhereDistinct(rows, WholeQuery(f));
    hide Where, Sort, Sorted, ListQuery, WholeQuery, Slice;
    var found := Where(rows, WholeQuery(f));
    SortSorts(found);
    ItemsDiffer(found);
    var all :| PageOfArrangement(found, ListQuery(f), all, page);
    SameMembers(Sort(found), found);
    SortedUnique(Sort(found), all);
  }

  /** The filters of page k. */
  function AtPage(f: Filters, k: nat): Filters {
    f.(page := k)
  }

  function Joined<T>(pages: seq<seq<T>>): seq<T> {
    if pages == [] then [] else Joined(pages[..|pages| - 1]) + pages[|pages| - 1]
  }

  lemma SliceExtends<T>(all: seq<T>, from: nat, size: nat)
    ensures all[..Money.Min(from, |all|)] + Slice(all, from, size) == all[..Money.Min(from + size, |all|)]
  {}

  lemma {:induction false} JoinedSlices<T>(all: seq<T>, pages: seq<seq<T>>, size: nat)
    requires forall k :: 0 <= k < |pages| ==> pages[k] == Slice(all, k * size, size)
    ensures |pages| * size >= 0 && Joined(pages) == all[..Money.Min(|pages| * size, |all|)]
  {
    hide Slice;
    if pages != [] {
      var n := |pages| - 1;
      JoinedSlices(all, pages[..n], size);
      assert |pages| * size == n * size + size;
      SliceExtends(all, n * size, size);
    }
  }

  lemma PagesCover(total: nat, size: nat)
    requires size > 0
    ensures TotalPages(total, size) * size >= total
    ensures TotalPages(total, size) > 0 ==> (TotalPages(total, size) - 1) * size < total
  {
    var k := TotalPages(total, size);
    assert total + size - 1 == k * size + (total + size - 1) % size;
    assert k > 0 ==> (k - 1) * size == k * size - size;
  }

  lemma SliceInside<T>(all: seq<T>, from: nat, size: nat)
    requires from < |all| && size > 0
    ensures Slice(all, from, size) != []
  {}

  lemma LessPages(k: nat, n: int, size: nat)
    requires k <= n
    ensures k * size <= n * size
  {}

  lemma PageInside<T>(all: seq<T>, k: nat, size: nat)
    requires size > 0 && k < TotalPages(|all|, size)
    ensures Slice(all, k * size, size) != []
  {
    hide Slice, TotalPages;
    PagesCover(|all|, size);
    LessPages(k, TotalPages(|all|, size) - 1, size);
    SliceInside(all, k * size, size);
  }

  lemma PageIrrelevant(f: Filters, k: nat, skip: Option<Column>, r: Row)
    ensures Matches(AtPage(f, k), skip, r) <==> Matches(f, skip, r)
  {
    assert forall col :: ValuesFor(AtPage(f, k), col) == ValuesFor(f, col);
    assert forall m :: BoundsFor(AtPage(f, k), m) == BoundsFor(f, m);
  }

  /** The page number and size are not part of what the statement selects. */
  lemma PageOf(rows: seq<Row>, f: Filters, k: nat, page: seq<Row>)
    requires DistinctItems(rows) && Returns(rows, ListQuery(AtPage(f, k)), page)
    ensures page == Slice(Listing(rows, f), (k - 1) * f.pageSize, f.pageSize)
  {
    hide Where, Sort, ListQuery, WholeQuery, Slice, Returns, Matches, Selected, DistinctItems;
    var g := AtPage(f, k);
    PageIsSlice(rows, g, page);
    forall r | r in rows ensures Selected(WholeQuery(g), r) <==> Selected(WholeQuery(f), r) {
      ListSelects(f, r);
      ListSelects(g, r);
      PageIrrelevant(f, k, None, r);
    }
    WhereSame(rows, WholeQuery(g), WholeQuery(f));
  }

  /** Pages 1 to TotalPages, each from a statement of its own, are together the filtered listing:
      every matching row once, in order. None of them is empty, and any later page is. */
  lemma PagesPartition(rows: seq<Row>, f: Filters, pages: seq<seq<Row>>)
    requires DistinctItems(rows) && f.pageSize > 0 && |pages| == TotalPages(Total(rows, f), f.pageSize)
    requires forall k :: 0 <= k < |pages| ==> Returns(rows, ListQuery(AtPage(f, k + 1)), pages[k])
    ensures Joined(pages) == Listing(rows, f)
    ensures Sorted(Joined(pages)) && multiset(Joined(pages)) == multiset(Where(rows, WholeQuery(f)))
    ensures forall k :: 0 <= k < |pages| ==> pages[k] != []
  {
    hide Where, Sort, Sorted, Returns, ListQuery, WholeQuery, Slice, TotalPages, DistinctItems;
    var all := Listing(rows, f);
    WhereDistinct(rows, WholeQuery(f));
    SortSorts(Where(rows, WholeQuery(f)));
    SameSize(all, Where(rows, WholeQuery(f)));
    forall k | 0 <= k < |pages|
      ensures pages[k] == Slice(all, k * f.pageSize, f.pageSize)
    {
      PageOf(rows, f, k + 1, pages[k]);
    }
    JoinedSlices(all, pages, f.pageSize);
    PagesCover(|all|, f.pageSize);
    assert all[..|all|] == all;
    forall k | 0 <= k < |pages|
      ensures pages[k] != []
    {
      PageInside(all, k, f.pageSize);
    }
  }

  lemma PastTheEnd(rows: seq<Row>, f: Filters, k: nat, page: seq<Row>)
    requires DistinctItems(rows) && f.pageSize > 0 && k > TotalPages(Total(rows, f), f.pageSize)
    requires Returns(rows, ListQuery(AtPage(f, k)), page)
    ensures page == []
  {
    hide Where, Sort, Sorted, Returns, ListQuery, WholeQuery, TotalPages, DistinctItems;
    WhereDistinct(rows, WholeQuery(f));
    SortSorts(Where(rows, WholeQuery(f)));
    SameSize(Listing(rows, f), Where(rows, WholeQuery(f)));
    PageOf(rows, f, k, page);
    PagesCover(Total(rows, f), f.pageSize);
    LessPages(TotalPages(Total(rows, f), f.pageSize), k - 1, f.pageSize);
  }

  /** The newest orders come first, orders of one instant by falling id, an order's items by their sort
      order, then by name and id. */
  lemma ListedInOrder(rows: seq<Row>, f: Filters, i: nat, j: nat)
    requires DistinctItems(rows) && i < j < |Listing(rows, f)|
    ensures var (a, b) := (Listing(rows, f)[i], Listing(rows, f)[j]);
            && a.created >= b.created
            && (a.created == b.created ==> a.order >= b.order)
            && (a.created == b.created && a.order == b.order ==> a.sortOrder <= b.sortOrder)
            && (a.created == b.created && a.order == b.order && a.sortOrder == b.sortOrder && a.name != b.name ==>
                  Less(a.name, b.name))
            && (a.created == b.created && a.order == b.order && a.sortOrder == b.sortOrder && a.name == b.name ==>
                  a.item < b.item)
  {
    hide Where, Sort, WholeQuery, Less;
    WhereDistinct(rows, WholeQuery(f));
    SortSorts(Where(rows, WholeQuery(f)));
  }

  lemma SliceFirst<T>(all: seq<T>, size: nat)
    requires all != [] && size > 0
    ensures Slice(all, 0, size) != [] && Slice(all, 0, size)[0] == all[0]
  {}

  /** No row the filters describe is newer than the first row of page 1. */
  lemma FirstPageNewest(rows: seq<Row>, f: Filters, page: seq<Row>, r: Row)
    requires DistinctItems(rows) && f.page == 1 && f.pageSize > 0 && Returns(rows, ListQuery(f), page)
    requires r in rows && !r.revoked && Matches(f, None, r)
    ensures page != [] && r.created <= page[0].created
  {
    hide Where, Sort, WholeQuery, ListQuery, Slice, Matches, Returns, Less, DistinctItems;
    PageIsSlice(rows, f, page);
    ListSelects(f, r);
    WhereIn(rows, WholeQuery(f), r);
    WhereDistinct(rows, WholeQuery(f));
    SortSorts(Where(rows, WholeQuery(f)));
    SliceFirst(Listing(rows, f), f.pageSize);
    var k :| 0 <= k < |Listing(rows, f)| && Listing(rows, f)[k] == r;
    if k > 0 { ListedInOrder(rows, f, 0, k); }
  }

  // ---------- Facets ----------

  /** count(*) of one candidate value. */
  function CountOf(rows: seq<Row>, col: Column, v: string): nat {
    if rows == [] then 0
    else CountOf(rows[..|rows| - 1], col, v) + if ValueOf(rows[|rows| - 1], col) == v then 1 else 0
  }

  /** The candidates: the distinct values of the selected rows, in no particular order yet. */
  function Candidates(rows: seq<Row>, col: Column): seq<string> {
    if rows == [] then []
    else
      var before := Candidates(rows[..|rows| - 1], col);
      var v := ValueOf(rows[|rows| - 1], col);
      if v in before then before else before + [v]
  }

  function SumCounts(rows: seq<Row>, col: Column, vs: seq<string>): nat {
    if vs == [] then 0 else SumCounts(rows, col, vs[..|vs| - 1]) + CountOf(rows, col, vs[|vs| - 1])
  }

  ghost predicate Distinct(vs: seq<string>) {
    forall i, j :: 0 <= i < j < |vs| ==> vs[i] != vs[j]
  }

  lemma {:induction false} CandidatesDistinct(rows: seq<Row>, col: Column)
    ensures Distinct(Candidates(rows, col))
    ensures forall v :: v in Candidates(rows, col) <==> exists r :: r in rows && ValueOf(r, col) == v
  {
    if rows != [] {
      var n := |rows| - 1;
      CandidatesDistinct(rows[..n], col);
      assert rows == rows[..n] + [rows[n]];
    }
  }

  lemma {:induction false} SumSnoc(rows: seq<Row>, r: Row, col: Column, vs: seq<string>)
    requires Distinct(vs)
    ensures SumCounts(rows + [r], col, vs) == SumCounts(rows, col, vs) + if ValueOf(r, col) in vs then 1 else 0
  {
    assert (rows + [r])[..|rows|] == rows;
    if vs != [] {
      var n := |vs| - 1;
      SumSnoc(rows, r, col, vs[..n]);
      assert vs == vs[..n] + [vs[n]];
      assert vs[n] !in vs[..n];
    }
  }

  lemma {:induction false} NothingCounted(col: Column, vs: seq<string>)
    ensures SumCounts([], col, vs) == 0
  {
    if vs != [] { NothingCounted(col, vs[..|vs| - 1]); }
  }

  /** Distinct values that cover all rows count every row once. */
  lemma {:induction false} CountsCover(rows: seq<Row>, col: Column, vs: seq<string>)
    requires Distinct(vs) && forall r :: r in rows ==> ValueOf(r, col) in vs
    ensures SumCounts(rows, col, vs) == |rows|
  {
    if rows == [] {
      NothingCounted(col, vs);
    } else {
      var n := |rows| - 1;
      assert rows == rows[..n] + [rows[n]];
      CountsCover(rows[..n], col, vs);
      SumSnoc(rows[..n], rows[n], col, vs);
    }
  }

  /** The filters with one column set to the given values. */
  function With(f: Filters, col: Column, values: seq<string>): Filters {
    f.(values := f.values[col := values])
  }

  lemma WithMeansColumn(f: Filters, col: Column, values: seq<string>, r: Row)
    ensures forall c: Column ::
              MatchesColumn(With(f, col, values), None, c, r) <==>
              if c == col then values == [] || ValueOf(r, col) in values else MatchesColumn(f, Some(col), c, r)
  {
    hide ValueOf;
  }

  lemma WithMeans(f: Filters, col: Column, values: seq<string>, r: Row)
    ensures Matches(With(f, col, values), None, r) <==>
              Matches(f, Some(col), r) && (values == [] || ValueOf(r, col) in values)
  {
    var g := With(f, col, values);
    assert forall m :: BoundsFor(g, m) == BoundsFor(f, m);
    assert forall c :: c != col ==> ValuesFor(g, c) == ValuesFor(f, c);
    WithMeansColumn(f, col, values, r);
    assert col in COLUMNS by { EveryColumn(col); }
    assert MatchesColumn(f, Some(col), col, r);
  }

  lemma {:induction false} CountIsWhere(rows: seq<Row>, a: Statement, b: Statement, col: Column, v: string)
    requires forall r :: r in rows ==> (Selected(b, r) <==> Selected(a, r) && ValueOf(r, col) == v)
    ensures CountOf(Where(rows, a), col, v) == |Where(rows, b)|
  {
    hide Selected;
    if rows != [] {
      var n := |rows| - 1;
      CountIsWhere(rows[..n], a, b, col, v);
      var before := Where(rows[..n], a);
      if Selected(a, rows[n]) {
        assert (before + [rows[n]])[..|before|] == before;
      } else {
        assert before + [] == before;
      }
    }
  }

  /** Ticking a facet's value lists exactly as many rows as the facet counted for it. */
  lemma FacetCountIsListTotal(rows: seq<Row>, q: FacetRequest, v: string)
    requires q.search == "" || ContainsFolded(v, q.search)
    ensures CountOf(Where(rows, FacetQuery(q)), q.column, v) == Total(rows, With(q.filters, q.column, [v]))
  {
    var g := With(q.filters, q.column, [v]);
    forall r | r in rows
      ensures Selected(WholeQuery(g), r) <==> Selected(FacetQuery(q), r) && ValueOf(r, q.column) == v
    {
      ListSelects(g, r);
      FacetSelects(q, r);
      WithMeans(q.filters, q.column, [v], r);
    }
    CountIsWhere(rows, FacetQuery(q), WholeQuery(g), q.column, v);
  }

  /** Without a search, the counts of all candidates add up to the list's total with the column unfiltered. */
  lemma FacetCountsAddUp(rows: seq<Row>, q: FacetRequest)
    requires q.search == ""
    ensures SumCounts(Where(rows, FacetQuery(q)), q.column, Candidates(Where(rows, FacetQuery(q)), q.column)) ==
            Total(rows, With(q.filters, q.column, []))
  {
    var g := With(q.filters, q.column, []);
    forall r | r in rows
      ensures Selected(WholeQuery(g), r) <==> Selected(FacetQuery(q), r)
    {
      ListSelects(g, r);
      FacetSelects(q, r);
      WithMeans(q.filters, q.column, [], r);
    }
    WhereSame(rows, WholeQuery(g), FacetQuery(q));
    var found := Where(rows, FacetQuery(q));
    CandidatesDistinct(found, q.column);
    CountsCover(found, q.column, Candidates(found, q.column));
  }

  datatype FacetRow = FacetRow(value: string, count: nat, total: nat, blankCount: nat)
  datatype FacetResponse = FacetResponse(values: seq<(string, nat)>, total: nat, blankCount: nat, hasMore: bool)

  /** (value = '') asc, value asc: blanks last. */
  predicate FacetPrecedes(a: string, b: string) {
    if (a == "") != (b == "") then b == "" else Less(a, b)
  }

  ghost predicate FacetOrdered(vs: seq<string>) {
    forall i, j :: 0 <= i < j < |vs| ==> FacetPrecedes(vs[i], vs[j])
  }

  /** What a facet statement may return: a slice of the candidates in their order, each row
      carrying the number of candidates and the count of blank cells. */
  ghost predicate FacetReturns(rows: seq<Row>, q: FacetRequest, out: seq<FacetRow>) {
    exists vs :: FacetPage(Where(rows, FacetQuery(q)), q, vs, out)
  }

  ghost predicate FacetPage(found: seq<Row>, q: FacetRequest, vs: seq<string>, out: seq<FacetRow>) {
    var page := Slice(vs, (q.page - 1) * q.pageSize, q.pageSize);
    && FacetOrdered(vs) && multiset(vs) == multiset(Candidates(found, q.column))
    && out == FacetRows(found, q.column, |vs|, page)
  }

  function FacetRows(found: seq<Row>, col: Column, total: nat, page: seq<string>): seq<FacetRow> {
    seq(|page|, i requires 0 <= i < |page| =>
        FacetRow(page[i], CountOf(found, col, page[i]), total, CountOf(found, col, "")))
  }

  /** OrderFacets: the totals are read off the rows, so they stay 0 when the page has none. */
  function Respond(q: FacetRequest, out: seq<FacetRow>): FacetResponse {
    var total := if out == [] then 0 else out[|out| - 1].total;
    FacetResponse(seq(|out|, i requires 0 <= i < |out| => (out[i].value, out[i].count)), total,
                  if out == [] then 0 else out[|out| - 1].blankCount, q.page * q.pageSize < total)
  }

  lemma PageStarts(page: nat, size: nat)
    requires page >= 1 && size >= 1
    ensures (page - 1) * size >= 0
  {}

  /** has_more tells exactly whether candidates follow this page, although the total it is
      computed from reads 0 on a page past the end; the total is right exactly when the page has
      rows or there are no candidates at all. */
  lemma HasMoreIsExact(rows: seq<Row>, q: FacetRequest, out: seq<FacetRow>)
    requires q.page >= 1 && q.pageSize >= 1 && FacetReturns(rows, q, out)
    ensures var n := |Candidates(Where(rows, FacetQuery(q)), q.column)|;
            && (Respond(q, out).hasMore <==> q.page * q.pageSize < n)
            && (Respond(q, out).total == n <==> (q.page - 1) * q.pageSize < n || n == 0)
  {
    hide Where, FacetQuery, Candidates;
    var found := Where(rows, FacetQuery(q));
    var vs :| FacetPage(found, q, vs, out);
    assert |multiset(vs)| == |vs| && |multiset(Candidates(found, q.column))| == |Candidates(found, q.column)|;
    assert q.page * q.pageSize == (q.page - 1) * q.pageSize + q.pageSize;
    PageStarts(q.page, q.pageSize);
  }

  /** A candidate is the value of a row the facet selected, so it contains the text searched for. */
  lemma CandidateMatches(rows: seq<Row>, q: FacetRequest, v: string)
    requires v in Candidates(Where(rows, FacetQuery(q)), q.column)
    ensures q.search == "" || ContainsFolded(v, q.search)
  {
    hide Where, FacetQuery, Candidates, ContainsFolded;
    var found := Where(rows, FacetQuery(q));
    CandidatesDistinct(found, q.column);
    var r :| r in found && ValueOf(r, q.column) == v;
    WhereIn(rows, FacetQuery(q), r);
    FacetSelects(q, r);
  }

  lemma SliceMember<T>(all: seq<T>, from: int, size: int, x: T)
    requires x in Slice(all, from, size)
    ensures x in all
  {}

  /** A facet response shows the values in the order they were read, each with the list's total for the
      column set to that value. */
  lemma FacetResponseCounts(rows: seq<Row>, q: FacetRequest, out: seq<FacetRow>, i: nat)
    requires FacetReturns(rows, q, out) && i < |Respond(q, out).values|
    ensures var (value, count) := Respond(q, out).values[i];
            && |Respond(q, out).values| == |out| && value == out[i].value
            && count == Total(rows, With(q.filters, q.column, [value]))
  {
    hide Where, FacetQuery, Candidates, Slice;
    var found := Where(rows, FacetQuery(q));
    var vs :| FacetPage(found, q, vs, out);
    var v := out[i].value;
    SliceMember(vs, (q.page - 1) * q.pageSize, q.pageSize, v);
    SameMembers(vs, Candidates(found, q.column));
    CandidateMatches(rows, q, v);
    FacetCountIsListTotal(rows, q, v);
  }

  lemma FacetPrecedesAsymmetric(a: string, b: string)
    ensures !(FacetPrecedes(a, b) && FacetPrecedes(b, a))
  {
    LessTotal(a, b);
  }

  /** The order of the candidates leaves no choice either. */
  lemma {:induction false} FacetOrderUnique(a: seq<string>, b: seq<string>)
    requires FacetOrdered(a) && FacetOrdered(b) && multiset(a) == multiset(b)
    ensures a == b
  {
    hide FacetPrecedes;
    SameSize(a, b);
    SameMembers(a, b);
    if a != [] {
      assert a[0] in b && b[0] in a;
      FacetPrecedesAsymmetric(a[0], b[0]);
      RestEqual(a, b);
      FacetOrderUnique(a[1..], b[1..]);
      assert a == [a[0]] + a[1..] && b == [b[0]] + b[1..];
    }
  }

  function ValuesOf(out: seq<FacetRow>): seq<string> {
    seq(|out|, i requires 0 <= i < |out| => out[i].value)
  }

  /** The facet request for page k. */
  function AtFacetPage(q: FacetRequest, k: nat): FacetRequest {
    q.(page := k)
  }

  lemma FacetPageIrrelevant(rows: seq<Row>, q: FacetRequest, k: nat)
    ensures Where(rows, FacetQuery(AtFacetPage(q, k))) == Where(rows, FacetQuery(q))
  {
    hide FacetQuery, Selected;
    forall r | r in rows
      ensures Selected(FacetQuery(AtFacetPage(q, k)), r) <==> Selected(FacetQuery(q), r)
    {
      FacetSelects(q, r);
      FacetSelects(AtFacetPage(q, k), r);
    }
    WhereSame(rows, FacetQuery(AtFacetPage(q, k)), FacetQuery(q));
  }

  lemma FacetPageIsSlice(rows: seq<Row>, q: FacetRequest, k: nat, vs: seq<string>, out: seq<FacetRow>)
    requires FacetReturns(rows, AtFacetPage(q, k), out)
    requires FacetOrdered(vs) && multiset(vs) == multiset(Candidates(Where(rows, FacetQuery(q)), q.column))
    ensures ValuesOf(out) == Slice(vs, (k - 1) * q.pageSize, q.pageSize)
  {
    hide Where, FacetQuery, Candidates, Slice, FacetOrdered;
    FacetPageIrrelevant(rows, q, k);
    var own :| FacetPage(Where(rows, FacetQuery(q)), AtFacetPage(q, k), own, out);
    FacetOrderUnique(own, vs);
  }

  lemma FacetArrangement(rows: seq<Row>, q: FacetRequest, out: seq<FacetRow>) returns (vs: seq<string>)
    requires FacetReturns(rows, AtFacetPage(q, 1), out)
    ensures FacetOrdered(vs) && multiset(vs) == multiset(Candidates(Where(rows, FacetQuery(q)), q.column))
  {
    hide Where, FacetQuery, Candidates, Slice, FacetOrdered;
    FacetPageIrrelevant(rows, q, 1);
    var own :| FacetPage(Where(rows, FacetQuery(q)), AtFacetPage(q, 1), own, out);
    vs := own;
  }

  lemma EmptyOrdered()
    ensures FacetOrdered([])
  {}

  lemma NoCandidates(n: nat, size: nat)
    requires size > 0 && TotalPages(n, size) == 0
    ensures n == 0
  {}

  lemma OrderedDistinct(vs: seq<string>)
    requires FacetOrdered(vs)
    ensures Distinct(vs)
  {
    hide FacetPrecedes;
    forall i, j | 0 <= i < j < |vs|
      ensures vs[i] != vs[j]
    {
      assert FacetPrecedes(vs[i], vs[j]);
      FacetPrecedesAsymmetric(vs[i], vs[j]);
    }
  }

  /** The pages of a facet, each from a statement of its own, are together the candidates: every
      value of a selected row once, blanks last, and no page empty. */
  lemma FacetPagesPartition(rows: seq<Row>, q: FacetRequest, pages: seq<seq<FacetRow>>)
    requires q.pageSize > 0
    requires |pages| == TotalPages(|Candidates(Where(rows, FacetQuery(q)), q.column)|, q.pageSize)
    requires forall k :: 0 <= k < |pages| ==> FacetReturns(rows, AtFacetPage(q, k + 1), pages[k])
    ensures var values := Joined(seq(|pages|, k requires 0 <= k < |pages| => ValuesOf(pages[k])));
            && FacetOrdered(values) && Distinct(values)
            && (forall v :: v in values <==> exists r :: r in Where(rows, FacetQuery(q)) && ValueOf(r, q.column) == v)
    ensures forall k :: 0 <= k < |pages| ==> pages[k] != []
  {
    hide Where, FacetQuery, Candidates, Slice, FacetOrdered, TotalPages, FacetReturns;
    var found := Where(rows, FacetQuery(q));
    var n := |Candidates(found, q.column)|;
    var parts := seq(|pages|, k requires 0 <= k < |pages| => ValuesOf(pages[k]));
    CandidatesDistinct(found, q.column);
    PagesCover(n, q.pageSize);
    if pages == [] {
      NoCandidates(n, q.pageSize);
      assert parts == [];
      EmptyOrdered();
    } else {
      var vs := FacetArrangement(rows, q, pages[0]);
      SameSize(vs, Candidates(found, q.column));
      SameMembers(vs, Candidates(found, q.column));
      OrderedDistinct(vs);
      forall k | 0 <= k < |pages|
        ensures ValuesOf(pages[k]) == Slice(vs, k * q.pageSize, q.pageSize) != []
      {
        FacetPageIsSlice(rows, q, k + 1, vs, pages[k]);
        LessPages(k, |pages| - 1, q.pageSize);
        SliceInside(vs, k * q.pageSize, q.pageSize);
      }
      JoinedSlices(vs, parts, q.pageSize);
      assert vs[..|vs|] == vs;
    }
  }

  lemma OrderedBlanksLast(vs: seq<string>)
    requires FacetOrdered(vs)
    ensures forall i :: 0 <= i < |vs| - 1 ==> vs[i] != ""
    ensures forall i, j :: 0 <= i < j < |vs| && vs[j] != "" ==> Less(vs[i], vs[j])
  {
    forall i | 0 <= i < |vs| - 1 ensures vs[i] != "" {
      assert FacetPrecedes(vs[i], vs[|vs| - 1]);
    }
  }

  /** Over all pages of a facet the values ascend, and only the last of them can be the blank one. */
  lemma FacetBlanksLast(rows: seq<Row>, q: FacetRequest, pages: seq<seq<FacetRow>>)
    requires q.pageSize > 0
    requires |pages| == TotalPages(|Candidates(Where(rows, FacetQuery(q)), q.column)|, q.pageSize)
    requires forall k :: 0 <= k < |pages| ==> FacetReturns(rows, AtFacetPage(q, k + 1), pages[k])
    ensures var values := Joined(seq(|pages|, k requires 0 <= k < |pages| => ValuesOf(pages[k])));
            && (forall i :: 0 <= i < |values| - 1 ==> values[i] != "")
            && (forall i, j :: 0 <= i < j < |values| && values[j] != "" ==> Less(values[i], values[j]))
  {
    hide Where, FacetQuery, Candidates, TotalPages, FacetReturns, Joined, ValuesOf, Less;
    FacetPagesPartition(rows, q, pages);
    var values := Joined(seq(|pages|, k requires 0 <= k < |pages| => ValuesOf(pages[k])));
    OrderedBlanksLast(values);
  }

  /** The blank count of a page with rows is the list's total for blank cells. */
  lemma BlankCountIsListTotal(rows: seq<Row>, q: FacetRequest, out: seq<FacetRow>)
    requires q.search == "" && FacetReturns(rows, q, out) && out != []
    ensures Respond(q, out).blankCount == Total(rows, With(q.filters, q.column, [""]))
  {
    FacetCountIsListTotal(rows, q, "");
  }

  // ---------- The export ----------

  /** The narrowing of the unpaid export: not cancelled, and money still owed. */
  predicate Unsettled(r: Row) {
    r.status != "cancelled" && Money.StillOwes(r.paid, r.amount)
  }

  /** What is unsettled is what the list shows with an unpaid amount, unless it is cancelled. */
  lemma UnsettledMeans(r: Row)
    ensures Unsettled(r) <==> ValueOf(r, OrderStatus) != "cancelled" && MeasureOf(r, UnpaidAmount) > 0
  {}

  predicate Exported(ids: set<nat>, unpaidOnly: bool, r: Row) {
    !r.revoked && r.item in ids && (unpaidOnly ==> Unsettled(r))
  }

  function ItemIds(rows: seq<Row>): set<nat> {
    set r | r in rows :: r.item
  }

  function Export(rows: seq<Row>, ids: set<nat>, unpaidOnly: bool): seq<Row> {
    if rows == [] then []
    else
      Export(rows[..|rows| - 1], ids, unpaidOnly) +
      if Exported(ids, unpaidOnly, rows[|rows| - 1]) then [rows[|rows| - 1]] else []
  }

  lemma {:induction false} ExportCounts(rows: seq<Row>, ids: set<nat>, unpaidOnly: bool, r: Row)
    ensures multiset(Export(rows, ids, unpaidOnly))[r] == if Exported(ids, unpaidOnly, r) then multiset(rows)[r] else 0
  {
    if rows != [] {
      var n := |rows| - 1;
      ExportCounts(rows[..n], ids, unpaidOnly, r);
      assert rows == rows[..n] + [rows[n]];
    }
  }

  lemma SelectedById(rows: seq<Row>, st: Statement, r: Row)
    requires DistinctItems(rows) && r in rows
    ensures r.item in ItemIds(Where(rows, st)) <==> Selected(st, r)
  {
    WhereIn(rows, st, r);
    if r.item in ItemIds(Where(rows, st)) {
      var x :| x in Where(rows, st) && x.item == r.item;
      WhereIn(rows, st, x);
      ItemsDiffer(rows);
    }
  }

  /** The export holds the listed rows, all of them and no others, once each; the unpaid export
      holds those of them that are not cancelled and still owe money. */
  lemma ExportIsListing(rows: seq<Row>, f: Filters, unpaidOnly: bool, r: Row)
    requires DistinctItems(rows)
    ensures multiset(Export(rows, ItemIds(Where(rows, WholeQuery(f))), unpaidOnly))[r] ==
            if unpaidOnly && !Unsettled(r) then 0 else multiset(Listing(rows, f))[r]
  {
    var st := WholeQuery(f);
    var ids := ItemIds(Where(rows, st));
    ExportCounts(rows, ids, unpaidOnly, r);
    WhereDistinct(rows, st);
    SortSorts(Where(rows, st));
    WhereSelects(rows, st, r);
    if r in rows {
      SelectedById(rows, st, r);
    } else {
      assert multiset(rows)[r] == 0;
    }
  }

  /** The status the export prints is the list's, except for an item that costs nothing and yet
      has money applied to it. */
  lemma ExportStatusAgrees(r: Row)
    ensures StatusName(Money.RecalcStatus(r.paid, r.amount)) == ValueOf(r, PaymentStatus) <==> !(r.amount <= 0 < r.paid)
  {
    Money.ClassifiersAgree(r.paid, r.amount);
  }
}
