/** What the adjustment rules mean for a stored preview, read off the rules themselves: which batches,
    sheets, details and issues of it are left, and what a corrected detail looks like. */
module ImportRulesMeaning {
  import opened Text
  import opened ImportRules

  /** One list after the other. */
  function Flatten<T>(parts: seq<seq<T>>): seq<T> {
    if parts == [] then [] else Flatten(parts[..|parts| - 1]) + parts[|parts| - 1]
  }

  lemma {:induction false} InFlatten<T>(parts: seq<seq<T>>, x: T)
    ensures x in Flatten(parts) <==> exists i :: 0 <= i < |parts| && x in parts[i]
  {
    if parts != [] {
      var n := |parts| - 1;
      InFlatten(parts[..n], x);
      assert forall i :: 0 <= i < n ==> parts[..n][i] == parts[i];
    }
  }

  // ---------- Which details, batches and sheets are left ----------

  /** An id given in a list, up to white space around it. */
  predicate Listed(ids: seq<string>, id: string) {
    exists i :: 0 <= i < |ids| && Trim(ids[i]) == id != ""
  }

  lemma ListedIs(ids: seq<string>, id: string)
    ensures id in IdSet(ids) <==> Listed(ids, id)
  {
    if id in IdSet(ids) {
      var x :| x in ids && Trim(x) != "" && Trim(x) == id;
      var i :| 0 <= i < |ids| && ids[i] == x;
    }
  }

  /** The exclusion names the detail's CN, and its sheet and batch if it names any. */
  predicate Targets(x: CNExclusion, batchId: string, d: Detail) {
    && FoldCN(x.cn) == d.normalizedCN != ""
    && (x.sheetId == "" || x.sheetId == d.sheetId || x.sheetId == d.sheetName)
    && (x.batchId == "" || x.batchId == batchId)
  }

  predicate Leaves(rules: Rules, batchId: string, d: Detail) {
    && !Listed(rules.excludedItems, d.id)
    && forall i :: 0 <= i < |rules.excludedCNs| ==> !Targets(rules.excludedCNs[i], batchId, d)
  }

  /** A detail is excluded exactly when its id is listed or an exclusion names it. */
  lemma ExcludedMeans(batchId: string, d: Detail, rules: Rules)
    ensures Excluded(batchId, d, rules.excludedCNs, IdSet(rules.excludedItems)) <==> !Leaves(rules, batchId, d)
  {
    ListedIs(rules.excludedItems, d.id);
    forall i | 0 <= i < |rules.excludedCNs|
      ensures ExclusionMatches(batchId, d, rules.excludedCNs[i]) <==> Targets(rules.excludedCNs[i], batchId, d)
    {
    }
  }

  /** A sheet is known by its id, or by its name if that is blank; an exclusion may use its name anyway. */
  predicate SheetLeft(rules: Rules, id: string, name: string) {
    && !Listed(rules.excludedSheets, if Trim(id) == "" then name else id)
    && !Listed(rules.excludedSheets, name)
  }

  /** A matrix batch needs a detail that is left; a batch of another template is left without any. */
  predicate BatchLeft(rules: Rules, b: BatchPreview) {
    && SheetLeft(rules, b.sheetId, b.sheetName)
    && (b.template != "matrix" || exists j :: 0 <= j < |b.details| && Leaves(rules, b.id, b.details[j]))
  }

  lemma SurvivorsLeft(b: BatchPreview, rules: Rules)
    ensures FilteredBatch(b, rules).details == [] <==>
              forall j :: 0 <= j < |b.details| ==> !Leaves(rules, b.id, b.details[j])
  {
    hide Excluded, Correct, Leaves;
    var items := IdSet(rules.excludedItems);
    SurvivorsExact(b.id, b.details, rules.excludedCNs, items, UsableRules(rules.categoryRules));
    var at := KeptAt(b.id, b.details, rules.excludedCNs, items);
    forall j | 0 <= j < |b.details|
      ensures j in at <==> Leaves(rules, b.id, b.details[j])
    {
      ExcludedMeans(b.id, b.details[j], rules);
    }
    assert at != [] ==> at[0] in at;
  }

  lemma DroppedMeans(b: BatchPreview, rules: Rules)
    ensures Dropped(b, rules) <==> !BatchLeft(rules, b)
  {
    hide IdSet, FilteredBatch, Listed, Leaves;
    ListedIs(rules.excludedSheets, BatchKey(b));
    ListedIs(rules.excludedSheets, b.sheetName);
    SurvivorsLeft(b, rules);
  }

  /** The stored batches that are left, in order. */
  function BatchesLeft(rules: Rules, bs: seq<BatchPreview>): seq<BatchPreview> {
    if bs == [] then []
    else BatchesLeft(rules, bs[..|bs| - 1]) + if BatchLeft(rules, bs[|bs| - 1]) then [bs[|bs| - 1]] else []
  }

  lemma {:induction false} InBatchesLeft(rules: Rules, bs: seq<BatchPreview>, b: BatchPreview)
    ensures b in BatchesLeft(rules, bs) <==> b in bs && BatchLeft(rules, b)
  {
    hide BatchLeft;
    if bs != [] {
      var n := |bs| - 1;
      InBatchesLeft(rules, bs[..n], b);
      assert bs == bs[..n] + [bs[n]];
    }
  }

  /** What becomes of a batch that is left: its surviving details and their totals, and nothing else of it changes. */
  ghost predicate BatchBecomes(rules: Rules, b: BatchPreview, a: BatchPreview) {
    && a.details == Survivors(b.id, b.details, rules.excludedCNs, IdSet(rules.excludedItems),
                              UsableRules(rules.categoryRules))
    && BatchConsistent(a)
    && a == b.(details := a.details, cnCount := a.cnCount, itemTypeCount := a.itemTypeCount,
               totalQuantity := a.totalQuantity, tableAmount := a.tableAmount,
               calculatedAmount := a.calculatedAmount, difference := a.difference, contentHash := a.contentHash)
  }

  lemma RecalculatedBecomes(rules: Rules, b: BatchPreview)
    ensures BatchBecomes(rules, b, Recalculated(FilteredBatch(b, rules)))
  {
    hide Survivors, IdSet, UsableRules;
  }

  lemma {:induction false} KeptBecomes(bs: seq<BatchPreview>, rules: Rules)
    ensures var left, kept := BatchesLeft(rules, bs), KeptBatches(bs, rules);
            |kept| == |left| && forall i :: 0 <= i < |left| ==> BatchBecomes(rules, left[i], kept[i])
  {
    hide BatchLeft, Dropped, BatchBecomes, Recalculated, FilteredBatch;
    if bs != [] {
      var n := |bs| - 1;
      KeptBecomes(bs[..n], rules);
      DroppedMeans(bs[n], rules);
      RecalculatedBecomes(rules, bs[n]);
    }
  }

  /** A sheet is listed while it is not excluded and some batch of it is left. */
  predicate SheetListed(rules: Rules, left: seq<BatchPreview>, s: Sheet) {
    && SheetLeft(rules, s.id, s.name)
    && exists i :: 0 <= i < |left| && BatchKey(left[i]) == SheetKey(s.id, s.name)
  }

  function SheetsListed(rules: Rules, left: seq<BatchPreview>, sheets: seq<Sheet>): seq<Sheet> {
    if sheets == [] then []
    else
      var n := |sheets| - 1;
      SheetsListed(rules, left, sheets[..n]) + if SheetListed(rules, left, sheets[n]) then [sheets[n]] else []
  }

  predicate SheetBecomes(s: Sheet, a: Sheet, bs: seq<BatchPreview>) {
    && SheetConsistent(a, bs)
    && a == s.(batchCount := a.batchCount, tableAmount := a.tableAmount, calcAmount := a.calcAmount,
               difference := a.difference)
  }

  lemma SheetDroppedMeans(rules: Rules, left: seq<BatchPreview>, kept: seq<BatchPreview>, s: Sheet)
    requires |kept| == |left| && forall i :: 0 <= i < |left| ==> BatchBecomes(rules, left[i], kept[i])
    ensures SheetDropped(s, kept, rules) <==> !SheetListed(rules, left, s)
  {
    hide IdSet, Survivors, UsableRules, BatchConsistent, Listed;
    ListedIs(rules.excludedSheets, SheetKey(s.id, s.name));
    ListedIs(rules.excludedSheets, s.name);
    assert forall i :: 0 <= i < |left| ==> BatchKey(kept[i]) == BatchKey(left[i]);
    if SheetKey(s.id, s.name) in BatchKeys(kept) {
      var b :| b in kept && BatchKey(b) == SheetKey(s.id, s.name);
      var i :| 0 <= i < |kept| && kept[i] == b;
      assert BatchKey(left[i]) == SheetKey(s.id, s.name);
    }
  }

  lemma {:induction false} SheetsBecome(rules: Rules, left: seq<BatchPreview>, kept: seq<BatchPreview>,
                                        sheets: seq<Sheet>)
    requires |kept| == |left| && forall i :: 0 <= i < |left| ==> BatchBecomes(rules, left[i], kept[i])
    ensures var listed, shown := SheetsListed(rules, left, sheets), KeptSheets(sheets, kept, rules);
            |shown| == |listed| && forall i :: 0 <= i < |listed| ==> SheetBecomes(listed[i], shown[i], kept)
  {
    hide BatchBecomes, SheetListed, SheetDropped, SheetConsistent;
    if sheets != [] {
      var n := |sheets| - 1;
      SheetsBecome(rules, left, kept, sheets[..n]);
      SheetDroppedMeans(rules, left, kept, sheets[n]);
    }
  }

  // ---------- Which issues are left ----------

  function ErrorLists(bs: seq<BatchPreview>): seq<seq<Issue>> {
    seq(|bs|, i requires 0 <= i < |bs| => bs[i].errors)
  }

  function WarningLists(bs: seq<BatchPreview>): seq<seq<Issue>> {
    seq(|bs|, i requires 0 <= i < |bs| => bs[i].warnings)
  }

  function NoticeLists(bs: seq<BatchPreview>): seq<seq<Issue>> {
    seq(|bs|, i requires 0 <= i < |bs| => bs[i].notices)
  }

  lemma {:induction false} IssuesJoined(kept: seq<BatchPreview>)
    ensures AllErrors(kept) == Flatten(ErrorLists(kept))
    ensures AllWarnings(kept) == Flatten(WarningLists(kept))
    ensures AllNotices(kept) == Flatten(NoticeLists(kept))
  {
    if kept != [] {
      var n := |kept| - 1;
      IssuesJoined(kept[..n]);
      assert ErrorLists(kept)[..n] == ErrorLists(kept[..n]);
      assert WarningLists(kept)[..n] == WarningLists(kept[..n]);
      assert NoticeLists(kept)[..n] == NoticeLists(kept[..n]);
    }
  }

  lemma SameIssues(rules: Rules, left: seq<BatchPreview>, kept: seq<BatchPreview>)
    requires |kept| == |left| && forall i :: 0 <= i < |left| ==> BatchBecomes(rules, left[i], kept[i])
    ensures ErrorLists(kept) == ErrorLists(left) && WarningLists(kept) == WarningLists(left)
    ensures NoticeLists(kept) == NoticeLists(left)
  {
    hide Survivors, IdSet, UsableRules, BatchConsistent;
  }

  /** The rules apply exactly when no category is too long. Then the batches and sheets left are those
      of the stored preview that the rules leave, in order, with what the rules make of them; each
      list of issues is that list of the stored batches left, one after the other; and the rest stays. */
  lemma AdjustedExactly(p: Preview, rules: Rules)
    ensures Adjusted(p, rules) == None <==>
              exists i :: 0 <= i < |rules.categoryRules| && |Clean(rules.categoryRules[i].category)| > 40
    ensures Adjusted(p, rules).Some? ==>
              var a, left := Adjusted(p, rules).value, BatchesLeft(rules, p.batches);
              var listed := SheetsListed(rules, left, p.sheets);
              && |a.batches| == |left| && (forall i :: 0 <= i < |left| ==> BatchBecomes(rules, left[i], a.batches[i]))
              && |a.sheets| == |listed| == a.sheetCount
              && (forall i :: 0 <= i < |listed| ==> SheetBecomes(listed[i], a.sheets[i], a.batches))
              && a.errors == Flatten(ErrorLists(left)) && a.warnings == Flatten(WarningLists(left))
              && a.notices == Flatten(NoticeLists(left)) && a.fileHash == p.fileHash
  {
    hide BatchBecomes, SheetBecomes, SheetsListed, BatchesLeft, KeptBatches, KeptSheets, Flatten;
    var left, kept := BatchesLeft(rules, p.batches), KeptBatches(p.batches, rules);
    KeptBecomes(p.batches, rules);
    SheetsBecome(rules, left, kept, p.sheets);
    IssuesJoined(kept);
    SameIssues(rules, left, kept);
  }

  // ---------- What a corrected detail looks like ----------

  /** The rule has a category and concerns the detail: by the ids it lists, or else by sheet and batch. */
  predicate Concerns(r: CategoryRule, batchId: string, d: Detail) {
    && Clean(r.category) != ""
    && if r.detailIds + r.itemIds != [] then d.id in r.detailIds || d.id in r.itemIds
       else
         && (r.sheetId == "" || r.sheetId == d.sheetId || r.sheetId == d.sheetName)
         && (r.batchId == "" || r.batchId == batchId)
  }

  /** The category is that of the last rule that concerns the detail, or its own. */
  lemma {:induction false} CategoryMeans(batchId: string, d: Detail, rules: seq<CategoryRule>) returns (last: int)
    ensures -1 <= last < |rules|
    ensures CorrectedCategory(batchId, d, UsableRules(rules)) ==
              if last == -1 then d.category else Clean(rules[last].category)
    ensures last >= 0 ==> Concerns(rules[last], batchId, d)
    ensures forall j :: last < j < |rules| ==> !Concerns(rules[j], batchId, d)
  {
    hide Clean;
    if rules == [] {
      last := -1;
    } else {
      var n := |rules| - 1;
      var usable := UsableRules(rules);
      last := CategoryMeans(batchId, d, rules[..n]);
      assert forall j :: 0 <= j < n ==> rules[..n][j] == rules[j];
      if Clean(rules[n].category) != "" {
        assert usable[..|usable| - 1] == UsableRules(rules[..n]);
        assert RuleMatches(batchId, d, usable[|usable| - 1]) <==> Concerns(rules[n], batchId, d);
        if Concerns(rules[n], batchId, d) { last := n; }
      }
    }
  }

  /** A corrected detail differs in its category, which is also its product's, and in the name shown:
      the series and the category with a dash between them, or the one of them that there is. */
  lemma CorrectedMeans(batchId: string, d: Detail, rules: seq<CategoryRule>)
    ensures var c := Correct(batchId, d, rules);
            var series, kind := Clean(d.goodsSeries), Clean(c.category);
            && c == d.(category := c.category, productCategory := c.category, displayName := c.displayName)
            && c.category == CorrectedCategory(batchId, d, rules)
            && (kind == "" || kind == DEFAULT_CATEGORY ==> c.displayName == series)
            && (kind != "" && kind != DEFAULT_CATEGORY && series == "" ==> c.displayName == kind)
            && (kind != "" && kind != DEFAULT_CATEGORY && series != "" ==> c.displayName == series + "-" + kind)
  {}

  // ---------- What the totals and the hash tell apart ----------

  /** Two details stand in one row of the table. */
  predicate SameRow(d: Detail, e: Detail) {
    d.sheetName == e.sheetName && d.rowNumber == e.rowNumber && d.normalizedCN == e.normalizedCN
  }

  /** A detail adds its row's amount to the table's total exactly if it is the first of its row. */
  lemma TableTotalMeans(ds: seq<Detail>, d: Detail)
    ensures TableTotal(ds + [d]) ==
              TableTotal(ds) + if exists j :: 0 <= j < |ds| && SameRow(ds[j], d) then 0 else d.tableRowAmount
  {
    assert (ds + [d])[..|ds|] == ds;
    forall j | 0 <= j < |ds| && SameRow(ds[j], d) ensures KeyOfRow(d) in RowKeys(ds) {
      assert KeyOfRow(ds[j]) == KeyOfRow(d);
    }
  }

  /** Two details are of one item type. */
  predicate SameType(d: Detail, e: Detail) {
    && d.category == e.category && d.itemName == e.itemName && d.columnName == e.columnName
    && d.priceType == e.priceType && d.unitPrice == e.unitPrice
  }

  lemma TypeSeen(ds: seq<Detail>, d: Detail)
    ensures TypeOf(d) in Types(ds) <==> exists j :: 0 <= j < |ds| && SameType(ds[j], d)
  {
    forall j | 0 <= j < |ds| && SameType(ds[j], d) ensures TypeOf(d) in Types(ds) {
      assert TypeOf(ds[j]) == TypeOf(d);
    }
  }

  lemma TypesSnoc(ds: seq<Detail>, d: Detail)
    ensures Types(ds + [d]) == Types(ds) + {TypeOf(d)}
  {
    hide TypeOf;
  }

  lemma CNsSnoc(ds: seq<Detail>, d: Detail)
    ensures CNs(ds + [d]) == CNs(ds) + {d.normalizedCN}
    ensures d.normalizedCN in CNs(ds) <==> exists j :: 0 <= j < |ds| && ds[j].normalizedCN == d.normalizedCN
  {}

  lemma AddSize<T>(s: set<T>, x: T)
    ensures |s + {x}| == |s| + if x in s then 0 else 1
  {
    if x in s { assert s + {x} == s; }
  }

  /** A detail raises the number of types exactly if no other before it is of its type, and the number
      of CNs exactly if none before it has its CN. */
  lemma CountsMean(ds: seq<Detail>, d: Detail)
    ensures |Types(ds + [d])| == |Types(ds)| + if exists j :: 0 <= j < |ds| && SameType(ds[j], d) then 0 else 1
    ensures |CNs(ds + [d])| ==
              |CNs(ds)| + if exists j :: 0 <= j < |ds| && ds[j].normalizedCN == d.normalizedCN then 0 else 1
  {
    hide SameType, TypeOf, Types, CNs;
    TypeSeen(ds, d);
    TypesSnoc(ds, d);
    CNsSnoc(ds, d);
    AddSize(Types(ds), TypeOf(d));
    AddSize(CNs(ds), d.normalizedCN);
  }

  /** The content of two details is the same. */
  predicate SameContent(d: Detail, e: Detail) {
    && d.normalizedCN == e.normalizedCN && d.goodsSeries == e.goodsSeries && d.productCategory == e.productCategory
    && d.seriesCode == e.seriesCode && d.displayName == e.displayName && d.characterName == e.characterName
    && d.category == e.category && d.itemName == e.itemName && d.columnIndex == e.columnIndex
    && d.rowNumber == e.rowNumber && d.quantity == e.quantity && d.unitPrice == e.unitPrice
  }

  /** Two batches have one content hash exactly if their sheet, name, template, rows and price type agree
      and their details have the same content, one by one. */
  lemma HashMeans(b: BatchPreview, c: BatchPreview)
    ensures HashOf(b) == HashOf(c) <==>
              && b.sheetName == c.sheetName && b.batchName == c.batchName && b.template == c.template
              && b.startRow == c.startRow && b.endRow == c.endRow && b.calculationPriceType == c.calculationPriceType
              && |b.details| == |c.details|
              && forall i :: 0 <= i < |b.details| ==> SameContent(b.details[i], c.details[i])
  {
    if HashOf(b) == HashOf(c) {
      forall i | 0 <= i < |b.details| ensures SameContent(b.details[i], c.details[i]) {
        assert HashOf(b).details[i] == Print(b.details[i]) && HashOf(c).details[i] == Print(c.details[i]);
      }
    }
  }
}
