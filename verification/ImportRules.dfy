/** Import adjustment rules (backend/internal/importpreview/rules.go): excluded
    sheets, CNs and items are dropped from a preview, categories are corrected,
    and every batch and sheet total is recomputed. */
module ImportRules {
  import opened Text

  const TEMPLATE_MATRIX := "matrix"
  const DEFAULT_CATEGORY := "\U{9ED8}\U{8BA4}\U{5206}\U{7C7B}"
  const MAX_CATEGORY_LENGTH := 40

  datatype Level = Notice | Warning | RowError | FatalError
  datatype Issue = Issue(level: Level, message: string)

  datatype Detail = Detail(
    id: string, sheetId: string, sheetName: string,
    goodsSeries: string, productCategory: string, seriesCode: string, groupName: string,
    displayName: string, characterName: string, category: string, itemName: string,
    columnName: string, columnIndex: int, rowNumber: int,
    originalCN: string, normalizedCN: string,
    quantity: int, priceType: string, unitPrice: int, amount: int, tableRowAmount: int)

  /** The parts of a detail that enter a batch's content hash. */
  datatype DetailPrint = DetailPrint(
    normalizedCN: string, goodsSeries: string, productCategory: string, seriesCode: string, displayName: string,
    characterName: string, category: string, itemName: string, columnIndex: int, rowNumber: int, quantity: int,
    unitPrice: int)

  /** SHA-256 is taken to be injective: a hash is the list of its parts. */
  datatype ContentHash = ContentHash(
    sheetName: string, batchName: string, template: string, startRow: int, endRow: int, calculationPriceType: string,
    details: seq<DetailPrint>)

  datatype ItemType = ItemType(category: string, itemName: string, columnName: string, priceType: string,
                               unitPrice: int)
  datatype RowKey = RowKey(sheetName: string, rowNumber: int, normalizedCN: string)

  datatype BatchPreview = BatchPreview(
    id: string, sheetId: string, sheetName: string, sheetTitle: string, batchName: string, template: string,
    startRow: int, endRow: int, calculationPriceType: string,
    contentHash: ContentHash,
    cnCount: int, itemTypeCount: int, totalQuantity: int,
    tableAmount: int, calculatedAmount: int, difference: int,
    details: seq<Detail>, errors: seq<Issue>, warnings: seq<Issue>, notices: seq<Issue>)

  datatype Sheet = Sheet(id: string, name: string, batchCount: int, tableAmount: int, calcAmount: int, difference: int)

  datatype Preview = Preview(
    fileHash: string, sheetCount: int, sheets: seq<Sheet>, batches: seq<BatchPreview>,
    errors: seq<Issue>, warnings: seq<Issue>, notices: seq<Issue>)

  datatype CNExclusion = CNExclusion(sheetId: string, batchId: string, cn: string)
  datatype CategoryRule = CategoryRule(sheetId: string, batchId: string, detailIds: seq<string>, itemIds: seq<string>,
                                       category: string)
  datatype Rules = Rules(
    excludedSheets: seq<string>, excludedCNs: seq<CNExclusion>, excludedItems: seq<string>,
      categoryRules: seq<CategoryRule>)

  // ---------- What the rules say about one detail ----------

  function SheetKey(id: string, name: string): string {
    if Trim(id) != "" then id else name
  }

  predicate SheetMatches(ruleSheet: string, sheetId: string, sheetName: string) {
    ruleSheet == "" || ruleSheet == sheetId || ruleSheet == sheetName
  }

  /** The non-blank identifiers of a list, trimmed. */
  function IdSet(ids: seq<string>): set<string> {
    set id | id in ids && Trim(id) != "" :: Trim(id)
  }

  predicate ExclusionMatches(batchId: string, d: Detail, rule: CNExclusion) {
    && FoldCN(rule.cn) != "" && FoldCN(rule.cn) == d.normalizedCN
    && SheetMatches(rule.sheetId, d.sheetId, d.sheetName)
    && (rule.batchId == "" || rule.batchId == batchId)
  }

  predicate CNExcluded(batchId: string, d: Detail, exclusions: seq<CNExclusion>) {
    exists i :: 0 <= i < |exclusions| && ExclusionMatches(batchId, d, exclusions[i])
  }

  /** A detail is excluded by its id, or by some CN exclusion that matches it. */
  predicate Excluded(batchId: string, d: Detail, exclusions: seq<CNExclusion>, items: set<string>) {
    d.id in items || CNExcluded(batchId, d, exclusions)
  }

  /** The rules that count: a blank category is ignored, detail and item ids are one list. */
  function UsableRules(rules: seq<CategoryRule>): seq<CategoryRule> {
    if rules == [] then []
    else
      var r := rules[|rules| - 1];
      var rest := UsableRules(rules[..|rules| - 1]);
      if Clean(r.category) == "" then rest
      else rest + [r.(category := Clean(r.category), detailIds := r.detailIds + r.itemIds)]
  }

  predicate TooLong(rules: seq<CategoryRule>) {
    exists i :: 0 <= i < |rules| && |Clean(rules[i].category)| > MAX_CATEGORY_LENGTH
  }

  predicate RuleMatches(batchId: string, d: Detail, rule: CategoryRule) {
    if |rule.detailIds| > 0 then d.id in rule.detailIds
    else SheetMatches(rule.sheetId, d.sheetId, d.sheetName) && (rule.batchId == "" || rule.batchId == batchId)
  }

  /** The category of the last rule that matches, or the detail's own. */
  function CorrectedCategory(batchId: string, d: Detail, rules: seq<CategoryRule>): string {
    if rules == [] then d.category
    else if RuleMatches(batchId, d, rules[|rules| - 1]) then rules[|rules| - 1].category
    else CorrectedCategory(batchId, d, rules[..|rules| - 1])
  }

  function GoodsDisplayName(series: string, category: string): string {
    var name := Clean(series);
    var kind := Clean(category);
    if kind == "" || kind == DEFAULT_CATEGORY then name
    else if name == "" then kind
    else name + "-" + kind
  }

  function Correct(batchId: string, d: Detail, rules: seq<CategoryRule>): Detail {
    var category := CorrectedCategory(batchId, d, rules);
    d.(category := category, productCategory := category, displayName := GoodsDisplayName(d.goodsSeries, category))
  }

  /** The surviving details of a batch, in order and corrected. */
  function Survivors(batchId: string, ds: seq<Detail>, exclusions: seq<CNExclusion>, items: set<string>,
                     rules: seq<CategoryRule>): (r: seq<Detail>)
    ensures |r| <= |ds|
  {
    if ds == [] then []
    else
      var rest := Survivors(batchId, ds[..|ds| - 1], exclusions, items, rules);
      var d := ds[|ds| - 1];
      if Excluded(batchId, d, exclusions, items) then rest else rest + [Correct(batchId, d, rules)]
  }

  // ---------- Totals ----------

  function SumQuantity(ds: seq<Detail>): int {
    if ds == [] then 0 else SumQuantity(ds[..|ds| - 1]) + ds[|ds| - 1].quantity
  }

  function SumAmount(ds: seq<Detail>): int {
    if ds == [] then 0 else SumAmount(ds[..|ds| - 1]) + ds[|ds| - 1].amount
  }

  function KeyOfRow(d: Detail): RowKey {
    RowKey(d.sheetName, d.rowNumber, d.normalizedCN)
  }

  function TypeOf(d: Detail): ItemType {
    ItemType(d.category, d.itemName, d.columnName, d.priceType, d.unitPrice)
  }

  function RowKeys(ds: seq<Detail>): set<RowKey> { set d | d in ds :: KeyOfRow(d) }

  function CNs(ds: seq<Detail>): set<string> { set d | d in ds :: d.normalizedCN }

  function Types(ds: seq<Detail>): set<ItemType> { set d | d in ds :: TypeOf(d) }

  /** The table's own total: each (sheet, row, CN) counts once, with the amount of its first detail. */
  function TableTotal(ds: seq<Detail>): int {
    if ds == [] then 0
    else
      var n := |ds| - 1;
      TableTotal(ds[..n]) + (if KeyOfRow(ds[n]) in RowKeys(ds[..n]) then 0 else ds[n].tableRowAmount)
  }

  function Print(d: Detail): DetailPrint {
    DetailPrint(d.normalizedCN, d.goodsSeries, d.productCategory, d.seriesCode, d.displayName,
                d.characterName, d.category, d.itemName, d.columnIndex, d.rowNumber, d.quantity, d.unitPrice)
  }

  function HashOf(b: BatchPreview): ContentHash {
    ContentHash(b.sheetName, b.batchName, b.template, b.startRow, b.endRow, b.calculationPriceType,
                seq(|b.details|, i requires 0 <= i < |b.details| => Print(b.details[i])))
  }

  /** What it means for a batch's totals to describe its details. */
  ghost predicate BatchConsistent(b: BatchPreview) {
    && b.cnCount == |CNs(b.details)|
    && b.itemTypeCount == |Types(b.details)|
    && b.totalQuantity == SumQuantity(b.details)
    && b.calculatedAmount == SumAmount(b.details)
    && b.tableAmount == TableTotal(b.details)
    && b.difference == b.tableAmount - b.calculatedAmount
    && b.contentHash == HashOf(b)
  }

  ghost function Recalculated(b: BatchPreview): (r: BatchPreview)
    ensures BatchConsistent(r)
    ensures r.details == b.details && r.id == b.id && r.sheetId == b.sheetId && r.sheetName == b.sheetName
  {
    var table, calculated := TableTotal(b.details), SumAmount(b.details);
    b.(cnCount := |CNs(b.details)|,
       itemTypeCount := |Types(b.details)|,
       totalQuantity := SumQuantity(b.details),
       tableAmount := table, calculatedAmount := calculated, difference := table - calculated,
       contentHash := HashOf(b))
  }

  function BatchKey(b: BatchPreview): string { SheetKey(b.sheetId, b.sheetName) }

  function BatchKeys(bs: seq<BatchPreview>): set<string> { set b | b in bs :: BatchKey(b) }

  function BatchesOf(key: string, bs: seq<BatchPreview>): seq<BatchPreview> {
    if bs == [] then []
    else
      var rest := BatchesOf(key, bs[..|bs| - 1]);
      if BatchKey(bs[|bs| - 1]) == key then rest + [bs[|bs| - 1]] else rest
  }

  function SumTable(bs: seq<BatchPreview>): int {
    if bs == [] then 0 else SumTable(bs[..|bs| - 1]) + bs[|bs| - 1].tableAmount
  }

  function SumCalculated(bs: seq<BatchPreview>): int {
    if bs == [] then 0 else SumCalculated(bs[..|bs| - 1]) + bs[|bs| - 1].calculatedAmount
  }

  /** A sheet's totals add up the batches listed under its key. */
  predicate SheetConsistent(s: Sheet, bs: seq<BatchPreview>) {
    var own := BatchesOf(SheetKey(s.id, s.name), bs);
    && s.batchCount == |own|
    && s.tableAmount == SumTable(own) && s.calcAmount == SumCalculated(own)
    && s.difference == s.tableAmount - s.calcAmount
  }

  function RecalculatedSheet(s: Sheet, bs: seq<BatchPreview>): (r: Sheet)
    ensures SheetConsistent(r, bs) && r.id == s.id && r.name == s.name
  {
    var own := BatchesOf(SheetKey(s.id, s.name), bs);
    s.(batchCount := |own|, tableAmount := SumTable(own), calcAmount := SumCalculated(own),
       difference := SumTable(own) - SumCalculated(own))
  }

  // ---------- The whole preview ----------

  predicate BatchHidden(b: BatchPreview, excluded: set<string>) {
    BatchKey(b) in excluded || b.sheetName in excluded
  }

  function FilteredBatch(b: BatchPreview, rules: Rules): BatchPreview {
    b.(details := Survivors(b.id, b.details, rules.excludedCNs, IdSet(rules.excludedItems),
                            UsableRules(rules.categoryRules)))
  }

  predicate Dropped(b: BatchPreview, rules: Rules) {
    BatchHidden(b, IdSet(rules.excludedSheets))
      || (FilteredBatch(b, rules).details == [] && b.template == TEMPLATE_MATRIX)
  }

  ghost function KeptBatches(bs: seq<BatchPreview>, rules: Rules): seq<BatchPreview> {
    if bs == [] then []
    else
      var b := bs[|bs| - 1];
      var rest := KeptBatches(bs[..|bs| - 1], rules);
      if Dropped(b, rules) then rest else rest + [Recalculated(FilteredBatch(b, rules))]
  }

  predicate SheetDropped(s: Sheet, kept: seq<BatchPreview>, rules: Rules) {
    var key := SheetKey(s.id, s.name);
    key in IdSet(rules.excludedSheets) || s.name in IdSet(rules.excludedSheets) || key !in BatchKeys(kept)
  }

  function KeptSheets(sheets: seq<Sheet>, kept: seq<BatchPreview>, rules: Rules): seq<Sheet> {
    if sheets == [] then []
    else
      var s := sheets[|sheets| - 1];
      var rest := KeptSheets(sheets[..|sheets| - 1], kept, rules);
      if SheetDropped(s, kept, rules) then rest else rest + [RecalculatedSheet(s, kept)]
  }

  function AllErrors(bs: seq<BatchPreview>): seq<Issue> {
    if bs == [] then [] else AllErrors(bs[..|bs| - 1]) + bs[|bs| - 1].errors
  }

  function AllWarnings(bs: seq<BatchPreview>): seq<Issue> {
    if bs == [] then [] else AllWarnings(bs[..|bs| - 1]) + bs[|bs| - 1].warnings
  }

  function AllNotices(bs: seq<BatchPreview>): seq<Issue> {
    if bs == [] then [] else AllNotices(bs[..|bs| - 1]) + bs[|bs| - 1].notices
  }

  /** The adjusted preview, or None when a corrected category is too long. */
  ghost function Adjusted(p: Preview, rules: Rules): Option<Preview> {
    if TooLong(rules.categoryRules) then None
    else
      var kept := KeptBatches(p.batches, rules);
      var sheets := KeptSheets(p.sheets, kept, rules);
      Some(p.(batches := kept, sheets := sheets, sheetCount := |sheets|,
              errors := AllErrors(kept), warnings := AllWarnings(kept), notices := AllNotices(kept)))
  }

  // ---------- Properties ----------

  /** The positions of the details that no rule excludes, in increasing order. */
  ghost function KeptAt(batchId: string, ds: seq<Detail>, ex: seq<CNExclusion>, items: set<string>): (at: seq<nat>)
    ensures forall i :: i in at <==> 0 <= i < |ds| && !Excluded(batchId, ds[i], ex, items)
    ensures forall j, k :: 0 <= j < k < |at| ==> at[j] < at[k]
  {
    if ds == [] then []
    else
      var n := |ds| - 1;
      assert forall i :: 0 <= i < n ==> ds[..n][i] == ds[i];
      var rest := KeptAt(batchId, ds[..n], ex, items);
      assert forall j :: 0 <= j < |rest| ==> rest[j] in rest;
      if Excluded(batchId, ds[n], ex, items) then rest else rest + [n]
  }

  /** The survivors are the images, in order, of exactly the details that no rule excludes. */
  lemma {:induction false} SurvivorsExact(batchId: string, ds: seq<Detail>, ex: seq<CNExclusion>, items: set<string>,
                                          rules: seq<CategoryRule>)
    ensures var at := KeptAt(batchId, ds, ex, items);
            var kept := Survivors(batchId, ds, ex, items, rules);
            |kept| == |at| && forall j :: 0 <= j < |at| ==> at[j] in at && kept[j] == Correct(batchId, ds[at[j]], rules)
  {
    hide Correct, Excluded;
    if ds != [] {
      var n := |ds| - 1;
      SurvivorsExact(batchId, ds[..n], ex, items, rules);
      var at, rest := KeptAt(batchId, ds, ex, items), KeptAt(batchId, ds[..n], ex, items);
      forall j | 0 <= j < |at|
        ensures at[j] in at && Survivors(batchId, ds, ex, items, rules)[j] == Correct(batchId, ds[at[j]], rules)
      {
        if j < |rest| { assert rest[j] in rest && ds[..n][rest[j]] == ds[rest[j]]; }
      }
    }
  }

  /** The corrected category is the one of the last matching rule, or the detail's own. */
  lemma {:induction false} LastRuleWins(batchId: string, d: Detail, rules: seq<CategoryRule>) returns (last: int)
    ensures -1 <= last < |rules|
    ensures last == -1 ==> CorrectedCategory(batchId, d, rules) == d.category
    ensures last >= 0 ==>
              RuleMatches(batchId, d, rules[last]) && CorrectedCategory(batchId, d, rules) == rules[last].category
    ensures forall j :: last < j < |rules| ==> !RuleMatches(batchId, d, rules[j])
  {
    if rules == [] {
      last := -1;
    } else if RuleMatches(batchId, d, rules[|rules| - 1]) {
      last := |rules| - 1;
    } else {
      last := LastRuleWins(batchId, d, rules[..|rules| - 1]);
      assert forall j :: 0 <= j < |rules| - 1 ==> rules[..|rules| - 1][j] == rules[j];
    }
  }

  lemma {:induction false} CategoryTwice(batchId: string, d: Detail, c: Detail, rules: seq<CategoryRule>)
    requires c.id == d.id && c.sheetId == d.sheetId && c.sheetName == d.sheetName
    requires c.category == d.category || c.category == CorrectedCategory(batchId, d, rules)
    ensures CorrectedCategory(batchId, c, rules) == CorrectedCategory(batchId, d, rules)
         || (CorrectedCategory(batchId, c, rules) == c.category)
  {
    if rules != [] && !RuleMatches(batchId, d, rules[|rules| - 1]) {
      CategoryTwice(batchId, d, c, rules[..|rules| - 1]);
    }
  }

  lemma {:induction false} CorrectTwice(batchId: string, d: Detail, rules: seq<CategoryRule>)
    ensures Correct(batchId, Correct(batchId, d, rules), rules) == Correct(batchId, d, rules)
  {
    CategoryTwice(batchId, d, Correct(batchId, d, rules), rules);
  }

  lemma ExclusionIgnoresCategory(batchId: string, d: Detail, c: Detail, ex: seq<CNExclusion>, items: set<string>)
    requires c.id == d.id && c.sheetId == d.sheetId && c.sheetName == d.sheetName && c.normalizedCN == d.normalizedCN
    ensures Excluded(batchId, d, ex, items) <==> Excluded(batchId, c, ex, items)
  {
    forall i | 0 <= i < |ex| ensures ExclusionMatches(batchId, d, ex[i]) <==> ExclusionMatches(batchId, c, ex[i]) {}
  }

  lemma {:induction false} SurvivorsTwice(batchId: string, ds: seq<Detail>, ex: seq<CNExclusion>, items: set<string>,
                                          rules: seq<CategoryRule>)
    ensures var once := Survivors(batchId, ds, ex, items, rules);
            Survivors(batchId, once, ex, items, rules) == once
  {
    if ds != [] {
      var n := |ds| - 1;
      SurvivorsTwice(batchId, ds[..n], ex, items, rules);
      if !Excluded(batchId, ds[n], ex, items) {
        var once := Survivors(batchId, ds, ex, items, rules);
        var m := |once| - 1;
        assert once[..m] == Survivors(batchId, ds[..n], ex, items, rules);
        CorrectTwice(batchId, ds[n], rules);
        ExclusionIgnoresCategory(batchId, ds[n], once[m], ex, items);
      }
    }
  }

  lemma {:induction false} KeptTwice(bs: seq<BatchPreview>, rules: Rules)
    ensures KeptBatches(KeptBatches(bs, rules), rules) == KeptBatches(bs, rules)
  {
    if bs != [] {
      var n := |bs| - 1;
      KeptTwice(bs[..n], rules);
      var b := bs[n];
      if !Dropped(b, rules) {
        var kept := KeptBatches(bs, rules);
        var m := |kept| - 1;
        assert kept[..m] == KeptBatches(bs[..n], rules);
        SurvivorsTwice(b.id, b.details, rules.excludedCNs, IdSet(rules.excludedItems),
                       UsableRules(rules.categoryRules));
        assert FilteredBatch(kept[m], rules) == kept[m];
        assert Recalculated(kept[m]) == kept[m];
      }
    }
  }

  lemma {:induction false} KeptSheetsTwice(sheets: seq<Sheet>, kept: seq<BatchPreview>, rules: Rules)
    ensures KeptSheets(KeptSheets(sheets, kept, rules), kept, rules) == KeptSheets(sheets, kept, rules)
  {
    if sheets != [] {
      var n := |sheets| - 1;
      KeptSheetsTwice(sheets[..n], kept, rules);
      if !SheetDropped(sheets[n], kept, rules) {
        var once := KeptSheets(sheets, kept, rules);
        var m := |once| - 1;
        assert once[..m] == KeptSheets(sheets[..n], kept, rules);
        assert RecalculatedSheet(once[m], kept) == once[m];
      }
    }
  }

  /** Applying the same rules to an adjusted preview changes nothing. */
  lemma ApplyTwice(p: Preview, rules: Rules)
    requires Adjusted(p, rules).Some?
    ensures Adjusted(Adjusted(p, rules).value, rules) == Adjusted(p, rules)
  {
    KeptTwice(p.batches, rules);
    KeptSheetsTwice(p.sheets, KeptBatches(p.batches, rules), rules);
  }

  lemma {:induction false} KeptConsistent(bs: seq<BatchPreview>, rules: Rules)
    ensures forall b :: b in KeptBatches(bs, rules) ==> BatchConsistent(b)
  {
    if bs != [] {
      KeptConsistent(bs[..|bs| - 1], rules);
    }
  }

  lemma {:induction false} KeptSheetsConsistent(sheets: seq<Sheet>, kept: seq<BatchPreview>, rules: Rules)
    ensures forall s :: s in KeptSheets(sheets, kept, rules) ==> SheetConsistent(s, kept)
  {
    if sheets != [] {
      KeptSheetsConsistent(sheets[..|sheets| - 1], kept, rules);
    }
  }

  /** Every total in an adjusted preview describes the survivors it is shown with. */
  lemma AdjustedConsistent(p: Preview, rules: Rules)
    requires Adjusted(p, rules).Some?
    ensures var a := Adjusted(p, rules).value;
            && (forall b :: b in a.batches ==> BatchConsistent(b))
            && (forall s :: s in a.sheets ==> SheetConsistent(s, a.batches))
            && a.sheetCount == |a.sheets|
  {
    KeptConsistent(p.batches, rules);
    KeptSheetsConsistent(p.sheets, KeptBatches(p.batches, rules), rules);
  }
}
