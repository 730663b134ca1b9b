/** The loops of rules.go, proved against the functions of ImportRules. */
module ImportRulesApply {
  import opened Text
  import opened ImportRules

  ghost function MapSum(m: map<RowKey, int>): int
    decreases |m|
  {
    if m == map[] then 0
    else
      var k :| k in m;
      m[k] + MapSum(m - {k})
  }

  /** The sum over a map does not depend on the order in which keys are taken out. */
  lemma {:induction false} MapSumRemove(m: map<RowKey, int>, k: RowKey)
    requires k in m
    ensures MapSum(m) == m[k] + MapSum(m - {k})
    decreases |m|
  {
    var c :| c in m && MapSum(m) == m[c] + MapSum(m - {c});
    if c != k {
      MapSumRemove(m - {c}, k);
      MapSumRemove(m - {k}, c);
      assert m - {c} - {k} == m - {k} - {c};
    }
  }

  lemma MapSumAdd(m: map<RowKey, int>, k: RowKey, v: int)
    requires k !in m
    ensures MapSum(m[k := v]) == MapSum(m) + v
  {
    MapSumRemove(m[k := v], k);
    assert m[k := v] - {k} == m;
  }

  lemma OneMore(ds: seq<Detail>, i: nat)
    requires i < |ds|
    ensures CNs(ds[..i + 1]) == CNs(ds[..i]) + {ds[i].normalizedCN}
    ensures Types(ds[..i + 1]) == Types(ds[..i]) + {TypeOf(ds[i])}
    ensures RowKeys(ds[..i + 1]) == RowKeys(ds[..i]) + {KeyOfRow(ds[i])}
    ensures SumQuantity(ds[..i + 1]) == SumQuantity(ds[..i]) + ds[i].quantity
    ensures SumAmount(ds[..i + 1]) == SumAmount(ds[..i]) + ds[i].amount
    ensures TableTotal(ds[..i + 1]) == TableTotal(ds[..i]) +
              if KeyOfRow(ds[i]) in RowKeys(ds[..i]) then 0 else ds[i].tableRowAmount
  {
    assert ds[..i + 1] == ds[..i] + [ds[i]] && ds[..i + 1][..i] == ds[..i];
  }

  method TrimmedIds(ids: seq<string>) returns (r: set<string>)
    ensures r == IdSet(ids)
  {
    r := {};
    for i := 0 to |ids|
      invariant r == IdSet(ids[..i])
    {
      var id := Trim(ids[i]);
      assert ids[..i + 1] == ids[..i] + [ids[i]];
      if id != "" {
        r := r + {id};
      }
    }
    assert ids[..|ids|] == ids;
  }

  method CollectRules(rules: seq<CategoryRule>) returns (r: Option<seq<CategoryRule>>)
    ensures r == if TooLong(rules) then None else Some(UsableRules(rules))
  {
    var usable: seq<CategoryRule> := [];
    for i := 0 to |rules|
      invariant usable == UsableRules(rules[..i])
      invariant forall j :: 0 <= j < i ==> |Clean(rules[j].category)| <= MAX_CATEGORY_LENGTH
    {
      var category := Clean(rules[i].category);
      assert rules[..i + 1][..i] == rules[..i];
      if category == "" {
        continue;
      }
      if |category| > MAX_CATEGORY_LENGTH {
        return None;
      }
      usable := usable + [rules[i].(category := category, detailIds := rules[i].detailIds + rules[i].itemIds)];
    }
    assert rules[..|rules|] == rules;
    return Some(usable);
  }

  method ShouldExclude(batchId: string, d: Detail, exclusions: seq<CNExclusion>) returns (r: bool)
    ensures r <==> CNExcluded(batchId, d, exclusions)
  {
    for i := 0 to |exclusions|
      invariant forall j :: 0 <= j < i ==> !ExclusionMatches(batchId, d, exclusions[j])
    {
      var rule := exclusions[i];
      var cn := FoldCN(rule.cn);
      if cn == "" || cn != d.normalizedCN {
        continue;
      }
      if !SheetMatches(rule.sheetId, d.sheetId, d.sheetName) {
        continue;
      }
      if rule.batchId != "" && rule.batchId != batchId {
        continue;
      }
      assert ExclusionMatches(batchId, d, exclusions[i]);
      return true;
    }
    return false;
  }

  method CategoryFor(batchId: string, d: Detail, rules: seq<CategoryRule>) returns (category: string)
    ensures category == CorrectedCategory(batchId, d, rules)
  {
    category := d.category;
    for i := 0 to |rules|
      invariant category == CorrectedCategory(batchId, d, rules[..i])
    {
      var rule := rules[i];
      assert rules[..i + 1][..i] == rules[..i];
      if |rule.detailIds| > 0 && d.id !in rule.detailIds {
        continue;
      }
      if |rule.detailIds| == 0 {
        if !SheetMatches(rule.sheetId, d.sheetId, d.sheetName) {
          continue;
        }
        if rule.batchId != "" && rule.batchId != batchId {
          continue;
        }
      }
      category := rule.category;
    }
    assert rules[..|rules|] == rules;
  }

  lemma SurvivorsNone(batchId: string, ds: seq<Detail>, ex: seq<CNExclusion>, items: set<string>,
                      rules: seq<CategoryRule>)
    ensures Survivors(batchId, ds[..0], ex, items, rules) == []
  {}

  lemma SurvivorsStep(batchId: string, ds: seq<Detail>, i: nat, ex: seq<CNExclusion>, items: set<string>,
                      rules: seq<CategoryRule>)
    requires i < |ds|
    ensures Survivors(batchId, ds[..i + 1], ex, items, rules)
         == Survivors(batchId, ds[..i], ex, items, rules) +
           if Excluded(batchId, ds[i], ex, items) then [] else [Correct(batchId, ds[i], rules)]
  {
    assert ds[..i + 1][..i] == ds[..i];
  }

  /** The compaction: survivors are written to the front of the very array the loop
      is still reading.  The write position never overtakes the read position. */
  method CompactDetails(batchId: string, details: array<Detail>, exclusions: seq<CNExclusion>, items: set<string>,
                        rules: seq<CategoryRule>)
    returns (kept: nat)
    modifies details
    ensures kept <= details.Length
    ensures details[..kept] == Survivors(batchId, old(details[..]), exclusions, items, rules)
    ensures details[kept..] == old(details[kept..])
  {
    hide Survivors;
    kept := 0;
    ghost var before := details[..];
    SurvivorsNone(batchId, before, exclusions, items, rules);
    for i := 0 to details.Length
      invariant kept <= i
      invariant details[..kept] == Survivors(batchId, before[..i], exclusions, items, rules)
      invariant details[kept..] == before[kept..]
    {
      var detail := details[i];
      assert detail == details[kept..][i - kept] == before[i];
      SurvivorsStep(batchId, before, i, exclusions, items, rules);
      var excluded := ShouldExclude(batchId, detail, exclusions);
      if detail.id in items || excluded {
        continue;
      }
      var category := CategoryFor(batchId, detail, rules);
      ghost var front, back := details[..kept], details[kept..];
      details[kept] := detail.(category := category, productCategory := category,
                               displayName := GoodsDisplayName(detail.goodsSeries, category));
      assert details[..kept + 1] == front + [Correct(batchId, detail, rules)];
      assert details[kept + 1..] == back[1..] == before[kept + 1..];
      kept := kept + 1;
    }
    assert before[..details.Length] == before;
  }

  method SumRows(rowAmounts: map<RowKey, int>) returns (table: int)
    ensures table == MapSum(rowAmounts)
  {
    table := 0;
    var rest := rowAmounts;
    while rest != map[]
      invariant table + MapSum(rest) == MapSum(rowAmounts)
      decreases |rest|
    {
      var key :| key in rest;
      MapSumRemove(rest, key);
      table := table + rest[key];
      rest := rest - {key};
    }
  }

  lemma NoneYet(ds: seq<Detail>)
    ensures CNs(ds[..0]) == {} && Types(ds[..0]) == {} && RowKeys(ds[..0]) == {}
    ensures SumQuantity(ds[..0]) == 0 && SumAmount(ds[..0]) == 0 && TableTotal(ds[..0]) == 0
    ensures MapSum(map[]) == 0
  {}

  method RecalculateBatch(b: BatchPreview) returns (r: BatchPreview)
    ensures r == Recalculated(b)
  {
    hide CNs, Types, RowKeys, SumQuantity, SumAmount, TableTotal, MapSum;
    NoneYet(b.details);
    var cns: set<string> := {};
    var types: set<ItemType> := {};
    var rowAmounts: map<RowKey, int> := map[];
    var quantity, calculated := 0, 0;
    var ds := b.details;
    for i := 0 to |ds|
      invariant cns == CNs(ds[..i]) && types == Types(ds[..i]) && rowAmounts.Keys == RowKeys(ds[..i])
      invariant quantity == SumQuantity(ds[..i]) && calculated == SumAmount(ds[..i])
      invariant MapSum(rowAmounts) == TableTotal(ds[..i])
    {
      var detail := ds[i];
      OneMore(ds, i);
      cns := cns + {detail.normalizedCN};
      types := types + {TypeOf(detail)};
      quantity := quantity + detail.quantity;
      calculated := calculated + detail.amount;
      var key := KeyOfRow(detail);
      if key !in rowAmounts {
        MapSumAdd(rowAmounts, key, detail.tableRowAmount);
        rowAmounts := rowAmounts[key := detail.tableRowAmount];
      }
    }
    assert ds[..|ds|] == ds;
    var table := SumRows(rowAmounts);
    r := b.(cnCount := |cns|, itemTypeCount := |types|, totalQuantity := quantity,
            tableAmount := table, calculatedAmount := calculated, difference := table - calculated);
    r := r.(contentHash := HashOf(r));
  }

  method RecalculateSheet(s: Sheet, bs: seq<BatchPreview>) returns (r: Sheet)
    ensures r == RecalculatedSheet(s, bs)
  {
    var key := SheetKey(s.id, s.name);
    var count, table, total := 0, 0, 0;
    for i := 0 to |bs|
      invariant count == |BatchesOf(key, bs[..i])|
      invariant table == SumTable(BatchesOf(key, bs[..i])) && total == SumCalculated(BatchesOf(key, bs[..i]))
    {
      assert bs[..i + 1][..i] == bs[..i];
      if BatchKey(bs[i]) != key {
        continue;
      }
      ghost var own := BatchesOf(key, bs[..i]);
      assert (own + [bs[i]])[..|own|] == own;
      count := count + 1;
      table := table + bs[i].tableAmount;
      total := total + bs[i].calculatedAmount;
    }
    assert bs[..|bs|] == bs;
    r := s.(batchCount := count, tableAmount := table, calcAmount := total, difference := table - total);
  }

  /** A batch's details sit in an array of their own (the JSON decoder allocated it),
      which is compacted in place. */
  method ApplyBatchRules(batch: BatchPreview, rules: Rules, excludedItems: set<string>, usable: seq<CategoryRule>)
    returns (r: BatchPreview)
    requires excludedItems == IdSet(rules.excludedItems) && usable == UsableRules(rules.categoryRules)
    ensures r == FilteredBatch(batch, rules)
  {
    var details := new Detail[|batch.details|](j requires 0 <= j < |batch.details| => batch.details[j]);
    assert details[..] == batch.details;
    var kept := CompactDetails(batch.id, details, rules.excludedCNs, excludedItems, usable);
    r := batch.(details := details[..kept]);
  }

  lemma KeptStep(bs: seq<BatchPreview>, i: nat, rules: Rules)
    requires i < |bs|
    ensures KeptBatches(bs[..i + 1], rules)
         == KeptBatches(bs[..i], rules) +
           if Dropped(bs[i], rules) then [] else [Recalculated(FilteredBatch(bs[i], rules))]
  {
    assert bs[..i + 1][..i] == bs[..i];
  }

  lemma Appended(bs: seq<BatchPreview>, b: BatchPreview)
    ensures BatchKeys(bs + [b]) == BatchKeys(bs) + {BatchKey(b)}
    ensures AllErrors(bs + [b]) == AllErrors(bs) + b.errors
    ensures AllWarnings(bs + [b]) == AllWarnings(bs) + b.warnings
    ensures AllNotices(bs + [b]) == AllNotices(bs) + b.notices
  {
    assert (bs + [b])[..|bs|] == bs;
  }

  method ApplyToBatches(bs: seq<BatchPreview>, rules: Rules, excludedSheets: set<string>, excludedItems: set<string>,
                        usable: seq<CategoryRule>)
    returns (batches: seq<BatchPreview>, active: set<string>, errors: seq<Issue>, warnings: seq<Issue>,
             notices: seq<Issue>)
    requires excludedSheets == IdSet(rules.excludedSheets)
    requires excludedItems == IdSet(rules.excludedItems) && usable == UsableRules(rules.categoryRules)
    ensures batches == KeptBatches(bs, rules) && active == BatchKeys(batches)
    ensures errors == AllErrors(batches) && warnings == AllWarnings(batches) && notices == AllNotices(batches)
  {
    batches, active, errors, warnings, notices := [], {}, [], [], [];
    for i := 0 to |bs|
      invariant batches == KeptBatches(bs[..i], rules) && active == BatchKeys(batches)
      invariant errors == AllErrors(batches) && warnings == AllWarnings(batches) && notices == AllNotices(batches)
    {
      var batch := bs[i];
      KeptStep(bs, i, rules);
      if SheetKey(batch.sheetId, batch.sheetName) in excludedSheets || batch.sheetName in excludedSheets {
        continue;
      }
      batch := ApplyBatchRules(batch, rules, excludedItems, usable);
      if |batch.details| == 0 && batch.template == TEMPLATE_MATRIX {
        continue;
      }
      batch := RecalculateBatch(batch);
      active := active + {SheetKey(batch.sheetId, batch.sheetName)};
      Appended(batches, batch);
      batches := batches + [batch];
      errors := errors + batch.errors;
      warnings := warnings + batch.warnings;
      notices := notices + batch.notices;
    }
    assert bs[..|bs|] == bs;
  }

  method ApplyImportRules(p: Preview, rules: Rules) returns (r: Option<Preview>)
    ensures r == Adjusted(p, rules)
  {
    var excludedSheets := TrimmedIds(rules.excludedSheets);
    var excludedItems := TrimmedIds(rules.excludedItems);
    var usable := CollectRules(rules.categoryRules);
    if usable == None {
      return None;
    }
    var batches, active, errors, warnings, notices :=
      ApplyToBatches(p.batches, rules, excludedSheets, excludedItems, usable.value);
    var sheets: seq<Sheet> := [];
    for i := 0 to |p.sheets|
      invariant sheets == KeptSheets(p.sheets[..i], batches, rules)
    {
      var sheet := p.sheets[i];
      assert p.sheets[..i + 1][..i] == p.sheets[..i];
      var key := SheetKey(sheet.id, sheet.name);
      if key in excludedSheets || sheet.name in excludedSheets || key !in active {
        continue;
      }
      sheet := RecalculateSheet(sheet, batches);
      sheets := sheets + [sheet];
    }
    assert p.sheets[..|p.sheets|] == p.sheets;
    return Some(p.(batches := batches, sheets := sheets, sheetCount := |sheets|,
                   errors := errors, warnings := warnings, notices := notices));
  }
}
