/** What the remaining transactions of the ledger do, row by row: exactly when each goes through, what
    it leaves of every table, and what a caller can count on afterwards. */
module LedgerEffects {
  import opened Text
  import opened Money
  import opened ImportRules
  import opened ImportRulesMeaning
  import opened Ledger
  import opened LedgerInvariant
  import opened LedgerPayments
  import opened LedgerImports
  import opened LedgerRuns
  import opened LedgerAdmission

  // ---------- Merging two users ----------

  /** What was the source's is the target's. */
  function Heir(u: nat, source: nat, target: nat): nat {
    if u == source then target else u
  }

  /** A merge goes through exactly when a reason is given and two different users exist, the source not
      merged before and the target active. Then every order and every payment of the source is the
      target's, nothing else of any of them changes, and of the users only the source, which is merged. */
  lemma MergedExactly(db: Db, source: nat, target: nat, reason: string)
    ensures var (next, reply) := MergeUsers(db, source, target, reason);
            && (reply == Done <==>
                  && Trim(reason) != "" && source != target && source < |db.users| && target < |db.users|
                  && db.users[source].status != Merged && db.users[target].status == Active)
            && (reply != Done ==>
                  && next == db
                  && reply == Refused(
                                if Trim(reason) == "" then MergeReasonRequired
                                else if source == target then MergeSameUser
                                else if source >= |db.users| || target >= |db.users| then UserNotFound
                                else if db.users[source].status == Merged then MergeSourceNotActive
                                else MergeTargetNotActive))
            && (reply == Done ==>
                  && next == db.(users := next.users, orders := next.orders, payments := next.payments)
                  && |next.orders| == |db.orders| && next.payments.Keys == db.payments.Keys
                  && (forall o :: 0 <= o < |db.orders| ==>
                        next.orders[o] == db.orders[o].(user := Heir(db.orders[o].user, source, target)))
                  && (forall p :: p in db.payments ==>
                        next.payments[p] == db.payments[p].(user := Heir(db.payments[p].user, source, target)))
                  && next.users == db.users[source := db.users[source].(status := Merged)])
  {}

  lemma {:induction false} DebtMoves(db: Db, next: Db, source: nat, target: nat, n: nat)
    requires n <= |db.items| && next.items == db.items && |next.orders| == |db.orders| && source != target
    requires forall o :: 0 <= o < |db.orders| ==>
               next.orders[o] == db.orders[o].(user := Heir(db.orders[o].user, source, target))
    requires forall i :: PaidOf(next, i) == PaidOf(db, i)
    ensures Outstanding(next, target, n) == Outstanding(db, source, n) + Outstanding(db, target, n)
    ensures Outstanding(next, source, n) == 0
  {
    hide PaidOf, Remaining;
    if n > 0 {
      DebtMoves(db, next, source, target, n - 1);
    }
  }

  /** A merge moves what is owed: afterwards the target owes what both owed, and the source nothing. */
  lemma MergeMovesDebt(db: Db, source: nat, target: nat, reason: string)
    requires MergeUsers(db, source, target, reason).1 == Done
    ensures var next := MergeUsers(db, source, target, reason).0;
            var n := |db.items|;
            && |next.items| == n
            && Outstanding(next, target, n) == Outstanding(db, source, n) + Outstanding(db, target, n)
            && Outstanding(next, source, n) == 0
  {
    hide PaidOf, Outstanding, MergeUsers;
    MergedExactly(db, source, target, reason);
    var next := MergeUsers(db, source, target, reason).0;
    forall i: nat ensures PaidOf(next, i) == PaidOf(db, i) { MovedUsers(db, source, target, reason, i); }
    DebtMoves(db, next, source, target, |db.items|);
  }

  // ---------- Enabling and disabling a user ----------

  /** A user's access is set exactly when the user exists and is not merged. Only that user's status
      changes, and requests in the user's name find the user again, or no longer, accordingly. */
  lemma AccessSetExactly(db: Db, u: nat, enabled: bool)
    ensures var (next, reply) := SetUserStatus(db, u, enabled);
            && (reply == Done <==> u < |db.users| && db.users[u].status != Merged)
            && (reply != Done ==> next == db)
            && (reply == Done ==>
                  && next == db.(users := db.users[u := db.users[u].(status := next.users[u].status)])
                  && next.users[u].status == (if enabled then Active else Disabled)
                  && (enabled ==> FindsUser(next.users, db.users[u].cn, Some(u)))
                  && (!enabled ==> forall cn :: !FindsUser(next.users, cn, Some(u))))
  {
    hide FoldCN;
  }

  // ---------- Payment proofs ----------

  /** The user has handed in a proof with this request id before. */
  predicate KnownRequest(db: Db, user: nat, requestId: string) {
    requestId != "" && exists x :: x in db.proofs && db.proofs[x].user == user && db.proofs[x].requestId == requestId
  }

  /** The new proof: as handed in, pending, with what the user owes now and the fee on it. */
  ghost predicate ShowsDebt(db: Db, p: Proof, user: nat, cn: string, via: Method, requestId: string) {
    && p.user == user && p.cn == cn && p.via == via && p.requestId == requestId
    && p.status == Pending && p.linked == None
    && p.principal == OwnTotal(db, user, |db.items|) - OwnApproved(db, user, |db.items|)
    && p.fee == Fee(p.principal, via) && p.payable == p.principal + p.fee
  }

  lemma OwedBy(db: Db, user: nat)
    requires Amounts(db)
    ensures var n := |db.items|;
            Max(Outstanding(db, user, n), 0) == OwnTotal(db, user, n) - OwnApproved(db, user, n)
  {
    TotalSplits(db, user, |db.items|);
  }

  lemma KnownIs(db: Db, user: nat, requestId: string)
    ensures ProofWithRequest(db, user, requestId).Some? <==> KnownRequest(db, user, requestId)
    ensures ProofWithRequest(db, user, requestId).Some? ==>
              var x := ProofWithRequest(db, user, requestId).value;
              x in db.proofs && db.proofs[x].user == user && db.proofs[x].requestId == requestId != ""
  {
    if KnownRequest(db, user, requestId) {
      var x :| x in db.proofs && db.proofs[x].user == user && db.proofs[x].requestId == requestId;
      assert SameSubmission(db.proofs[x], user, requestId);
    }
  }

  lemma PayableIs(principal: int, via: Method)
    ensures Payable(principal, via) == principal + Fee(principal, via)
  {}

  lemma SubmitEffect(db: Db, id: string, user: nat, cn: string, via: Option<Method>, requestId: string)
    requires Amounts(db) && id !in db.proofs
    ensures var (next, reply) := SubmitProof(db, id, user, cn, via, requestId);
            && (reply.ProofReply? <==> via == Some(Alipay) || via == Some(WeChat))
            && (reply.ProofReply? && !KnownRequest(db, user, requestId) ==>
                  && reply == ProofReply(id, false) && id in next.proofs
                  && next == db.(proofs := db.proofs[id := next.proofs[id]])
                  && ShowsDebt(db, next.proofs[id], user, cn, via.value, requestId))
            && (reply.ProofReply? && KnownRequest(db, user, requestId) ==>
                  && next == db && reply.deduplicated && reply.proof in db.proofs
                  && db.proofs[reply.proof].user == user && db.proofs[reply.proof].requestId == requestId)
            && (!reply.ProofReply? ==> next == db && reply == Refused(InvalidMethod))
  {
    hide KnownRequest, ProofWithRequest, Outstanding, OwnTotal, OwnApproved, Fee, Payable, Amounts;
    KnownIs(db, user, requestId);
    OwedBy(db, user);
    if via.Some? { PayableIs(Max(Outstanding(db, user, |db.items|), 0), via.value); }
  }

  lemma AmountsOf(db: Db)
    requires Inv(db)
    ensures Amounts(db)
  {}

  /** In every reachable state: a proof is handed in exactly when its method is Alipay or WeChat, and a
      new one is stored exactly when the user's request id, if any, is new. It then shows what the
      user's items cost less the approved money on them, and nothing else changes; a known request id
      is answered with its proof and changes nothing. */
  lemma SubmittedExactly(steps: seq<Step>, id: string, user: nat, cn: string, via: Option<Method>, requestId: string)
    requires Possible(EMPTY, steps) && id !in Run(EMPTY, steps).proofs
    ensures var db := Run(EMPTY, steps);
            var (next, reply) := SubmitProof(db, id, user, cn, via, requestId);
            && (reply.ProofReply? <==> via == Some(Alipay) || via == Some(WeChat))
            && (reply.ProofReply? && !KnownRequest(db, user, requestId) ==>
                  && reply == ProofReply(id, false) && id in next.proofs
                  && next == db.(proofs := db.proofs[id := next.proofs[id]])
                  && ShowsDebt(db, next.proofs[id], user, cn, via.value, requestId))
            && (reply.ProofReply? && KnownRequest(db, user, requestId) ==>
                  && next == db && reply.deduplicated && reply.proof in db.proofs
                  && db.proofs[reply.proof].user == user && db.proofs[reply.proof].requestId == requestId)
            && (!reply.ProofReply? ==> next == db && reply == Refused(InvalidMethod))
  {
    hide Run, Possible, Inv, SubmitProof, KnownRequest, ShowsDebt;
    InitialInv();
    RunKeepsInv(EMPTY, steps);
    AmountsOf(Run(EMPTY, steps));
    SubmitEffect(Run(EMPTY, steps), id, user, cn, via, requestId);
  }

  /** A proof is rejected exactly when it is pending and a reason is given. Then it is rejected, and
      nothing else of it or of any table changes. */
  lemma RejectedExactly(db: Db, id: string, reason: string)
    ensures var (next, reply) := RejectProof(db, id, reason);
            && (reply == Done <==> id in db.proofs && db.proofs[id].status == Pending && Trim(reason) != "")
            && (reply == Done ==>
                  && next == db.(proofs := next.proofs) && next.proofs.Keys == db.proofs.Keys
                  && next.proofs[id] == db.proofs[id].(status := Rejected)
                  && forall x :: x in db.proofs && x != id ==> next.proofs[x] == db.proofs[x])
            && (reply != Done ==>
                  && next == db
                  && reply == Refused(
                                if id !in db.proofs then ProofNotFound
                                else if db.proofs[id].status != Pending then ProofNotPending
                                else ConstraintViolation))
  {}

  /** A rejected proof is never approved: whatever happens after the rejection, an approval is refused. */
  lemma RejectedForGood(db: Db, id: string, reason: string, steps: seq<Step>, paidAtValid: bool, lines: seq<Line>,
                        row: Option<nat>, pid: nat)
    requires RejectProof(db, id, reason).1 == Done && Possible(RejectProof(db, id, reason).0, steps)
    ensures var later := Run(RejectProof(db, id, reason).0, steps);
            var (next, reply) := ApproveProof(later, id, paidAtValid, lines, row, pid);
            next == later && reply.Refused? && (lines != [] ==> reply == Refused(ProofNotPending))
  {
    hide Run, Possible, CreatePayment;
    ReviewedOnce(RejectProof(db, id, reason).0, steps, id);
  }

  // ---------- Saving a preview ----------

  /** A preview of a new file becomes a batch of its own, ready to be confirmed. For a known file, its
      batch is given the new preview and is ready again, unless it went on to be confirmed or was
      reverted: then nothing changes. No other batch and no other table is touched. */
  lemma SavedExactly(db: Db, bid: nat, p: Preview)
    requires Batches(db)
    ensures var (next, reply) := SavePreview(db, bid, p);
            && reply == Done
            && ((forall b :: b in db.batches ==> db.batches[b].hash != p.fileHash) ==>
                  next == db.(batches := db.batches[bid := Batch(p.fileHash, Previewed, Some(p))]))
            && (forall b :: b in db.batches && db.batches[b].hash == p.fileHash ==>
                  if db.batches[b].status in {Previewed, Waiting, Failed, Withdrawn}
                  then next == db.(batches := db.batches[b := Batch(p.fileHash, Previewed, Some(p))])
                  else next == db)
  {}

  // ---------- The products of an import ----------

  /** The two lines are of one product: all nine parts of what identifies it agree. */
  predicate SameProduct(e: Entry, f: Entry) {
    && e.batch.id == f.batch.id && ProductName(e.batch, e.detail) == ProductName(f.batch, f.detail)
    && e.detail.productCategory == f.detail.productCategory && e.detail.seriesCode == f.detail.seriesCode
    && e.detail.groupName == f.detail.groupName && e.detail.characterName == f.detail.characterName
    && e.detail.columnName == f.detail.columnName && e.detail.priceType == f.detail.priceType
    && e.detail.unitPrice == f.detail.unitPrice
  }

  lemma SameProductIs(e: Entry, f: Entry)
    ensures KeyOfProduct(e) == KeyOfProduct(f) <==> SameProduct(e, f)
  {}

  /** A product is named after the first of series, sheet title and batch name that is not blank, or the item. */
  lemma ProductNamed(b: BatchPreview, d: Detail, k: nat)
    requires k <= 3
    requires forall j :: 0 <= j < k ==> Trim([d.goodsSeries, b.sheetTitle, b.batchName][j]) == ""
    requires k < 3 ==> Trim([d.goodsSeries, b.sheetTitle, b.batchName][k]) != ""
    ensures ProductName(b, d) == if k < 3 then Trim([d.goodsSeries, b.sheetTitle, b.batchName][k]) else d.itemName
  {
    hide Trim;
    var names := [d.goodsSeries, b.sheetTitle, b.batchName];
    assert k > 0 ==> Trim(names[0]) == "";
    assert k > 1 ==> Trim(names[1]) == "";
    assert k > 2 ==> Trim(names[2]) == "";
  }

  /** Each key met has a new product of its own, and each new item the product of its line's key. */
  ghost predicate ProductsHold(db: Db, bid: nat, es: seq<Entry>, w: Work) {
    && |w.products| >= |db.products| && |w.items| == |db.items| + |es|
    && (forall k :: k in w.productIds ==>
          |db.products| <= w.productIds[k] < |w.products| && w.products[w.productIds[k]] == Product(bid, k))
    && (forall j :: 0 <= j < |es| ==>
          KeyOfProduct(es[j]) in w.productIds && w.items[|db.items| + j].product == w.productIds[KeyOfProduct(es[j])])
  }

  /** What a line does to the products: a new one for a new key, and the key's own for its item. */
  lemma EntryProduct(w: Work, bid: nat, e: Entry)
    requires ImportEntry(w, bid, e).Some?
    ensures var r, sku := ImportEntry(w, bid, e).value, KeyOfProduct(e);
            && sku in r.productIds && |r.items| == |w.items| + 1 && r.items[..|w.items|] == w.items
            && r.items[|w.items|].product == r.productIds[sku]
            && (if sku in w.productIds then r.products == w.products && r.productIds == w.productIds
                else r.products == w.products + [Product(bid, sku)]
                     && r.productIds == w.productIds[sku := |w.products|])
  {
    hide KeyOfProduct, KeyOfRecord, Insertable, UserIndex;
  }

  lemma ProductsStep(db: Db, bid: nat, es: seq<Entry>, w: Work, e: Entry)
    requires ProductsHold(db, bid, es, w) && ImportEntry(w, bid, e).Some?
    ensures ProductsHold(db, bid, es + [e], ImportEntry(w, bid, e).value)
  {
    hide KeyOfProduct, ImportEntry;
    EntryProduct(w, bid, e);
    var r := ImportEntry(w, bid, e).value;
    assert forall j :: 0 <= j < |es| ==> (es + [e])[j] == es[j] && r.items[|db.items| + j] == w.items[|db.items| + j];
  }

  lemma NoProducts(db: Db, bid: nat)
    ensures ProductsHold(db, bid, [], StartWork(db))
  {}

  lemma {:induction false} ImportProducts(db: Db, bid: nat, es: seq<Entry>, w: Work)
    requires ImportAll(StartWork(db), bid, es) == Some(w)
    ensures ProductsHold(db, bid, es, w)
  {
    hide ImportEntry, ProductsHold;
    if es == [] {
      NoProducts(db, bid);
    } else {
      var n := |es| - 1;
      var before := ImportAll(StartWork(db), bid, es[..n]).value;
      ImportProducts(db, bid, es[..n], before);
      ProductsStep(db, bid, es[..n], before, es[n]);
      assert es == es[..n] + [es[n]];
    }
  }

  lemma ProductsShared(db: Db, bid: nat, es: seq<Entry>, w: Work, j: nat, k: nat)
    requires ProductsHold(db, bid, es, w) && j < |es| && k < |es|
    ensures |w.items| == |db.items| + |es|
    ensures var a, b := w.items[|db.items| + j].product, w.items[|db.items| + k].product;
            && |db.products| <= a < |w.products| && w.products[a] == Product(bid, KeyOfProduct(es[j]))
            && (a == b <==> SameProduct(es[j], es[k]))
  {
    SameProductIs(es[j], es[k]);
    hide KeyOfProduct, SameProduct;
    assert KeyOfProduct(es[j]) in w.productIds && KeyOfProduct(es[k]) in w.productIds;
  }

  lemma ConfirmsIs(db: Db, bid: nat, allow: bool, rules: Rules, es: seq<Entry>, w: Work)
    requires Confirms(db, bid, allow, rules, es, w)
    ensures bid in db.batches && ConfirmImport(db, bid, allow, rules).0 == FinishImport(db, bid, w)
  {
    hide Adjusted, Entries, ImportAll, FinishImport;
  }

  /** Each detail's item gets a new product of this batch with the detail's own parts, and two details
      share a product exactly when all nine parts agree. */
  lemma ConfirmProducts(db: Db, bid: nat, allow: bool, rules: Rules, es: seq<Entry>, w: Work, j: nat, k: nat)
    requires Refs(db) && Confirms(db, bid, allow, rules, es, w) && j < |es| && k < |es|
    ensures var next := ConfirmImport(db, bid, allow, rules).0;
            && |next.items| == |db.items| + |es|
            && var a, b := next.items[|db.items| + j].product, next.items[|db.items| + k].product;
               && |db.products| <= a < |next.products| && next.products[a].batch == bid
               && next.products[a].sku == KeyOfProduct(es[j])
               && (a == b <==> SameProduct(es[j], es[k]))
  {
    hide ImportAll, StartWork, ConfirmImport, ProductsHold, KeyOfProduct, SameProduct, SubmitOrders, Adjusted, Entries;
    ConfirmsIs(db, bid, allow, rules, es, w);
    ImportProducts(db, bid, es, w);
    ProductsShared(db, bid, es, w, j, k);
  }

  // ---------- Revoking an import ----------

  /** The positions of the batch's live items. */
  function LiveAt(items: seq<Item>, bid: nat): set<nat> {
    set i: nat | i < |items| && items[i].batch == bid && !items[i].revoked
  }

  lemma {:induction false} BatchCountIs(items: seq<Item>, bid: nat)
    ensures BatchCount(items, bid) == |LiveAt(items, bid)|
  {
    if items == [] {
      assert LiveAt(items, bid) == {};
    } else {
      var n := |items| - 1;
      BatchCountIs(items[..n], bid);
      assert LiveAt(items, bid) == LiveAt(items[..n], bid) + if LiveOfBatch(items[n], bid) then {n} else {};
    }
  }

  lemma {:induction false} RangeSumSnoc(items: seq<Item>, hi: nat)
    requires items != [] && forall i :: 0 <= i < |items| ==> items[i].order < hi
    ensures var n := |items| - 1;
            RangeSum(items, 0, hi) == RangeSum(items[..n], 0, hi) + if items[n].revoked then 0 else items[n].amount
  {
    var n := |items| - 1;
    RangeSumAdd(items[..n], items[n], 0, hi);
    assert items == items[..n] + [items[n]];
  }

  lemma {:induction false} RevokedLoses(items: seq<Item>, bid: nat, hi: nat)
    requires forall i :: 0 <= i < |items| ==> items[i].order < hi
    ensures RangeSum(items, 0, hi) == RangeSum(RevokeItems(items, bid), 0, hi) + BatchSum(items, bid)
  {
    var after := RevokeItems(items, bid);
    if items == [] {
      assert after == items;
    } else {
      var n := |items| - 1;
      assert after[..n] == RevokeItems(items[..n], bid);
      RevokedLoses(items[..n], bid, hi);
      RangeSumSnoc(items, hi);
      RangeSumSnoc(after, hi);
    }
  }

  /** The amount by which the orders' totals fall is the sum over the batch's live items. */
  lemma TotalsFall(db: Db, bid: nat)
    requires Inv(db) && RevokeImport(db, bid).1.RevokeReply?
    ensures var next := RevokeImport(db, bid).0;
            SumTotals(db.orders, 0) == SumTotals(next.orders, 0) + BatchSum(db.items, bid)
  {
    var next := RevokeImport(db, bid).0;
    RevokeKeepsOrders(db, bid);
    TotalsAreRange(db.orders, db.items, 0);
    TotalsAreRange(next.orders, next.items, 0);
    RevokedLoses(db.items, bid, |db.orders|);
  }

  /** A batch is revoked exactly when it is confirmed and has live items. The reply counts the items
      that were revoked and gives the amount by which the orders' totals fell; the batch is reverted,
      and a refusal changes nothing. */
  lemma RevokedExactly(db: Db, bid: nat)
    requires Inv(db)
    ensures var (next, reply) := RevokeImport(db, bid);
            && (reply.RevokeReply? <==>
                  bid in db.batches && db.batches[bid].status == Confirmed && LiveAt(db.items, bid) != {})
            && (reply.RevokeReply? ==>
                  && LiveAt(next.items, bid) == {} && reply.itemCount == |LiveAt(db.items, bid)|
                  && reply.totalAmount == SumTotals(db.orders, 0) - SumTotals(next.orders, 0)
                  && next == db.(items := next.items, orders := next.orders, batches := next.batches)
                  && next.batches == db.batches[bid := db.batches[bid].(status := Reverted)])
            && (!reply.RevokeReply? ==>
                  && next == db
                  && reply ==
                       if bid !in db.batches then Refused(ImportNotFound)
                       else if db.batches[bid].status in {Confirmed, Reverted, Withdrawn}
                         then Refused(ImportAlreadyReverted)
                       else Refused(ImportNotConfirmed))
  {
    BatchCountIs(db.items, bid);
    if RevokeImport(db, bid).1.RevokeReply? { TotalsFall(db, bid); }
    hide Inv, CancelOrders, BatchSum, BatchCount, SumTotals;
  }
}
