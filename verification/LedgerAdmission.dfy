/** Exactly when a payment and an import are accepted, said without the checks' own machinery,
    and what an accepted payment does. */
module LedgerAdmission {
  import opened Text
  import opened Money
  import opened ImportRules
  import opened ImportRulesMeaning
  import opened Ledger
  import opened LedgerInvariant
  import opened LedgerPayments

  // ---------- Payments ----------

  predicate Names(lines: seq<Line>, key: Option<nat>) {
    exists k :: 0 <= k < |lines| && lines[k].item == key
  }

  /** What may be asked for an item: something, of an item the user can pay, and no more than it still owes. */
  predicate MayAsk(db: Db, u: nat, lines: seq<Line>, i: nat) {
    i < |db.items| && PayableBy(db, i, u) && 0 < AskedFor(lines, Some(i)) <= db.items[i].amount - PaidOf(db, i)
  }

  /** A request the ledger should accept: a method, no blank item, and every item named may be asked for. */
  ghost predicate Acceptable(db: Db, req: Request, u: nat) {
    && req.via.Some? && !Names(req.lines, None)
    && forall i :: Names(req.lines, Some(i)) ==> MayAsk(db, u, req.lines, i)
  }

  lemma PassedMayAsk(db: Db, req: Request, u: nat, i: nat)
    requires AllocationError(db, req, u) == None && Names(req.lines, Some(i))
    ensures MayAsk(db, u, req.lines, i)
  {
    var merged := MergeLines(req.lines);
    var locked := Locked(db, u, ItemIds(merged), |db.items|);
    MergeIsSum(req.lines, Some(i));
    AllocationKeys(db, req, u, Some(i));
    var k :| 0 <= k < |locked| && locked[k] == i;
    AllocationLimits(db, req, u, k);
  }

  lemma PassedIsAcceptable(db: Db, req: Request, u: nat)
    requires AllocationError(db, req, u) == None
    ensures Acceptable(db, req, u)
  {
    AllocationFacts(db, req, u);
    hide AllocationError, MayAsk;
    MergeIsSum(req.lines, None);
    forall i | Names(req.lines, Some(i)) ensures MayAsk(db, u, req.lines, i) { PassedMayAsk(db, req, u, i); }
  }

  lemma {:induction false} SumPositive(merged: map<Option<nat>, int>, locked: seq<nat>)
    requires forall k :: 0 <= k < |locked| ==> AmountFor(merged, locked[k]) > 0
    ensures SumFor(merged, locked) >= |locked|
  {
    if locked != [] {
      SumPositive(merged, locked[..|locked| - 1]);
    }
  }

  lemma AcceptablePasses(db: Db, req: Request, u: nat)
    requires req.lines != [] && Acceptable(db, req, u)
    ensures AllocationError(db, req, u) == None
  {
    hide PaidOf, SumFor;
    var merged := MergeLines(req.lines);
    var ids := ItemIds(merged);
    var locked := Locked(db, u, ids, |db.items|);
    forall key | key in merged
      ensures key.Some? && merged[key] == AskedFor(req.lines, key) && MayAsk(db, u, req.lines, key.value)
    {
      MergeIsSum(req.lines, key);
      assert Names(req.lines, key);
    }
    LockedAll(db, u, ids);
    LockedFacts(db, u, ids, |db.items|);
    forall k | 0 <= k < |locked|
      ensures AmountFor(merged, locked[k]) > 0
      ensures !Exceeds(AmountFor(merged, locked[k]), Remaining(PaidOf(db, locked[k]), db.items[locked[k]].amount))
    {
      assert locked[k] in ids && Some(locked[k]) in merged;
    }
    SumPositive(merged, locked);
    MergeIsSum(req.lines, req.lines[0].item);
    assert Names(req.lines, req.lines[0].item);
    assert req.lines[0].item.value in ids;
    assert locked != [];
  }

  /** The sum of a request's lines. */
  function Asked(lines: seq<Line>): int {
    if lines == [] then 0 else Asked(lines[..|lines| - 1]) + lines[|lines| - 1].amount
  }

  function AskedOver(lines: seq<Line>, items: seq<nat>): int {
    if items == [] then 0 else AskedOver(lines, items[..|items| - 1]) + AskedFor(lines, Some(items[|items| - 1]))
  }

  ghost predicate Increasing(items: seq<nat>) {
    forall j, k :: 0 <= j < k < |items| ==> items[j] < items[k]
  }

  lemma {:induction false} AskedOverSnoc(lines: seq<Line>, l: Line, items: seq<nat>)
    requires Increasing(items) && l.item.Some?
    ensures AskedOver(lines + [l], items) == AskedOver(lines, items) + if l.item.value in items then l.amount else 0
  {
    assert (lines + [l])[..|lines|] == lines;
    if items != [] {
      var n := |items| - 1;
      AskedOverSnoc(lines, l, items[..n]);
      assert items == items[..n] + [items[n]];
      assert items[n] !in items[..n];
    }
  }

  lemma {:induction false} AskedOverNone(items: seq<nat>)
    ensures AskedOver([], items) == 0
  {
    if items != [] { AskedOverNone(items[..|items| - 1]); }
  }

  lemma {:induction false} AskedOverAll(lines: seq<Line>, items: seq<nat>)
    requires Increasing(items)
    requires forall k :: 0 <= k < |lines| ==> lines[k].item.Some? && lines[k].item.value in items
    ensures AskedOver(lines, items) == Asked(lines)
  {
    if lines == [] {
      AskedOverNone(items);
    } else {
      var n := |lines| - 1;
      AskedOverAll(lines[..n], items);
      assert lines == lines[..n] + [lines[n]];
      AskedOverSnoc(lines[..n], lines[n], items);
    }
  }

  lemma {:induction false} SumIsAskedOver(lines: seq<Line>, locked: seq<nat>)
    ensures SumFor(MergeLines(lines), locked) == AskedOver(lines, locked)
  {
    if locked != [] {
      SumIsAskedOver(lines, locked[..|locked| - 1]);
      MergeIsSum(lines, Some(locked[|locked| - 1]));
    }
  }

  /** The principal of an accepted request is the sum of its lines. */
  lemma PrincipalIsAsked(db: Db, req: Request, u: nat)
    requires AllocationError(db, req, u) == None
    ensures SumFor(MergeLines(req.lines), Locked(db, u, ItemIds(MergeLines(req.lines)), |db.items|)) == Asked(req.lines)
  {
    var merged := MergeLines(req.lines);
    var locked := Locked(db, u, ItemIds(merged), |db.items|);
    AllocationFacts(db, req, u);
    SumIsAskedOver(req.lines, locked);
    forall k | 0 <= k < |req.lines|
      ensures req.lines[k].item.Some? && req.lines[k].item.value in locked
    {
      MergeIsSum(req.lines, req.lines[k].item);
      assert req.lines[k].item in merged;
    }
    AskedOverAll(req.lines, locked);
  }

  lemma RefsOf(db: Db)
    requires Inv(db)
    ensures Refs(db)
  {}

  lemma AcceptedIff(db: Db, req: Request, u: nat)
    requires req.lines != []
    ensures AllocationError(db, req, u) == None <==> Acceptable(db, req, u)
  {
    hide Acceptable, AllocationError;
    if AllocationError(db, req, u) == None { PassedIsAcceptable(db, req, u); }
    if Acceptable(db, req, u) { AcceptablePasses(db, req, u); }
  }

  lemma InsertEffect(db: Db, req: Request, u: nat, pid: nat, i: nat)
    requires Refs(db) && pid !in db.payments && AllocationError(db, req, u) == None
    ensures req.via.Some?
    ensures var next := Recalculate(InsertPayment(db, req, u, pid), u);
            && PaidOf(next, i) == PaidOf(db, i) + AskedFor(req.lines, Some(i))
            && pid in next.payments && next.payments - {pid} == db.payments
            && next.payments[pid] == Payment(u, Asked(req.lines), Fee(Asked(req.lines), req.via.value),
                                             Payable(Asked(req.lines), req.via.value), req.via.value, Approved, req.key)
  {
    hide AllocationError, Refs, RecalcItems, RecalcOrders;
    InsertPaid(db, req, u, pid, i);
    PrincipalIsAsked(db, req, u);
    assert (InsertPayment(db, req, u, pid).payments - {pid}) == db.payments;
  }

  /** A well-formed request with a fresh key is recorded exactly when it is acceptable; then every
      item's paid sum grows by what the request asks for it, and the new approved payment's
      principal is the sum of the lines. Nothing else about the money changes. */
  lemma RecordedExactly(db: Db, req: Request, row: Option<nat>, pid: nat, i: nat)
    requires Inv(db) && pid !in db.payments && RequestError(req) == None && row.Some?
    requires PaymentWithKey(db, req.key) == None
    ensures var (next, reply) := CreatePayment(db, req, row, pid);
            && (reply == PaymentReply(pid, false) <==> Acceptable(db, req, row.value))
            && (reply == PaymentReply(pid, false) ==>
                  && PaidOf(next, i) == PaidOf(db, i) + AskedFor(req.lines, Some(i))
                  && pid in next.payments && next.payments - {pid} == db.payments
                  && next.payments[pid].status == Approved
                  && next.payments[pid].user == row.value && next.payments[pid].key == req.key
                  && next.payments[pid].via == req.via.value && next.payments[pid].principal == Asked(req.lines)
                  && next.payments[pid].fee == Fee(Asked(req.lines), req.via.value)
                  && next.payments[pid].payable == Asked(req.lines) + Fee(Asked(req.lines), req.via.value))
  {
    hide Acceptable, AllocationError, Inv, Refs, PaymentWithKey, Recalculate, InsertPayment, PaidOf;
    RefsOf(db);
    AcceptedIff(db, req, row.value);
    if AllocationError(db, req, row.value) == None { InsertEffect(db, req, row.value, pid, i); }
  }

  /** What one payment's rows apply to an item. */
  function AppliedBy(rows: seq<PayRow>, pid: nat, i: nat): int {
    if rows == [] then 0
    else
      var n := |rows| - 1;
      AppliedBy(rows[..n], pid, i) + if rows[n].payment == pid && rows[n].item == i then rows[n].applied else 0
  }

  lemma {:induction false} VoidTakesBack(payments: map<nat, Payment>, rows: seq<PayRow>, pid: nat, i: nat)
    requires pid in payments && payments[pid].status == Approved
    ensures PaidIn(payments[pid := payments[pid].(status := Voided)], rows, i) ==
              PaidIn(payments, rows, i) - AppliedBy(rows, pid, i)
  {
    if rows != [] {
      VoidTakesBack(payments, rows[..|rows| - 1], pid, i);
    }
  }

  /** A payment is voided exactly when it is approved and a reason is given; then every item's paid
      sum falls by what that payment applied to it, and no other payment changes. */
  lemma VoidedExactly(db: Db, pid: nat, reason: string, i: nat)
    ensures var (next, reply) := VoidPayment(db, pid, reason);
            && (reply == Done <==> Trim(reason) != "" && pid in db.payments && db.payments[pid].status == Approved)
            && (reply == Done ==>
                  && PaidOf(next, i) == PaidOf(db, i) - AppliedBy(db.rows, pid, i)
                  && next.payments == db.payments[pid := db.payments[pid].(status := Voided)] && next.rows == db.rows)
            && (reply != Done ==>
                  && next == db
                  && reply == Refused(
                                if Trim(reason) == "" then VoidReasonRequired
                                else if pid !in db.payments then PaymentNotFound
                                else if db.payments[pid].status == Voided then AlreadyVoid
                                else NotApproved))
  {
    if pid in db.payments && db.payments[pid].status == Approved {
      VoidTakesBack(db.payments, db.rows, pid, i);
    }
  }

  lemma CreatedKeepsProofs(db: Db, req: Request, row: Option<nat>, pid: nat)
    ensures var (next, reply) := CreatePayment(db, req, row, pid);
            next.proofs == db.proofs && (reply.PaymentReply? || reply.Refused?)
            && (PaymentWithKey(db, req.key) == None && reply.PaymentReply? ==> reply == PaymentReply(pid, false))
  {}

  lemma RefusedCreation(db: Db, req: Request, row: Option<nat>, pid: nat)
    ensures CreatePayment(db, req, row, pid).1.PaymentReply? || CreatePayment(db, req, row, pid).1.Refused?
    ensures CreatePayment(db, req, row, pid).1.Refused? ==> CreatePayment(db, req, row, pid).0 == db
  {}

  /** The request has a CN, a key, some line and a valid time of payment. */
  predicate WellFormed(req: Request) {
    Clean(req.cn) != "" && Trim(req.key) != "" && req.lines != [] && req.paidAtValid
  }

  lemma WellFormedIs(req: Request)
    ensures RequestError(req) == None <==> WellFormed(req)
  {}

  /** A request is for the active user whose CN is the same words, however they are spaced or cased. */
  lemma UserFound(users: seq<User>, cn: string, row: Option<nat>)
    ensures FindsUser(users, cn, row) <==>
              match row
              case Some(u) => u < |users| && users[u].status == Active && SameWords(users[u].cn, cn)
              case None => forall u :: 0 <= u < |users| ==> !(users[u].status == Active && SameWords(users[u].cn, cn))
  {
    hide FoldCN, SameWords;
    forall u | 0 <= u < |users| ensures MatchesCN(users[u], cn) <==>
      users[u].status == Active && SameWords(users[u].cn, cn) {
      FoldCNSame(users[u].cn, cn);
    }
  }

  /** A request is answered with a payment exactly when it is well formed, its user is found, and its
      key is taken or it is acceptable: with the payment that carries the key, and nothing changes, or
      with a new one for what was asked. A refusal changes nothing. */
  lemma CreatedExactly(db: Db, req: Request, row: Option<nat>, pid: nat)
    requires Inv(db) && pid !in db.payments
    ensures var (next, reply) := CreatePayment(db, req, row, pid);
            var taken := PaymentWithKey(db, req.key);
            && next.proofs == db.proofs
            && (reply.PaymentReply? <==>
                  WellFormed(req) && row.Some? && (taken.Some? || Acceptable(db, req, row.value)))
            && (reply.PaymentReply? && taken.Some? ==> next == db && reply == PaymentReply(taken.value, true))
            && (reply.PaymentReply? && taken == None ==>
                  && reply == PaymentReply(pid, false) && pid in next.payments && next.payments - {pid} == db.payments
                  && req.via.Some?
                  && next.payments[pid] == Payment(row.value, Asked(req.lines), Fee(Asked(req.lines), req.via.value),
                                                   Asked(req.lines) + Fee(Asked(req.lines), req.via.value),
                                                   req.via.value, Approved, req.key))
            && (!reply.PaymentReply? ==> next == db)
  {
    CreatedKeepsProofs(db, req, row, pid);
    WellFormedIs(req);
    RefusedCreation(db, req, row, pid);
    hide Acceptable, Inv, AllocationError, Recalculate, InsertPayment, RequestError, WellFormed;
    if RequestError(req) == None && row.Some? && PaymentWithKey(db, req.key) == None {
      AcceptableVia(db, req, row.value);
      RecordedExactly(db, req, row, pid, 0);
    }
  }

  lemma AcceptableVia(db: Db, req: Request, u: nat)
    ensures Acceptable(db, req, u) ==> req.via.Some?
  {}

  /** The request an approval makes of a proof: in the name and by the method of the proof, under a key of its own. */
  function RequestOf(p: Proof, id: string, paidAtValid: bool, lines: seq<Line>): Request {
    Request(p.cn, Some(p.via), paidAtValid, "payment-submission:" + id, lines)
  }

  /** A proof is approved exactly when it is pending, its lines make a well-formed request for a user
      that is found, and either its key is taken or the request is acceptable. It then links the
      payment that carries the key, as it is and whoever's it is, or the new payment of the sum of
      those lines by the proof's method. Nothing changes otherwise. */
  lemma ApprovedExactly(db: Db, id: string, paidAtValid: bool, lines: seq<Line>, row: Option<nat>, pid: nat)
    requires Inv(db) && pid !in db.payments
    ensures var (next, reply) := ApproveProof(db, id, paidAtValid, lines, row, pid);
            var taken := PaymentWithKey(db, "payment-submission:" + id);
            && (reply == ProofReply(id, false) <==>
                  && id in db.proofs && db.proofs[id].status == Pending
                  && var req := RequestOf(db.proofs[id], id, paidAtValid, lines);
                     WellFormed(req) && row.Some? && (taken.Some? || Acceptable(db, req, row.value)))
            && (reply == ProofReply(id, false) && taken.Some? ==>
                  next == db.(proofs := db.proofs[id := db.proofs[id].(status := Accepted, linked := taken)]))
            && (reply == ProofReply(id, false) && taken == None ==>
                  && next.proofs == db.proofs[id := db.proofs[id].(status := Accepted, linked := Some(pid))]
                  && pid in next.payments && next.payments - {pid} == db.payments
                  && next.payments[pid].user == row.value && next.payments[pid].principal == Asked(lines)
                  && next.payments[pid].via == db.proofs[id].via && next.payments[pid].status == Approved)
            && (reply != ProofReply(id, false) ==> next == db)
  {
    hide Acceptable, Inv, CreatePayment, PaymentWithKey;
    if id in db.proofs {
      var req := RequestOf(db.proofs[id], id, paidAtValid, lines);
      assert req == ProofRequest(db.proofs[id], id, paidAtValid, lines);
      CreatedExactly(db, req, row, pid);
      RefusedCreation(db, req, row, pid);
    }
  }

  // ---------- Imports ----------

  predicate LineOk(e: Entry) {
    e.detail.quantity > 0 && e.detail.amount >= 0 && e.detail.unitPrice >= 0
  }

  /** The two lines would be one record: all six parts of its id agree. */
  predicate SameRecord(e: Entry, f: Entry) {
    && e.detail.sheetName == f.detail.sheetName && e.batch.id == f.batch.id
    && e.detail.normalizedCN == f.detail.normalizedCN && e.detail.columnName == f.detail.columnName
    && e.detail.rowNumber == f.detail.rowNumber && e.detail.itemName == f.detail.itemName
  }

  ghost predicate RecordsDiffer(es: seq<Entry>) {
    forall i, j :: 0 <= i < j < |es| ==> !SameRecord(es[i], es[j])
  }

  lemma SameRecordIs(e: Entry, f: Entry)
    ensures KeyOfRecord(e) == KeyOfRecord(f) <==> SameRecord(e, f)
  {}

  lemma EntryRecorded(w: Work, bid: nat, e: Entry)
    ensures ImportEntry(w, bid, e).Some? <==> LineOk(e) && KeyOfRecord(e) !in w.records
    ensures ImportEntry(w, bid, e).Some? ==> ImportEntry(w, bid, e).value.records == w.records + {KeyOfRecord(e)}
  {}

  lemma RecordsSnoc(es: seq<Entry>, e: Entry)
    requires RecordsDiffer(es)
    ensures KeyOfRecord(e) !in (set f | f in es :: KeyOfRecord(f)) <==> RecordsDiffer(es + [e])
  {
    hide KeyOfRecord, SameRecord;
    forall f: Entry ensures KeyOfRecord(f) == KeyOfRecord(e) <==> SameRecord(f, e) { SameRecordIs(f, e); }
    var all := es + [e];
    if RecordsDiffer(all) {
      forall f | f in es ensures KeyOfRecord(f) != KeyOfRecord(e) {
        var i :| 0 <= i < |es| && es[i] == f;
        assert all[i] == f && all[|es|] == e;
      }
    }
  }

  /** An import goes through exactly when every line meets the table's constraints and no two lines share a record
      id. */
  lemma {:induction false} ImportGoesThrough(w: Work, bid: nat, es: seq<Entry>)
    requires w.records == {}
    ensures ImportAll(w, bid, es).Some? <==> RecordsDiffer(es) && forall e :: e in es ==> LineOk(e)
    ensures ImportAll(w, bid, es).Some? ==> ImportAll(w, bid, es).value.records == set e | e in es :: KeyOfRecord(e)
  {
    hide ImportEntry, KeyOfRecord, SameRecord, LineOk;
    if es != [] {
      var n := |es| - 1;
      ImportGoesThrough(w, bid, es[..n]);
      assert es == es[..n] + [es[n]];
      assert RecordsDiffer(es) ==> RecordsDiffer(es[..n]);
      if ImportAll(w, bid, es[..n]).Some? {
        EntryRecorded(ImportAll(w, bid, es[..n]).value, bid, es[n]);
        RecordsSnoc(es[..n], es[n]);
      }
    }
  }

  /** The lines imported: the surviving details of one batch after the other, each with its batch. */
  function LineLists(bs: seq<BatchPreview>): seq<seq<Entry>> {
    seq(|bs|, i requires 0 <= i < |bs| =>
        seq(|bs[i].details|, j requires 0 <= j < |bs[i].details| => Entry(bs[i], bs[i].details[j])))
  }

  lemma {:induction false} EntriesAre(bs: seq<BatchPreview>)
    ensures Entries(bs) == Flatten(LineLists(bs))
  {
    if bs != [] {
      var n := |bs| - 1;
      EntriesAre(bs[..n]);
      assert LineLists(bs)[..n] == LineLists(bs[..n]);
      assert EntriesOf(bs[n], bs[n].details) == LineLists(bs)[n];
    }
  }

  predicate AnyFatal(bs: seq<BatchPreview>) {
    exists i, j :: 0 <= i < |bs| && 0 <= j < |bs[i].errors| && bs[i].errors[j].level == FatalError
  }

  predicate AnyWarning(bs: seq<BatchPreview>) {
    exists i :: 0 <= i < |bs| && bs[i].warnings != []
  }

  predicate AnyDetail(rules: Rules, bs: seq<BatchPreview>) {
    exists i, j :: 0 <= i < |bs| && 0 <= j < |bs[i].details| && Leaves(rules, bs[i].id, bs[i].details[j])
  }

  /** The batch waits to be confirmed with a stored preview, and no category of the rules is too long. */
  predicate Ready(db: Db, bid: nat, rules: Rules) {
    && bid in db.batches && db.batches[bid].status == Previewed && db.batches[bid].payload.Some?
    && forall i :: 0 <= i < |rules.categoryRules| ==> |Clean(rules.categoryRules[i].category)| <= 40
  }

  lemma FatalMeans(bs: seq<BatchPreview>)
    ensures HasFatal(Flatten(ErrorLists(bs))) <==> AnyFatal(bs)
  {
    var all, lists := Flatten(ErrorLists(bs)), ErrorLists(bs);
    hide Flatten;
    if HasFatal(all) {
      var k :| 0 <= k < |all| && all[k].level == FatalError;
      InFlatten(lists, all[k]);
      var i :| 0 <= i < |lists| && all[k] in lists[i];
      var j :| 0 <= j < |lists[i]| && lists[i][j] == all[k];
      assert bs[i].errors[j].level == FatalError;
    }
    if AnyFatal(bs) {
      var i, j :| 0 <= i < |bs| && 0 <= j < |bs[i].errors| && bs[i].errors[j].level == FatalError;
      InFlatten(lists, bs[i].errors[j]);
      assert lists[i] == bs[i].errors;
    }
  }

  lemma {:induction false} NoneFlat<T>(parts: seq<seq<T>>)
    ensures Flatten(parts) == [] <==> forall i :: 0 <= i < |parts| ==> parts[i] == []
  {
    if parts != [] {
      var n := |parts| - 1;
      NoneFlat(parts[..n]);
      assert forall i :: 0 <= i < n ==> parts[..n][i] == parts[i];
    }
  }

  lemma WarningMeans(bs: seq<BatchPreview>)
    ensures Flatten(WarningLists(bs)) != [] <==> AnyWarning(bs)
  {
    NoneFlat(WarningLists(bs));
    assert forall i :: 0 <= i < |bs| ==> WarningLists(bs)[i] == bs[i].warnings;
  }

  lemma DetailMeans(rules: Rules, left: seq<BatchPreview>, kept: seq<BatchPreview>)
    requires |kept| == |left| && forall i :: 0 <= i < |left| ==> BatchBecomes(rules, left[i], kept[i])
    ensures Entries(kept) != [] <==> AnyDetail(rules, left)
  {
    EntriesAre(kept);
    NoneFlat(LineLists(kept));
    hide Flatten, Entries, Leaves, Survivors, BatchConsistent;
    forall i | 0 <= i < |left|
      ensures LineLists(kept)[i] == [] <==>
                forall j :: 0 <= j < |left[i].details| ==> !Leaves(rules, left[i].id, left[i].details[j])
    {
      SurvivorsLeft(left[i], rules);
    }
  }

  /** Of the stored preview, the batches the rules leave decide. Once the batch is ready: a fatal error in
      one of them refuses it; else a warning in one of them does, unless warnings are approved; else it
      is refused if no detail is left. It is confirmed exactly when none of this holds, every line
      meets the table's constraints and no two are one record. Otherwise nothing changes. */
  lemma ConfirmedExactly(db: Db, bid: nat, allow: bool, rules: Rules)
    ensures var (next, reply) := ConfirmImport(db, bid, allow, rules);
            && (Ready(db, bid, rules) ==>
                  var left := BatchesLeft(rules, db.batches[bid].payload.value.batches);
                  && (reply == Refused(ImportHasFatalErrors) <==> AnyFatal(left))
                  && (reply == Refused(WarningsNeedApproval) <==> !AnyFatal(left) && AnyWarning(left) && !allow)
                  && (reply == Refused(NoOrderItems) <==>
                        !AnyFatal(left) && (AnyWarning(left) ==> allow) && !AnyDetail(rules, left))
                  && (reply.ConfirmReply? <==>
                        && !AnyFatal(left) && (AnyWarning(left) ==> allow) && AnyDetail(rules, left)
                        && Adjusted(db.batches[bid].payload.value, rules).Some?
                        && var es := Flatten(LineLists(Adjusted(db.batches[bid].payload.value, rules).value.batches));
                           RecordsDiffer(es) && forall e :: e in es ==> LineOk(e)))
            && (!Ready(db, bid, rules) ==>
                  reply == Refused(
                    if bid !in db.batches then ImportNotFound
                    else if db.batches[bid].status in {Confirmed, Completed, PartlyDone} then ImportAlreadyConfirmed
                    else if db.batches[bid].status != Previewed then ImportNotConfirmable
                    else if db.batches[bid].payload == None then ImportNotFound
                    else InvalidImportRules))
            && (!reply.ConfirmReply? ==> next == db)
  {
    hide Adjusted, Entries, ImportAll, RecordsDiffer, BatchesLeft, Flatten, AnyFatal, AnyWarning, AnyDetail, HasFatal,
      BatchBecomes, SheetBecomes, SheetsListed, LineLists, FinishImport, Clean, LineOk;
    if ConfirmError(db, bid) == None {
      var p := db.batches[bid].payload.value;
      AdjustedExactly(p, rules);
      if Adjusted(p, rules).Some? {
        var left, kept := BatchesLeft(rules, p.batches), Adjusted(p, rules).value.batches;
        FatalMeans(left);
        WarningMeans(left);
        DetailMeans(rules, left, kept);
        EntriesAre(kept);
        ImportGoesThrough(StartWork(db), bid, Entries(kept));
      }
    }
  }
}
