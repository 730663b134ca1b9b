/** Voiding undoes a payment across a whole run.

    Take a run in which a payment is recorded and later voided.  Drop the step that
    recorded it, the step that voided it and every retry with its key, and replay the
    other successful steps: they all succeed again, and the run ends with the same paid
    sums, the same live item statuses and the same orders. */
module LedgerVoid {
  import opened Text
  import opened Money
  import opened ImportRules
  import opened Ledger
  import opened LedgerInvariant
  import opened LedgerPayments
  import opened LedgerImports
  import opened LedgerRuns
  import opened LedgerAdmission

  // ---------- One database without payment p of another ----------

  function RowsWithout(rows: seq<PayRow>, p: nat): seq<PayRow> {
    if rows == [] then []
    else
      var n := |rows| - 1;
      RowsWithout(rows[..n], p) + if rows[n].payment == p then [] else [rows[n]]
  }

  ghost predicate ItemsAlike(a: seq<Item>, b: seq<Item>) {
    |a| == |b| && forall i :: 0 <= i < |a| ==> b[i] == a[i].(status := b[i].status)
  }

  ghost predicate OrdersAlike(a: seq<Order>, b: seq<Order>) {
    && |a| == |b|
    && forall o :: 0 <= o < |a| ==>
         b[o] == a[o].(status := b[o].status) && (a[o].status == Cancelled <==> b[o].status == Cancelled)
  }

  /** A proof as the two databases see it: the amounts shown to the user may differ, and
      the proof whose key the payment carries may be accepted on one side only. */
  ghost predicate ProofAlike(id: string, a: Proof, b: Proof, key: string) {
    && b == a.(principal := b.principal, fee := b.fee, payable := b.payable, status := b.status, linked := b.linked)
    && ((a.status == b.status && a.linked == b.linked)
        || (ProofKey(id) == key && a.status == Accepted && b.status == Pending && b.linked == None))
  }

  ghost predicate ProofsAlike(a: map<string, Proof>, b: map<string, Proof>, key: string) {
    a.Keys == b.Keys && forall id :: id in a ==> ProofAlike(id, a[id], b[id], key)
  }

  ghost predicate MoneyWithout(a: Db, b: Db, p: nat, key: string) {
    && p in a.payments && a.payments[p].key == key != ""
    && b.payments == a.payments - {p}
    && b.rows == RowsWithout(a.rows, p)
  }

  /** b is a without payment p, whose key is key. */
  ghost predicate Without(a: Db, b: Db, p: nat, key: string) {
    && b.users == a.users && b.products == a.products && b.batches == a.batches
    && ItemsAlike(a.items, b.items) && OrdersAlike(a.orders, b.orders)
    && MoneyWithout(a, b, p, key) && ProofsAlike(a.proofs, b.proofs, key)
  }

  lemma {:induction false} RowsWithoutConcat(x: seq<PayRow>, y: seq<PayRow>, p: nat)
    ensures RowsWithout(x + y, p) == RowsWithout(x, p) + RowsWithout(y, p)
  {
    if y == [] {
      assert x + y == x;
    } else {
      var n := |y| - 1;
      assert (x + y)[..|x + y| - 1] == x + y[..n];
      RowsWithoutConcat(x, y[..n], p);
    }
  }

  lemma {:induction false} RowsWithoutNone(rows: seq<PayRow>, p: nat)
    requires forall k :: 0 <= k < |rows| ==> rows[k].payment != p
    ensures RowsWithout(rows, p) == rows
  {
    if rows != [] {
      var n := |rows| - 1;
      RowsWithoutNone(rows[..n], p);
      assert rows == rows[..n] + [rows[n]];
    }
  }

  lemma PaidSnoc(payments: map<nat, Payment>, rows: seq<PayRow>, r: PayRow, i: nat)
    ensures PaidIn(payments, rows + [r], i) == PaidIn(payments, rows, i) +
              if r.item == i then Applied(payments, r) else 0
  {
    assert (rows + [r])[..|rows|] == rows;
  }

  /** What payment p puts on an item: what its rows apply to it while it is approved. */
  function PutBy(payments: map<nat, Payment>, rows: seq<PayRow>, p: nat, i: nat): int
    requires p in payments
  {
    if payments[p].status == Approved then AppliedBy(rows, p, i) else 0
  }

  /** Without payment p an item's paid sum lacks exactly what p puts on it. */
  lemma {:induction false} PaidWithout(payments: map<nat, Payment>, rows: seq<PayRow>, p: nat, i: nat)
    requires p in payments
    ensures PaidIn(payments - {p}, RowsWithout(rows, p), i) == PaidIn(payments, rows, i) - PutBy(payments, rows, p, i)
  {
    if rows != [] {
      var n := |rows| - 1;
      PaidWithout(payments, rows[..n], p, i);
      var rest := RowsWithout(rows[..n], p);
      if rows[n].payment == p {
        assert RowsWithout(rows, p) == rest;
      } else {
        assert RowsWithout(rows, p) == rest + [rows[n]];
        PaidSnoc(payments - {p}, rest, rows[n], i);
      }
    }
  }

  lemma {:induction false} AppliedByNonNegative(rows: seq<PayRow>, p: nat, i: nat)
    requires forall k :: 0 <= k < |rows| ==> rows[k].applied > 0
    ensures AppliedBy(rows, p, i) >= 0
  {
    if rows != [] {
      AppliedByNonNegative(rows[..|rows| - 1], p, i);
    }
  }

  lemma PaidNoMore(a: Db, b: Db, p: nat, key: string, i: nat)
    requires MoneyWithout(a, b, p, key) && Amounts(a)
    ensures PaidOf(b, i) == PaidOf(a, i) - PutBy(a.payments, a.rows, p, i)
    ensures PaidOf(b, i) <= PaidOf(a, i)
    ensures a.payments[p].status != Approved ==> PaidOf(b, i) == PaidOf(a, i)
  {
    PaidWithout(a.payments, a.rows, p, i);
    AppliedByNonNegative(a.rows, p, i);
  }

  // ---------- Recalculation ----------

  lemma RecalcAlike(a: Db, b: Db, u: nat)
    requires ItemsAlike(a.items, b.items) && OrdersAlike(a.orders, b.orders)
    ensures ItemsAlike(Recalculate(a, u).items, Recalculate(b, u).items)
    ensures OrdersAlike(Recalculate(a, u).orders, Recalculate(b, u).orders)
  {}

  lemma RecalcOneSide(a: Db, b: Db, u: nat)
    requires ItemsAlike(a.items, b.items) && OrdersAlike(a.orders, b.orders)
    ensures ItemsAlike(Recalculate(a, u).items, b.items)
    ensures OrdersAlike(Recalculate(a, u).orders, b.orders)
  {}

  // ---------- Recording another payment ----------

  lemma {:induction false} LockedAlike(a: Db, b: Db, u: nat, ids: set<nat>, n: nat)
    requires ItemsAlike(a.items, b.items) && OrdersAlike(a.orders, b.orders) && n <= |a.items|
    ensures Locked(a, u, ids, n) == Locked(b, u, ids, n)
  {
    if n > 0 {
      LockedAlike(a, b, u, ids, n - 1);
      assert PayableBy(a, n - 1, u) <==> PayableBy(b, n - 1, u);
    }
  }

  lemma AllocationStillPasses(a: Db, b: Db, p: nat, key: string, req: Request, u: nat)
    requires Without(a, b, p, key) && Amounts(a)
    requires AllocationError(a, req, u) == None
    ensures AllocationError(b, req, u) == None
    ensures Locked(b, u, ItemIds(MergeLines(req.lines)), |b.items|) ==
              Locked(a, u, ItemIds(MergeLines(req.lines)), |a.items|)
  {
    var merged := MergeLines(req.lines);
    var ids := ItemIds(merged);
    LockedAlike(a, b, u, ids, |a.items|);
    var locked := Locked(b, u, ids, |b.items|);
    forall k | 0 <= k < |locked| && locked[k] < |b.items|
      ensures !Exceeds(AmountFor(merged, locked[k]), Remaining(PaidOf(b, locked[k]), b.items[locked[k]].amount))
    {
      PaidNoMore(a, b, p, key, locked[k]);
      assert !Exceeds(AmountFor(merged, locked[k]), Remaining(PaidOf(a, locked[k]), a.items[locked[k]].amount));
    }
  }

  lemma AddedToBoth(a: Db, b: Db, p: nat, key: string, ra: Db, rb: Db, added: seq<PayRow>, pid: nat)
    requires MoneyWithout(a, b, p, key) && pid !in a.payments
    requires pid in ra.payments && ra.payments == a.payments[pid := ra.payments[pid]]
    requires rb.payments == b.payments[pid := ra.payments[pid]]
    requires ra.rows == a.rows + added && rb.rows == b.rows + added
    requires forall k :: 0 <= k < |added| ==> added[k].payment == pid
    ensures MoneyWithout(ra, rb, p, key)
  {
    RowsWithoutConcat(a.rows, added, p);
    RowsWithoutNone(added, p);
    assert rb.payments == ra.payments - {p};
  }

  lemma InsertAlike(a: Db, b: Db, p: nat, key: string, req: Request, u: nat, pid: nat)
    requires Without(a, b, p, key) && pid !in a.payments && req.via.Some?
    requires Locked(b, u, ItemIds(MergeLines(req.lines)), |b.items|) ==
               Locked(a, u, ItemIds(MergeLines(req.lines)), |a.items|)
    ensures Without(InsertPayment(a, req, u, pid), InsertPayment(b, req, u, pid), p, key)
  {
    var ra, rb := InsertPayment(a, req, u, pid), InsertPayment(b, req, u, pid);
    AddedToBoth(a, b, p, key, ra, rb, AddedRows(a, req, u, pid), pid);
    hide MoneyWithout, ItemsAlike, OrdersAlike, ProofsAlike;
  }

  lemma KeyAlike(a: Db, b: Db, p: nat, key: string, other: string)
    requires MoneyWithout(a, b, p, key) && Keys(a) && other != key && other != ""
    ensures PaymentWithKey(a, other) == PaymentWithKey(b, other)
  {
    if q :| q in a.payments && a.payments[q].key == other {
      assert q in b.payments && b.payments[q] == a.payments[q];
      assert PaymentWithKey(a, other) == Some(q);
      assert PaymentWithKey(b, other) == Some(q);
    } else {
      assert forall q :: q in b.payments ==> q in a.payments;
    }
  }

  lemma BlankKey(key: string)
    requires Trim(key) != ""
    ensures key != ""
  {}

  lemma CreateAlike(a: Db, b: Db, p: nat, key: string, req: Request, row: Option<nat>, pid: nat)
    requires Inv(a) && Without(a, b, p, key) && pid !in a.payments && req.key != key
    requires !CreatePayment(a, req, row, pid).1.Refused?
    ensures CreatePayment(b, req, row, pid).1 == CreatePayment(a, req, row, pid).1
    ensures Without(CreatePayment(a, req, row, pid).0, CreatePayment(b, req, row, pid).0, p, key)
  {
    BlankKey(req.key);
    KeyAlike(a, b, p, key, req.key);
    if PaymentWithKey(a, req.key) == None {
      var u := row.value;
      AllocationStillPasses(a, b, p, key, req, u);
      InsertAlike(a, b, p, key, req, u, pid);
      RecalcAlike(InsertPayment(a, req, u, pid), InsertPayment(b, req, u, pid), u);
    }
  }

  // ---------- Imports ----------

  ghost predicate WorkAlike(a: Work, b: Work) {
    && b == a.(items := b.items, orders := b.orders)
    && ItemsAlike(a.items, b.items) && OrdersAlike(a.orders, b.orders)
  }

  lemma EnsureAlike(a: Work, b: Work, bid: nat, cn: string, sku: ProductKey, user: nat)
    requires WorkAlike(a, b)
    ensures WorkAlike(EnsureUser(a, cn), EnsureUser(b, cn))
    ensures WorkAlike(EnsureProduct(a, bid, sku), EnsureProduct(b, bid, sku))
    ensures WorkAlike(EnsureOrder(a, user), EnsureOrder(b, user))
  {}

  lemma ItemAlike(a: Work, b: Work, it: Item, record: RecordKey)
    requires WorkAlike(a, b)
    ensures WorkAlike(a.(items := a.items + [it], records := a.records + {record}),
                      b.(items := b.items + [it], records := b.records + {record}))
  {}

  lemma EntryAlike(a: Work, b: Work, bid: nat, e: Entry)
    requires WorkAlike(a, b)
    ensures ImportEntry(a, bid, e).Some? <==> ImportEntry(b, bid, e).Some?
    ensures ImportEntry(a, bid, e).Some? ==> WorkAlike(ImportEntry(a, bid, e).value, ImportEntry(b, bid, e).value)
  {
    var cn, sku := e.detail.normalizedCN, KeyOfProduct(e);
    if ImportEntry(a, bid, e).Some? {
      EntryUnfolds(a, bid, e);
      EntryUnfolds(b, bid, e);
    }
    hide KeyOfProduct, KeyOfRecord, EnsureUser, EnsureProduct, EnsureOrder;
    EnsureAlike(a, b, bid, cn, sku, 0);
    var a1, b1 := EnsureUser(a, cn), EnsureUser(b, cn);
    EnsureAlike(a1, b1, bid, cn, sku, 0);
    var a2, b2 := EnsureProduct(a1, bid, sku), EnsureProduct(b1, bid, sku);
    if ImportEntry(a, bid, e).Some? {
      var user := a1.userIds[cn];
      EnsureAlike(a2, b2, bid, cn, sku, user);
      var a3, b3 := EnsureOrder(a2, user), EnsureOrder(b2, user);
      ItemAlike(a3, b3, Item(a3.orderIds[user], a3.productIds[sku], bid, e.detail.quantity, e.detail.amount, Unpaid,
                             false), KeyOfRecord(e));
    }
  }

  lemma {:induction false} AllAlike(a: Work, b: Work, bid: nat, es: seq<Entry>)
    requires WorkAlike(a, b)
    ensures ImportAll(a, bid, es).Some? <==> ImportAll(b, bid, es).Some?
    ensures ImportAll(a, bid, es).Some? ==> WorkAlike(ImportAll(a, bid, es).value, ImportAll(b, bid, es).value)
  {
    hide ImportEntry;
    if es != [] {
      var n := |es| - 1;
      AllAlike(a, b, bid, es[..n]);
      if ImportAll(a, bid, es[..n]).Some? {
        EntryAlike(ImportAll(a, bid, es[..n]).value, ImportAll(b, bid, es[..n]).value, bid, es[n]);
      }
    }
  }

  lemma SumsAlike(a: seq<Item>, b: seq<Item>, o: nat)
    requires ItemsAlike(a, b)
    ensures LiveSum(a, o) == LiveSum(b, o) && LiveCount(a, o) == LiveCount(b, o)
  {
    SumsFrame(a, b, o);
  }

  lemma FinishAlike(a: Db, b: Db, p: nat, key: string, bid: nat, wa: Work, wb: Work)
    requires Without(a, b, p, key) && WorkAlike(wa, wb) && bid in a.batches
    ensures Without(FinishImport(a, bid, wa), FinishImport(b, bid, wb), p, key)
  {
    forall o ensures LiveSum(wa.items, o) == LiveSum(wb.items, o) {
      SumsAlike(wa.items, wb.items, o);
    }
  }

  lemma ConfirmAlike(a: Db, b: Db, p: nat, key: string, bid: nat, allow: bool, rules: Rules)
    requires Without(a, b, p, key) && !ConfirmImport(a, bid, allow, rules).1.Refused?
    ensures ConfirmImport(b, bid, allow, rules).1 == ConfirmImport(a, bid, allow, rules).1
    ensures Without(ConfirmImport(a, bid, allow, rules).0, ConfirmImport(b, bid, allow, rules).0, p, key)
  {
    hide FinishImport, ImportAll, PreviewError, Adjusted, Entries;
    var es, wa := ConfirmWork(a, bid, allow, rules);
    AllAlike(StartWork(a), StartWork(b), bid, es);
    var wb := ImportAll(StartWork(b), bid, es).value;
    FinishAlike(a, b, p, key, bid, wa, wb);
  }

  lemma {:induction false} BatchCountAlike(a: seq<Item>, b: seq<Item>, bid: nat)
    requires ItemsAlike(a, b)
    ensures BatchCount(a, bid) == BatchCount(b, bid) && BatchSum(a, bid) == BatchSum(b, bid)
  {
    if a != [] {
      BatchCountAlike(a[..|a| - 1], b[..|b| - 1], bid);
    }
  }

  lemma RevokeAlike(a: Db, b: Db, p: nat, key: string, bid: nat)
    requires Without(a, b, p, key) && !RevokeImport(a, bid).1.Refused?
    ensures RevokeImport(b, bid).1 == RevokeImport(a, bid).1
    ensures Without(RevokeImport(a, bid).0, RevokeImport(b, bid).0, p, key)
  {
    BatchCountAlike(a.items, b.items, bid);
    assert TouchedOrders(a.items, bid) == TouchedOrders(b.items, bid);
    var ia, ib := RevokeItems(a.items, bid), RevokeItems(b.items, bid);
    assert ItemsAlike(ia, ib);
    forall o ensures LiveSum(ia, o) == LiveSum(ib, o) && LiveCount(ia, o) == LiveCount(ib, o) {
      SumsAlike(ia, ib, o);
    }
  }

  // ---------- The other steps ----------

  lemma MergeAlike(a: Db, b: Db, p: nat, key: string, source: nat, target: nat, reason: string)
    requires Without(a, b, p, key) && !MergeUsers(a, source, target, reason).1.Refused?
    ensures !MergeUsers(b, source, target, reason).1.Refused?
    ensures Without(MergeUsers(a, source, target, reason).0, MergeUsers(b, source, target, reason).0, p, key)
  {
    assert MovePayments(b.payments, source, target) == MovePayments(a.payments, source, target) - {p};
    assert OrdersAlike(MoveOrders(a.orders, source, target), MoveOrders(b.orders, source, target));
  }

  lemma VoidAlike(a: Db, b: Db, p: nat, key: string, q: nat, reason: string)
    requires Without(a, b, p, key) && q != p && !VoidPayment(a, q, reason).1.Refused?
    ensures !VoidPayment(b, q, reason).1.Refused?
    ensures Without(VoidPayment(a, q, reason).0, VoidPayment(b, q, reason).0, p, key)
  {
    var u := a.payments[q].user;
    var pa, pb := a.payments[q := a.payments[q].(status := Voided)], b.payments[q := b.payments[q].(status := Voided)];
    assert pb == pa - {p};
    RecalcAlike(a.(payments := pa), b.(payments := pb), u);
  }

  lemma SameRequest(a: Db, b: Db, key: string, user: nat, requestId: string)
    requires ProofsAlike(a.proofs, b.proofs, key)
    ensures ProofWithRequest(a, user, requestId).Some? <==> ProofWithRequest(b, user, requestId).Some?
  {
    if id :| id in a.proofs && SameSubmission(a.proofs[id], user, requestId) {
      assert ProofAlike(id, a.proofs[id], b.proofs[id], key);
      assert SameSubmission(b.proofs[id], user, requestId);
    }
    if id :| id in b.proofs && SameSubmission(b.proofs[id], user, requestId) {
      assert ProofAlike(id, a.proofs[id], b.proofs[id], key);
      assert SameSubmission(a.proofs[id], user, requestId);
    }
  }

  lemma SubmitAlike(a: Db, b: Db, p: nat, key: string, id: string, user: nat, cn: string, via: Option<Method>,
                    requestId: string)
    requires Without(a, b, p, key) && !SubmitProof(a, id, user, cn, via, requestId).1.Refused?
    ensures !SubmitProof(b, id, user, cn, via, requestId).1.Refused?
    ensures Without(SubmitProof(a, id, user, cn, via, requestId).0, SubmitProof(b, id, user, cn, via, requestId).0, p,
                    key)
  {
    SameRequest(a, b, key, user, requestId);
  }

  lemma LinkAlike(a: Db, b: Db, p: nat, key: string, id: string, q: nat)
    requires Without(a, b, p, key) && id in a.proofs && id in b.proofs
    ensures Without(a.(proofs := a.proofs[id := a.proofs[id].(status := Accepted, linked := Some(q))]),
                    b.(proofs := b.proofs[id := b.proofs[id].(status := Accepted, linked := Some(q))]), p, key)
  {
    assert ProofAlike(id, a.proofs[id], b.proofs[id], key);
  }

  lemma ApproveAlike(a: Db, b: Db, p: nat, key: string, id: string, paidAtValid: bool, lines: seq<Line>,
                     row: Option<nat>, pid: nat)
    requires Inv(a) && Without(a, b, p, key) && pid !in a.payments && ProofKey(id) != key
    requires !ApproveProof(a, id, paidAtValid, lines, row, pid).1.Refused?
    ensures !ApproveProof(b, id, paidAtValid, lines, row, pid).1.Refused?
    ensures Without(ApproveProof(a, id, paidAtValid, lines, row, pid).0,
                    ApproveProof(b, id, paidAtValid, lines, row, pid).0, p, key)
  {
    hide CreatePayment, Inv;
    var req := ProofRequest(a.proofs[id], id, paidAtValid, lines);
    assert ProofAlike(id, a.proofs[id], b.proofs[id], key);
    assert req == ProofRequest(b.proofs[id], id, paidAtValid, lines);
    var (na, ra) := CreatePayment(a, req, row, pid);
    var (nb, rb) := CreatePayment(b, req, row, pid);
    CreateFrame(a, req, row, pid);
    assert ra.PaymentReply?;
    CreateAlike(a, b, p, key, req, row, pid);
    CreateFrame(b, req, row, pid);
    LinkAlike(na, nb, p, key, id, ra.payment);
  }

  lemma SaveAlike(a: Db, b: Db, p: nat, key: string, bid: nat, preview: Preview)
    requires Without(a, b, p, key) && Inv(a)
    ensures SavePreview(b, bid, preview).1 == Done
    ensures Without(SavePreview(a, bid, preview).0, SavePreview(b, bid, preview).0, p, key)
  {
    if x :| x in a.batches && a.batches[x].hash == preview.fileHash {
      assert BatchWithHash(a, preview.fileHash) == Some(x) == BatchWithHash(b, preview.fileHash);
    }
  }

  // ---------- Replaying a run ----------

  /** The steps a replay leaves out although they succeeded: retries with the payment's key, and its voiding. */
  predicate Retries(s: Step, p: nat, key: string) {
    match s
    case Create(req, _, _) => req.key == key
    case Approve(id, _, _, _, _) => ProofKey(id) == key
    case Void(q, _) => q == p
    case _ => false
  }

  /** What a step needs of the identifiers it carries. */
  lemma OfferedAlike(a: Db, b: Db, p: nat, key: string, s: Step)
    requires Without(a, b, p, key) && Offered(a, s)
    ensures Offered(b, s)
  {
    hide ItemsAlike, OrdersAlike, FindsUser;
    match s
    case Approve(id, _, _, _, _) => assert id in a.proofs ==> ProofAlike(id, a.proofs[id], b.proofs[id], key);
    case _ =>
  }

  lemma RejectAlike(a: Db, b: Db, p: nat, key: string, id: string, reason: string)
    requires Without(a, b, p, key) && !RejectProof(a, id, reason).1.Refused?
    ensures !RejectProof(b, id, reason).1.Refused?
    ensures Without(RejectProof(a, id, reason).0, RejectProof(b, id, reason).0, p, key)
  {
    hide ItemsAlike, OrdersAlike, ProofKey;
    assert ProofAlike(id, a.proofs[id], b.proofs[id], key);
  }

  lemma StatusAlike(a: Db, b: Db, p: nat, key: string, user: nat, enabled: bool)
    requires Without(a, b, p, key) && !SetUserStatus(a, user, enabled).1.Refused?
    ensures !SetUserStatus(b, user, enabled).1.Refused?
    ensures Without(SetUserStatus(a, user, enabled).0, SetUserStatus(b, user, enabled).0, p, key)
  {
    hide ItemsAlike, OrdersAlike, ProofsAlike;
  }

  lemma StepAlike(a: Db, b: Db, p: nat, key: string, s: Step)
    requires Inv(a) && Without(a, b, p, key) && Offered(a, s) && Succeeds(a, s) && !Retries(s, p, key)
    ensures Offered(b, s) && Succeeds(b, s) && Without(Next(a, s), Next(b, s), p, key)
  {
    hide CreatePayment, ApproveProof, ConfirmImport, SavePreview, VoidPayment, MergeUsers, RevokeImport, SubmitProof,
      RejectProof, SetUserStatus, Inv, Without;
    OfferedAlike(a, b, p, key, s);
    match s
    case Upload(bid, preview) => SaveAlike(a, b, p, key, bid, preview);
    case Confirm(bid, allow, rules) => ConfirmAlike(a, b, p, key, bid, allow, rules);
    case Revoke(bid) => RevokeAlike(a, b, p, key, bid);
    case Create(req, row, pid) => CreateAlike(a, b, p, key, req, row, pid);
    case Void(q, reason) => VoidAlike(a, b, p, key, q, reason);
    case Submit(id, user, cn, via, requestId) => SubmitAlike(a, b, p, key, id, user, cn, via, requestId);
    case Approve(id, paidAtValid, lines, row, pid) => ApproveAlike(a, b, p, key, id, paidAtValid, lines, row, pid);
    case Reject(id, reason) => RejectAlike(a, b, p, key, id, reason);
    case Merge(source, target, reason) => MergeAlike(a, b, p, key, source, target, reason);
    case SetStatus(user, enabled) => StatusAlike(a, b, p, key, user, enabled);
  }

  ghost function Replay(db: Db, steps: seq<Step>, p: nat, key: string): seq<Step>
    decreases |steps|
  {
    if steps == [] then []
    else
      (if Succeeds(db, steps[0]) && !Retries(steps[0], p, key) then [steps[0]] else [])
      + Replay(Next(db, steps[0]), steps[1..], p, key)
  }

  ghost predicate AllSucceed(db: Db, steps: seq<Step>)
    decreases |steps|
  {
    steps == [] || (Offered(db, steps[0]) && Succeeds(db, steps[0]) && AllSucceed(Next(db, steps[0]), steps[1..]))
  }

  lemma VoidOneSide(a: Db, b: Db, p: nat, key: string, reason: string)
    requires Without(a, b, p, key)
    ensures Without(VoidPayment(a, p, reason).0, b, p, key)
  {
    var pa := a.payments[p := a.payments[p].(status := Voided)];
    assert pa - {p} == a.payments - {p};
    RecalcOneSide(a.(payments := pa), b, a.payments[p].user);
  }

  lemma AcceptOneSide(a: Db, b: Db, p: nat, key: string, id: string, q: nat)
    requires Without(a, b, p, key) && id in a.proofs && a.proofs[id].status == Pending && a.proofs[id].linked == None
    requires ProofKey(id) == key
    ensures Without(a.(proofs := a.proofs[id := a.proofs[id].(status := Accepted, linked := Some(q))]), b, p, key)
  {
    assert ProofAlike(id, a.proofs[id], b.proofs[id], key);
  }

  lemma PendingUnlinked(db: Db, id: string)
    requires Inv(db) && id in db.proofs && db.proofs[id].status == Pending
    ensures db.proofs[id].linked == None
  {}

  lemma KeyOfWithout(a: Db, b: Db, p: nat, key: string)
    requires Without(a, b, p, key)
    ensures p in a.payments && a.payments[p].key == key != ""
  {}

  lemma ApproveRetry(a: Db, b: Db, p: nat, key: string, id: string, paidAtValid: bool, lines: seq<Line>,
                     row: Option<nat>, pid: nat)
    requires Inv(a) && Without(a, b, p, key) && ProofKey(id) == key && pid !in a.payments
    ensures Without(ApproveProof(a, id, paidAtValid, lines, row, pid).0, b, p, key)
  {
    hide CreatePayment, Inv, Without, ProofKey;
    if lines != [] && id in a.proofs && a.proofs[id].status == Pending {
      PendingUnlinked(a, id);
      KeyOfWithout(a, b, p, key);
      RetryChangesNothing(a, ProofRequest(a.proofs[id], id, paidAtValid, lines), row, pid, p);
      AcceptOneSide(a, b, p, key, id, p);
    }
  }

  /** A retry, or the voiding itself, moves only the side that still has the payment. */
  lemma RetryAlike(a: Db, b: Db, p: nat, key: string, s: Step)
    requires Inv(a) && Without(a, b, p, key) && Offered(a, s) && Retries(s, p, key)
    ensures Without(Next(a, s), b, p, key)
  {
    match s
    case Create(req, row, pid) => RetryChangesNothing(a, req, row, pid, p);
    case Approve(id, paidAtValid, lines, row, pid) => ApproveRetry(a, b, p, key, id, paidAtValid, lines, row, pid);
    case Void(q, reason) => VoidOneSide(a, b, p, key, reason);
  }

  lemma StepRefused(db: Db, s: Step)
    requires !Succeeds(db, s)
    ensures Next(db, s) == db
  {
    RefusedRollsBack(db, s);
  }

  lemma {:induction false} ReplayFollows(a: Db, b: Db, p: nat, key: string, steps: seq<Step>)
    requires Inv(a) && Inv(b) && Without(a, b, p, key) && Possible(a, steps)
    ensures AllSucceed(b, Replay(a, steps, p, key))
    ensures Without(Run(a, steps), Run(b, Replay(a, steps, p, key)), p, key)
    ensures Inv(Run(a, steps)) && Inv(Run(b, Replay(a, steps, p, key)))
    decreases |steps|
  {
    hide Apply, Succeeds, Inv, Without, Offered, Retries;
    if steps != [] {
      var s := steps[0];
      var rest := Replay(Next(a, s), steps[1..], p, key);
      StepKeepsInv(a, s);
      if !Succeeds(a, s) {
        StepRefused(a, s);
        assert Replay(a, steps, p, key) == rest;
        ReplayFollows(Next(a, s), b, p, key, steps[1..]);
      } else if Retries(s, p, key) {
        RetryAlike(a, b, p, key, s);
        assert Replay(a, steps, p, key) == rest;
        ReplayFollows(Next(a, s), b, p, key, steps[1..]);
      } else {
        StepAlike(a, b, p, key, s);
        StepKeepsInv(b, s);
        ReplayFollows(Next(a, s), Next(b, s), p, key, steps[1..]);
        assert ([s] + rest)[0] == s && ([s] + rest)[1..] == rest;
      }
    }
  }

  /** The step records payment p: it was not there before, and is approved after. */
  ghost predicate Records(db: Db, c: Step, p: nat) {
    && Offered(db, c) && (c.Create? || c.Approve?) && p !in db.payments
    && p in Next(db, c).payments && Next(db, c).payments[p].status == Approved
  }

  /** The payment a request records is the one it brings the id for, with its key. */
  lemma CreatedIs(db: Db, req: Request, row: Option<nat>, pid: nat, p: nat)
    requires p !in db.payments && p in CreatePayment(db, req, row, pid).0.payments
    ensures p == pid && CreatePayment(db, req, row, pid).0.payments[p].key == req.key
    ensures CreatePayment(db, req, row, pid).1 == PaymentReply(pid, false) && CreatePayment(db, req, row, pid).0 != db
  {}

  lemma {:induction false} NoneLeft(rows: seq<PayRow>, p: nat)
    requires forall k :: 0 <= k < |rows| ==> rows[k].payment == p
    ensures RowsWithout(rows, p) == []
  {
    if rows != [] {
      NoneLeft(rows[..|rows| - 1], p);
    }
  }

  lemma AddedMoney(db: Db, r: Db, added: seq<PayRow>, pid: nat)
    requires forall k :: 0 <= k < |db.rows| ==> db.rows[k].payment in db.payments
    requires pid !in db.payments && pid in r.payments && r.payments == db.payments[pid := r.payments[pid]]
    requires r.rows == db.rows + added && forall k :: 0 <= k < |added| ==> added[k].payment == pid
    requires r.payments[pid].key != ""
    ensures MoneyWithout(r, db, pid, r.payments[pid].key)
  {
    RowsWithoutConcat(db.rows, added, pid);
    RowsWithoutNone(db.rows, pid);
    NoneLeft(added, pid);
    assert r.payments - {pid} == db.payments;
  }

  lemma AlikeItself(db: Db, key: string)
    ensures ItemsAlike(db.items, db.items) && OrdersAlike(db.orders, db.orders)
    ensures ProofsAlike(db.proofs, db.proofs, key)
  {}

  lemma InsertedAlike(db: Db, req: Request, u: nat, pid: nat)
    requires forall k :: 0 <= k < |db.rows| ==> db.rows[k].payment in db.payments
    requires pid !in db.payments && req.via.Some? && req.key != ""
    ensures Without(InsertPayment(db, req, u, pid), db, pid, req.key)
  {
    var r := InsertPayment(db, req, u, pid);
    AddedMoney(db, r, AddedRows(db, req, u, pid), pid);
    AlikeItself(db, req.key);
    hide MoneyWithout;
  }

  lemma CreatedAlike(db: Db, req: Request, row: Option<nat>, pid: nat)
    requires Inv(db) && pid !in db.payments
    requires CreatePayment(db, req, row, pid).0 != db
    ensures pid in CreatePayment(db, req, row, pid).0.payments
    ensures Without(CreatePayment(db, req, row, pid).0, db, pid, req.key)
  {
    var u := row.value;
    BlankKey(req.key);
    InsertedAlike(db, req, u, pid);
    RecalcOneSide(InsertPayment(db, req, u, pid), db, u);
    hide InsertPayment, Inv, AllocationError, RequestError;
  }

  lemma ApprovedAlike(db: Db, id: string, paidAtValid: bool, lines: seq<Line>, row: Option<nat>, pid: nat, p: nat)
    requires Inv(db) && pid !in db.payments && p !in db.payments
    requires p in ApproveProof(db, id, paidAtValid, lines, row, pid).0.payments
    ensures var next := ApproveProof(db, id, paidAtValid, lines, row, pid).0; Without(next, db, p, next.payments[p].key)
  {
    hide Inv, Without, CreatePayment;
    var req := ProofRequest(db.proofs[id], id, paidAtValid, lines);
    var paid := CreatePayment(db, req, row, pid).0;
    CreatedIs(db, req, row, pid, p);
    CreatedAlike(db, req, row, pid);
    CreateFrame(db, req, row, pid);
    PendingUnlinked(db, id);
    AcceptOneSide(paid, db, p, req.key, id, pid);
  }

  lemma RecordedAlike(db: Db, c: Step, p: nat)
    requires Inv(db) && Records(db, c, p)
    ensures Without(Next(db, c), db, p, Next(db, c).payments[p].key)
  {
    hide Inv, Without, CreatePayment, ApproveProof;
    match c
    case Create(req, row, pid) =>
      CreatedIs(db, req, row, pid, p);
      CreatedAlike(db, req, row, pid);
    case Approve(id, paidAtValid, lines, row, pid) =>
      ApprovedAlike(db, id, paidAtValid, lines, row, pid, p);
  }

  lemma OrderStatusIgnoresCurrent(items: seq<Item>, o: nat, x: OrderStatus, y: OrderStatus)
    requires LiveCount(items, o) > 0
    ensures OrderStatusOf(items, o, x) == OrderStatusOf(items, o, y)
  {}

  lemma SameOrder(a: Db, b: Db, o: nat)
    requires OrderStatuses(a) && OrderStatuses(b) && Totals(a)
    requires ItemsAlike(a.items, b.items) && OrdersAlike(a.orders, b.orders) && o < |a.orders|
    requires forall i :: 0 <= i < |a.items| && !a.items[i].revoked ==> a.items[i].status == b.items[i].status
    ensures a.orders[o] == b.orders[o]
  {
    if a.orders[o].status != Cancelled {
      OrderStatusFrame(a.items, b.items, o, b.orders[o].status);
      OrderStatusIgnoresCurrent(a.items, o, a.orders[o].status, b.orders[o].status);
    }
  }

  /** With the payment no longer approved, both databases hold the same money and the
      same live statuses, because each keeps the invariant. */
  lemma SameEnd(a: Db, b: Db, p: nat, key: string)
    requires Inv(a) && Inv(b) && Without(a, b, p, key) && a.payments[p].status != Approved
    ensures forall i :: PaidOf(a, i) == PaidOf(b, i)
    ensures forall i :: 0 <= i < |a.items| && !a.items[i].revoked ==> a.items[i] == b.items[i]
    ensures a.orders == b.orders
  {
    forall i ensures PaidOf(a, i) == PaidOf(b, i) {
      PaidNoMore(a, b, p, key, i);
    }
    forall o | 0 <= o < |a.orders| ensures a.orders[o] == b.orders[o] {
      SameOrder(a, b, o);
    }
  }

  /** Voiding undoes a payment.  From any state that keeps the invariant, record payment p
      by step c, run any steps by whose end p is voided, and compare with never having
      recorded it: the other successful steps still succeed, and the paid sums, the live
      items and all orders end up the same. */
  lemma VoidUndoes(db: Db, c: Step, p: nat, steps: seq<Step>)
    requires Inv(db) && Records(db, c, p) && Possible(Next(db, c), steps)
    requires p in Run(Next(db, c), steps).payments && Run(Next(db, c), steps).payments[p].status == Voided
    ensures var key := Next(db, c).payments[p].key;
            var replay := Replay(Next(db, c), steps, p, key);
            var a, b := Run(Next(db, c), steps), Run(db, replay);
            && AllSucceed(db, replay)
            && (forall i :: PaidOf(a, i) == PaidOf(b, i))
            && ItemsAlike(a.items, b.items)
            && (forall i :: 0 <= i < |a.items| && !a.items[i].revoked ==> a.items[i] == b.items[i])
            && a.orders == b.orders && a.users == b.users && a.batches == b.batches
            && b.payments == a.payments - {p} && ProofsAlike(a.proofs, b.proofs, key)
  {
    var key := Next(db, c).payments[p].key;
    RecordedAlike(db, c, p);
    StepKeepsInv(db, c);
    ReplayFollows(Next(db, c), db, p, key, steps);
    SameEnd(Run(Next(db, c), steps), Run(db, Replay(Next(db, c), steps, p, key)), p, key);
  }
}
