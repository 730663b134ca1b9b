/** What holds over every run of ledger transactions. */
module LedgerRuns {
  import opened Text
  import opened Money
  import opened ImportRules
  import opened Ledger
  import opened LedgerInvariant
  import opened LedgerPayments
  import opened LedgerImports

  lemma StepKeepsInv(db: Db, s: Step)
    requires Inv(db) && Offered(db, s)
    ensures Inv(Next(db, s))
  {
    hide CreatePayment, ApproveProof, ConfirmImport, SavePreview, VoidPayment, MergeUsers, RevokeImport, SubmitProof,
      RejectProof, SetUserStatus, Inv, FindsUser;
    match s
    case Upload(bid, p) => SaveKeepsInv(db, bid, p);
    case Confirm(bid, allow, rules) => ConfirmKeepsInv(db, bid, allow, rules);
    case Revoke(bid) => RevokeKeepsInv(db, bid);
    case Create(req, row, pid) => CreateKeepsInv(db, req, row, pid);
    case Void(pid, reason) => VoidKeepsInv(db, pid, reason);
    case Submit(id, user, cn, via, requestId) => SubmitKeepsInv(db, id, user, cn, via, requestId);
    case Approve(id, paidAtValid, lines, row, pid) => ApproveKeepsInv(db, id, paidAtValid, lines, row, pid);
    case Reject(id, reason) => RejectKeepsInv(db, id, reason);
    case Merge(source, target, reason) => MergeKeepsInv(db, source, target, reason);
    case SetStatus(user, enabled) => SetStatusKeepsInv(db, user, enabled);
  }

  // ---------- What each transaction leaves alone ----------

  lemma CreateFrame(db: Db, req: Request, row: Option<nat>, pid: nat)
    requires pid !in db.payments
    ensures var (next, reply) := CreatePayment(db, req, row, pid);
            && (reply.PaymentReply? || reply.Refused?)
            && next.users == db.users && next.proofs == db.proofs && next.batches == db.batches
            && (forall p :: p in db.payments ==> p in next.payments && next.payments[p] == db.payments[p])
  {}

  lemma ApproveFrame(db: Db, id: string, paidAtValid: bool, lines: seq<Line>, row: Option<nat>, pid: nat)
    requires pid !in db.payments
    ensures var next := ApproveProof(db, id, paidAtValid, lines, row, pid).0;
            && next.users == db.users && next.batches == db.batches
            && (forall x :: x in db.proofs && (x != id || db.proofs[x].status != Pending) ==>
                x in next.proofs && next.proofs[x] == db.proofs[x])
            && (forall p :: p in db.payments ==> p in next.payments && next.payments[p] == db.payments[p])
  {
    if id in db.proofs {
      CreateFrame(db, ProofRequest(db.proofs[id], id, paidAtValid, lines), row, pid);
    }
  }

  lemma ConfirmFrame(db: Db, bid: nat, allow: bool, rules: Rules)
    ensures var next := ConfirmImport(db, bid, allow, rules).0;
            && next.payments == db.payments && next.rows == db.rows && next.proofs == db.proofs
            && (next.batches == db.batches
                || (bid in db.batches && db.batches[bid].status == Previewed
                    && next.batches == db.batches[bid := db.batches[bid].(status := Confirmed)]))
  {
    hide ImportAll, Entries, Adjusted, PreviewError, SubmitOrders;
  }

  lemma VoidFrame(db: Db, pid: nat, reason: string)
    ensures var next := VoidPayment(db, pid, reason).0;
            && next.users == db.users && next.proofs == db.proofs && next.batches == db.batches && next.rows == db.rows
            && (forall p :: p in db.payments ==>
                  && p in next.payments
                  && (next.payments[p] == db.payments[p] || next.payments[p] == db.payments[p].(status := Voided)))
  {}

  lemma MergeFrame(db: Db, source: nat, target: nat, reason: string)
    ensures var next := MergeUsers(db, source, target, reason).0;
            && next.proofs == db.proofs && next.batches == db.batches && next.rows == db.rows && next.items == db.items
            && (forall p :: p in db.payments ==>
                p in next.payments && next.payments[p] == db.payments[p].(user := next.payments[p].user))
  {}

  lemma SaveFrame(db: Db, bid: nat, p: Preview)
    requires bid !in db.batches
    ensures var next := SavePreview(db, bid, p).0;
            && next == db.(batches := next.batches)
            && (forall b :: b in db.batches ==> b in next.batches && next.batches[b].hash == db.batches[b].hash)
            && (forall b :: b in db.batches && !Refreshable(db.batches[b].status) ==> next.batches[b] == db.batches[b])
  {}

  /** The invariant holds after every run. */
  lemma {:induction false} RunKeepsInv(db: Db, steps: seq<Step>)
    requires Inv(db) && Possible(db, steps)
    ensures Inv(Run(db, steps))
    decreases |steps|
  {
    if steps != [] {
      StepKeepsInv(db, steps[0]);
      RunKeepsInv(Next(db, steps[0]), steps[1..]);
    }
  }

  /** In every reachable state, each live item's stored status is the classification of
      its approved money, by the recalculation's classifier and by the list's. */
  lemma StoredStatusesCorrect(steps: seq<Step>, i: nat)
    requires Possible(EMPTY, steps) && i < |Run(EMPTY, steps).items| && !Run(EMPTY, steps).items[i].revoked
    ensures var db := Run(EMPTY, steps);
            && db.items[i].status == RecalcStatus(PaidOf(db, i), db.items[i].amount)
            && db.items[i].status == ListStatus(PaidOf(db, i), db.items[i].amount)
  {
    InitialInv();
    RunKeepsInv(EMPTY, steps);
    var db := Run(EMPTY, steps);
    ClassifiersAgree(PaidOf(db, i), db.items[i].amount);
  }

  /** In every reachable state, each order's total and status are those of its live items. */
  lemma OrdersCorrect(steps: seq<Step>, o: nat)
    requires Possible(EMPTY, steps) && o < |Run(EMPTY, steps).orders|
    ensures var db := Run(EMPTY, steps);
            && db.orders[o].total == LiveSum(db.items, o)
            && (db.orders[o].status == Cancelled <==> forall i :: 0 <= i < |db.items| ==> !LiveIn(db.items[i], o))
            && (db.orders[o].status == PaidUp <==>
                  LiveCount(db.items, o) > 0 && !HasLive(db.items, o, Unpaid) && !HasLive(db.items, o, Partial))
            && (db.orders[o].status == Submitted <==>
                  LiveCount(db.items, o) > 0 && !HasLive(db.items, o, Paid) && !HasLive(db.items, o, Partial))
            && db.orders[o].status != Draft
  {
    InitialInv();
    RunKeepsInv(EMPTY, steps);
    var db := Run(EMPTY, steps);
    NoneLive(db.items, o);
    if LiveCount(db.items, o) > 0 {
      OrderStatusMeaning(db.items, o, db.orders[o].status);
    }
  }

  /** In every reachable state, no item is over-paid and the money of each payment adds up. */
  lemma MoneyCorrect(steps: seq<Step>, i: nat, p: nat)
    requires Possible(EMPTY, steps)
    ensures var db := Run(EMPTY, steps);
            && (i < |db.items| ==> 0 <= PaidOf(db, i) <= Max(db.items[i].amount, 0))
            && (p in db.payments && db.payments[p].status != Legacy ==>
                  && db.payments[p].principal == PrincipalIn(db.rows, p)
                  && db.payments[p].payable ==
                    db.payments[p].principal + Fee(db.payments[p].principal, db.payments[p].via))
            && (forall j, k :: 0 <= j < k < |db.rows| && db.rows[j].payment == db.rows[k].payment ==>
                db.rows[j].item != db.rows[k].item)
  {
    InitialInv();
    RunKeepsInv(EMPTY, steps);
    var db := Run(EMPTY, steps);
    PaidNonNegative(db.payments, db.rows, i);
  }

  // ---------- Idempotency keys ----------

  /** A retry with a key that already has a payment changes nothing and, when it
      succeeds, answers with that payment; a first use creates the payment. */
  lemma RetryChangesNothing(db: Db, req: Request, row: Option<nat>, pid: nat, p: nat)
    requires Inv(db) && pid !in db.payments && p in db.payments && db.payments[p].key == req.key
    ensures var (next, reply) := CreatePayment(db, req, row, pid);
            next == db && (reply.Refused? || reply == PaymentReply(p, true))
  {}

  predicate SameAmounts(a: Payment, b: Payment) {
    a.principal == b.principal && a.fee == b.fee && a.payable == b.payable && a.via == b.via
  }

  lemma QuietStep(db: Db, s: Step)
    requires s.Submit? || s.Reject? || s.SetStatus? || s.Revoke?
    ensures Next(db, s).payments == db.payments && Next(db, s).rows == db.rows
  {
    hide CreatePayment, ApproveProof, ConfirmImport, SavePreview, VoidPayment, MergeUsers, Outstanding,
      ProofWithRequest;
  }

  /** Payments are never removed, and keep their key and amounts for the rest of the run. */
  lemma StepKeepsPayments(db: Db, s: Step, p: nat)
    requires Inv(db) && Offered(db, s) && p in db.payments
    ensures p in Next(db, s).payments && Next(db, s).payments[p].key == db.payments[p].key
    ensures SameAmounts(Next(db, s).payments[p], db.payments[p])
    ensures db.payments[p].status == Voided ==> Next(db, s).payments[p].status == Voided
  {
    hide CreatePayment, ApproveProof, ConfirmImport, SavePreview, VoidPayment, MergeUsers, RevokeImport, SubmitProof,
      RejectProof, SetUserStatus, Inv, FindsUser;
    match s
    case Void(pid, reason) => VoidFrame(db, pid, reason);
    case Merge(source, target, reason) => MergeFrame(db, source, target, reason);
    case Upload(bid, p) => SaveFrame(db, bid, p);
    case Confirm(bid, allow, rules) => ConfirmFrame(db, bid, allow, rules);
    case Create(req, row, pid) => CreateFrame(db, req, row, pid);
    case Approve(id, paidAtValid, lines, row, pid) => ApproveFrame(db, id, paidAtValid, lines, row, pid);
    case _ => QuietStep(db, s);
  }

  lemma {:induction false} RunKeepsPayments(db: Db, steps: seq<Step>, p: nat)
    requires Inv(db) && Possible(db, steps) && p in db.payments
    ensures p in Run(db, steps).payments && Run(db, steps).payments[p].key == db.payments[p].key
    ensures SameAmounts(Run(db, steps).payments[p], db.payments[p])
    ensures db.payments[p].status == Voided ==> Run(db, steps).payments[p].status == Voided
    decreases |steps|
  {
    if steps != [] {
      StepKeepsInv(db, steps[0]);
      StepKeepsPayments(db, steps[0], p);
      RunKeepsPayments(Next(db, steps[0]), steps[1..], p);
    }
  }

  /** A key used once stays used: whatever happens in between, a later request with the
      same key that succeeds answers with the payment the first one made. */
  lemma KeyUsedOnce(db: Db, req: Request, row: Option<nat>, pid: nat, between: seq<Step>, again: Request,
                    row2: Option<nat>, pid2: nat)
    requires Inv(db) && Offered(db, Create(req, row, pid)) && CreatePayment(db, req, row, pid).1.PaymentReply?
    requires var mid := CreatePayment(db, req, row, pid).0;
             Possible(mid, between) && Offered(Run(mid, between), Create(again, row2, pid2)) && again.key == req.key
    ensures var last := Run(CreatePayment(db, req, row, pid).0, between);
            var (next, reply) := CreatePayment(last, again, row2, pid2);
            next == last && (reply.Refused? || reply == PaymentReply(CreatePayment(db, req, row, pid).1.payment, true))
  {
    var (mid, first) := CreatePayment(db, req, row, pid);
    CreateKeepsInv(db, req, row, pid);
    CreateReply(db, req, row, pid);
    RunKeepsInv(mid, between);
    RunKeepsPayments(mid, between, first.payment);
    RetryChangesNothing(Run(mid, between), again, row2, pid2, first.payment);
  }

  // ---------- Proofs ----------

  /** A reviewed proof is final: no step changes its status or its link again. */
  lemma ReviewIsFinal(db: Db, s: Step, id: string)
    requires Offered(db, s) && id in db.proofs && db.proofs[id].status != Pending
    ensures id in Next(db, s).proofs && Next(db, s).proofs[id] == db.proofs[id]
  {
    hide CreatePayment, ApproveProof, ConfirmImport, SavePreview, VoidPayment, MergeUsers;
    match s
    case Void(pid, reason) => VoidFrame(db, pid, reason);
    case Merge(source, target, reason) => MergeFrame(db, source, target, reason);
    case Upload(bid, p) => SaveFrame(db, bid, p);
    case Confirm(bid, allow, rules) => ConfirmFrame(db, bid, allow, rules);
    case Create(req, row, pid) => CreateFrame(db, req, row, pid);
    case Approve(other, paidAtValid, lines, row, pid) => ApproveFrame(db, other, paidAtValid, lines, row, pid);
    case _ =>
  }

  lemma {:induction false} ReviewedOnce(db: Db, steps: seq<Step>, id: string)
    requires Possible(db, steps) && id in db.proofs && db.proofs[id].status != Pending
    ensures id in Run(db, steps).proofs && Run(db, steps).proofs[id] == db.proofs[id]
    decreases |steps|
  {
    if steps != [] {
      ReviewIsFinal(db, steps[0], id);
      ReviewedOnce(Next(db, steps[0]), steps[1..], id);
    }
  }

  // ---------- Which steps move money ----------

  lemma MovedUsers(db: Db, source: nat, target: nat, reason: string, i: nat)
    ensures PaidOf(MergeUsers(db, source, target, reason).0, i) == PaidOf(db, i)
  {
    var next := MergeUsers(db, source, target, reason).0;
    MergeFrame(db, source, target, reason);
    if next.payments != db.payments {
      assert next.payments.Keys == db.payments.Keys;
    }
    PaidFrame(db.payments, next.payments, db.rows, i);
  }

  /** A creation records a new approved payment, or leaves every row and payment alone. */
  lemma CreateMoves(db: Db, req: Request, row: Option<nat>, pid: nat)
    ensures var next := CreatePayment(db, req, row, pid).0;
            || (next.payments == db.payments && next.rows == db.rows)
            || (pid in next.payments && next.payments[pid].status == Approved)
  {
    hide AllocationError, RecalcItems, RecalcOrders, PaymentWithKey, RequestError, NewRows, SumFor;
  }

  lemma ApproveMoves(db: Db, id: string, paidAtValid: bool, lines: seq<Line>, row: Option<nat>, pid: nat)
    ensures var next := ApproveProof(db, id, paidAtValid, lines, row, pid).0;
            || (next.payments == db.payments && next.rows == db.rows)
            || (pid in next.payments && next.payments[pid].status == Approved)
  {
    hide CreatePayment;
    if id in db.proofs { CreateMoves(db, ProofRequest(db.proofs[id], id, paidAtValid, lines), row, pid); }
  }

  lemma VoidMoves(db: Db, pid: nat, reason: string)
    ensures var next := VoidPayment(db, pid, reason).0;
            || (next.payments == db.payments && next.rows == db.rows)
            || (pid in db.payments && db.payments[pid].status == Approved && pid in next.payments
                && next.payments[pid].status == Voided)
  {
    hide RecalcItems, RecalcOrders;
  }

  /** Only recording or voiding a payment moves money: any step after which an item's paid sum
      differs recorded a new approved payment, or voided an approved one. In particular submitting
      and rejecting proofs, merging users and importing or revoking items move none. */
  lemma OnlyPaymentsMoveMoney(db: Db, s: Step, i: nat)
    requires Inv(db) && Offered(db, s) && PaidOf(Next(db, s), i) != PaidOf(db, i)
    ensures match s
            case Create(_, _, pid) =>
              pid !in db.payments && pid in Next(db, s).payments && Next(db, s).payments[pid].status == Approved
            case Approve(_, _, _, _, pid) =>
              pid !in db.payments && pid in Next(db, s).payments && Next(db, s).payments[pid].status == Approved
            case Void(pid, _) =>
              pid in db.payments && db.payments[pid].status == Approved && Next(db, s).payments[pid].status == Voided
            case _ => false
  {
    hide CreatePayment, ApproveProof, ConfirmImport, SavePreview, VoidPayment, MergeUsers, RevokeImport, SubmitProof,
      RejectProof, SetUserStatus, Inv, FindsUser;
    match s
    case Upload(bid, p) => SaveFrame(db, bid, p);
    case Confirm(bid, allow, rules) => ConfirmFrame(db, bid, allow, rules);
    case Merge(source, target, reason) => MovedUsers(db, source, target, reason, i);
    case Create(req, row, pid) => CreateMoves(db, req, row, pid);
    case Void(pid, reason) => VoidMoves(db, pid, reason);
    case Approve(id, paidAtValid, lines, row, pid) => ApproveMoves(db, id, paidAtValid, lines, row, pid);
    case _ => QuietStep(db, s);
  }

  /** In every reachable state a proof is accepted exactly when it links a payment, and
      that payment is linked by no other proof. */
  lemma LinksCorrect(steps: seq<Step>, a: string, b: string)
    requires Possible(EMPTY, steps) && a in Run(EMPTY, steps).proofs && b in Run(EMPTY, steps).proofs
    ensures var db := Run(EMPTY, steps);
            && (db.proofs[a].status == Accepted <==> db.proofs[a].linked.Some?)
            && (db.proofs[a].linked.Some? ==> db.proofs[a].linked.value in db.payments)
            && (db.proofs[a].linked.Some? && db.proofs[a].linked == db.proofs[b].linked ==> a == b)
  {
    InitialInv();
    RunKeepsInv(EMPTY, steps);
    var db := Run(EMPTY, steps);
    if db.proofs[a].linked.Some? && db.proofs[a].linked == db.proofs[b].linked {
      LinksDistinct(db, a, b);
    }
  }

  // ---------- Outstanding principal ----------

  function OwnTotal(db: Db, u: nat, n: nat): int
    requires n <= |db.items|
  {
    if n == 0 then 0 else OwnTotal(db, u, n - 1) + if PayableBy(db, n - 1, u) then db.items[n - 1].amount else 0
  }

  /** The approved money on what a user can pay for. */
  function OwnApproved(db: Db, u: nat, n: nat): int
    requires n <= |db.items|
  {
    if n == 0 then 0 else OwnApproved(db, u, n - 1) + if PayableBy(db, n - 1, u) then PaidOf(db, n - 1) else 0
  }

  lemma {:induction false} TotalSplits(db: Db, u: nat, n: nat)
    requires n <= |db.items| && Amounts(db)
    ensures OwnTotal(db, u, n) == OwnApproved(db, u, n) + Outstanding(db, u, n)
    ensures 0 <= Outstanding(db, u, n) <= OwnTotal(db, u, n)
  {
    if n > 0 {
      TotalSplits(db, u, n - 1);
      PaidNonNegative(db.payments, db.rows, n - 1);
    }
  }

  /** In every reachable state a user's outstanding principal is exactly what their items cost less
      the approved money on them: capping each item's share hides no over-payment. */
  lemma OutstandingIsUnpaid(steps: seq<Step>, u: nat)
    requires Possible(EMPTY, steps)
    ensures var db := Run(EMPTY, steps);
            var n := |db.items|;
            && Outstanding(db, u, n) == OwnTotal(db, u, n) - OwnApproved(db, u, n)
            && 0 <= Outstanding(db, u, n) <= OwnTotal(db, u, n)
  {
    InitialInv();
    RunKeepsInv(EMPTY, steps);
    TotalSplits(Run(EMPTY, steps), u, |Run(EMPTY, steps).items|);
  }

  // ---------- Batches ----------

  predicate Settled(status: BatchStatus) { status == Confirmed || status == Reverted }

  /** A settled batch stays settled, a reverted one stays reverted, and no batch changes its file hash. */
  lemma StepKeepsBatch(db: Db, s: Step, b: nat)
    requires Offered(db, s) && b in db.batches
    ensures b in Next(db, s).batches && Next(db, s).batches[b].hash == db.batches[b].hash
    ensures Settled(db.batches[b].status) ==> Settled(Next(db, s).batches[b].status)
    ensures db.batches[b].status == Reverted ==> Next(db, s).batches[b].status == Reverted
  {
    hide CreatePayment, ApproveProof, ConfirmImport, SavePreview, VoidPayment, MergeUsers;
    match s
    case Void(pid, reason) => VoidFrame(db, pid, reason);
    case Merge(source, target, reason) => MergeFrame(db, source, target, reason);
    case Upload(bid, p) => SaveFrame(db, bid, p);
    case Confirm(bid, allow, rules) => ConfirmFrame(db, bid, allow, rules);
    case Create(req, row, pid) => CreateFrame(db, req, row, pid);
    case Approve(id, paidAtValid, lines, row, pid) => ApproveFrame(db, id, paidAtValid, lines, row, pid);
    case _ =>
  }

  lemma {:induction false} RunKeepsBatch(db: Db, steps: seq<Step>, b: nat)
    requires Possible(db, steps) && b in db.batches
    ensures b in Run(db, steps).batches && Run(db, steps).batches[b].hash == db.batches[b].hash
    ensures Settled(db.batches[b].status) ==> Settled(Run(db, steps).batches[b].status)
    ensures db.batches[b].status == Reverted ==> Run(db, steps).batches[b].status == Reverted
    decreases |steps|
  {
    if steps != [] {
      StepKeepsBatch(db, steps[0], b);
      RunKeepsBatch(Next(db, steps[0]), steps[1..], b);
    }
  }

  lemma ConfirmSettles(db: Db, bid: nat, allow: bool, rules: Rules)
    requires ConfirmImport(db, bid, allow, rules).1.ConfirmReply?
    ensures bid in db.batches && bid in ConfirmImport(db, bid, allow, rules).0.batches
    ensures Settled(ConfirmImport(db, bid, allow, rules).0.batches[bid].status)
    ensures ConfirmImport(db, bid, allow, rules).0.batches[bid].hash == db.batches[bid].hash
  {
    hide ImportAll, Entries, Adjusted, PreviewError, SubmitOrders;
  }

  lemma SameHashSameBatch(db: Db, a: nat, b: nat)
    requires Inv(db) && a in db.batches && b in db.batches && db.batches[a].hash == db.batches[b].hash
    ensures a == b
  {}

  lemma SettledRefuses(db: Db, bid: nat, allow: bool, rules: Rules)
    requires bid in db.batches && Settled(db.batches[bid].status)
    ensures ConfirmImport(db, bid, allow, rules).1.Refused?
  {
    hide ConfirmPreview, Adjusted;
  }

  /** Each file hash is confirmed at most once: after a confirmation, whatever happens,
      confirming any batch with the same hash is refused. */
  lemma HashConfirmedOnce(db: Db, bid: nat, allow: bool, rules: Rules, between: seq<Step>, bid2: nat, allow2: bool,
                          rules2: Rules)
    requires Inv(db) && ConfirmImport(db, bid, allow, rules).1.ConfirmReply?
    requires var mid := ConfirmImport(db, bid, allow, rules).0;
             && Possible(mid, between)
             && bid2 in Run(mid, between).batches && Run(mid, between).batches[bid2].hash == db.batches[bid].hash
    ensures ConfirmImport(Run(ConfirmImport(db, bid, allow, rules).0, between), bid2, allow2, rules2).1.Refused?
  {
    var mid := ConfirmImport(db, bid, allow, rules).0;
    ConfirmSettles(db, bid, allow, rules);
    ConfirmKeepsInv(db, bid, allow, rules);
    RunKeepsInv(mid, between);
    RunKeepsBatch(mid, between, bid);
    SameHashSameBatch(Run(mid, between), bid, bid2);
    SettledRefuses(Run(mid, between), bid, allow2, rules2);
    hide ConfirmImport, Inv, Run, Possible;
  }
}
