/** The stores' methods, with the tables as fields and the loops of the Go code, proved
    against the transactions of module Ledger.  A method that refuses leaves the tables
    as they were, as the rolled-back transaction does. */
module LedgerStore {
  import opened Text
  import opened Money
  import opened ImportRules
  import ImportRulesApply
  import opened Ledger
  import opened LedgerInvariant
  import LedgerImports
  import LedgerPayments
  import LedgerRuns

  method MergeRequestItems(lines: seq<Line>) returns (merged: map<Option<nat>, int>)
    ensures merged == MergeLines(lines)
  {
    merged := map[];
    for i := 0 to |lines|
      invariant merged == MergeLines(lines[..i])
    {
      assert lines[..i + 1][..i] == lines[..i];
      var l := lines[i];
      merged := merged[l.item := (if l.item in merged then merged[l.item] else 0) + l.amount];
    }
    assert lines[..|lines|] == lines;
  }

  /** The ids of the merged lines, unless some id is blank or some amount is not positive. */
  method PositiveIds(merged: map<Option<nat>, int>) returns (ids: Option<set<nat>>)
    ensures ids == if exists k :: k in merged && (k == None || merged[k] <= 0) then None else Some(ItemIds(merged))
  {
    var found: set<nat> := {};
    var rest := merged.Keys;
    while rest != {}
      invariant rest <= merged.Keys
      invariant forall k :: k in merged && k !in rest ==> k != None && merged[k] > 0
      invariant found == set k | k in merged && k !in rest && k.Some? :: k.value
      decreases rest
    {
      var k :| k in rest;
      if k == None || merged[k] <= 0 {
        return None;
      }
      found := found + {k.value};
      rest := rest - {k};
    }
    assert found == ItemIds(merged);
    return Some(found);
  }

  method HasFatalIssues(issues: seq<Issue>) returns (fatal: bool)
    ensures fatal == HasFatal(issues)
  {
    for i := 0 to |issues|
      invariant forall j :: 0 <= j < i ==> issues[j].level != FatalError
    {
      if issues[i].level == FatalError {
        return true;
      }
    }
    return false;
  }

  // ---------- The import loop ----------

  lemma EntriesStep(bs: seq<BatchPreview>, i: nat)
    requires i < |bs|
    ensures Entries(bs[..i + 1]) == Entries(bs[..i]) + EntriesOf(bs[i], bs[i].details)
  {
    assert bs[..i + 1][..i] == bs[..i];
  }

  lemma EntriesOfStep(b: BatchPreview, ds: seq<Detail>, j: nat)
    requires j < |ds|
    ensures EntriesOf(b, ds[..j + 1]) == EntriesOf(b, ds[..j]) + [Entry(b, ds[j])]
  {}

  lemma ImportSnoc(w: Work, bid: nat, es: seq<Entry>, e: Entry)
    requires ImportAll(w, bid, es).Some?
    ensures ImportAll(w, bid, es + [e]) == ImportEntry(ImportAll(w, bid, es).value, bid, e)
    ensures SumQuantities(es + [e]) == SumQuantities(es) + e.detail.quantity
    ensures SumAmounts(es + [e]) == SumAmounts(es) + e.detail.amount
  {
    hide ImportEntry;
    assert (es + [e])[..|es|] == es;
  }

  lemma {:induction false} ImportStaysFailed(w: Work, bid: nat, es: seq<Entry>, n: nat)
    requires n <= |es| && ImportAll(w, bid, es[..n]) == None
    ensures ImportAll(w, bid, es) == None
    decreases |es|
  {
    hide ImportEntry;
    if n == |es| {
      assert es[..n] == es;
    } else {
      var m := |es| - 1;
      assert es[..m][..n] == es[..n];
      ImportStaysFailed(w, bid, es[..m], n);
    }
  }

  lemma {:induction false} EntriesPrefix(bs: seq<BatchPreview>, i: nat)
    requires i <= |bs|
    ensures Entries(bs[..i]) <= Entries(bs)
    decreases |bs| - i
  {
    if i == |bs| {
      assert bs[..i] == bs;
    } else {
      EntriesPrefix(bs, i + 1);
      EntriesStep(bs, i);
    }
  }

  /** A line that cannot be inserted fails the whole import. */
  /** The lines up to the j-th of batch i, and that line, begin the whole list. */
  lemma EntriesUpTo(bs: seq<BatchPreview>, i: nat, j: nat)
    requires i < |bs| && j < |bs[i].details|
    ensures Entries(bs[..i]) + EntriesOf(bs[i], bs[i].details[..j]) + [Entry(bs[i], bs[i].details[j])] <= Entries(bs)
  {
    EntriesStep(bs, i);
    EntriesPrefix(bs, i + 1);
    hide Entries;
    var own := EntriesOf(bs[i], bs[i].details);
    assert EntriesOf(bs[i], bs[i].details[..j]) + [Entry(bs[i], bs[i].details[j])] == own[..j + 1];
    assert Entries(bs[..i]) + own[..j + 1] <= Entries(bs[..i]) + own;
  }

  lemma FailsAt(w: Work, bid: nat, bs: seq<BatchPreview>, i: nat, j: nat)
    requires i < |bs| && j < |bs[i].details|
    requires var es := Entries(bs[..i]) + EntriesOf(bs[i], bs[i].details[..j]);
             ImportAll(w, bid, es).Some?
               && ImportEntry(ImportAll(w, bid, es).value, bid, Entry(bs[i], bs[i].details[j])) == None
    ensures ImportAll(w, bid, Entries(bs)) == None
  {
    hide ImportEntry, ImportAll, Entries, EntriesOf;
    var es := Entries(bs[..i]) + EntriesOf(bs[i], bs[i].details[..j]);
    var e := Entry(bs[i], bs[i].details[j]);
    ImportSnoc(w, bid, es, e);
    EntriesUpTo(bs, i, j);
    assert Entries(bs)[..|es| + 1] == es + [e];
    ImportStaysFailed(w, bid, Entries(bs), |es| + 1);
  }

  /** The nested loop of ConfirmImport, over working copies of the tables. */
  method ImportLoop(start: Work, bid: nat, bs: seq<BatchPreview>)
    returns (result: Option<Work>, count: nat, quantity: int, amount: int)
    requires start.userIds == map[] && start.productIds == map[] && start.orderIds == map[] && start.records == {}
    ensures result == ImportAll(start, bid, Entries(bs))
    ensures result.Some? ==>
              count == |Entries(bs)| && quantity == SumQuantities(Entries(bs)) && amount == SumAmounts(Entries(bs))
  {
    var w := start;
    count, quantity, amount := 0, 0, 0;
    for i := 0 to |bs|
      invariant ImportAll(start, bid, Entries(bs[..i])) == Some(w)
      invariant count == |Entries(bs[..i])| && quantity == SumQuantities(Entries(bs[..i]))
      invariant amount == SumAmounts(Entries(bs[..i]))
    {
      var batch := bs[i];
      ghost var done := Entries(bs[..i]);
      assert done + EntriesOf(batch, batch.details[..0]) == done;
      for j := 0 to |batch.details|
        invariant ImportAll(start, bid, done + EntriesOf(batch, batch.details[..j])) == Some(w)
        invariant count == |done + EntriesOf(batch, batch.details[..j])|
        invariant quantity == SumQuantities(done + EntriesOf(batch, batch.details[..j]))
        invariant amount == SumAmounts(done + EntriesOf(batch, batch.details[..j]))
      {
        var detail := batch.details[j];
        ghost var es := done + EntriesOf(batch, batch.details[..j]);
        ImportSnoc(start, bid, es, Entry(batch, detail));
        EntriesOfStep(batch, batch.details, j);
        assert done + EntriesOf(batch, batch.details[..j + 1]) == es + [Entry(batch, detail)];
        var next := InsertEntry(w, bid, batch, detail);
        if next == None {
          FailsAt(start, bid, bs, i, j);
          return None, 0, 0, 0;
        }
        w := next.value;
        count, quantity, amount := count + 1, quantity + detail.quantity, amount + detail.amount;
      }
      assert batch.details[..|batch.details|] == batch.details;
      EntriesStep(bs, i);
    }
    assert bs[..|bs|] == bs;
    return Some(w), count, quantity, amount;
  }

  /** The body of the loop: a user, a product and an order are looked up in the id maps and
      made when missing, then the item is inserted. */
  method InsertEntry(w: Work, bid: nat, batch: BatchPreview, detail: Detail) returns (next: Option<Work>)
    ensures next == ImportEntry(w, bid, Entry(batch, detail))
  {
    var users, products, orders, items := w.users, w.products, w.orders, w.items;
    var userIds, productIds, orderIds := w.userIds, w.productIds, w.orderIds;
    var e := Entry(batch, detail);
    if !Insertable(w, e) {
      return None;
    }
    var userId: nat;
    if detail.normalizedCN in userIds {
      userId := userIds[detail.normalizedCN];
    } else {
      userId := UserIndex(users, detail.normalizedCN);
      if userId == |users| {
        users := users + [User(detail.normalizedCN, Active)];
      }
      userIds := userIds[detail.normalizedCN := userId];
    }
    var sku := KeyOfProduct(e);
    var productId: nat;
    if sku in productIds {
      productId := productIds[sku];
    } else {
      productId := |products|;
      products := products + [Product(bid, sku)];
      productIds := productIds[sku := productId];
    }
    var orderId: nat;
    if userId in orderIds {
      orderId := orderIds[userId];
    } else {
      orderId := |orders|;
      orders := orders + [Order(userId, Draft, 0)];
      orderIds := orderIds[userId := orderId];
    }
    items := items + [Item(orderId, productId, bid, detail.quantity, detail.amount, Unpaid, false)];
    hide KeyOfProduct, KeyOfRecord, UserIndex;
    return Some(Work(users, products, orders, items, userIds, productIds, orderIds, w.records + {KeyOfRecord(e)}));
  }

  /** The loop over the new orders that sets their totals and submits them. */
  method SubmitLoop(orders: seq<Order>, items: seq<Item>, orderIds: map<nat, nat>) returns (r: seq<Order>)
    ensures r == SubmitOrders(orders, items, orderIds.Values)
  {
    r := orders;
    var rest := orderIds.Values;
    while rest != {}
      invariant rest <= orderIds.Values && |r| == |orders|
      invariant forall o :: 0 <= o < |orders| ==> r[o] == if o in orderIds.Values && o !in rest
                  then orders[o].(total := LiveSum(items, o), status := Submitted) else orders[o]
      decreases rest
    {
      var orderId :| orderId in rest;
      if orderId < |r| {
        r := r[orderId := r[orderId].(total := LiveSum(items, orderId), status := Submitted)];
      }
      rest := rest - {orderId};
    }
  }

  /** The loop of RevokeImport over the touched orders. */
  method CancelLoop(orders: seq<Order>, items: seq<Item>, touched: set<nat>) returns (r: seq<Order>)
    ensures r == CancelOrders(orders, items, touched)
  {
    r := orders;
    var rest := touched;
    while rest != {}
      invariant rest <= touched && |r| == |orders|
      invariant forall o :: 0 <= o < |orders| ==> r[o] == if o in touched && o !in rest
                  then orders[o].(total := LiveSum(items, o),
                                  status := if LiveCount(items, o) > 0 then orders[o].status else Cancelled)
                  else orders[o]
      decreases rest
    {
      var orderId :| orderId in rest;
      if orderId < |r| {
        var status := if LiveCount(items, orderId) > 0 then r[orderId].status else Cancelled;
        r := r[orderId := r[orderId].(total := LiveSum(items, orderId), status := status)];
      }
      rest := rest - {orderId};
    }
  }

  // ---------- The stores ----------

  class Store {
    var users: seq<User>
    var products: seq<Product>
    var orders: seq<Order>
    var items: seq<Item>
    var payments: map<nat, Payment>
    var rows: seq<PayRow>
    var proofs: map<string, Proof>
    var batches: map<nat, Batch>

    function State(): Db
      reads this
    {
      Db(users, products, orders, items, payments, rows, proofs, batches)
    }

    ghost predicate Valid()
      reads this
    {
      Inv(State())
    }

    constructor ()
      ensures Valid() && State() == EMPTY
    {
      users, products, orders, items := [], [], [], [];
      payments, rows, proofs, batches := map[], [], map[], map[];
      new;
      InitialInv();
    }

    /** The lookup by idempotency key. */
    method FindPayment(key: string) returns (p: Option<nat>)
      requires Keys(State()) && key != ""
      ensures p == PaymentWithKey(State(), key)
    {
      var rest := payments.Keys;
      while rest != {}
        invariant rest <= payments.Keys
        invariant forall q :: q in payments && payments[q].key == key ==> q in rest
        decreases rest
      {
        var q :| q in rest;
        if payments[q].key == key {
          assert PaymentWithKey(State(), key) == Some(q);
          return Some(q);
        }
        rest := rest - {q};
      }
      return None;
    }

    /** The rows `for update`: the requested items the user can pay. */
    method LockPaymentItems(u: nat, ids: set<nat>) returns (locked: seq<nat>)
      ensures locked == Locked(State(), u, ids, |items|)
    {
      locked := [];
      for i := 0 to |items|
        invariant locked == Locked(State(), u, ids, i)
      {
        if i in ids && PayableBy(State(), i, u) {
          locked := locked + [i];
        }
      }
    }

    /** The loop over the locked rows: each line must fit what remains, and the total is added up. */
    method CheckAmounts(merged: map<Option<nat>, int>, locked: seq<nat>) returns (total: Option<int>)
      requires forall k :: 0 <= k < |locked| ==> locked[k] < |items|
      ensures total == if OverPays(State(), merged, locked) then None else Some(SumFor(merged, locked))
    {
      var sum := 0;
      for k := 0 to |locked|
        invariant sum == SumFor(merged, locked[..k])
        invariant forall j :: 0 <= j < k ==>
                    !Exceeds(AmountFor(merged, locked[j]),
                             Remaining(PaidOf(State(), locked[j]), items[locked[j]].amount))
      {
        assert locked[..k + 1][..k] == locked[..k];
        var i := locked[k];
        if Exceeds(AmountFor(merged, i), Remaining(PaidOf(State(), i), items[i].amount)) {
          return None;
        }
        sum := sum + AmountFor(merged, i);
      }
      assert locked[..|locked|] == locked;
      return Some(sum);
    }

    /** The loop that inserts one payment row per locked item. */
    method InsertRows(pid: nat, merged: map<Option<nat>, int>, locked: seq<nat>)
      modifies this`rows
      ensures rows == old(rows) + NewRows(pid, merged, locked)
    {
      for k := 0 to |locked|
        invariant rows == old(rows) + NewRows(pid, merged, locked)[..k]
      {
        rows := rows + [PayRow(pid, locked[k], AmountFor(merged, locked[k]))];
      }
    }

    method RecalculateUser(u: nat)
      modifies this`items, this`orders
      ensures State() == Recalculate(old(State()), u)
    {
      items := RecalcItems(State(), u);
      orders := RecalcOrders(orders, items, u);
    }

    method RecordPayment(req: Request, row: Option<nat>, pid: nat) returns (reply: Reply)
      requires Valid() && Offered(State(), Create(req, row, pid))
      modifies this`payments, this`rows, this`items, this`orders
      ensures Valid()
      ensures (State(), reply) == CreatePayment(old(State()), req, row, pid)
    {
      LedgerPayments.CreateKeepsInv(State(), req, row, pid);
      ghost var before := State();
      hide Inv;
      if Clean(req.cn) == "" {
        return Refused(CNRequired);
      }
      if Trim(req.key) == "" {
        return Refused(IdempotencyKeyRequired);
      }
      if req.lines == [] {
        return Refused(NoPaymentItems);
      }
      if !req.paidAtValid {
        return Refused(PaymentTime);
      }
      KeysOf(before);
      var existing := FindPayment(req.key);
      if row == None {
        return Refused(UserNotFound);
      }
      if existing.Some? {
        return PaymentReply(existing.value, true);
      }
      var u := row.value;
      var error := AddPayment(req, u, pid);
      if error.Some? {
        return Refused(error.value);
      }
      RecalculateUser(u);
      return PaymentReply(pid, false);
    }

    /** The allocation check and the inserts. */
    method AddPayment(req: Request, u: nat, pid: nat) returns (error: Option<Error>)
      modifies this`payments, this`rows
      ensures error == AllocationError(old(State()), req, u)
      ensures State() == if error == None && req.via.Some? then InsertPayment(old(State()), req, u, pid)
                else old(State())
      ensures error == None ==> req.via.Some?
    {
      var merged := MergeRequestItems(req.lines);
      var ids := PositiveIds(merged);
      if ids == None {
        return Some(InvalidAmount);
      }
      var locked := LockPaymentItems(u, ids.value);
      if |locked| != |ids.value| {
        return Some(ItemMismatch);
      }
      LockedInTable(State(), u, ids.value, |items|);
      var total := CheckAmounts(merged, locked);
      if total == None {
        return Some(OverPayment);
      }
      var base := total.value;
      if base <= 0 {
        return Some(InvalidAmount);
      }
      if req.via == None {
        return Some(InvalidMethod);
      }
      var via := req.via.value;
      payments := payments[pid := Payment(u, base, Fee(base, via), Payable(base, via), via, Approved, req.key)];
      InsertRows(pid, merged, locked);
      return None;
    }

    method Void(pid: nat, reason: string) returns (reply: Reply)
      requires Valid()
      modifies this`payments, this`items, this`orders
      ensures Valid()
      ensures (State(), reply) == VoidPayment(old(State()), pid, reason)
    {
      LedgerPayments.VoidKeepsInv(State(), pid, reason);
      hide Inv;
      if Trim(reason) == "" {
        return Refused(VoidReasonRequired);
      }
      if pid !in payments {
        return Refused(PaymentNotFound);
      }
      var userId, status := payments[pid].user, payments[pid].status;
      if status == Voided {
        return Refused(AlreadyVoid);
      }
      if status != Approved {
        return Refused(NotApproved);
      }
      payments := payments[pid := payments[pid].(status := Voided)];
      RecalculateUser(userId);
      return Done;
    }

    /** The sum that the proof form shows: what the user's payable items still owe. */
    method OutstandingPrincipal(u: nat) returns (sum: int)
      ensures sum == Outstanding(State(), u, |items|)
    {
      sum := 0;
      for i := 0 to |items|
        invariant sum == Outstanding(State(), u, i)
      {
        if PayableBy(State(), i, u) {
          sum := sum + Remaining(PaidOf(State(), i), items[i].amount);
        }
      }
    }

    method FindProof(user: nat, requestId: string) returns (p: Option<string>)
      requires Proofs(State())
      ensures p == ProofWithRequest(State(), user, requestId)
    {
      var rest := proofs.Keys;
      while rest != {}
        invariant rest <= proofs.Keys
        invariant forall id :: id in proofs && SameSubmission(proofs[id], user, requestId) ==> id in rest
        decreases rest
      {
        var id :| id in rest;
        if SameSubmission(proofs[id], user, requestId) {
          assert ProofWithRequest(State(), user, requestId) == Some(id);
          return Some(id);
        }
        rest := rest - {id};
      }
      return None;
    }

    method SubmitPaymentProof(id: string, user: nat, cn: string, via: Option<Method>, requestId: string)
      returns (reply: Reply)
      requires Valid() && Offered(State(), Submit(id, user, cn, via, requestId))
      modifies this`proofs
      ensures Valid()
      ensures (State(), reply) == SubmitProof(old(State()), id, user, cn, via, requestId)
    {
      LedgerPayments.SubmitKeepsInv(State(), id, user, cn, via, requestId);
      if via != Some(Alipay) && via != Some(WeChat) {
        return Refused(InvalidMethod);
      }
      var principal := OutstandingPrincipal(user);
      if principal < 0 {
        principal := 0;
      }
      var existing := FindProof(user, requestId);
      if existing.Some? {
        return ProofReply(existing.value, true);
      }
      proofs := proofs[id := Proof(user, cn, via.value, principal, Fee(principal, via.value),
                                   Payable(principal, via.value),
                                   requestId, Pending, None)];
      return ProofReply(id, false);
    }

    method ApprovePaymentProof(id: string, paidAtValid: bool, lines: seq<Line>, row: Option<nat>, pid: nat)
      returns (reply: Reply)
      requires Valid() && Offered(State(), Approve(id, paidAtValid, lines, row, pid))
      modifies this`proofs, this`payments, this`rows, this`items, this`orders
      ensures Valid()
      ensures (State(), reply) == ApproveProof(old(State()), id, paidAtValid, lines, row, pid)
    {
      hide Inv, CreatePayment, FindsUser, ProofKey;
      LedgerPayments.ApproveKeepsInv(State(), id, paidAtValid, lines, row, pid);
      if lines == [] {
        return Refused(NoPaymentItems);
      }
      if id !in proofs {
        return Refused(ProofNotFound);
      }
      if proofs[id].status != Pending {
        return Refused(ProofNotPending);
      }
      var req := ProofRequest(proofs[id], id, paidAtValid, lines);
      LedgerRuns.CreateFrame(State(), req, row, pid);
      reply := RecordPayment(req, row, pid);
      if reply.Refused? {
        RefusedCreate(old(State()), req, row, pid);
        return;
      }
      proofs := proofs[id := proofs[id].(status := Accepted, linked := Some(reply.payment))];
      return ProofReply(id, false);
    }

    method RejectPaymentProof(id: string, reason: string) returns (reply: Reply)
      requires Valid()
      modifies this`proofs
      ensures Valid()
      ensures (State(), reply) == RejectProof(old(State()), id, reason)
    {
      LedgerPayments.RejectKeepsInv(State(), id, reason);
      if id !in proofs {
        return Refused(ProofNotFound);
      }
      if proofs[id].status != Pending {
        return Refused(ProofNotPending);
      }
      if Trim(reason) == "" {
        return Refused(ConstraintViolation);
      }
      proofs := proofs[id := proofs[id].(status := Rejected)];
      return Done;
    }

    /** The loop that collects the two locked rows, in id order. */
    method LockUsers(source: nat, target: nat) returns (locked: map<nat, User>)
      ensures forall u :: u in locked <==> (u == source || u == target) && u < |users|
      ensures forall u :: u in locked ==> locked[u] == users[u]
    {
      locked := map[];
      var wanted := if source < target then [source, target] else [target, source];
      for i := 0 to |wanted|
        invariant locked.Keys == set j | 0 <= j < i && wanted[j] < |users| :: wanted[j]
        invariant forall u :: u in locked ==> u < |users| && locked[u] == users[u]
      {
        if wanted[i] < |users| {
          locked := locked[wanted[i] := users[wanted[i]]];
        }
      }
      assert source == wanted[if source < target then 0 else 1];
      assert target == wanted[if source < target then 1 else 0];
    }

    method MergeAccounts(source: nat, target: nat, reason: string) returns (reply: Reply)
      requires Valid()
      modifies this`users, this`orders, this`payments
      ensures Valid()
      ensures (State(), reply) == MergeUsers(old(State()), source, target, reason)
    {
      LedgerPayments.MergeKeepsInv(State(), source, target, reason);
      hide Inv, MoveOrders, MovePayments;
      if Trim(reason) == "" {
        return Refused(MergeReasonRequired);
      }
      if source == target {
        return Refused(MergeSameUser);
      }
      var locked := LockUsers(source, target);
      if source !in locked || target !in locked {
        return Refused(UserNotFound);
      }
      if locked[source].status == Merged {
        return Refused(MergeSourceNotActive);
      }
      if locked[target].status != Active {
        return Refused(MergeTargetNotActive);
      }
      orders := MoveOrders(orders, source, target);
      payments := MovePayments(payments, source, target);
      users := users[source := users[source].(status := Merged)];
      return Done;
    }

    method FindBatch(hash: string) returns (b: Option<nat>)
      requires Batches(State())
      ensures b == BatchWithHash(State(), hash)
    {
      var rest := batches.Keys;
      while rest != {}
        invariant rest <= batches.Keys
        invariant forall x :: x in batches && batches[x].hash == hash ==> x in rest
        decreases rest
      {
        var x :| x in rest;
        if batches[x].hash == hash {
          assert BatchWithHash(State(), hash) == Some(x);
          return Some(x);
        }
        rest := rest - {x};
      }
      return None;
    }

    method SaveImportPreview(bid: nat, p: Preview) returns (reply: Reply)
      requires Valid() && Offered(State(), Upload(bid, p))
      modifies this`batches
      ensures Valid()
      ensures (State(), reply) == SavePreview(old(State()), bid, p)
    {
      LedgerImports.SaveKeepsInv(State(), bid, p);
      var existing := FindBatch(p.fileHash);
      if existing == None {
        batches := batches[bid := Batch(p.fileHash, Previewed, Some(p))];
        return Done;
      }
      var b := existing.value;
      if batches[b].status == Previewed || batches[b].status == Waiting || batches[b].status == Failed
        || batches[b].status == Withdrawn {
        batches := batches[b := batches[b].(status := Previewed, payload := Some(p))];
      }
      return Done;
    }

    /** ConfirmImport from the adjusted preview on. */
    method ImportPreview(bid: nat, preview: Preview, allowWarnings: bool) returns (reply: Reply)
      requires bid in batches
      modifies this`users, this`products, this`orders, this`items, this`batches
      ensures (State(), reply) == ConfirmPreview(old(State()), bid, preview, allowWarnings)
    {
      hide Entries, ImportAll, SubmitOrders, HasFatal, SumQuantities, SumAmounts;
      var fatal := HasFatalIssues(preview.errors);
      if fatal {
        return Refused(ImportHasFatalErrors);
      }
      if |preview.warnings| > 0 && !allowWarnings {
        return Refused(WarningsNeedApproval);
      }
      if Entries(preview.batches) == [] {
        return Refused(NoOrderItems);
      }
      var result, count, quantity, amount := ImportLoop(StartWork(State()), bid, preview.batches);
      if result == None {
        return Refused(ConstraintViolation);
      }
      var w := result.value;
      var submitted := SubmitLoop(w.orders, w.items, w.orderIds);
      users, products, items, orders := w.users, w.products, w.items, submitted;
      batches := batches[bid := batches[bid].(status := Confirmed)];
      return ConfirmReply(|w.userIds|, |w.productIds|, |w.orderIds|, count, quantity, amount);
    }

    method ConfirmBatch(bid: nat, allowWarnings: bool, rules: Rules) returns (reply: Reply)
      requires Valid()
      modifies this`users, this`products, this`orders, this`items, this`batches
      ensures Valid()
      ensures (State(), reply) == ConfirmImport(old(State()), bid, allowWarnings, rules)
    {
      LedgerImports.ConfirmKeepsInv(State(), bid, allowWarnings, rules);
      hide Inv, Adjusted, ConfirmPreview;
      if bid !in batches {
        return Refused(ImportNotFound);
      }
      var status := batches[bid].status;
      if status == Confirmed || status == Completed || status == PartlyDone {
        return Refused(ImportAlreadyConfirmed);
      }
      if status != Previewed {
        return Refused(ImportNotConfirmable);
      }
      if batches[bid].payload == None {
        return Refused(ImportNotFound);
      }
      var adjusted := ImportRulesApply.ApplyImportRules(batches[bid].payload.value, rules);
      if adjusted == None {
        return Refused(InvalidImportRules);
      }
      reply := ImportPreview(bid, adjusted.value, allowWarnings);
    }

    /** The writes of RevokeImport. */
    method RevokeItemsOf(bid: nat)
      requires bid in batches
      modifies this`orders, this`items, this`batches
      ensures State() == Ledger.RevokeBatch(old(State()), bid)
    {
      hide RevokeItems, CancelOrders, TouchedOrders;
      var touched := TouchedOrders(items, bid);
      items := RevokeItems(items, bid);
      orders := CancelLoop(orders, items, touched);
      batches := batches[bid := batches[bid].(status := Reverted)];
    }

    method RevokeBatch(bid: nat) returns (reply: Reply)
      requires Valid()
      modifies this`orders, this`items, this`batches
      ensures Valid()
      ensures (State(), reply) == RevokeImport(old(State()), bid)
    {
      LedgerImports.RevokeKeepsInv(State(), bid);
      hide Inv, Ledger.RevokeBatch, BatchCount, BatchSum;
      if bid !in batches {
        return Refused(ImportNotFound);
      }
      var status := batches[bid].status;
      if status == Reverted || status == Withdrawn {
        return Refused(ImportAlreadyReverted);
      }
      if status != Confirmed {
        return Refused(ImportNotConfirmed);
      }
      var count, amount := BatchCount(items, bid), BatchSum(items, bid);
      if count == 0 {
        return Refused(ImportAlreadyReverted);
      }
      RevokeItemsOf(bid);
      return RevokeReply(count, amount);
    }
  }

  lemma KeysOf(db: Db)
    requires Inv(db)
    ensures Keys(db)
  {}

  lemma {:induction false} LockedInTable(db: Db, u: nat, ids: set<nat>, n: nat)
    requires n <= |db.items|
    ensures forall k :: 0 <= k < |Locked(db, u, ids, n)| ==> Locked(db, u, ids, n)[k] < n
  {
    if n > 0 {
      LockedInTable(db, u, ids, n - 1);
    }
  }

  lemma RefusedCreate(db: Db, req: Request, row: Option<nat>, pid: nat)
    requires CreatePayment(db, req, row, pid).1.Refused?
    ensures CreatePayment(db, req, row, pid).0 == db
  {}
}
