/** The payment ledger: users, orders, items, payments, payment proofs and import
    batches as one database value, and every store transaction as a function from
    the database before to the database after and a reply.  A transaction that
    fails rolls back: it returns the database unchanged. */
module Ledger {
  import opened Text
  import opened Money
  import opened ImportRules

  // ---------- Tables ----------

  datatype UserStatus = Active | Disabled | Merged
  datatype User = User(cn: string, status: UserStatus)

  datatype OrderStatus = Draft | Submitted | PartiallyPaid | PaidUp | Cancelled
  datatype Order = Order(user: nat, status: OrderStatus, total: int)

  datatype Item = Item(order: nat, product: nat, batch: nat, quantity: int, amount: int, status: ItemStatus,
                       revoked: bool)

  /** Legacy stands for the submitted, rejected and cancelled rows no current code writes. */
  datatype PaymentStatus = Approved | Voided | Legacy
  datatype Payment = Payment(user: nat, principal: int, fee: int, payable: int, via: Method, status: PaymentStatus,
                             key: string)
  datatype PayRow = PayRow(payment: nat, item: nat, applied: int)

  datatype ProofStatus = Pending | Accepted | Rejected
  datatype Proof = Proof(user: nat, cn: string, via: Method, principal: int, fee: int, payable: int,
                         requestId: string, status: ProofStatus, linked: Option<nat>)

  datatype BatchStatus =
    | Waiting | Processing | Previewed | Confirmed | Completed | PartlyDone | Failed | Withdrawn | Reverted
  datatype Batch = Batch(hash: string, status: BatchStatus, payload: Option<Preview>)

  datatype ProductKey = ProductKey(batchId: string, name: string, category: string, seriesCode: string,
                                   groupName: string,
                                   characterName: string, columnName: string, priceType: string, unitPrice: int)
  datatype Product = Product(batch: nat, sku: ProductKey)

  /** Rows of users, products, orders and items are never deleted: a row's id is its index.
      Payments are keyed by an id that the database generates. */
  datatype Db = Db(
    users: seq<User>, products: seq<Product>, orders: seq<Order>, items: seq<Item>,
    payments: map<nat, Payment>, rows: seq<PayRow>,
    proofs: map<string, Proof>, batches: map<nat, Batch>)

  const EMPTY := Db([], [], [], [], map[], [], map[], map[])

  datatype Error =
    | CNRequired | UserNotFound | NoPaymentItems | InvalidAmount | OverPayment | ItemMismatch | IdempotencyKeyRequired
    | PaymentTime | PaymentNotFound | VoidReasonRequired | AlreadyVoid | NotApproved | InvalidMethod
    | MergeReasonRequired | MergeSameUser | MergeSourceNotActive | MergeTargetNotActive
    | ImportNotFound | ImportAlreadyConfirmed | ImportNotConfirmable | InvalidImportRules | ImportHasFatalErrors
    | WarningsNeedApproval | NoOrderItems | ImportAlreadyReverted | ImportNotConfirmed
    | ProofNotFound | ProofNotPending | ConstraintViolation

  datatype Reply =
    | Done
    | PaymentReply(payment: nat, duplicate: bool)
    | ProofReply(proof: string, deduplicated: bool)
    | ConfirmReply(cnCount: nat, productCount: nat, orderCount: nat, itemCount: nat, totalQuantity: int,
                   totalAmount: int)
    | RevokeReply(itemCount: nat, totalAmount: int)
    | Refused(error: Error)

  // ---------- Derived values ----------

  function Applied(payments: map<nat, Payment>, r: PayRow): int {
    if r.payment in payments && payments[r.payment].status == Approved then r.applied else 0
  }

  /** The approved money applied to an item: the sum the stored statuses are copies of. */
  function PaidIn(payments: map<nat, Payment>, rows: seq<PayRow>, i: nat): int {
    if rows == [] then 0
    else
      var n := |rows| - 1;
      PaidIn(payments, rows[..n], i) + if rows[n].item == i then Applied(payments, rows[n]) else 0
  }

  function PaidOf(db: Db, i: nat): int {
    PaidIn(db.payments, db.rows, i)
  }

  predicate LiveIn(it: Item, o: nat) {
    it.order == o && !it.revoked
  }

  function LiveSum(items: seq<Item>, o: nat): int {
    if items == [] then 0
    else
      var n := |items| - 1;
      LiveSum(items[..n], o) + if LiveIn(items[n], o) then items[n].amount else 0
  }

  function LiveCount(items: seq<Item>, o: nat): nat {
    if items == [] then 0
    else
      var n := |items| - 1;
      LiveCount(items[..n], o) + if LiveIn(items[n], o) then 1 else 0
  }

  function StatusCount(items: seq<Item>, o: nat, status: ItemStatus): nat {
    if items == [] then 0
    else
      var n := |items| - 1;
      StatusCount(items[..n], o, status) + if LiveIn(items[n], o) && items[n].status == status then 1 else 0
  }

  function OrderStatusOf(items: seq<Item>, o: nat, current: OrderStatus): OrderStatus {
    var paid := StatusCount(items, o, Paid);
    if LiveCount(items, o) == 0 then current
    else if paid == LiveCount(items, o) then PaidUp
    else if paid > 0 || StatusCount(items, o, Partial) > 0 then PartiallyPaid
    else Submitted
  }

  predicate OwnedBy(db: Db, i: nat, u: nat)
    requires i < |db.items|
  {
    db.items[i].order < |db.orders| && db.orders[db.items[i].order].user == u
  }

  // ---------- Recalculation of one user's stored statuses ----------

  function RecalcItems(db: Db, u: nat): seq<Item> {
    seq(|db.items|, i requires 0 <= i < |db.items| =>
      if OwnedBy(db, i, u) && !db.items[i].revoked
      then db.items[i].(status := RecalcStatus(PaidOf(db, i), db.items[i].amount))
      else db.items[i])
  }

  function RecalcOrders(orders: seq<Order>, items: seq<Item>, u: nat): seq<Order> {
    seq(|orders|, o requires 0 <= o < |orders| =>
      if orders[o].user == u && orders[o].status != Cancelled
      then orders[o].(status := OrderStatusOf(items, o, orders[o].status))
      else orders[o])
  }

  function Recalculate(db: Db, u: nat): Db {
    var items := RecalcItems(db, u);
    db.(items := items, orders := RecalcOrders(db.orders, items, u))
  }

  // ---------- Recording a payment ----------

  /** One line of a request; a blank item id is None. */
  datatype Line = Line(item: Option<nat>, amount: int)
  datatype Request = Request(cn: string, via: Option<Method>, paidAtValid: bool, key: string, lines: seq<Line>)

  /** Lines for the same item are added up. */
  function MergeLines(lines: seq<Line>): map<Option<nat>, int> {
    if lines == [] then map[]
    else
      var merged := MergeLines(lines[..|lines| - 1]);
      var l := lines[|lines| - 1];
      merged[l.item := (if l.item in merged then merged[l.item] else 0) + l.amount]
  }

  function ItemIds(merged: map<Option<nat>, int>): set<nat> {
    set k | k in merged && k.Some? :: k.value
  }

  /** An item the given user can pay: in a live order of theirs, and not revoked. */
  predicate PayableBy(db: Db, i: nat, u: nat)
    requires i < |db.items|
  {
    OwnedBy(db, i, u) && db.orders[db.items[i].order].status != Cancelled && !db.items[i].revoked
  }

  /** The requested items among the first n that the user can pay, in table order. */
  function Locked(db: Db, u: nat, ids: set<nat>, n: nat): seq<nat>
    requires n <= |db.items|
  {
    if n == 0 then []
    else Locked(db, u, ids, n - 1) + if n - 1 in ids && PayableBy(db, n - 1, u) then [n - 1] else []
  }

  function AmountFor(merged: map<Option<nat>, int>, i: nat): int {
    if Some(i) in merged then merged[Some(i)] else 0
  }

  function SumFor(merged: map<Option<nat>, int>, locked: seq<nat>): int {
    if locked == [] then 0
    else SumFor(merged, locked[..|locked| - 1]) + AmountFor(merged, locked[|locked| - 1])
  }

  function NewRows(pid: nat, merged: map<Option<nat>, int>, locked: seq<nat>): seq<PayRow> {
    seq(|locked|, k requires 0 <= k < |locked| => PayRow(pid, locked[k], AmountFor(merged, locked[k])))
  }

  predicate OverPays(db: Db, merged: map<Option<nat>, int>, locked: seq<nat>) {
    exists k :: 0 <= k < |locked| && locked[k] < |db.items|
             && Exceeds(AmountFor(merged, locked[k]), Remaining(PaidOf(db, locked[k]), db.items[locked[k]].amount))
  }

  ghost function PaymentWithKey(db: Db, key: string): Option<nat> {
    if exists p :: p in db.payments && db.payments[p].key == key
    then var p :| p in db.payments && db.payments[p].key == key; Some(p)
    else None
  }

  predicate MatchesCN(u: User, cn: string) {
    u.status == Active && FoldCN(u.cn) == FoldCN(cn)
  }

  /** The row a lookup by CN returns: any active user whose folded code equals the
      folded CN, or none when there is no such user. */
  predicate FindsUser(users: seq<User>, cn: string, row: Option<nat>) {
    match row
    case Some(u) => u < |users| && MatchesCN(users[u], cn)
    case None => forall u :: 0 <= u < |users| ==> !MatchesCN(users[u], cn)
  }

  /** What a payment request must look like before the database is asked. */
  function RequestError(req: Request): Option<Error> {
    if Clean(req.cn) == "" then Some(CNRequired)
    else if Trim(req.key) == "" then Some(IdempotencyKeyRequired)
    else if req.lines == [] then Some(NoPaymentItems)
    else if !req.paidAtValid then Some(PaymentTime)
    else None
  }

  /** What is checked against the database for a new payment of user u. */
  function AllocationError(db: Db, req: Request, u: nat): Option<Error> {
    var merged := MergeLines(req.lines);
    var locked := Locked(db, u, ItemIds(merged), |db.items|);
    if exists k :: k in merged && (k == None || merged[k] <= 0) then Some(InvalidAmount)
    else if |locked| != |ItemIds(merged)| then Some(ItemMismatch)
    else if OverPays(db, merged, locked) then Some(OverPayment)
    else if SumFor(merged, locked) <= 0 then Some(InvalidAmount)
    else if req.via == None then Some(InvalidMethod)
    else None
  }

  /** The tables after the payment and its rows are inserted, before statuses are recalculated. */
  function InsertPayment(db: Db, req: Request, u: nat, pid: nat): Db
    requires req.via.Some?
  {
    var merged := MergeLines(req.lines);
    var locked := Locked(db, u, ItemIds(merged), |db.items|);
    var principal := SumFor(merged, locked);
    var payment := Payment(u, principal, Fee(principal, req.via.value), Payable(principal, req.via.value),
                           req.via.value, Approved, req.key);
    db.(payments := db.payments[pid := payment], rows := db.rows + NewRows(pid, merged, locked))
  }

  ghost function CreatePayment(db: Db, req: Request, row: Option<nat>, pid: nat): (Db, Reply) {
    if RequestError(req).Some? then (db, Refused(RequestError(req).value))
    else if row == None then (db, Refused(UserNotFound))
    else if PaymentWithKey(db, req.key).Some? then (db, PaymentReply(PaymentWithKey(db, req.key).value, true))
    else if AllocationError(db, req, row.value).Some? then (db, Refused(AllocationError(db, req, row.value).value))
    else (Recalculate(InsertPayment(db, req, row.value, pid), row.value), PaymentReply(pid, false))
  }

  function VoidPayment(db: Db, pid: nat, reason: string): (Db, Reply) {
    if Trim(reason) == "" then (db, Refused(VoidReasonRequired))
    else if pid !in db.payments then (db, Refused(PaymentNotFound))
    else if db.payments[pid].status == Voided then (db, Refused(AlreadyVoid))
    else if db.payments[pid].status != Approved then (db, Refused(NotApproved))
    else
      var voided := db.(payments := db.payments[pid := db.payments[pid].(status := Voided)]);
      (Recalculate(voided, db.payments[pid].user), Done)
  }

  // ---------- Payment proofs ----------

  const KEY_PREFIX := "payment-submission:"

  function ProofKey(id: string): string {
    KEY_PREFIX + id
  }

  function ItemOutstanding(db: Db, u: nat, i: nat): int
    requires i < |db.items|
  {
    if PayableBy(db, i, u) then Remaining(PaidOf(db, i), db.items[i].amount) else 0
  }

  /** A user's unpaid principal over the first n items. */
  function Outstanding(db: Db, u: nat, n: nat): int
    requires n <= |db.items|
  {
    if n == 0 then 0 else Outstanding(db, u, n - 1) + ItemOutstanding(db, u, n - 1)
  }

  predicate SameSubmission(p: Proof, user: nat, requestId: string) {
    requestId != "" && p.user == user && p.requestId == requestId
  }

  ghost function ProofWithRequest(db: Db, user: nat, requestId: string): Option<string> {
    if exists id :: id in db.proofs && SameSubmission(db.proofs[id], user, requestId)
    then var id :| id in db.proofs && SameSubmission(db.proofs[id], user, requestId); Some(id)
    else None
  }

  ghost function SubmitProof(db: Db, id: string, user: nat, cn: string, via: Option<Method>,
                             requestId: string): (Db, Reply) {
    if via != Some(Alipay) && via != Some(WeChat) then (db, Refused(InvalidMethod))
    else if ProofWithRequest(db, user, requestId).Some?
      then (db, ProofReply(ProofWithRequest(db, user, requestId).value, true))
    else
      var principal := Max(Outstanding(db, user, |db.items|), 0);
      var proof := Proof(user, cn, via.value, principal, Fee(principal, via.value), Payable(principal, via.value),
                         requestId, Pending, None);
      (db.(proofs := db.proofs[id := proof]), ProofReply(id, false))
  }

  function ProofRequest(p: Proof, id: string, paidAtValid: bool, lines: seq<Line>): Request {
    Request(p.cn, Some(p.via), paidAtValid, ProofKey(id), lines)
  }

  ghost function ApproveProof(db: Db, id: string, paidAtValid: bool, lines: seq<Line>, row: Option<nat>,
                              pid: nat): (Db, Reply) {
    if lines == [] then (db, Refused(NoPaymentItems))
    else if id !in db.proofs then (db, Refused(ProofNotFound))
    else if db.proofs[id].status != Pending then (db, Refused(ProofNotPending))
    else
      var (paid, reply) := CreatePayment(db, ProofRequest(db.proofs[id], id, paidAtValid, lines), row, pid);
      match reply
      case PaymentReply(p, _) =>
        (paid.(proofs := paid.proofs[id := paid.proofs[id].(status := Accepted, linked := Some(p))]),
         ProofReply(id, false))
      case _ => (db, reply)
  }

  /** A blank reason is refused by the table's check constraint
      (backend/migrations/0021_payment_submissions.sql:60-63), not by the store method. */
  function RejectProof(db: Db, id: string, reason: string): (Db, Reply) {
    if id !in db.proofs then (db, Refused(ProofNotFound))
    else if db.proofs[id].status != Pending then (db, Refused(ProofNotPending))
    else if Trim(reason) == "" then (db, Refused(ConstraintViolation))
    else (db.(proofs := db.proofs[id := db.proofs[id].(status := Rejected)]), Done)
  }

  // ---------- Users ----------

  function MoveOrders(orders: seq<Order>, source: nat, target: nat): seq<Order> {
    seq(|orders|, o requires 0 <= o < |orders| =>
        if orders[o].user == source then orders[o].(user := target) else orders[o])
  }

  function MovePayments(payments: map<nat, Payment>, source: nat, target: nat): map<nat, Payment> {
    map p | p in payments :: if payments[p].user == source then payments[p].(user := target) else payments[p]
  }

  function MergeUsers(db: Db, source: nat, target: nat, reason: string): (Db, Reply) {
    if Trim(reason) == "" then (db, Refused(MergeReasonRequired))
    else if source == target then (db, Refused(MergeSameUser))
    else if source >= |db.users| || target >= |db.users| then (db, Refused(UserNotFound))
    else if db.users[source].status == Merged then (db, Refused(MergeSourceNotActive))
    else if db.users[target].status != Active then (db, Refused(MergeTargetNotActive))
    else
      (db.(orders := MoveOrders(db.orders, source, target), payments := MovePayments(db.payments, source, target),
           users := db.users[source := db.users[source].(status := Merged)]), Done)
  }

  /** An admin enables or disables a user's access. */
  function SetUserStatus(db: Db, u: nat, enabled: bool): (Db, Reply) {
    if u >= |db.users| || db.users[u].status == Merged then (db, Refused(UserNotFound))
    else (db.(users := db.users[u := db.users[u].(status := if enabled then Active else Disabled)]), Done)
  }

  // ---------- Imports ----------

  ghost function BatchWithHash(db: Db, hash: string): Option<nat> {
    if exists b :: b in db.batches && db.batches[b].hash == hash
    then var b :| b in db.batches && db.batches[b].hash == hash; Some(b)
    else None
  }

  predicate Refreshable(status: BatchStatus) {
    status == Previewed || status == Waiting || status == Failed || status == Withdrawn
  }

  /** A new file gets batch id bid; a known file keeps its batch, which is refreshed unless it went on to be
      confirmed. */
  ghost function SavePreview(db: Db, bid: nat, p: Preview): (Db, Reply) {
    match BatchWithHash(db, p.fileHash)
    case None => (db.(batches := db.batches[bid := Batch(p.fileHash, Previewed, Some(p))]), Done)
    case Some(b) =>
      if Refreshable(db.batches[b].status)
      then (db.(batches := db.batches[b := db.batches[b].(status := Previewed, payload := Some(p))]), Done)
      else (db, Done)
  }

  /** A detail together with the batch preview it came from. */
  datatype Entry = Entry(batch: BatchPreview, detail: Detail)

  function EntriesOf(b: BatchPreview, ds: seq<Detail>): seq<Entry> {
    seq(|ds|, i requires 0 <= i < |ds| => Entry(b, ds[i]))
  }

  function Entries(bs: seq<BatchPreview>): seq<Entry> {
    if bs == [] then []
    else Entries(bs[..|bs| - 1]) + EntriesOf(bs[|bs| - 1], bs[|bs| - 1].details)
  }

  function ProductName(b: BatchPreview, d: Detail): string {
    if Trim(d.goodsSeries) != "" then Trim(d.goodsSeries)
    else if Trim(b.sheetTitle) != "" then Trim(b.sheetTitle)
    else if Trim(b.batchName) != "" then Trim(b.batchName)
    else d.itemName
  }

  function KeyOfProduct(e: Entry): ProductKey {
    ProductKey(e.batch.id, ProductName(e.batch, e.detail), e.detail.productCategory, e.detail.seriesCode,
               e.detail.groupName,
               e.detail.characterName, e.detail.columnName, e.detail.priceType, e.detail.unitPrice)
  }

  /** The unique record id of an imported line. */
  datatype RecordKey = RecordKey(sheetName: string, batchId: string, cn: string, columnName: string, rowNumber: int,
                                 itemName: string)

  function KeyOfRecord(e: Entry): RecordKey {
    RecordKey(e.detail.sheetName, e.batch.id, e.detail.normalizedCN, e.detail.columnName, e.detail.rowNumber,
              e.detail.itemName)
  }

  /** The tables an import works on, and the id maps it keeps while it runs. */
  datatype Work = Work(
    users: seq<User>, products: seq<Product>, orders: seq<Order>, items: seq<Item>,
    userIds: map<string, nat>, productIds: map<ProductKey, nat>, orderIds: map<nat, nat>, records: set<RecordKey>)

  function StartWork(db: Db): Work {
    Work(db.users, db.products, db.orders, db.items, map[], map[], map[], {})
  }

  /** The index of the user with exactly this code, or |users| when there is none. */
  function UserIndex(users: seq<User>, cn: string): (u: nat)
    ensures u <= |users|
    ensures u < |users| ==> users[u].cn == cn
    ensures u == |users| ==> forall v :: 0 <= v < |users| ==> users[v].cn != cn
  {
    if users == [] then 0
    else
      var u := UserIndex(users[..|users| - 1], cn);
      assert forall v :: 0 <= v < |users| - 1 ==> users[..|users| - 1][v] == users[v];
      if u < |users| - 1 then u
      else if users[|users| - 1].cn == cn then |users| - 1
      else |users|
  }

  function EnsureUser(w: Work, cn: string): Work {
    if cn in w.userIds then w
    else
      var u := UserIndex(w.users, cn);
      w.(users := if u == |w.users| then w.users + [User(cn, Active)] else w.users, userIds := w.userIds[cn := u])
  }

  function EnsureProduct(w: Work, bid: nat, sku: ProductKey): Work {
    if sku in w.productIds then w
    else w.(products := w.products + [Product(bid, sku)], productIds := w.productIds[sku := |w.products|])
  }

  function EnsureOrder(w: Work, user: nat): Work {
    if user in w.orderIds then w
    else w.(orders := w.orders + [Order(user, Draft, 0)], orderIds := w.orderIds[user := |w.orders|])
  }

  /** The table constraints an inserted line must meet. */
  predicate Insertable(w: Work, e: Entry) {
    e.detail.quantity > 0 && e.detail.amount >= 0 && e.detail.unitPrice >= 0 && KeyOfRecord(e) !in w.records
  }

  function ImportEntry(w: Work, bid: nat, e: Entry): Option<Work> {
    if !Insertable(w, e) then None
    else
      var w1 := EnsureUser(w, e.detail.normalizedCN);
      var user := w1.userIds[e.detail.normalizedCN];
      var w2 := EnsureProduct(w1, bid, KeyOfProduct(e));
      var w3 := EnsureOrder(w2, user);
      var item := Item(w3.orderIds[user], w3.productIds[KeyOfProduct(e)], bid, e.detail.quantity, e.detail.amount,
                       Unpaid, false);
      Some(w3.(items := w3.items + [item], records := w3.records + {KeyOfRecord(e)}))
  }

  function ImportAll(w: Work, bid: nat, es: seq<Entry>): Option<Work> {
    if es == [] then Some(w)
    else
      match ImportAll(w, bid, es[..|es| - 1])
      case None => None
      case Some(w1) => ImportEntry(w1, bid, es[|es| - 1])
  }

  function SumQuantities(es: seq<Entry>): int {
    if es == [] then 0 else SumQuantities(es[..|es| - 1]) + es[|es| - 1].detail.quantity
  }

  function SumAmounts(es: seq<Entry>): int {
    if es == [] then 0 else SumAmounts(es[..|es| - 1]) + es[|es| - 1].detail.amount
  }

  function SubmitOrders(orders: seq<Order>, items: seq<Item>, ids: set<nat>): seq<Order> {
    seq(|orders|, o requires 0 <= o < |orders| =>
      if o in ids then orders[o].(total := LiveSum(items, o), status := Submitted) else orders[o])
  }

  predicate HasFatal(issues: seq<Issue>) {
    exists i :: 0 <= i < |issues| && issues[i].level == FatalError
  }

  predicate AlreadyConfirmed(status: BatchStatus) {
    status == Confirmed || status == Completed || status == PartlyDone
  }

  /** Why a batch cannot be confirmed, before its preview is looked at. */
  function ConfirmError(db: Db, bid: nat): Option<Error> {
    if bid !in db.batches then Some(ImportNotFound)
    else if AlreadyConfirmed(db.batches[bid].status) then Some(ImportAlreadyConfirmed)
    else if db.batches[bid].status != Previewed then Some(ImportNotConfirmable)
    else if db.batches[bid].payload == None then Some(ImportNotFound)
    else None
  }

  /** Why an adjusted preview cannot be confirmed. */
  function PreviewError(p: Preview, allowWarnings: bool): Option<Error> {
    if HasFatal(p.errors) then Some(ImportHasFatalErrors)
    else if |p.warnings| > 0 && !allowWarnings then Some(WarningsNeedApproval)
    else if Entries(p.batches) == [] then Some(NoOrderItems)
    else None
  }

  function FinishImport(db: Db, bid: nat, w: Work): Db
    requires bid in db.batches
  {
    db.(users := w.users, products := w.products, items := w.items,
        orders := SubmitOrders(w.orders, w.items, w.orderIds.Values),
        batches := db.batches[bid := db.batches[bid].(status := Confirmed)])
  }

  /** The import of an adjusted preview. */
  function ConfirmPreview(db: Db, bid: nat, p: Preview, allowWarnings: bool): (Db, Reply)
    requires bid in db.batches
  {
    if PreviewError(p, allowWarnings).Some? then (db, Refused(PreviewError(p, allowWarnings).value))
    else
      var es := Entries(p.batches);
      match ImportAll(StartWork(db), bid, es)
      case None => (db, Refused(ConstraintViolation))
      case Some(w) =>
        (FinishImport(db, bid, w),
         ConfirmReply(|w.userIds|, |w.productIds|, |w.orderIds|, |es|, SumQuantities(es), SumAmounts(es)))
  }

  ghost function ConfirmImport(db: Db, bid: nat, allowWarnings: bool, rules: Rules): (Db, Reply) {
    if ConfirmError(db, bid).Some? then (db, Refused(ConfirmError(db, bid).value))
    else
      match Adjusted(db.batches[bid].payload.value, rules)
      case None => (db, Refused(InvalidImportRules))
      case Some(p) => ConfirmPreview(db, bid, p, allowWarnings)
  }

  predicate LiveOfBatch(it: Item, bid: nat) {
    it.batch == bid && !it.revoked
  }

  function BatchCount(items: seq<Item>, bid: nat): nat {
    if items == [] then 0
    else BatchCount(items[..|items| - 1], bid) + if LiveOfBatch(items[|items| - 1], bid) then 1 else 0
  }

  function BatchSum(items: seq<Item>, bid: nat): int {
    if items == [] then 0
    else
      BatchSum(items[..|items| - 1], bid) +
      if LiveOfBatch(items[|items| - 1], bid) then items[|items| - 1].amount else 0
  }

  function TouchedOrders(items: seq<Item>, bid: nat): set<nat> {
    set i | 0 <= i < |items| && LiveOfBatch(items[i], bid) :: items[i].order
  }

  function RevokeItems(items: seq<Item>, bid: nat): seq<Item> {
    seq(|items|, i requires 0 <= i < |items| =>
        if LiveOfBatch(items[i], bid) then items[i].(revoked := true) else items[i])
  }

  function CancelOrders(orders: seq<Order>, items: seq<Item>, touched: set<nat>): seq<Order> {
    seq(|orders|, o requires 0 <= o < |orders| =>
      if o in touched
      then orders[o].(total := LiveSum(items, o),
                      status := if LiveCount(items, o) > 0 then orders[o].status else Cancelled)
      else orders[o])
  }

  function RevokeBatch(db: Db, bid: nat): Db
    requires bid in db.batches
  {
    var items := RevokeItems(db.items, bid);
    db.(items := items, orders := CancelOrders(db.orders, items, TouchedOrders(db.items, bid)),
        batches := db.batches[bid := db.batches[bid].(status := Reverted)])
  }

  function RevokeImport(db: Db, bid: nat): (Db, Reply) {
    if bid !in db.batches then (db, Refused(ImportNotFound))
    else if db.batches[bid].status == Reverted || db.batches[bid].status == Withdrawn
      then (db, Refused(ImportAlreadyReverted))
    else if db.batches[bid].status != Confirmed then (db, Refused(ImportNotConfirmed))
    else if BatchCount(db.items, bid) == 0 then (db, Refused(ImportAlreadyReverted))
    else (RevokeBatch(db, bid), RevokeReply(BatchCount(db.items, bid), BatchSum(db.items, bid)))
  }

  // ---------- Runs ----------

  datatype Step =
    | Upload(bid: nat, preview: Preview)
    | Confirm(bid: nat, allowWarnings: bool, rules: Rules)
    | Revoke(bid: nat)
    | Create(req: Request, row: Option<nat>, pid: nat)
    | Void(pid: nat, reason: string)
    | Submit(proof: string, user: nat, cn: string, via: Option<Method>, requestId: string)
    | Approve(proof: string, paidAtValid: bool, lines: seq<Line>, row: Option<nat>, pid: nat)
    | Reject(proof: string, reason: string)
    | Merge(source: nat, target: nat, reason: string)
    | SetStatus(user: nat, enabled: bool)

  /** What the database guarantees about a step's arguments: generated ids are new,
      a proof comes from an existing user, and a CN lookup returned a matching row. */
  predicate Offered(db: Db, s: Step) {
    match s
    case Upload(bid, _) => bid !in db.batches
    case Create(req, row, pid) => pid !in db.payments && FindsUser(db.users, req.cn, row)
    case Submit(id, user, _, _, _) => id !in db.proofs && user < |db.users|
    case Approve(id, _, _, row, pid) =>
      pid !in db.payments && (id in db.proofs ==> FindsUser(db.users, db.proofs[id].cn, row))
    case _ => true
  }

  ghost function Apply(db: Db, s: Step): (Db, Reply) {
    match s
    case Upload(bid, p) => SavePreview(db, bid, p)
    case Confirm(bid, allow, rules) => ConfirmImport(db, bid, allow, rules)
    case Revoke(bid) => RevokeImport(db, bid)
    case Create(req, row, pid) => CreatePayment(db, req, row, pid)
    case Void(pid, reason) => VoidPayment(db, pid, reason)
    case Submit(id, user, cn, via, requestId) => SubmitProof(db, id, user, cn, via, requestId)
    case Approve(id, paidAtValid, lines, row, pid) => ApproveProof(db, id, paidAtValid, lines, row, pid)
    case Reject(id, reason) => RejectProof(db, id, reason)
    case Merge(source, target, reason) => MergeUsers(db, source, target, reason)
    case SetStatus(user, enabled) => SetUserStatus(db, user, enabled)
  }

  ghost function Next(db: Db, s: Step): Db { Apply(db, s).0 }

  ghost predicate Succeeds(db: Db, s: Step) { !Apply(db, s).1.Refused? }

  /** A refused transaction leaves no trace. */
  lemma RefusedRollsBack(db: Db, s: Step)
    ensures !Succeeds(db, s) ==> Next(db, s) == db
  {}

  ghost function Run(db: Db, steps: seq<Step>): Db
    decreases |steps|
  {
    if steps == [] then db else Run(Next(db, steps[0]), steps[1..])
  }

  ghost predicate Possible(db: Db, steps: seq<Step>)
    decreases |steps|
  {
    steps == [] || (Offered(db, steps[0]) && Possible(Next(db, steps[0]), steps[1..]))
  }
}
