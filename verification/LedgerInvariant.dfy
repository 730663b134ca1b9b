/** The cross-table invariant of the ledger, and the proof that every transaction keeps it. */
module LedgerInvariant {
  import opened Text
  import opened Money
  import opened ImportRules
  import opened Ledger

  // ---------- The invariant ----------

  ghost predicate Refs(db: Db) {
    && (forall i :: 0 <= i < |db.items| ==> db.items[i].order < |db.orders|)
    && (forall o :: 0 <= o < |db.orders| ==> db.orders[o].user < |db.users|)
    && (forall k :: 0 <= k < |db.rows| ==> db.rows[k].item < |db.items| && db.rows[k].payment in db.payments)
    && (forall p :: p in db.payments ==> db.payments[p].user < |db.users|)
    && (forall u, v :: 0 <= u < v < |db.users| ==> db.users[u].cn != db.users[v].cn)
  }

  /** A payment's user owns the order of every item it pays. */
  ghost predicate Owners(db: Db)
    requires Refs(db)
  {
    forall k :: 0 <= k < |db.rows| ==>
      db.orders[db.items[db.rows[k].item].order].user == db.payments[db.rows[k].payment].user
  }

  /** No item is over-paid. */
  ghost predicate Amounts(db: Db) {
    && (forall k :: 0 <= k < |db.rows| ==> db.rows[k].applied > 0)
    && (forall i :: 0 <= i < |db.items| ==> db.items[i].amount >= 0 && PaidOf(db, i) <= db.items[i].amount)
  }

  /** The stored status of every live item is the classification of what is paid. */
  ghost predicate Statuses(db: Db) {
    forall i :: 0 <= i < |db.items| && !db.items[i].revoked
            ==> db.items[i].status == RecalcStatus(PaidOf(db, i), db.items[i].amount)
  }

  /** Totals are sums over live items; an order is cancelled exactly when it has none left. */
  ghost predicate Totals(db: Db) {
    forall o :: 0 <= o < |db.orders| ==>
      && db.orders[o].total == LiveSum(db.items, o)
      && (db.orders[o].status == Cancelled <==> LiveCount(db.items, o) == 0)
  }

  ghost predicate OrderStatuses(db: Db) {
    forall o :: 0 <= o < |db.orders| && db.orders[o].status != Cancelled
            ==> db.orders[o].status == OrderStatusOf(db.items, o, db.orders[o].status)
  }

  function PrincipalIn(rows: seq<PayRow>, p: nat): int {
    if rows == [] then 0
    else
      var n := |rows| - 1;
      PrincipalIn(rows[..n], p) + if rows[n].payment == p then rows[n].applied else 0
  }

  /** Each payment's principal is the sum of its rows, with at most one row per item, and payable adds the fee. */
  ghost predicate Principals(db: Db) {
    && (forall p :: p in db.payments && db.payments[p].status != Legacy ==>
          && db.payments[p].principal == PrincipalIn(db.rows, p)
          && db.payments[p].fee == Fee(db.payments[p].principal, db.payments[p].via)
          && db.payments[p].payable == db.payments[p].principal + db.payments[p].fee)
    && (forall j, k :: 0 <= j < k < |db.rows| ==>
        db.rows[j].payment != db.rows[k].payment || db.rows[j].item != db.rows[k].item)
  }

  /** Each idempotency key has at most one payment. */
  ghost predicate Keys(db: Db) {
    forall p, q ::
      p in db.payments && q in db.payments && db.payments[p].key != "" && db.payments[p].key == db.payments[q].key ==>
        p == q
  }

  /** A proof is accepted exactly when it links a payment, which carries the proof's own key. */
  ghost predicate Proofs(db: Db) {
    && (forall id :: id in db.proofs ==>
          && (db.proofs[id].status == Accepted <==> db.proofs[id].linked.Some?)
          && (db.proofs[id].linked.Some? ==>
                db.proofs[id].linked.value in db.payments
                  && db.payments[db.proofs[id].linked.value].key == ProofKey(id)))
    && (forall a, b ::
        a in db.proofs && b in db.proofs && SameSubmission(db.proofs[a], db.proofs[b].user, db.proofs[b].requestId) ==>
          a == b)
  }

  /** Items come from confirmed or reverted batches, are revoked exactly when their
      batch is reverted, and all items of an order come from one batch. */
  ghost predicate Batches(db: Db) {
    && (forall a, b :: a in db.batches && b in db.batches && db.batches[a].hash == db.batches[b].hash ==> a == b)
    && (forall i :: 0 <= i < |db.items| ==>
          && db.items[i].batch in db.batches
          && db.batches[db.items[i].batch].status in {Confirmed, Reverted}
          && (db.items[i].revoked <==> db.batches[db.items[i].batch].status == Reverted))
    && (forall i, j :: 0 <= i < j < |db.items| && db.items[i].order == db.items[j].order ==>
        db.items[i].batch == db.items[j].batch)
  }

  ghost predicate Inv(db: Db) {
    && Refs(db) && Owners(db) && Amounts(db) && Statuses(db) && Totals(db) && OrderStatuses(db)
    && Principals(db) && Keys(db) && Proofs(db) && Batches(db)
  }

  lemma InitialInv()
    ensures Inv(EMPTY)
  {}

  // ---------- Sums and counts under updates ----------

  /** Two item tables look alike to order o. */
  ghost predicate SameFor(a: seq<Item>, b: seq<Item>, o: nat) {
    && |a| == |b|
    && forall i :: 0 <= i < |a| ==>
         && (LiveIn(a[i], o) <==> LiveIn(b[i], o))
         && (LiveIn(a[i], o) ==> a[i].amount == b[i].amount)
  }

  lemma {:induction false} SumsFrame(a: seq<Item>, b: seq<Item>, o: nat)
    requires SameFor(a, b, o)
    ensures LiveSum(a, o) == LiveSum(b, o) && LiveCount(a, o) == LiveCount(b, o)
  {
    if a != [] {
      SumsFrame(a[..|a| - 1], b[..|b| - 1], o);
    }
  }

  lemma {:induction false} StatusFrame(a: seq<Item>, b: seq<Item>, o: nat, status: ItemStatus)
    requires |a| == |b|
    requires forall i :: 0 <= i < |a| ==>
               (LiveIn(a[i], o) <==> LiveIn(b[i], o)) && (LiveIn(a[i], o) ==> a[i].status == b[i].status)
    ensures StatusCount(a, o, status) == StatusCount(b, o, status)
  {
    if a != [] {
      StatusFrame(a[..|a| - 1], b[..|b| - 1], o, status);
    }
  }

  lemma OrderStatusFrame(a: seq<Item>, b: seq<Item>, o: nat, current: OrderStatus)
    requires SameFor(a, b, o)
    requires forall i :: 0 <= i < |a| && LiveIn(a[i], o) ==> a[i].status == b[i].status
    ensures OrderStatusOf(a, o, current) == OrderStatusOf(b, o, current)
  {
    SumsFrame(a, b, o);
    StatusFrame(a, b, o, Paid);
    StatusFrame(a, b, o, Partial);
  }

  lemma {:induction false} NoneLive(items: seq<Item>, o: nat)
    ensures LiveCount(items, o) == 0 <==> forall i :: 0 <= i < |items| ==> !LiveIn(items[i], o)
    ensures LiveCount(items, o) == 0 ==> LiveSum(items, o) == 0
  {
    if items != [] {
      NoneLive(items[..|items| - 1], o);
      assert forall i :: 0 <= i < |items| - 1 ==> items[..|items| - 1][i] == items[i];
    }
  }

  ghost predicate HasLive(items: seq<Item>, o: nat, status: ItemStatus) {
    exists i :: 0 <= i < |items| && LiveIn(items[i], o) && items[i].status == status
  }

  lemma HasLiveStep(items: seq<Item>, o: nat, status: ItemStatus)
    requires items != []
    ensures var n := |items| - 1;
            HasLive(items, o, status) <==>
              HasLive(items[..n], o, status) || (LiveIn(items[n], o) && items[n].status == status)
  {
    var n := |items| - 1;
    if HasLive(items[..n], o, status) {
      var i :| 0 <= i < n && LiveIn(items[..n][i], o) && items[..n][i].status == status;
      assert LiveIn(items[i], o);
    }
    if HasLive(items, o, status) {
      var i :| 0 <= i < |items| && LiveIn(items[i], o) && items[i].status == status;
      assert i < n ==> LiveIn(items[..n][i], o);
    }
  }

  /** The counts behind an order's status, said without counting: no live item
      leaves it alone, all paid makes it paid, some money on it makes it partly paid. */
  lemma {:induction false} CountsMeaning(items: seq<Item>, o: nat)
    ensures StatusCount(items, o, Paid) + StatusCount(items, o, Partial) + StatusCount(items, o, Unpaid) ==
              LiveCount(items, o)
    ensures StatusCount(items, o, Paid) > 0 <==> HasLive(items, o, Paid)
    ensures StatusCount(items, o, Partial) > 0 <==> HasLive(items, o, Partial)
    ensures StatusCount(items, o, Unpaid) > 0 <==> HasLive(items, o, Unpaid)
  {
    if items != [] {
      CountsMeaning(items[..|items| - 1], o);
      HasLiveStep(items, o, Paid);
      HasLiveStep(items, o, Partial);
      HasLiveStep(items, o, Unpaid);
    }
  }

  /** An order with live items is paid exactly when all of them are, submitted exactly
      when none has money on it, and partly paid otherwise. */
  lemma OrderStatusMeaning(items: seq<Item>, o: nat, current: OrderStatus)
    requires LiveCount(items, o) > 0
    ensures OrderStatusOf(items, o, current) == PaidUp <==> !HasLive(items, o, Unpaid) && !HasLive(items, o, Partial)
    ensures OrderStatusOf(items, o, current) == Submitted <==> !HasLive(items, o, Paid) && !HasLive(items, o, Partial)
    ensures OrderStatusOf(items, o, current) in {PaidUp, Submitted, PartiallyPaid}
  {
    CountsMeaning(items, o);
  }

  lemma {:induction false} PaidFrame(p: map<nat, Payment>, q: map<nat, Payment>, rows: seq<PayRow>, i: nat)
    requires forall k :: 0 <= k < |rows| && rows[k].item == i ==> Applied(p, rows[k]) == Applied(q, rows[k])
    ensures PaidIn(p, rows, i) == PaidIn(q, rows, i)
  {
    if rows != [] {
      var n := |rows| - 1;
      assert forall k :: 0 <= k < n ==> rows[..n][k] == rows[k];
      PaidFrame(p, q, rows[..n], i);
    }
  }

  lemma {:induction false} PaidConcat(p: map<nat, Payment>, a: seq<PayRow>, b: seq<PayRow>, i: nat)
    ensures PaidIn(p, a + b, i) == PaidIn(p, a, i) + PaidIn(p, b, i)
  {
    if b == [] {
      assert a + b == a;
    } else {
      var n := |b| - 1;
      assert (a + b)[..|a + b| - 1] == a + b[..n];
      PaidConcat(p, a, b[..n], i);
    }
  }

  lemma {:induction false} PaidNonNegative(p: map<nat, Payment>, rows: seq<PayRow>, i: nat)
    requires forall k :: 0 <= k < |rows| ==> rows[k].applied > 0
    ensures PaidIn(p, rows, i) >= 0
  {
    if rows != [] {
      PaidNonNegative(p, rows[..|rows| - 1], i);
    }
  }

  lemma {:induction false} PrincipalConcat(a: seq<PayRow>, b: seq<PayRow>, p: nat)
    ensures PrincipalIn(a + b, p) == PrincipalIn(a, p) + PrincipalIn(b, p)
  {
    if b == [] {
      assert a + b == a;
    } else {
      var n := |b| - 1;
      assert (a + b)[..|a + b| - 1] == a + b[..n];
      PrincipalConcat(a, b[..n], p);
    }
  }

  lemma {:induction false} PrincipalAbsent(rows: seq<PayRow>, p: nat)
    requires forall k :: 0 <= k < |rows| ==> rows[k].payment != p
    ensures PrincipalIn(rows, p) == 0
  {
    if rows != [] {
      var n := |rows| - 1;
      assert forall k :: 0 <= k < n ==> rows[..n][k] == rows[k];
      PrincipalAbsent(rows[..n], p);
    }
  }

  // ---------- Recalculating one user restores every status ----------

  /** Everything but the stored statuses of user u's items and orders is as the invariant says. */
  ghost predicate StaleOnlyFor(db: Db, u: nat) {
    && Refs(db) && Totals(db)
    && (forall i :: 0 <= i < |db.items| && !db.items[i].revoked && !OwnedBy(db, i, u)
            ==> db.items[i].status == RecalcStatus(PaidOf(db, i), db.items[i].amount))
    && (forall o :: 0 <= o < |db.orders| && db.orders[o].status != Cancelled && db.orders[o].user != u
            ==> db.orders[o].status == OrderStatusOf(db.items, o, db.orders[o].status))
  }

  lemma RecalculateRestores(db: Db, u: nat)
    requires StaleOnlyFor(db, u)
    ensures var r := Recalculate(db, u); Refs(r) && Statuses(r) && Totals(r) && OrderStatuses(r)
  {
    var r := Recalculate(db, u);
    assert forall i :: 0 <= i < |r.items| ==> PaidOf(r, i) == PaidOf(db, i);
    forall o | 0 <= o < |r.orders|
      ensures r.orders[o].total == LiveSum(r.items, o)
      ensures r.orders[o].status == Cancelled <==> LiveCount(r.items, o) == 0
      ensures r.orders[o].status != Cancelled ==> r.orders[o].status == OrderStatusOf(r.items, o, r.orders[o].status)
    {
      SumsFrame(db.items, r.items, o);
      if db.orders[o].status != Cancelled && db.orders[o].user != u {
        OrderStatusFrame(db.items, r.items, o, db.orders[o].status);
      }
    }
  }

  lemma RecalculateFrame(db: Db, u: nat)
    requires Refs(db)
    ensures var r := Recalculate(db, u);
            && r.users == db.users && r.payments == db.payments && r.rows == db.rows && r.proofs == db.proofs
            && r.batches == db.batches
            && |r.items| == |db.items| && |r.orders| == |db.orders|
            && (forall i :: 0 <= i < |db.items| ==> r.items[i] == db.items[i].(status := r.items[i].status))
            && (forall o :: 0 <= o < |db.orders| ==> r.orders[o] == db.orders[o].(status := r.orders[o].status))
            && (Owners(db) ==> Owners(r)) && (Amounts(db) ==> Amounts(r)) && (Batches(db) ==> Batches(r))
            && (Principals(db) ==> Principals(r)) && (Keys(db) ==> Keys(r)) && (Proofs(db) ==> Proofs(r))
  {
    var r := Recalculate(db, u);
    assert forall i :: 0 <= i < |r.items| ==> PaidOf(r, i) == PaidOf(db, i);
  }

  /** Imports write no payment and no proof. */
  lemma PaymentTablesAlone(db: Db, next: Db)
    requires next.payments == db.payments && next.rows == db.rows && next.proofs == db.proofs
    requires Principals(db) && Keys(db) && Proofs(db)
    ensures Principals(next) && Keys(next) && Proofs(next)
  {}

  /** Recalculating the one user whose statuses are stale restores the whole invariant. */
  lemma RecalculatedInv(db: Db, u: nat)
    requires StaleOnlyFor(db, u) && Refs(db) && Owners(db) && Amounts(db)
    requires Principals(db) && Keys(db) && Proofs(db) && Batches(db)
    ensures Inv(Recalculate(db, u))
  {
    hide Recalculate, StaleOnlyFor, Refs, Owners, Amounts, Statuses, Totals, OrderStatuses, Principals, Keys, Proofs,
      Batches;
    RecalculateRestores(db, u);
    RecalculateFrame(db, u);
  }
}
