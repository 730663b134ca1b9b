/** Recording, voiding and approving payments keeps the ledger's invariant. */
module LedgerPayments {
  import opened Text
  import opened Money
  import opened Ledger
  import opened LedgerInvariant

  // ---------- What a request asks for ----------

  function AskedFor(lines: seq<Line>, key: Option<nat>): int {
    if lines == [] then 0
    else
      var l := lines[|lines| - 1];
      AskedFor(lines[..|lines| - 1], key) + if l.item == key then l.amount else 0
  }

  /** Merging adds up, per item, exactly the amounts of the lines that name it. */
  lemma {:induction false} MergeIsSum(lines: seq<Line>, key: Option<nat>)
    ensures key in MergeLines(lines) <==> exists i :: 0 <= i < |lines| && lines[i].item == key
    ensures key in MergeLines(lines) ==> MergeLines(lines)[key] == AskedFor(lines, key)
    ensures key !in MergeLines(lines) ==> AskedFor(lines, key) == 0
  {
    if lines != [] {
      var n := |lines| - 1;
      MergeIsSum(lines[..n], key);
      assert forall i :: 0 <= i < n ==> lines[..n][i] == lines[i];
    }
  }

  lemma {:induction false} LockedFacts(db: Db, u: nat, ids: set<nat>, n: nat)
    requires n <= |db.items|
    ensures var l := Locked(db, u, ids, n);
            && (forall k :: 0 <= k < |l| ==> l[k] < n && l[k] in ids && PayableBy(db, l[k], u))
            && (forall j, k :: 0 <= j < k < |l| ==> l[j] < l[k])
            && (forall i :: 0 <= i < n && i in ids && PayableBy(db, i, u) ==> i in l)
  {
    hide PayableBy;
    if n > 0 {
      LockedFacts(db, u, ids, n - 1);
    }
  }

  lemma {:induction false} DistinctCount(s: seq<nat>, ids: set<nat>)
    requires forall j, k :: 0 <= j < k < |s| ==> s[j] < s[k]
    requires forall k :: 0 <= k < |s| ==> s[k] in ids
    ensures |s| <= |ids|
    ensures |s| == |ids| ==> forall i :: i in ids ==> i in s
  {
    if s != [] {
      var n := |s| - 1;
      DistinctCount(s[..n], ids - {s[n]});
      assert ids == ids - {s[n]} + {s[n]};
      if |s| == |ids| {
        forall i | i in ids ensures i in s {
          if i != s[n] {
            assert i in s[..n];
          }
        }
      }
    }
  }

  lemma {:induction false} SetCount(l: seq<nat>)
    ensures |set k | 0 <= k < |l| :: l[k]| <= |l|
  {
    if l != [] {
      var n := |l| - 1;
      SetCount(l[..n]);
      assert (set k | 0 <= k < |l| :: l[k]) == (set k | 0 <= k < n :: l[..n][k]) + {l[n]};
    }
  }

  /** All requested items are locked exactly when all of them are payable by the user. */
  lemma LockedAll(db: Db, u: nat, ids: set<nat>)
    ensures |Locked(db, u, ids, |db.items|)| == |ids| <==> forall i :: i in ids ==>
              i < |db.items| && PayableBy(db, i, u)
    ensures |Locked(db, u, ids, |db.items|)| == |ids| ==> forall i :: i in ids ==> i in Locked(db, u, ids, |db.items|)
  {
    var l := Locked(db, u, ids, |db.items|);
    LockedFacts(db, u, ids, |db.items|);
    DistinctCount(l, ids);
    if forall i :: i in ids ==> i < |db.items| && PayableBy(db, i, u) {
      var s := set k | 0 <= k < |l| :: l[k];
      forall i | i in ids ensures i in s {
        var k :| 0 <= k < |l| && l[k] == i;
      }
      SetCount(l);
      assert ids == s;
    }
  }

  lemma {:induction false} NewRowsPaid(payments: map<nat, Payment>, pid: nat, merged: map<Option<nat>, int>,
                                       locked: seq<nat>, i: nat)
    requires pid in payments && payments[pid].status == Approved
    requires forall j, k :: 0 <= j < k < |locked| ==> locked[j] < locked[k]
    ensures PaidIn(payments, NewRows(pid, merged, locked), i) == if i in locked then AmountFor(merged, i) else 0
    ensures PrincipalIn(NewRows(pid, merged, locked), pid) == SumFor(merged, locked)
  {
    if locked != [] {
      var n := |locked| - 1;
      assert NewRows(pid, merged, locked)[..n] == NewRows(pid, merged, locked[..n]);
      NewRowsPaid(payments, pid, merged, locked[..n], i);
      if i == locked[n] {
        assert i !in locked[..n];
      } else {
        assert i in locked <==> i in locked[..n];
      }
    }
  }

  // ---------- Inserting a payment ----------

  lemma AllocationKeys(db: Db, req: Request, u: nat, key: Option<nat>)
    requires AllocationError(db, req, u) == None
    requires key in MergeLines(req.lines)
    ensures key.Some? && MergeLines(req.lines)[key] > 0
    ensures key.value in Locked(db, u, ItemIds(MergeLines(req.lines)), |db.items|)
  {
    var merged := MergeLines(req.lines);
    LockedAll(db, u, ItemIds(merged));
    assert !(key == None || merged[key] <= 0);
    assert key.value in ItemIds(merged);
  }

  lemma AllocationLimits(db: Db, req: Request, u: nat, k: nat)
    requires AllocationError(db, req, u) == None
    requires k < |Locked(db, u, ItemIds(MergeLines(req.lines)), |db.items|)|
    ensures var merged := MergeLines(req.lines);
            var i := Locked(db, u, ItemIds(merged), |db.items|)[k];
            && i < |db.items| && PayableBy(db, i, u) && Some(i) in merged
            && 0 < AmountFor(merged, i) <= Remaining(PaidOf(db, i), db.items[i].amount)
  {
    var merged := MergeLines(req.lines);
    LockedFacts(db, u, ItemIds(merged), |db.items|);
    var i := Locked(db, u, ItemIds(merged), |db.items|)[k];
    assert i in ItemIds(merged) && Some(i) in merged;
    AllocationKeys(db, req, u, Some(i));
    assert !Exceeds(AmountFor(merged, i), Remaining(PaidOf(db, i), db.items[i].amount));
  }

  /** What a passed allocation check guarantees. */
  lemma AllocationFacts(db: Db, req: Request, u: nat)
    requires AllocationError(db, req, u) == None
    ensures var merged := MergeLines(req.lines);
            var locked := Locked(db, u, ItemIds(merged), |db.items|);
            && req.via.Some?
            && (forall j, k :: 0 <= j < k < |locked| ==> locked[j] < locked[k])
            && (forall k :: 0 <= k < |locked| ==>
                  && locked[k] < |db.items| && PayableBy(db, locked[k], u)
                  && 0 < AmountFor(merged, locked[k]) <= Remaining(PaidOf(db, locked[k]), db.items[locked[k]].amount))
            && (forall key :: key in merged ==> key.Some? && merged[key] > 0 && key.value in locked)
  {
    var merged := MergeLines(req.lines);
    var locked := Locked(db, u, ItemIds(merged), |db.items|);
    LockedFacts(db, u, ItemIds(merged), |db.items|);
    forall key | key in merged ensures key.Some? && merged[key] > 0 && key.value in locked {
      AllocationKeys(db, req, u, key);
    }
    forall k | 0 <= k < |locked|
      ensures 0 < AmountFor(merged, locked[k]) <= Remaining(PaidOf(db, locked[k]), db.items[locked[k]].amount)
    {
      AllocationLimits(db, req, u, k);
    }
  }

  lemma RowsRaisePaid(payments: map<nat, Payment>, p: Payment, rows: seq<PayRow>, pid: nat,
                      merged: map<Option<nat>, int>, locked: seq<nat>, i: nat)
    requires pid !in payments && p.status == Approved
    requires forall k :: 0 <= k < |rows| ==> rows[k].payment in payments
    requires forall j, k :: 0 <= j < k < |locked| ==> locked[j] < locked[k]
    ensures PaidIn(payments[pid := p], rows + NewRows(pid, merged, locked), i) ==
              PaidIn(payments, rows, i) + if i in locked then AmountFor(merged, i) else 0
  {
    var after := payments[pid := p];
    PaidConcat(after, rows, NewRows(pid, merged, locked), i);
    PaidFrame(payments, after, rows, i);
    NewRowsPaid(after, pid, merged, locked, i);
  }

  /** Only payable items can be asked for in an accepted request. */
  lemma AskedIsLocked(db: Db, req: Request, u: nat, i: nat)
    requires AllocationError(db, req, u) == None
    ensures AskedFor(req.lines, Some(i)) ==
              if i in Locked(db, u, ItemIds(MergeLines(req.lines)), |db.items|)
              then AmountFor(MergeLines(req.lines), i) else 0
  {
    MergeIsSum(req.lines, Some(i));
    if Some(i) in MergeLines(req.lines) { AllocationKeys(db, req, u, Some(i)); }
  }

  /** The paid sums after the insertion: each named item gains what it was given, nothing else moves. */
  lemma InsertPaid(db: Db, req: Request, u: nat, pid: nat, i: nat)
    requires Refs(db) && pid !in db.payments && AllocationError(db, req, u) == None
    ensures req.via.Some?
    ensures PaidOf(InsertPayment(db, req, u, pid), i) == PaidOf(db, i) + AskedFor(req.lines, Some(i))
    ensures i !in Locked(db, u, ItemIds(MergeLines(req.lines)), |db.items|) ==> AskedFor(req.lines, Some(i)) == 0
    ensures i in Locked(db, u, ItemIds(MergeLines(req.lines)), |db.items|)
            ==> AskedFor(req.lines, Some(i)) == AmountFor(MergeLines(req.lines), i)
  {
    var merged := MergeLines(req.lines);
    var locked := Locked(db, u, ItemIds(merged), |db.items|);
    LockedFacts(db, u, ItemIds(merged), |db.items|);
    AskedIsLocked(db, req, u, i);
    var p := InsertPayment(db, req, u, pid).payments[pid];
    RowsRaisePaid(db.payments, p, db.rows, pid, merged, locked, i);
  }

  /** The inserted rows belong to the new payment and to payable items, one each, with a positive amount. */
  ghost predicate GoodRows(db: Db, added: seq<PayRow>, u: nat, pid: nat) {
    && (forall k :: 0 <= k < |added| ==>
          added[k].payment == pid && added[k].item < |db.items| && added[k].applied > 0
            && OwnedBy(db, added[k].item, u))
    && (forall j, k :: 0 <= j < k < |added| ==> added[j].item < added[k].item)
  }

  function AddedRows(db: Db, req: Request, u: nat, pid: nat): seq<PayRow> {
    var merged := MergeLines(req.lines);
    NewRows(pid, merged, Locked(db, u, ItemIds(merged), |db.items|))
  }

  lemma AddedRowsGood(db: Db, req: Request, u: nat, pid: nat)
    requires AllocationError(db, req, u) == None
    ensures GoodRows(db, AddedRows(db, req, u, pid), u, pid)
  {
    var merged := MergeLines(req.lines);
    var locked := Locked(db, u, ItemIds(merged), |db.items|);
    LockedFacts(db, u, ItemIds(merged), |db.items|);
    forall k | 0 <= k < |locked| ensures OwnedBy(db, locked[k], u) && AmountFor(merged, locked[k]) > 0 {
      AllocationLimits(db, req, u, k);
    }
  }

  lemma AddRowsKeepsOwners(db: Db, added: seq<PayRow>, u: nat, pid: nat, p: Payment)
    requires Refs(db) && Owners(db) && u < |db.users| && pid !in db.payments
    requires GoodRows(db, added, u, pid) && p.user == u
    ensures var r := db.(payments := db.payments[pid := p], rows := db.rows + added);
            Refs(r) && Owners(r)
  {
    var r := db.(payments := db.payments[pid := p], rows := db.rows + added);
    forall k | 0 <= k < |r.rows|
      ensures r.rows[k].item < |r.items| && r.rows[k].payment in r.payments
      ensures r.orders[r.items[r.rows[k].item].order].user == r.payments[r.rows[k].payment].user
    {
      if k < |db.rows| {
        assert r.rows[k] == db.rows[k];
      } else {
        assert r.rows[k] == added[k - |db.rows|];
      }
    }
  }

  lemma InsertKeepsOwners(db: Db, req: Request, u: nat, pid: nat)
    requires Refs(db) && Owners(db) && pid !in db.payments && u < |db.users| && AllocationError(db, req, u) == None
    ensures req.via.Some?
    ensures var r := InsertPayment(db, req, u, pid); Refs(r) && Owners(r)
  {
    AddedRowsGood(db, req, u, pid);
    AddRowsKeepsOwners(db, AddedRows(db, req, u, pid), u, pid, InsertPayment(db, req, u, pid).payments[pid]);
  }

  lemma InsertKeepsAmounts(db: Db, req: Request, u: nat, pid: nat)
    requires Refs(db) && Owners(db) && Amounts(db) && pid !in db.payments && u < |db.users|
    requires AllocationError(db, req, u) == None
    ensures req.via.Some?
    ensures Amounts(InsertPayment(db, req, u, pid))
  {
    AddedRowsGood(db, req, u, pid);
    var locked := Locked(db, u, ItemIds(MergeLines(req.lines)), |db.items|);
    var r := InsertPayment(db, req, u, pid);
    forall i | 0 <= i < |r.items| ensures PaidOf(r, i) <= r.items[i].amount {
      InsertPaid(db, req, u, pid, i);
      if i in locked {
        var k :| 0 <= k < |locked| && locked[k] == i;
        AllocationLimits(db, req, u, k);
      }
    }
    assert forall k :: 0 <= k < |r.rows| ==> r.rows[k].applied > 0;
  }

  lemma {:induction false} AddRowsPrincipals(rows: seq<PayRow>, added: seq<PayRow>, pid: nat, p: nat)
    requires forall k :: 0 <= k < |rows| ==> rows[k].payment != pid
    requires forall k :: 0 <= k < |added| ==> added[k].payment == pid
    ensures p == pid ==> PrincipalIn(rows + added, p) == PrincipalIn(added, p)
    ensures p != pid ==> PrincipalIn(rows + added, p) == PrincipalIn(rows, p)
  {
    PrincipalConcat(rows, added, p);
    if p == pid {
      PrincipalAbsent(rows, p);
    } else {
      PrincipalAbsent(added, p);
    }
  }

  lemma RowsStayDistinct(rows: seq<PayRow>, added: seq<PayRow>, pid: nat)
    requires forall j, k :: 0 <= j < k < |rows| ==> rows[j].payment != rows[k].payment || rows[j].item != rows[k].item
    requires forall j, k :: 0 <= j < k < |added| ==> added[j].item < added[k].item
    requires forall k :: 0 <= k < |rows| ==> rows[k].payment != pid
    requires forall k :: 0 <= k < |added| ==> added[k].payment == pid
    ensures var r := rows + added;
            forall j, k :: 0 <= j < k < |r| ==> r[j].payment != r[k].payment || r[j].item != r[k].item
  {}

  lemma AddRowsKeepsPrincipals(db: Db, added: seq<PayRow>, pid: nat, p: Payment)
    requires Principals(db) && pid !in db.payments
    requires forall k :: 0 <= k < |db.rows| ==> db.rows[k].payment != pid
    requires forall k :: 0 <= k < |added| ==> added[k].payment == pid
    requires forall j, k :: 0 <= j < k < |added| ==> added[j].item < added[k].item
    requires p.principal == PrincipalIn(added, pid) && p.fee == Fee(p.principal, p.via)
    requires p.payable == p.principal + p.fee
    ensures Principals(db.(payments := db.payments[pid := p], rows := db.rows + added))
  {
    var r := db.(payments := db.payments[pid := p], rows := db.rows + added);
    forall q | q in r.payments && r.payments[q].status != Legacy
      ensures r.payments[q].principal == PrincipalIn(r.rows, q)
    {
      AddRowsPrincipals(db.rows, added, pid, q);
    }
    RowsStayDistinct(db.rows, added, pid);
  }

  /** The insertion, written as one payment and the rows added for it, which add up to it. */
  lemma InsertedIs(db: Db, req: Request, u: nat, pid: nat)
    requires AllocationError(db, req, u) == None
    ensures req.via.Some?
    ensures var r, added := InsertPayment(db, req, u, pid), AddedRows(db, req, u, pid);
            && pid in r.payments && r == db.(payments := db.payments[pid := r.payments[pid]], rows := db.rows + added)
            && var p := r.payments[pid];
               p.principal == PrincipalIn(added, pid) && p.fee == Fee(p.principal, p.via)
               && p.payable == p.principal + p.fee
  {
    var merged := MergeLines(req.lines);
    var locked := Locked(db, u, ItemIds(merged), |db.items|);
    LockedFacts(db, u, ItemIds(merged), |db.items|);
    NewRowsPaid(map[pid := InsertPayment(db, req, u, pid).payments[pid]], pid, merged, locked, 0);
  }

  lemma InsertKeepsPrincipals(db: Db, req: Request, u: nat, pid: nat)
    requires Refs(db) && Principals(db) && pid !in db.payments && AllocationError(db, req, u) == None
    ensures req.via.Some?
    ensures Principals(InsertPayment(db, req, u, pid))
  {
    hide InsertPayment, AddedRows, AllocationError, Principals;
    InsertedIs(db, req, u, pid);
    AddedRowsGood(db, req, u, pid);
    AddRowsKeepsPrincipals(db, AddedRows(db, req, u, pid), pid, InsertPayment(db, req, u, pid).payments[pid]);
  }

  /** The new payment has a key of its own, and no proof or batch is touched. */
  lemma InsertKeepsRest(db: Db, req: Request, u: nat, pid: nat)
    requires Keys(db) && Proofs(db) && Batches(db) && pid !in db.payments && req.via.Some?
    requires PaymentWithKey(db, req.key) == None
    ensures var r := InsertPayment(db, req, u, pid); Keys(r) && Proofs(r) && Batches(r)
  {
    hide NewRows, SumFor, Locked, MergeLines;
    assert forall p :: p in db.payments ==> db.payments[p].key != req.key;
  }

  /** Only the paying user's items change what they are owed, so recalculating that user is enough. */
  lemma InsertLeavesStale(db: Db, req: Request, u: nat, pid: nat)
    requires Inv(db) && pid !in db.payments && u < |db.users| && AllocationError(db, req, u) == None
    ensures req.via.Some?
    ensures StaleOnlyFor(InsertPayment(db, req, u, pid), u)
  {
    AllocationFacts(db, req, u);
    InsertKeepsOwners(db, req, u, pid);
    var r := InsertPayment(db, req, u, pid);
    forall i | 0 <= i < |r.items| && !r.items[i].revoked && !OwnedBy(r, i, u) ensures PaidOf(r, i) == PaidOf(db, i) {
      InsertPaid(db, req, u, pid, i);
    }
  }

  lemma CreateKeepsInv(db: Db, req: Request, row: Option<nat>, pid: nat)
    requires Inv(db) && pid !in db.payments && FindsUser(db.users, req.cn, row)
    ensures Inv(CreatePayment(db, req, row, pid).0)
  {
    hide Recalculate, InsertPayment, AllocationError, StaleOnlyFor, Refs, Owners, Amounts, Statuses, Totals,
      OrderStatuses, Principals, Keys, Proofs, Batches, PaymentWithKey, RequestError;
    var (next, reply) := CreatePayment(db, req, row, pid);
    if reply == PaymentReply(pid, false) && next != db {
      var u := row.value;
      InsertKeepsOwners(db, req, u, pid);
      InsertKeepsAmounts(db, req, u, pid);
      InsertKeepsPrincipals(db, req, u, pid);
      InsertKeepsRest(db, req, u, pid);
      InsertLeavesStale(db, req, u, pid);
      RecalculatedInv(InsertPayment(db, req, u, pid), u);
    }
  }

  // ---------- Voiding ----------

  lemma {:induction false} VoidLowers(p: map<nat, Payment>, q: map<nat, Payment>, rows: seq<PayRow>, i: nat)
    requires forall k :: 0 <= k < |rows| ==> Applied(q, rows[k]) <= Applied(p, rows[k])
    ensures PaidIn(q, rows, i) <= PaidIn(p, rows, i)
  {
    if rows != [] {
      VoidLowers(p, q, rows[..|rows| - 1], i);
    }
  }

  lemma VoidPaid(db: Db, pid: nat, i: nat)
    requires pid in db.payments
    requires Amounts(db)
    ensures var q := db.payments[pid := db.payments[pid].(status := Voided)];
            0 <= PaidIn(q, db.rows, i) <= PaidOf(db, i)
  {
    var q := db.payments[pid := db.payments[pid].(status := Voided)];
    PaidNonNegative(q, db.rows, i);
    VoidLowers(db.payments, q, db.rows, i);
  }

  /** Payments keep their user, amounts and key; only approvals may be taken back. */
  ghost predicate PaymentsAlike(p: map<nat, Payment>, q: map<nat, Payment>) {
    && p.Keys == q.Keys
    && forall x :: x in p ==>
         && q[x].principal == p[x].principal && q[x].fee == p[x].fee && q[x].payable == p[x].payable
         && q[x].via == p[x].via && q[x].key == p[x].key && (q[x].status == Legacy <==> p[x].status == Legacy)
  }

  lemma PaymentsAlikeKeep(db: Db, q: map<nat, Payment>)
    requires PaymentsAlike(db.payments, q)
    ensures Principals(db) ==> Principals(db.(payments := q))
    ensures Keys(db) ==> Keys(db.(payments := q))
    ensures Proofs(db) ==> Proofs(db.(payments := q))
  {
    var r := db.(payments := q);
    assert Principals(db) ==> Principals(r);
    assert Keys(db) ==> Keys(r);
    assert Proofs(db) ==> Proofs(r);
  }

  lemma VoidLeavesStale(db: Db, pid: nat)
    requires Refs(db) && Owners(db) && Amounts(db) && Statuses(db) && Totals(db) && OrderStatuses(db)
    requires pid in db.payments
    ensures var r := db.(payments := db.payments[pid := db.payments[pid].(status := Voided)]);
            Refs(r) && Owners(r) && Amounts(r) && StaleOnlyFor(r, db.payments[pid].user)
  {
    var u := db.payments[pid].user;
    var r := db.(payments := db.payments[pid := db.payments[pid].(status := Voided)]);
    forall i | 0 <= i < |r.items|
      ensures PaidOf(r, i) <= r.items[i].amount
      ensures !OwnedBy(r, i, u) ==> PaidOf(r, i) == PaidOf(db, i)
    {
      VoidPaid(db, pid, i);
      if !OwnedBy(r, i, u) {
        PaidFrame(db.payments, r.payments, db.rows, i);
      }
    }
    assert Refs(r);
    assert Owners(r);
    assert Amounts(r);
  }

  lemma VoidKeepsInv(db: Db, pid: nat, reason: string)
    requires Inv(db)
    ensures Inv(VoidPayment(db, pid, reason).0)
  {
    hide Recalculate, StaleOnlyFor, Refs, Owners, Amounts, Statuses, Totals, OrderStatuses, Principals, Keys, Proofs;
    if VoidPayment(db, pid, reason).1 == Done {
      var q := db.payments[pid := db.payments[pid].(status := Voided)];
      VoidLeavesStale(db, pid);
      PaymentsAlikeKeep(db, q);
      RecalculatedInv(db.(payments := q), db.payments[pid].user);
    }
  }

  // ---------- Proofs ----------

  lemma ProofKeyInjective(a: string, b: string)
    requires ProofKey(a) == ProofKey(b)
    ensures a == b
  {
    assert a == ProofKey(a)[|KEY_PREFIX|..];
    assert b == ProofKey(b)[|KEY_PREFIX|..];
  }

  /** No two proofs link the same payment. */
  lemma LinksDistinct(db: Db, a: string, b: string)
    requires Inv(db) && a in db.proofs && b in db.proofs
    requires db.proofs[a].linked.Some? && db.proofs[a].linked == db.proofs[b].linked
    ensures a == b
  {
    ProofKeyInjective(a, b);
  }

  /** The proof table touches no other part of the invariant. */
  lemma OtherProofs(db: Db, proofs: map<string, Proof>)
    requires Inv(db) && Proofs(db.(proofs := proofs))
    ensures Inv(db.(proofs := proofs))
  {
    var r := db.(proofs := proofs);
    assert forall i :: 0 <= i < |db.items| ==> PaidOf(r, i) == PaidOf(db, i);
  }

  lemma SubmitKeepsInv(db: Db, id: string, user: nat, cn: string, via: Option<Method>, requestId: string)
    requires Inv(db) && id !in db.proofs
    ensures Inv(SubmitProof(db, id, user, cn, via, requestId).0)
  {
    OtherProofs(db, SubmitProof(db, id, user, cn, via, requestId).0.proofs);
  }

  lemma RejectKeepsProofs(db: Db, id: string, reason: string)
    requires Proofs(db)
    ensures Proofs(RejectProof(db, id, reason).0)
  {
    hide ProofKey;
  }

  lemma RejectKeepsInv(db: Db, id: string, reason: string)
    requires Inv(db)
    ensures Inv(RejectProof(db, id, reason).0)
  {
    hide Refs, Owners, Amounts, Statuses, Totals, OrderStatuses, Principals, Keys, Proofs, Batches;
    RejectKeepsProofs(db, id, reason);
    OtherProofs(db, RejectProof(db, id, reason).0.proofs);
  }

  /** Whatever payment an approval replies with exists and carries the proof's key. */
  lemma CreateReply(db: Db, req: Request, row: Option<nat>, pid: nat)
    requires Inv(db) && pid !in db.payments && FindsUser(db.users, req.cn, row)
    ensures var (next, reply) := CreatePayment(db, req, row, pid);
            && next.proofs == db.proofs
            && (reply.PaymentReply? ==> reply.payment in next.payments && next.payments[reply.payment].key == req.key)
            && (reply.PaymentReply? || reply.Refused?)
  {}

  lemma LinkKeepsProofs(db: Db, id: string, p: nat)
    requires Proofs(db) && id in db.proofs && p in db.payments && db.payments[p].key == ProofKey(id)
    ensures Proofs(db.(proofs := db.proofs[id := db.proofs[id].(status := Accepted, linked := Some(p))]))
  {}

  lemma ApproveKeepsInv(db: Db, id: string, paidAtValid: bool, lines: seq<Line>, row: Option<nat>, pid: nat)
    requires Inv(db) && pid !in db.payments && (id in db.proofs ==> FindsUser(db.users, db.proofs[id].cn, row))
    ensures Inv(ApproveProof(db, id, paidAtValid, lines, row, pid).0)
  {
    if lines != [] && id in db.proofs && db.proofs[id].status == Pending {
      var req := ProofRequest(db.proofs[id], id, paidAtValid, lines);
      CreateKeepsInv(db, req, row, pid);
      CreateReply(db, req, row, pid);
      var (paid, reply) := CreatePayment(db, req, row, pid);
      if reply.PaymentReply? {
        LinkKeepsProofs(paid, id, reply.payment);
        OtherProofs(paid, paid.proofs[id := paid.proofs[id].(status := Accepted, linked := Some(reply.payment))]);
      }
    }
  }

  // ---------- Merging users ----------

  /** Orders and payments of the source move together, so a payment's user still owns what it pays. */
  lemma MovedOwners(db: Db, source: nat, target: nat, next: Db)
    requires Refs(db) && Owners(db) && target < |db.users| && source < |db.users|
    requires next == db.(orders := MoveOrders(db.orders, source, target),
                         payments := MovePayments(db.payments, source, target),
                         users := db.users[source := db.users[source].(status := Merged)])
    ensures Refs(next) && Owners(next)
  {}

  lemma MovedOrders(db: Db, next: Db)
    requires Totals(db) && OrderStatuses(db) && Batches(db) && |next.orders| == |db.orders|
    requires next.items == db.items && next.batches == db.batches
    requires forall o :: 0 <= o < |db.orders| ==> next.orders[o] == db.orders[o].(user := next.orders[o].user)
    ensures Totals(next) && OrderStatuses(next) && Batches(next)
  {}

  lemma MergeKeepsTables(db: Db, source: nat, target: nat, next: Db)
    requires Inv(db) && target < |db.users| && source < |db.users|
    requires next == db.(orders := MoveOrders(db.orders, source, target),
                         payments := MovePayments(db.payments, source, target),
                         users := db.users[source := db.users[source].(status := Merged)])
    ensures Refs(next) && Owners(next) && Batches(next) && Totals(next) && OrderStatuses(next)
    ensures PaymentsAlike(db.payments, next.payments)
  {
    hide Refs, Owners, Amounts, Statuses, Totals, OrderStatuses, Principals, Keys, Proofs, Batches;
    MovedOwners(db, source, target, next);
    MovedOrders(db, next);
  }

  lemma SamePaidKeeps(db: Db, next: Db)
    requires Amounts(db) && Statuses(db) && next.items == db.items && next.rows == db.rows
    requires forall i :: 0 <= i < |db.items| ==> PaidOf(next, i) == PaidOf(db, i)
    ensures Amounts(next) && Statuses(next)
  {
    hide PaidOf;
  }

  lemma SamePaid(db: Db, next: Db)
    requires Refs(db) && next.rows == db.rows && PaymentsAlike(db.payments, next.payments)
    requires forall p :: p in db.payments ==> next.payments[p].status == db.payments[p].status
    ensures forall i :: PaidOf(next, i) == PaidOf(db, i)
  {
    forall i: nat ensures PaidOf(next, i) == PaidOf(db, i) { PaidFrame(db.payments, next.payments, db.rows, i); }
  }

  /** Payments that only change their users leave every sum, key and link alone. */
  lemma MergeKeepsRest(db: Db, next: Db)
    requires Inv(db) && PaymentsAlike(db.payments, next.payments)
    requires forall p :: p in db.payments ==> next.payments[p].status == db.payments[p].status
    requires next.items == db.items && next.rows == db.rows && next.proofs == db.proofs
    ensures Amounts(next) && Statuses(next) && Principals(next) && Keys(next) && Proofs(next)
  {
    SamePaid(db, next);
    hide Refs, Owners, Amounts, Statuses, Totals, OrderStatuses, Principals, Keys, Proofs, Batches, PaymentsAlike,
      PaidOf;
    SamePaidKeeps(db, next);
    PaymentsAlikeKeep(db, next.payments);
    PaymentTablesAlone(db.(payments := next.payments), next);
  }

  /** Orders and payments move together, so ownership survives a merge. */
  lemma MergeKeepsInv(db: Db, source: nat, target: nat, reason: string)
    requires Inv(db)
    ensures Inv(MergeUsers(db, source, target, reason).0)
  {
    hide Refs, Owners, Amounts, Statuses, Totals, OrderStatuses, Principals, Keys, Proofs, Batches, PaymentsAlike;
    var (next, reply) := MergeUsers(db, source, target, reason);
    if reply == Done {
      MergeKeepsTables(db, source, target, next);
      MergeKeepsRest(db, next);
    }
  }

  lemma SetStatusKeepsInv(db: Db, u: nat, enabled: bool)
    requires Inv(db)
    ensures Inv(SetUserStatus(db, u, enabled).0)
  {
    var next := SetUserStatus(db, u, enabled).0;
    assert forall i :: 0 <= i < |db.items| ==> PaidOf(next, i) == PaidOf(db, i);
  }
}
