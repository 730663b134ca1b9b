/** Voiding and revoked items.

    A revoked item keeps the status it had when its batch was revoked, so whether a later
    voiding undoes a payment there is decided at that moment. This module says when it does,
    for every item and every run, and shows a run from the empty tables in which it does not. */
module LedgerRevoked {
  import opened Text
  import opened Money
  import opened ImportRules
  import opened Ledger
  import opened LedgerInvariant
  import opened LedgerPayments
  import opened LedgerImports
  import opened LedgerRuns
  import opened LedgerAdmission
  import opened LedgerVoid

  // ---------- Revoked items are frozen ----------

  lemma CreateLeavesRevoked(db: Db, req: Request, row: Option<nat>, pid: nat, i: nat)
    requires i < |db.items|
    ensures var items := CreatePayment(db, req, row, pid).0.items;
            && |items| == |db.items| && items[i] == db.items[i].(status := items[i].status)
            && (db.items[i].revoked ==> items[i] == db.items[i])
  {}

  lemma ApproveLeavesRevoked(db: Db, id: string, paidAtValid: bool, lines: seq<Line>, row: Option<nat>, pid: nat,
                             i: nat)
    requires i < |db.items|
    ensures var items := ApproveProof(db, id, paidAtValid, lines, row, pid).0.items;
            && |items| == |db.items| && items[i] == db.items[i].(status := items[i].status)
            && (db.items[i].revoked ==> items[i] == db.items[i])
  {
    if id in db.proofs {
      CreateLeavesRevoked(db, ProofRequest(db.proofs[id], id, paidAtValid, lines), row, pid, i);
    }
    hide CreatePayment;
  }

  lemma VoidLeavesRevoked(db: Db, pid: nat, reason: string, i: nat)
    requires i < |db.items|
    ensures var items := VoidPayment(db, pid, reason).0.items;
            && |items| == |db.items| && items[i] == db.items[i].(status := items[i].status)
            && (db.items[i].revoked ==> items[i] == db.items[i])
  {}

  lemma ConfirmLeavesItems(db: Db, bid: nat, allow: bool, rules: Rules, i: nat)
    requires Inv(db) && i < |db.items|
    ensures i < |ConfirmImport(db, bid, allow, rules).0.items|
    ensures ConfirmImport(db, bid, allow, rules).0.items[i] == db.items[i]
  {
    if ConfirmImport(db, bid, allow, rules).1.ConfirmReply? {
      var es, w := ConfirmWork(db, bid, allow, rules);
      ImportAllOk(db, bid, es, w);
      FinishIsImported(db, bid, es, w);
    }
  }

  /** Step s revokes item i. */
  ghost predicate Revokes(db: Db, s: Step, i: nat) {
    && s.Revoke? && Succeeds(db, s)
    && i < |db.items| && !db.items[i].revoked && db.items[i].batch == s.bid
  }

  /** A step changes an item in two ways at most: it revokes it, or it recalculates its status
      while it is live. */
  lemma ItemStep(db: Db, s: Step, i: nat)
    requires Inv(db) && Offered(db, s) && i < |db.items|
    ensures i < |Next(db, s).items|
    ensures Next(db, s).items[i].revoked <==> db.items[i].revoked || Revokes(db, s, i)
    ensures db.items[i].revoked ==> Next(db, s).items[i] == db.items[i]
    ensures Revokes(db, s, i) ==> Next(db, s).items[i] == db.items[i].(revoked := true)
  {
    hide CreatePayment, ApproveProof, ConfirmImport, SavePreview, VoidPayment, MergeUsers, Inv;
    match s
    case Upload(bid, p) => SaveFrame(db, bid, p);
    case Create(req, row, pid) => CreateLeavesRevoked(db, req, row, pid, i);
    case Approve(id, paidAtValid, lines, row, pid) => ApproveLeavesRevoked(db, id, paidAtValid, lines, row, pid, i);
    case Void(pid, reason) => VoidLeavesRevoked(db, pid, reason, i);
    case Confirm(bid, allow, rules) => ConfirmLeavesItems(db, bid, allow, rules, i);
    case Merge(source, target, reason) => MergeFrame(db, source, target, reason);
    case _ =>
  }

  /** No step ever touches a revoked item again: its stored status is frozen. */
  lemma {:induction false} RevokedIsFrozen(db: Db, steps: seq<Step>, i: nat)
    requires Inv(db) && Possible(db, steps) && i < |db.items| && db.items[i].revoked
    ensures i < |Run(db, steps).items| && Run(db, steps).items[i] == db.items[i]
    decreases |steps|
  {
    hide Inv, Next, Offered;
    if steps != [] {
      StepKeepsInv(db, steps[0]);
      ItemStep(db, steps[0], i);
      RevokedIsFrozen(Next(db, steps[0]), steps[1..], i);
    }
  }

  /** Items of a run whose steps all succeed are frozen too. */
  lemma {:induction false} AllSucceedPossible(db: Db, steps: seq<Step>)
    requires AllSucceed(db, steps)
    ensures Possible(db, steps)
    decreases |steps|
  {
    hide Succeeds, Offered, Next;
    if steps != [] {
      AllSucceedPossible(Next(db, steps[0]), steps[1..]);
    }
  }

  // ---------- Runs in two parts ----------

  lemma {:induction false} RunSplit(db: Db, steps: seq<Step>, k: nat)
    requires k <= |steps|
    ensures Run(db, steps) == Run(Run(db, steps[..k]), steps[k..])
    ensures Possible(db, steps) <==> Possible(db, steps[..k]) && Possible(Run(db, steps[..k]), steps[k..])
    decreases k
  {
    hide Next, Offered;
    if k == 0 {
      assert steps[..0] == [] && steps[0..] == steps;
    } else {
      assert steps[..k][0] == steps[0] && steps[..k][1..] == steps[1..][..k - 1] && steps[k..] == steps[1..][k - 1..];
      RunSplit(Next(db, steps[0]), steps[1..], k - 1);
    }
  }

  lemma {:induction false} ReplaySplit(db: Db, steps: seq<Step>, k: nat, p: nat, key: string)
    requires k <= |steps|
    ensures Replay(db, steps, p, key) ==
              Replay(db, steps[..k], p, key) + Replay(Run(db, steps[..k]), steps[k..], p, key)
    decreases k
  {
    hide Next, Offered, Succeeds, Retries;
    if k == 0 {
      assert steps[..0] == [] && steps[0..] == steps;
      assert Replay(db, [], p, key) == [];
    } else {
      assert steps[..k][0] == steps[0] && steps[..k][1..] == steps[1..][..k - 1] && steps[k..] == steps[1..][k - 1..];
      ReplaySplit(Next(db, steps[0]), steps[1..], k - 1, p, key);
    }
  }

  lemma RunConcat(db: Db, x: seq<Step>, y: seq<Step>)
    ensures Run(db, x + y) == Run(Run(db, x), y)
    ensures Possible(db, x + y) <==> Possible(db, x) && Possible(Run(db, x), y)
  {
    RunSplit(db, x + y, |x|);
    assert (x + y)[..|x|] == x && (x + y)[|x|..] == y;
  }

  // ---------- When voiding undoes the status of a revoked item ----------

  /** Payment p does not decide how far item i is paid: it puts nothing on it, or the item is
      only partly paid with it and still partly paid without it. */
  predicate Indifferent(db: Db, p: nat, i: nat)
    requires p in db.payments && i < |db.items|
  {
    var put := PutBy(db.payments, db.rows, p, i);
    put == 0 || put < PaidOf(db, i) < db.items[i].amount
  }

  /** The two databases give item i one status exactly when p does not decide it. */
  lemma StatusesAgree(a: Db, b: Db, p: nat, key: string, i: nat)
    requires Inv(a) && Inv(b) && Without(a, b, p, key) && i < |a.items| && !a.items[i].revoked
    ensures b.items[i].status == a.items[i].status <==> Indifferent(a, p, i)
  {
    PaidNoMore(a, b, p, key, i);
    AppliedByNonNegative(a.rows, p, i);
    PaidNonNegative(b.payments, b.rows, i);
    assert b.items[i].amount == a.items[i].amount && !b.items[i].revoked;
    ClassifiersAgree(PaidOf(a, i), a.items[i].amount);
  }

  lemma RevokesBoth(a: Db, b: Db, p: nat, key: string, s: Step, i: nat)
    requires Without(a, b, p, key) && Revokes(a, s, i) && Succeeds(b, s)
    ensures Revokes(b, s, i) && b.items[i] == a.items[i].(status := b.items[i].status)
  {
    hide Succeeds;
  }

  /** From two databases that differ in payment p only: revoke the batch of a live item, go on as
      you like, and the item ends the same on both sides exactly when p did not decide its status
      at the moment of revocation. */
  lemma RevokedAgrees(a: Db, b: Db, p: nat, key: string, steps: seq<Step>, i: nat)
    requires Inv(a) && Inv(b) && Without(a, b, p, key) && Possible(a, steps)
    requires steps != [] && Revokes(a, steps[0], i)
    ensures var ea, eb := Run(a, steps), Run(b, Replay(a, steps, p, key));
            && i < |ea.items| && i < |eb.items| && ea.items[i].revoked && eb.items[i].revoked
            && (eb.items[i] == ea.items[i] <==> Indifferent(a, p, i))
  {
    hide Inv, Without, Apply, Indifferent;
    var s, tail := steps[0], steps[1..];
    var na, nb := Next(a, s), Next(b, s);
    StatusesAgree(a, b, p, key, i);
    StepAlike(a, b, p, key, s);
    RevokesBoth(a, b, p, key, s, i);
    StepKeepsInv(a, s);
    StepKeepsInv(b, s);
    ItemStep(a, s, i);
    ItemStep(b, s, i);
    ReplayFollows(na, nb, p, key, tail);
    RevokedIsFrozen(na, tail, i);
    AllSucceedPossible(nb, Replay(na, tail, p, key));
    RevokedIsFrozen(nb, Replay(na, tail, p, key), i);
    assert Replay(a, steps, p, key) == [s] + Replay(na, tail, p, key);
    assert ([s] + Replay(na, tail, p, key))[1..] == Replay(na, tail, p, key);
  }

  /** Step k of the run revokes item i. */
  ghost predicate RevokedAt(db: Db, steps: seq<Step>, k: int, i: nat) {
    0 <= k < |steps| && Revokes(Run(db, steps[..k]), steps[k], i)
  }

  lemma LastStep(db: Db, s: Step)
    ensures Run(db, [s]) == Next(db, s) && (Possible(db, [s]) <==> Offered(db, s))
  {
    assert [s][1..] == [];
  }

  lemma SameItems(db: Db, s: Step)
    requires s.Create? || s.Approve? || s.Void?
    ensures |Next(db, s).items| == |db.items|
  {}

  lemma ConfirmedLive(db: Db, bid: nat, allow: bool, rules: Rules, i: nat)
    requires Inv(db) && |db.items| <= i < |ConfirmImport(db, bid, allow, rules).0.items|
    ensures !ConfirmImport(db, bid, allow, rules).0.items[i].revoked
  {
    if ConfirmImport(db, bid, allow, rules).1.ConfirmReply? {
      var es, w := ConfirmWork(db, bid, allow, rules);
      ImportAllOk(db, bid, es, w);
      FinishIsImported(db, bid, es, w);
    }
  }

  /** A step adds live items only. */
  lemma NewItemsLive(db: Db, s: Step, i: nat)
    requires Inv(db) && Offered(db, s) && |db.items| <= i < |Next(db, s).items|
    ensures !Next(db, s).items[i].revoked
  {
    hide CreatePayment, ApproveProof, ConfirmImport, SavePreview, VoidPayment, MergeUsers, Inv;
    match s
    case Upload(bid, p) => SaveFrame(db, bid, p);
    case Create(req, row, pid) => SameItems(db, s);
    case Approve(id, paidAtValid, lines, row, pid) => SameItems(db, s);
    case Void(pid, reason) => SameItems(db, s);
    case Confirm(bid, allow, rules) => ConfirmedLive(db, bid, allow, rules, i);
    case Merge(source, target, reason) => MergeFrame(db, source, target, reason);
    case _ =>
  }

  /** An item is revoked at the end of a run only if it was at the start or a step revoked it. */
  lemma {:induction false} RevokedSomewhere(db: Db, steps: seq<Step>, i: nat)
    requires Inv(db) && Possible(db, steps) && i < |Run(db, steps).items| && Run(db, steps).items[i].revoked
    requires i < |db.items| ==> !db.items[i].revoked
    ensures exists k :: RevokedAt(db, steps, k, i)
    decreases |steps|
  {
    hide Inv, Apply, Offered, Revokes;
    var n := |steps| - 1;
    if steps != [] {
      RunSplit(db, steps, n);
      var mid := Run(db, steps[..n]);
      assert steps[n..] == [steps[n]];
      LastStep(mid, steps[n]);
      RunKeepsInv(db, steps[..n]);
      if i >= |mid.items| {
        NewItemsLive(mid, steps[n], i);
      } else {
        ItemStep(mid, steps[n], i);
        if mid.items[i].revoked {
          RevokedSomewhere(db, steps[..n], i);
          var k :| RevokedAt(db, steps[..n], k, i);
          assert steps[..n][..k] == steps[..k];
          assert RevokedAt(db, steps, k, i);
        } else {
          assert RevokedAt(db, steps, n, i);
        }
      }
    }
  }

  /** Recording a payment keeps the invariant and leaves revoked items as they are. */
  lemma RecordedItems(db: Db, c: Step, p: nat, i: nat)
    requires Inv(db) && Records(db, c, p)
    ensures Inv(Next(db, c)) && p in Next(db, c).payments && |Next(db, c).items| == |db.items|
    ensures i < |db.items| && Next(db, c).items[i].revoked ==> db.items[i] == Next(db, c).items[i]
  {
    hide Inv, Apply;
    StepKeepsInv(db, c);
    SameItems(db, c);
    if i < |db.items| { ItemStep(db, c, i); }
  }

  lemma HasPayment(a: Db, b: Db, p: nat, key: string)
    requires Without(a, b, p, key)
    ensures p in a.payments
  {}

  lemma RevokedMidway(a: Db, b: Db, p: nat, key: string, steps: seq<Step>, k: nat, i: nat)
    requires Inv(a) && Inv(b) && Without(a, b, p, key) && Possible(a, steps) && RevokedAt(a, steps, k, i)
    ensures p in Run(a, steps[..k]).payments
    ensures var ea, eb := Run(a, steps), Run(b, Replay(a, steps, p, key));
            && i < |ea.items| && i < |eb.items| && ea.items[i].revoked
            && (eb.items[i] == ea.items[i] <==> Indifferent(Run(a, steps[..k]), p, i))
  {
    hide Inv, Without, Apply, Indifferent, Revokes;
    RunSplit(a, steps, k);
    ReplaySplit(a, steps, k, p, key);
    var ma, mb := Run(a, steps[..k]), Run(b, Replay(a, steps[..k], p, key));
    ReplayFollows(a, b, p, key, steps[..k]);
    HasPayment(ma, mb, p, key);
    RunConcat(b, Replay(a, steps[..k], p, key), Replay(ma, steps[k..], p, key));
    assert steps[k..][0] == steps[k];
    RevokedAgrees(ma, mb, p, key, steps[k..], i);
  }

  lemma RevokedBefore(a: Db, b: Db, p: nat, key: string, steps: seq<Step>, i: nat)
    requires Inv(a) && Inv(b) && Without(a, b, p, key) && Possible(a, steps) && i < |a.items| && a.items[i].revoked
    requires b.items[i] == a.items[i]
    ensures var ea, eb := Run(a, steps), Run(b, Replay(a, steps, p, key));
            i < |ea.items| && i < |eb.items| && eb.items[i] == ea.items[i]
  {
    hide Inv, Apply;
    RevokedIsFrozen(a, steps, i);
    ReplayFollows(a, b, p, key, steps);
    AllSucceedPossible(b, Replay(a, steps, p, key));
    RevokedIsFrozen(b, Replay(a, steps, p, key), i);
  }

  /** Voiding and every single item. Record payment p by step c, run any steps by whose end p is
      voided, and compare with never having recorded it: item i ends the same exactly when no step
      revoked it while p decided its status. */
  lemma VoidUndoesItem(db: Db, c: Step, p: nat, steps: seq<Step>, i: nat)
    requires Inv(db) && Records(db, c, p) && Possible(Next(db, c), steps)
    requires p in Run(Next(db, c), steps).payments && Run(Next(db, c), steps).payments[p].status == Voided
    requires i < |Run(Next(db, c), steps).items|
    ensures var start := Next(db, c);
            var a, b := Run(start, steps), Run(db, Replay(start, steps, p, start.payments[p].key));
            && i < |b.items|
            && (b.items[i] == a.items[i] <==>
                  forall k :: RevokedAt(start, steps, k, i) ==>
                    p in Run(start, steps[..k]).payments && Indifferent(Run(start, steps[..k]), p, i))
  {
    hide Inv, Without, Apply, Indifferent, Records;
    var start := Next(db, c);
    RecordedItems(db, c, p, i);
    var key := start.payments[p].key;
    VoidUndoes(db, c, p, steps);
    RecordedAlike(db, c, p);
    var a, b := Run(start, steps), Run(db, Replay(start, steps, p, key));
    forall k | RevokedAt(start, steps, k, i)
      ensures p in Run(start, steps[..k]).payments
      ensures a.items[i].revoked && (b.items[i] == a.items[i] <==> Indifferent(Run(start, steps[..k]), p, i))
    {
      RevokedMidway(start, db, p, key, steps, k, i);
    }
    if a.items[i].revoked && forall k :: !RevokedAt(start, steps, k, i) {
      if i >= |start.items| || !start.items[i].revoked {
        RevokedSomewhere(start, steps, i);
      } else {
        RevokedBefore(start, db, p, key, steps, i);
      }
    }
  }

  // ---------- A run in which it does not ----------

  const DETAIL := Detail("d", "s", "Sheet", "", "", "", "", "", "", "", "badge", "A", 1, 1, "a", "a", 1, "", 100, 100,
                         100)
  const ONE_BATCH :=
    BatchPreview("b", "s", "Sheet", "", "", "standard", 1, 1, "", ContentHash("", "", "", 1, 1, "", []), 0, 0, 0, 0, 0,
                 0, [DETAIL], [],
                 [], [])
  const PREVIEW := Preview("h", 1, [], [ONE_BATCH], [], [], [])
  const NO_RULES := Rules([], [], [], [])

  /** A user of code "a" owes 100 for the one item of a confirmed import. */
  const OWING := Item(0, 0, 0, 1, 100, Unpaid, false)
  const PAY := Request("a", Some(Cash), true, "k", [Line(Some(0), 100)])

  ghost predicate OneOwed(db: Db) {
    && db.users == [User("a", Active)] && db.orders == [Order(0, Submitted, 100)] && db.items == [OWING]
    && db.payments == map[] && db.rows == [] && 0 in db.batches && db.batches[0].status == Confirmed
  }

  /** A sole detail that no rule mentions survives with its amounts. */
  lemma SoleDetailKept(b: BatchPreview, d: Detail)
    requires b.details == [d]
    ensures var kept := FilteredBatch(b, NO_RULES).details;
            && |kept| == 1 && kept[0].normalizedCN == d.normalizedCN && kept[0].quantity == d.quantity
            && kept[0].amount == d.amount && kept[0].unitPrice == d.unitPrice
  {
    assert NO_RULES.categoryRules == [] && b.details[..0] == [];
    assert IdSet(NO_RULES.excludedItems) == {};
    assert Survivors(b.id, [], [], {}, []) == [];
    hide GoodsDisplayName, CorrectedCategory;
  }

  lemma NoIssues(b: BatchPreview)
    requires b.errors == [] && b.warnings == []
    ensures AllErrors([b]) == [] && AllWarnings([b]) == []
  {
    assert [b][..0] == [];
    assert AllErrors([]) == [] && AllWarnings([]) == [];
  }

  /** A sole batch without issues is all that a preview adjusted by no rules holds. */
  lemma SoleBatchKept(p: Preview, b: BatchPreview)
    requires p.batches == [b] && b.errors == [] && b.warnings == [] && |FilteredBatch(b, NO_RULES).details| == 1
    ensures var r := Adjusted(p, NO_RULES);
            && r.Some? && r.value.errors == [] && r.value.warnings == [] && |r.value.batches| == 1
            && r.value.batches[0].details == FilteredBatch(b, NO_RULES).details
  {
    hide Survivors, HashOf, KeptSheets, TableTotal;
    assert IdSet(NO_RULES.excludedSheets) == {};
    assert p.batches[..0] == [];
    var r := Recalculated(FilteredBatch(b, NO_RULES));
    assert KeptBatches([], NO_RULES) == [];
    assert KeptBatches(p.batches, NO_RULES) == [] + [r];
    NoIssues(r);
  }

  lemma PreviewKept()
    ensures var p := Adjusted(PREVIEW, NO_RULES);
            && p.Some? && p.value.errors == [] && p.value.warnings == [] && |Entries(p.value.batches)| == 1
            && var d := Entries(p.value.batches)[0].detail;
               d.normalizedCN == "a" && d.quantity == 1 && d.amount == 100 && d.unitPrice == 100
  {
    hide FilteredBatch, Adjusted;
    SoleDetailKept(ONE_BATCH, DETAIL);
    SoleBatchKept(PREVIEW, ONE_BATCH);
    var bs := Adjusted(PREVIEW, NO_RULES).value.batches;
    assert bs[..0] == [];
    assert Entries(bs) == [] + EntriesOf(bs[0], bs[0].details);
  }

  lemma ImportOne(db: Db, e: Entry)
    requires db.users == [] && db.orders == [] && db.items == [] && db.products == []
    requires var d := e.detail; d.normalizedCN == "a" && d.quantity == 1 && d.amount == 100 && d.unitPrice == 100
    ensures ImportAll(StartWork(db), 0, [e]).Some?
    ensures var w := ImportAll(StartWork(db), 0, [e]).value;
            w.users == [User("a", Active)] && w.orders == [Order(0, Draft, 0)] && w.items == [OWING]
              && w.orderIds == map[0 := 0]
  {
    assert [e][..0] == [];
    assert ImportAll(StartWork(db), 0, []) == Some(StartWork(db));
  }

  lemma ConfirmedOne(db: Db, bid: nat, w: Work)
    requires bid in db.batches && w.orders == [Order(0, Draft, 0)] && w.items == [OWING] && w.orderIds == map[0 := 0]
    ensures FinishImport(db, bid, w).orders == [Order(0, Submitted, 100)]
  {
    assert w.orderIds[0] == 0 && 0 in w.orderIds.Values;
    assert w.items[..0] == [];
    assert LiveSum(w.items, 0) == 100;
  }

  const IMPORT := [Upload(0, PREVIEW), Confirm(0, false, NO_RULES)]

  const UPLOADED := EMPTY.(batches := map[0 := Batch("h", Previewed, Some(PREVIEW))])

  lemma ConfirmUploaded()
    ensures OneOwed(ConfirmImport(UPLOADED, 0, false, NO_RULES).0)
  {
    hide ImportAll, Adjusted, Entries, SubmitOrders;
    PreviewKept();
    var p := Adjusted(PREVIEW, NO_RULES).value;
    var e := Entries(p.batches)[0];
    assert Entries(p.batches) == [e];
    ImportOne(UPLOADED, e);
    var w := ImportAll(StartWork(UPLOADED), 0, [e]).value;
    ConfirmedOne(UPLOADED, 0, w);
    assert ConfirmImport(UPLOADED, 0, false, NO_RULES).0 == FinishImport(UPLOADED, 0, w);
  }

  lemma ImportRun()
    ensures Possible(EMPTY, IMPORT) && OneOwed(Run(EMPTY, IMPORT))
  {
    hide ConfirmImport, OneOwed;
    assert Next(EMPTY, IMPORT[0]) == UPLOADED;
    ConfirmUploaded();
    assert IMPORT[1..] == [IMPORT[1]];
    LastStep(UPLOADED, IMPORT[1]);
  }

  lemma PayAcceptable(db: Db)
    requires OneOwed(db)
    ensures RequestError(PAY) == None && Acceptable(db, PAY, 0) && AskedFor(PAY.lines, Some(0)) == 100
    ensures PaidOf(db, 0) == 0
    ensures PaymentWithKey(db, "k") == None && FindsUser(db.users, PAY.cn, Some(0))
  {
    assert Squeeze("a") == "a";
    assert Clean("a") == "a" && Trim("k") == "k";
    assert MatchesCN(db.users[0], PAY.cn);
    assert PAY.lines[..0] == [];
    assert PayableBy(db, 0, 0) && AskedFor(PAY.lines, Some(0)) == 100;
    assert MayAsk(db, 0, PAY.lines, 0);
  }

  lemma PayAccepted(db: Db)
    requires Inv(db) && OneOwed(db)
    ensures Records(db, Create(PAY, Some(0), 7), 7)
    ensures PaidOf(db, 0) == 0 && PaidOf(Next(db, Create(PAY, Some(0), 7)), 0) == 100
    ensures Next(db, Create(PAY, Some(0), 7)).batches == db.batches
  {
    hide Inv, CreatePayment, Acceptable, RequestError, PaidIn, AskedFor;
    PayAcceptable(db);
    RecordedExactly(db, PAY, Some(0), 7, 0);
    CreateFrame(db, PAY, Some(0), 7);
  }

  lemma PayAmounts(a: Db, b: Db, key: string)
    requires Inv(a) && Without(a, b, 7, key) && PaidOf(a, 0) == 100 && PaidOf(b, 0) == 0
    ensures 7 in a.payments && a.payments[7].status == Approved && AppliedBy(a.rows, 7, 0) == 100
  {
    PaidNoMore(a, b, 7, key, 0);
  }

  lemma PaidItem(db: Db)
    requires Inv(db) && |db.items| == 1 && !db.items[0].revoked && db.items[0].amount == 100 == PaidOf(db, 0)
    ensures db.items[0].status == Paid
  {}

  /** Paying the item in that state decides its status. */
  lemma PaidByOne(db: Db)
    requires Inv(db) && OneOwed(db)
    ensures var start := Next(db, Create(PAY, Some(0), 7));
            && Inv(start) && 7 in start.payments && start.payments[7].status == Approved && |start.items| == 1
            && start.items[0] == OWING.(status := Paid) && start.batches == db.batches
            && PaidOf(start, 0) == 100 == AppliedBy(start.rows, 7, 0)
  {
    hide CreatePayment, Inv;
    var c := Create(PAY, Some(0), 7);
    PayAccepted(db);
    RecordedAlike(db, c, 7);
    RecordedItems(db, c, 7, 0);
    PayAmounts(Next(db, c), db, Next(db, c).payments[7].key);
    CreateLeavesRevoked(db, PAY, Some(0), 7, 0);
    PaidItem(Next(db, c));
  }

  const GIVE_UP := [Revoke(0), Void(7, "r")]

  lemma RevokeMoney(db: Db, bid: nat)
    ensures var next := RevokeImport(db, bid).0;
            next.payments == db.payments && next.rows == db.rows && |next.items| == |db.items|
  {}

  lemma RevokePaid(start: Db)
    requires Inv(start) && |start.items| == 1 && start.items[0] == OWING.(status := Paid)
    requires 0 in start.batches && start.batches[0].status == Confirmed
    ensures Revokes(start, Revoke(0), 0) && Inv(Next(start, Revoke(0)))
    ensures var mid := Next(start, Revoke(0));
            && mid.payments == start.payments && mid.rows == start.rows
            && mid.items == [OWING.(status := Paid, revoked := true)]
  {
    hide Inv, RevokeBatch;
    CountPositive(start.items, 0);
    assert LiveOfBatch(start.items[0], 0);
    RevokeMoney(start, 0);
    ItemStep(start, Revoke(0), 0);
    StepKeepsInv(start, Revoke(0));
  }

  lemma VoidRevoked(mid: Db)
    requires 7 in mid.payments && mid.payments[7].status == Approved
    requires Inv(mid) && mid.items == [OWING.(status := Paid, revoked := true)]
    requires PaidOf(mid, 0) == AppliedBy(mid.rows, 7, 0)
    ensures var end := Next(mid, Void(7, "r"));
            && 7 in end.payments && end.payments[7].status == Voided
            && PaidOf(end, 0) == 0 && |end.items| == 1 && end.items[0].status == Paid
  {
    hide Inv;
    assert Trim("r") == "r";
    VoidedExactly(mid, 7, "r", 0);
    ItemStep(mid, Void(7, "r"), 0);
    SameItems(mid, Void(7, "r"));
  }

  /** What paying, revoking and voiding do in that state. */
  lemma PaidThenRevoked(db: Db)
    requires Inv(db) && OneOwed(db)
    ensures var start := Next(db, Create(PAY, Some(0), 7));
            var end := Run(start, GIVE_UP);
            && Possible(start, GIVE_UP) && RevokedAt(start, GIVE_UP, 0, 0)
            && 7 in start.payments && |start.items| == 1 && !Indifferent(start, 7, 0)
            && 7 in end.payments && end.payments[7].status == Voided
            && |end.items| == 1 && end.items[0].status == Paid && PaidOf(end, 0) == 0
  {
    hide Inv, Apply, Revokes, PaidIn, AppliedBy;
    PaidByOne(db);
    var start := Next(db, Create(PAY, Some(0), 7));
    RevokePaid(start);
    var mid := Next(start, Revoke(0));
    assert PaidOf(mid, 0) == PaidOf(start, 0);
    VoidRevoked(mid);
    assert GIVE_UP[1..] == [Void(7, "r")] && GIVE_UP[..0] == [];
    LastStep(mid, Void(7, "r"));
    assert Offered(start, Revoke(0)) && Offered(mid, Void(7, "r"));
  }

  lemma WholeRun(db: Db, c: Step, steps: seq<Step>)
    requires Possible(EMPTY, IMPORT) && db == Run(EMPTY, IMPORT) && Offered(db, c) && Possible(Next(db, c), steps)
    ensures Possible(EMPTY, IMPORT + [c] + steps) && Run(EMPTY, IMPORT + [c] + steps) == Run(Next(db, c), steps)
  {
    hide Offered, Next, Possible, Run;
    LastStep(db, c);
    RunConcat(EMPTY, IMPORT, [c]);
    RunConcat(EMPTY, IMPORT + [c], steps);
  }

  /** Voiding need not undo the status of a revoked item: import an item, pay it, revoke its batch,
      void the payment. Nothing is paid on it any more, yet it is stored as paid, which it is not
      in the same run without the payment. */
  lemma RevokedStatusDiffers()
    ensures var db, c := Run(EMPTY, IMPORT), Create(PAY, Some(0), 7);
            var steps := GIVE_UP;
            && Possible(EMPTY, IMPORT + [c] + steps) && Records(db, c, 7)
            && var start := Next(db, c);
               var a, b := Run(start, steps), Run(db, Replay(start, steps, 7, start.payments[7].key));
               && a == Run(EMPTY, IMPORT + [c] + steps)
               && |a.items| == |b.items| == 1 && PaidOf(a, 0) == PaidOf(b, 0) == 0
               && a.items[0].status == Paid != b.items[0].status
  {
    hide Inv, Apply, Indifferent;
    InitialInv();
    ImportRun();
    RunKeepsInv(EMPTY, IMPORT);
    var db, c := Run(EMPTY, IMPORT), Create(PAY, Some(0), 7);
    var start, steps := Next(db, c), GIVE_UP;
    PayAccepted(db);
    PaidThenRevoked(db);
    WholeRun(db, c, steps);
    VoidUndoes(db, c, 7, steps);
    VoidUndoesItem(db, c, 7, steps, 0);
  }
}
