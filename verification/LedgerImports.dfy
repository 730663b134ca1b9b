/** Saving, confirming and revoking imports keeps the ledger's invariant, and what a
    confirmation writes and reports. */
module LedgerImports {
  import opened Text
  import opened Money
  import opened ImportRules
  import opened Ledger
  import opened LedgerInvariant

  // ---------- The state of a running import ----------

  function CNsOf(es: seq<Entry>): set<string> { set e | e in es :: e.detail.normalizedCN }

  function SkusOf(es: seq<Entry>): set<ProductKey> { set e | e in es :: KeyOfProduct(e) }

  ghost predicate Grows<T>(a: seq<T>, b: seq<T>) {
    |a| <= |b| && forall i :: 0 <= i < |a| ==> b[i] == a[i]
  }

  /** Users are only appended; the id map is exactly the CNs seen, each at its own user. */
  ghost predicate UsersOk(base: seq<User>, seen: set<string>, users: seq<User>, ids: map<string, nat>) {
    && Grows(base, users)
    && (forall u, v :: 0 <= u < v < |users| ==> users[u].cn != users[v].cn)
    && ids.Keys == seen
    && (forall cn :: cn in ids ==> ids[cn] < |users| && users[ids[cn]].cn == cn)
  }

  /** One new order for each user the import met, and no other. */
  ghost predicate OrdersOk(base: seq<Order>, orders: seq<Order>, ids: map<nat, nat>, userIds: map<string, nat>) {
    && Grows(base, orders)
    && |orders| == |base| + |ids| && |ids| == |userIds|
    && ids.Keys == userIds.Values
    && (forall u :: u in ids ==> |base| <= ids[u] < |orders| && orders[ids[u]].user == u)
    && (forall o :: |base| <= o < |orders| ==> orders[o].user in ids && ids[orders[o].user] == o)
  }

  /** The item an entry becomes: unpaid and live, in the order of the entry's own CN. */
  ghost predicate ItemOf(it: Item, e: Entry, bid: nat, userIds: map<string, nat>, orderIds: map<nat, nat>) {
    && it.batch == bid && !it.revoked && it.status == Unpaid
    && it.amount == e.detail.amount >= 0 && it.quantity == e.detail.quantity
    && e.detail.normalizedCN in userIds && userIds[e.detail.normalizedCN] in orderIds
    && it.order == orderIds[userIds[e.detail.normalizedCN]]
  }

  ghost predicate HasItem(items: seq<Item>, from: nat, o: nat) {
    exists k :: from <= k < |items| && items[k].order == o
  }

  /** One new item per entry, in order; no new order stays empty. */
  ghost predicate ItemsOk(base: seq<Item>, bid: nat, es: seq<Entry>, items: seq<Item>, userIds: map<string, nat>,
                          orderIds: map<nat, nat>) {
    && Grows(base, items) && |items| == |base| + |es|
    && (forall i :: |base| <= i < |items| ==> ItemOf(items[i], es[i - |base|], bid, userIds, orderIds))
    && (forall u :: u in orderIds ==> HasItem(items, |base|, orderIds[u]))
  }

  ghost predicate ProductsOk(base: seq<Product>, seen: set<ProductKey>, products: seq<Product>,
                             ids: map<ProductKey, nat>) {
    Grows(base, products) && ids.Keys == seen && |products| == |base| + |ids|
  }

  ghost predicate WorkOk(db: Db, bid: nat, es: seq<Entry>, w: Work) {
    && UsersOk(db.users, CNsOf(es), w.users, w.userIds)
    && OrdersOk(db.orders, w.orders, w.orderIds, w.userIds)
    && ItemsOk(db.items, bid, es, w.items, w.userIds, w.orderIds)
    && ProductsOk(db.products, SkusOf(es), w.products, w.productIds)
  }

  lemma SkusAppend(es: seq<Entry>, e: Entry)
    ensures SkusOf(es + [e]) == SkusOf(es) + {KeyOfProduct(e)}
  {}

  lemma CNsAppend(es: seq<Entry>, e: Entry)
    ensures CNsOf(es + [e]) == CNsOf(es) + {e.detail.normalizedCN}
  {}

  /** A new CN gets a user of its own: either an existing one with that code or a new row. */
  lemma UserStep(base: seq<User>, seen: set<string>, users: seq<User>, ids: map<string, nat>, cn: string, u: nat)
    requires UsersOk(base, seen, users, ids) && cn !in ids && u <= |users|
    requires u < |users| ==> users[u].cn == cn
    requires u == |users| ==> forall v :: 0 <= v < |users| ==> users[v].cn != cn
    ensures UsersOk(base, seen + {cn}, if u == |users| then users + [User(cn, Active)] else users, ids[cn := u])
    ensures u !in ids.Values
  {
    assert forall c :: c in ids ==> ids[c] < |users| && users[ids[c]].cn == c;
    assert ids[cn := u].Keys == ids.Keys + {cn};
  }

  lemma MapGrows<K, V>(m: map<K, V>, k: K, v: V)
    requires k !in m
    ensures m[k := v].Values == m.Values + {v} && |m[k := v]| == |m| + 1
  {
    var r := m[k := v];
    assert r.Keys == m.Keys + {k};
    assert r[k] in r.Values;
    forall x | x in m.Values ensures x in r.Values {
      var c :| c in m && m[c] == x;
      assert r[c] == x;
    }
  }

  lemma OrderStep(base: seq<Order>, orders: seq<Order>, ids: map<nat, nat>, userIds: map<string, nat>,
                  more: map<string, nat>, user: nat)
    requires OrdersOk(base, orders, ids, userIds)
    requires more.Values == userIds.Values + {user} && user !in ids && |more| == |userIds| + 1
    ensures OrdersOk(base, orders + [Order(user, Draft, 0)], ids[user := |orders|], more)
  {
    assert ids[user := |orders|].Keys == ids.Keys + {user};
  }

  lemma ProductStep(base: seq<Product>, seen: set<ProductKey>, products: seq<Product>, ids: map<ProductKey, nat>,
                    sku: ProductKey, bid: nat)
    requires ProductsOk(base, seen, products, ids) && sku !in ids
    ensures ProductsOk(base, seen + {sku}, products + [Product(bid, sku)], ids[sku := |products|])
  {
    assert ids[sku := |products|].Keys == ids.Keys + {sku};
  }

  lemma ItemStep(base: seq<Item>, bid: nat, es: seq<Entry>, items: seq<Item>, userIds: map<string, nat>,
                 orderIds: map<nat, nat>,
                 e: Entry, userIds1: map<string, nat>, orderIds1: map<nat, nat>, it: Item)
    requires ItemsOk(base, bid, es, items, userIds, orderIds)
    requires forall cn :: cn in userIds ==> cn in userIds1 && userIds1[cn] == userIds[cn]
    requires forall u :: u in orderIds ==> u in orderIds1 && orderIds1[u] == orderIds[u]
    requires ItemOf(it, e, bid, userIds1, orderIds1)
    requires forall u :: u in orderIds1 ==> u in orderIds || orderIds1[u] == it.order
    ensures ItemsOk(base, bid, es + [e], items + [it], userIds1, orderIds1)
  {
    var r := items + [it];
    forall u | u in orderIds1 ensures HasItem(r, |base|, orderIds1[u]) {
      if u in orderIds {
        assert HasItem(items, |base|, orderIds[u]);
        var k :| |base| <= k < |items| && items[k].order == orderIds[u];
        assert r[k] == items[k];
      } else {
        assert r[|items|].order == it.order;
      }
    }
    forall i | |base| <= i < |r| ensures ItemOf(r[i], (es + [e])[i - |base|], bid, userIds1, orderIds1) {
      if i < |items| {
        assert ItemOf(items[i], es[i - |base|], bid, userIds, orderIds);
      }
    }
  }

  lemma EnsureNewUser(base: seq<User>, seen: set<string>, w: Work, cn: string)
    requires UsersOk(base, seen, w.users, w.userIds) && cn !in w.userIds
    ensures var w1 := EnsureUser(w, cn);
            && w1 == w.(users := w1.users, userIds := w1.userIds) && cn in w1.userIds
            && UsersOk(base, seen + {cn}, w1.users, w1.userIds)
            && w1.userIds.Values == w.userIds.Values + {w1.userIds[cn]} && w1.userIds[cn] !in w.userIds.Values
            && |w1.userIds| == |w.userIds| + 1
            && (forall c :: c in w.userIds ==> c in w1.userIds && w1.userIds[c] == w.userIds[c])
  {
    hide UsersOk;
    var u := UserIndex(w.users, cn);
    UserStep(base, seen, w.users, w.userIds, cn, u);
    MapGrows(w.userIds, cn, u);
  }

  lemma EnsureUserOk(db: Db, es: seq<Entry>, w: Work, e: Entry)
    requires UsersOk(db.users, CNsOf(es), w.users, w.userIds)
    ensures var w1 := EnsureUser(w, e.detail.normalizedCN);
            && w1 == w.(users := w1.users, userIds := w1.userIds) && e.detail.normalizedCN in w1.userIds
            && UsersOk(db.users, CNsOf(es + [e]), w1.users, w1.userIds)
            && w1.userIds.Values == w.userIds.Values + {w1.userIds[e.detail.normalizedCN]}
            && (e.detail.normalizedCN in w.userIds <==> w1.userIds[e.detail.normalizedCN] in w.userIds.Values)
            && |w1.userIds| == |w.userIds| + (if e.detail.normalizedCN in w.userIds then 0 else 1)
            && (forall cn :: cn in w.userIds ==> cn in w1.userIds && w1.userIds[cn] == w.userIds[cn])
  {
    hide Grows, UserIndex;
    var cn := e.detail.normalizedCN;
    CNsAppend(es, e);
    if cn in w.userIds {
      assert CNsOf(es) + {cn} == CNsOf(es);
      assert w.userIds[cn] in w.userIds.Values;
    } else {
      EnsureNewUser(db.users, CNsOf(es), w, cn);
    }
  }

  lemma EnsureOrderOk(db: Db, w: Work, w1: Work, user: nat)
    requires OrdersOk(db.orders, w.orders, w.orderIds, w.userIds)
    requires w1.orders == w.orders && w1.orderIds == w.orderIds
    requires w1.userIds.Values == w.userIds.Values + {user}
    requires |w1.userIds| == |w.userIds| + if user in w.userIds.Values then 0 else 1
    ensures var w2 := EnsureOrder(w1, user);
            && w2 == w1.(orders := w2.orders, orderIds := w2.orderIds)
            && OrdersOk(db.orders, w2.orders, w2.orderIds, w2.userIds)
            && user in w2.orderIds
            && (forall u :: u in w.orderIds ==> u in w2.orderIds && w2.orderIds[u] == w.orderIds[u])
            && (forall u :: u in w2.orderIds ==> u in w.orderIds || u == user)
  {
    if user in w.orderIds {
      assert w1.userIds.Values == w.userIds.Values;
    } else {
      OrderStep(db.orders, w.orders, w.orderIds, w.userIds, w1.userIds, user);
    }
  }

  lemma EnsureProductOk(db: Db, bid: nat, es: seq<Entry>, w1: Work, e: Entry)
    requires ProductsOk(db.products, SkusOf(es), w1.products, w1.productIds)
    ensures var w2 := EnsureProduct(w1, bid, KeyOfProduct(e));
            && w2 == w1.(products := w2.products, productIds := w2.productIds) && KeyOfProduct(e) in w2.productIds
            && ProductsOk(db.products, SkusOf(es + [e]), w2.products, w2.productIds)
  {
    var sku := KeyOfProduct(e);
    SkusAppend(es, e);
    if sku in w1.productIds {
      assert SkusOf(es) + {sku} == SkusOf(es);
    } else {
      ProductStep(db.products, SkusOf(es), w1.products, w1.productIds, sku, bid);
    }
  }

  lemma EntryUnfolds(w: Work, bid: nat, e: Entry)
    requires ImportEntry(w, bid, e).Some?
    ensures var w1 := EnsureUser(w, e.detail.normalizedCN);
            var w3 := EnsureOrder(EnsureProduct(w1, bid, KeyOfProduct(e)), w1.userIds[e.detail.normalizedCN]);
            var r := ImportEntry(w, bid, e).value;
            && e.detail.quantity > 0 && e.detail.amount >= 0
            && w1.userIds[e.detail.normalizedCN] in w3.orderIds && KeyOfProduct(e) in w3.productIds
            && r == w3.(items := r.items, records := r.records)
            && r.items == w3.items +
              [Item(w3.orderIds[w1.userIds[e.detail.normalizedCN]], w3.productIds[KeyOfProduct(e)], bid,
                                           e.detail.quantity, e.detail.amount, Unpaid, false)]
  {}

  lemma EntryCompose(db: Db, bid: nat, es: seq<Entry>, w: Work, e: Entry, user: nat, w1: Work, w2: Work, w3: Work,
                     r: Work)
    requires ItemsOk(db.items, bid, es, w.items, w.userIds, w.orderIds)
    requires w1 == w.(users := w1.users, userIds := w1.userIds)
    requires w2 == w1.(products := w2.products, productIds := w2.productIds)
    requires w3 == w2.(orders := w3.orders, orderIds := w3.orderIds) && r == w3.(items := r.items, records := r.records)
    requires UsersOk(db.users, CNsOf(es + [e]), w1.users, w1.userIds)
    requires ProductsOk(db.products, SkusOf(es + [e]), w2.products, w2.productIds)
    requires OrdersOk(db.orders, w3.orders, w3.orderIds, w3.userIds)
    requires e.detail.normalizedCN in w1.userIds && user == w1.userIds[e.detail.normalizedCN] && user in w3.orderIds
    requires forall cn :: cn in w.userIds ==> cn in w1.userIds && w1.userIds[cn] == w.userIds[cn]
    requires forall u :: u in w.orderIds ==> u in w3.orderIds && w3.orderIds[u] == w.orderIds[u]
    requires forall u :: u in w3.orderIds ==> u in w.orderIds || u == user
    requires e.detail.amount >= 0 && |r.items| > 0 && r.items == w.items + [r.items[|r.items| - 1]]
    requires r.items[|r.items| - 1] == Item(w3.orderIds[user], r.items[|r.items| - 1].product, bid,
                                            e.detail.quantity, e.detail.amount, Unpaid, false)
    ensures WorkOk(db, bid, es + [e], r)
  {
    ItemStep(db.items, bid, es, w.items, w.userIds, w.orderIds, e, w3.userIds, w3.orderIds, r.items[|r.items| - 1]);
  }

  lemma EntryStep(db: Db, bid: nat, es: seq<Entry>, w: Work, e: Entry)
    requires WorkOk(db, bid, es, w) && ImportEntry(w, bid, e).Some?
    ensures WorkOk(db, bid, es + [e], ImportEntry(w, bid, e).value)
  {
    hide EnsureUser, EnsureProduct, EnsureOrder, UsersOk, ProductsOk, OrdersOk, ItemsOk, ImportEntry, KeyOfProduct,
      CNsOf, SkusOf;
    EnsureUserOk(db, es, w, e);
    var w1 := EnsureUser(w, e.detail.normalizedCN);
    EnsureProductOk(db, bid, es, w1, e);
    var w2 := EnsureProduct(w1, bid, KeyOfProduct(e));
    var user := w1.userIds[e.detail.normalizedCN];
    EnsureOrderOk(db, w, w2, user);
    EntryUnfolds(w, bid, e);
    EntryCompose(db, bid, es, w, e, user, w1, w2, EnsureOrder(w2, user), ImportEntry(w, bid, e).value);
  }

  lemma StartOk(db: Db, bid: nat)
    requires Refs(db)
    ensures WorkOk(db, bid, [], StartWork(db))
  {}

  lemma ImportLast(w0: Work, bid: nat, es: seq<Entry>, w: Work) returns (w1: Work)
    requires es != [] && ImportAll(w0, bid, es) == Some(w)
    ensures ImportAll(w0, bid, es[..|es| - 1]) == Some(w1) && ImportEntry(w1, bid, es[|es| - 1]) == Some(w)
  {
    w1 := ImportAll(w0, bid, es[..|es| - 1]).value;
  }

  lemma {:induction false} ImportAllOk(db: Db, bid: nat, es: seq<Entry>, w: Work)
    requires Refs(db) && ImportAll(StartWork(db), bid, es) == Some(w)
    ensures WorkOk(db, bid, es, w)
  {
    hide WorkOk;
    if es == [] {
      StartOk(db, bid);
    } else {
      var n := |es| - 1;
      var w1 := ImportLast(StartWork(db), bid, es, w);
      ImportAllOk(db, bid, es[..n], w1);
      EntryStep(db, bid, es[..n], w1, es[n]);
      assert es[..n] + [es[n]] == es;
    }
  }

  /** All the invariant needs to know of the new items. */
  ghost predicate NewItems(base: seq<Item>, items: seq<Item>, bid: nat, lo: nat, hi: nat) {
    && Grows(base, items)
    && forall i :: |base| <= i < |items| ==>
         items[i].batch == bid && !items[i].revoked && items[i].status == Unpaid && items[i].amount >= 0
           && lo <= items[i].order < hi
  }

  lemma NewItemsOk(base: seq<Item>, bid: nat, es: seq<Entry>, items: seq<Item>, userIds: map<string, nat>,
                   orderIds: map<nat, nat>,
                   baseOrders: seq<Order>, orders: seq<Order>)
    requires ItemsOk(base, bid, es, items, userIds, orderIds) && OrdersOk(baseOrders, orders, orderIds, userIds)
    ensures NewItems(base, items, bid, |baseOrders|, |orders|)
  {
    forall i | |base| <= i < |items|
      ensures items[i].batch == bid && !items[i].revoked && items[i].status == Unpaid && items[i].amount >= 0
      ensures |baseOrders| <= items[i].order < |orders|
    {
      assert ItemOf(items[i], es[i - |base|], bid, userIds, orderIds);
    }
  }

  ghost predicate NewOrders(base: seq<Order>, orders: seq<Order>, items: seq<Item>, from: nat, users: nat) {
    && |base| <= |orders|
    && (forall o :: 0 <= o < |base| ==> orders[o] == base[o])
    && (forall o :: |base| <= o < |orders| ==>
          orders[o].user < users && orders[o].status == Submitted && orders[o].total == LiveSum(items, o)
            && HasItem(items, from, o))
  }

  lemma NewOrdersOk(base: seq<Order>, orders: seq<Order>, ids: map<nat, nat>, userIds: map<string, nat>,
                    items: seq<Item>, from: nat, baseUsers: seq<User>, users: seq<User>, seen: set<string>)
    requires OrdersOk(base, orders, ids, userIds) && UsersOk(baseUsers, seen, users, userIds)
    requires forall u :: u in ids ==> HasItem(items, from, ids[u])
    ensures NewOrders(base, SubmitOrders(orders, items, ids.Values), items, from, |users|)
  {
    forall o | 0 <= o < |orders|
      ensures o in ids.Values <==> o >= |base|
      ensures o >= |base| ==> HasItem(items, from, o) && orders[o].user < |users|
    {
      if o >= |base| {
        assert ids[orders[o].user] == o;
        assert orders[o].user in userIds.Values;
        var cn :| cn in userIds && userIds[cn] == orders[o].user;
      }
    }
  }

  /** The database after an import, told apart from how it was made. */
  ghost predicate Imported(db: Db, bid: nat, next: Db) {
    && next.payments == db.payments && next.rows == db.rows && next.proofs == db.proofs
    && bid in db.batches && next.batches == db.batches[bid := db.batches[bid].(status := Confirmed)]
    && Grows(db.users, next.users)
    && (forall u, v :: 0 <= u < v < |next.users| ==> next.users[u].cn != next.users[v].cn)
    && NewItems(db.items, next.items, bid, |db.orders|, |next.orders|)
    && NewOrders(db.orders, next.orders, next.items, |db.items|, |next.users|)
  }

  lemma FinishIsImported(db: Db, bid: nat, es: seq<Entry>, w: Work)
    requires WorkOk(db, bid, es, w) && bid in db.batches
    ensures Imported(db, bid, FinishImport(db, bid, w))
  {
    NewItemsOk(db.items, bid, es, w.items, w.userIds, w.orderIds, db.orders, w.orders);
    NewOrdersOk(db.orders, w.orders, w.orderIds, w.userIds, w.items, |db.items|, db.users, w.users, CNsOf(es));
  }

  // ---------- Sums over the new rows ----------

  lemma {:induction false} SumsOfPrefix(a: seq<Item>, b: seq<Item>, o: nat)
    requires forall k :: 0 <= k < |b| ==> !LiveIn(b[k], o)
    ensures LiveSum(a + b, o) == LiveSum(a, o) && LiveCount(a + b, o) == LiveCount(a, o)
    ensures forall s :: StatusCount(a + b, o, s) == StatusCount(a, o, s)
  {
    if b == [] {
      assert a + b == a;
    } else {
      var n := |b| - 1;
      assert (a + b)[..|a + b| - 1] == a + b[..n];
      SumsOfPrefix(a, b[..n], o);
    }
  }

  /** An order whose live items are all unpaid is submitted. */
  lemma FreshOrderStatus(items: seq<Item>, o: nat)
    requires LiveCount(items, o) > 0
    requires forall i :: 0 <= i < |items| && LiveIn(items[i], o) ==> items[i].status == Unpaid
    ensures OrderStatusOf(items, o, Submitted) == Submitted
  {
    OrderStatusMeaning(items, o, Submitted);
  }

  function SumTotals(orders: seq<Order>, from: nat): int
    requires from <= |orders|
    decreases |orders| - from
  {
    if from == |orders| then 0 else orders[from].total + SumTotals(orders, from + 1)
  }

  function RangeSum(items: seq<Item>, lo: nat, hi: nat): int
    requires lo <= hi
    decreases hi - lo
  {
    if lo == hi then 0 else LiveSum(items, lo) + RangeSum(items, lo + 1, hi)
  }

  lemma {:induction false} RangeSumAdd(items: seq<Item>, it: Item, lo: nat, hi: nat)
    requires lo <= hi
    ensures RangeSum(items + [it], lo, hi) == RangeSum(items, lo, hi) +
              if lo <= it.order < hi && !it.revoked then it.amount else 0
    decreases hi - lo
  {
    if lo < hi {
      RangeSumAdd(items, it, lo + 1, hi);
      assert (items + [it])[..|items|] == items;
    }
  }

  lemma {:induction false} RangeSumOldItems(items: seq<Item>, lo: nat, hi: nat)
    requires lo <= hi
    requires forall i :: 0 <= i < |items| ==> items[i].order < lo
    ensures RangeSum(items, lo, hi) == 0
    decreases hi - lo
  {
    if lo < hi {
      RangeSumOldItems(items, lo + 1, hi);
      NoneLive(items, lo);
    }
  }

  lemma {:induction false} RangeSumIsAmounts(earlier: seq<Item>, added: seq<Item>, es: seq<Entry>, lo: nat, hi: nat)
    requires lo <= hi && |added| == |es|
    requires forall i :: 0 <= i < |earlier| ==> earlier[i].order < lo
    requires forall k :: 0 <= k < |es| ==>
               lo <= added[k].order < hi && !added[k].revoked && added[k].amount == es[k].detail.amount
    ensures RangeSum(earlier + added, lo, hi) == SumAmounts(es)
  {
    if es == [] {
      assert earlier + added == earlier;
      RangeSumOldItems(earlier, lo, hi);
    } else {
      var n := |es| - 1;
      RangeSumIsAmounts(earlier, added[..n], es[..n], lo, hi);
      RangeSumAdd(earlier + added[..n], added[n], lo, hi);
      assert earlier + added == earlier + added[..n] + [added[n]];
    }
  }

  lemma {:induction false} TotalsAreRange(orders: seq<Order>, items: seq<Item>, from: nat)
    requires from <= |orders|
    requires forall o :: from <= o < |orders| ==> orders[o].total == LiveSum(items, o)
    ensures SumTotals(orders, from) == RangeSum(items, from, |orders|)
    decreases |orders| - from
  {
    if from < |orders| {
      TotalsAreRange(orders, items, from + 1);
    }
  }

  function SumItemQuantities(items: seq<Item>): int {
    if items == [] then 0 else SumItemQuantities(items[..|items| - 1]) + items[|items| - 1].quantity
  }

  lemma {:induction false} QuantitiesMatch(added: seq<Item>, es: seq<Entry>)
    requires |added| == |es|
    requires forall k :: 0 <= k < |es| ==> added[k].quantity == es[k].detail.quantity
    ensures SumItemQuantities(added) == SumQuantities(es)
  {
    if es != [] {
      QuantitiesMatch(added[..|es| - 1], es[..|es| - 1]);
    }
  }

  // ---------- Confirming ----------

  /** A confirmed import: its adjusted preview's entries and the work done on them. */
  ghost predicate Confirms(db: Db, bid: nat, allow: bool, rules: Rules, es: seq<Entry>, w: Work) {
    && ConfirmError(db, bid) == None
    && Adjusted(db.batches[bid].payload.value, rules).Some?
    && PreviewError(Adjusted(db.batches[bid].payload.value, rules).value, allow) == None
    && es == Entries(Adjusted(db.batches[bid].payload.value, rules).value.batches)
    && ImportAll(StartWork(db), bid, es) == Some(w)
  }

  lemma ConfirmWork(db: Db, bid: nat, allow: bool, rules: Rules) returns (es: seq<Entry>, w: Work)
    requires ConfirmImport(db, bid, allow, rules).1.ConfirmReply?
    ensures Confirms(db, bid, allow, rules, es, w)
    ensures ConfirmImport(db, bid, allow, rules).0 == FinishImport(db, bid, w)
  {
    es := Entries(Adjusted(db.batches[bid].payload.value, rules).value.batches);
    w := ImportAll(StartWork(db), bid, es).value;
  }

  /** The item of entry k: the detail's amounts, in a new order of the user with the detail's CN. */
  lemma WorkItem(db: Db, bid: nat, es: seq<Entry>, w: Work, k: nat)
    requires WorkOk(db, bid, es, w) && k < |es|
    ensures |w.items| == |db.items| + |es|
    ensures ItemOf(w.items[|db.items| + k], es[k], bid, w.userIds, w.orderIds)
    ensures var o := w.items[|db.items| + k].order;
            && |db.orders| <= o < |w.orders| && w.orders[o].user == w.userIds[es[k].detail.normalizedCN] < |w.users|
            && w.users[w.orders[o].user].cn == es[k].detail.normalizedCN
  {
    assert ItemOf(w.items[|db.items| + k], es[k], bid, w.userIds, w.orderIds);
  }

  lemma FinishOrder(db: Db, bid: nat, w: Work, o: nat)
    requires bid in db.batches && o < |w.orders|
    ensures var next := FinishImport(db, bid, w);
            && |next.orders| == |w.orders| && next.orders[o].user == w.orders[o].user && next.users == w.users
            && next.items == w.items
  {}

  /** The new item carries the entry's amounts and sits in a new order. */
  ghost predicate Carries(it: Item, e: Entry, lo: nat, hi: nat) {
    it.quantity == e.detail.quantity && it.amount == e.detail.amount && lo <= it.order < hi && !it.revoked
  }

  lemma AddedItems(base: seq<Item>, bid: nat, es: seq<Entry>, items: seq<Item>, userIds: map<string, nat>,
                   orderIds: map<nat, nat>,
                   baseOrders: seq<Order>, orders: seq<Order>)
    requires ItemsOk(base, bid, es, items, userIds, orderIds) && OrdersOk(baseOrders, orders, orderIds, userIds)
    ensures |items| == |base| + |es| && items == base + items[|base|..]
    ensures forall k :: 0 <= k < |es| ==> Carries(items[|base|..][k], es[k], |baseOrders|, |orders|)
  {
    forall k | 0 <= k < |es| ensures Carries(items[|base|..][k], es[k], |baseOrders|, |orders|) {
      assert ItemOf(items[|base| + k], es[k], bid, userIds, orderIds);
    }
  }

  lemma AddedSums(base: seq<Item>, added: seq<Item>, es: seq<Entry>, from: nat, orders: seq<Order>)
    requires |added| == |es| && from <= |orders|
    requires forall i :: 0 <= i < |base| ==> base[i].order < from
    requires forall k :: 0 <= k < |es| ==> Carries(added[k], es[k], from, |orders|)
    requires forall o :: from <= o < |orders| ==> orders[o].total == LiveSum(base + added, o)
    ensures SumItemQuantities(added) == SumQuantities(es) && SumTotals(orders, from) == SumAmounts(es)
  {
    QuantitiesMatch(added, es);
    RangeSumIsAmounts(base, added, es, from, |orders|);
    TotalsAreRange(orders, base + added, from);
  }

  lemma ImportedTotals(db: Db, bid: nat, es: seq<Entry>, next: Db)
    requires Refs(db) && Imported(db, bid, next)
    requires |next.items| == |db.items| + |es| && next.items == db.items + next.items[|db.items|..]
    requires forall k :: 0 <= k < |es| ==> Carries(next.items[|db.items|..][k], es[k], |db.orders|, |next.orders|)
    ensures SumItemQuantities(next.items[|db.items|..]) == SumQuantities(es)
    ensures SumTotals(next.orders, |db.orders|) == SumAmounts(es)
  {
    AddedSums(db.items, next.items[|db.items|..], es, |db.orders|, next.orders);
  }

  lemma ConfirmTotals(db: Db, bid: nat, es: seq<Entry>, w: Work, next: Db)
    requires Refs(db) && WorkOk(db, bid, es, w) && bid in db.batches && next == FinishImport(db, bid, w)
    ensures |next.items| == |db.items| + |es|
    ensures |db.orders| <= |next.orders|
    ensures SumItemQuantities(next.items[|db.items|..]) == SumQuantities(es)
    ensures SumTotals(next.orders, |db.orders|) == SumAmounts(es)
  {
    AddedItems(db.items, bid, es, w.items, w.userIds, w.orderIds, db.orders, w.orders);
    FinishIsImported(db, bid, es, w);
    ImportedTotals(db, bid, es, next);
  }

  lemma ReportedCounts(db: Db, bid: nat, es: seq<Entry>, w: Work)
    requires WorkOk(db, bid, es, w)
    ensures |w.userIds| == |CNsOf(es)| && |w.orderIds| == |CNsOf(es)| && |w.productIds| == |SkusOf(es)|
    ensures |w.orders| == |db.orders| + |CNsOf(es)|
  {
    assert |w.userIds.Keys| == |w.userIds| && |w.productIds.Keys| == |w.productIds|;
  }

  /** A confirmation reports what it wrote: as many orders as distinct CNs, as many items as
      surviving details, and the quantity and amount that its new orders hold. */
  lemma ConfirmReports(db: Db, bid: nat, allow: bool, rules: Rules, es: seq<Entry>, w: Work)
    requires Refs(db) && Confirms(db, bid, allow, rules, es, w)
    ensures var (next, reply) := ConfirmImport(db, bid, allow, rules);
            && |next.items| == |db.items| + |es| && |next.orders| == |db.orders| + |CNsOf(es)|
            && reply == ConfirmReply(|CNsOf(es)|, |SkusOf(es)|, |CNsOf(es)|, |es|,
                                     SumItemQuantities(next.items[|db.items|..]), SumTotals(next.orders, |db.orders|))
  {
    ImportAllOk(db, bid, es, w);
    FinishIsImported(db, bid, es, w);
    ConfirmTotals(db, bid, es, w, FinishImport(db, bid, w));
    ReportedCounts(db, bid, es, w);
  }

  lemma OrdersFollowCNs(db: Db, bid: nat, es: seq<Entry>, w: Work, j: nat, k: nat)
    requires WorkOk(db, bid, es, w) && j < |es| && k < |es|
    ensures |w.items| == |db.items| + |es|
    ensures w.items[|db.items| + j].order == w.items[|db.items| + k].order <==>
              es[j].detail.normalizedCN == es[k].detail.normalizedCN
  {
    WorkItem(db, bid, es, w, j);
    WorkItem(db, bid, es, w, k);
  }

  /** Two details share an order exactly when they share a CN, and each detail became one item of it. */
  lemma ConfirmGroups(db: Db, bid: nat, allow: bool, rules: Rules, es: seq<Entry>, w: Work, j: nat, k: nat)
    requires Refs(db) && Confirms(db, bid, allow, rules, es, w) && j < |es| && k < |es|
    ensures var next := ConfirmImport(db, bid, allow, rules).0;
            && |next.items| == |db.items| + |es|
            && var a, b := next.items[|db.items| + j], next.items[|db.items| + k];
            && a.batch == bid && a.amount == es[j].detail.amount && a.quantity == es[j].detail.quantity
            && |db.orders| <= a.order < |next.orders| && next.orders[a.order].user < |next.users|
            && next.users[next.orders[a.order].user].cn == es[j].detail.normalizedCN
            && (a.order == b.order <==> es[j].detail.normalizedCN == es[k].detail.normalizedCN)
  {
    ImportAllOk(db, bid, es, w);
    WorkItem(db, bid, es, w, j);
    WorkItem(db, bid, es, w, k);
    FinishOrder(db, bid, w, w.items[|db.items| + j].order);
    OrdersFollowCNs(db, bid, es, w, j, k);
  }

  lemma ImportedKeepsRefs(db: Db, bid: nat, next: Db)
    requires Refs(db) && Owners(db) && Imported(db, bid, next)
    ensures Refs(next) && Owners(next)
  {
    assert Refs(next);
  }

  lemma {:induction false} PaidNothing(p: map<nat, Payment>, rows: seq<PayRow>, i: nat)
    requires forall k :: 0 <= k < |rows| ==> rows[k].item != i
    ensures PaidIn(p, rows, i) == 0
  {
    if rows != [] {
      var n := |rows| - 1;
      assert forall k :: 0 <= k < n ==> rows[..n][k] == rows[k];
      PaidNothing(p, rows[..n], i);
    }
  }

  lemma ImportedKeepsItems(db: Db, bid: nat, next: Db)
    requires Refs(db) && Amounts(db) && Statuses(db) && Imported(db, bid, next)
    ensures Amounts(next) && Statuses(next)
  {
    forall i | 0 <= i < |next.items|
      ensures PaidOf(next, i) == PaidOf(db, i)
      ensures i >= |db.items| ==> PaidOf(next, i) == 0
    {
      if i >= |db.items| {
        PaidNothing(db.payments, db.rows, i);
      }
    }
  }

  lemma ImportedKeepsOrders(db: Db, bid: nat, next: Db)
    requires Refs(db) && Totals(db) && OrderStatuses(db) && Imported(db, bid, next)
    ensures Totals(next) && OrderStatuses(next)
  {
    var added := next.items[|db.items|..];
    assert next.items == db.items + added;
    forall o | 0 <= o < |next.orders|
      ensures next.orders[o].total == LiveSum(next.items, o)
      ensures next.orders[o].status == Cancelled <==> LiveCount(next.items, o) == 0
      ensures next.orders[o].status != Cancelled ==>
                next.orders[o].status == OrderStatusOf(next.items, o, next.orders[o].status)
    {
      if o < |db.orders| {
        SumsOfPrefix(db.items, added, o);
      } else {
        assert HasItem(next.items, |db.items|, o);
        var k :| |db.items| <= k < |next.items| && next.items[k].order == o;
        assert LiveIn(next.items[k], o);
        NoneLive(next.items, o);
        FreshOrderStatus(next.items, o);
      }
    }
  }

  lemma ImportedKeepsBatches(db: Db, bid: nat, next: Db)
    requires Refs(db) && Batches(db) && Imported(db, bid, next) && db.batches[bid].status == Previewed
    ensures Batches(next)
  {
    assert forall i :: 0 <= i < |db.items| ==> db.items[i].batch != bid;
  }

  lemma ImportedKeepsInv(db: Db, bid: nat, next: Db)
    requires Inv(db) && Imported(db, bid, next) && db.batches[bid].status == Previewed
    ensures Inv(next)
  {
    ImportedKeepsRefs(db, bid, next);
    ImportedKeepsItems(db, bid, next);
    ImportedKeepsOrders(db, bid, next);
    ImportedKeepsBatches(db, bid, next);
    PaymentTablesAlone(db, next);
  }

  lemma ConfirmKeepsInv(db: Db, bid: nat, allow: bool, rules: Rules)
    requires Inv(db)
    ensures Inv(ConfirmImport(db, bid, allow, rules).0)
  {
    if ConfirmImport(db, bid, allow, rules).1.ConfirmReply? {
      var es, w := ConfirmWork(db, bid, allow, rules);
      ImportAllOk(db, bid, es, w);
      FinishIsImported(db, bid, es, w);
      var next := FinishImport(db, bid, w);
      ImportedKeepsInv(db, bid, next);
    }
  }

  // ---------- Saving and revoking ----------

  /** The batch table touches no other part of the invariant. */
  lemma OtherBatches(db: Db, batches: map<nat, Batch>)
    requires Inv(db) && Batches(db.(batches := batches))
    ensures Inv(db.(batches := batches))
  {
    var r := db.(batches := batches);
    assert forall i :: 0 <= i < |db.items| ==> PaidOf(r, i) == PaidOf(db, i);
  }

  lemma SaveKeepsBatches(db: Db, bid: nat, p: Preview)
    requires Batches(db) && bid !in db.batches
    ensures Batches(SavePreview(db, bid, p).0)
  {}

  lemma SaveKeepsInv(db: Db, bid: nat, p: Preview)
    requires Inv(db) && bid !in db.batches
    ensures Inv(SavePreview(db, bid, p).0)
  {
    hide Refs, Owners, Amounts, Statuses, Totals, OrderStatuses, Principals, Keys, Proofs, Batches;
    SaveKeepsBatches(db, bid, p);
    OtherBatches(db, SavePreview(db, bid, p).0.batches);
  }

  lemma {:induction false} CountPositive(items: seq<Item>, bid: nat)
    ensures BatchCount(items, bid) == 0 <==> forall i :: 0 <= i < |items| ==> !LiveOfBatch(items[i], bid)
    ensures BatchCount(items, bid) == 0 ==> BatchSum(items, bid) == 0
  {
    if items != [] {
      CountPositive(items[..|items| - 1], bid);
      assert forall i :: 0 <= i < |items| - 1 ==> items[..|items| - 1][i] == items[i];
    }
  }

  /** Because an order's items share one batch, revoking the batch empties every order it touches. */
  lemma RevokeEmpties(db: Db, bid: nat, o: nat)
    requires Batches(db) && o in TouchedOrders(db.items, bid)
    ensures LiveCount(RevokeItems(db.items, bid), o) == 0 && LiveSum(RevokeItems(db.items, bid), o) == 0
  {
    var items := RevokeItems(db.items, bid);
    var i :| 0 <= i < |db.items| && LiveOfBatch(db.items[i], bid) && db.items[i].order == o;
    forall j | 0 <= j < |items| ensures !LiveIn(items[j], o) {
      if db.items[j].order == o {
        assert db.items[j].batch == db.items[i].batch;
      }
    }
    NoneLive(items, o);
  }

  lemma RevokeKeepsOrders(db: Db, bid: nat)
    requires Refs(db) && Totals(db) && OrderStatuses(db) && Batches(db)
    requires RevokeImport(db, bid).1.RevokeReply?
    ensures var next := RevokeImport(db, bid).0; Totals(next) && OrderStatuses(next)
  {
    var next := RevokeImport(db, bid).0;
    forall o | 0 <= o < |db.orders|
      ensures next.orders[o].total == LiveSum(next.items, o)
      ensures next.orders[o].status == Cancelled <==> LiveCount(next.items, o) == 0
      ensures next.orders[o].status != Cancelled ==>
                next.orders[o].status == OrderStatusOf(next.items, o, next.orders[o].status)
    {
      if o in TouchedOrders(db.items, bid) {
        RevokeEmpties(db, bid, o);
      } else {
        SumsFrame(db.items, next.items, o);
        OrderStatusFrame(db.items, next.items, o, db.orders[o].status);
      }
    }
  }

  /** Revoking items and changing what orders add up to leaves who owns and what is paid alone. */
  lemma RevokedOwners(db: Db, next: Db)
    requires Refs(db) && Owners(db) && next.users == db.users && next.payments == db.payments && next.rows == db.rows
    requires |next.items| == |db.items| && |next.orders| == |db.orders|
    requires forall i :: 0 <= i < |db.items| ==> next.items[i] == db.items[i].(revoked := next.items[i].revoked)
    requires forall o :: 0 <= o < |db.orders| ==> next.orders[o].user == db.orders[o].user
    ensures Refs(next) && Owners(next)
  {}

  lemma RevokedAmounts(db: Db, next: Db)
    requires Amounts(db) && Statuses(db) && next.payments == db.payments && next.rows == db.rows
    requires |next.items| == |db.items|
    requires forall i :: 0 <= i < |db.items| ==> next.items[i] == db.items[i].(revoked := next.items[i].revoked)
    requires forall i :: 0 <= i < |db.items| && db.items[i].revoked ==> next.items[i].revoked
    ensures Amounts(next) && Statuses(next)
  {
    assert forall i :: 0 <= i < |db.items| ==> PaidOf(next, i) == PaidOf(db, i);
    hide PaidOf;
  }

  lemma RevokeKeepsItems(db: Db, bid: nat)
    requires Refs(db) && Owners(db) && Amounts(db) && Statuses(db)
    requires RevokeImport(db, bid).1.RevokeReply?
    ensures var next := RevokeImport(db, bid).0; Refs(next) && Owners(next) && Amounts(next) && Statuses(next)
  {
    hide Refs, Owners, Amounts, Statuses, LiveSum, LiveCount, TouchedOrders;
    RevokedOwners(db, RevokeImport(db, bid).0);
    RevokedAmounts(db, RevokeImport(db, bid).0);
  }

  lemma RevokeKeepsBatches(db: Db, bid: nat)
    requires Batches(db) && RevokeImport(db, bid).1.RevokeReply?
    ensures Batches(RevokeImport(db, bid).0)
  {
    var next := RevokeImport(db, bid).0;
    assert forall i :: 0 <= i < |db.items| ==>
             next.items[i].batch == db.items[i].batch && next.items[i].order == db.items[i].order;
  }

  lemma RevokeKeepsInv(db: Db, bid: nat)
    requires Inv(db)
    ensures Inv(RevokeImport(db, bid).0)
  {
    hide Refs, Owners, Amounts, Statuses, Totals, OrderStatuses, Principals, Keys, Proofs, Batches, RevokeItems,
      CancelOrders, TouchedOrders;
    if RevokeImport(db, bid).1.RevokeReply? {
      RevokeKeepsOrders(db, bid);
      RevokeKeepsItems(db, bid);
      RevokeKeepsBatches(db, bid);
      PaymentTablesAlone(db, RevokeImport(db, bid).0);
    }
  }

  lemma OtherOrdersUntouched(db: Db, bid: nat, i: nat)
    requires Batches(db) && i < |db.items| && db.items[i].batch != bid
    ensures db.items[i].order !in TouchedOrders(db.items, bid)
  {
    assert forall j :: 0 <= j < |db.items| && db.items[j].order == db.items[i].order ==>
             db.items[j].batch == db.items[i].batch;
  }

  /** A successful revocation revokes the batch's items and leaves their orders cancelled
      with total 0; items of other batches and their orders stay as they were. */
  lemma RevokeCancels(db: Db, bid: nat, i: nat)
    requires Inv(db) && RevokeImport(db, bid).1.RevokeReply? && i < |db.items|
    ensures var next := RevokeImport(db, bid).0;
            var o := db.items[i].order;
            if db.items[i].batch == bid
            then next.items[i].revoked && next.orders[o] == db.orders[o].(status := Cancelled, total := 0)
            else next.items[i] == db.items[i] && next.orders[o] == db.orders[o]
  {
    if db.items[i].batch == bid {
      assert LiveOfBatch(db.items[i], bid);
      RevokeEmpties(db, bid, db.items[i].order);
    } else {
      OtherOrdersUntouched(db, bid, i);
    }
  }
}
