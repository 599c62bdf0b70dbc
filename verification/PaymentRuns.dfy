/** What every run of the service calls keeps. */
module PaymentRuns {
  import opened Results
  import opened Ledger
  import opened Payments
  import opened Hex

  // ---------- the invariant ----------

  ghost predicate LinkedPayment(db: Db, p: Payment) {
    && p.amount > 0 && p.admin in db.admins.balance
    && (p.kind == ForTopup <==> p.order.None?)
    && (p.order.Some? ==> p.order.value in db.orders)
    && (p.customer.Some? ==> p.customer.value in db.customers.balance)
  }

  /** Foreign keys hold; an order has at most one payment; a transaction id is filed once. */
  ghost predicate Linked(db: Db) {
    && (forall id :: id in db.payments ==> LinkedPayment(db, db.payments[id]))
    && (forall o :: o in db.orders ==> db.orders[o].admin in db.admins.balance)
    && Distinct(db.payments)
  }

  ghost predicate Distinct(payments: map<Id, Payment>) {
    forall p, q :: p in payments && q in payments && p != q ==>
      && (payments[p].order.Some? ==> payments[p].order != payments[q].order)
      && (payments[p].txid.Some? ==> payments[p].txid != payments[q].txid)
  }

  predicate IsSettledTopup(db: Db, id: Id) {
    id in db.payments && db.payments[id].kind == ForTopup && db.payments[id].status == Confirmed
  }

  /** A confirmed top-up has one row, in the ledger of whoever it belongs to; nothing else has any. */
  ghost predicate SettledOnce(db: Db, id: Id) {
    var toCustomer := IsSettledTopup(db, id) && db.payments[id].customer.Some?;
    var toAdmin := IsSettledTopup(db, id) && db.payments[id].customer.None?;
    && Settlements(db.admins.rows, id) == (if toAdmin then 1 else 0)
    && Settlements(db.customers.rows, id) == (if toCustomer then 1 else 0)
  }

  ghost predicate AdminRowFits(db: Db, t: Tx) {
    t.ref.PaymentRef? ==>
      && t.ref.id in db.payments
      && t.account == db.payments[t.ref.id].admin && t.amount == db.payments[t.ref.id].amount
  }

  ghost predicate CustomerRowFits(db: Db, t: Tx) {
    t.ref.PaymentRef? ==>
      && t.ref.id in db.payments
      && Some(t.account) == db.payments[t.ref.id].customer && t.amount >= db.payments[t.ref.id].amount
  }

  ghost predicate Settled(db: Db) {
    && (forall id :: SettledOnce(db, id))
    && (forall i :: 0 <= i < |db.admins.rows| ==> AdminRowFits(db, db.admins.rows[i]))
    && (forall i :: 0 <= i < |db.customers.rows| ==> CustomerRowFits(db, db.customers.rows[i]))
  }

  /** Opening balances of the two kinds of wallet. */
  datatype Opening = Opening(admins: map<Id, int>, customers: map<Id, int>)

  ghost predicate Books(db: Db, start: Opening) {
    Balanced(db.admins, start.admins) && Balanced(db.customers, start.customers) && NeverNegative(db.customers)
  }

  ghost predicate Inv(db: Db, start: Opening) {
    Linked(db) && Settled(db) && Books(db, start)
  }

  // ---------- how payments may change ----------

  predicate SameCore(p: Payment, q: Payment) {
    p.kind == q.kind && p.via == q.via && p.order == q.order && p.admin == q.admin
    && p.customer == q.customer && p.amount == q.amount
  }

  /** The status changes one call can make. */
  predicate Moves(s: Status, t: Status) {
    match s
    case Pending => true
    case Review => t != Pending && t != Lapsed
    case Rejected => t != Pending && t != Lapsed
    case Lapsed => t == Lapsed || t == Rejected || t == Confirmed
    case Confirmed => t == Confirmed
  }

  ghost predicate EvolvedPayment(p: Payment, q: Payment) {
    SameCore(p, q) && Moves(p.status, q.status) && (p.status == Confirmed ==> q.txid == p.txid)
  }

  ghost predicate Evolves(db: Db, next: Db) {
    && (forall id :: id in db.payments ==> id in next.payments && EvolvedPayment(db.payments[id], next.payments[id]))
    && (forall o :: o in db.orders ==> o in next.orders && next.orders[o].admin == db.orders[o].admin)
  }

  /** A change of payments and orders that settles no top-up. */
  ghost predicate Edit(db: Db, next: Db) {
    && next.admins == db.admins && next.customers == db.customers
    && Evolves(db, next)
    && (forall id :: id in next.payments && IsSettledTopup(next, id) ==> IsSettledTopup(db, id))
  }

  lemma EditKeeps(db: Db, next: Db, start: Opening)
    requires Inv(db, start) && Edit(db, next) && Linked(next)
    ensures Inv(next, start)
  {
    forall id ensures SettledOnce(next, id) {
      assert SettledOnce(db, id);
    }
    forall i | 0 <= i < |next.admins.rows| ensures AdminRowFits(next, next.admins.rows[i]) {
      assert AdminRowFits(db, db.admins.rows[i]);
    }
    forall i | 0 <= i < |next.customers.rows| ensures CustomerRowFits(next, next.customers.rows[i]) {
      assert CustomerRowFits(db, db.customers.rows[i]);
    }
  }

  // ---------- ledger moves ----------

  lemma AdminPostKeeps(db: Db, who: Id, amount: int, kind: TxKind, ref: Ref, start: Opening)
    requires Inv(db, start) && who in db.admins.balance && !ref.PaymentRef?
    ensures Inv(db.(admins := Post(db.admins, who, amount, kind, ref)), start)
  {
    var next := db.(admins := Post(db.admins, who, amount, kind, ref));
    PostBalances(db.admins, who, amount, kind, ref, start.admins);
    forall id ensures SettledOnce(next, id) {
      assert SettledOnce(db, id);
      SettlementsAppend(db.admins.rows, next.admins.rows[|db.admins.rows|], id);
    }
    forall i | 0 <= i < |next.admins.rows| ensures AdminRowFits(next, next.admins.rows[i]) {
      assert i < |db.admins.rows| ==> AdminRowFits(db, db.admins.rows[i]);
    }
    forall i | 0 <= i < |next.customers.rows| ensures CustomerRowFits(next, next.customers.rows[i]) {
      assert CustomerRowFits(db, db.customers.rows[i]);
    }
  }

  lemma CustomerPostKeeps(db: Db, who: Id, amount: int, kind: TxKind, ref: Ref, start: Opening)
    requires Inv(db, start) && who in db.customers.balance && !ref.PaymentRef?
    requires db.customers.balance[who] + amount >= 0
    ensures Inv(db.(customers := Post(db.customers, who, amount, kind, ref)), start)
  {
    var next := db.(customers := Post(db.customers, who, amount, kind, ref));
    PostBalances(db.customers, who, amount, kind, ref, start.customers);
    forall id ensures SettledOnce(next, id) {
      assert SettledOnce(db, id);
      SettlementsAppend(db.customers.rows, next.customers.rows[|db.customers.rows|], id);
    }
    forall i | 0 <= i < |next.admins.rows| ensures AdminRowFits(next, next.admins.rows[i]) {
      assert AdminRowFits(db, db.admins.rows[i]);
    }
    forall i | 0 <= i < |next.customers.rows| ensures CustomerRowFits(next, next.customers.rows[i]) {
      assert i < |db.customers.rows| ==> CustomerRowFits(db, db.customers.rows[i]);
    }
  }

  // ---------- settling a top-up ----------

  lemma SettleAdminKeeps(db: Db, id: Id, start: Opening)
    requires Inv(db, start) && id in db.payments
    requires db.payments[id].kind == ForTopup && db.payments[id].customer.None? && db.payments[id].status != Confirmed
    ensures var p := db.payments[id];
            Inv(WithStatus(db, id, Confirmed).(admins := Post(db.admins, p.admin, p.amount, Topup, PaymentRef(id))),
              start)
  {
    var p := db.payments[id];
    assert LinkedPayment(db, p);
    var next := WithStatus(db, id, Confirmed).(admins := Post(db.admins, p.admin, p.amount, Topup, PaymentRef(id)));
    PostBalances(db.admins, p.admin, p.amount, Topup, PaymentRef(id), start.admins);
    forall x ensures SettledOnce(next, x) {
      assert SettledOnce(db, x);
      SettlementsAppend(db.admins.rows, next.admins.rows[|db.admins.rows|], x);
    }
    forall i | 0 <= i < |next.admins.rows| ensures AdminRowFits(next, next.admins.rows[i]) {
      assert i < |db.admins.rows| ==> AdminRowFits(db, db.admins.rows[i]);
    }
    forall i | 0 <= i < |next.customers.rows| ensures CustomerRowFits(next, next.customers.rows[i]) {
      assert CustomerRowFits(db, db.customers.rows[i]);
    }
    assert Linked(next) by {
      forall x | x in next.payments ensures LinkedPayment(next, next.payments[x]) {
        assert LinkedPayment(db, db.payments[x]);
      }
    }
  }

  lemma SettleCustomerKeeps(db: Db, id: Id, amount: int, start: Opening)
    requires Inv(db, start) && id in db.payments
    requires db.payments[id].kind == ForTopup && db.payments[id].customer.Some? && db.payments[id].status != Confirmed
    requires amount >= db.payments[id].amount && db.payments[id].customer.value in db.customers.balance
    ensures var c := db.payments[id].customer.value;
            Inv(WithStatus(db, id, Confirmed).(customers := Post(db.customers, c, amount, Topup, PaymentRef(id))),
              start)
  {
    var p := db.payments[id];
    assert LinkedPayment(db, p);
    var c := p.customer.value;
    var next := WithStatus(db, id, Confirmed).(customers := Post(db.customers, c, amount, Topup, PaymentRef(id)));
    PostBalances(db.customers, c, amount, Topup, PaymentRef(id), start.customers);
    forall x ensures SettledOnce(next, x) {
      assert SettledOnce(db, x);
      SettlementsAppend(db.customers.rows, next.customers.rows[|db.customers.rows|], x);
    }
    forall i | 0 <= i < |next.admins.rows| ensures AdminRowFits(next, next.admins.rows[i]) {
      assert AdminRowFits(db, db.admins.rows[i]);
    }
    forall i | 0 <= i < |next.customers.rows| ensures CustomerRowFits(next, next.customers.rows[i]) {
      assert i < |db.customers.rows| ==> CustomerRowFits(db, db.customers.rows[i]);
    }
    assert Linked(next) by {
      forall x | x in next.payments ensures LinkedPayment(next, next.payments[x]) {
        assert LinkedPayment(db, db.payments[x]);
      }
    }
  }

  // ---------- one call at a time ----------

  /** From a good state the call leads to a good state, changing payments only as allowed. */
  ghost predicate Keeps(db: Db, next: Db, start: Opening) {
    Inv(db, start) ==> Inv(next, start) && Evolves(db, next)
  }

  lemma LinkOf(db: Db, id: Id, start: Opening)
    requires Inv(db, start) && id in db.payments
    ensures LinkedPayment(db, db.payments[id]) && SettledOnce(db, id)
  {
  }

  lemma SellerOf(db: Db, o: Id, start: Opening)
    requires Inv(db, start) && o in db.orders
    ensures db.orders[o].admin in db.admins.balance
  {
  }

  lemma Unchanged(db: Db, start: Opening)
    ensures Keeps(db, db, start)
  {
  }

  lemma KeepsThen(a: Db, b: Db, c: Db, start: Opening)
    requires Keeps(a, b, start) && Keeps(b, c, start)
    requires a.payments == b.payments || b.payments == c.payments
    ensures Keeps(a, c, start)
  {
    hide Inv;
    if Inv(a, start) {
      forall id | id in a.payments ensures id in c.payments && EvolvedPayment(a.payments[id], c.payments[id]) {
        assert EvolvedPayment(a.payments[id], b.payments[id]) && EvolvedPayment(b.payments[id], c.payments[id]);
      }
    }
  }

  lemma LinkedAfter(db: Db, id: Id, q: Payment)
    requires Linked(db) && LinkedPayment(db, q)
    requires forall x :: x in db.payments && x != id ==>
      && (q.order.Some? ==> db.payments[x].order != q.order)
      && (q.txid.Some? ==> db.payments[x].txid != q.txid)
    ensures Linked(WithPayment(db, id, q))
  {
    var next := WithPayment(db, id, q);
    forall x | x in next.payments && x != id ensures LinkedPayment(next, next.payments[x]) {
      assert LinkedPayment(db, db.payments[x]);
    }
  }

  lemma OnePaymentEdit(db: Db, id: Id, q: Payment)
    requires id in db.payments ==> EvolvedPayment(db.payments[id], q)
    requires q.kind == ForTopup && q.status == Confirmed ==> id in db.payments && db.payments[id].status == Confirmed
    ensures Edit(db, WithPayment(db, id, q))
  {
  }

  lemma WithPaymentKeeps(db: Db, id: Id, q: Payment, start: Opening)
    requires id in db.payments && EvolvedPayment(db.payments[id], q)
    requires q.kind == ForTopup && q.status == Confirmed ==> db.payments[id].status == Confirmed
    requires q.txid == db.payments[id].txid || (q.txid.Some? && !TxidTaken(db, id, q.txid.value))
    ensures Keeps(db, WithPayment(db, id, q), start)
  {
    if Inv(db, start) {
      RefiledLinks(db, id, q);
      hide Inv, Linked, Edit;
      OnePaymentEdit(db, id, q);
      EditKeeps(db, WithPayment(db, id, q), start);
    }
  }

  lemma RefiledLinks(db: Db, id: Id, q: Payment)
    requires Linked(db) && id in db.payments && SameCore(db.payments[id], q)
    requires q.txid == db.payments[id].txid || (q.txid.Some? && !TxidTaken(db, id, q.txid.value))
    ensures Linked(WithPayment(db, id, q))
  {
    SameLinks(db, db.payments[id], q);
    hide LinkedPayment;
    forall x | x in db.payments && x != id
      ensures q.order.Some? ==> db.payments[x].order != q.order
      ensures q.txid.Some? ==> db.payments[x].txid != q.txid
    {
      assert q.txid.Some? && q.txid == db.payments[id].txid ==> db.payments[x].txid != q.txid;
    }
    LinkedAfter(db, id, q);
  }

  lemma SameLinks(db: Db, p: Payment, q: Payment)
    requires LinkedPayment(db, p) && SameCore(p, q)
    ensures LinkedPayment(db, q)
  {
  }

  lemma NewPaymentKeeps(db: Db, id: Id, q: Payment, start: Opening)
    requires id !in db.payments && LinkedPayment(db, q) && q.txid.None? && q.status != Confirmed
    requires q.order.Some? ==> forall x :: x in db.payments ==> db.payments[x].order != q.order
    ensures Keeps(db, WithPayment(db, id, q), start)
  {
    if Inv(db, start) {
      LinkedAfter(db, id, q);
      hide Inv, Linked, Edit;
      OnePaymentEdit(db, id, q);
      EditKeeps(db, WithPayment(db, id, q), start);
    }
  }

  lemma OrdersKeep(db: Db, orders: map<Id, Order>, start: Opening)
    requires forall o :: o in db.orders ==> o in orders && orders[o].admin == db.orders[o].admin
    requires forall o :: o in orders ==> orders[o].admin in db.admins.balance
    ensures Keeps(db, db.(orders := orders), start)
  {
    if Inv(db, start) {
      hide Settled, Books;
      var next := db.(orders := orders);
      forall x | x in next.payments ensures LinkedPayment(next, next.payments[x]) {
        assert LinkedPayment(db, db.payments[x]);
      }
      EditKeeps(db, next, start);
    }
  }

  lemma OrderKeeps(db: Db, o: Id, order: Order, start: Opening)
    requires o in db.orders && order.admin == db.orders[o].admin
    ensures Keeps(db, db.(orders := db.orders[o := order]), start)
  {
    if Inv(db, start) {
      hide Settled, Books;
      OrdersKeep(db, db.orders[o := order], start);
    }
  }

  lemma ChargeKeeps(db: Db, who: Id, owner: bool, amount: int, kind: TxKind, ref: Ref, floor: Option<nat>,
                    start: Opening)
    requires !ref.PaymentRef?
    ensures Keeps(db, db.(admins := Charge(db.admins, who, owner, amount, kind, ref, floor).0), start)
  {
    var w := Charge(db.admins, who, owner, amount, kind, ref, floor).0;
    if Inv(db, start) {
      hide Inv;
      if w == db.admins {
        assert db.(admins := w) == db;
      } else {
        AdminPostKeeps(db, who, amount, kind, ref, start);
      }
    }
    Unchanged(db, start);
  }

  lemma FulfillKeeps(db: Db, o: Id, env: Env, start: Opening)
    ensures Keeps(db, FulfillOrder(db, o, env).0, start)
    ensures FulfillOrder(db, o, env).0.payments == db.payments
  {
    hide Keeps;
    Unchanged(db, start);
    if o in db.orders && db.orders[o].status == Paid && (env.work.Delivers? || env.work.BreaksAfterCharge?) {
      var order, ref, cost := db.orders[o], ClientRef(env.work.client), -(env.work.cost as int);
      var owner := order.admin in db.owners;
      var charged := db.(admins := Charge(db.admins, order.admin, owner, cost, Purchase, ref, Some(env.creditLimit)).0);
      ChargeKeeps(db, order.admin, owner, cost, Purchase, ref, Some(env.creditLimit), start);
      var done := Provisioned(order, env.work);
      OrderKeeps(charged, o, done, start);
      KeepsThen(db, charged, charged.(orders := charged.orders[o := done]), start);
    }
  }

  lemma ConfirmKeeps(db: Db, id: Id, reviewer: Option<Id>, env: Env, start: Opening)
    ensures Keeps(db, ConfirmPayment(db, id, reviewer, env).0, start)
  {
    hide Keeps, Settle;
    Unchanged(db, start);
    if id in db.payments && db.payments[id].status != Confirmed {
      SettleKeeps(db, id, env, start);
    }
  }

  lemma SettleKeeps(db: Db, id: Id, env: Env, start: Opening)
    requires id in db.payments && db.payments[id].status != Confirmed
    ensures Keeps(db, Settle(WithStatus(db, id, Confirmed), id, env).0, start)
  {
    if Inv(db, start) {
      LinkOf(db, id, start);
      hide Inv, Keeps, Settle;
      if db.payments[id].kind == ForOrder {
        SettleOrderKeeps(db, id, env, start);
      } else {
        SettleTopupKeeps(db, id, env, start);
      }
    }
  }

  lemma SettleTopupKeeps(db: Db, id: Id, env: Env, start: Opening)
    requires Inv(db, start) && id in db.payments && db.payments[id].status != Confirmed
    requires db.payments[id].kind == ForTopup && LinkedPayment(db, db.payments[id]) && SettledOnce(db, id)
    ensures Keeps(db, Settle(WithStatus(db, id, Confirmed), id, env).0, start)
  {
    hide Inv, Keeps, FulfillOrder;
    var p, confirmed := db.payments[id], WithStatus(db, id, Confirmed);
    if p.customer.Some? {
      var amount := p.amount + Bonus(p.amount, env.bonusPct);
      SettleCustomerKeeps(db, id, amount, start);
      OnlyStatus(db, id, confirmed.(customers := Post(db.customers, p.customer.value, amount, Topup, PaymentRef(id))),
        start);
    } else {
      SettleAdminKeeps(db, id, start);
      OnlyStatus(db, id, confirmed.(admins := Post(db.admins, p.admin, p.amount, Topup, PaymentRef(id))), start);
    }
  }

  lemma SettleOrderKeeps(db: Db, id: Id, env: Env, start: Opening)
    requires id in db.payments && db.payments[id].status != Confirmed && db.payments[id].kind == ForOrder
    requires db.payments[id].order.Some? && db.payments[id].order.value in db.orders
    ensures Keeps(db, Settle(WithStatus(db, id, Confirmed), id, env).0, start)
  {
    hide Keeps, FulfillOrder;
    var p, confirmed := db.payments[id], WithStatus(db, id, Confirmed);
    WithPaymentKeeps(db, id, p.(status := Confirmed), start);
    var paid := WithOrder(confirmed, p.order.value, Paid);
    OrderKeeps(confirmed, p.order.value, paid.orders[p.order.value], start);
    KeepsThen(db, confirmed, paid, start);
    FulfillKeeps(paid, p.order.value, env, start);
    KeepsThen(db, paid, FulfillOrder(paid, p.order.value, env).0, start);
  }

  lemma OnlyStatus(db: Db, id: Id, next: Db, start: Opening)
    requires id in db.payments && Inv(next, start)
    requires next.payments == WithStatus(db, id, Confirmed).payments && next.orders == db.orders
    ensures Keeps(db, next, start)
  {
    hide Inv;
  }

  lemma SubmitKeeps(db: Db, id: Id, proof: Proof, chain: Option<Chain>, env: Env, start: Opening)
    ensures Keeps(db, SubmitProof(db, id, proof, chain, env).0, start)
  {
    hide Inv, ConfirmPayment, IsTxid;
    Unchanged(db, start);
    var next := SubmitProof(db, id, proof, chain, env).0;
    if next != db {
      var p := db.payments[id];
      if p.via == Usdt {
        var q := Filed(p, proof.txid);
        var filed := WithPayment(db, id, q);
        WithPaymentKeeps(db, id, q, start);
        if chain == Some(Found) {
          ConfirmKeeps(filed, id, None, env, start);
          FiledThenConfirmed(db, id, q, ConfirmPayment(filed, id, None, env).0, start);
        } else if chain.Some? {
          var r := q.(mismatch := chain.value == Mismatch, tries := 1);
          WithPaymentKeeps(db, id, r, start);
          assert next.payments == db.payments[id := r];
        }
      } else {
        WithPaymentKeeps(db, id, p.(status := Review), start);
      }
    }
  }

  /** A payment filed for review and confirmed in the same call. */
  lemma FiledThenConfirmed(db: Db, id: Id, q: Payment, next: Db, start: Opening)
    requires id in db.payments && EvolvedPayment(db.payments[id], q) && q.status == Review
    requires db.payments[id].status == Pending || db.payments[id].status == Review || db.payments[id].status == Rejected
    requires Keeps(db, WithPayment(db, id, q), start) && Keeps(WithPayment(db, id, q), next, start)
    ensures Keeps(db, next, start)
  {
    hide Inv;
    if Inv(db, start) {
      var filed := WithPayment(db, id, q);
      forall x | x in db.payments ensures x in next.payments && EvolvedPayment(db.payments[x], next.payments[x]) {
        assert EvolvedPayment(filed.payments[x], next.payments[x]);
      }
    }
  }

  lemma ZarinpalKeeps(db: Db, id: Id, authority: string, ok: bool, verified: Option<bool>, env: Env, start: Opening)
    ensures Keeps(db, ZarinpalCallback(db, id, authority, ok, verified, env).0, start)
  {
    hide Keeps, ConfirmPayment;
    Unchanged(db, start);
    ConfirmKeeps(db, id, None, env, start);
    if id in db.payments && db.payments[id].status != Confirmed {
      WithPaymentKeeps(db, id, db.payments[id].(status := Rejected), start);
    }
  }

  lemma RejectKeeps(db: Db, actor: Id, id: Id, start: Opening)
    ensures Keeps(db, RejectPayment(db, actor, id).0, start)
  {
    hide Keeps;
    Unchanged(db, start);
    if id in db.payments && db.payments[id].status != Confirmed {
      WithPaymentKeeps(db, id, db.payments[id].(status := Rejected), start);
    }
  }

  lemma PluginKeeps(db: Db, plugin: Plugin, id: Id, word: Word, declared: Option<int>, env: Env, start: Opening)
    ensures Keeps(db, PluginCallback(db, plugin, id, word, declared, env).0, start)
  {
    hide Keeps, ConfirmPayment;
    Unchanged(db, start);
    ConfirmKeeps(db, id, None, env, start);
    if id in db.payments && (db.payments[id].status == Pending || db.payments[id].status == Review) {
      WithPaymentKeeps(db, id, db.payments[id].(status := Rejected), start);
      WithPaymentKeeps(db, id, db.payments[id].(status := Review), start);
    }
  }

  /** Changing only statuses, and into no confirmed top-up. */
  lemma StatusesKeep(db: Db, payments: map<Id, Payment>, start: Opening)
    requires payments.Keys == db.payments.Keys
    requires Inv(db, start)
    requires forall id :: id in payments ==>
      && EvolvedPayment(db.payments[id], payments[id]) && payments[id].txid == db.payments[id].txid
      && (payments[id].kind == ForTopup && payments[id].status == Confirmed ==> db.payments[id].status == Confirmed)
    ensures Keeps(db, db.(payments := payments), start)
  {
    hide Settled, Books;
    var next := db.(payments := payments);
    forall x | x in next.payments ensures LinkedPayment(next, next.payments[x]) {
      assert LinkedPayment(db, db.payments[x]);
    }
    EditKeeps(db, next, start);
  }

  lemma ExpireKeeps(db: Db, now: int, start: Opening)
    ensures Keeps(db, ExpirePayments(db, now), start)
  {
    if Inv(db, start) {
      var next := ExpirePayments(db, now);
      var lapsed := db.(payments := next.payments);
      forall o | o in db.orders ensures db.orders[o].admin in db.admins.balance {
        SellerOf(db, o, start);
      }
      hide Inv, Keeps, OrderTouched, OrderActive;
      forall id | id in db.payments ensures EvolvedPayment(db.payments[id], next.payments[id]) {}
      hide ExpirePayments;
      StatusesKeep(db, next.payments, start);
      OrdersKeep(lapsed, next.orders, start);
      KeepsThen(db, lapsed, next, start);
    }
  }

  lemma OrderPaymentsKeep(db: Db, o: Id, s: Status, start: Opening)
    requires s == Confirmed || s == Rejected
    ensures Keeps(db, WithOrderPayments(db, o, s), start)
  {
    if Inv(db, start) {
      forall id | id in db.payments ensures LinkedPayment(db, db.payments[id]) {}
      hide Inv, Keeps;
      var payments := WithOrderPayments(db, o, s).payments;
      forall id | id in payments
        ensures EvolvedPayment(db.payments[id], payments[id]) && payments[id].txid == db.payments[id].txid
        ensures payments[id].kind == ForTopup && payments[id].status == Confirmed
          ==> db.payments[id].status == Confirmed
      {
        assert LinkedPayment(db, db.payments[id]);
      }
      assert WithOrderPayments(db, o, s) == db.(payments := payments);
      hide WithOrderPayments, LinkedPayment, EvolvedPayment;
      StatusesKeep(db, payments, start);
    }
  }

  lemma RetryKeeps(db: Db, actor: Id, o: Id, env: Env, start: Opening)
    ensures Keeps(db, RetryFulfill(db, actor, o, env).0, start)
  {
    hide Keeps, FulfillOrder, WithOrderPayments;
    Unchanged(db, start);
    FulfillKeeps(db, o, env, start);
    if o in db.orders && db.orders[o].status == OrderPending {
      var paid := WithOrder(db, o, Paid);
      var confirmed := WithOrderPayments(paid, o, Confirmed);
      OrderKeeps(db, o, paid.orders[o], start);
      OrderPaymentsKeep(paid, o, Confirmed, start);
      KeepsThen(db, paid, confirmed, start);
      FulfillKeeps(confirmed, o, env, start);
      KeepsThen(db, confirmed, FulfillOrder(confirmed, o, env).0, start);
    }
  }

  lemma CancelKeeps(db: Db, actor: Id, o: Id, start: Opening)
    ensures Keeps(db, CancelOrder(db, actor, o).0, start)
  {
    hide Keeps;
    Unchanged(db, start);
    if o in db.orders {
      var rejected := WithOrderPayments(db, o, Rejected);
      OrderPaymentsKeep(db, o, Rejected, start);
      OrderKeeps(rejected, o, WithOrder(rejected, o, Canceled).orders[o], start);
      KeepsThen(db, rejected, WithOrder(rejected, o, Canceled), start);
    }
  }

  lemma VerifyOneKeeps(db: Db, id: Id, seen: Payment, chain: Chain, env: Env, start: Opening)
    ensures Keeps(db, VerifyOne(db, id, seen, chain, env).0, start)
  {
    hide Keeps, ConfirmPayment;
    Unchanged(db, start);
    ConfirmKeeps(db, id, None, env, start);
    if id in db.payments {
      WithPaymentKeeps(db, id, db.payments[id].(mismatch := chain == Mismatch, tries := seen.tries + 1), start);
    }
  }

  lemma OrderSettlesKeepPayments(db: Db, id: Id, env: Env)
    requires id in db.payments
    ensures Settle(db, id, env).0.payments == db.payments
  {
  }

  // ---------- checkouts and top-ups ----------

  lemma CreditKeeps(db: Db, who: Id, amount: int, kind: TxKind, ref: Ref, start: Opening)
    requires !ref.PaymentRef?
    ensures Keeps(db, db.(customers := Credit(db.customers, who, amount, kind, ref).0), start)
  {
    Unchanged(db, start);
    if Inv(db, start) && amount > 0 && who in db.customers.balance {
      assert db.customers.balance[who] >= 0;
      hide Inv;
      CustomerPostKeeps(db, who, amount, kind, ref, start);
    } else {
      assert db.(customers := db.customers) == db;
    }
  }

  lemma DebitKeeps(db: Db, who: Id, amount: int, kind: TxKind, ref: Ref, start: Opening)
    requires !ref.PaymentRef?
    ensures Keeps(db, db.(customers := Debit(db.customers, who, amount, kind, ref).0), start)
  {
    Unchanged(db, start);
    if Inv(db, start) && amount > 0 && who in db.customers.balance && db.customers.balance[who] >= amount {
      hide Inv;
      CustomerPostKeeps(db, who, -amount, kind, ref, start);
    } else {
      assert db.(customers := db.customers) == db;
    }
  }

  ghost predicate OrderUnpaid(db: Db, o: Id) {
    forall x :: x in db.payments ==> db.payments[x].order != Some(o)
  }

  lemma BeginKeeps(db: Db, id: Id, kind: Kind, via: Method, order: Option<Id>, admin: Id, customer: Option<Id>,
                   amount: int, ttl: int, gateway: Gateway, env: Env, start: Opening)
    requires id !in db.payments && admin in db.admins.balance
    requires kind == ForTopup <==> order.None?
    requires order.Some? ==> order.value in db.orders && OrderUnpaid(db, order.value)
    requires customer.Some? ==> customer.value in db.customers.balance
    ensures Keeps(db, BeginPayment(db, id, kind, via, order, admin, customer, amount, ttl, gateway, env).0, start)
  {
    hide Keeps;
    Unchanged(db, start);
    if amount > 0 {
      var p := NewPayment(kind, via, order, admin, customer, amount, Some(env.now + ttl));
      NewPaymentKeeps(db, id, p, start);
      NewPaymentKeeps(db, id, p.(status := Rejected, customer := None), start);
      if gateway.Gives? {
        NewPaymentKeeps(db, id, p.(authority := Some(gateway.authority)), start);
      }
    }
  }

  /** Keys of a checkout are fresh and the seller exists. */
  predicate CanCheckout(db: Db, c: Checkout) {
    c.order !in db.orders && c.payment !in db.payments && c.seller in db.admins.balance
  }

  lemma PlacedKeeps(db: Db, o: Id, admin: Id, amount: int, start: Opening)
    requires o !in db.orders && admin in db.admins.balance
    ensures Keeps(db, AddOrder(db, o, admin, amount), start)
    ensures Inv(db, start) ==> OrderUnpaid(AddOrder(db, o, admin, amount), o)
  {
    if Inv(db, start) {
      forall x | x in db.payments ensures db.payments[x].order != Some(o) {
        LinkOf(db, x, start);
      }
      forall x | x in db.orders ensures db.orders[x].admin in db.admins.balance {
        SellerOf(db, x, start);
      }
      hide Inv;
      OrdersKeep(db, AddOrder(db, o, admin, amount).orders, start);
    }
  }

  lemma WalletPayKeeps(db: Db, id: Id, o: Id, customer: Id, fault: Fault, env: Env, start: Opening)
    requires o in db.orders && id !in db.payments && OrderUnpaid(db, o)
    requires db.orders[o].amount > 0 && db.orders[o].admin in db.admins.balance && customer in db.customers.balance
    ensures Keeps(db, PayOrderWithWallet(db, id, o, customer, fault, env).0, start)
  {
    hide Keeps, ConfirmPayment, Credit, Debit;
    var order := db.orders[o];
    var p := NewPayment(ForOrder, FromWallet, Some(o), order.admin, Some(customer), order.amount, None);
    var begun := WithPayment(db, id, p);
    NewPaymentKeeps(db, id, p, start);
    var (w, taken) := Debit(db.customers, customer, order.amount, Purchase, OrderRef(o));
    if taken.Thrown? {
      ClosedKeeps(db, begun, id, o, start);
    } else {
      var debited := begun.(customers := w);
      DebitKeeps(begun, customer, order.amount, Purchase, OrderRef(o), start);
      KeepsThen(db, begun, debited, start);
      if fault == NoFault {
        ConfirmKeeps(debited, id, None, env, start);
        NewThen(db, debited, ConfirmPayment(debited, id, None, env).0, id, start);
        OnlyNewConfirmed(debited, id, env);
      } else {
        var restored := debited.(customers := Credit(w, customer, order.amount, Refund, OrderRef(o)).0);
        CreditKeeps(debited, customer, order.amount, Refund, OrderRef(o), start);
        KeepsThen(db, debited, restored, start);
        ClosedKeeps(db, restored, id, o, start);
        ClosedKeeps(db, debited, id, o, start);
      }
    }
  }

  /** A payment opened by this very call may take any status. */
  lemma NewThen(a: Db, b: Db, c: Db, id: Id, start: Opening)
    requires id !in a.payments && id in b.payments && Keeps(a, b, start) && Keeps(b, c, start)
    requires forall x :: x in a.payments ==> x in b.payments && b.payments[x] == a.payments[x]
    ensures Keeps(a, c, start)
  {
    hide Inv;
    if Inv(a, start) {
      forall x | x in a.payments ensures x in c.payments && EvolvedPayment(a.payments[x], c.payments[x]) {
        assert EvolvedPayment(b.payments[x], c.payments[x]);
      }
    }
  }

  lemma OnlyNewConfirmed(db: Db, id: Id, env: Env)
    ensures forall x :: x in db.payments && x != id ==>
      x in ConfirmPayment(db, id, None, env).0.payments
        && ConfirmPayment(db, id, None, env).0.payments[x] == db.payments[x]
  {
    if id in db.payments {
      OrderSettlesKeepPayments(WithStatus(db, id, Confirmed), id, env);
    }
  }

  /** Closing a payment this call opened, and its order. */
  lemma ClosedKeeps(a: Db, b: Db, id: Id, o: Id, start: Opening)
    requires id !in a.payments && id in b.payments && b.payments[id].status != Confirmed && o in b.orders
    requires forall x :: x in a.payments ==> x in b.payments && b.payments[x] == a.payments[x]
    requires Keeps(a, b, start)
    ensures Keeps(a, WithOrder(WithStatus(b, id, Rejected), o, Canceled), start)
  {
    hide Keeps;
    var rejected := WithStatus(b, id, Rejected);
    WithPaymentKeeps(b, id, b.payments[id].(status := Rejected), start);
    NewThen(a, b, rejected, id, start);
    var closed := WithOrder(rejected, o, Canceled);
    OrderKeeps(rejected, o, closed.orders[o], start);
    KeepsThen(a, rejected, closed, start);
  }

  lemma CheckoutKeeps(db: Db, c: Checkout, env: Env, start: Opening)
    requires CanCheckout(db, c)
    ensures Keeps(db, CreateOrder(db, c, env).0, start)
  {
    hide FulfillOrder, PayOrderWithWallet, BeginPayment;
    Unchanged(db, start);
    var placed := AddOrder(db, c.order, c.seller, c.amount);
    PlacedKeeps(db, c.order, c.seller, c.amount, start);
    if Inv(db, start) {
      hide Inv, OrderUnpaid, Keeps;
      var next := CreateOrder(db, c, env).0;
      if next == db {
      } else if c.amount <= 0 {
        FulfillKeeps(placed, c.order, env, start);
        KeepsThen(db, placed, next, start);
      } else if c.via == FromWallet {
        WalletPayKeeps(placed, c.payment, c.order, c.customer.value, c.fault, env, start);
        KeepsThen(db, placed, next, start);
      } else {
        BeginKeeps(placed, c.payment, ForOrder, c.via, Some(c.order), c.seller, None, c.amount, c.ttl, c.gateway, env,
          start);
        KeepsThen(db, placed, next, start);
      }
    }
  }
}
