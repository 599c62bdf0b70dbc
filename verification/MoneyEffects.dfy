/** What one step makes of every payment and every order, field by field, told from the tables before it. */
module MoneyEffects {
  import opened Results
  import opened Ledger
  import opened Payments
  import opened PaymentRuns
  import opened MoneyTheorems
  import opened MoneySteps
  import opened P = Provisions
  import opened Hex

  // ---------- payments ----------

  predicate InPluginScope(plugin: Plugin, p: Payment) {
    (plugin.master || p.admin == plugin.admin) && p.via in plugin.methods && Waits(p)
  }

  /** The guards under which a step rejects an open payment. */
  predicate Rejects(db: Db, s: Step, id: Id)
    requires id in db.payments
  {
    var p := db.payments[id];
    match s
    case Reject(actor, x) => x == id && Entitled(db, actor, p)
    case Callback(x, authority, ok, verified) => x == id && (!ok || (Genuine(p, authority) && verified == Some(false)))
    case PluginCall(plugin, x, word, _) => x == id && InPluginScope(plugin, p) && word == Bad
    case Cancel(actor, o) =>
      p.order == Some(o) && Waits(p) && MayTouchOrder(db, actor, o) && db.orders[o].status != Fulfilled
    case _ => false
  }

  /** The guards under which a step hands an open payment to a reviewer. */
  predicate ToReview(db: Db, s: Step, env: Env, id: Id)
    requires id in db.payments
  {
    var p := db.payments[id];
    match s
    case Prove(x, proof, _) => x == id && p.via == Card && proof.receipt && p.status != Lapsed && !OutOfTime(p, env.now)
    case PluginCall(plugin, x, word, declared) =>
      x == id && InPluginScope(plugin, p) && word != Bad && !PluginAccepts(p, plugin, word, declared)
    case _ => false
  }

  /** An on-chain check that finds nothing, of a row that was waiting for one when it was read. */
  predicate CheckedInVain(s: Step, id: Id) {
    s.Verify? && s.id == id && s.answer != Found
    && s.seen.status == Review && s.seen.via == Usdt && s.seen.txid.Some? && !s.seen.mismatch && s.seen.tries < 40
  }

  ghost function PaymentAfter(db: Db, s: Step, env: Env, id: Id): Payment
    requires id in db.payments
  {
    var p := db.payments[id];
    if CheckedInVain(s, id) then p.(mismatch := s.answer == Mismatch, tries := s.seen.tries + 1)
    else if p.status == Confirmed then p
    else if s.Prove? && s.id == id && Files(db, id, s.proof, env.now) then
      var filed := p.(txid := Some(s.proof.txid), status := if s.chain == Some(Found) then Confirmed else Review);
      filed.(mismatch := s.chain == Some(Mismatch), tries := if s.chain.None? || s.chain.value == Found then 0 else 1)
    else if Confirms(db, s, env, id) then p.(status := Confirmed)
    else if Rejects(db, s, id) then p.(status := Rejected)
    else if ToReview(db, s, env, id) then p.(status := Review)
    else if s.Expire? && OutOfTime(p, env.now) then p.(status := Lapsed)
    else p
  }

  lemma ProveEffect(db: Db, s: Step, env: Env, id: Id)
    requires s.Prove? && s.id == id && id in db.payments
    ensures var next := Call(db, s, env).0; id in next.payments && next.payments[id] == PaymentAfter(db, s, env, id)
  {
    var filed := WithPayment(db, id, Filed(db.payments[id], s.proof.txid));
    FilesIff(db, id, s.proof, env.now);
    hide Files, IsTxid, TxidTaken, ConfirmPayment;
    ConfirmTouchesOne(filed, id, None, env);
  }

  lemma TargetEffect(db: Db, s: Step, env: Env, id: Id)
    requires Target(s) == Some(id) && !s.Prove? && !s.PluginCall? && id in db.payments
    ensures var next := Call(db, s, env).0; id in next.payments && next.payments[id] == PaymentAfter(db, s, env, id)
  {
    hide ConfirmPayment, Files;
    match s
    case Confirm(x, reviewer) => ConfirmTouchesOne(db, x, reviewer, env);
    case Callback(x, _, _, _) => ConfirmTouchesOne(db, x, None, env);
    case Verify(x, _, _) => ConfirmTouchesOne(db, x, None, env);
    case Reject(_, _) =>
  }

  lemma PluginEffect(db: Db, s: Step, env: Env, id: Id)
    requires s.PluginCall? && s.id == id && id in db.payments
    ensures var next := Call(db, s, env).0; id in next.payments && next.payments[id] == PaymentAfter(db, s, env, id)
  {
    hide ConfirmPayment, Files;
    ConfirmTouchesOne(db, id, None, env);
  }

  lemma SweepEffect(db: Db, s: Step, env: Env, id: Id)
    requires id in db.payments && Sweeps(db, s, env, db.payments[id])
    ensures var next := Call(db, s, env).0; id in next.payments && next.payments[id] == PaymentAfter(db, s, env, id)
  {
    hide FulfillOrder, OrderTouched, OrderActive;
    if s.Retry? {
      FulfillKeepsPayments(db, s.order, env);
      if s.order in db.orders {
        FulfillKeepsPayments(WithOrderPayments(WithOrder(db, s.order, Paid), s.order, Confirmed), s.order, env);
      }
    }
  }

  /** Every field of every payment after any step. */
  lemma PaymentEffect(db: Db, s: Step, env: Env, id: Id)
    requires Possible(db, s) && id in db.payments
    ensures var next := Call(db, s, env).0; id in next.payments && next.payments[id] == PaymentAfter(db, s, env, id)
  {
    hide Call, Possible;
    if Target(s) == Some(id) {
      if s.Prove? {
        ProveEffect(db, s, env, id);
      } else if s.PluginCall? {
        PluginEffect(db, s, env, id);
      } else {
        TargetEffect(db, s, env, id);
      }
    } else if Sweeps(db, s, env, db.payments[id]) {
      SweepEffect(db, s, env, id);
    } else {
      OthersUntouched(db, s, env, id);
    }
  }

  // ---------- orders ----------

  /** No payment counts for the order any more once the overdue ones have lapsed, and one of those did. */
  ghost predicate RunsOut(db: Db, o: Id, now: int) {
    && (exists id :: id in db.payments && db.payments[id].order == Some(o) && OutOfTime(db.payments[id], now))
    && (forall id :: id in db.payments && db.payments[id].order == Some(o)
          ==> db.payments[id].status == Rejected || db.payments[id].status == Lapsed || OutOfTime(db.payments[id], now))
  }

  ghost function OrderEffect(db: Db, s: Step, env: Env, o: Id): Order
    requires o in db.orders
  {
    var q := db.orders[o];
    if Provisions(db, s, env, o) then
      var paid := q.(status := Paid, charged := q.charged + 1);
      if env.work.Delivers? then paid.(status := Fulfilled, delivered := q.delivered + 1) else paid
    else if Reaches(db, s, env, o) then q.(status := Paid)
    else if s.Cancel? && s.order == o && MayTouchOrder(db, s.actor, o) && q.status != Fulfilled
    then q.(status := Canceled)
    else if s.Expire? && q.status == OrderPending && RunsOut(db, o, env.now) then q.(status := OrderLapsed)
    else q
  }

  /** The order as provisioning leaves it: untouched unless it is this one, paid, and gets past the charge. */
  lemma FulfillOrderEffect(db: Db, x: Id, env: Env, o: Id)
    requires o in db.orders
    ensures var next, q := FulfillOrder(db, x, env).0, db.orders[o];
      && o in next.orders
      && next.orders[o] == if x != o || q.status != Paid || !Pays(db, q.admin, env) then q
                           else if env.work.Delivers? then
                             q.(status := Fulfilled, charged := q.charged + 1, delivered := q.delivered + 1)
                           else q.(charged := q.charged + 1)
  {
  }

  lemma ConfirmOrderEffect(db: Db, id: Id, reviewer: Option<Id>, env: Env, o: Id)
    requires o in db.orders
    ensures var next, q := ConfirmPayment(db, id, reviewer, env).0, db.orders[o];
      var done := id in db.payments && PaysFor(db.payments[id], o)
        && (if reviewer.Some? then Entitled(db, reviewer.value, db.payments[id]) else db.payments[id].status != Lapsed);
      && o in next.orders
      && next.orders[o] == if !done then q
                           else if !Pays(db, q.admin, env) then q.(status := Paid)
                           else if env.work.Delivers? then
                             q.(status := Fulfilled, charged := q.charged + 1, delivered := q.delivered + 1)
                           else q.(status := Paid, charged := q.charged + 1)
  {
    if id in db.payments && db.payments[id].kind == ForOrder && db.payments[id].order.Some?
       && db.payments[id].order.value in db.orders {
      var x := db.payments[id].order.value;
      FulfillOrderEffect(WithOrder(WithStatus(db, id, Confirmed), x, Paid), x, env, o);
    }
    hide FulfillOrder;
  }

  lemma ProveOrderEffect(db: Db, s: Step, env: Env, o: Id)
    requires s.Prove? && o in db.orders
    ensures var next := Call(db, s, env).0; o in next.orders && next.orders[o] == OrderEffect(db, s, env, o)
  {
    FilesIff(db, s.id, s.proof, env.now);
    if s.id in db.payments {
      ConfirmOrderEffect(WithPayment(db, s.id, Filed(db.payments[s.id], s.proof.txid)), s.id, None, env, o);
    }
    hide ConfirmPayment, Files, IsTxid, TxidTaken;
  }

  lemma TargetOrderEffect(db: Db, s: Step, env: Env, o: Id)
    requires Target(s).Some? && !s.Prove? && o in db.orders
    ensures var next := Call(db, s, env).0; o in next.orders && next.orders[o] == OrderEffect(db, s, env, o)
  {
    ConfirmOrderEffect(db, Target(s).value, if s.Confirm? then s.reviewer else None, env, o);
    hide ConfirmPayment, Files, Pays;
  }

  lemma RetryOrderEffect(db: Db, s: Step, env: Env, o: Id)
    requires s.Retry? && o in db.orders
    ensures var next := Call(db, s, env).0; o in next.orders && next.orders[o] == OrderEffect(db, s, env, o)
  {
    FulfillOrderEffect(db, s.order, env, o);
    if s.order in db.orders {
      FulfillOrderEffect(WithOrderPayments(WithOrder(db, s.order, Paid), s.order, Confirmed), s.order, env, o);
    }
    hide FulfillOrder;
  }

  lemma ExpireOrderEffect(db: Db, s: Step, env: Env, o: Id)
    requires s.Expire? && o in db.orders
    ensures var next := Call(db, s, env).0; o in next.orders && next.orders[o] == OrderEffect(db, s, env, o)
  {
    var lapsed := ExpirePayments(db, env.now).payments;
    assert OrderTouched(db, o, env.now)
      <==> exists id :: id in db.payments && db.payments[id].order == Some(o) && OutOfTime(db.payments[id], env.now);
    assert forall id :: id in db.payments ==> (HoldsOrder(lapsed[id], o)
      <==> (db.payments[id].order == Some(o) && db.payments[id].status != Rejected && db.payments[id].status != Lapsed
            && !OutOfTime(db.payments[id], env.now)));
  }

  lemma OtherOrderEffect(db: Db, s: Step, env: Env, o: Id)
    requires Possible(db, s) && Target(s).None? && !s.Retry? && !s.Expire? && o in db.orders
    ensures var next := Call(db, s, env).0; o in next.orders && next.orders[o] == OrderEffect(db, s, env, o)
  {
    if s.Checkout? {
      CheckoutOrderEffect(db, s.c, env, o);
    }
    hide CreateOrder, Charge, Credit, Debit;
  }

  lemma CheckoutOrderEffect(db: Db, c: Payments.Checkout, env: Env, o: Id)
    requires CanCheckout(db, c) && o in db.orders
    ensures var next := CreateOrder(db, c, env).0; o in next.orders && next.orders[o] == db.orders[o]
  {
    var placed := AddOrder(db, c.order, c.seller, c.amount);
    FulfillOrderEffect(placed, c.order, env, o);
    if c.amount > 0 && c.via == FromWallet && c.customer.Some? {
      var p := NewPayment(ForOrder, FromWallet, Some(c.order), c.seller, c.customer, c.amount, None);
      var w := Debit(db.customers, c.customer.value, c.amount, Purchase, OrderRef(c.order)).0;
      ConfirmOrderEffect(WithPayment(placed, c.payment, p).(customers := w), c.payment, None, env, o);
    }
    hide ConfirmPayment, FulfillOrder, Charge, Credit, Debit;
  }

  /** Every field of every order after any step. */
  lemma OrderAfter(db: Db, s: Step, env: Env, o: Id)
    requires Possible(db, s) && o in db.orders
    ensures var next := Call(db, s, env).0; o in next.orders && next.orders[o] == OrderEffect(db, s, env, o)
  {
    hide Call, Possible, OrderEffect;
    if s.Prove? {
      ProveOrderEffect(db, s, env, o);
    } else if Target(s).Some? {
      TargetOrderEffect(db, s, env, o);
    } else if s.Retry? {
      RetryOrderEffect(db, s, env, o);
    } else if s.Expire? {
      ExpireOrderEffect(db, s, env, o);
    } else {
      OtherOrderEffect(db, s, env, o);
    }
  }
}
