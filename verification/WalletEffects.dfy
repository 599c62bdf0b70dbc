/** What one step does to the two kinds of wallets, and what a checkout or a top-up opens. */
module WalletEffects {
  import opened Results
  import opened Ledger
  import opened Payments
  import opened PaymentRuns
  import opened MoneyTheorems
  import opened MoneySteps
  import opened P = Provisions
  import opened Hex

  /** One account moved, with a row that shows it. */
  ghost predicate Moved(w: Wallets, v: Wallets, who: Id, amount: int, kind: TxKind, ref: Ref) {
    && who in w.balance && v.balance == w.balance[who := w.balance[who] + amount]
    && v.rows == w.rows + [Tx(who, kind, amount, w.balance[who] + amount, ref)]
  }

  // ---------- moves by hand ----------

  /** An adjustment goes through for an owner or the customer's own seller, and never overdraws. */
  lemma AdjustIff(db: Db, actor: Id, who: Id, amount: int)
    ensures var (next, r) := AdjustCustomerCredit(db, actor, who, amount);
      && (r == Ok <==> (&& who in db.customers.balance && amount != 0
                        && (actor in db.owners || (who in db.sellers && db.sellers[who] == actor))
                        && (amount > 0 || db.customers.balance[who] + amount >= 0)))
      && (r == Ok ==> Moved(db.customers, next.customers, who, amount, Adjust, AdminRef(actor))
                      && next == db.(customers := next.customers))
      && (r != Ok ==> next == db)
  {
  }

  /** A reseller's wallet moves unless the move is free, empty, or a charge below the credit limit. */
  lemma ChargeIff(w: Wallets, who: Id, owner: bool, amount: int, kind: TxKind, ref: Ref, floor: Option<nat>)
    ensures var (v, r) := Charge(w, who, owner, amount, kind, ref, floor);
      var free := (owner && kind == Purchase) || amount == 0;
      var covered := who in w.balance && (amount > 0 || floor.None? || w.balance[who] + amount + floor.value >= 0);
      && (r == Ok <==> free || covered)
      && (r == Ok && !free ==> Moved(w, v, who, amount, kind, ref))
      && (r != Ok || free ==> v == w)
  {
  }

  // ---------- customers' wallets ----------

  /** The step confirms the open top-up of a customer's wallet, or of a reseller's own. */
  ghost predicate PaysIn(db: Db, s: Step, env: Env, id: Id, customers: bool) {
    && id in db.payments && db.payments[id].status != Confirmed && Confirms(db, s, env, id)
    && db.payments[id].kind == ForTopup && db.payments[id].customer.Some? == customers
  }

  ghost predicate NoPayIn(db: Db, s: Step, env: Env, customers: bool) {
    forall id :: !PaysIn(db, s, env, id, customers)
  }

  ghost predicate NoProvision(db: Db, s: Step, env: Env) {
    forall o :: !Provisions(db, s, env, o)
  }

  lemma ConfirmWallets(db: Db, id: Id, reviewer: Option<Id>, env: Env)
    ensures var next := ConfirmPayment(db, id, reviewer, env).0;
      var done := id in db.payments && db.payments[id].status != Confirmed
        && (if reviewer.Some? then Entitled(db, reviewer.value, db.payments[id]) else db.payments[id].status != Lapsed);
      && (!(done && db.payments[id].kind == ForTopup && db.payments[id].customer.Some?)
          ==> next.customers == db.customers)
      && (!(done && db.payments[id].kind == ForTopup && db.payments[id].customer.None?)
          && !(exists o :: done && o in db.orders && PaysFor(db.payments[id], o) && Pays(db, db.orders[o].admin, env))
          ==> next.admins == db.admins)
  {
    if id in db.payments && db.payments[id].kind == ForOrder && db.payments[id].order.Some?
       && db.payments[id].order.value in db.orders {
      var o := db.payments[id].order.value;
      FulfillCounts(WithOrder(WithStatus(db, id, Confirmed), o, Paid), o, env, o);
      FulfillWallets(WithOrder(WithStatus(db, id, Confirmed), o, Paid), o, env);
    }
    hide FulfillOrder, Charge, Credit, Settlements, Counted;
  }

  lemma FulfillWallets(db: Db, o: Id, env: Env)
    ensures var next := FulfillOrder(db, o, env).0;
      && next.customers == db.customers
      && (!(o in db.orders && db.orders[o].status == Paid && Pays(db, db.orders[o].admin, env))
          ==> next.admins == db.admins)
  {
  }

  lemma ProveWallets(db: Db, s: Step, env: Env)
    requires s.Prove?
    ensures NoPayIn(db, s, env, true) ==> Call(db, s, env).0.customers == db.customers
    ensures NoPayIn(db, s, env, false) && NoProvision(db, s, env) ==> Call(db, s, env).0.admins == db.admins
  {
    FilesIff(db, s.id, s.proof, env.now);
    var theirs, own := PaysIn(db, s, env, s.id, true), PaysIn(db, s, env, s.id, false);
    if s.id in db.payments {
      ConfirmWallets(WithPayment(db, s.id, Filed(db.payments[s.id], s.proof.txid)), s.id, None, env);
      var handed := db.payments[s.id].order.Some? && Provisions(db, s, env, db.payments[s.id].order.value);
    }
    hide ConfirmPayment, Files, IsTxid, TxidTaken;
  }

  lemma TargetWallets(db: Db, s: Step, env: Env)
    requires Target(s).Some? && !s.Prove? && !s.PluginCall?
    ensures NoPayIn(db, s, env, true) ==> Call(db, s, env).0.customers == db.customers
    ensures NoPayIn(db, s, env, false) && NoProvision(db, s, env) ==> Call(db, s, env).0.admins == db.admins
  {
    var x := Target(s).value;
    hide ConfirmPayment, Files, Pays;
    var theirs, own := PaysIn(db, s, env, x, true), PaysIn(db, s, env, x, false);
    ConfirmWallets(db, x, if s.Confirm? then s.reviewer else None, env);
    if x in db.payments {
      var handed := db.payments[x].order.Some? && Provisions(db, s, env, db.payments[x].order.value);
    }
  }

  lemma PluginWallets(db: Db, s: Step, env: Env)
    requires s.PluginCall?
    ensures NoPayIn(db, s, env, true) ==> Call(db, s, env).0.customers == db.customers
    ensures NoPayIn(db, s, env, false) && NoProvision(db, s, env) ==> Call(db, s, env).0.admins == db.admins
  {
    var x := s.id;
    hide ConfirmPayment, Files, Pays;
    var theirs, own := PaysIn(db, s, env, x, true), PaysIn(db, s, env, x, false);
    ConfirmWallets(db, x, None, env);
    if x in db.payments {
      var handed := db.payments[x].order.Some? && Provisions(db, s, env, db.payments[x].order.value);
    }
  }

  /**
   Customers' wallets move by hand, at checkout, or when a customer's top-up is confirmed; resellers' by
   hand, when their own top-up is confirmed, or when an order of theirs is provisioned; never otherwise.
   */
  lemma WalletsStay(db: Db, s: Step, env: Env)
    requires Possible(db, s)
    ensures var next := Call(db, s, env).0;
      && (!s.AdjustCustomer? && !s.Checkout? && NoPayIn(db, s, env, true) ==> next.customers == db.customers)
      && (!s.MoveAdmin? && NoPayIn(db, s, env, false) && NoProvision(db, s, env) ==> next.admins == db.admins)
  {
    if s.Prove? {
      ProveWallets(db, s, env);
    } else if s.PluginCall? {
      hide Call, Provisions;
      PluginWallets(db, s, env);
    } else if Target(s).Some? {
      hide Call, Provisions;
      TargetWallets(db, s, env);
    } else if s.Retry? {
      RetryWallets(db, s, env);
    } else if s.Checkout? {
      CheckoutAdmins(db, s, env);
    }
    hide CreateOrder, RetryFulfill, SubmitProof, ConfirmPayment, Charge, Credit, Debit, OrderTouched, OrderActive;
  }

  lemma RetryWallets(db: Db, s: Step, env: Env)
    requires s.Retry?
    ensures var next := Call(db, s, env).0;
      next.customers == db.customers && (!Provisions(db, s, env, s.order) ==> next.admins == db.admins)
  {
    FulfillWallets(db, s.order, env);
    if s.order in db.orders {
      FulfillWallets(WithOrderPayments(WithOrder(db, s.order, Paid), s.order, Confirmed), s.order, env);
    }
    hide FulfillOrder;
  }

  lemma CheckoutAdmins(db: Db, s: Step, env: Env)
    requires s.Checkout? && CanCheckout(db, s.c)
    ensures !Provisions(db, s, env, s.c.order) ==> Call(db, s, env).0.admins == db.admins
  {
    var c := s.c;
    var placed := AddOrder(db, c.order, c.seller, c.amount);
    FulfillWallets(placed, c.order, env);
    if c.amount > 0 && c.via == FromWallet && c.customer.Some? {
      var p := NewPayment(ForOrder, FromWallet, Some(c.order), c.seller, c.customer, c.amount, None);
      var w := Debit(db.customers, c.customer.value, c.amount, Purchase, OrderRef(c.order)).0;
      ConfirmWallets(WithPayment(placed, c.payment, p).(customers := w), c.payment, None, env);
    }
    hide ConfirmPayment, FulfillOrder, Credit;
  }

  /** The wallet of an open top-up, once it was confirmed. */
  ghost predicate Credited(db: Db, next: Db, p: Payment, id: Id, pct: int) {
    var bonus := if pct > 0 then p.amount * pct / 100 else 0;
    if p.customer.Some? then
      next.admins == db.admins
      && Moved(db.customers, next.customers, p.customer.value, p.amount + bonus, Topup, PaymentRef(id))
    else next.customers == db.customers && Moved(db.admins, next.admins, p.admin, p.amount, Topup, PaymentRef(id))
  }

  lemma ConfirmedCredit(db: Db, id: Id, reviewer: Option<Id>, env: Env, start: Opening)
    requires Inv(db, start) && id in db.payments
    requires db.payments[id].kind == ForTopup && db.payments[id].status != Confirmed
    requires if reviewer.Some? then CanReview(db, reviewer.value, db.payments[id]) else db.payments[id].status != Lapsed
    ensures Credited(db, ConfirmPayment(db, id, reviewer, env).0, db.payments[id], id, env.bonusPct)
  {
    hide Inv, ConfirmPayment, CanReview;
    ConfirmCredits(db, id, reviewer, env, start);
  }

  /** A confirmed top-up moves one wallet by the amount, with the bonus of that moment for a customer, and no other. */
  lemma PaidIn(db: Db, s: Step, env: Env, id: Id, customers: bool, start: Opening)
    requires Inv(db, start) && PaysIn(db, s, env, id, customers)
    ensures Credited(db, Call(db, s, env).0, db.payments[id], id, env.bonusPct)
  {
    LinkOf(db, id, start);
    assert !s.Retry?;
    hide Inv, Call, ConfirmPayment, Credited, CanReview, Entitled, Files;
    var ready := Prepared(db, s, id);
    PreparedInv(db, s, env, id, start);
    ConfirmsByConfirming(db, s, env, id);
    hide Confirms;
    ConfirmedCredit(ready, id, ReviewerOf(s), env, start);
    SameReview(db, s, id);
    SameCredited(db, s, id, Call(db, s, env).0, env.bonusPct);
  }

  lemma SameReview(db: Db, s: Step, id: Id)
    requires id in db.payments
    ensures forall r ::
      CanReview(Prepared(db, s, id), r, Prepared(db, s, id).payments[id]) == CanReview(db, r, db.payments[id])
  {
  }

  lemma SameCredited(db: Db, s: Step, id: Id, next: Db, pct: int)
    requires id in db.payments
    ensures Credited(Prepared(db, s, id), next, Prepared(db, s, id).payments[id], id, pct)
         == Credited(db, next, db.payments[id], id, pct)
  {
  }

  lemma PreparedInv(db: Db, s: Step, env: Env, id: Id, start: Opening)
    requires Inv(db, start) && id in db.payments && db.payments[id].status != Confirmed && Confirms(db, s, env, id)
    ensures Inv(Prepared(db, s, id), start)
  {
    if s.Prove? {
      hide Inv;
      ProveAlone(db, s, env, id, start);
    }
  }

  /** Filing alone is a step of its own. */
  lemma ProveAlone(db: Db, s: Step, env: Env, id: Id, start: Opening)
    requires Inv(db, start) && s.Prove? && id in db.payments && Confirms(db, s, env, id)
    requires db.payments[id].status != Confirmed
    ensures Inv(Prepared(db, s, id), start)
  {
    FilesIff(db, id, s.proof, env.now);
    StepKeeps(db, Prove(id, s.proof, None), env, start);
    hide Inv, IsTxid, TxidTaken, Files, ConfirmPayment;
  }

  lemma {:induction false} NoSettlement(rows: seq<Tx>, id: Id)
    ensures Settlements(rows, id) == 0 <==> forall i :: 0 <= i < |rows| ==> rows[i].ref != PaymentRef(id)
  {
    if rows != [] {
      NoSettlement(rows[..|rows| - 1], id);
    }
  }

  /**
   Asked to settle any payment at any time, the service credits exactly a confirmed top-up of an existing
   customer that no row refers to yet; else nothing changes.
   */
  lemma SettleCustomerIff(db: Db, id: Id, pct: int)
    ensures var next := SettleCustomerTopup(db, id, pct).0;
      var due := && id in db.payments && db.payments[id].kind == ForTopup && db.payments[id].status == Confirmed
                 && db.payments[id].customer.Some? && db.payments[id].customer.value in db.customers.balance
                 && (forall i :: 0 <= i < |db.customers.rows| ==> db.customers.rows[i].ref != PaymentRef(id));
      if due then
        var p := db.payments[id];
        var sum := p.amount + (if pct > 0 then p.amount * pct / 100 else 0);
        if sum > 0 then
          next == db.(customers := next.customers)
          && Moved(db.customers, next.customers, p.customer.value, sum, Topup, PaymentRef(id))
        else next == db
      else next == db
  {
    NoSettlement(db.customers.rows, id);
    hide Settlements;
  }

  // ---------- what is opened ----------

  /** The row a top-up or an order's payment starts with, where the store takes it. */
  ghost function Opened(db: Db, id: Id, p: Payment, gateway: Gateway, env: Env, ttl: int): map<Id, Payment> {
    var timed := Payment(p.kind, p.via, Pending, p.order, p.admin, p.customer, p.amount, Some(env.now + ttl),
                         None, None, false, 0);
    if p.amount <= 0 || gateway == Refuses || p.via == FromWallet || p.via == Manual then db.payments
    else if p.via == Zarinpal && gateway == Fails then db.payments[id := timed.(status := Rejected, customer := None)]
    else if p.via == Zarinpal then db.payments[id := timed.(authority := Some(gateway.authority))]
    else db.payments[id := timed]
  }

  /** A top-up adds its row and changes nothing else. */
  lemma TopUpOpens(db: Db, s: Step, env: Env, p: Payment)
    requires s.TopUp? && Possible(db, s)
    requires p.kind == ForTopup && p.via == s.via && p.order == None && p.admin == s.admin && p.customer == s.customer
    requires p.amount == s.amount
    ensures Call(db, s, env).0 == db.(payments := Opened(db, s.id, p, s.gateway, env, s.ttl))
  {
  }

  /** The checkout is taken: the method is on, and a wallet covers the price. */
  predicate Taken(db: Db, c: Payments.Checkout) {
    c.amount <= 0 || (
      && c.allowed
      && (c.via == FromWallet ==> c.customer.Some? && c.customer.value in db.customers.balance
                                  && db.customers.balance[c.customer.value] >= c.amount))
  }

  /** A checkout that is not taken changes nothing. */
  lemma NotTaken(db: Db, c: Payments.Checkout, env: Env)
    requires !Taken(db, c)
    ensures CreateOrder(db, c, env).0 == db
  {
  }

  /**
   The new order: as provisioning leaves it when it is free or paid, canceled when the wallet purchase
   broke, else pending.
   */
  lemma NewOrder(db: Db, c: Payments.Checkout, env: Env)
    requires CanCheckout(db, c) && Taken(db, c)
    ensures var next := CreateOrder(db, c, env).0; c.order in next.orders
    ensures var q := CreateOrder(db, c, env).0.orders[c.order];
      && q.admin == c.seller && q.amount == c.amount
      && q.status == if c.amount > 0 && c.via != FromWallet then OrderPending
                     else if c.amount > 0 && c.fault != NoFault then Canceled
                     else if Pays(db, c.seller, env) && env.work.Delivers? then Fulfilled else Paid
  {
    var placed := AddOrder(db, c.order, c.seller, c.amount);
    if c.amount <= 0 {
      PlacedFulfills(placed, c.order, env);
    }
    if c.amount > 0 && c.via == FromWallet {
      var p := NewPayment(ForOrder, FromWallet, Some(c.order), c.seller, c.customer, c.amount, None);
      var w := Debit(db.customers, c.customer.value, c.amount, Purchase, OrderRef(c.order)).0;
      PlacedConfirms(WithPayment(placed, c.payment, p).(customers := w), c.payment, c.order, env);
    }
    hide ConfirmPayment, FulfillOrder, Credit;
  }

  lemma PlacedFulfills(db: Db, o: Id, env: Env)
    requires o in db.orders && db.orders[o].status == Paid
    ensures var next, q := FulfillOrder(db, o, env).0, db.orders[o];
      && o in next.orders && next.orders[o].admin == q.admin && next.orders[o].amount == q.amount
      && next.orders[o].status == if Pays(db, q.admin, env) && env.work.Delivers? then Fulfilled else Paid
  {
  }

  lemma PlacedConfirms(db: Db, id: Id, o: Id, env: Env)
    requires o in db.orders && id in db.payments && db.payments[id].kind == ForOrder && db.payments[id].order == Some(o)
    requires db.payments[id].status == Pending
    ensures var next, q := ConfirmPayment(db, id, None, env).0, db.orders[o];
      && o in next.orders && next.orders[o].admin == q.admin && next.orders[o].amount == q.amount
      && next.orders[o].status == if Pays(db, q.admin, env) && env.work.Delivers? then Fulfilled else Paid
  {
    PlacedFulfills(WithOrder(WithStatus(db, id, Confirmed), o, Paid), o, env);
    hide FulfillOrder;
  }

  /** The new payment: none for a free order; from the wallet, confirmed or rejected; else as a top-up's. */
  lemma NewOrderPayment(db: Db, c: Payments.Checkout, env: Env)
    requires CanCheckout(db, c) && Taken(db, c)
    ensures var status := if c.fault == NoFault then Confirmed else Status.Rejected;
      var paid := Payment(ForOrder, FromWallet, status, Some(c.order), c.seller, c.customer, c.amount, None,
                          None, None, false, 0);
      CreateOrder(db, c, env).0.payments ==
        if c.amount <= 0 then db.payments
        else if c.via == FromWallet then db.payments[c.payment := paid]
        else Opened(db, c.payment, paid.(via := c.via, customer := None), c.gateway, env, c.ttl)
  {
    var placed := AddOrder(db, c.order, c.seller, c.amount);
    FulfillKeepsPayments(placed, c.order, env);
    if c.amount > 0 && c.via == FromWallet {
      var p := NewPayment(ForOrder, FromWallet, Some(c.order), c.seller, c.customer, c.amount, None);
      var w := Debit(db.customers, c.customer.value, c.amount, Purchase, OrderRef(c.order)).0;
      OrderSettles(WithPayment(placed, c.payment, p).(customers := w), c.payment, env);
    }
    hide ConfirmPayment, FulfillOrder, Credit;
  }

  /** What the customer pays: the price from the wallet, back again when the purchase broke, unless that failed too. */
  lemma NewOrderMoney(db: Db, c: Payments.Checkout, env: Env) returns (mid: Wallets)
    requires CanCheckout(db, c) && Taken(db, c)
    ensures if c.amount <= 0 || c.via != FromWallet then mid == db.customers
      else Moved(db.customers, mid, c.customer.value, -c.amount, Purchase, OrderRef(c.order))
    ensures var next := CreateOrder(db, c, env).0;
      if c.amount > 0 && c.via == FromWallet && c.fault == BeforeConfirm
      then Moved(mid, next.customers, c.customer.value, c.amount, Refund, OrderRef(c.order))
      else next.customers == mid
  {
    var placed := AddOrder(db, c.order, c.seller, c.amount);
    mid := db.customers;
    if c.amount > 0 && c.via == FromWallet {
      var p := NewPayment(ForOrder, FromWallet, Some(c.order), c.seller, c.customer, c.amount, None);
      mid := Debit(db.customers, c.customer.value, c.amount, Purchase, OrderRef(c.order)).0;
      OrderSettles(WithPayment(placed, c.payment, p).(customers := mid), c.payment, env);
    } else {
      FulfillWallets(placed, c.order, env);
    }
    hide ConfirmPayment, FulfillOrder;
  }
}
