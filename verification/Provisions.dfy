/** Which steps hand an order to provisioning, and what that costs and delivers over whole runs. */
module Provisions {
  import opened Results
  import opened Ledger
  import opened Payments
  import opened PaymentRuns
  import opened MoneyTheorems
  import opened MoneySteps
  import opened Hex

  /** The work gets past the seller's charge. */
  predicate Pays(db: Db, seller: Id, env: Env) {
    && (env.work.Delivers? || env.work.BreaksAfterCharge?)
    && (seller in db.owners || env.work.cost == 0
        || (seller in db.admins.balance && db.admins.balance[seller] - env.work.cost + env.creditLimit >= 0))
  }

  /** A checkout that the customer's wallet covers and nothing interrupts. */
  predicate BuysFromWallet(db: Db, c: Payments.Checkout) {
    && c.amount > 0 && c.via == FromWallet && c.allowed && c.fault == NoFault
    && c.customer.Some? && c.customer.value in db.customers.balance
    && db.customers.balance[c.customer.value] >= c.amount
  }

  /** The payment is for this order and still open. */
  predicate PaysFor(p: Payment, o: Id) {
    p.kind == ForOrder && p.order == Some(o) && p.status != Confirmed
  }

  /** The step's guards let it hand the order to provisioning. */
  ghost predicate Reaches(db: Db, s: Step, env: Env, o: Id) {
    match s
    case Retry(actor, x) => x == o && MayTouchOrder(db, actor, o) && db.orders[o].status in {OrderPending, Paid}
    case Checkout(c) => c.order == o && (c.amount <= 0 || BuysFromWallet(db, c))
    case _ =>
      && o in db.orders && Target(s).Some? && Target(s).value in db.payments
      && PaysFor(db.payments[Target(s).value], o) && Confirms(db, s, env, Target(s).value)
  }

  function AdminOf(db: Db, o: Id): Id {
    if o in db.orders then db.orders[o].admin else ""
  }

  function SellerOf(db: Db, s: Step, o: Id): Id {
    if o !in db.orders && s.Checkout? then s.c.seller else AdminOf(db, o)
  }

  ghost predicate Provisions(db: Db, s: Step, env: Env, o: Id) {
    Reaches(db, s, env, o) && Pays(db, SellerOf(db, s, o), env)
  }

  function Charged(db: Db, o: Id): nat {
    if o in db.orders then db.orders[o].charged else 0
  }

  function Delivered(db: Db, o: Id): nat {
    if o in db.orders then db.orders[o].delivered else 0
  }

  /** The order was charged and delivered once more, as said, and the seller's wallet moved by the charge. */
  ghost predicate Counted(db: Db, next: Db, o: Id, seller: Id, env: Env, done: bool) {
    && Charged(next, o) == Charged(db, o) + (if done then 1 else 0)
    && Delivered(next, o) == Delivered(db, o) + (if done && env.work.Delivers? then 1 else 0)
    && (done ==> Pays(db, seller, env) && next.admins == ChargeSeller(db, seller, env).0)
  }

  // ---------- one step ----------

  lemma FulfillCounts(db: Db, x: Id, env: Env, o: Id)
    ensures Counted(db, FulfillOrder(db, x, env).0, o, AdminOf(db, o), env,
      x == o && o in db.orders && db.orders[o].status == Paid && Pays(db, db.orders[o].admin, env))
  {
  }

  /** The same order, whatever its status, and the same wallets. */
  ghost predicate Alike(db: Db, next: Db, o: Id) {
    && next.admins == db.admins && next.owners == db.owners
    && Charged(next, o) == Charged(db, o) && Delivered(next, o) == Delivered(db, o)
  }

  lemma CountedFrom(db: Db, mid: Db, next: Db, o: Id, seller: Id, env: Env, done: bool)
    requires Alike(db, mid, o) && Counted(mid, next, o, seller, env, done)
    ensures Counted(db, next, o, seller, env, done)
  {
  }

  lemma SettleCounts(db: Db, id: Id, env: Env, o: Id)
    requires id in db.payments
    ensures var p := db.payments[id];
      Counted(db, Settle(db, id, env).0, o, AdminOf(db, o), env,
      p.kind == ForOrder && p.order == Some(o) && o in db.orders && Pays(db, db.orders[o].admin, env))
  {
    var p := db.payments[id];
    if p.kind == ForOrder && p.order.Some? && p.order.value in db.orders {
      var paid := WithOrder(db, p.order.value, Paid);
      FulfillCounts(paid, p.order.value, env, o);
      hide FulfillOrder;
      CountedFrom(db, paid, FulfillOrder(paid, p.order.value, env).0, o, AdminOf(db, o), env,
      p.order == Some(o) && Pays(db, db.orders[o].admin, env));
    }
  }

  lemma ConfirmCounts(db: Db, id: Id, reviewer: Option<Id>, env: Env, o: Id)
    ensures Counted(db, ConfirmPayment(db, id, reviewer, env).0, o, AdminOf(db, o), env,
      && id in db.payments && o in db.orders && PaysFor(db.payments[id], o) && Pays(db, db.orders[o].admin, env)
      && (if reviewer.Some? then CanReview(db, reviewer.value, db.payments[id]) else db.payments[id].status != Lapsed))
  {
    if id in db.payments {
      var confirmed := WithStatus(db, id, Confirmed);
      SettleCounts(confirmed, id, env, o);
      hide Settle, CanReview;
    }
  }

  lemma ProveCounts(db: Db, id: Id, proof: Proof, chain: Option<Chain>, env: Env, o: Id)
    ensures Counted(db, SubmitProof(db, id, proof, chain, env).0, o, AdminOf(db, o), env,
      Provisions(db, Prove(id, proof, chain), env, o))
  {
    if id in db.payments {
      ConfirmCounts(WithPayment(db, id, Filed(db.payments[id], proof.txid)), id, None, env, o);
    }
    FilesIff(db, id, proof, env.now);
    hide Files;
    hide ConfirmPayment, IsTxid, TxidTaken;
  }

  lemma RetryCounts(db: Db, actor: Id, x: Id, env: Env, o: Id)
    ensures Counted(db, RetryFulfill(db, actor, x, env).0, o, AdminOf(db, o), env,
      Provisions(db, Retry(actor, x), env, o))
  {
    FulfillCounts(db, x, env, o);
    if x in db.orders {
      FulfillCounts(WithOrderPayments(WithOrder(db, x, Paid), x, Confirmed), x, env, o);
    }
    hide FulfillOrder, WithOrderPayments;
  }

  lemma WalletCounts(db: Db, id: Id, x: Id, customer: Id, fault: Fault, env: Env, o: Id)
    requires x in db.orders && db.orders[x].status == OrderPending && db.orders[x].amount > 0
    requires customer in db.customers.balance && db.customers.balance[customer] >= db.orders[x].amount
    ensures Counted(db, PayOrderWithWallet(db, id, x, customer, fault, env).0, o, AdminOf(db, o),
      env, x == o && fault == NoFault && Pays(db, db.orders[x].admin, env))
  {
    var order := db.orders[x];
    var p := NewPayment(ForOrder, FromWallet, Some(x), order.admin, Some(customer), order.amount, None);
    var w := Debit(db.customers, customer, order.amount, Purchase, OrderRef(x)).0;
    ConfirmCounts(WithPayment(db, id, p).(customers := w), id, None, env, o);
    hide ConfirmPayment, Credit;
  }

  lemma CheckoutCounts(db: Db, c: Payments.Checkout, env: Env, o: Id)
    requires CanCheckout(db, c)
    ensures Counted(db, CreateOrder(db, c, env).0, o, SellerOf(db, Step.Checkout(c), o), env,
      Provisions(db, Step.Checkout(c), env, o))
  {
    var placed := AddOrder(db, c.order, c.seller, c.amount);
    FulfillCounts(placed, c.order, env, o);
    if c.amount > 0 && c.via == FromWallet && c.customer.Some? && c.customer.value in db.customers.balance
       && db.customers.balance[c.customer.value] >= c.amount {
      WalletCounts(placed, c.payment, c.order, c.customer.value, c.fault, env, o);
    }
    hide FulfillOrder, PayOrderWithWallet;
  }

  lemma OthersCount(db: Db, s: Step, env: Env, o: Id)
    requires s.Reject? || s.Expire? || s.Cancel? || s.TopUp? || s.AdjustCustomer? || s.MoveAdmin?
    ensures Counted(db, Call(db, s, env).0, o, SellerOf(db, s, o), env, false) && !Provisions(db, s, env, o)
  {
    hide OrderTouched, OrderActive, Charge, Credit, Debit;
  }

  /**
   A step charges an order's seller and delivers the order exactly when it provisions it, and by exactly that
   charge.
   */
  lemma StepCounts(db: Db, s: Step, env: Env, o: Id)
    requires Possible(db, s)
    ensures Counted(db, Call(db, s, env).0, o, SellerOf(db, s, o), env, Provisions(db, s, env, o))
  {
    hide ConfirmPayment, CreateOrder, RetryFulfill, SubmitProof, ExpirePayments, CancelOrder, Pays, ChargeSeller;
    match s
    case Prove(x, proof, chain) => ProveCounts(db, x, proof, chain, env, o);
    case Confirm(x, reviewer) => ConfirmCounts(db, x, reviewer, env, o);
    case Callback(x, _, _, _) => ConfirmCounts(db, x, None, env, o);
    case PluginCall(_, x, _, _) => ConfirmCounts(db, x, None, env, o);
    case Verify(x, _, _) => ConfirmCounts(db, x, None, env, o);
    case Retry(actor, x) => RetryCounts(db, actor, x, env, o);
    case Checkout(c) => CheckoutCounts(db, c, env, o);
    case _ => OthersCount(db, s, env, o);
  }

  // ---------- whole runs ----------

  /** How many steps of a run provision the order. */
  ghost function Charges(db: Db, run: Run, o: Id): nat {
    if run == [] then 0
    else
      var mid := After(db, run[..|run| - 1]);
      var (s, env) := run[|run| - 1];
      Charges(db, run[..|run| - 1], o) + if Possible(mid, s) && Provisions(mid, s, env, o) then 1 else 0
  }

  /** How many of them complete. */
  ghost function Handovers(db: Db, run: Run, o: Id): nat {
    if run == [] then 0
    else
      var mid := After(db, run[..|run| - 1]);
      var (s, env) := run[|run| - 1];
      Handovers(db, run[..|run| - 1], o)
      + if Possible(mid, s) && Provisions(mid, s, env, o) && env.work.Delivers? then 1 else 0
  }

  /** After any run an order was charged and delivered exactly as often as its steps did. */
  lemma {:induction false} RunCounts(db: Db, run: Run, o: Id)
    ensures Charged(After(db, run), o) == Charged(db, o) + Charges(db, run, o)
    ensures Delivered(After(db, run), o) == Delivered(db, o) + Handovers(db, run, o)
  {
    if run != [] {
      var mid := After(db, run[..|run| - 1]);
      var (s, env) := run[|run| - 1];
      RunCounts(db, run[..|run| - 1], o);
      hide Charged, Delivered, Provisions, Possible, Call, ChargeSeller, Pays;
      if Possible(mid, s) {
        StepCounts(mid, s, env, o);
      }
    }
  }

  /** No seller was charged for an order more than once. */
  ghost predicate ChargedOnce(db: Db) {
    forall o :: Charged(db, o) <= 1
  }

  /** The step's guards let it provision an order whose seller was charged already. */
  ghost predicate Recharges(db: Db, s: Step, env: Env) {
    exists o :: Charged(db, o) >= 1 && Provisions(db, s, env, o)
  }

  lemma ChargedOnceIff(db: Db, s: Step, env: Env)
    requires Possible(db, s) && ChargedOnce(db)
    ensures ChargedOnce(Call(db, s, env).0) <==> !Recharges(db, s, env)
  {
    var next := Call(db, s, env).0;
    hide Charged, Delivered, Provisions, Possible, Call, ChargeSeller, Pays;
    forall o ensures Charged(next, o) == Charged(db, o) + if Provisions(db, s, env, o) then 1 else 0 {
      StepCounts(db, s, env, o);
    }
    if o :| Charged(db, o) >= 1 && Provisions(db, s, env, o) {
      assert Charged(next, o) == 2;
    }
  }

  ghost predicate NeverRecharges(db: Db, run: Run) {
    run == [] || (
      && NeverRecharges(db, run[..|run| - 1])
      && var mid := After(db, run[..|run| - 1]);
         (Possible(mid, run[|run| - 1].0) ==> !Recharges(mid, run[|run| - 1].0, run[|run| - 1].1)))
  }

  /** A run charges a seller at most once per order if and only if no step provisions an order charged by then. */
  lemma {:induction false} ChargedOnceOverRuns(db: Db, run: Run)
    requires ChargedOnce(db)
    ensures ChargedOnce(After(db, run)) <==> NeverRecharges(db, run)
  {
    if run != [] {
      var mid := After(db, run[..|run| - 1]);
      var (s, env) := run[|run| - 1];
      ChargedOnceOverRuns(db, run[..|run| - 1]);
      hide Recharges, Possible, Call, Charged;
      if Possible(mid, s) {
        if ChargedOnce(mid) {
          hide ChargedOnce;
          ChargedOnceIff(mid, s, env);
        } else {
          var o :| Charged(mid, o) > 1;
          hide Provisions, ChargeSeller, Pays;
          StepCounts(mid, s, env, o);
          assert Charged(Call(mid, s, env).0, o) > 1;
        }
      }
    }
  }

  /** A retry after work that broke behind the charge takes the cost a second time for the one order. */
  lemma ChargedTwice(db: Db, actor: Id, o: Id, cost: nat, once: Id, again: Id, now: int, limit: nat) returns (run: Run)
    requires MayTouchOrder(db, actor, o) && db.orders[o].status == Paid
    requires var seller := db.orders[o].admin;
      seller !in db.owners && seller in db.admins.balance && cost > 0
        && db.admins.balance[seller] - 2 * cost + limit >= 0
    ensures var end, seller := After(db, run), db.orders[o].admin;
      && Charged(end, o) == Charged(db, o) + 2 && Delivered(end, o) == Delivered(db, o) + 1
      && seller in end.admins.balance && end.admins.balance[seller] == db.admins.balance[seller] - 2 * cost
  {
    var breaks, works := Env(now, limit, 0, BreaksAfterCharge(cost, once)), Env(now, limit, 0, Delivers(cost, again));
    run := [(Retry(actor, o), breaks), (Retry(actor, o), works)];
    AfterOne(db, run, 0);
    AfterOne(db, run, 1);
    assert run[..0] == [] && run[..2] == run;
    hide After;
    assert Possible(db, run[0].0) && Possible(After(db, run[..1]), run[1].0);
  }

  // ---------- money paid from a customer's wallet ----------

  /** What a customer's wallets paid for an order, less what came back. */
  function Net(rows: seq<Tx>, o: Id): int {
    if rows == [] then 0
    else Net(rows[..|rows| - 1], o) + if rows[|rows| - 1].ref == OrderRef(o) then -rows[|rows| - 1].amount else 0
  }

  function PaidFor(db: Db, o: Id): int {
    Net(db.customers.rows, o)
  }

  lemma PostNet(w: Wallets, who: Id, amount: int, kind: TxKind, ref: Ref, o: Id)
    requires who in w.balance
    ensures Net(Post(w, who, amount, kind, ref).rows, o) == Net(w.rows, o) - if ref == OrderRef(o) then amount else 0
  {
    var t := Post(w, who, amount, kind, ref).rows[|w.rows|];
    assert (w.rows + [t])[..|w.rows|] == w.rows;
  }

  lemma ConfirmNet(db: Db, id: Id, reviewer: Option<Id>, env: Env, o: Id)
    ensures PaidFor(ConfirmPayment(db, id, reviewer, env).0, o) == PaidFor(db, o)
  {
    if id in db.payments {
      var p := db.payments[id];
      if p.customer.Some? && p.customer.value in db.customers.balance {
        PostNet(db.customers, p.customer.value, p.amount + Bonus(p.amount, env.bonusPct), Topup, PaymentRef(id), o);
      }
      hide Net, Bonus, Charge, Settlements;
    }
  }

  /** The debit of a wallet purchase, and the credit that may undo it, count for its own order alone. */
  lemma WalletNet(db: Db, id: Id, x: Id, customer: Id, fault: Fault, env: Env, o: Id)
    requires x in db.orders
    ensures x != o ==> PaidFor(PayOrderWithWallet(db, id, x, customer, fault, env).0, o) == PaidFor(db, o)
    ensures x == o && fault == NoFault && db.orders[x].amount > 0
            && customer in db.customers.balance && db.customers.balance[customer] >= db.orders[x].amount
      ==> PaidFor(PayOrderWithWallet(db, id, x, customer, fault, env).0, o) == PaidFor(db, o) + db.orders[x].amount
  {
    var order := db.orders[x];
    var p := NewPayment(ForOrder, FromWallet, Some(x), order.admin, Some(customer), order.amount, None);
    var w := Debit(db.customers, customer, order.amount, Purchase, OrderRef(x)).0;
    ConfirmNet(WithPayment(db, id, p).(customers := w), id, None, env, o);
    if customer in db.customers.balance {
      PostNet(db.customers, customer, -order.amount, Purchase, OrderRef(x), o);
      PostNet(w, customer, order.amount, Refund, OrderRef(x), o);
    }
    hide ConfirmPayment, Net;
  }

  lemma CheckoutNet(db: Db, c: Payments.Checkout, env: Env, o: Id)
    requires CanCheckout(db, c) && c.order != o
    ensures PaidFor(CreateOrder(db, c, env).0, o) == PaidFor(db, o)
  {
    var placed := AddOrder(db, c.order, c.seller, c.amount);
    if c.amount > 0 && c.via == FromWallet && c.customer.Some? {
      WalletNet(placed, c.payment, c.order, c.customer.value, c.fault, env, o);
    }
    hide PayOrderWithWallet, Net, Charge;
  }

  /** No step pays for an existing order from a wallet, and none pays back. */
  lemma StepNet(db: Db, s: Step, env: Env, o: Id)
    requires Possible(db, s) && o in db.orders
    ensures PaidFor(Call(db, s, env).0, o) == PaidFor(db, o)
  {
    hide ConfirmPayment, CreateOrder, RetryFulfill, CancelOrder, AdjustCustomerCredit, IsTxid, TxidTaken, OrderTouched,
      OrderActive, Charge, Net;
    match s
    case Confirm(x, reviewer) => ConfirmNet(db, x, reviewer, env, o);
    case Prove(x, proof, _) =>
      if x in db.payments {
        ConfirmNet(WithPayment(db, x, Filed(db.payments[x], proof.txid)), x, None, env, o);
      }
    case Callback(x, _, _, _) => ConfirmNet(db, x, None, env, o);
    case PluginCall(_, x, _, _) => ConfirmNet(db, x, None, env, o);
    case Verify(x, _, _) => ConfirmNet(db, x, None, env, o);
    case Retry(actor, x) => RetryKeepsCustomers(db, actor, x, env);
    case Cancel(actor, x) => CancelKeepsCustomers(db, actor, x);
    case AdjustCustomer(actor, who, amount) => AdjustNet(db, actor, who, amount, o);
    case Checkout(c) => CheckoutNet(db, c, env, o);
    case _ =>
  }

  lemma AdjustNet(db: Db, actor: Id, who: Id, amount: int, o: Id)
    ensures PaidFor(AdjustCustomerCredit(db, actor, who, amount).0, o) == PaidFor(db, o)
  {
    if who in db.customers.balance {
      PostNet(db.customers, who, amount, Adjust, AdminRef(actor), o);
    }
    hide Net;
  }

  lemma CancelKeepsCustomers(db: Db, actor: Id, x: Id)
    ensures CancelOrder(db, actor, x).0.customers == db.customers
  {
  }

  lemma RetryKeepsCustomers(db: Db, actor: Id, x: Id, env: Env)
    ensures RetryFulfill(db, actor, x, env).0.customers == db.customers
  {
  }

  /** Over any run nothing is paid for an existing order from a wallet, and nothing comes back. */
  lemma {:induction false} NeverPaidBack(db: Db, run: Run, o: Id)
    requires o in db.orders
    ensures o in After(db, run).orders && PaidFor(After(db, run), o) == PaidFor(db, o)
  {
    if run != [] {
      var mid := After(db, run[..|run| - 1]);
      var (s, env) := run[|run| - 1];
      NeverPaidBack(db, run[..|run| - 1], o);
      hide PaidFor, Possible, Call, Grows;
      if Possible(mid, s) {
        StepNet(mid, s, env, o);
        StepGrows(mid, s, env);
        OrderStays(mid, Call(mid, s, env).0, o);
      }
    }
  }

  lemma OrderStays(db: Db, next: Db, o: Id)
    requires Grows(db, next) && o in db.orders
    ensures o in next.orders
  {
  }

  /** The tables after a checkout that the customer's wallet pays for. */
  lemma WalletCheckout(db: Db, c: Payments.Checkout, env: Env)
    requires CanCheckout(db, c) && BuysFromWallet(db, c)
    ensures var placed := CreateOrder(db, c, env).0;
      && c.order in placed.orders && PaidFor(placed, c.order) == PaidFor(db, c.order) + c.amount
      && placed.payments == db.payments[c.payment :=
           NewPayment(ForOrder, FromWallet, Some(c.order), c.seller, c.customer, c.amount, None).(status := Confirmed)]
      && Delivered(placed, c.order) == if Pays(db, c.seller, env) && env.work.Delivers? then 1 else 0
  {
    var placed := AddOrder(db, c.order, c.seller, c.amount);
    WalletNet(placed, c.payment, c.order, c.customer.value, NoFault, env, c.order);
    CheckoutCounts(db, c, env, c.order);
    var p := NewPayment(ForOrder, FromWallet, Some(c.order), c.seller, c.customer, c.amount, None);
    var w := Debit(db.customers, c.customer.value, c.amount, Purchase, OrderRef(c.order)).0;
    OrderSettles(WithPayment(placed, c.payment, p).(customers := w), c.payment, env);
    hide ConfirmPayment, Net, Pays;
  }

  /** What a run leaves of a confirmed payment and an existing order. */
  lemma ConfirmedFate(db: Db, run: Run, id: Id, o: Id, start: Opening)
    requires Inv(db, start) && id in db.payments && db.payments[id].status == Confirmed && o in db.orders
    ensures var end := After(db, run);
      && id in end.payments && end.payments[id].status == Confirmed && PaidFor(end, o) == PaidFor(db, o)
      && Delivered(end, o) == Delivered(db, o) + Handovers(db, run, o)
  {
    hide *;
    ConfirmedForever(db, run, id, start);
    NeverPaidBack(db, run, o);
    RunCounts(db, run, o);
  }

  lemma CheckoutInv(db: Db, c: Payments.Checkout, env: Env, start: Opening)
    requires Inv(db, start) && CanCheckout(db, c)
    ensures Inv(CreateOrder(db, c, env).0, start)
  {
    hide Inv, CreateOrder;
    CheckoutKeeps(db, c, env, start);
  }

  lemma CancelInv(db: Db, actor: Id, o: Id, start: Opening)
    requires Inv(db, start)
    ensures Inv(CancelOrder(db, actor, o).0, start)
  {
    hide Inv, CancelOrder;
    CancelKeeps(db, actor, o, start);
  }

  /**
   Whatever happens after a checkout that the wallet paid for: the payment stays confirmed and the price
   gone, and the order was delivered exactly as often as a step handed it over.
   */
  lemma WalletOrderFate(db: Db, c: Payments.Checkout, env: Env, run: Run, start: Opening)
    requires Inv(db, start) && CanCheckout(db, c) && BuysFromWallet(db, c)
    ensures var placed := CreateOrder(db, c, env).0;
      var end, first := After(placed, run), Pays(db, c.seller, env) && env.work.Delivers?;
      && c.payment in end.payments && end.payments[c.payment].status == Confirmed
      && PaidFor(end, c.order) == PaidFor(db, c.order) + c.amount
      && Delivered(end, c.order) == (if first then 1 else 0) + Handovers(placed, run, c.order)
  {
    hide *;
    WalletCheckout(db, c, env);
    CheckoutInv(db, c, env, start);
    ConfirmedFate(CreateOrder(db, c, env).0, run, c.payment, c.order, start);
  }

  /** A canceled order of which every payment is confirmed. */
  ghost predicate Lost(db: Db, o: Id) {
    && o in db.orders && db.orders[o].status == Canceled
    && forall id :: id in db.payments && db.payments[id].order == Some(o) ==> db.payments[id].status == Confirmed
  }

  lemma ConfirmLost(db: Db, id: Id, reviewer: Option<Id>, env: Env, o: Id)
    requires Lost(db, o)
    ensures Lost(ConfirmPayment(db, id, reviewer, env).0, o)
  {
  }

  lemma CheckoutLost(db: Db, c: Payments.Checkout, env: Env, o: Id)
    requires CanCheckout(db, c) && Lost(db, o)
    ensures Lost(CreateOrder(db, c, env).0, o)
  {
    var placed := AddOrder(db, c.order, c.seller, c.amount);
    assert Lost(placed, o);
    if c.amount > 0 && c.via == FromWallet && c.customer.Some? {
      var p := NewPayment(ForOrder, FromWallet, Some(c.order), c.seller, c.customer, c.amount, None);
      var w := Debit(db.customers, c.customer.value, c.amount, Purchase, OrderRef(c.order)).0;
      ConfirmLost(WithPayment(placed, c.payment, p).(customers := w), c.payment, None, env, o);
    }
    hide ConfirmPayment, Charge, Credit, Debit;
  }

  lemma ProveLost(db: Db, id: Id, proof: Proof, chain: Option<Chain>, env: Env, o: Id)
    requires Lost(db, o)
    ensures Lost(SubmitProof(db, id, proof, chain, env).0, o)
  {
    hide ConfirmPayment, IsTxid, TxidTaken;
    if id in db.payments && db.payments[id].status != Confirmed {
      ConfirmLost(WithPayment(db, id, Filed(db.payments[id], proof.txid)), id, None, env, o);
    }
  }

  lemma RetryLost(db: Db, actor: Id, x: Id, env: Env, o: Id)
    requires Lost(db, o)
    ensures Lost(RetryFulfill(db, actor, x, env).0, o)
  {
    FulfillLost(db, x, env, o);
    if x in db.orders && db.orders[x].status == OrderPending {
      var paid := WithOrderPayments(WithOrder(db, x, Paid), x, Confirmed);
      assert Lost(paid, o);
      hide Lost;
      FulfillLost(paid, x, env, o);
    }
    hide FulfillOrder, WithOrderPayments, Lost;
  }

  lemma FulfillLost(db: Db, x: Id, env: Env, o: Id)
    requires Lost(db, o)
    ensures Lost(FulfillOrder(db, x, env).0, o)
  {
    hide Charge;
  }

  lemma CancelLost(db: Db, actor: Id, x: Id, o: Id)
    requires Lost(db, o)
    ensures Lost(CancelOrder(db, actor, x).0, o)
  {
  }

  lemma ExpireLost(db: Db, now: int, o: Id)
    requires Lost(db, o)
    ensures Lost(ExpirePayments(db, now), o)
  {
    hide OrderTouched, OrderActive;
  }

  /** No step brings a lost order back, and none provisions it. */
  lemma StaysLost(db: Db, s: Step, env: Env, o: Id)
    requires Possible(db, s) && Lost(db, o)
    ensures Lost(Call(db, s, env).0, o) && !Provisions(db, s, env, o)
  {
    hide ConfirmPayment, CreateOrder, RetryFulfill, SubmitProof, ExpirePayments, CancelOrder, Charge, Credit, Debit;
    match s
    case Confirm(x, reviewer) => ConfirmLost(db, x, reviewer, env, o);
    case Prove(x, proof, chain) => ProveLost(db, x, proof, chain, env, o);
    case Callback(x, _, _, _) => ConfirmLost(db, x, None, env, o);
    case PluginCall(_, x, _, _) => ConfirmLost(db, x, None, env, o);
    case Verify(x, _, _) => ConfirmLost(db, x, None, env, o);
    case Retry(actor, x) => RetryLost(db, actor, x, env, o);
    case Cancel(actor, x) => CancelLost(db, actor, x, o);
    case Expire => ExpireLost(db, env.now, o);
    case Checkout(c) => CheckoutLost(db, c, env, o);
    case _ =>
  }

  lemma {:induction false} LostForever(db: Db, run: Run, o: Id)
    requires Lost(db, o)
    ensures Lost(After(db, run), o) && Handovers(db, run, o) == 0
  {
    if run != [] {
      var mid := After(db, run[..|run| - 1]);
      var (s, env) := run[|run| - 1];
      LostForever(db, run[..|run| - 1], o);
      hide Lost, Possible, Call, Provisions;
      if Possible(mid, s) {
        StaysLost(mid, s, env, o);
      }
    }
  }

  /**
   An order paid from the wallet, whose provisioning gave up and which its seller then cancels: whatever
   happens afterwards the payment stays confirmed, the price gone and the order undelivered.
   */
  lemma PaidForNothing(db: Db, c: Payments.Checkout, env: Env, run: Run, start: Opening)
    requires Inv(db, start) && CanCheckout(db, c) && BuysFromWallet(db, c) && env.work == GivesUp
    ensures var placed := CreateOrder(db, c, env).0;
      var end := After(CancelOrder(placed, c.seller, c.order).0, run);
      && c.payment in end.payments && end.payments[c.payment].status == Confirmed
      && PaidFor(end, c.order) == PaidFor(db, c.order) + c.amount
      && Lost(end, c.order) && Delivered(end, c.order) == 0
  {
    var placed := CreateOrder(db, c, env).0;
    var canceled := CancelOrder(placed, c.seller, c.order).0;
    assert !(Pays(db, c.seller, env) && env.work.Delivers?);
    hide *;
    WalletCheckout(db, c, env);
    CanceledIsLost(db, c, env, start);
    CheckoutInv(db, c, env, start);
    CancelInv(placed, c.seller, c.order, start);
    CancelCounts(placed, c.seller, c.order);
    ConfirmedFate(canceled, run, c.payment, c.order, start);
    LostForever(canceled, run, c.order);
  }

  lemma CancelCounts(db: Db, actor: Id, o: Id)
    requires o in db.orders
    ensures var next := CancelOrder(db, actor, o).0;
      && o in next.orders && PaidFor(next, o) == PaidFor(db, o) && Delivered(next, o) == Delivered(db, o)
      && (forall id :: id in db.payments && db.payments[id].status == Confirmed
            ==> id in next.payments && next.payments[id] == db.payments[id])
  {
  }

  /** The wallet checkout whose provisioning gave up leaves one confirmed payment and a paid order. */
  lemma GivenUp(db: Db, c: Payments.Checkout, env: Env)
    requires CanCheckout(db, c) && BuysFromWallet(db, c) && env.work == GivesUp
    ensures var placed := CreateOrder(db, c, env).0;
      c.order in placed.orders && placed.orders[c.order] == Order(c.seller, c.amount, Paid, 0, 0)
  {
    hide Charge, Net;
  }

  lemma CanceledIsLost(db: Db, c: Payments.Checkout, env: Env, start: Opening)
    requires Inv(db, start) && CanCheckout(db, c) && BuysFromWallet(db, c) && env.work == GivesUp
    ensures Lost(CancelOrder(CreateOrder(db, c, env).0, c.seller, c.order).0, c.order)
  {
    forall id | id in db.payments ensures db.payments[id].order != Some(c.order) {
      LinkOf(db, id, start);
    }
    hide Inv, CreateOrder, Pays, PaidFor, Delivered;
    WalletCheckout(db, c, env);
    GivenUp(db, c, env);
  }
}
