/** How often an order is delivered. */
module Deliveries {
  import opened Results
  import opened Ledger
  import opened Payments
  import opened PaymentRuns
  import opened MoneyTheorems
  import opened MoneySteps
  import opened Hex

  /** A fulfilled order was delivered once, any other order never. */
  ghost predicate DeliveredOnce(db: Db) {
    forall o :: o in db.orders ==> Excess(db.orders[o]) == 0
  }

  ghost predicate Overdelivered(db: Db) {
    exists o :: o in db.orders && Excess(db.orders[o]) > 0
  }

  /** The step's guards let it confirm an open payment whose order is fulfilled already. */
  ghost predicate Repays(db: Db, s: Step, env: Env) {
    && Target(s).Some? && Target(s).value in db.payments
    && var p := db.payments[Target(s).value];
       p.status != Confirmed && p.order.Some? && p.order.value in db.orders
       && db.orders[p.order.value].status == Fulfilled && Confirms(db, s, env, Target(s).value)
  }

  lemma FulfillOnce(db: Db, o: Id, env: Env)
    requires DeliveredOnce(db)
    ensures DeliveredOnce(FulfillOrder(db, o, env).0)
  {
  }

  /** A confirmation that goes through, of a payment whose order is or is not fulfilled. */
  lemma ConfirmedOnce(db: Db, id: Id, reviewer: Option<Id>, env: Env)
    requires DeliveredOnce(db) && id in db.payments && LinkedPayment(db, db.payments[id])
    requires ConfirmPayment(db, id, reviewer, env).0.payments != db.payments
    ensures var next, p := ConfirmPayment(db, id, reviewer, env).0, db.payments[id];
      var again := p.order.Some? && p.order.value in db.orders && db.orders[p.order.value].status == Fulfilled;
      if again then Overdelivered(next) else DeliveredOnce(next)
  {
    var next, p := ConfirmPayment(db, id, reviewer, env).0, db.payments[id];
    if p.kind == ForOrder {
      var o := p.order.value;
      var paid := WithOrder(WithStatus(db, id, Confirmed), o, Paid);
      assert next == FulfillOrder(paid, o, env).0;
      if db.orders[o].status == Fulfilled {
        FulfillGrows(paid, o, env);
        assert Excess(paid.orders[o]) == 1;
        assert Excess(next.orders[o]) >= 1;
      } else {
        FulfillOnce(paid, o, env);
      }
    }
  }

  lemma UnconfirmedOnce(db: Db, id: Id, reviewer: Option<Id>, env: Env)
    requires ConfirmPayment(db, id, reviewer, env).0.payments == db.payments
    ensures ConfirmPayment(db, id, reviewer, env).0 == db
  {
    ConfirmTouchesOne(db, id, reviewer, env);
    if id in db.payments {
      OrderSettlesKeepPayments(WithStatus(db, id, Confirmed), id, env);
    }
    hide Settle;
  }

  /** The orders once a payment was confirmed, or left, by `ConfirmPayment`. */
  lemma ConfirmOnce(db: Db, id: Id, reviewer: Option<Id>, env: Env)
    requires DeliveredOnce(db) && Linked(db)
    ensures var next := ConfirmPayment(db, id, reviewer, env).0;
      var p := if id in db.payments then Some(db.payments[id]) else None;
      var confirms := p.Some? && p.value.status != Confirmed
        && (if reviewer.Some? then CanReview(db, reviewer.value, p.value) else p.value.status != Lapsed);
      var again := confirms && p.value.order.Some? && p.value.order.value in db.orders
        && db.orders[p.value.order.value].status == Fulfilled;
      if again then Overdelivered(next) else DeliveredOnce(next)
  {
    ConfirmTouchesOne(db, id, reviewer, env);
    if ConfirmPayment(db, id, reviewer, env).0.payments == db.payments {
      UnconfirmedOnce(db, id, reviewer, env);
    } else {
      ConfirmedOnce(db, id, reviewer, env);
    }
    hide ConfirmPayment;
  }

  lemma ProveOnce(db: Db, id: Id, proof: Proof, chain: Option<Chain>, env: Env, start: Opening)
    requires Inv(db, start) && DeliveredOnce(db)
    ensures var next := SubmitProof(db, id, proof, chain, env).0;
      if Repays(db, Prove(id, proof, chain), env) then Overdelivered(next) else DeliveredOnce(next)
  {
    FilesIff(db, id, proof, env.now);
    hide Files;
    hide ConfirmPayment, IsTxid;
    if Files(db, id, proof, env.now) && chain == Some(Found) {
      var p := db.payments[id];
      var filed := WithPayment(db, id, Filed(p, proof.txid));
      WithPaymentKeeps(db, id, Filed(p, proof.txid), start);
      ConfirmOnce(filed, id, None, env);
    }
  }

  lemma CheckoutOnce(db: Db, c: Payments.Checkout, env: Env)
    requires DeliveredOnce(db) && CanCheckout(db, c)
    ensures DeliveredOnce(CreateOrder(db, c, env).0)
  {
    var placed := AddOrder(db, c.order, c.seller, c.amount);
    FulfillOnce(placed, c.order, env);
    if c.amount > 0 && c.via == FromWallet && c.customer.Some? {
      WalletOnce(placed, c.payment, c.order, c.customer.value, c.fault, env);
    }
  }

  lemma WalletOnce(db: Db, id: Id, o: Id, customer: Id, fault: Fault, env: Env)
    requires DeliveredOnce(db) && o in db.orders && db.orders[o].status == OrderPending
    ensures DeliveredOnce(PayOrderWithWallet(db, id, o, customer, fault, env).0)
  {
    var order := db.orders[o];
    var p := NewPayment(ForOrder, FromWallet, Some(o), order.admin, Some(customer), order.amount, None);
    var (w, taken) := Debit(db.customers, customer, order.amount, Purchase, OrderRef(o));
    var debited := WithPayment(db, id, p).(customers := w);
    FulfillOnce(WithOrder(WithStatus(debited, id, Confirmed), o, Paid), o, env);
  }

  lemma RetryOnce(db: Db, actor: Id, o: Id, env: Env)
    requires DeliveredOnce(db)
    ensures DeliveredOnce(RetryFulfill(db, actor, o, env).0)
  {
    FulfillOnce(db, o, env);
    if o in db.orders && db.orders[o].status == OrderPending {
      FulfillOnce(WithOrderPayments(WithOrder(db, o, Paid), o, Confirmed), o, env);
    }
  }

  lemma ExpireOnce(db: Db, now: int)
    requires DeliveredOnce(db)
    ensures DeliveredOnce(ExpirePayments(db, now))
  {
  }

  lemma CancelOnce(db: Db, actor: Id, o: Id)
    requires DeliveredOnce(db)
    ensures DeliveredOnce(CancelOrder(db, actor, o).0)
  {
  }

  lemma SameOrdersOnce(db: Db, next: Db)
    requires DeliveredOnce(db) && next.orders == db.orders
    ensures DeliveredOnce(next)
  {
  }

  lemma NotBoth(db: Db)
    ensures !(DeliveredOnce(db) && Overdelivered(db))
  {
  }

  lemma ConfirmStepOnce(db: Db, id: Id, reviewer: Option<Id>, env: Env)
    requires DeliveredOnce(db) && Linked(db)
    ensures var next := ConfirmPayment(db, id, reviewer, env).0;
      if Repays(db, Confirm(id, reviewer), env) then Overdelivered(next) else DeliveredOnce(next)
  {
    ConfirmOnce(db, id, reviewer, env);
    hide ConfirmPayment, CanReview;
  }

  lemma OthersOnce(db: Db, s: Step, env: Env)
    requires DeliveredOnce(db) && Possible(db, s) && (Target(s).None? || s.Reject?)
    ensures !Repays(db, s, env) && DeliveredOnce(Call(db, s, env).0)
  {
    hide FulfillOrder, RetryFulfill, CreateOrder, ExpirePayments, CancelOrder, DeliveredOnce;
    match s
    case Retry(actor, o) => RetryOnce(db, actor, o, env);
    case Checkout(c) => CheckoutOnce(db, c, env);
    case Expire => ExpireOnce(db, env.now);
    case Cancel(actor, o) => CancelOnce(db, actor, o);
    case _ => SameOrdersOnce(db, Call(db, s, env).0);
  }

  /**
   From single deliveries a step that may repay a fulfilled order leaves a surplus delivery, and
   any other step keeps deliveries single.
   */
  lemma DeliveredOnceIff(db: Db, s: Step, env: Env, start: Opening)
    requires Inv(db, start) && Possible(db, s) && DeliveredOnce(db)
    ensures DeliveredOnce(Call(db, s, env).0) <==> !Repays(db, s, env)
    ensures Overdelivered(Call(db, s, env).0) <==> Repays(db, s, env)
  {
    assert Linked(db);
    hide Inv, Linked, DeliveredOnce, Overdelivered, Repays;
    NotBoth(Call(db, s, env).0);
    if Target(s).None? || s.Reject? {
      OthersOnce(db, s, env);
    } else {
      hide SubmitProof, ConfirmPayment, ZarinpalCallback, PluginCallback, Payments.VerifyOne, Possible;
      match s
      case Prove(id, proof, chain) => ProveOnce(db, id, proof, chain, env, start);
      case Confirm(id, reviewer) => ConfirmStepOnce(db, id, reviewer, env);
      case Callback(id, authority, ok, verified) => CallbackOnce(db, id, authority, ok, verified, env);
      case PluginCall(plugin, id, word, declared) => PluginOnce(db, plugin, id, word, declared, env);
      case Verify(id, seen, answer) => VerifyOnce(db, id, seen, answer, env);
    }
  }

  lemma CallbackOnce(db: Db, id: Id, authority: string, ok: bool, verified: Option<bool>, env: Env)
    requires DeliveredOnce(db) && Linked(db)
    ensures var next := ZarinpalCallback(db, id, authority, ok, verified, env).0;
      if Repays(db, Callback(id, authority, ok, verified), env) then Overdelivered(next) else DeliveredOnce(next)
  {
    ConfirmOnce(db, id, None, env);
    hide ConfirmPayment;
  }

  lemma PluginOnce(db: Db, plugin: Plugin, id: Id, word: Word, declared: Option<int>, env: Env)
    requires DeliveredOnce(db) && Linked(db)
    ensures var next := PluginCallback(db, plugin, id, word, declared, env).0;
      if Repays(db, PluginCall(plugin, id, word, declared), env) then Overdelivered(next) else DeliveredOnce(next)
  {
    ConfirmOnce(db, id, None, env);
    hide ConfirmPayment;
  }

  lemma VerifyOnce(db: Db, id: Id, seen: Payment, answer: Chain, env: Env)
    requires DeliveredOnce(db) && Linked(db)
    ensures var next := VerifyOne(db, id, seen, answer, env).0;
      if Repays(db, Verify(id, seen, answer), env) then Overdelivered(next) else DeliveredOnce(next)
  {
    ConfirmOnce(db, id, None, env);
    hide ConfirmPayment;
  }

  /** No step of the run may repay an order fulfilled by then. */
  ghost predicate NeverRepays(db: Db, run: Run) {
    run == [] || (
      && NeverRepays(db, run[..|run| - 1])
      && var mid := After(db, run[..|run| - 1]);
         (Possible(mid, run[|run| - 1].0) ==> !Repays(mid, run[|run| - 1].0, run[|run| - 1].1)))
  }

  lemma SurplusStays(db: Db, next: Db)
    requires Overdelivered(db) && Grows(db, next)
    ensures Overdelivered(next)
  {
  }

  /**
   A run keeps every order delivered at most once, and exactly once when fulfilled, if and only if
   none of its steps may repay a fulfilled order: a surplus delivery is never undone.
   */
  lemma {:induction false} DeliveredOnceOverRuns(db: Db, run: Run, start: Opening)
    requires Inv(db, start) && DeliveredOnce(db)
    ensures DeliveredOnce(After(db, run)) <==> NeverRepays(db, run)
    ensures Overdelivered(After(db, run)) <==> !NeverRepays(db, run)
  {
    NotBoth(After(db, run));
    if run != [] {
      var mid := After(db, run[..|run| - 1]);
      RunKeeps(db, run[..|run| - 1], start);
      DeliveredOnceOverRuns(db, run[..|run| - 1], start);
      var (s, env) := run[|run| - 1];
      hide Inv, DeliveredOnce, Overdelivered, Repays, Possible, Call, Grows;
      if Possible(mid, s) {
        if NeverRepays(db, run[..|run| - 1]) {
          DeliveredOnceIff(mid, s, env, start);
        } else {
          StepGrows(mid, s, env);
          SurplusStays(mid, Call(mid, s, env).0);
        }
      }
    }
  }

  // ---------- a run that delivers twice ----------

  const SHOP: Env := Env(10, 0, 0, Delivers(0, "client"))

  function OneSeller(): Db {
    Db(map[], map[], Wallets(map["seller" := 0], []), Wallets(map[], []), {}, map[])
  }

  /** The same shop with one card order in the given condition. */
  function OneOrder(payment: Status, order: OrderStatus, delivered: nat): Db {
    OneSeller().(
      payments := map["p" := NewPayment(ForOrder, Card, Some("o"), "seller", None, 1000, Some(70)).(status := payment)],
      orders := map["o" := Order("seller", 1000, order, delivered, delivered)])
  }

  lemma Handover()
    ensures var card := Payments.Checkout("o", "p", "seller", None, 1000, Card, true, 60, Fails, NoFault);
      CreateOrder(OneSeller(), card, SHOP).0
         == OneOrder(Pending, OrderPending, 0)
    ensures RejectPayment(OneOrder(Pending, OrderPending, 0), "seller", "p").0 == OneOrder(Rejected, OrderPending, 0)
    ensures RetryFulfill(OneOrder(Rejected, OrderPending, 0), "seller", "o", SHOP).0 == OneOrder(Rejected, Fulfilled, 1)
  {
  }

  lemma LateProof()
    ensures SubmitProof(OneOrder(Rejected, Fulfilled, 1), "p", Proof("", true), None, SHOP).0
      == OneOrder(Review, Fulfilled, 1)
    ensures ConfirmPayment(OneOrder(Review, Fulfilled, 1), "p", Some("seller"), SHOP).0
      == OneOrder(Confirmed, Fulfilled, 2)
  {
  }

  /**
   Rejected, handed over by the seller anyway, proved again and then confirmed: the
   order is delivered twice for one payment.
   */
  lemma DeliveredTwice() returns (run: Run)
    ensures After(OneSeller(), run) == OneOrder(Confirmed, Fulfilled, 2)
  {
    var card := Payments.Checkout("o", "p", "seller", None, 1000, Card, true, 60, Fails, NoFault);
    run := [
      (Step.Checkout(card), SHOP), (Reject("seller", "p"), SHOP), (Retry("seller", "o"), SHOP),
      (Prove("p", Proof("", true), None), SHOP), (Confirm("p", Some("seller")), SHOP)];
    Handover();
    LateProof();
    hide CreateOrder, RejectPayment, RetryFulfill, SubmitProof, ConfirmPayment, OneOrder;
    AfterOne(OneSeller(), run, 0);
    AfterOne(OneSeller(), run, 1);
    AfterOne(OneSeller(), run, 2);
    AfterOne(OneSeller(), run, 3);
    AfterOne(OneSeller(), run, 4);
    assert run[..0] == [] && run[..5] == run;
  }
}
