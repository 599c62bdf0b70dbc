/** What one step does to a payment, told from what is known before the step. */
module MoneySteps {
  import opened Results
  import opened Ledger
  import opened Payments
  import opened PaymentRuns
  import opened MoneyTheorems
  import opened Hex

  /** The payment a step is about. */
  function Target(s: Step): Option<Id> {
    match s
    case Prove(id, _, _) => Some(id)
    case Confirm(id, _) => Some(id)
    case Reject(_, id) => Some(id)
    case Callback(id, _, _, _) => Some(id)
    case PluginCall(_, id, _, _) => Some(id)
    case Verify(id, _, _) => Some(id)
    case _ => None
  }

  predicate Waits(p: Payment) {
    p.status == Pending || p.status == Review
  }

  predicate MayTouchOrder(db: Db, actor: Id, o: Id) {
    o in db.orders && (actor in db.owners || db.orders[o].admin == actor)
  }

  /** An owner, or the payment's own seller where it is for an order or for a customer's wallet. */
  predicate Entitled(db: Db, r: Id, p: Payment) {
    r in db.owners || (p.admin == r && (p.kind == ForOrder || p.customer.Some?))
  }

  /** 64 digits, each of either case. */
  predicate HexDigits(s: string) {
    |s| == 64 && forall i :: 0 <= i < 64 ==> ('0' <= s[i] <= '9' || 'a' <= s[i] <= 'f' || 'A' <= s[i] <= 'F')
  }

  lemma TxidIff(s: string)
    ensures IsTxid(s) <==> HexDigits(s)
  {
    forall i | 0 <= i < |s|
      ensures IsHex(Lower(s)[i]) <==> ('0' <= s[i] <= '9' || 'a' <= s[i] <= 'f' || 'A' <= s[i] <= 'F')
    {
      assert Lower(s)[i] == if 'A' <= s[i] <= 'Z' then (s[i] as int + 32) as char else s[i];
    }
  }

  /** A pending payment whose time ran out. */
  predicate OutOfTime(p: Payment, now: int) {
    p.status == Pending && p.expiresAt.Some? && p.expiresAt.value < now
  }

  /**
   A transaction id is filed: the payment takes proofs of this kind, in time, and no other payment carries the
   text.
   */
  ghost predicate Files(db: Db, id: Id, proof: Proof, now: int) {
    && id in db.payments
    && var p := db.payments[id];
       p.via == Usdt && p.status != Confirmed && p.status != Lapsed && !OutOfTime(p, now) && HexDigits(proof.txid)
       && forall q :: q in db.payments && q != id ==> db.payments[q].txid != Some(proof.txid)
  }

  /** The guards of the service are these. */
  lemma FilesIff(db: Db, id: Id, proof: Proof, now: int)
    ensures Files(db, id, proof, now)
       <==> (&& id in db.payments && db.payments[id].via == Usdt
             && db.payments[id].status != Confirmed && db.payments[id].status != Lapsed
             && !(db.payments[id].status == Pending && Overdue(db.payments[id], now))
             && IsTxid(proof.txid) && !TxidTaken(db, id, proof.txid))
  {
    TxidIff(proof.txid);
    hide IsTxid, HexDigits;
  }

  predicate Genuine(p: Payment, authority: string) {
    p.authority.None? || p.authority.value == authority
  }

  predicate PluginAccepts(p: Payment, plugin: Plugin, word: Word, declared: Option<int>) {
    && (plugin.master || p.admin == plugin.admin) && p.via in plugin.methods && Waits(p)
    && word == Good && plugin.autoConfirm
    && (declared.Some? ==> declared.value >= p.amount) && (plugin.maxAmount > 0 ==> p.amount <= plugin.maxAmount)
  }

  /** The guards under which a step confirms an open payment. */
  ghost predicate Confirms(db: Db, s: Step, env: Env, id: Id)
    requires id in db.payments
  {
    var p := db.payments[id];
    match s
    case Confirm(x, reviewer) =>
      x == id && (if reviewer.Some? then Entitled(db, reviewer.value, p) else p.status != Lapsed)
    case Prove(x, proof, chain) => x == id && Files(db, id, proof, env.now) && chain == Some(Found)
    case Callback(x, authority, ok, verified) =>
      x == id && ok && Genuine(p, authority) && verified == Some(true) && p.status != Lapsed
    case PluginCall(plugin, x, word, declared) => x == id && PluginAccepts(p, plugin, word, declared)
    case Verify(x, seen, answer) => 
      && x == id && answer == Found && p.status != Lapsed
      && seen.status == Review && seen.via == Usdt && seen.txid.Some? && !seen.mismatch && seen.tries < 40
    case Retry(actor, o) =>
      p.order == Some(o) && Waits(p) && MayTouchOrder(db, actor, o) && db.orders[o].status == OrderPending
    case _ => false
  }

  // ---------- what a step leaves alone ----------

  lemma ConfirmTouchesOne(db: Db, x: Id, reviewer: Option<Id>, env: Env)
    ensures var next := ConfirmPayment(db, x, reviewer, env).0;
      next.payments == db.payments
      || (x in db.payments && next.payments == db.payments[x := db.payments[x].(status := Confirmed)])
    ensures x in db.payments && db.payments[x].status != Confirmed
            && (if reviewer.Some? then CanReview(db, reviewer.value, db.payments[x])
              else db.payments[x].status != Lapsed)
      <==> ConfirmPayment(db, x, reviewer, env).0.payments != db.payments
  {
    if x in db.payments {
      OrderSettlesKeepPayments(WithStatus(db, x, Confirmed), x, env);
    }
    hide Settle;
  }

  /** The steps that change payments without naming one. */
  ghost predicate Sweeps(db: Db, s: Step, env: Env, p: Payment) {
    match s
    case Expire => OutOfTime(p, env.now)
    case Retry(actor, o) => p.order == Some(o) && Waits(p)
    case Cancel(actor, o) => p.order == Some(o) && Waits(p)
    case _ => false
  }

  /** A step changes an existing payment only when it names it or sweeps it up. */
  lemma OthersUntouched(db: Db, s: Step, env: Env, id: Id)
    requires Possible(db, s) && id in db.payments && Target(s) != Some(id) && !Sweeps(db, s, env, db.payments[id])
    ensures id in Call(db, s, env).0.payments && Call(db, s, env).0.payments[id] == db.payments[id]
  {
    hide ConfirmPayment, FulfillOrder, IsTxid, TxidTaken, OrderTouched, OrderActive, Charge, Credit, Debit;
    match s
    case Confirm(x, reviewer) => ConfirmTouchesOne(db, x, reviewer, env);
    case Prove(x, proof, _) =>
      if x in db.payments {
        ConfirmTouchesOne(WithPayment(db, x, Filed(db.payments[x], proof.txid)), x, None, env);
      }
    case Callback(x, _, _, _) => ConfirmTouchesOne(db, x, None, env);
    case PluginCall(_, x, _, _) => ConfirmTouchesOne(db, x, None, env);
    case Verify(x, _, _) => ConfirmTouchesOne(db, x, None, env);
    case Retry(actor, o) =>
      FulfillKeepsPayments(db, o, env);
      if o in db.orders {
        FulfillKeepsPayments(WithOrderPayments(WithOrder(db, o, Paid), o, Confirmed), o, env);
      }
    case Checkout(c) => CheckoutLeaves(db, c, env, id);
    case _ =>
  }

  lemma FulfillKeepsPayments(db: Db, o: Id, env: Env)
    ensures FulfillOrder(db, o, env).0.payments == db.payments
  {
  }

  lemma CheckoutLeaves(db: Db, c: Payments.Checkout, env: Env, id: Id)
    requires CanCheckout(db, c) && id in db.payments
    ensures var next := CreateOrder(db, c, env).0; id in next.payments && next.payments[id] == db.payments[id]
  {
    var placed := AddOrder(db, c.order, c.seller, c.amount);
    FulfillKeepsPayments(placed, c.order, env);
    if c.amount > 0 && c.via == FromWallet && c.customer.Some? {
      var p := NewPayment(ForOrder, FromWallet, Some(c.order), c.seller, c.customer, c.amount, None);
      var w := Debit(db.customers, c.customer.value, c.amount, Purchase, OrderRef(c.order)).0;
      ConfirmTouchesOne(WithPayment(placed, c.payment, p).(customers := w), c.payment, None, env);
    }
    hide ConfirmPayment, FulfillOrder, Charge, Credit, Debit;
  }

  /** A payment opened by a step carries no transaction id, and no top-up is opened confirmed. */
  lemma NewPayments(db: Db, s: Step, env: Env, id: Id)
    requires Possible(db, s) && id !in db.payments && id in Call(db, s, env).0.payments
    ensures var p := Call(db, s, env).0.payments[id]; p.txid.None? && (p.kind == ForTopup ==> p.status != Confirmed)
  {
    hide ConfirmPayment, FulfillOrder, IsTxid, TxidTaken, OrderTouched, OrderActive, Charge, Credit, Debit;
    match s
    case Confirm(x, reviewer) => ConfirmTouchesOne(db, x, reviewer, env);
    case Prove(x, proof, _) =>
      if x in db.payments {
        ConfirmTouchesOne(WithPayment(db, x, Filed(db.payments[x], proof.txid)), x, None, env);
      }
    case Callback(x, _, _, _) => ConfirmTouchesOne(db, x, None, env);
    case PluginCall(_, x, _, _) => ConfirmTouchesOne(db, x, None, env);
    case Verify(x, _, _) => ConfirmTouchesOne(db, x, None, env);
    case Retry(actor, o) =>
      FulfillKeepsPayments(db, o, env);
      if o in db.orders {
        FulfillKeepsPayments(WithOrderPayments(WithOrder(db, o, Paid), o, Confirmed), o, env);
      }
    case Checkout(c) => CheckoutOpens(db, c, env, id);
    case _ =>
  }

  lemma CheckoutOpens(db: Db, c: Payments.Checkout, env: Env, id: Id)
    requires CanCheckout(db, c) && id !in db.payments && id in CreateOrder(db, c, env).0.payments
    ensures var p := CreateOrder(db, c, env).0.payments[id]; p.txid.None? && p.kind == ForOrder
  {
    var placed := AddOrder(db, c.order, c.seller, c.amount);
    FulfillKeepsPayments(placed, c.order, env);
    if c.amount > 0 && c.via == FromWallet && c.customer.Some? {
      var p := NewPayment(ForOrder, FromWallet, Some(c.order), c.seller, c.customer, c.amount, None);
      var w := Debit(db.customers, c.customer.value, c.amount, Purchase, OrderRef(c.order)).0;
      ConfirmTouchesOne(WithPayment(placed, c.payment, p).(customers := w), c.payment, None, env);
    }
    hide ConfirmPayment, FulfillOrder, Charge, Credit, Debit;
  }

  // ---------- when a payment becomes confirmed ----------

  /** An open payment is confirmed by a step exactly when the step's guards hold. */
  lemma ConfirmsIff(db: Db, s: Step, env: Env, id: Id)
    requires Possible(db, s) && id in db.payments && db.payments[id].status != Confirmed
    ensures id in Call(db, s, env).0.payments
    ensures Call(db, s, env).0.payments[id].status == Confirmed <==> Confirms(db, s, env, id)
  {
    if Target(s) != Some(id) && !Sweeps(db, s, env, db.payments[id]) {
      OthersUntouched(db, s, env, id);
    } else if Target(s) == Some(id) {
      TargetConfirmsIff(db, s, env, id);
    } else {
      SweepConfirmsIff(db, s, env, id);
    }
  }

  lemma TargetConfirmsIff(db: Db, s: Step, env: Env, id: Id)
    requires id in db.payments && db.payments[id].status != Confirmed && Target(s) == Some(id)
    ensures id in Call(db, s, env).0.payments
    ensures Call(db, s, env).0.payments[id].status == Confirmed <==> Confirms(db, s, env, id)
  {
    if s.Prove? {
      FilesIff(db, id, s.proof, env.now);
    }
    hide Files, ConfirmPayment, IsTxid, TxidTaken;
    match s
    case Confirm(x, reviewer) => ConfirmTouchesOne(db, x, reviewer, env);
    case Prove(x, proof, _) => ConfirmTouchesOne(WithPayment(db, x, Filed(db.payments[x], proof.txid)), x, None, env);
    case Callback(x, _, _, _) => ConfirmTouchesOne(db, x, None, env);
    case PluginCall(_, x, _, _) => ConfirmTouchesOne(db, x, None, env);
    case Verify(x, _, _) => ConfirmTouchesOne(db, x, None, env);
    case Reject(_, _) =>
  }

  lemma SweepConfirmsIff(db: Db, s: Step, env: Env, id: Id)
    requires id in db.payments && db.payments[id].status != Confirmed && Sweeps(db, s, env, db.payments[id])
    ensures id in Call(db, s, env).0.payments
    ensures Call(db, s, env).0.payments[id].status == Confirmed <==> Confirms(db, s, env, id)
  {
    hide FulfillOrder, OrderTouched, OrderActive;
    if s.Retry? {
      FulfillKeepsPayments(db, s.order, env);
      if s.order in db.orders {
        FulfillKeepsPayments(WithOrderPayments(WithOrder(db, s.order, Paid), s.order, Confirmed), s.order, env);
      }
    }
  }

  function ReviewerOf(s: Step): Option<Id> {
    if s.Confirm? then s.reviewer else None
  }

  /** The tables a confirming step confirms in: a filed transaction id is written first. */
  function Prepared(db: Db, s: Step, id: Id): Db
    requires id in db.payments
  {
    if s.Prove? then WithPayment(db, id, Filed(db.payments[id], s.proof.txid)) else db
  }

  /** A step about a payment whose guards hold is one confirmation of it. */
  lemma ConfirmsByConfirming(db: Db, s: Step, env: Env, id: Id)
    requires id in db.payments && db.payments[id].status != Confirmed && Confirms(db, s, env, id) && !s.Retry?
    ensures Call(db, s, env).0 == ConfirmPayment(Prepared(db, s, id), id, ReviewerOf(s), env).0
    ensures if ReviewerOf(s).Some? then CanReview(db, ReviewerOf(s).value, db.payments[id])
      else db.payments[id].status != Lapsed
  {
    if s.Prove? {
      FilesIff(db, id, s.proof, env.now);
    }
    hide Files;
    hide ConfirmPayment, IsTxid, TxidTaken, CanReview;
  }

  // ---------- what only grows ----------

  /** Deliveries beyond the one a fulfilled order is due. */
  function Excess(o: Order): int {
    o.delivered - if o.status == Fulfilled then 1 else 0
  }

  /** Ledger rows are only added, and deliveries in excess never become fewer. */
  ghost predicate Grows(db: Db, next: Db) {
    && db.admins.rows <= next.admins.rows && db.customers.rows <= next.customers.rows
    && forall o :: o in db.orders ==> o in next.orders && Excess(next.orders[o]) >= Excess(db.orders[o])
  }

  lemma GrowsThen(a: Db, b: Db, c: Db)
    requires Grows(a, b) && Grows(b, c)
    ensures Grows(a, c)
  {
  }

  lemma FulfillGrows(db: Db, o: Id, env: Env)
    ensures Grows(db, FulfillOrder(db, o, env).0)
  {
  }

  lemma SettleGrows(db: Db, id: Id, env: Env)
    requires id in db.payments
    ensures Grows(db, Settle(db, id, env).0)
  {
    var p := db.payments[id];
    if p.kind == ForOrder && p.order.Some? && p.order.value in db.orders {
      var paid := WithOrder(db, p.order.value, Paid);
      FulfillGrows(paid, p.order.value, env);
      GrowsThen(db, paid, FulfillOrder(paid, p.order.value, env).0);
    }
    hide FulfillOrder, Settlements;
  }

  lemma ConfirmGrows(db: Db, id: Id, reviewer: Option<Id>, env: Env)
    ensures Grows(db, ConfirmPayment(db, id, reviewer, env).0)
  {
    if id in db.payments {
      SettleGrows(WithStatus(db, id, Confirmed), id, env);
    }
    hide Settle;
  }

  lemma WalletPayGrows(db: Db, id: Id, o: Id, customer: Id, fault: Fault, env: Env)
    requires o in db.orders
    ensures db.orders[o].status != Fulfilled ==> Grows(db, PayOrderWithWallet(db, id, o, customer, fault, env).0)
  {
    var order := db.orders[o];
    var p := NewPayment(ForOrder, FromWallet, Some(o), order.admin, Some(customer), order.amount, None);
    var (w, taken) := Debit(db.customers, customer, order.amount, Purchase, OrderRef(o));
    var debited := WithPayment(db, id, p).(customers := w);
    hide ConfirmPayment;
    ConfirmGrows(debited, id, None, env);
    assert Grows(db, debited);
    GrowsThen(db, debited, ConfirmPayment(debited, id, None, env).0);
  }

  lemma CheckoutGrows(db: Db, c: Payments.Checkout, env: Env)
    requires CanCheckout(db, c)
    ensures Grows(db, CreateOrder(db, c, env).0)
  {
    var placed := AddOrder(db, c.order, c.seller, c.amount);
    assert Grows(db, placed);
    var next := CreateOrder(db, c, env).0;
    FulfillGrows(placed, c.order, env);
    if c.amount > 0 && c.via == FromWallet && c.customer.Some? {
      WalletPayGrows(placed, c.payment, c.order, c.customer.value, c.fault, env);
    }
    hide FulfillOrder, PayOrderWithWallet;
    if next != db {
      GrowsThen(db, placed, next);
    }
  }

  lemma RetryGrows(db: Db, actor: Id, o: Id, env: Env)
    ensures Grows(db, RetryFulfill(db, actor, o, env).0)
  {
    FulfillGrows(db, o, env);
    if o in db.orders {
      var paid := WithOrderPayments(WithOrder(db, o, Paid), o, Confirmed);
      assert Grows(db, paid);
      FulfillGrows(paid, o, env);
      GrowsThen(db, paid, FulfillOrder(paid, o, env).0);
    }
    hide FulfillOrder;
  }

  lemma ProveGrows(db: Db, id: Id, proof: Proof, chain: Option<Chain>, env: Env)
    ensures Grows(db, SubmitProof(db, id, proof, chain, env).0)
  {
    hide ConfirmPayment, IsTxid, TxidTaken;
    if id in db.payments {
      var filed := WithPayment(db, id, Filed(db.payments[id], proof.txid));
      ConfirmGrows(filed, id, None, env);
      GrowsThen(db, filed, ConfirmPayment(filed, id, None, env).0);
    }
  }

  /** No step changes or removes a ledger row, and none undoes a surplus delivery. */
  lemma StepGrows(db: Db, s: Step, env: Env)
    requires Possible(db, s)
    ensures Grows(db, Call(db, s, env).0)
  {
    hide ConfirmPayment, CreateOrder, RetryFulfill, SubmitProof, OrderTouched, OrderActive;
    match s
    case Confirm(x, reviewer) => ConfirmGrows(db, x, reviewer, env);
    case Prove(x, proof, chain) => ProveGrows(db, x, proof, chain, env);
    case Callback(x, _, _, _) => ConfirmGrows(db, x, None, env);
    case PluginCall(_, x, _, _) => ConfirmGrows(db, x, None, env);
    case Verify(x, _, _) => ConfirmGrows(db, x, None, env);
    case Retry(actor, o) => RetryGrows(db, actor, o, env);
    case Checkout(c) => CheckoutGrows(db, c, env);
    case _ =>
  }

  lemma {:induction false} RunGrows(db: Db, run: Run, k: nat)
    requires k <= |run|
    ensures Grows(After(db, run[..k]), After(db, run))
  {
    if k == |run| {
      assert run[..k] == run;
    } else {
      var n := |run| - 1;
      var mid := After(db, run[..n]);
      assert run[..n][..k] == run[..k];
      RunGrows(db, run[..n], k);
      if Possible(mid, run[n].0) {
        StepGrows(mid, run[n].0, run[n].1);
        hide Grows;
        GrowsThen(After(db, run[..k]), mid, After(db, run));
      }
    }
  }
}
