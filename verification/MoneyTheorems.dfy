/** The promises of the money machine, over every run of its calls. */
module MoneyTheorems {
  import opened Results
  import opened Ledger
  import opened Payments
  import opened PaymentRuns

  /** One call of a service function, with the outside answers it sees. */
  datatype Step =
    | Prove(id: Id, proof: Proof, chain: Option<Chain>)
    | Confirm(id: Id, reviewer: Option<Id>)
    | Reject(actor: Id, id: Id)
    | Callback(id: Id, authority: string, ok: bool, verified: Option<bool>)
    | PluginCall(plugin: Plugin, id: Id, word: Word, declared: Option<int>)
    | Expire
    | Verify(id: Id, seen: Payment, answer: Chain)
    | Retry(actor: Id, order: Id)
    | Cancel(actor: Id, order: Id)
    | Checkout(c: Payments.Checkout)
    | TopUp(id: Id, via: Method, admin: Id, customer: Option<Id>, amount: int, ttl: int, gateway: Gateway)
    | AdjustCustomer(actor: Id, who: Id, amount: int)
    | MoveAdmin(who: Id, owner: bool, amount: int, kind: TxKind, ref: Ref, floor: Option<nat>)

  /** Calls that would break a key or name a payment they do not settle cannot happen. */
  predicate Possible(db: Db, s: Step) {
    match s
    case Checkout(c) => CanCheckout(db, c)
    case TopUp(id, _, admin, customer, _, _, _) =>
      id !in db.payments && admin in db.admins.balance && (customer.Some? ==> customer.value in db.customers.balance)
    case MoveAdmin(_, _, _, _, ref, _) => !ref.PaymentRef?
    case _ => true
  }

  ghost function Call(db: Db, s: Step, env: Env): (Db, Reply) {
    match s
    case Prove(id, proof, chain) => SubmitProof(db, id, proof, chain, env)
    case Confirm(id, reviewer) => ConfirmPayment(db, id, reviewer, env)
    case Reject(actor, id) => RejectPayment(db, actor, id)
    case Callback(id, authority, ok, verified) => ZarinpalCallback(db, id, authority, ok, verified, env)
    case PluginCall(plugin, id, word, declared) => PluginCallback(db, plugin, id, word, declared, env)
    case Expire => (ExpirePayments(db, env.now), Ok)
    case Verify(id, seen, answer) => VerifyOne(db, id, seen, answer, env)
    case Retry(actor, order) => RetryFulfill(db, actor, order, env)
    case Cancel(actor, order) => CancelOrder(db, actor, order)
    case Checkout(c) => CreateOrder(db, c, env)
    case TopUp(id, via, admin, customer, amount, ttl, gateway) =>
      BeginPayment(db, id, ForTopup, via, None, admin, customer, amount, ttl, gateway, env)
    case AdjustCustomer(actor, customer, amount) => AdjustCustomerCredit(db, actor, customer, amount)
    case MoveAdmin(who, owner, amount, kind, ref, floor) =>
      var (w, r) := Charge(db.admins, who, owner, amount, kind, ref, floor);
      (db.(admins := w), r)
  }

  type Run = seq<(Step, Env)>

  ghost function After(db: Db, run: Run): Db {
    if run == [] then db
    else
      var mid := After(db, run[..|run| - 1]);
      var (s, env) := run[|run| - 1];
      if Possible(mid, s) then Call(mid, s, env).0 else mid
  }

  lemma AfterOne(db: Db, run: Run, i: nat)
    requires i < |run|
    ensures var mid := After(db, run[..i]);
            After(db, run[..i + 1]) == if Possible(mid, run[i].0) then Call(mid, run[i].0, run[i].1).0 else mid
  {
    assert run[..i + 1][..i] == run[..i];
  }

  // ---------- every step and every run ----------

  lemma StepKeeps(db: Db, s: Step, env: Env, start: Opening)
    requires Possible(db, s)
    ensures Keeps(db, Call(db, s, env).0, start)
  {
    hide Keeps;
    match s
    case Prove(id, proof, chain) => SubmitKeeps(db, id, proof, chain, env, start);
    case Confirm(id, reviewer) => ConfirmKeeps(db, id, reviewer, env, start);
    case Reject(actor, id) => RejectKeeps(db, actor, id, start);
    case Callback(id, authority, ok, verified) => ZarinpalKeeps(db, id, authority, ok, verified, env, start);
    case PluginCall(plugin, id, word, declared) => PluginKeeps(db, plugin, id, word, declared, env, start);
    case Expire => ExpireKeeps(db, env.now, start);
    case Verify(id, seen, answer) => VerifyOneKeeps(db, id, seen, answer, env, start);
    case Retry(actor, order) => RetryKeeps(db, actor, order, env, start);
    case Cancel(actor, order) => CancelKeeps(db, actor, order, start);
    case Checkout(c) => CheckoutKeeps(db, c, env, start);
    case TopUp(id, via, admin, customer, amount, ttl, gateway) =>
      BeginKeeps(db, id, ForTopup, via, None, admin, customer, amount, ttl, gateway, env, start);
    case AdjustCustomer(actor, customer, amount) =>
      CreditKeeps(db, customer, amount, Adjust, AdminRef(actor), start);
      DebitKeeps(db, customer, -amount, Adjust, AdminRef(actor), start);
      Unchanged(db, start);
    case MoveAdmin(who, owner, amount, kind, ref, floor) =>
      ChargeKeeps(db, who, owner, amount, kind, ref, floor, start);
  }

  /** Empty tables are a good start, whatever the wallets hold. */
  lemma EmptyIsGood(db: Db)
    requires db.payments == map[] && db.orders == map[] && db.admins.rows == [] && db.customers.rows == []
    requires forall c :: c in db.customers.balance ==> db.customers.balance[c] >= 0
    ensures Inv(db, Opening(db.admins.balance, db.customers.balance))
  {
    forall id ensures SettledOnce(db, id) {}
  }

  lemma EmptyIsGoodIf(db: Db)
    requires db.payments == map[] && db.orders == map[] && db.admins.rows == [] && db.customers.rows == []
    ensures (forall c :: c in db.customers.balance ==> db.customers.balance[c] >= 0)
      ==> Inv(db, Opening(db.admins.balance, db.customers.balance))
  {
    if forall c :: c in db.customers.balance ==> db.customers.balance[c] >= 0 {
      EmptyIsGood(db);
    }
  }

  lemma {:induction false} RunKeeps(db: Db, run: Run, start: Opening)
    requires Inv(db, start)
    ensures Inv(After(db, run), start)
  {
    if run != [] {
      hide Inv;
      var mid := After(db, run[..|run| - 1]);
      RunKeeps(db, run[..|run| - 1], start);
      var (s, env) := run[|run| - 1];
      if Possible(mid, s) {
        StepKeeps(mid, s, env, start);
      }
    }
  }

  /** A confirmed payment stays confirmed, with the same amount, parties and transaction id. */
  lemma {:induction false} ConfirmedForever(db: Db, run: Run, id: Id, start: Opening)
    requires Inv(db, start) && id in db.payments && db.payments[id].status == Confirmed
    ensures id in After(db, run).payments
    ensures var p, q := db.payments[id], After(db, run).payments[id];
            q.status == Confirmed && SameCore(p, q) && q.txid == p.txid
  {
    if run != [] {
      var mid := After(db, run[..|run| - 1]);
      RunKeeps(db, run[..|run| - 1], start);
      ConfirmedForever(db, run[..|run| - 1], id, start);
      var (s, env) := run[|run| - 1];
      if Possible(mid, s) {
        hide Inv, Call, Possible;
        StepKeeps(mid, s, env, start);
        assert EvolvedPayment(mid.payments[id], Call(mid, s, env).0.payments[id]);
      }
    }
  }

  // ---------- settlement ----------

  /** Rows of both ledgers that settle a payment. */
  function Credits(db: Db, id: Id): nat {
    Settlements(db.admins.rows, id) + Settlements(db.customers.rows, id)
  }

  lemma {:induction false} SettlementRow(rows: seq<Tx>, id: Id) returns (i: nat)
    requires Settlements(rows, id) >= 1
    ensures i < |rows| && rows[i].ref == PaymentRef(id)
  {
    if rows[|rows| - 1].ref == PaymentRef(id) {
      i := |rows| - 1;
    } else {
      i := SettlementRow(rows[..|rows| - 1], id);
    }
  }

  /**
   After any run: a top-up has exactly one row over both ledgers once it is confirmed and
   none before, an order payment never has one, and the row is in the wallet of its
   customer, with at least the amount, or else of its reseller, with exactly the amount.
   */
  lemma ExactlyOneCredit(db: Db, run: Run, id: Id, start: Opening)
    requires Inv(db, start)
    ensures var end := After(db, run);
      && Credits(end, id) == (if IsSettledTopup(end, id) then 1 else 0)
      && (IsSettledTopup(end, id) ==>
            var p := end.payments[id];
            if p.customer.Some? then
              exists i :: 0 <= i < |end.customers.rows| && end.customers.rows[i].ref == PaymentRef(id)
                && end.customers.rows[i].account == p.customer.value && end.customers.rows[i].amount >= p.amount
            else
              exists i :: 0 <= i < |end.admins.rows| && end.admins.rows[i].ref == PaymentRef(id)
                && end.admins.rows[i].account == p.admin && end.admins.rows[i].amount == p.amount)
  {
    RunKeeps(db, run, start);
    var end := After(db, run);
    assert SettledOnce(end, id);
    if IsSettledTopup(end, id) {
      if end.payments[id].customer.Some? {
        var i := SettlementRow(end.customers.rows, id);
        assert CustomerRowFits(end, end.customers.rows[i]);
      } else {
        var i := SettlementRow(end.admins.rows, id);
        assert AdminRowFits(end, end.admins.rows[i]);
      }
    }
  }

  /** After any run every balance is explained by its rows and no customer owes money. */
  lemma BooksBalance(db: Db, run: Run, start: Opening)
    requires Inv(db, start)
    ensures var end := After(db, run);
      && (forall a :: a in start.admins ==>
            a in end.admins.balance && end.admins.balance[a] == start.admins[a] + Total(end.admins.rows, a))
      && (forall c :: c in start.customers ==>
            c in end.customers.balance
            && end.customers.balance[c] == start.customers[c] + Total(end.customers.rows, c) >= 0)
  {
    RunKeeps(db, run, start);
  }

  // ---------- the batch worker is a run ----------

  ghost function BatchSteps(batch: seq<(Id, Payment)>, chain: map<Id, Chain>, env: Env): Run {
    if batch == [] then []
    else
      var (id, seen) := batch[|batch| - 1];
      BatchSteps(batch[..|batch| - 1], chain, env) + if id in chain then [(Verify(id, seen, chain[id]), env)] else []
  }

  lemma AfterMore(db: Db, run: Run, s: Step, env: Env)
    requires Possible(After(db, run), s)
    ensures After(db, run + [(s, env)]) == Call(After(db, run), s, env).0
  {
    assert (run + [(s, env)])[..|run|] == run;
  }

  /** The worker does its payments one by one and stops at the first exception: a run of single checks. */
  lemma {:induction false} BatchIsRun(db: Db, batch: seq<(Id, Payment)>, chain: map<Id, Chain>, env: Env)
    returns (k: nat)
    ensures k <= |batch| && (VerifyPending(db, batch, chain, env).1.Ok? ==> k == |batch|)
    ensures VerifyPending(db, batch, chain, env).0 == After(db, BatchSteps(batch[..k], chain, env))
  {
    if batch == [] {
      k := 0;
    } else {
      var rest := batch[..|batch| - 1];
      var (id, seen) := batch[|batch| - 1];
      var (mid, r) := VerifyPending(db, rest, chain, env);
      var steps := BatchSteps(rest, chain, env);
      assert VerifyPending(db, batch, chain, env)
        == if r.Thrown? then (mid, r) else if id in chain then VerifyOne(mid, id, seen, chain[id], env) else (mid, Ok);
      assert BatchSteps(batch, chain, env) == steps + if id in chain then [(Verify(id, seen, chain[id]), env)] else [];
      assert steps + [] == steps;
      hide VerifyPending, BatchSteps, VerifyOne, After;
      var j := BatchIsRun(db, rest, chain, env);
      assert batch[..j] == rest[..j] && rest[..|rest|] == rest && batch[..|batch|] == batch;
      if r.Thrown? {
        k := j;
      } else {
        k := |batch|;
        if id in chain {
          AfterMore(db, steps, Verify(id, seen, chain[id]), env);
        }
      }
    }
  }

  // ---------- one confirmation ----------

  /**
   Confirming an open top-up closes that payment and writes one row, for exactly the amount, plus the
   store's bonus for a customer; no other payment, order, balance or row changes.
   */
  lemma ConfirmCredits(db: Db, id: Id, reviewer: Option<Id>, env: Env, start: Opening)
    requires Inv(db, start) && id in db.payments && db.payments[id].kind == ForTopup
      && db.payments[id].status != Confirmed
    requires if reviewer.Some? then CanReview(db, reviewer.value, db.payments[id]) else db.payments[id].status != Lapsed
    ensures var p, (next, r) := db.payments[id], ConfirmPayment(db, id, reviewer, env);
      var paid := p.amount + (if p.customer.Some? then Bonus(p.amount, env.bonusPct) else 0);
      && r == Ok && next.orders == db.orders && next.payments == db.payments[id := p.(status := Confirmed)]
      && (if p.customer.Some? then
            var c, was := p.customer.value, db.customers;
            next.admins == db.admins && c in was.balance
            && next.customers.balance == was.balance[c := was.balance[c] + paid]
            && next.customers.rows == was.rows + [Tx(c, Topup, paid, was.balance[c] + paid, PaymentRef(id))]
          else
            var a, was := p.admin, db.admins;
            next.customers == db.customers && a in was.balance
            && next.admins.balance == was.balance[a := was.balance[a] + paid]
            && next.admins.rows == was.rows + [Tx(a, Topup, paid, was.balance[a] + paid, PaymentRef(id))])
  {
    LinkOf(db, id, start);
    var p := db.payments[id];
    assert Settlements(db.customers.rows, id) == 0 && p.admin in db.admins.balance && p.amount > 0;
    assert p.customer.Some? ==> p.customer.value in db.customers.balance;
    hide Inv, LinkedPayment, SettledOnce, Settlements, FulfillOrder;
    var confirmed := WithStatus(db, id, Confirmed);
    assert ConfirmPayment(db, id, reviewer, env) == Settle(confirmed, id, env);
    hide ConfirmPayment, CanReview, Bonus;
    if p.customer.Some? {
      assert Settle(confirmed, id, env) == SettleCustomerTopup(confirmed, id, env.bonusPct);
    }
  }

  /** A second confirmation, by anyone and with any settings, changes nothing. */
  lemma ConfirmTwice(db: Db, id: Id, first: Option<Id>, second: Option<Id>, env: Env, later: Env)
    requires ConfirmPayment(db, id, first, env).0 != db
    ensures var once := ConfirmPayment(db, id, first, env).0;
            ConfirmPayment(once, id, second, later).0 == once
  {
    OrderSettlesKeepPayments(WithStatus(db, id, Confirmed), id, env);
  }

  // ---------- paying from the wallet ----------

  /**
   A wallet purchase ends confirmed with exactly the price taken, or rejected and
   canceled with nothing taken, unless the compensating credit failed as well.
   */
  lemma WalletPurchase(db: Db, id: Id, o: Id, customer: Id, fault: Fault, env: Env, start: Opening)
    requires Inv(db, start) && o in db.orders && id !in db.payments && OrderUnpaid(db, o)
    requires db.orders[o].amount > 0 && customer in db.customers.balance
    ensures var next := PayOrderWithWallet(db, id, o, customer, fault, env).0;
      id in next.payments && o in next.orders && customer in next.customers.balance
    ensures var next := PayOrderWithWallet(db, id, o, customer, fault, env).0;
      Bought(db, next, id, o, customer, fault)
  {
    hide Inv, OrderUnpaid, PayOrderWithWallet, Total;
    PayOrderEnds(db, id, o, customer, fault, env);
    WalletMoves(db.customers, customer, db.orders[o].amount, o);
  }

  /** The wallet purchase told by what its debit answered. */
  lemma PayOrderEnds(db: Db, id: Id, o: Id, customer: Id, fault: Fault, env: Env)
    requires o in db.orders
    ensures var next := PayOrderWithWallet(db, id, o, customer, fault, env).0;
      var (w, taken) := Debit(db.customers, customer, db.orders[o].amount, Purchase, OrderRef(o));
      var back := Credit(w, customer, db.orders[o].amount, Refund, OrderRef(o)).0;
      && id in next.payments && o in next.orders
      && (if taken.Ok? && fault == NoFault then next.payments[id].status == Confirmed && next.customers == w
          else next.payments[id].status == Rejected && next.orders[o].status == Canceled
               && next.customers == if taken.Thrown? then db.customers else if fault == RefundToo then w else back)
  {
    var p := NewPayment(ForOrder, FromWallet, Some(o), db.orders[o].admin, Some(customer), db.orders[o].amount, None);
    var (w, taken) := Debit(db.customers, customer, db.orders[o].amount, Purchase, OrderRef(o));
    var debited := WithPayment(db, id, p).(customers := w);
    if taken.Ok? && fault == NoFault {
      OrderSettles(debited, id, env);
    }
    hide Credit, Debit, ConfirmPayment;
  }

  /** How a wallet purchase may end. */
  ghost predicate Bought(db: Db, next: Db, id: Id, o: Id, customer: Id, fault: Fault)
    requires o in db.orders && customer in db.customers.balance
    requires id in next.payments && o in next.orders && customer in next.customers.balance
  {
    var price, covered := db.orders[o].amount, db.customers.balance[customer] >= db.orders[o].amount;
    var paid := Total(db.customers.rows, customer) - Total(next.customers.rows, customer);
    var status := next.payments[id].status;
    && (status == Confirmed <==> covered && fault == NoFault)
    && (status == Confirmed ==> paid == price)
    && (status != Confirmed ==> status == Rejected && next.orders[o].status == Canceled)
    && (status != Confirmed ==> paid == if covered && fault == RefundToo then price else 0)
    && next.customers.balance[customer] == db.customers.balance[customer] - paid
  }

  lemma OrderSettles(db: Db, id: Id, env: Env)
    requires id in db.payments && db.payments[id].kind == ForOrder && db.payments[id].status == Pending
    requires db.payments[id].order.Some? && db.payments[id].order.value in db.orders
    ensures var next := ConfirmPayment(db, id, None, env).0;
      next.payments == db.payments[id := db.payments[id].(status := Confirmed)] && next.customers == db.customers
      && db.payments[id].order.value in next.orders
  {
  }

  /** The price leaves the wallet when it covers it, and a compensating credit brings it back. */
  lemma WalletMoves(w: Wallets, who: Id, price: int, o: Id)
    requires who in w.balance && price > 0
    ensures var (v, r) := Debit(w, who, price, Purchase, OrderRef(o));
      && (r.Ok? <==> w.balance[who] >= price) && who in v.balance
      && (r.Thrown? ==> v == w)
      && (r.Ok? ==> Total(v.rows, who) == Total(w.rows, who) - price && v.balance[who] == w.balance[who] - price)
      && (r.Ok? ==>
            var back := Credit(v, who, price, Refund, OrderRef(o)).0;
            who in back.balance && Total(back.rows, who) == Total(w.rows, who) && back.balance[who] == w.balance[who])
  {
    var v := Debit(w, who, price, Purchase, OrderRef(o)).0;
    if w.balance[who] >= price {
      TotalAppend(w.rows, v.rows[|w.rows|], who);
      var back := Credit(v, who, price, Refund, OrderRef(o)).0;
      TotalAppend(v.rows, back.rows[|v.rows|], who);
    }
  }

  // ---------- deliveries ----------

  /**
   A paid order is delivered exactly when the work succeeds and the seller can pay for it within the
   credit limit. A seller who can pay is charged exactly the cost, also by work that breaks after the
   charge and leaves the order paid and undelivered; in every other case nothing changes.
   */
  lemma DeliveryCharges(db: Db, o: Id, env: Env)
    requires o in db.orders && db.orders[o].status == Paid && db.orders[o].admin in db.admins.balance
    ensures var next, seller := FulfillOrder(db, o, env).0, db.orders[o].admin;
      var starts := env.work.Delivers? || env.work.BreaksAfterCharge?;
      var cost := if starts && seller !in db.owners then env.work.cost else 0;
      var pays := starts && (cost == 0 || db.admins.balance[seller] - cost >= -(env.creditLimit as int));
      && o in next.orders && (next.orders[o].status == Fulfilled <==> pays && env.work.Delivers?)
      && next.customers == db.customers && next.payments == db.payments
      && next.admins.balance == db.admins.balance[seller := db.admins.balance[seller] - if pays then cost else 0]
      && (!pays ==> next == db)
      && (pays && env.work.BreaksAfterCharge?
        ==> next.orders == db.orders[o := db.orders[o].(charged := db.orders[o].charged + 1)])
  {
    var seller := db.orders[o].admin;
    assert db.admins.balance[seller := db.admins.balance[seller]] == db.admins.balance;
  }
}
