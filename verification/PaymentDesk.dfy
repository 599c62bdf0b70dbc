/**
 The service functions as they run: a desk holding the tables, whose methods
 update them one write at a time. Each method is proved to do exactly what the
 corresponding function of `Payments` says, and each public one to keep the
 invariant of the money tables, so that any use of a desk does.
 */
module PaymentDesk {
  import opened Results
  import opened Ledger
  import opened Payments
  import opened Hex
  import opened PaymentRuns
  import M = MoneyTheorems

  /** The money invariant survives, whatever the opening balances, and payments moved only as they may. */
  ghost predicate Kept(db: Db, next: Db) {
    forall start :: Keeps(db, next, start)
  }

  /** The invariant alone, over several steps. */
  ghost predicate StillGood(db: Db, next: Db) {
    forall start :: Inv(db, start) ==> Inv(next, start)
  }

  lemma StepKept(db: Db, s: M.Step, env: Env)
    requires M.Possible(db, s)
    ensures Kept(db, M.Call(db, s, env).0)
  {
    hide Keeps, M.Call, M.Possible;
    forall start ensures Keeps(db, M.Call(db, s, env).0, start) {
      M.StepKeeps(db, s, env, start);
    }
  }

  /** A top-up of existing accounts under a new id. */
  predicate FreshTopup(db: Db, id: Id, kind: Kind, order: Option<Id>, admin: Id, customer: Option<Id>) {
    kind == ForTopup && order.None? && id !in db.payments && admin in db.admins.balance
    && (customer.Some? ==> customer.value in db.customers.balance)
  }

  lemma TopupKept(db: Db, id: Id, kind: Kind, via: Method, order: Option<Id>, admin: Id, customer: Option<Id>,
                  amount: int, ttl: int, gateway: Gateway, env: Env)
    ensures FreshTopup(db, id, kind, order, admin, customer)
      ==> Kept(db, BeginPayment(db, id, kind, via, order, admin, customer, amount, ttl, gateway, env).0)
  {
    hide Kept, BeginPayment;
    if FreshTopup(db, id, kind, order, admin, customer) {
      StepKept(db, M.TopUp(id, via, admin, customer, amount, ttl, gateway), env);
    }
  }

  lemma MoveKept(db: Db, who: Id, owner: bool, amount: int, kind: TxKind, ref: Ref, floor: Option<nat>)
    ensures !ref.PaymentRef? ==> Kept(db, db.(admins := Charge(db.admins, who, owner, amount, kind, ref, floor).0))
  {
    hide Kept, Charge;
    if !ref.PaymentRef? {
      StepKept(db, M.MoveAdmin(who, owner, amount, kind, ref, floor), Env(0, 0, 0, GivesUp));
    }
  }

  lemma ExpireKept(db: Db, now: int)
    ensures Kept(db, ExpirePayments(db, now))
  {
    hide Kept, ExpirePayments;
    StepKept(db, M.Expire, Env(now, 0, 0, GivesUp));
  }

  lemma BatchStaysGood(db: Db, batch: seq<(Id, Payment)>, chain: map<Id, Chain>, env: Env)
    ensures StillGood(db, VerifyPending(db, batch, chain, env).0)
  {
    hide Inv, VerifyPending;
    forall start | Inv(db, start) ensures Inv(VerifyPending(db, batch, chain, env).0, start) {
      var k := M.BatchIsRun(db, batch, chain, env);
      M.RunKeeps(db, M.BatchSteps(batch[..k], chain, env), start);
    }
  }

  class Desk {
    var payments: map<Id, Payment>
    var orders: map<Id, Order>
    var adminCredit: map<Id, int>
    var adminRows: seq<Tx>
    var customerCredit: map<Id, int>
    var customerRows: seq<Tx>
    const owners: set<Id>
    const sellers: map<Id, Id>

    ghost function Tables(): Db
      reads this
    {
      Db(payments, orders, Wallets(adminCredit, adminRows), Wallets(customerCredit, customerRows), owners, sellers)
    }

    constructor (admins: map<Id, int>, customers: map<Id, int>, owners: set<Id>, sellers: map<Id, Id>)
      ensures Tables() == Db(map[], map[], Wallets(admins, []), Wallets(customers, []), owners, sellers)
      ensures (forall c :: c in customers ==> customers[c] >= 0) ==> Inv(Tables(), Opening(admins, customers))
    {
      M.EmptyIsGoodIf(Db(map[], map[], Wallets(admins, []), Wallets(customers, []), owners, sellers));
      hide Inv;
      this.owners, this.sellers := owners, sellers;
      payments, orders := map[], map[];
      adminCredit, adminRows := admins, [];
      customerCredit, customerRows := customers, [];
    }

    // ---------- wallets ----------

    method ChargeWallet(who: Id, owner: bool, amount: int, kind: TxKind, ref: Ref, floor: Option<nat>)
      returns (r: Reply)
      modifies this`adminCredit, this`adminRows
      ensures var (w, reply) := Charge(old(Tables().admins), who, owner, amount, kind, ref, floor);
              Tables() == old(Tables()).(admins := w) && r == reply
      ensures !ref.PaymentRef? ==> Kept(old(Tables()), Tables())
    {
      MoveKept(Tables(), who, owner, amount, kind, ref, floor);
      hide Kept;
      if (owner && kind == Purchase) || amount == 0 {
        return Ok;
      }
      if who !in adminCredit {
        return Thrown(NotFound);
      }
      var next := adminCredit[who] + amount;
      if amount < 0 && floor.Some? && next + floor.value < 0 {
        return Thrown(Insufficient);
      }
      adminCredit := adminCredit[who := next];
      adminRows := adminRows + [Tx(who, kind, amount, next, ref)];
      return Ok;
    }

    method CreditCustomer(who: Id, amount: int, kind: TxKind, ref: Ref) returns (r: Reply)
      modifies this`customerCredit, this`customerRows
      ensures var (w, reply) := Credit(old(Tables().customers), who, amount, kind, ref);
              Tables() == old(Tables()).(customers := w) && r == reply
    {
      if amount <= 0 {
        return Thrown(Invalid);
      }
      if who !in customerCredit {
        return Thrown(NotFound);
      }
      customerCredit := customerCredit[who := customerCredit[who] + amount];
      customerRows := customerRows + [Tx(who, kind, amount, customerCredit[who], ref)];
      return Ok;
    }

    method DebitCustomer(who: Id, amount: int, kind: TxKind, ref: Ref) returns (r: Reply)
      modifies this`customerCredit, this`customerRows
      ensures var (w, reply) := Debit(old(Tables().customers), who, amount, kind, ref);
              Tables() == old(Tables()).(customers := w) && r == reply
    {
      if amount <= 0 {
        return Thrown(Invalid);
      }
      if who !in customerCredit {
        return Thrown(NotFound);
      }
      if customerCredit[who] < amount {
        return Thrown(Insufficient);
      }
      customerCredit := customerCredit[who := customerCredit[who] - amount];
      customerRows := customerRows + [Tx(who, kind, -amount, customerCredit[who], ref)];
      return Ok;
    }

    method AdjustCustomer(actor: Id, who: Id, amount: int) returns (r: Reply)
      modifies this`customerCredit, this`customerRows
      ensures (Tables(), r) == AdjustCustomerCredit(old(Tables()), actor, who, amount)
      ensures Kept(old(Tables()), Tables())
    {
      StepKept(Tables(), M.AdjustCustomer(actor, who, amount), Env(0, 0, 0, GivesUp));
      hide Kept;
      if who !in customerCredit {
        return Thrown(NotFound);
      }
      if actor !in owners && !(who in sellers && sellers[who] == actor) {
        return Thrown(Forbidden);
      }
      if amount == 0 {
        return Thrown(Invalid);
      }
      if amount > 0 {
        r := CreditCustomer(who, amount, Adjust, AdminRef(actor));
      } else {
        r := DebitCustomer(who, -amount, Adjust, AdminRef(actor));
      }
    }

    // ---------- settling ----------

    method SetStatus(id: Id, s: Status)
      requires id in payments
      modifies this`payments
      ensures Tables() == WithStatus(old(Tables()), id, s)
    {
      payments := payments[id := payments[id].(status := s)];
    }

    method SetOrder(id: Id, s: OrderStatus)
      requires id in orders
      modifies this`orders
      ensures Tables() == WithOrder(old(Tables()), id, s)
    {
      orders := orders[id := orders[id].(status := s)];
    }

    /** Looks for the ledger row that already settles a payment. */
    method AlreadySettled(id: Id) returns (found: bool)
      ensures found <==> Settlements(customerRows, id) > 0
    {
      found := false;
      for i := 0 to |customerRows|
        invariant found <==> Settlements(customerRows[..i], id) > 0
      {
        SettlementsAppend(customerRows[..i], customerRows[i], id);
        assert customerRows[..i + 1] == customerRows[..i] + [customerRows[i]];
        if customerRows[i].ref == PaymentRef(id) {
          found := true;
        }
      }
      assert customerRows[..|customerRows|] == customerRows;
    }

    method SettleCustomer(id: Id, bonusPct: int) returns (r: Reply)
      modifies this`customerCredit, this`customerRows
      ensures (Tables(), r) == SettleCustomerTopup(old(Tables()), id, bonusPct)
    {
      if id !in payments {
        return Ok;
      }
      var p := payments[id];
      if p.customer.None? || p.kind != ForTopup || p.status != Confirmed {
        return Ok;
      }
      var already := AlreadySettled(id);
      if already {
        return Ok;
      }
      var bonus := 0;
      if bonusPct > 0 {
        bonus := p.amount * bonusPct / 100;
      }
      r := CreditCustomer(p.customer.value, p.amount + bonus, Topup, PaymentRef(id));
    }

    method Fulfill(id: Id, env: Env) returns (r: Reply)
      modifies this`orders, this`adminCredit, this`adminRows
      ensures (Tables(), r) == FulfillOrder(old(Tables()), id, env)
    {
      if id !in orders {
        return Thrown(NotFound);
      }
      var o := orders[id];
      if o.status == Fulfilled {
        return Ok;
      }
      if o.status != Paid {
        return Thrown(NotPaid);
      }
      if env.work == Throws {
        return Thrown(GatewayDown);
      }
      if env.work == GivesUp {
        return Ok;
      }
      var charged := ChargeWallet(
        o.admin, o.admin in owners, -(env.work.cost as int), Purchase, ClientRef(env.work.client),
        Some(env.creditLimit));
      // whatever breaks after the charge is caught, and the order stays paid
      if charged.Ok? {
        orders := orders[id := Provisioned(o, env.work)];
      }
      r := Ok;
    }

    method ConfirmPayment(id: Id, reviewer: Option<Id>, env: Env) returns (r: Reply)
      modifies this
      ensures (Tables(), r) == Payments.ConfirmPayment(old(Tables()), id, reviewer, env)
      ensures Kept(old(Tables()), Tables())
    {
      StepKept(Tables(), M.Confirm(id, reviewer), env);
      hide Kept;
      if id !in payments {
        return Thrown(NotFound);
      }
      var p := payments[id];
      if reviewer.Some? {
        var allowed := MayReview(reviewer.value, p);
        if !allowed {
          return Thrown(Forbidden);
        }
      }
      if p.status == Confirmed {
        return Ok;
      }
      if p.status == Lapsed && reviewer.None? {
        return Thrown(Expired);
      }
      SetStatus(id, Confirmed);
      if p.kind == ForTopup && p.customer.Some? {
        r := SettleCustomer(id, env.bonusPct);
      } else if p.kind == ForTopup {
        r := ChargeWallet(p.admin, false, p.amount, Topup, PaymentRef(id), Some(env.creditLimit));
      } else if p.order.Some? {
        if p.order.value !in orders {
          return Thrown(NotFound);
        }
        SetOrder(p.order.value, Paid);
        r := Fulfill(p.order.value, env);
      } else {
        r := Ok;
      }
    }

    method MayReview(actor: Id, p: Payment) returns (allowed: bool)
      ensures allowed <==> CanReview(Tables(), actor, p)
    {
      if actor in owners {
        return true;
      }
      if p.kind == ForOrder {
        return p.admin == actor;
      }
      return p.customer.Some? && p.admin == actor;
    }

    // ---------- reviewers, buyers, gateways ----------

    method RejectPayment(actor: Id, id: Id) returns (r: Reply)
      modifies this`payments
      ensures (Tables(), r) == Payments.RejectPayment(old(Tables()), actor, id)
      ensures Kept(old(Tables()), Tables())
    {
      StepKept(Tables(), M.Reject(actor, id), Env(0, 0, 0, GivesUp));
      hide Kept;
      if id !in payments {
        return Thrown(NotFound);
      }
      var allowed := MayReview(actor, payments[id]);
      if !allowed {
        return Thrown(Forbidden);
      }
      if payments[id].status == Confirmed {
        return Thrown(Conflict);
      }
      SetStatus(id, Rejected);
      r := Ok;
    }

    method FindTxid(id: Id, txid: string) returns (taken: bool)
      ensures taken <==> TxidTaken(Tables(), id, txid)
    {
      var ids := payments.Keys;
      taken := false;
      while ids != {}
        invariant ids <= payments.Keys
        invariant taken <==> exists q :: q in payments && q !in ids && q != id && payments[q].txid == Some(txid)
        decreases |ids|
      {
        var q :| q in ids;
        ids := ids - {q};
        if q != id && payments[q].txid == Some(txid) {
          taken := true;
        }
      }
    }

    method SubmitProof(id: Id, proof: Proof, chain: Option<Chain>, env: Env) returns (r: Reply)
      modifies this
      ensures (Tables(), r) == Payments.SubmitProof(old(Tables()), id, proof, chain, env)
      ensures Kept(old(Tables()), Tables())
    {
      StepKept(Tables(), M.Prove(id, proof, chain), env);
      hide Kept;
      if id !in payments {
        return Thrown(NotFound);
      }
      var p := payments[id];
      if p.status == Confirmed {
        return Ok;
      }
      if p.status == Lapsed || (p.status == Pending && p.expiresAt.Some? && p.expiresAt.value < env.now) {
        return Thrown(Expired);
      }
      if p.via == Usdt {
        if !IsTxid(proof.txid) {
          return Thrown(Invalid);
        }
        var taken := FindTxid(id, proof.txid);
        if taken {
          return Thrown(Conflict);
        }
        payments := payments[id := p.(txid := Some(proof.txid), status := Review, mismatch := false, tries := 0)];
        if chain.Some? {
          if chain.value == Found {
            r := ConfirmPayment(id, None, env);
            return;
          }
          payments := payments[id := payments[id].(mismatch := chain.value == Mismatch, tries := 1)];
        }
        return Ok;
      }
      if p.via == Card {
        if !proof.receipt {
          return Thrown(Invalid);
        }
        SetStatus(id, Review);
        return Ok;
      }
      return Thrown(Invalid);
    }

    method ZarinpalCallback(id: Id, authority: string, ok: bool, verified: Option<bool>, env: Env) returns (r: Reply)
      modifies this
      ensures (Tables(), r) == Payments.ZarinpalCallback(old(Tables()), id, authority, ok, verified, env)
      ensures Kept(old(Tables()), Tables())
    {
      StepKept(Tables(), M.Callback(id, authority, ok, verified), env);
      hide Kept;
      if id !in payments {
        return Thrown(NotFound);
      }
      var p := payments[id];
      if p.status == Confirmed {
        return Ok;
      }
      if !ok {
        SetStatus(id, Rejected);
        return Thrown(Conflict);
      }
      if p.authority.Some? && p.authority.value != authority {
        return Thrown(Conflict);
      }
      if verified.None? {
        return Thrown(Invalid);
      }
      if !verified.value {
        SetStatus(id, Rejected);
        return Thrown(GatewayDown);
      }
      r := ConfirmPayment(id, None, env);
    }

    method PluginCallback(plugin: Plugin, id: Id, word: Word, declared: Option<int>, env: Env) returns (r: Reply)
      modifies this
      ensures (Tables(), r) == Payments.PluginCallback(old(Tables()), plugin, id, word, declared, env)
      ensures Kept(old(Tables()), Tables())
    {
      StepKept(Tables(), M.PluginCall(plugin, id, word, declared), env);
      hide Kept;
      if id !in payments {
        return Thrown(NotFound);
      }
      var p := payments[id];
      if (!plugin.master && p.admin != plugin.admin) || p.via !in plugin.methods {
        return Thrown(Forbidden);
      }
      if p.status == Confirmed {
        return Ok;
      }
      if p.status != Pending && p.status != Review {
        return Ok;
      }
      if word == Bad {
        SetStatus(id, Rejected);
        return Ok;
      }
      var short := declared.Some? && declared.value < p.amount;
      var overCap := plugin.maxAmount > 0 && p.amount > plugin.maxAmount;
      if word == Unknown || short || overCap || !plugin.autoConfirm {
        SetStatus(id, Review);
        return Ok;
      }
      r := ConfirmPayment(id, None, env);
    }

    // ---------- workers ----------

    method CountActive(order: Id) returns (active: bool)
      ensures active <==> OrderActive(payments, order)
    {
      var ids := payments.Keys;
      active := false;
      while ids != {}
        invariant ids <= payments.Keys
        invariant active <==> exists q :: q in payments && q !in ids && HoldsOrder(payments[q], order)
        decreases |ids|
      {
        var q :| q in ids;
        ids := ids - {q};
        if HoldsOrder(payments[q], order) {
          active := true;
        }
      }
    }

    /** A waiting order lapses when none of its payments is open or confirmed. */
    method LapseOrder(o: Id)
      modifies this`orders
      ensures orders == if o in old(orders) && !OrderActive(payments, o) && old(orders)[o].status == OrderPending
                        then old(orders)[o := old(orders)[o].(status := OrderLapsed)] else old(orders)
    {
      var active := CountActive(o);
      if !active && o in orders && orders[o].status == OrderPending {
        SetOrder(o, OrderLapsed);
      }
    }

    method LapseStale(now: int) returns (touched: set<Id>)
      modifies this`payments
      ensures payments == Payments.ExpirePayments(old(Tables()), now).payments
      ensures forall o :: o in touched <==> OrderTouched(old(Tables()), o, now)
    {
      touched := set id | id in payments && Stale(payments[id], now) && payments[id].order.Some?
        :: payments[id].order.value;
      payments := map id | id in payments ::
        if Stale(payments[id], now) then payments[id].(status := Lapsed) else payments[id];
    }

    method ExpirePayments(now: int)
      modifies this`payments, this`orders
      ensures Tables() == Payments.ExpirePayments(old(Tables()), now)
      ensures Kept(old(Tables()), Tables())
    {
      ExpireKept(Tables(), now);
      hide Kept;
      hide OrderActive, OrderTouched;
      ghost var before, next := Tables(), Payments.ExpirePayments(Tables(), now);
      var touched := LapseStale(now);
      var todo := touched;
      while todo != {}
        invariant todo <= touched && payments == next.payments
        invariant orders.Keys == before.orders.Keys
        invariant forall o :: o in orders ==> orders[o] == (if o in todo then before.orders[o] else next.orders[o])
        decreases |todo|
      {
        var o :| o in todo;
        todo := todo - {o};
        assert OrderTouched(before, o, now);
        LapseOrder(o);
      }
      assert orders == next.orders;
    }

    method VerifyOne(id: Id, seen: Payment, answer: Chain, env: Env) returns (r: Reply)
      modifies this
      ensures (Tables(), r) == Payments.VerifyOne(old(Tables()), id, seen, answer, env)
      ensures Kept(old(Tables()), Tables())
    {
      StepKept(Tables(), M.Verify(id, seen, answer), env);
      hide Kept;
      if id !in payments || !Checkable(seen) {
        return Ok;
      }
      if answer == Found {
        r := ConfirmPayment(id, None, env);
      } else {
        payments := payments[id := payments[id].(mismatch := answer == Mismatch, tries := seen.tries + 1)];
        r := Ok;
      }
    }

    method VerifyPending(batch: seq<(Id, Payment)>, chain: map<Id, Chain>, env: Env) returns (r: Reply)
      modifies this
      ensures (Tables(), r) == Payments.VerifyPending(old(Tables()), batch, chain, env)
      ensures StillGood(old(Tables()), Tables())
    {
      BatchStaysGood(Tables(), batch, chain, env);
      hide StillGood, Kept;
      r := Ok;
      var i := 0;
      while i < |batch| && r.Ok?
        invariant i <= |batch|
        invariant (Tables(), r) == Payments.VerifyPending(old(Tables()), batch[..i], chain, env)
      {
        var (id, seen) := batch[i];
        assert batch[..i + 1][..i] == batch[..i];
        if id in chain {
          r := VerifyOne(id, seen, chain[id], env);
        }
        i := i + 1;
      }
      assert batch[..|batch|] == batch;
      StopsAtFirst(old(Tables()), batch, i, chain, env);
    }

    // ---------- the seller's hand ----------

    method SetOrderPayments(order: Id, s: Status)
      modifies this`payments
      ensures Tables() == WithOrderPayments(old(Tables()), order, s)
    {
      payments := map id | id in payments ::
        if payments[id].order == Some(order) && (payments[id].status == Pending || payments[id].status == Review)
        then payments[id].(status := s) else payments[id];
    }

    method RetryFulfill(actor: Id, id: Id, env: Env) returns (r: Reply)
      modifies this
      ensures (Tables(), r) == Payments.RetryFulfill(old(Tables()), actor, id, env)
      ensures Kept(old(Tables()), Tables())
    {
      StepKept(Tables(), M.Retry(actor, id), env);
      hide Kept;
      if id !in orders {
        return Thrown(NotFound);
      }
      if actor !in owners && orders[id].admin != actor {
        return Thrown(Forbidden);
      }
      if orders[id].status == OrderPending {
        SetOrder(id, Paid);
        SetOrderPayments(id, Confirmed);
      }
      r := Fulfill(id, env);
    }

    method CancelOrder(actor: Id, id: Id) returns (r: Reply)
      modifies this`payments, this`orders
      ensures (Tables(), r) == Payments.CancelOrder(old(Tables()), actor, id)
      ensures Kept(old(Tables()), Tables())
    {
      StepKept(Tables(), M.Cancel(actor, id), Env(0, 0, 0, GivesUp));
      hide Kept;
      if id !in orders {
        return Thrown(NotFound);
      }
      if actor !in owners && orders[id].admin != actor {
        return Thrown(Forbidden);
      }
      if orders[id].status == Fulfilled {
        return Thrown(AlreadyDelivered);
      }
      SetOrderPayments(id, Rejected);
      SetOrder(id, Canceled);
      r := Ok;
    }

    // ---------- checkouts ----------

    method BeginPayment(id: Id, kind: Kind, via: Method, order: Option<Id>, admin: Id, customer: Option<Id>,
                        amount: int, ttl: int, gateway: Gateway, env: Env) returns (r: Reply)
      modifies this`payments
      ensures (Tables(), r)
           == Payments.BeginPayment(old(Tables()), id, kind, via, order, admin, customer, amount, ttl, gateway, env)
      ensures FreshTopup(old(Tables()), id, kind, order, admin, customer) ==> Kept(old(Tables()), Tables())
    {
      TopupKept(Tables(), id, kind, via, order, admin, customer, amount, ttl, gateway, env);
      hide Kept, FreshTopup;
      if gateway == Refuses || amount <= 0 {
        return Thrown(Invalid);
      }
      var p := NewPayment(kind, via, order, admin, None, amount, Some(env.now + ttl));
      if via == Usdt || via == Card {
        payments := payments[id := p];
      } else if via == Zarinpal {
        payments := payments[id := p];
        if gateway == Fails {
          SetStatus(id, Rejected);
          assert payments == old(payments)[id := payments[id]];
          return Thrown(GatewayDown);
        }
        payments := payments[id := payments[id].(authority := Some(gateway.authority))];
      } else {
        return Thrown(Invalid);
      }
      payments := payments[id := payments[id].(customer := customer)];
      assert payments == old(payments)[id := payments[id]];
      r := Ok;
    }

    method PayOrderWithWallet(id: Id, order: Id, customer: Id, fault: Fault, env: Env) returns (r: Reply)
      requires order in orders
      modifies this
      ensures (Tables(), r) == Payments.PayOrderWithWallet(old(Tables()), id, order, customer, fault, env)
    {
      var amount := orders[order].amount;
      var admin := orders[order].admin;
      payments := payments[id := NewPayment(ForOrder, FromWallet, Some(order), admin, Some(customer), amount, None)];
      var taken := DebitCustomer(customer, amount, Purchase, OrderRef(order));
      if taken.Thrown? {
        SetStatus(id, Rejected);
        SetOrder(order, Canceled);
        return taken;
      }
      var confirmed := Thrown(GatewayDown);
      if fault == NoFault {
        confirmed := ConfirmPayment(id, None, env);
      }
      if confirmed.Ok? {
        return Ok;
      }
      if payments[id].status != Confirmed {
        if fault != RefundToo {
          var ignored := CreditCustomer(customer, amount, Refund, OrderRef(order));
        }
        SetStatus(id, Rejected);
        SetOrder(order, Canceled);
        return confirmed;
      }
      return Ok;
    }

    method CreateOrder(c: Checkout, env: Env) returns (r: Reply)
      modifies this
      ensures (Tables(), r) == Payments.CreateOrder(old(Tables()), c, env)
      ensures M.Possible(old(Tables()), M.Step.Checkout(c)) ==> Kept(old(Tables()), Tables())
    {
      if M.Possible(Tables(), M.Step.Checkout(c)) {
        StepKept(Tables(), M.Step.Checkout(c), env);
      }
      hide Kept;
      var payFromWallet := c.via == FromWallet && c.amount > 0;
      if payFromWallet {
        if c.customer.None? || c.customer.value !in customerCredit {
          return Thrown(Insufficient);
        }
        if customerCredit[c.customer.value] < c.amount {
          return Thrown(Insufficient);
        }
      }
      if c.amount > 0 && !c.allowed {
        return Thrown(Invalid);
      }
      orders := orders[c.order := Order(c.seller, c.amount, if c.amount <= 0 then Paid else OrderPending, 0, 0)];
      if c.amount <= 0 {
        r := Fulfill(c.order, env);
      } else if payFromWallet {
        r := PayOrderWithWallet(c.payment, c.order, c.customer.value, c.fault, env);
      } else {
        r := BeginPayment(c.payment, ForOrder, c.via, Some(c.order), c.seller, None, c.amount, c.ttl, c.gateway, env);
      }
    }
  }

  /** Once a batch threw, its remaining rows make no difference. */
  lemma {:induction false} StopsAtFirst(db: Db, batch: seq<(Id, Payment)>, i: nat, chain: map<Id, Chain>, env: Env)
    requires i <= |batch| && (i == |batch| || VerifyPending(db, batch[..i], chain, env).1.Thrown?)
    ensures VerifyPending(db, batch, chain, env) == VerifyPending(db, batch[..i], chain, env)
  {
    if i == |batch| {
      assert batch[..i] == batch;
    } else {
      var rest := batch[..|batch| - 1];
      assert rest[..i] == batch[..i];
      StopsAtFirst(db, rest, i, chain, env);
    }
  }
}
