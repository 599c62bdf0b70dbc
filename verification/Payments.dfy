/**
 The money tables and what one call of each service function does to them.

 A call is one function from the tables to the tables and a reply; whatever the
 call wrote before it threw stays written. Answers of the outside world (panel
 work, gateways, the chain, the clock, settings) are arguments.
 */
module Payments {
  import opened Results
  import opened Ledger
  import opened Hex

  datatype Kind = ForOrder | ForTopup

  datatype Method = Usdt | Card | Zarinpal | FromWallet | Manual

  datatype Status = Pending | Review | Confirmed | Rejected | Lapsed

  datatype OrderStatus = OrderPending | Paid | Fulfilled | Canceled | OrderLapsed

  datatype Payment = Payment(
    kind: Kind, via: Method, status: Status, order: Option<Id>, admin: Id, customer: Option<Id>,
    amount: int, expiresAt: Option<int>, txid: Option<string>, authority: Option<string>,
    mismatch: bool, tries: nat)

  /**
   `delivered` counts completed provisionings, each of which also bumps the plan's sold counter;
   `charged` counts those that got past the seller's charge. Both are kept by the model alone.
   */
  datatype Order = Order(admin: Id, amount: int, status: OrderStatus, delivered: nat, charged: nat)

  /** `sellers` tells whose customer an account is. */
  datatype Db = Db(
    payments: map<Id, Payment>, orders: map<Id, Order>, admins: Wallets, customers: Wallets,
    owners: set<Id>, sellers: map<Id, Id>)

  /**
   What provisioning an order does: it may charge the seller, break after the charge, give up, or throw before it
   starts.
   */
  datatype Work = Delivers(cost: nat, client: Id) | BreaksAfterCharge(cost: nat, client: Id) | GivesUp | Throws

  /** Answer of an on-chain lookup. */
  datatype Chain = Found | NotYet | Mismatch

  /** Settings and outside answers one call sees. */
  datatype Env = Env(now: int, creditLimit: nat, bonusPct: int, work: Work)

  // ---------- small updates ----------

  function WithPayment(db: Db, id: Id, p: Payment): Db {
    db.(payments := db.payments[id := p])
  }

  function WithStatus(db: Db, id: Id, s: Status): Db
    requires id in db.payments
  {
    WithPayment(db, id, db.payments[id].(status := s))
  }

  function WithOrder(db: Db, id: Id, s: OrderStatus): Db
    requires id in db.orders
  {
    db.(orders := db.orders[id := db.orders[id].(status := s)])
  }

  /** Moves every waiting payment of an order to one status. */
  function WithOrderPayments(db: Db, order: Id, s: Status): Db {
    db.(payments := map id | id in db.payments ::
      var p := db.payments[id];
      if p.order == Some(order) && (p.status == Pending || p.status == Review) then p.(status := s) else p)
  }

  predicate Overdue(p: Payment, now: int) {
    p.expiresAt.Some? && p.expiresAt.value < now
  }

  // ---------- settling ----------

  /** The bonus a store adds to a customer top-up. */
  function Bonus(amount: int, pct: int): int {
    if pct > 0 then amount * pct / 100 else 0
  }

  function SettleCustomerTopup(db: Db, id: Id, bonusPct: int): (Db, Reply) {
    if id !in db.payments then (db, Ok)
    else
      var p := db.payments[id];
      if p.customer.None? || p.kind != ForTopup || p.status != Confirmed then (db, Ok)
      else if Settlements(db.customers.rows, id) > 0 then (db, Ok)
      else
        var (w, r) := Credit(db.customers, p.customer.value, p.amount + Bonus(p.amount, bonusPct), Topup,
          PaymentRef(id));
        (db.(customers := w), r)
  }

  /** The seller pays for the client that is made for its order. */
  function ChargeSeller(db: Db, seller: Id, env: Env): (Wallets, Reply)
    requires env.work.Delivers? || env.work.BreaksAfterCharge?
  {
    Charge(db.admins, seller, seller in db.owners, -(env.work.cost as int), Purchase, ClientRef(env.work.client),
      Some(env.creditLimit))
  }

  /** An order whose provisioning got past the charge. */
  function Provisioned(o: Order, work: Work): Order {
    var paid := o.(charged := o.charged + 1);
    if work.Delivers? then paid.(status := Fulfilled, delivered := o.delivered + 1) else paid
  }

  function FulfillOrder(db: Db, id: Id, env: Env): (Db, Reply) {
    if id !in db.orders then (db, Thrown(NotFound))
    else
      var o := db.orders[id];
      if o.status == Fulfilled then (db, Ok)
      else if o.status != Paid then (db, Thrown(NotPaid))
      else match env.work
        case Throws => (db, Thrown(GatewayDown))
        case GivesUp => (db, Ok)
        case _ =>
          var (w, r) := ChargeSeller(db, o.admin, env);
          if r.Thrown? then (db, Ok)
          else (db.(admins := w, orders := db.orders[id := Provisioned(o, env.work)]), Ok)
  }

  predicate CanReview(db: Db, actor: Id, p: Payment) {
    actor in db.owners || (p.admin == actor && (p.kind == ForOrder || p.customer.Some?))
  }

  function ConfirmPayment(db: Db, id: Id, reviewer: Option<Id>, env: Env): (Db, Reply) {
    if id !in db.payments then (db, Thrown(NotFound))
    else
      var p := db.payments[id];
      if reviewer.Some? && !CanReview(db, reviewer.value, p) then (db, Thrown(Forbidden))
      else if p.status == Confirmed then (db, Ok)
      else if p.status == Lapsed && reviewer.None? then (db, Thrown(Expired))
      else Settle(WithStatus(db, id, Confirmed), id, env)
  }

  /** What follows the status change: one wallet is credited, or the order is marked paid and delivered. */
  function Settle(db: Db, id: Id, env: Env): (Db, Reply)
    requires id in db.payments
  {
    var p := db.payments[id];
    if p.kind == ForTopup && p.customer.Some? then SettleCustomerTopup(db, id, env.bonusPct)
    else if p.kind == ForTopup then
      var (w, r) := Charge(db.admins, p.admin, false, p.amount, Topup, PaymentRef(id), Some(env.creditLimit));
      (db.(admins := w), r)
    else if p.order.Some? then
      if p.order.value !in db.orders then (db, Thrown(NotFound))
      else FulfillOrder(WithOrder(db, p.order.value, Paid), p.order.value, env)
    else (db, Ok)
  }

  // ---------- reviewers and buyers ----------

  function RejectPayment(db: Db, actor: Id, id: Id): (Db, Reply) {
    if id !in db.payments then (db, Thrown(NotFound))
    else if !CanReview(db, actor, db.payments[id]) then (db, Thrown(Forbidden))
    else if db.payments[id].status == Confirmed then (db, Thrown(Conflict))
    else (WithStatus(db, id, Rejected), Ok)
  }

  /** The parts of a proof that matter: the transaction id, trimmed and without 0x, and whether there is a receipt. */
  datatype Proof = Proof(txid: string, receipt: bool)

  ghost predicate TxidTaken(db: Db, id: Id, txid: string) {
    exists q :: q in db.payments && q != id && db.payments[q].txid == Some(txid)
  }

  function Filed(p: Payment, txid: string): Payment {
    p.(txid := Some(txid), status := Review, mismatch := false, tries := 0)
  }

  /** `chain` is the on-chain answer where the store checks this payment automatically. */
  ghost function SubmitProof(db: Db, id: Id, proof: Proof, chain: Option<Chain>, env: Env): (Db, Reply) {
    if id !in db.payments then (db, Thrown(NotFound))
    else
      var p := db.payments[id];
      if p.status == Confirmed then (db, Ok)
      else if p.status == Lapsed || (p.status == Pending && Overdue(p, env.now)) then (db, Thrown(Expired))
      else match p.via
        case Usdt =>
          if !IsTxid(proof.txid) then (db, Thrown(Invalid))
          else if TxidTaken(db, id, proof.txid) then (db, Thrown(Conflict))
          else
            var filed := WithPayment(db, id, Filed(p, proof.txid));
            if chain == Some(Found) then ConfirmPayment(filed, id, None, env)
            else if chain.Some? then
              (WithPayment(filed, id, filed.payments[id].(mismatch := chain.value == Mismatch, tries := 1)), Ok)
            else (filed, Ok)
        case Card =>
          if !proof.receipt then (db, Thrown(Invalid)) else (WithStatus(db, id, Review), Ok)
        case _ => (db, Thrown(Invalid))
  }

  // ---------- gateways and workers ----------

  /** `verified` is the gateway's answer; None when the store has no merchant id. */
  function ZarinpalCallback(db: Db, id: Id, authority: string, ok: bool, verified: Option<bool>,
                            env: Env): (Db, Reply) {
    if id !in db.payments then (db, Thrown(NotFound))
    else
      var p := db.payments[id];
      if p.status == Confirmed then (db, Ok)
      else if !ok then (WithStatus(db, id, Rejected), Thrown(Conflict))
      else if p.authority.Some? && p.authority.value != authority then (db, Thrown(Conflict))
      else if verified.None? then (db, Thrown(Invalid))
      else if !verified.value then (WithStatus(db, id, Rejected), Thrown(GatewayDown))
      else ConfirmPayment(db, id, None, env)
  }

  datatype Plugin = Plugin(admin: Id, master: bool, methods: set<Method>, maxAmount: int, autoConfirm: bool)

  datatype Word = Good | Bad | Unknown

  /** A signed plugin call; `declared` is the amount the provider states. */
  function PluginCallback(db: Db, plugin: Plugin, id: Id, word: Word, declared: Option<int>, env: Env): (Db, Reply) {
    if id !in db.payments then (db, Thrown(NotFound))
    else
      var p := db.payments[id];
      if !plugin.master && p.admin != plugin.admin then (db, Thrown(Forbidden))
      else if p.via !in plugin.methods then (db, Thrown(Forbidden))
      else if p.status != Pending && p.status != Review then (db, Ok)
      else if word == Bad then (WithStatus(db, id, Rejected), Ok)
      else
        var short := declared.Some? && declared.value < p.amount;
        var overCap := plugin.maxAmount > 0 && p.amount > plugin.maxAmount;
        if word == Unknown || short || overCap || !plugin.autoConfirm then (WithStatus(db, id, Review), Ok)
        else ConfirmPayment(db, id, None, env)
  }

  predicate Stale(p: Payment, now: int) {
    p.status == Pending && Overdue(p, now)
  }

  ghost predicate OrderTouched(db: Db, order: Id, now: int) {
    exists id :: id in db.payments && Stale(db.payments[id], now) && db.payments[id].order == Some(order)
  }

  /** The payment still counts for its order. */
  predicate HoldsOrder(p: Payment, order: Id) {
    p.order == Some(order) && (p.status == Pending || p.status == Review || p.status == Confirmed)
  }

  ghost predicate OrderActive(payments: map<Id, Payment>, order: Id) {
    exists id :: id in payments && HoldsOrder(payments[id], order)
  }

  ghost function ExpirePayments(db: Db, now: int): Db {
    var lapsed := map id | id in db.payments ::
      if Stale(db.payments[id], now) then db.payments[id].(status := Lapsed) else db.payments[id];
    var orders := map o | o in db.orders ::
      if OrderTouched(db, o, now) && !OrderActive(lapsed, o) && db.orders[o].status == OrderPending
      then db.orders[o].(status := OrderLapsed) else db.orders[o];
    db.(payments := lapsed, orders := orders)
  }

  predicate Checkable(p: Payment) {
    p.status == Review && p.via == Usdt && p.txid.Some? && !p.mismatch && p.tries < 40
  }

  /** One payment of the USDT worker's batch; `seen` is the row as the batch query returned it. */
  function VerifyOne(db: Db, id: Id, seen: Payment, chain: Chain, env: Env): (Db, Reply) {
    if id !in db.payments || !Checkable(seen) then (db, Ok)
    else if chain == Found then ConfirmPayment(db, id, None, env)
    else (WithPayment(db, id, db.payments[id].(mismatch := chain == Mismatch, tries := seen.tries + 1)), Ok)
  }

  /** The batch runs in order and stops at the first exception. */
  function VerifyPending(db: Db, batch: seq<(Id, Payment)>, chain: map<Id, Chain>, env: Env): (Db, Reply) {
    if batch == [] then (db, Ok)
    else
      var (next, r) := VerifyPending(db, batch[..|batch| - 1], chain, env);
      if r.Thrown? then (next, r)
      else
        var (id, seen) := batch[|batch| - 1];
        if id in chain then VerifyOne(next, id, seen, chain[id], env) else (next, Ok)
  }

  function RetryFulfill(db: Db, actor: Id, id: Id, env: Env): (Db, Reply) {
    if id !in db.orders then (db, Thrown(NotFound))
    else if actor !in db.owners && db.orders[id].admin != actor then (db, Thrown(Forbidden))
    else if db.orders[id].status == OrderPending then
      FulfillOrder(WithOrderPayments(WithOrder(db, id, Paid), id, Confirmed), id, env)
    else FulfillOrder(db, id, env)
  }

  function CancelOrder(db: Db, actor: Id, id: Id): (Db, Reply) {
    if id !in db.orders then (db, Thrown(NotFound))
    else if actor !in db.owners && db.orders[id].admin != actor then (db, Thrown(Forbidden))
    else if db.orders[id].status == Fulfilled then (db, Thrown(AlreadyDelivered))
    else (WithOrder(WithOrderPayments(db, id, Rejected), id, Canceled), Ok)
  }

  // ---------- new payments and orders ----------

  function NewPayment(kind: Kind, via: Method, order: Option<Id>, admin: Id, customer: Option<Id>, amount: int,
                      expiresAt: Option<int>): Payment {
    Payment(kind, via, Pending, order, admin, customer, amount, expiresAt, None, None, false, 0)
  }

  /**
   What opening a payment meets outside: the store refuses it (method off, no coin rate, no
   merchant id), the gateway's request fails, or it is given the gateway's authority.
   */
  datatype Gateway = Refuses | Fails | Gives(authority: string)

  /** A row whose request failed is closed before it is tagged with the customer who asked for the top-up. */
  function BeginPayment(db: Db, id: Id, kind: Kind, via: Method, order: Option<Id>, admin: Id, customer: Option<Id>,
                        amount: int, ttl: int, gateway: Gateway, env: Env): (Db, Reply)
  {
    if amount <= 0 || gateway == Refuses then (db, Thrown(Invalid))
    else
      var p := NewPayment(kind, via, order, admin, customer, amount, Some(env.now + ttl));
      match via
      case Usdt => (WithPayment(db, id, p), Ok)
      case Card => (WithPayment(db, id, p), Ok)
      case Zarinpal =>
        if gateway == Fails then (WithPayment(db, id, p.(status := Rejected, customer := None)), Thrown(GatewayDown))
        else (WithPayment(db, id, p.(authority := Some(gateway.authority))), Ok)
      case _ => (db, Thrown(Invalid))
  }

  function AddOrder(db: Db, id: Id, admin: Id, amount: int): Db {
    db.(orders := db.orders[id := Order(admin, amount, if amount <= 0 then Paid else OrderPending, 0, 0)])
  }

  /** Where the confirmation of a wallet purchase may break down. */
  datatype Fault = NoFault | BeforeConfirm | RefundToo

  function PayOrderWithWallet(db: Db, id: Id, order: Id, customer: Id, fault: Fault, env: Env): (Db, Reply)
    requires order in db.orders
  {
    var o := db.orders[order];
    var begun := WithPayment(db, id,
      NewPayment(ForOrder, FromWallet, Some(order), o.admin, Some(customer), o.amount, None));
    var (w, taken) := Debit(db.customers, customer, o.amount, Purchase, OrderRef(order));
    if taken.Thrown? then (WithOrder(WithStatus(begun, id, Rejected), order, Canceled), taken)
    else
      var debited := begun.(customers := w);
      if fault == NoFault then
        // an exception after the payment was confirmed is swallowed
        (ConfirmPayment(debited, id, None, env).0, Ok)
      else
        var (back, _) := Credit(w, customer, o.amount, Refund, OrderRef(order));
        var restored := if fault == RefundToo then debited else debited.(customers := back);
        (WithOrder(WithStatus(restored, id, Rejected), order, Canceled), Thrown(GatewayDown))
  }

  /** `allowed` says whether the store has the chosen way of paying switched on. */
  datatype Checkout = Checkout(
    order: Id, payment: Id, seller: Id, customer: Option<Id>, amount: int, via: Method, allowed: bool, ttl: int,
    gateway: Gateway, fault: Fault)

  function CreateOrder(db: Db, c: Checkout, env: Env): (Db, Reply) {
    if c.amount > 0 && c.via == FromWallet
       && (c.customer.None? || c.customer.value !in db.customers.balance
         || db.customers.balance[c.customer.value] < c.amount)
    then (db, Thrown(Insufficient))
    else if c.amount > 0 && !c.allowed then (db, Thrown(Invalid))
    else
      var placed := AddOrder(db, c.order, c.seller, c.amount);
      if c.amount <= 0 then FulfillOrder(placed, c.order, env)
      else if c.via == FromWallet then
        PayOrderWithWallet(placed, c.payment, c.order, c.customer.value, c.fault, env)
      else BeginPayment(placed, c.payment, ForOrder, c.via, Some(c.order), c.seller, None, c.amount, c.ttl, c.gateway,
        env)
  }

  /** A manual change of a customer balance by its seller or an owner: positive adds, negative removes. */
  function AdjustCustomerCredit(db: Db, actor: Id, customer: Id, amount: int): (Db, Reply) {
    if customer !in db.customers.balance then (db, Thrown(NotFound))
    else if actor !in db.owners && !(customer in db.sellers && db.sellers[customer] == actor)
    then (db, Thrown(Forbidden))
    else if amount == 0 then (db, Thrown(Invalid))
    else
      var (w, r) := if amount > 0 then Credit(db.customers, customer, amount, Adjust, AdminRef(actor))
                    else Debit(db.customers, customer, -amount, Adjust, AdminRef(actor));
      (db.(customers := w), r)
  }
}
