/** What deleting a client puts back into its reseller's wallet. */
module Refunds {
  import opened Results
  import opened Ledger

  const GIB := 1073741824
  const DAY := 86400000

  datatype Client = Client(admin: Id, limit: nat, used: nat, expires: Option<int>, pendingDays: nat)

  datatype Rules = Rules(enabled: bool, percent: nat, minimum: nat)

  /** A reseller's unit prices; `billing` is off where nothing is charged. */
  datatype Prices = Prices(billing: bool, perGB: nat, perDay: nat)

  datatype Quote = Quote(charged: int, refunded: int, unusedGB: nat, remainingDays: nat, gross: nat, amount: nat)

  predicate OfClient(t: Tx, admin: Id, client: Id, kind: TxKind) {
    t.account == admin && t.ref == ClientRef(client) && t.kind == kind
  }

  function Charged(rows: seq<Tx>, admin: Id, client: Id): int {
    if rows == [] then 0
    else
      var t := rows[|rows| - 1];
      Charged(rows[..|rows| - 1], admin, client) - (if OfClient(t, admin, client, Purchase) then t.amount else 0)
  }

  function Refunded(rows: seq<Tx>, admin: Id, client: Id): int {
    if rows == [] then 0
    else
      var t := rows[|rows| - 1];
      Refunded(rows[..|rows| - 1], admin, client) + (if OfClient(t, admin, client, Refund) then t.amount else 0)
  }

  function UnusedGB(c: Client): nat {
    if c.limit > c.used then (c.limit - c.used) / GIB else 0
  }

  function RemainingDays(c: Client, now: int): nat {
    match c.expires
    case Some(at) => if at > now then (at - now + DAY - 1) / DAY else 0
    case None => c.pendingDays
  }

  function Gross(c: Client, p: Prices, now: int): nat {
    UnusedGB(c) * p.perGB + RemainingDays(c, now) * p.perDay
  }

  /** The amount credited, from the unused value and what is left of the charges. */
  function AmountOf(gross: nat, cap: int, rules: Rules): nat {
    var share := gross * rules.percent / 100;
    var amount := if share > cap then cap else share;
    if cap <= 0 || amount < rules.minimum then 0 else amount
  }

  function QuoteOf(w: Wallets, c: Client, id: Id, owner: bool, p: Prices, rules: Rules, now: int): Quote {
    var charged, refunded := Charged(w.rows, c.admin, id), Refunded(w.rows, c.admin, id);
    var gross := Gross(c, p, now);
    Quote(charged, refunded, UnusedGB(c), RemainingDays(c, now), gross,
          if owner || !rules.enabled || !p.billing then 0 else AmountOf(gross, charged - refunded, rules))
  }

  /** Percentages are at most 100. */
  predicate Sane(rules: Rules) { rules.percent <= 100 }

  // ---------- one quote ----------

  /**
   A quote never gives more than the agreed share of the unused value, nor more than was charged and not yet
   returned.
   */
  lemma AmountLimits(gross: nat, cap: int, rules: Rules)
    requires Sane(rules)
    ensures var a := AmountOf(gross, cap, rules);
      100 * a <= gross * rules.percent && a <= gross && (a > 0 ==> a <= cap && a >= rules.minimum)
    ensures AmountOf(gross, cap, rules) == 0 ==>
      (cap <= 0 || gross * rules.percent < 100 || gross * rules.percent < 100 * rules.minimum || cap < rules.minimum)
  {
    var product := gross * rules.percent;
    ShareAtMost(gross, rules.percent);
    assert 100 * (product / 100) <= product < 100 * (product / 100) + 100;
  }

  lemma ShareAtMost(gross: nat, percent: nat)
    requires percent <= 100
    ensures gross * percent <= gross * 100
  {
  }

  lemma ProductMono(a: nat, b: nat, k: nat)
    requires a <= b
    ensures a * k <= b * k
  {
  }

  lemma AmountMono(less: nat, more: nat, cap: int, rules: Rules)
    requires less <= more
    ensures AmountOf(less, cap, rules) <= AmountOf(more, cap, rules)
  {
    ProductMono(less, more, rules.percent);
    DivMono(less * rules.percent, more * rules.percent, 100);
  }

  lemma DivMono(x: nat, y: nat, d: nat)
    requires x <= y && d > 0
    ensures x / d <= y / d
  {
    var q := y / d;
    if x / d > q {
      ProductMono(q + 1, x / d, d);
      assert false;
    }
  }

  /** With the same ledger a quote never grows as traffic is used and time passes. */
  lemma QuoteFalls(w: Wallets, c: Client, id: Id, owner: bool, p: Prices, rules: Rules, now: int, later: int, used: nat)
    requires now <= later && c.used <= used
    ensures QuoteOf(w, c.(used := used), id, owner, p, rules, later).amount
      <= QuoteOf(w, c, id, owner, p, rules, now).amount
  {
    var d := c.(used := used);
    if d.limit > d.used {
      DivMono(d.limit - d.used, c.limit - c.used, GIB);
    }
    if c.expires.Some? && c.expires.value > later {
      DivMono(c.expires.value - later + DAY - 1, c.expires.value - now + DAY - 1, DAY);
    }
    ProductMono(UnusedGB(d), UnusedGB(c), p.perGB);
    ProductMono(RemainingDays(d, later), RemainingDays(c, now), p.perDay);
    assert Gross(d, p, later) <= Gross(c, p, now);
    hide Gross, AmountOf, Charged, Refunded;
    AmountMono(Gross(d, p, later), Gross(c, p, now), Charged(w.rows, c.admin, id) - Refunded(w.rows, c.admin, id),
      rules);
  }

  /** A client bought at the unit prices and deleted at once, unused, gives its whole price back. */
  lemma UnusedIsReturned(w: Wallets, id: Id, admin: Id, gb: nat, days: nat, cost: nat, p: Prices, rules: Rules,
                         now: int)
    requires rules.enabled && rules.percent == 100 && p.billing && cost >= rules.minimum
    requires cost == gb * p.perGB + days * p.perDay
    requires Charged(w.rows, admin, id) - Refunded(w.rows, admin, id) == cost
    ensures QuoteOf(w, Client(admin, gb * GIB, 0, Some(now + days * DAY), 0), id, false, p, rules, now).amount == cost
  {
    var c := Client(admin, gb * GIB, 0, Some(now + days * DAY), 0);
    hide Charged, Refunded;
    WholeUnits(gb, GIB);
    WholeUnits(days, DAY);
    assert UnusedGB(c) == gb;
    assert RemainingDays(c, now) == days;
    assert Gross(c, p, now) == cost;
    assert cost * 100 / 100 == cost;
  }

  lemma WholeUnits(n: nat, unit: nat)
    requires unit > 0
    ensures n * unit / unit == n && (n * unit + unit - 1) / unit == n && (n * unit > 0 <==> n > 0)
  {
    var x, y := n * unit, n * unit + unit - 1;
    Quotient(x, unit, n);
    Quotient(y, unit, n);
  }

  lemma Quotient(x: nat, unit: nat, n: nat)
    requires unit > 0 && n * unit <= x < n * unit + unit
    ensures x / unit == n
  {
    var q := x / unit;
    assert q * unit <= x < q * unit + unit;
    if q < n {
      ProductMono(q + 1, n, unit);
      assert false;
    } else if q > n {
      ProductMono(n + 1, q, unit);
      assert false;
    }
  }

  // ---------- runs ----------

  datatype Books = Books(wallets: Wallets, clients: map<Id, Client>)

  /** Outcomes that lie outside: whether the deletion threw and whether the credit failed. */
  datatype Outcome = Deleted | DeletionThrew | CreditFailed

  datatype Step =
    | Buy(client: Id, cost: nat, owner: bool, floor: nat)
    | Delete(client: Id, owner: bool, prices: Prices, rules: Rules, now: int, outcome: Outcome)
    | Write(client: Id, row: Client)
    | Other(admin: Id, amount: int, kind: TxKind, ref: Ref)

  function Removed(clients: map<Id, Client>, id: Id): map<Id, Client> {
    map c | c in clients && c != id :: clients[c]
  }

  /** Deleting a client: the quote is taken first, the credit follows the deletion. */
  function DeleteWithRefund(b: Books, id: Id, owner: bool, p: Prices, rules: Rules, now: int,
                            outcome: Outcome): (Books, nat) {
    if id !in b.clients || outcome == DeletionThrew then (b, 0)
    else
      var c := b.clients[id];
      var amount := QuoteOf(b.wallets, c, id, owner, p, rules, now).amount;
      var rest := Removed(b.clients, id);
      var (wallets, r) := Charge(b.wallets, c.admin, false, amount, Refund, ClientRef(id), None);
      if amount == 0 || outcome == CreditFailed || r != Ok then (Books(b.wallets, rest), 0)
      else (Books(wallets, rest), amount)
  }

  function Do(b: Books, s: Step): Books {
    match s
    case Buy(id, cost, owner, floor) =>
      if id !in b.clients then b
      else b.(wallets := Charge(b.wallets, b.clients[id].admin, owner, -(cost as int), Purchase, ClientRef(id),
        Some(floor)).0)
    case Delete(id, owner, p, rules, now, outcome) => DeleteWithRefund(b, id, owner, p, rules, now, outcome).0
    case Write(id, row) => b.(clients := b.clients[id := row])
    case Other(admin, amount, kind, ref) =>
      if ref.ClientRef? then b else b.(wallets := Charge(b.wallets, admin, false, amount, kind, ref, None).0)
  }

  ghost function Run(b: Books, run: seq<Step>): Books {
    if run == [] then b else Do(Run(b, run[..|run| - 1]), run[|run| - 1])
  }

  /** No reseller was ever given back more for a client than it was charged for it. */
  ghost predicate RefundsCovered(w: Wallets) {
    forall a, c :: 0 <= Refunded(w.rows, a, c) <= Charged(w.rows, a, c)
  }

  lemma PostMoves(w: Wallets, who: Id, amount: int, kind: TxKind, ref: Ref, a: Id, c: Id)
    requires who in w.balance
    ensures var v := Post(w, who, amount, kind, ref);
      var mine := who == a && ref == ClientRef(c);
      Charged(v.rows, a, c) == Charged(w.rows, a, c) - (if mine && kind == Purchase then amount else 0)
      && Refunded(v.rows, a, c) == Refunded(w.rows, a, c) + (if mine && kind == Refund then amount else 0)
  {
    var v := Post(w, who, amount, kind, ref);
    assert v.rows[..|v.rows| - 1] == w.rows;
  }

  /** Charges that are purchases or concern no client, and refunds within what is left, keep the cover. */
  lemma ChargeKeepsCover(w: Wallets, who: Id, owner: bool, amount: int, kind: TxKind, ref: Ref, floor: Option<nat>)
    requires RefundsCovered(w)
    requires ref.ClientRef? ==> ((kind == Purchase && amount <= 0)
      || (kind == Refund && 0 <= amount
        && (amount > 0 ==> amount <= Charged(w.rows, who, ref.id) - Refunded(w.rows, who, ref.id))))
    ensures RefundsCovered(Charge(w, who, owner, amount, kind, ref, floor).0)
  {
    var after := Charge(w, who, owner, amount, kind, ref, floor).0;
    if after != w {
      forall a, c ensures 0 <= Refunded(after.rows, a, c) <= Charged(after.rows, a, c) {
        assert 0 <= Refunded(w.rows, a, c) <= Charged(w.rows, a, c);
        PostMoves(w, who, amount, kind, ref, a, c);
        hide Charged, Refunded;
      }
    }
  }

  lemma StepKeepsCover(b: Books, s: Step)
    requires RefundsCovered(b.wallets) && (s.Delete? ==> Sane(s.rules))
    ensures RefundsCovered(Do(b, s).wallets)
  {
    match s
    case Buy(id, cost, owner, floor) =>
      if id in b.clients {
        ChargeKeepsCover(b.wallets, b.clients[id].admin, owner, -(cost as int), Purchase, ClientRef(id), Some(floor));
      }
    case Delete(id, owner, p, rules, now, outcome) =>
      if id in b.clients {
        var c := b.clients[id];
        var q := QuoteOf(b.wallets, c, id, owner, p, rules, now);
        AmountLimits(q.gross, q.charged - q.refunded, rules);
        hide AmountOf, Gross, Charged, Refunded, RefundsCovered;
        ChargeKeepsCover(b.wallets, c.admin, false, q.amount, Refund, ClientRef(id), None);
      }
    case Write(_, _) =>
    case Other(admin, amount, kind, ref) =>
      if !ref.ClientRef? {
        ChargeKeepsCover(b.wallets, admin, false, amount, kind, ref, None);
      }
  }

  ghost predicate AllSane(run: seq<Step>) {
    forall i :: 0 <= i < |run| && run[i].Delete? ==> Sane(run[i].rules)
  }

  /** Over any run of purchases, deletions, edits and other wallet moves, for every reseller and client. */
  lemma {:induction false} NeverOverRefunded(b: Books, run: seq<Step>)
    requires RefundsCovered(b.wallets) && AllSane(run)
    ensures RefundsCovered(Run(b, run).wallets)
  {
    if run != [] {
      NeverOverRefunded(b, run[..|run| - 1]);
      assert run[|run| - 1].Delete? ==> Sane(run[|run| - 1].rules);
      hide RefundsCovered, Do, Sane;
      StepKeepsCover(Run(b, run[..|run| - 1]), run[|run| - 1]);
    }
  }

  /** Bought and deleted at once the wallet is back where it was. */
  lemma BuyThenDelete(b: Books, id: Id, admin: Id, gb: nat, days: nat, cost: nat, p: Prices, rules: Rules, now: int,
                      floor: nat)
    requires id in b.clients && b.clients[id] == Client(admin, gb * GIB, 0, Some(now + days * DAY), 0)
    requires rules.enabled && rules.percent == 100 && p.billing && cost >= rules.minimum
    requires cost == gb * p.perGB + days * p.perDay
    requires admin in b.wallets.balance && b.wallets.balance[admin] - cost + floor >= 0
    requires Charged(b.wallets.rows, admin, id) == Refunded(b.wallets.rows, admin, id)
    ensures var bought := Do(b, Buy(id, cost, false, floor));
      var (end, refund) := DeleteWithRefund(bought, id, false, p, rules, now, Deleted);
      refund == cost && end.wallets.balance == b.wallets.balance && id !in end.clients
  {
    var mid := Do(b, Buy(id, cost, false, floor));
    if cost > 0 {
      PostMoves(b.wallets, admin, -(cost as int), Purchase, ClientRef(id), admin, id);
    }
    UnusedIsReturned(mid.wallets, id, admin, gb, days, cost, p, rules, now);
    hide Charged, Refunded, QuoteOf;
    ThereAndBack(b, id, cost, p, rules, now, floor);
  }

  lemma ThereAndBack(b: Books, id: Id, cost: nat, p: Prices, rules: Rules, now: int, floor: nat)
    requires id in b.clients && b.clients[id].admin in b.wallets.balance
    requires b.wallets.balance[b.clients[id].admin] - cost + floor >= 0
    requires QuoteOf(Do(b, Buy(id, cost, false, floor)).wallets, b.clients[id], id, false, p, rules, now).amount == cost
    ensures var bought := Do(b, Buy(id, cost, false, floor));
      var (end, refund) := DeleteWithRefund(bought, id, false, p, rules, now, Deleted);
      refund == cost && end.wallets.balance == b.wallets.balance && id !in end.clients
  {
    hide QuoteOf;
  }

  // ---------- the service ----------

  class RefundDesk {
    var wallets: Wallets
    var clients: map<Id, Client>

    ghost function State(): Books
      reads this
    {
      Books(wallets, clients)
    }

    constructor (b: Books)
      ensures State() == b
    {
      wallets, clients := b.wallets, b.clients;
    }

    method QuoteRefund(id: Id, owner: bool, p: Prices, rules: Rules, now: int) returns (q: Option<Quote>)
      ensures q == if id in clients then Some(QuoteOf(wallets, clients[id], id, owner, p, rules, now)) else None
    {
      if id !in clients {
        return None;
      }
      var client := clients[id];
      var charged, refunded := 0, 0;
      for i := 0 to |wallets.rows|
        invariant charged == Charged(wallets.rows[..i], client.admin, id)
        invariant refunded == Refunded(wallets.rows[..i], client.admin, id)
      {
        assert wallets.rows[..i + 1][..i] == wallets.rows[..i];
        var tx := wallets.rows[i];
        if OfClient(tx, client.admin, id, Purchase) {
          charged := charged - tx.amount;
        } else if OfClient(tx, client.admin, id, Refund) {
          refunded := refunded + tx.amount;
        }
      }
      assert wallets.rows[..|wallets.rows|] == wallets.rows;
      var gross := Gross(client, p, now);
      var base := Quote(charged, refunded, UnusedGB(client), RemainingDays(client, now), gross, 0);
      var cap := charged - refunded;
      if owner || !rules.enabled || !p.billing || cap <= 0 {
        return Some(base);
      }
      var amount := gross * rules.percent / 100;
      if amount > cap {
        amount := cap;
      }
      if amount <= 0 || amount < rules.minimum {
        return Some(base);
      }
      return Some(base.(amount := amount));
    }

    method DeleteClientWithRefund(id: Id, owner: bool, p: Prices, rules: Rules, now: int, outcome: Outcome)
      returns (refund: nat)
      modifies this
      ensures (State(), refund) == DeleteWithRefund(old(State()), id, owner, p, rules, now, outcome)
    {
      var quote := QuoteRefund(id, owner, p, rules, now);
      if outcome == DeletionThrew || id !in clients {
        return 0;
      }
      var admin := clients[id].admin;
      clients := Removed(clients, id);
      if quote.None? || quote.value.amount <= 0 {
        return 0;
      }
      var amount := quote.value.amount;
      if outcome == CreditFailed || admin !in wallets.balance {
        return 0;
      }
      wallets := Post(wallets, admin, amount, Refund, ClientRef(id));
      return amount;
    }
  }
}
