/** What a refund is worth, told without its formula. */
module RefundLaws {
  import opened Results
  import opened Ledger
  import opened Refunds

  /** The largest whole gigabytes that fit into what is left of the traffic. */
  lemma UnusedIsLargest(c: Client, n: nat)
    ensures n <= UnusedGB(c) <==> n == 0 || n * 1073741824 <= c.limit - c.used
  {
    if c.limit > c.used {
      var left := c.limit - c.used;
      assert UnusedGB(c) * GIB <= left < UnusedGB(c) * GIB + GIB;
    }
  }

  /** The fewest whole days that reach the end of the client's time. */
  lemma DaysAreFewest(c: Client, now: int, n: nat)
    requires c.expires.Some?
    ensures RemainingDays(c, now) <= n <==> c.expires.value - now <= n * 86400000
  {
    if c.expires.value > now {
      var left := c.expires.value - now;
      var days := RemainingDays(c, now);
      assert days * DAY <= left + DAY - 1 < days * DAY + DAY;
    }
  }

  lemma PendingDays(c: Client, now: int)
    requires c.expires.None?
    ensures RemainingDays(c, now) == c.pendingDays
  {
  }

  /** What the ledger still holds of a client's charges. */
  function Left(w: Wallets, c: Client, id: Id): int {
    Charged(w.rows, c.admin, id) - Refunded(w.rows, c.admin, id)
  }

  /** The amount is within the share and within the charges. */
  predicate Fits(amount: int, w: Wallets, c: Client, id: Id, p: Prices, rules: Rules, now: int) {
    && 100 * amount <= (UnusedGB(c) * p.perGB + RemainingDays(c, now) * p.perDay) * rules.percent
    && amount <= Left(w, c, id)
  }

  /** Nothing is refunded to an owner, with refunds switched off, or where nothing is charged. */
  lemma NothingIsRefunded(w: Wallets, c: Client, id: Id, owner: bool, p: Prices, rules: Rules, now: int)
    requires owner || !rules.enabled || !p.billing || Left(w, c, id) <= 0
    ensures QuoteOf(w, c, id, owner, p, rules, now).amount == 0
  {
    hide Charged, Refunded, Gross;
  }

  /** Otherwise the refund is the largest amount that fits, unless even that is below the minimum. */
  lemma RefundIsLargest(w: Wallets, c: Client, id: Id, p: Prices, rules: Rules, now: int, amount: int)
    requires rules.enabled && p.billing && Left(w, c, id) > 0
    ensures var a := QuoteOf(w, c, id, false, p, rules, now).amount;
      && Fits(a, w, c, id, p, rules, now)
      && (Fits(amount, w, c, id, p, rules, now) && amount >= rules.minimum ==> amount <= a)
      && (a > 0 ==> a >= rules.minimum)
  {
    var product := (UnusedGB(c) * p.perGB + RemainingDays(c, now) * p.perDay) * rules.percent;
    assert product == Gross(c, p, now) * rules.percent;
    assert 100 * (product / 100) <= product < 100 * (product / 100) + 100;
    ProductIsNat(Gross(c, p, now), rules.percent);
    hide Charged, Refunded, Gross, UnusedGB, RemainingDays;
  }

  lemma ProductIsNat(a: nat, b: nat)
    ensures a * b >= 0
  {
  }

  /** A purchase or refund row counts for its own account and client alone. */
  lemma LedgerCounts(rows: seq<Tx>, t: Tx, admin: Id, client: Id)
    ensures Charged(rows + [t], admin, client)
      == Charged(rows, admin, client)
         - (if t.account == admin && t.ref == ClientRef(client) && t.kind == Purchase then t.amount else 0)
    ensures Refunded(rows + [t], admin, client)
      == Refunded(rows, admin, client)
         + (if t.account == admin && t.ref == ClientRef(client) && t.kind == Refund then t.amount else 0)
  {
    assert (rows + [t])[..|rows|] == rows;
  }

  lemma NoRows(admin: Id, client: Id)
    ensures Charged([], admin, client) == 0 && Refunded([], admin, client) == 0
  {
  }

  /**
   A deletion that throws changes nothing; one that works removes the client, and credits its reseller with
   the quote taken before, unless that is zero or the credit fails. No other balance, row or client changes.
   */
  lemma DeletionIff(b: Books, id: Id, owner: bool, p: Prices, rules: Rules, now: int, outcome: Outcome)
    requires id in b.clients && b.clients[id].admin in b.wallets.balance
    ensures var (next, refund) := DeleteWithRefund(b, id, owner, p, rules, now, outcome);
      var c := b.clients[id];
      var amount := QuoteOf(b.wallets, c, id, owner, p, rules, now).amount;
      var was := b.wallets.balance[c.admin];
      && (outcome == DeletionThrew ==> next == b && refund == 0)
      && (outcome != DeletionThrew ==>
            && (forall x :: x in next.clients <==> x in b.clients && x != id)
            && (forall x :: x in next.clients ==> next.clients[x] == b.clients[x])
            && refund == (if outcome == CreditFailed then 0 else amount)
            && (refund == 0 ==> next.wallets == b.wallets)
            && (refund > 0 ==> next.wallets.balance == b.wallets.balance[c.admin := was + refund]
                               && next.wallets.rows == b.wallets.rows
                                    + [Tx(c.admin, Refund, refund, was + refund, ClientRef(id))]))
  {
    hide QuoteOf;
  }

  /** A client that is not there is not refunded. */
  lemma NoClient(b: Books, id: Id, owner: bool, p: Prices, rules: Rules, now: int, outcome: Outcome)
    requires id !in b.clients
    ensures DeleteWithRefund(b, id, owner, p, rules, now, outcome) == (b, 0)
  {
  }
}
