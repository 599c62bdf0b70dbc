/** The receipt before provisioning and the checks of the real calls, told by the account's own numbers. */
module QuoteLaws {
  import opened Results
  import opened Ledger
  import opened WalletQuotes

  /** The traffic limits of all clients together. */
  lemma AllocatedIs(clients: seq<nat>, gb: nat)
    ensures Allocated([]) == 0 && Allocated(clients + [gb]) == Allocated(clients) + gb
  {
    assert (clients + [gb])[..|clients|] == clients;
  }

  /** The end of the account's own time. */
  predicate Over(me: Reseller, now: int) {
    me.expiresAt.Some? && me.expiresAt.value < now
  }

  /** What the seller pays: the unit prices, or nothing for owners and where nothing is charged. */
  function Price(me: Reseller, p: Pricing, gb: nat, days: nat): nat {
    if !me.owner && p.billing then gb * p.perGB + days * p.perDay else 0
  }

  /** Every number and every blocker of a receipt. */
  lemma ReceiptSays(me: Reseller, p: Pricing, balance: int, clients: seq<nat>, ask: Ask, now: int)
    ensures var r := QuoteForActor(me, p, balance, clients, ask, now);
      var price := Price(me, p, ask.gb, ask.days);
      var poor := price > 0 && balance - price + p.creditLimit < 0;
      && r.cost == price && r.balance == (if me.owner then 0 else balance) && r.after == r.balance - price
      && (r.affordable <==> !poor)
      && (AccountExpired in r.blockers <==> !me.owner && Over(me, now))
      && (CannotAfford in r.blockers <==> poor)
      && (ClientLimitReached in r.blockers
          <==> !me.owner && !ask.renew && me.clientLimit.Some? && |clients| >= me.clientLimit.value)
      && (UnlimitedUnderQuota in r.blockers <==> !me.owner && me.quota.Some? && ask.unlimited)
      && (QuotaTooSmall in r.blockers
          <==> !me.owner && me.quota.Some? && !ask.unlimited
               && (Allocated(clients) + ask.gb) * 1073741824 > me.quota.value)
  {
    BlockersSay(me, p, balance, clients, ask, now);
    hide Allocated;
  }

  lemma BlockersSay(me: Reseller, p: Pricing, balance: int, clients: seq<nat>, ask: Ask, now: int)
    ensures var r := QuoteForActor(me, p, balance, clients, ask, now);
      && (me.owner ==> r.blockers == [])
      && (AccountExpired in r.blockers <==> !me.owner && IsExpired(me, now))
      && (CannotAfford in r.blockers <==> !me.owner && !r.affordable)
      && (ClientLimitReached in r.blockers
          <==> !me.owner && !ask.renew && me.clientLimit.Some? && |clients| >= me.clientLimit.value)
      && (UnlimitedUnderQuota in r.blockers <==> !me.owner && me.quota.Some? && ask.unlimited)
      && (QuotaTooSmall in r.blockers
          <==> !me.owner && me.quota.Some? && !ask.unlimited
               && ask.gb * GIB > me.quota.value - Allocated(clients) * GIB)
  {
    var full := !ask.renew && me.clientLimit.Some? && |clients| >= me.clientLimit.value;
    var small := ask.gb * GIB > (if me.quota.Some? then me.quota.value else 0) - Allocated(clients) * GIB;
    ReceiptParts(me, p, balance, clients, ask, now, full, small);
    var r := QuoteForActor(me, p, balance, clients, ask, now);
    hide QuoteForActor, Allocated, IsExpired;
    BlockerFlags(me, ask, IsExpired(me, now), !r.affordable, full, small);
    hide One, QuotaPart;
  }

  lemma BlockerFlags(me: Reseller, ask: Ask, over: bool, poor: bool, full: bool, small: bool)
    ensures var all := One(over, AccountExpired) + One(poor, CannotAfford) + One(full, ClientLimitReached)
                       + QuotaPart(me, ask, small);
      && (AccountExpired in all <==> over) && (CannotAfford in all <==> poor) && (ClientLimitReached in all <==> full)
      && (UnlimitedUnderQuota in all <==> me.quota.Some? && ask.unlimited)
      && (QuotaTooSmall in all <==> me.quota.Some? && !ask.unlimited && small)
  {
    InFour(One(over, AccountExpired), One(poor, CannotAfford), One(full, ClientLimitReached),
           QuotaPart(me, ask, small));
  }

  function One(blocks: bool, b: Blocker): seq<Blocker> {
    if blocks then [b] else []
  }

  function QuotaPart(me: Reseller, ask: Ask, small: bool): seq<Blocker> {
    if me.quota.None? then [] else if ask.unlimited then [UnlimitedUnderQuota] else One(small, QuotaTooSmall)
  }

  lemma ReceiptParts(me: Reseller, p: Pricing, balance: int, clients: seq<nat>, ask: Ask, now: int, full: bool,
                     small: bool)
    requires full <==> !ask.renew && me.clientLimit.Some? && |clients| >= me.clientLimit.value
    requires small <==> ask.gb * GIB > (if me.quota.Some? then me.quota.value else 0) - Allocated(clients) * GIB
    ensures var r := QuoteForActor(me, p, balance, clients, ask, now);
      r.blockers == if me.owner then []
                    else One(IsExpired(me, now), AccountExpired) + One(!r.affordable, CannotAfford)
                         + One(full, ClientLimitReached) + QuotaPart(me, ask, small)
  {
    hide Allocated, IsExpired, Cost;
  }

  lemma InFour(a: seq<Blocker>, b: seq<Blocker>, c: seq<Blocker>, d: seq<Blocker>)
    ensures forall x :: x in a + b + c + d <==> x in a || x in b || x in c || x in d
  {
  }

  /** A new client is let in exactly when account, count, quota and wallet allow it; owners always. */
  lemma CreateIff(me: Reseller, p: Pricing, balance: int, clients: seq<nat>, gb: nat, days: nat, now: int)
    ensures CreatePasses(me, p, balance, clients, gb, days, now)
       <==> (me.owner || (
               && !Over(me, now) && (me.clientLimit.Some? ==> |clients| < me.clientLimit.value)
               && (me.quota.Some? ==> (Allocated(clients) + gb) * 1073741824 <= me.quota.value)
               && (Price(me, p, gb, days) == 0 || balance - Price(me, p, gb, days) + p.creditLimit >= 0)))
  {
    hide Allocated;
  }

  /**
   A renewal is let in exactly when a new size fits the quota beside the other clients, on an account that
   has time left, and the added part can be paid for where renewals are charged.
   */
  lemma RenewIff(me: Reseller, p: Pricing, balance: int, clients: seq<nat>, i: nat, size: Option<nat>, days: nat,
                 now: int)
    requires i < |clients|
    ensures var more := if size.Some? && size.value > clients[i] then size.value - clients[i] else 0;
      var price := if p.chargeOnRenew then Price(me, p, more, days) else 0;
      RenewPasses(me, p, balance, clients, i, size, days, now)
      <==> (me.owner || (
              && (size.Some? ==>
                    && !Over(me, now)
                    && (me.quota.Some? ==>
                          (Allocated(clients) - clients[i] + size.value) * 1073741824 <= me.quota.value))
              && (price == 0 || balance - price + p.creditLimit >= 0)))
  {
    AllocatedWithout(clients, i);
    NothingIsFree(me, p);
    assert Price(me, p, 0, 0) == 0;
    hide Allocated, Others;
  }

  /** What a renewal's receipt is asked for: the added traffic, and whether the client has no limit afterwards. */
  lemma RenewalAsks(me: Reseller, p: Pricing, balance: int, clients: seq<nat>, i: nat, size: Option<nat>, days: nat,
                    now: int)
    requires i < |clients|
    ensures var more := if size.Some? && size.value > clients[i] then size.value - clients[i] else 0;
      var unlimited := size == Some(0) || (size.None? && clients[i] == 0);
      RenewReceipt(me, p, balance, clients, i, size, days, now)
      == QuoteForActor(me, p, balance, clients, Ask(more, days, true, unlimited), now)
  {
    hide QuoteForActor;
  }
}
