/** The receipt a reseller sees before provisioning, and the checks the real call makes. Traffic is in whole GB. */
module WalletQuotes {
  import opened Results
  import opened Ledger

  const GIB := 1073741824

  datatype Reseller = Reseller(id: Id, owner: bool, expiresAt: Option<int>, clientLimit: Option<nat>,
                               quota: Option<nat>)

  datatype Pricing = Pricing(billing: bool, perGB: nat, perDay: nat, chargeOnRenew: bool, creditLimit: nat)

  /** What is asked for: the size when creating, only the added part when renewing. The client would be `unlimited`. */
  datatype Ask = Ask(gb: nat, days: nat, renew: bool, unlimited: bool)

  datatype Blocker = AccountExpired | CannotAfford | ClientLimitReached | UnlimitedUnderQuota | QuotaTooSmall

  datatype Receipt = Receipt(cost: nat, balance: int, after: int, affordable: bool, blockers: seq<Blocker>)

  function Cost(me: Reseller, p: Pricing, gb: nat, days: nat): nat {
    if me.owner || !p.billing then 0 else gb * p.perGB + days * p.perDay
  }

  function Allocated(clients: seq<nat>): nat {
    if clients == [] then 0 else Allocated(clients[..|clients| - 1]) + clients[|clients| - 1]
  }

  predicate IsExpired(me: Reseller, now: int) {
    me.expiresAt.Some? && me.expiresAt.value < now
  }

  /** `clients` are the traffic limits of the reseller's clients, 0 for none; the quota is in bytes. */
  function QuoteForActor(me: Reseller, p: Pricing, balance: int, clients: seq<nat>, ask: Ask, now: int): Receipt {
    var cost := Cost(me, p, ask.gb, ask.days);
    var shown := if me.owner then 0 else balance;
    var after := shown - cost;
    var affordable := cost <= 0 || after >= -(p.creditLimit as int);
    var remaining := if me.quota.Some? then me.quota.value - Allocated(clients) * GIB else 0;
    var left :=
      if me.clientLimit.Some? && me.clientLimit.value > |clients| then me.clientLimit.value - |clients| else 0;
    Receipt(cost, shown, after, affordable,
      if me.owner then []
      else
        (if IsExpired(me, now) then [AccountExpired] else [])
        + (if !affordable then [CannotAfford] else [])
        + (if !ask.renew && me.clientLimit.Some? && left == 0 then [ClientLimitReached] else [])
        + (if me.quota.None? then []
           else if ask.unlimited then [UnlimitedUnderQuota]
           else if ask.gb * GIB > remaining then [QuotaTooSmall] else []))
  }

  // ---------- the real calls ----------

  function Others(clients: seq<nat>, skip: Option<nat>): seq<nat>
    requires skip.Some? ==> skip.value < |clients|
  {
    if skip.None? then clients else clients[..skip.value] + clients[skip.value + 1..]
  }

  /** `skip` is the client being changed, whose own traffic does not count. */
  predicate QuotaAllows(me: Reseller, clients: seq<nat>, gb: nat, skip: Option<nat>, now: int)
    requires skip.Some? ==> skip.value < |clients|
  {
    me.owner || (
      && !IsExpired(me, now)
      && (me.clientLimit.Some? && skip.None? ==> |clients| < me.clientLimit.value)
      && (me.quota.Some? ==>
            (Allocated(Others(clients, skip)) + gb) * GIB <= me.quota.value))
  }

  predicate CanAfford(me: Reseller, p: Pricing, balance: int, cost: nat) {
    cost <= 0 || me.owner || balance - cost >= -(p.creditLimit as int)
  }

  predicate CreatePasses(me: Reseller, p: Pricing, balance: int, clients: seq<nat>, gb: nat, days: nat, now: int) {
    QuotaAllows(me, clients, gb, None, now) && CanAfford(me, p, balance, Cost(me, p, gb, days))
  }

  /** The traffic a renewal adds; a smaller size adds nothing, None leaves the size alone. */
  function Added(current: nat, size: Option<nat>): nat {
    if size.Some? && size.value > current then size.value - current else 0
  }

  function SizeAfter(current: nat, size: Option<nat>): nat {
    if size.Some? then size.value else current
  }

  predicate RenewPasses(me: Reseller, p: Pricing, balance: int, clients: seq<nat>, i: nat, size: Option<nat>, days: nat,
                        now: int)
    requires i < |clients|
  {
    var added := Added(clients[i], size);
    && (size.Some? ==> QuotaAllows(me, clients, size.value, Some(i), now))
    && (me.owner || (added == 0 && days == 0)
        || CanAfford(me, p, balance, if p.chargeOnRenew then Cost(me, p, added, days) else 0))
  }

  lemma {:induction false} AllocatedSplits(a: seq<nat>, b: seq<nat>)
    ensures Allocated(a + b) == Allocated(a) + Allocated(b)
  {
    if b == [] {
      assert a + b == a;
    } else {
      AllocatedSplits(a, b[..|b| - 1]);
      assert (a + b)[..|a + b| - 1] == a + b[..|b| - 1];
    }
  }

  lemma AllocatedWithout(clients: seq<nat>, i: nat)
    requires i < |clients|
    ensures Allocated(Others(clients, Some(i))) == Allocated(clients) - clients[i]
  {
    hide Allocated;
    var upTo, back := clients[..i + 1], clients[i + 1..];
    assert clients == upTo + back;
    AllocatedSplits(upTo, back);
    AllocatedSplits(clients[..i], back);
    AllocatedUpTo(clients, i);
  }

  lemma AllocatedUpTo(clients: seq<nat>, i: nat)
    requires i < |clients|
    ensures Allocated(clients[..i + 1]) == Allocated(clients[..i]) + clients[i]
  {
    assert clients[..i + 1][..i] == clients[..i];
  }

  /**
   A receipt for a new client has no blocker exactly when the call passes its checks, except that
   it also refuses a client without a traffic limit under a quota, which the call lets through.
   */
  lemma CreateReceiptIff(me: Reseller, p: Pricing, balance: int, clients: seq<nat>, gb: nat, days: nat, now: int)
    ensures QuoteForActor(me, p, balance, clients, Ask(gb, days, false, gb == 0), now).blockers == []
       <==> CreatePasses(me, p, balance, clients, gb, days, now) && (me.owner || gb > 0 || me.quota.None?)
  {
    hide Allocated, Cost, IsExpired;
  }

  /** The call accepts a client without a traffic limit from a reseller whose quota is used up. */
  lemma UnlimitedSlipsThrough(me: Reseller, p: Pricing, balance: int, clients: seq<nat>, now: int)
    requires !me.owner && !p.billing && me.expiresAt.None? && me.clientLimit.None?
      && me.quota == Some(Allocated(clients) * GIB)
    ensures CreatePasses(me, p, balance, clients, 0, 0, now)
    ensures QuoteForActor(me, p, balance, clients, Ask(0, 0, false, true), now).blockers == [UnlimitedUnderQuota]
  {
  }

  /** The receipt shown for renewing the i-th client. */
  function RenewReceipt(me: Reseller, p: Pricing, balance: int, clients: seq<nat>, i: nat, size: Option<nat>, days: nat,
                        now: int): Receipt
    requires i < |clients|
  {
    QuoteForActor(me, p, balance, clients, Ask(Added(clients[i], size), days, true, SizeAfter(clients[i], size) == 0),
      now)
  }

  /**
   A renewal's receipt is cautious: without a blocker the call passes. It refuses more than the call
   exactly where renewals are free of charge but not affordable; where the size is left alone or made
   smaller and the account is expired or over its quota; and where the client has no limit under a quota.
   */
  lemma RenewReceiptIff(me: Reseller, p: Pricing, balance: int, clients: seq<nat>, i: nat, size: Option<nat>, days: nat,
                        now: int)
    requires i < |clients|
    ensures RenewReceipt(me, p, balance, clients, i, size, days, now).blockers == []
       <==> (&& RenewPasses(me, p, balance, clients, i, size, days, now)
             && (p.chargeOnRenew || CanAfford(me, p, balance, Cost(me, p, Added(clients[i], size), days)))
             && ((size.Some? && size.value >= clients[i]) || QuotaAllows(me, clients, clients[i], Some(i), now))
             && (me.owner || me.quota.None? || SizeAfter(clients[i], size) > 0))
  {
    AllocatedWithout(clients, i);
    NothingIsFree(me, p);
    hide Allocated, Cost, IsExpired;
  }

  /** Days that cost nothing to add are still blocked by a balance that could not pay for them. */
  lemma FreeRenewalBlocked(me: Reseller, p: Pricing, balance: int, clients: seq<nat>, i: nat, days: nat, now: int)
    requires i < |clients| && !me.owner && me.expiresAt.None? && me.quota.None?
    requires p.billing && !p.chargeOnRenew && balance - days * p.perDay < -(p.creditLimit as int) && days * p.perDay > 0
    ensures RenewPasses(me, p, balance, clients, i, None, days, now)
    ensures RenewReceipt(me, p, balance, clients, i, None, days, now).blockers == [CannotAfford]
  {
    assert Cost(me, p, 0, days) == days * p.perDay;
    hide Cost;
  }

  /** The call lets an expired account add days to a client; the receipt does not. */
  lemma ExpiredAddsDays(me: Reseller, p: Pricing, balance: int, clients: seq<nat>, i: nat, days: nat, now: int)
    requires i < |clients| && !me.owner && IsExpired(me, now) && me.quota.None? && !p.billing
    ensures RenewPasses(me, p, balance, clients, i, None, days, now)
    ensures RenewReceipt(me, p, balance, clients, i, None, days, now).blockers == [AccountExpired]
  {
  }

  /** The call lets an account over its quota shrink a client until it fits; the receipt counts the old size. */
  lemma ShrinkBlocked(me: Reseller, p: Pricing, balance: int, clients: seq<nat>, i: nat, size: nat, now: int)
    requires i < |clients| && !me.owner && me.expiresAt.None? && !p.billing && 0 < size < clients[i]
    requires me.quota.Some?
      && (Allocated(clients) - clients[i] + size) * GIB <= me.quota.value < Allocated(clients) * GIB
    ensures RenewPasses(me, p, balance, clients, i, Some(size), 0, now)
    ensures RenewReceipt(me, p, balance, clients, i, Some(size), 0, now).blockers == [QuotaTooSmall]
  {
    var added := 0;
    assert Added(clients[i], Some(size)) == added && SizeAfter(clients[i], Some(size)) == size;
    AllocatedWithout(clients, i);
    hide Allocated, Others, RenewReceipt, QuoteForActor;
    assert QuotaAllows(me, clients, size, Some(i), now);
    hide QuotaAllows;
    OverQuota(me, p, balance, clients, now);
    RenewReceiptOf(me, p, balance, clients, i, Some(size), 0, now);
  }

  lemma OverQuota(me: Reseller, p: Pricing, balance: int, clients: seq<nat>, now: int)
    requires !me.owner && me.expiresAt.None? && !p.billing
    requires me.quota.Some? && me.quota.value < Allocated(clients) * GIB
    ensures QuoteForActor(me, p, balance, clients, Ask(0, 0, true, false), now).blockers == [QuotaTooSmall]
  {
    hide Allocated;
  }

  lemma RenewReceiptOf(me: Reseller, p: Pricing, balance: int, clients: seq<nat>, i: nat, size: Option<nat>, days: nat,
                       now: int)
    requires i < |clients|
    ensures RenewReceipt(me, p, balance, clients, i, size, days, now)
      == QuoteForActor(me, p, balance, clients,
                       Ask(Added(clients[i], size), days, true, SizeAfter(clients[i], size) == 0), now)
  {
    hide QuoteForActor;
  }

  lemma NothingIsFree(me: Reseller, p: Pricing)
    ensures Cost(me, p, 0, 0) == 0
  {
  }

  /** Once the checks pass, the wallet is charged what the receipt shows and ends at the balance it shows. */
  lemma ReceiptIsCharged(w: Wallets, me: Reseller, p: Pricing, clients: seq<nat>, gb: nat, days: nat, client: Id,
                         now: int)
    requires me.id in w.balance && !me.owner && CreatePasses(me, p, w.balance[me.id], clients, gb, days, now)
    ensures var receipt := QuoteForActor(me, p, w.balance[me.id], clients, Ask(gb, days, false, gb == 0), now);
      var (after, r) := Charge(w, me.id, me.owner, -(Cost(me, p, gb, days) as int), Purchase, ClientRef(client),
        Some(p.creditLimit));
      r == Ok && after.balance == w.balance[me.id := receipt.after]
  {
    hide Allocated, Cost, QuotaAllows;
    assert w.balance[me.id := w.balance[me.id]] == w.balance;
  }
}
