/** Packages a reseller buys for its own account, paid from its wallet. */
module ResellerPlans {
  import opened Results
  import opened Ledger

  const GIB := 1073741824
  const DAY := 86400000

  datatype Plan = Plan(id: Id, gb: nat, days: nat, clients: nat, price: nat, isActive: bool, offeredTo: set<Id>)

  datatype Catalogue = Catalogue(enabled: bool, plans: seq<Plan>)

  /** The limits of an account; None is unlimited. */
  datatype Limits = Limits(isActive: bool, quota: Option<int>, clients: Option<int>, expiresAt: Option<int>)

  datatype Found = Offered(plan: Plan) | Missing(error: Error)

  datatype Blocker =
    | InactivePlan | InactiveAccount | UnlimitedQuota | UnlimitedTime | UnlimitedClients | TooPoor | OwnerNeedsNone

  function FirstPlan(plans: seq<Plan>, id: Id): Option<Plan> {
    if plans == [] then None
    else if plans[0].id == id then Some(plans[0])
    else FirstPlan(plans[1..], id)
  }

  /** The plan this actor may see, as `planFor` finds it. */
  function PlanFor(c: Catalogue, actor: Id, owner: bool, id: Id): Found {
    if !c.enabled && !owner then Missing(Invalid)
    else match FirstPlan(c.plans, id)
      case None => Missing(NotFound)
      case Some(p) =>
        if !owner && p.offeredTo != {} && actor !in p.offeredTo then Missing(Forbidden) else Offered(p)
  }

  /** A package that adds nothing to an unlimited account is not sold to it. */
  function Blockers(me: Limits, p: Plan): seq<Blocker> {
    (if !p.isActive then [InactivePlan] else [])
    + (if !me.isActive then [InactiveAccount] else [])
    + (if p.gb > 0 && me.quota.None? then [UnlimitedQuota] else [])
    + (if p.days > 0 && me.expiresAt.None? then [UnlimitedTime] else [])
    + (if p.clients > 0 && me.clients.None? then [UnlimitedClients] else [])
  }

  /** The account after the package was added. */
  function Extended(me: Limits, p: Plan, now: int): Limits {
    me.(
      quota := if p.gb > 0 && me.quota.Some? then Some(me.quota.value + p.gb * GIB) else me.quota,
      clients := if p.clients > 0 && me.clients.Some? then Some(me.clients.value + p.clients) else me.clients,
      expiresAt := if p.days > 0 && me.expiresAt.Some?
        then Some((if now > me.expiresAt.value then now else me.expiresAt.value) + p.days * DAY) else me.expiresAt)
  }

  /** What may break while the package is being bought. */
  datatype Fault = NoFault | UpdateFails | RefundFailsToo

  class Account {
    const id: Id
    const owner: bool
    var credit: int
    var rows: seq<Tx>
    var limits: Limits

    constructor (id: Id, owner: bool, credit: int, limits: Limits)
      ensures this.id == id && this.owner == owner && this.credit == credit && this.limits == limits && rows == []
    {
      this.id, this.owner, this.credit, this.limits, rows := id, owner, credit, limits, [];
    }

    ghost function Wallet(): Wallets
      reads this
    {
      Wallets(map[id := credit], rows)
    }

    method Charge(amount: int, kind: TxKind, ref: Ref, floor: Option<nat>) returns (r: Reply)
      modifies this`credit, this`rows
      ensures (Wallet(), r) == Ledger.Charge(old(Wallet()), id, owner, amount, kind, ref, floor)
      ensures credit == old(credit) + if r.Ok? && !(owner && kind == Purchase) then amount else 0
    {
      if (owner && kind == Purchase) || amount == 0 {
        return Ok;
      }
      var next := credit + amount;
      if amount < 0 && floor.Some? && next + floor.value < 0 {
        return Thrown(Insufficient);
      }
      credit := next;
      rows := rows + [Tx(id, kind, amount, next, ref)];
      assert Wallet().balance == old(Wallet()).balance[id := next];
      return Ok;
    }

    /** The receipt shown before buying. */
    method Quote(c: Catalogue, planId: Id, creditLimit: nat)
      returns (found: Found, after: int, affordable: bool, blockers: seq<Blocker>)
      ensures found == PlanFor(c, id, owner, planId)
      ensures found.Offered?
        ==> after == credit - found.plan.price && (affordable <==> found.plan.price == 0 || after + creditLimit >= 0)
      ensures found.Offered? && owner ==> blockers == [OwnerNeedsNone]
      ensures found.Offered? && !owner
        ==> blockers == Blockers(limits, found.plan) + if affordable then [] else [TooPoor]
    {
      found, after, affordable, blockers := PlanFor(c, id, owner, planId), 0, false, [];
      if found.Offered? {
        after := credit - found.plan.price;
        affordable := found.plan.price <= 0 || after >= 0 - creditLimit;
        blockers := if owner then [OwnerNeedsNone] else Blockers(limits, found.plan);
        if !owner && !affordable {
          blockers := blockers + [TooPoor];
        }
      }
    }

    method Buy(c: Catalogue, planId: Id, creditLimit: nat, now: int, fault: Fault) returns (r: Reply)
      modifies this
      ensures var found := PlanFor(c, id, owner, planId);
        var sold := !owner && found.Offered? && Blockers(old(limits), found.plan) == []
                    && (found.plan.price == 0 || old(credit) - found.plan.price + creditLimit >= 0);
        // a sale takes exactly the price and adds exactly what is advertised
        && (r.Ok? <==> sold && fault == NoFault)
        && (r.Ok? ==> credit == old(credit) - found.plan.price && limits == Extended(old(limits), found.plan, now))
        // a failed purchase leaves the account alone; the wallet too, unless the refund failed as well
        && (r.Thrown? ==> limits == old(limits))
        && (r.Thrown? ==> credit == old(credit) - (if sold && fault == RefundFailsToo then found.plan.price else 0))
        && credit - Total(rows, id) == old(credit) - Total(old(rows), id)
    {
      if owner {
        return Thrown(Forbidden);
      }
      var found := PlanFor(c, id, owner, planId);
      if found.Missing? {
        return Thrown(found.error);
      }
      var plan := found.plan;
      var blockers := Blockers(limits, plan);
      if |blockers| > 0 {
        return Thrown(Invalid);
      }
      var charged := false;
      if plan.price > 0 {
        ghost var before := rows;
        var paid := Charge(0 - plan.price, Purchase, PlanRef(plan.id), Some(creditLimit));
        if paid.Thrown? {
          return paid;
        }
        charged := true;
        TotalAppend(before, rows[|before|], id);
      }
      assert credit == old(credit) - plan.price && credit - Total(rows, id) == old(credit) - Total(old(rows), id);
      if fault != NoFault {
        if charged && fault != RefundFailsToo {
          ghost var before := rows;
          var ignored := Charge(plan.price, Refund, PlanRef(plan.id), None);
          TotalAppend(before, rows[|before|], id);
        }
        assert credit == old(credit) - (if fault == RefundFailsToo then plan.price else 0);
        return Thrown(GatewayDown);
      }
      limits := Extended(limits, plan, now);
      return Ok;
    }
  }

  /** A package is found exactly when sales are on and its first entry is offered to the actor; owners see all. */
  lemma OfferedIff(c: Catalogue, actor: Id, owner: bool, id: Id, p: Plan)
    ensures PlanFor(c, actor, owner, id) == Offered(p)
       <==> (&& (c.enabled || owner) && (owner || p.offeredTo == {} || actor in p.offeredTo) && p.id == id
             && exists i :: 0 <= i < |c.plans| && c.plans[i] == p && forall j :: 0 <= j < i ==> c.plans[j].id != id)
  {
    FirstPlanIff(c.plans, id, p);
  }

  lemma {:induction false} FirstPlanIff(plans: seq<Plan>, id: Id, p: Plan)
    ensures FirstPlan(plans, id) == Some(p)
       <==> (p.id == id
             && exists i :: 0 <= i < |plans| && plans[i] == p && forall j :: 0 <= j < i ==> plans[j].id != id)
  {
    if plans != [] {
      var rest := plans[1..];
      FirstPlanIff(rest, id, p);
      if plans[0].id == id {
        assert FirstPlan(plans, id) == Some(plans[0]);
      } else {
        if i :| 0 <= i < |rest| && rest[i] == p && forall j :: 0 <= j < i ==> rest[j].id != id {
          assert plans[i + 1] == p;
          assert forall j :: 0 < j < i + 1 ==> plans[j] == rest[j - 1];
        }
        if i :| 0 <= i < |plans| && plans[i] == p && (forall j :: 0 <= j < i ==> plans[j].id != id) && p.id == id {
          assert i > 0 && rest[i - 1] == p;
          assert forall j :: 0 <= j < i - 1 ==> rest[j] == plans[j + 1];
        }
      }
    }
  }

  /** Nothing blocks a package exactly when it and the account are active and each part has a limit to extend. */
  lemma NoBlockerIff(me: Limits, p: Plan)
    ensures Blockers(me, p) == []
       <==> (&& p.isActive && me.isActive && (p.gb > 0 ==> me.quota.Some?)
             && (p.days > 0 ==> me.expiresAt.Some?) && (p.clients > 0 ==> me.clients.Some?))
  {
    var quota, time := p.gb > 0 && me.quota.None?, p.days > 0 && me.expiresAt.None?;
    var slots := p.clients > 0 && me.clients.None?;
    var front := (if !p.isActive then [InactivePlan] else []) + (if !me.isActive then [InactiveAccount] else []);
    assert |Blockers(me, p)| == |front| + (if quota then 1 else 0) + (if time then 1 else 0) + (if slots then 1 else 0);
  }

  /**
   An empty list of blockers on the receipt means: the package is sold, and every part of it counts in full,
   the days from the end of the account's time or from now, whichever is later. Nothing else changes.
   */
  lemma SoldPartsCount(me: Limits, p: Plan, now: int)
    requires Blockers(me, p) == []
    ensures var e := Extended(me, p, now);
      && (p.gb > 0 ==> me.quota.Some? && e.quota == Some(me.quota.value + p.gb * 1073741824))
      && (p.clients > 0 ==> me.clients.Some? && e.clients == Some(me.clients.value + p.clients))
      && (p.days > 0 ==> me.expiresAt.Some? && e.expiresAt.Some?)
      && (p.days > 0 && now <= me.expiresAt.value ==> e.expiresAt.value == me.expiresAt.value + p.days * 86400000)
      && (p.days > 0 && now > me.expiresAt.value ==> e.expiresAt.value == now + p.days * 86400000)
      && (p.gb == 0 ==> e.quota == me.quota) && (p.clients == 0 ==> e.clients == me.clients)
      && (p.days == 0 ==> e.expiresAt == me.expiresAt) && e.isActive == me.isActive
  {
    NoBlockerIff(me, p);
    hide Blockers;
  }

  /**
   The receipt and the till agree, for owners too: no blocker on the receipt exactly when the purchase goes
   through.
   */
  method QuoteThenBuy(a: Account, c: Catalogue, planId: Id, creditLimit: nat, now: int)
    returns (blockers: seq<Blocker>, r: Reply)
    modifies a
    ensures r.Ok? <==> PlanFor(c, a.id, a.owner, planId).Offered? && blockers == []
  {
    var found, after, affordable;
    found, after, affordable, blockers := a.Quote(c, planId, creditLimit);
    r := a.Buy(c, planId, creditLimit, now, NoFault);
  }
}
