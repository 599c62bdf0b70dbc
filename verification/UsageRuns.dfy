/** One remote client over runs of traffic, counter resets and syncs. */
module UsageRuns {
  import opened Results
  import opened UsageSync
  import opened UsageTotals

  /** Who, where and which remote client a link is about. */
  ghost predicate SameLinks(a: seq<Link>, b: seq<Link>) {
    && |a| == |b|
    && forall i :: 0 <= i < |a| ==> (a[i].client == b[i].client && a[i].server == b[i].server
                                     && a[i].email == b[i].email && a[i].inbound == b[i].inbound)
  }

  lemma SyncKeepsLinks(links: seq<Link>, server: Id, stats: Stats)
    ensures SameLinks(links, After(links, server, stats))
  {
    forall i | 0 <= i < |links| ensures var l := After(links, server, stats)[i];
      l.client == links[i].client && l.server == links[i].server && l.email == links[i].email
        && l.inbound == links[i].inbound
    {
      AfterAt(links, server, stats, i);
    }
  }

  lemma {:induction false} SameGroups(a: seq<Link>, b: seq<Link>, server: Id, k: Key)
    requires SameLinks(a, b)
    ensures Group(a, server, k) == Group(b, server, k) && Keys(a, server) == Keys(b, server)
  {
    if a != [] {
      SameGroups(a[..|a| - 1], b[..|b| - 1], server, k);
    }
  }

  lemma {:induction false} SameFirst(a: seq<Link>, b: seq<Link>, g: seq<nat>, inbound: int)
    requires SameLinks(a, b) && Places(a, g)
    ensures FirstUnder(a, g, inbound) == FirstUnder(b, g, inbound)
  {
    if g != [] {
      SameFirst(a, b, g[1..], inbound);
    }
  }

  lemma {:induction false} SameLowest(a: seq<Link>, b: seq<Link>, g: seq<nat>)
    requires SameLinks(a, b) && Places(a, g) && g != []
    ensures LowestInbound(a, g) == LowestInbound(b, g)
  {
    if |g| > 1 {
      SameLowest(a, b, g[1..]);
    }
  }

  /** Which link is the primary one depends only on the reported inbound. */
  lemma SamePrimary(a: seq<Link>, b: seq<Link>, server: Id, k: Key, inbound: int)
    requires SameLinks(a, b) && k in Keys(a, server)
    ensures k in Keys(b, server) && PrimaryOf(a, server, k, inbound) == PrimaryOf(b, server, k, inbound)
  {
    SameGroups(a, b, server, k);
    var g := Group(a, server, k);
    SameFirst(a, b, g, inbound);
    if FirstUnder(a, g, inbound) >= |g| {
      assert g != [] by {
        var i :| 0 <= i < |a| && InGroup(a[i], server, k);
        assert (i as nat) in g;
      }
      SameLowest(a, b, g);
    }
  }

  // ---------- runs ----------

  /** `Reset` happens on the panel alone; `ResetTraffic` is asked for here and clears the links too. */
  datatype Event =
    | Carry(bytes: nat)
    | Reset
    | ResetTraffic
    | SyncHere(inbounds: seq<Inbound>)
    | SyncElsewhere(server: Id, inbounds: seq<Inbound>)

  /** The remote client's true counter, the traffic it carried, and the growth recorded for it. */
  datatype World = World(links: seq<Link>, counter: nat, carried: nat, recorded: nat)

  /** One remote client on one server, always reported under the same inbound, in one direction. */
  datatype Subject = Subject(server: Id, key: Key, inbound: int, way: Way)

  ghost predicate Known(x: World, u: Subject) {
    u.key in Keys(x.links, u.server)
  }

  /** A report of this server that lists the remote client gives its true counter. */
  predicate Truthful(x: World, u: Subject, e: Event) {
    match e
    case SyncHere(inbounds) =>
      var stats := StatsOf(inbounds);
      u.key.email in stats
      ==> stats[u.key.email].inbound == u.inbound && Counter(stats[u.key.email], u.way) == x.counter
    case SyncElsewhere(server, _) => server != u.server
    case _ => true
  }

  function ZeroGroup(links: seq<Link>, server: Id, k: Key): (r: seq<Link>)
    ensures SameLinks(links, r)
    ensures forall i :: 0 <= i < |links| && InGroup(links[i], server, k) ==> r[i].up == 0 && r[i].down == 0
  {
    seq(|links|, i requires 0 <= i < |links| =>
      if InGroup(links[i], server, k) then links[i].(up := 0, down := 0, missing := false) else links[i])
  }

  function Do(x: World, u: Subject, e: Event): World {
    match e
    case Carry(n) => x.(counter := x.counter + n, carried := x.carried + n)
    case Reset => x.(counter := 0)
    case ResetTraffic => x.(counter := 0, links := ZeroGroup(x.links, u.server, u.key))
    case SyncHere(inbounds) =>
      var stats := StatsOf(inbounds);
      x.(links := After(x.links, u.server, stats),
         recorded := x.recorded + if u.key in Keys(x.links, u.server)
           then DeltaOf(x.links, u.server, stats, u.key, u.way) else 0)
    case SyncElsewhere(server, inbounds) => x.(links := After(x.links, server, StatsOf(inbounds)))
  }

  ghost function Run(x: World, u: Subject, run: seq<Event>): World {
    if run == [] then x else Do(Run(x, u, run[..|run| - 1]), u, run[|run| - 1])
  }

  ghost predicate AllTruthful(x: World, u: Subject, run: seq<Event>) {
    run == [] || (AllTruthful(x, u, run[..|run| - 1]) && Truthful(Run(x, u, run[..|run| - 1]), u, run[|run| - 1]))
  }

  function Stored(x: World, u: Subject): nat
    requires u.key in Keys(x.links, u.server)
  {
    Amount(x.links[PrimaryOf(x.links, u.server, u.key, u.inbound)], u.way)
  }

  /** What a sync does to the stored counter and the recorded growth. */
  lemma SyncStores(x: World, u: Subject, e: Event)
    requires Known(x, u) && Truthful(x, u, e) && (e.SyncHere? || e.SyncElsewhere?)
    ensures Known(Do(x, u, e), u)
    ensures var y := Do(x, u, e);
      if e.SyncHere? && u.key.email in StatsOf(e.inbounds)
      then Stored(y, u) == x.counter && y.recorded == x.recorded + Growth(x.counter, Stored(x, u))
      else Stored(y, u) == Stored(x, u) && y.recorded == x.recorded
  {
    var server := if e.SyncHere? then u.server else e.server;
    var stats := StatsOf(e.inbounds);
    var p := PrimaryOf(x.links, u.server, u.key, u.inbound);
    var y := Do(x, u, e);
    SyncKeepsLinks(x.links, server, stats);
    SamePrimary(x.links, y.links, u.server, u.key, u.inbound);
    if e.SyncHere? && u.key.email in stats {
      hide After, PrimaryOf, StatsOf, Keys;
      GroupHoldsCounter(x.links, server, stats, u.key, u.way);
    } else {
      hide StatsOf;
      AfterAt(x.links, server, stats, p);
    }
  }

  lemma ResetStores(x: World, u: Subject)
    requires Known(x, u)
    ensures Known(Do(x, u, ResetTraffic), u) && Stored(Do(x, u, ResetTraffic), u) == 0
  {
    SamePrimary(x.links, ZeroGroup(x.links, u.server, u.key), u.server, u.key, u.inbound);
  }

  ghost predicate NoReset(run: seq<Event>) {
    forall i :: 0 <= i < |run| ==> run[i] != Reset && run[i] != ResetTraffic
  }

  /**
   `since` is the traffic carried after the last report. While the counter was not reset it is the
   stored value plus `since`; after a reset it is at most `since`. Recorded growth and `since` together
   never exceed the traffic carried.
   */
  lemma {:induction false} GrowthInvariant(x: World, u: Subject, run: seq<Event>) returns (since: nat, cleared: bool)
    requires Known(x, u) && Stored(x, u) == x.counter && AllTruthful(x, u, run)
    ensures Known(Run(x, u, run), u)
    ensures Run(x, u, run).recorded - x.recorded + since <= Run(x, u, run).carried - x.carried
    ensures if cleared then Run(x, u, run).counter <= since
      else Run(x, u, run).counter == Stored(Run(x, u, run), u) + since
    ensures NoReset(run) ==> !cleared && Run(x, u, run).recorded - x.recorded == Stored(Run(x, u, run), u) - x.counter
    ensures NoReset(run) ==> Run(x, u, run).counter - x.counter == Run(x, u, run).carried - x.carried
  {
    since, cleared := 0, false;
    if run != [] {
      var front, e := run[..|run| - 1], run[|run| - 1];
      since, cleared := GrowthInvariant(x, u, front);
      var mid := Run(x, u, front);
      assert NoReset(run) ==> NoReset(front) && e != Reset && e != ResetTraffic;
      assert Run(x, u, run) == Do(mid, u, e);
      hide Run, NoReset, AllTruthful, Stored, Known, Truthful, Do, Keys;
      match e
      case Carry(n) => since := since + n;
      case Reset => cleared := true;
      case ResetTraffic =>
        ResetStores(mid, u);
        since, cleared := 0, false;
      case SyncHere(inbounds) =>
        SyncStores(mid, u, e);
        if u.key.email in StatsOf(inbounds) {
          since, cleared := 0, false;
        }
      case SyncElsewhere(_, _) => SyncStores(mid, u, e);
    }
  }

  /**
   Over any run in which the remote client is reported under one inbound, the growth recorded for
   it is at most the traffic it carried, whatever resets occur; with no reset it is exactly the
   last reported counter less the first.
   */
  lemma GrowthAtMostCarried(x: World, u: Subject, run: seq<Event>)
    requires Known(x, u) && Stored(x, u) == x.counter && AllTruthful(x, u, run)
    ensures Known(Run(x, u, run), u)
    ensures Run(x, u, run).recorded - x.recorded <= Run(x, u, run).carried - x.carried
    ensures NoReset(run) ==> Run(x, u, run).recorded - x.recorded == Stored(Run(x, u, run), u) - Stored(x, u)
  {
    var since, cleared := GrowthInvariant(x, u, run);
  }

  // ---------- exactly what is recorded ----------

  /**
   What a run does to the traffic of one remote client, told by its events: the last reported counter,
   whether the panel was reset since, the traffic since that report or reset, and the traffic no report
   will ever show.
   */
  datatype Meter = Meter(reported: nat, cleared: bool, unreported: nat, hidden: nat)

  /** The panel's counter by this account. */
  function CounterOf(k: Meter): nat {
    if k.cleared then k.unreported else k.reported + k.unreported
  }

  /** A reset hides the traffic before it; a counter that has passed the reported one again hides that one. */
  function Note(k: Meter, u: Subject, e: Event): Meter {
    match e
    case Carry(n) => k.(unreported := k.unreported + n)
    case Reset => Meter(k.reported, true, 0, k.hidden + k.unreported)
    case ResetTraffic => Meter(0, false, 0, k.hidden + k.unreported)
    case SyncHere(inbounds) =>
      if u.key.email !in StatsOf(inbounds) then k
      else Meter(CounterOf(k), false, 0, k.hidden + if k.cleared && k.unreported >= k.reported then k.reported else 0)
    case SyncElsewhere(_, _) => k
  }

  function MeterAfter(k: Meter, u: Subject, run: seq<Event>): Meter {
    if run == [] then k else Note(MeterAfter(k, u, run[..|run| - 1]), u, run[|run| - 1])
  }

  /**
   A report below the stored counter means a reset, and records the whole counter: exactly the traffic
   since then. Any other report records what the counter grew by.
   */
  lemma ReportRecords(x: World, u: Subject, inbounds: seq<Inbound>)
    requires Known(x, u) && Truthful(x, u, SyncHere(inbounds)) && u.key.email in StatsOf(inbounds)
    ensures var y := Do(x, u, SyncHere(inbounds));
      && (x.counter < Stored(x, u) ==> y.recorded == x.recorded + x.counter)
      && (x.counter >= Stored(x, u) ==> y.recorded + Stored(x, u) == x.recorded + x.counter)
  {
    SyncStores(x, u, SyncHere(inbounds));
    hide Stored, Known, Truthful, Do;
  }

  /** After any run the traffic carried is what was recorded, what the next report will show, and what resets hid. */
  lemma {:induction false} GrowthIsExact(x: World, u: Subject, run: seq<Event>)
    requires Known(x, u) && Stored(x, u) == x.counter && AllTruthful(x, u, run)
    ensures var y, k := Run(x, u, run), MeterAfter(Meter(x.counter, false, 0, 0), u, run);
      && Known(y, u) && Stored(y, u) == k.reported && y.counter == CounterOf(k)
      && y.carried - x.carried == (y.recorded - x.recorded) + k.unreported + k.hidden
  {
    if run != [] {
      var front, e := run[..|run| - 1], run[|run| - 1];
      GrowthIsExact(x, u, front);
      var mid := Run(x, u, front);
      var k := MeterAfter(Meter(x.counter, false, 0, 0), u, front);
      assert Run(x, u, run) == Do(mid, u, e) && Truthful(mid, u, e);
      assert MeterAfter(Meter(x.counter, false, 0, 0), u, run) == Note(k, u, e);
      hide Run, MeterAfter, AllTruthful, Stored, Known, Truthful;
      match e
      case Carry(n) => StaysKnown(mid, u, e);
      case Reset => StaysKnown(mid, u, e);
      case ResetTraffic => ResetStores(mid, u);
      case SyncHere(inbounds) =>
        SyncStores(mid, u, e);
        if u.key.email in StatsOf(inbounds) {
          ReportRecords(mid, u, inbounds);
        }
      case SyncElsewhere(_, _) => SyncStores(mid, u, e);
    }
  }

  lemma StaysKnown(x: World, u: Subject, e: Event)
    requires Known(x, u) && (e.Carry? || e.Reset?)
    ensures Known(Do(x, u, e), u) && Stored(Do(x, u, e), u) == Stored(x, u)
  {
  }

  /** Everything carried is recorded at the end exactly when nothing waits for a report and no reset hid anything. */
  lemma AllRecordedIff(x: World, u: Subject, run: seq<Event>)
    requires Known(x, u) && Stored(x, u) == x.counter && AllTruthful(x, u, run)
    ensures var y, k := Run(x, u, run), MeterAfter(Meter(x.counter, false, 0, 0), u, run);
      y.recorded - x.recorded == y.carried - x.carried <==> k.unreported == 0 && k.hidden == 0
  {
    GrowthIsExact(x, u, run);
  }

  // ---------- when the inbound moves ----------

  /**
   After a report under one inbound, a second one with no reset in between records the true growth
   exactly when it is taken against the same link, or the earlier counter was zero: any other link
   of the group was set to zero, so the whole counter is recorded again.
   */
  lemma GrowthIsTrueIff(links: seq<Link>, server: Id, k: Key, first: Stats, second: Stats, w: Way)
    requires k in Keys(links, server) && k.email in first && k.email in second
    requires Counter(second[k.email], w) >= Counter(first[k.email], w)
    ensures k in Keys(After(links, server, first), server)
    ensures var counted := DeltaOf(After(links, server, first), server, second, k, w);
       counted == Counter(second[k.email], w) - Counter(first[k.email], w)
       <==> PrimaryOf(links, server, k, second[k.email].inbound) == PrimaryOf(links, server, k, first[k.email].inbound)
            || Counter(first[k.email], w) == 0
  {
    var mid := After(links, server, first);
    SyncKeepsLinks(links, server, first);
    SameGroups(links, mid, server, k);
    SamePrimary(links, mid, server, k, second[k.email].inbound);
    GroupHoldsCounter(links, server, first, k, w);
    hide After, PrimaryOf, Keys;
  }

  /** A remote client with links under inbounds 1 and 2 that moves from one to the other counts twice. */
  lemma MovedCountsTwice(bytes: nat) returns (links: seq<Link>, first: Stats, second: Stats, k: Key)
    requires bytes > 0
    ensures k in Keys(links, "s") && k in Keys(After(links, "s", first), "s")
    ensures DeltaOf(links, "s", first, k, Up) == bytes && DeltaOf(After(links, "s", first), "s", second, k, Up) == bytes
    ensures k.email in first && k.email in second && first[k.email].up == second[k.email].up == bytes
  {
    var a, b := Link("c", "s", "e", 1, 0, 0, true, false), Link("c", "s", "e", 2, 0, 0, true, false);
    links, k := [a, b], Key("c", "e");
    first, second := map["e" := Stat("e", 1, bytes, 0, true)], map["e" := Stat("e", 2, bytes, 0, true)];
    assert InGroup(links[0], "s", k) && InGroup(links[1], "s", k);
    assert k in Keys(links, "s");
    var g := Group(links, "s", k);
    assert (0 as nat) in g && (1 as nat) in g;
    assert links[0].inbound == 1 && links[1].inbound == 2;
    GrowthIsTrueIff(links, "s", k, first, second, Up);
    GroupHoldsCounter(links, "s", first, k, Up);
    hide After, Keys;
    SyncKeepsLinks(links, "s", first);
    SamePrimary(links, After(links, "s", first), "s", k, 2);
  }
}
