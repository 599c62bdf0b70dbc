/** What a sync leaves: every remote client counted once, and growth recorded once. */
module UsageTotals {
  import opened Results
  import opened UsageSync

  // ---------- no double counting ----------

  function GroupTotal(links: seq<Link>, server: Id, k: Key, w: Way): nat {
    if links == [] then 0
    else
      var l := links[|links| - 1];
      GroupTotal(links[..|links| - 1], server, k, w) + (if InGroup(l, server, k) then Amount(l, w) else 0)
  }

  /** What the links of a client hold that this report says nothing about. */
  function Untouched(links: seq<Link>, server: Id, stats: Stats, c: Id, w: Way): nat {
    if links == [] then 0
    else
      var l := links[|links| - 1];
      Untouched(links[..|links| - 1], server, stats, c, w)
      + (if l.client == c && !IsReported(l, server, stats) then Amount(l, w) else 0)
  }

  predicate Counts(k: Key, stats: Stats, c: Id) {
    k.client == c && k.email in stats
  }

  function GroupTotals(links: seq<Link>, server: Id, stats: Stats, ks: seq<Key>, c: Id, w: Way): nat {
    if ks == [] then 0
    else
      var k := ks[|ks| - 1];
      GroupTotals(links, server, stats, ks[..|ks| - 1], c, w)
      + (if Counts(k, stats, c) then GroupTotal(links, server, k, w) else 0)
  }

  /** The sum of the reported counters of a client's remote clients, each once. */
  function Reported(stats: Stats, ks: seq<Key>, c: Id, w: Way): nat {
    if ks == [] then 0
    else
      var k := ks[|ks| - 1];
      Reported(stats, ks[..|ks| - 1], c, w) + (if Counts(k, stats, c) then Counter(stats[k.email], w) else 0)
  }

  lemma {:induction false} OneHolds(links: seq<Link>, server: Id, k: Key, w: Way, p: nat)
    requires p < |links| && InGroup(links[p], server, k)
    requires forall i :: 0 <= i < |links| && i != p && InGroup(links[i], server, k) ==> Amount(links[i], w) == 0
    ensures GroupTotal(links, server, k, w) == Amount(links[p], w)
  {
    var n := |links| - 1;
    if p == n {
      NoneHolds(links[..n], server, k, w);
    } else {
      OneHolds(links[..n], server, k, w, p);
    }
  }

  lemma {:induction false} NoneHolds(links: seq<Link>, server: Id, k: Key, w: Way)
    requires forall i :: 0 <= i < |links| && InGroup(links[i], server, k) ==> Amount(links[i], w) == 0
    ensures GroupTotal(links, server, k, w) == 0
  {
    if links != [] {
      NoneHolds(links[..|links| - 1], server, k, w);
    }
  }

  function After(links: seq<Link>, server: Id, stats: Stats): (r: seq<Link>)
    ensures |r| == |links|
  {
    Synced(links, server, stats, Keys(links, server))
  }

  lemma AfterAt(links: seq<Link>, server: Id, stats: Stats, i: nat)
    requires i < |links|
    ensures var l := After(links, server, stats)[i];
      && l.client == links[i].client && l.server == links[i].server
      && l.email == links[i].email && l.inbound == links[i].inbound
      && (IsReported(links[i], server, stats) ==>
            KeyOf(links[i]) in Keys(links, server) &&
            (var s := stats[l.email];
             var holds := i == PrimaryOf(links, server, KeyOf(links[i]), s.inbound);
             l.up == (if holds then Counter(s, Up) else 0) && l.down == (if holds then Counter(s, Down) else 0)
             && l.enabled == s.enable && !l.missing))
      && (!IsReported(links[i], server, stats)
        ==> l.up == links[i].up && l.down == links[i].down && l.enabled == links[i].enabled)
  {
    hide PrimaryOf, Keys;
    if links[i].server == server {
      assert InGroup(links[i], server, KeyOf(links[i]));
    }
  }

  /** Every reported group holds its counter, on exactly one link. */
  lemma GroupHoldsCounter(links: seq<Link>, server: Id, stats: Stats, k: Key, w: Way)
    requires k in Keys(links, server) && k.email in stats
    ensures var p := PrimaryOf(links, server, k, stats[k.email].inbound);
      && Amount(After(links, server, stats)[p], w) == Counter(stats[k.email], w)
      && forall i :: 0 <= i < |links| && i != p && InGroup(links[i], server, k)
           ==> Amount(After(links, server, stats)[i], w) == 0
    ensures GroupTotal(After(links, server, stats), server, k, w) == Counter(stats[k.email], w)
  {
    var after := After(links, server, stats);
    var p := PrimaryOf(links, server, k, stats[k.email].inbound);
    forall i | 0 <= i < |links|
      ensures InGroup(after[i], server, k) == InGroup(links[i], server, k)
      ensures InGroup(links[i], server, k) ==> Amount(after[i], w) == if i == p then Counter(stats[k.email], w) else 0
    {
      AfterAt(links, server, stats, i);
    }
    hide After, PrimaryOf, Counter, Keys;
    OneHolds(after, server, k, w, p);
  }

  lemma {:induction false} OneMoreLink(links: seq<Link>, server: Id, stats: Stats, ks: seq<Key>, c: Id, w: Way)
    requires links != [] && forall i, j :: 0 <= i < j < |ks| ==> ks[i] != ks[j]
    ensures var l := links[|links| - 1];
      GroupTotals(links, server, stats, ks, c, w) == GroupTotals(links[..|links| - 1], server, stats, ks, c, w)
        + if l.client == c && IsReported(l, server, stats) && KeyOf(l) in ks then Amount(l, w) else 0
  {
    if ks != [] {
      var front, k := ks[..|ks| - 1], ks[|ks| - 1];
      OneMoreLink(links, server, stats, front, c, w);
      assert k !in front;
      assert forall x :: x in ks <==> x in front || x == k;
    }
  }

  /** A client's total splits into the reported groups and the rest. */
  lemma {:induction false} TotalSplits(links: seq<Link>, server: Id, stats: Stats, ks: seq<Key>, c: Id, w: Way)
    requires forall i, j :: 0 <= i < j < |ks| ==> ks[i] != ks[j]
    requires forall i :: 0 <= i < |links| && IsReported(links[i], server, stats) ==> KeyOf(links[i]) in ks
    ensures Total(links, c, w) == GroupTotals(links, server, stats, ks, c, w) + Untouched(links, server, stats, c, w)
  {
    if links == [] {
      NoLinks(server, stats, ks, c, w);
    } else {
      var n := |links| - 1;
      TotalSplits(links[..n], server, stats, ks, c, w);
      OneMoreLink(links, server, stats, ks, c, w);
      hide GroupTotals;
      assert IsReported(links[n], server, stats) ==> KeyOf(links[n]) in ks;
    }
  }

  lemma {:induction false} NoLinks(server: Id, stats: Stats, ks: seq<Key>, c: Id, w: Way)
    ensures GroupTotals([], server, stats, ks, c, w) == 0
  {
    if ks != [] {
      NoLinks(server, stats, ks[..|ks| - 1], c, w);
    }
  }

  lemma {:induction false} UntouchedStays(a: seq<Link>, b: seq<Link>, server: Id, stats: Stats, c: Id, w: Way)
    requires |a| == |b|
    requires forall i :: 0 <= i < |a|
               ==> a[i].client == b[i].client && IsReported(a[i], server, stats) == IsReported(b[i], server, stats)
    requires forall i :: 0 <= i < |a| && !IsReported(a[i], server, stats) ==> Amount(a[i], w) == Amount(b[i], w)
    ensures Untouched(a, server, stats, c, w) == Untouched(b, server, stats, c, w)
  {
    if a != [] {
      UntouchedStays(a[..|a| - 1], b[..|b| - 1], server, stats, c, w);
    }
  }

  lemma {:induction false} GroupsHoldCounters(links: seq<Link>, server: Id, stats: Stats, ks: seq<Key>, c: Id, w: Way)
    requires forall i :: 0 <= i < |ks| ==> ks[i] in Keys(links, server)
    ensures GroupTotals(After(links, server, stats), server, stats, ks, c, w) == Reported(stats, ks, c, w)
  {
    if ks != [] {
      var k := ks[|ks| - 1];
      GroupsHoldCounters(links, server, stats, ks[..|ks| - 1], c, w);
      hide After, GroupTotal;
      if k.email in stats {
        GroupHoldsCounter(links, server, stats, k, w);
      }
    }
  }

  /**
   After a sync a client's usage is the sum of the counters the panel reports for its remote
   clients, each counted once, plus what its unreported and other links held before.
   */
  lemma UsageCountedOnce(links: seq<Link>, server: Id, stats: Stats, c: Id, w: Way)
    ensures Total(After(links, server, stats), c, w)
         == Reported(stats, Keys(links, server), c, w) + Untouched(links, server, stats, c, w)
  {
    var after, ks := After(links, server, stats), Keys(links, server);
    forall i | 0 <= i < |links|
      ensures after[i].client == links[i].client
        && IsReported(after[i], server, stats) == IsReported(links[i], server, stats)
      ensures IsReported(after[i], server, stats) ==> KeyOf(after[i]) in ks
      ensures !IsReported(links[i], server, stats) ==> Amount(after[i], w) == Amount(links[i], w)
    {
      AfterAt(links, server, stats, i);
    }
    hide After, Keys;
    TotalSplits(after, server, stats, ks, c, w);
    UntouchedStays(after, links, server, stats, c, w);
    GroupsHoldCounters(links, server, stats, ks, c, w);
  }

  // ---------- clients stay aggregated ----------

  ghost predicate Aggregated(b: Books) {
    forall c :: c in b.clients ==>
      b.clients[c].usedUp == Total(b.links, c, Up) && b.clients[c].usedDown == Total(b.links, c, Down)
  }

  lemma {:induction false} NothingReported(links: seq<Link>, server: Id, stats: Stats, ks: seq<Key>, c: Id, w: Way)
    requires !Touched(links, server, stats, ks, c)
    ensures Reported(stats, ks, c, w) == 0 && GroupTotals(links, server, stats, ks, c, w) == 0
  {
    if ks != [] {
      var n := |ks| - 1;
      assert !Counts(ks[n], stats, c);
      forall i | 0 <= i < n ensures !(ks[..n][i].client == c && ks[..n][i].email in stats) {
        assert ks[..n][i] == ks[i];
      }
      NothingReported(links, server, stats, ks[..n], c, w);
    }
  }

  lemma QuietClientKeepsTotal(links: seq<Link>, server: Id, stats: Stats, c: Id, w: Way)
    requires !Touched(links, server, stats, Keys(links, server), c)
    ensures Total(After(links, server, stats), c, w) == Total(links, c, w)
  {
    var ks := Keys(links, server);
    forall i | 0 <= i < |links| && IsReported(links[i], server, stats) ensures KeyOf(links[i]) in ks {
      assert InGroup(links[i], server, KeyOf(links[i]));
    }
    hide Keys, Touched, After;
    UsageCountedOnce(links, server, stats, c, w);
    NothingReported(links, server, stats, ks, c, w);
    TotalSplits(links, server, stats, ks, c, w);
  }

  /** A client's usage is the sum over its links, before and after any sync, whoever was reported. */
  lemma SyncKeepsAggregates(b: Books, server: Id, inbounds: seq<Inbound>, now: int)
    requires Aggregated(b)
    ensures Aggregated(Sync(b, server, inbounds, now))
  {
    var after := Sync(b, server, inbounds, now);
    var stats := StatsOf(inbounds);
    assert after.links == After(b.links, server, stats);
    hide After, Total, Keys, StatsOf;
    forall c | c in after.clients
      ensures after.clients[c].usedUp == Total(after.links, c, Up)
        && after.clients[c].usedDown == Total(after.links, c, Down)
    {
      if !Touched(b.links, server, stats, Keys(b.links, server), c) {
        hide Touched;
        QuietClientKeepsTotal(b.links, server, stats, c, Up);
        QuietClientKeepsTotal(b.links, server, stats, c, Down);
      }
    }
  }

  // ---------- recorded growth ----------

  function RowSum(rows: seq<Usage>, c: Id, w: Way): nat {
    if rows == [] then 0
    else
      var r := rows[|rows| - 1];
      RowSum(rows[..|rows| - 1], c, w) + (if r.client == c then (if w == Up then r.up else r.down) else 0)
  }

  function GrowthSum(links: seq<Link>, server: Id, stats: Stats, ks: seq<Key>, c: Id, w: Way): nat
    requires forall k :: k in ks ==> k in Keys(links, server)
  {
    if ks == [] then 0
    else
      var k := ks[|ks| - 1];
      GrowthSum(links, server, stats, ks[..|ks| - 1], c, w)
      + (if k.client == c then DeltaOf(links, server, stats, k, w) else 0)
  }

  /** The rows written for a client add up to the growth of its remote clients; rows of no growth are left out. */
  lemma {:induction false} RowsAddUp(links: seq<Link>, server: Id, stats: Stats, ks: seq<Key>, c: Id, w: Way)
    requires forall k :: k in ks ==> k in Keys(links, server)
    ensures RowSum(UsageRows(links, server, stats, ks), c, w) == GrowthSum(links, server, stats, ks, c, w)
  {
    if ks != [] {
      var front := UsageRows(links, server, stats, ks[..|ks| - 1]);
      RowsAddUp(links, server, stats, ks[..|ks| - 1], c, w);
      hide DeltaOf, Keys;
      var k := ks[|ks| - 1];
      var row := Usage(k.client, DeltaOf(links, server, stats, k, Up), DeltaOf(links, server, stats, k, Down));
      assert (front + [row])[..|front|] == front;
      assert front + [] == front;
    }
  }
}
