/** The sync as it runs: maps filled, links rewritten group by group, clients recomputed. */
module UsageDesk {
  import opened Results
  import opened UsageSync

  function MarkMissing(links: seq<Link>, g: seq<nat>): (r: seq<Link>)
    ensures |r| == |links|
  {
    seq(|links|, i requires 0 <= i < |links| => if i in g then links[i].(missing := true) else links[i])
  }

  function WriteGroup(links: seq<Link>, g: seq<nat>, p: nat, s: Stat): (r: seq<Link>)
    ensures |r| == |links|
  {
    seq(|links|, i requires 0 <= i < |links| =>
      if i !in g then links[i]
      else if i == p then links[i].(up := Counter(s, Up), down := Counter(s, Down), enabled := s.enable,
        missing := false)
      else links[i].(up := 0, down := 0, enabled := s.enable, missing := false))
  }

  lemma NextGroup(links: seq<Link>, server: Id, stats: Stats, ks: seq<Key>, n: nat)
    requires ks == Keys(links, server) && n < |ks|
    ensures var k := ks[n];
      var before := Synced(links, server, stats, ks[..n]);
      Synced(links, server, stats, ks[..n + 1])
        == if k.email in stats
           then WriteGroup(before, Group(links, server, k), PrimaryOf(links, server, k, stats[k.email].inbound),
             stats[k.email])
           else MarkMissing(before, Group(links, server, k))
  {
    var k, g := ks[n], Group(links, server, ks[n]);
    forall i: nat | i < |links| ensures links[i].server == server && KeyOf(links[i]) in ks[..n + 1]
      <==> i in g || (links[i].server == server && KeyOf(links[i]) in ks[..n])
    {
      assert ks[..n + 1] == ks[..n] + [k];
    }
    assert k !in ks[..n];
    hide Keys, Group, PrimaryOf;
  }

  function Recount(clients: map<Id, Client>, links: seq<Link>, done: seq<Id>, now: int): map<Id, Client> {
    map c | c in clients :: if c in done then Recomputed(clients[c], links, c, now) else clients[c]
  }

  method CollectStats(inbounds: seq<Inbound>) returns (stats: Stats)
    ensures stats == StatsOf(inbounds)
  {
    stats := map[];
    for i := 0 to |inbounds|
      invariant stats == StatsOf(inbounds[..i])
    {
      var ib := inbounds[i];
      for j := 0 to |ib.stats|
        invariant stats == NotedAll(StatsOf(inbounds[..i]), ib.stats[..j], ib.id)
      {
        assert ib.stats[..j + 1][..j] == ib.stats[..j];
        var s := ib.stats[j];
        if s.email !in stats || s.up + s.down > stats[s.email].up + stats[s.email].down {
          stats := stats[s.email := s.(inbound := if s.inbound != 0 then s.inbound else ib.id)];
        }
      }
      assert ib.stats[..|ib.stats|] == ib.stats;
      assert inbounds[..i + 1][..i] == inbounds[..i];
    }
    assert inbounds[..|inbounds|] == inbounds;
  }

  ghost function GroupOf(links: seq<Link>, server: Id): Key -> seq<nat> {
    k => Group(links, server, k)
  }

  /** The i-th link joined its group, when it is on the server. */
  ghost predicate Joined(was: Key -> seq<nat>, will: Key -> seq<nat>, here: bool, key: Key, i: nat) {
    forall k :: will(k) == was(k) + if here && k == key then [i] else []
  }

  /** The groups are exactly those of the keys in this order. */
  ghost predicate GroupsAre(groups: map<Key, seq<nat>>, order: seq<Key>, g: Key -> seq<nat>) {
    (forall k :: k in groups <==> k in order) && forall k :: k in order ==> groups[k] == g(k)
  }

  lemma NextKey(links: seq<Link>, server: Id, i: nat)
    requires i < |links|
    ensures var key, front := KeyOf(links[i]), Keys(links[..i], server);
      Keys(links[..i + 1], server) == if links[i].server == server && key !in front then front + [key] else front
    ensures KeyOf(links[i]) !in Keys(links[..i], server) ==> GroupOf(links[..i], server)(KeyOf(links[i])) == []
  {
    assert links[..i + 1][..i] == links[..i];
    if KeyOf(links[i]) !in Keys(links[..i], server) {
      NoGroup(links[..i], server, KeyOf(links[i]));
    }
  }

  lemma NextGroups(links: seq<Link>, server: Id, i: nat)
    requires i < |links|
    ensures var here := links[i].server == server;
      Joined(GroupOf(links[..i], server), GroupOf(links[..i + 1], server), here, KeyOf(links[i]), i)
  {
    assert links[..i + 1][..i] == links[..i];
  }

  lemma {:induction false} NoGroup(links: seq<Link>, server: Id, k: Key)
    requires forall i :: 0 <= i < |links| ==> !InGroup(links[i], server, k)
    ensures Group(links, server, k) == []
  {
    if links != [] {
      NoGroup(links[..|links| - 1], server, k);
    }
  }

  /** One more place for one key, in the groups kept by order of meeting. */
  lemma GroupsNext(groups: map<Key, seq<nat>>, order: seq<Key>, was: Key -> seq<nat>, will: Key -> seq<nat>,
                   here: bool, key: Key, i: nat)
    requires GroupsAre(groups, order, was) && Joined(was, will, here, key, i) && (key !in order ==> was(key) == [])
    ensures if !here then GroupsAre(groups, order, will)
      else if key in groups then GroupsAre(groups[key := groups[key] + [i]], order, will)
      else GroupsAre(groups[key := [i]], order + [key], will)
  {
  }

  /** Links of a server by remote client, the clients in the order they are met. */
  ghost predicate Collected(links: seq<Link>, server: Id, order: seq<Key>, groups: map<Key, seq<nat>>) {
    order == Keys(links, server) && GroupsAre(groups, order, GroupOf(links, server))
  }

  lemma CollectedNext(links: seq<Link>, server: Id, i: nat, order: seq<Key>, groups: map<Key, seq<nat>>)
    requires i < |links| && Collected(links[..i], server, order, groups)
    ensures var key := KeyOf(links[i]);
      if links[i].server != server then Collected(links[..i + 1], server, order, groups)
      else if key in groups then Collected(links[..i + 1], server, order, groups[key := groups[key] + [i]])
      else Collected(links[..i + 1], server, order + [key], groups[key := [i]])
  {
    var here, key := links[i].server == server, KeyOf(links[i]);
    NextKey(links, server, i);
    NextGroups(links, server, i);
    assert key in groups <==> key in order;
    hide GroupOf, Keys, KeyOf, Joined, GroupsAre;
    GroupsNext(groups, order, GroupOf(links[..i], server), GroupOf(links[..i + 1], server), here, key, i);
  }

  method CollectGroups(links: seq<Link>, server: Id) returns (order: seq<Key>, groups: map<Key, seq<nat>>)
    ensures order == Keys(links, server)
    ensures forall k :: k in order ==> k in groups && groups[k] == Group(links, server, k)
  {
    order, groups := [], map[];
    assert links[..0] == [] && links[..|links|] == links;
    assert Collected(links[..0], server, order, groups);
    for i := 0 to |links|
      invariant Collected(links[..i], server, order, groups)
    {
      CollectedNext(links, server, i, order, groups);
      hide Collected;
      var link := links[i];
      if link.server == server {
        var key := KeyOf(link);
        if key in groups {
          groups := groups[key := groups[key] + [i]];
        } else {
          groups := groups[key := [i]];
          order := order + [key];
        }
      }
    }
  }

  lemma NothingSynced(links: seq<Link>, server: Id, stats: Stats)
    ensures Synced(links, server, stats, []) == links && UsageRows(links, server, stats, []) == []
    ensures forall c :: !Touched(links, server, stats, [], c)
  {
  }

  function GrowthRow(client: Id, l: Link, s: Stat): seq<Usage> {
    var up, down := Growth(Counter(s, Up), l.up), Growth(Counter(s, Down), l.down);
    if up + down > 0 then [Usage(client, up, down)] else []
  }

  lemma PrimaryHere(links: seq<Link>, server: Id, stats: Stats, k: Key)
    requires k in Keys(links, server)
    ensures var g := Group(links, server, k);
      && g != [] && Places(links, g)
      && (k.email in stats ==>
            && Primary(links, g, stats[k.email].inbound) == PrimaryOf(links, server, k, stats[k.email].inbound)
            && RowOf(links, server, stats, k)
              == GrowthRow(k.client, links[Primary(links, g, stats[k.email].inbound)], stats[k.email]))
      && (k.email !in stats ==> RowOf(links, server, stats, k) == [])
  {
  }

  lemma RecountNone(clients: map<Id, Client>, links: seq<Link>, now: int)
    ensures Recount(clients, links, [], now) == clients
  {
  }

  lemma RecountNext(clients: map<Id, Client>, links: seq<Link>, ids: seq<Id>, i: nat, now: int)
    requires i < |ids| && forall j, m :: 0 <= j < m < |ids| ==> ids[j] != ids[m]
    ensures var before, id := Recount(clients, links, ids[..i], now), ids[i];
      Recount(clients, links, ids[..i + 1], now)
      == if id in before then before[id := Recomputed(before[id], links, id, now)] else before
  {
    assert ids[..i + 1] == ids[..i] + [ids[i]];
    hide Recomputed;
  }

  lemma SyncIs(b: Books, server: Id, inbounds: seq<Inbound>, now: int, touched: seq<Id>)
    requires forall c :: c in touched <==> Touched(b.links, server, StatsOf(inbounds), Keys(b.links, server), c)
    ensures var stats, ks := StatsOf(inbounds), Keys(b.links, server);
      var links := Synced(b.links, server, stats, ks);
      Sync(b, server, inbounds, now)
        == Books(links, b.usage + UsageRows(b.links, server, stats, ks), Recount(b.clients, links, touched, now))
  {
    hide Recomputed, StatsOf, Keys, Synced, UsageRows, Touched;
  }

  class Accounts {
    var links: seq<Link>
    var usage: seq<Usage>
    var clients: map<Id, Client>

    ghost function State(): Books
      reads this
    {
      Books(links, usage, clients)
    }

    constructor (b: Books)
      ensures State() == b
    {
      links, usage, clients := b.links, b.usage, b.clients;
    }

    method ApplyClientStats(server: Id, inbounds: seq<Inbound>, now: int)
      modifies this
      ensures State() == Sync(old(State()), server, inbounds, now)
    {
      var stats := CollectStats(inbounds);
      var fetched := links;
      var order, groups := CollectGroups(fetched, server);
      var rows, touched := WriteGroups(server, stats, fetched, order, groups);
      SyncIs(old(State()), server, inbounds, now, touched);
      hide Sync, Synced, UsageRows, Keys, Touched, Recomputed, Recount;
      if rows != [] {
        usage := usage + rows;
      }
      RecountNone(clients, links, now);
      for i := 0 to |touched|
        invariant links == Synced(fetched, server, stats, order) && usage == old(usage) + rows
        invariant clients == Recount(old(clients), links, touched[..i], now)
      {
        RecountNext(old(clients), links, touched, i, now);
        RecomputeClient(touched[i], now);
      }
      assert touched[..|touched|] == touched;
    }

    method WriteGroups(server: Id, stats: Stats, fetched: seq<Link>, order: seq<Key>, groups: map<Key, seq<nat>>)
      returns (rows: seq<Usage>, touched: seq<Id>)
      requires links == fetched && order == Keys(fetched, server)
      requires forall k :: k in order ==> k in groups && groups[k] == Group(fetched, server, k)
      modifies this`links
      ensures links == Synced(fetched, server, stats, order)
      ensures rows == UsageRows(fetched, server, stats, order)
      ensures forall c :: c in touched <==> Touched(fetched, server, stats, order, c)
      ensures forall i, j :: 0 <= i < j < |touched| ==> touched[i] != touched[j]
    {
      rows, touched := [], [];
      NothingSynced(fetched, server, stats);
      hide Synced, UsageRows, Keys, Touched, RowOf, Group, WriteGroup, MarkMissing, PrimaryOf;
      for n := 0 to |order|
        invariant links == Synced(fetched, server, stats, order[..n])
        invariant forall k :: k in order[..n] ==> k in Keys(fetched, server)
        invariant rows == UsageRows(fetched, server, stats, order[..n])
        invariant forall c :: c in touched <==> Touched(fetched, server, stats, order[..n], c)
        invariant forall i, j :: 0 <= i < j < |touched| ==> touched[i] != touched[j]
      {
        var k := order[n];
        assert k in order;
        assert order[..n + 1][..n] == order[..n];
        NextGroup(fetched, server, stats, order, n);
        NextTouched(fetched, server, stats, order, n);
        NextRow(fetched, server, stats, order, n);
        PrimaryHere(fetched, server, stats, k);
        hide GrowthRow, Primary;
        var g := groups[k];
        if k.email !in stats {
          links := MarkMissing(links, g);
          continue;
        }
        var row := WriteOne(fetched, k.client, g, stats[k.email]);
        rows := rows + row;
        if k.client !in touched {
          touched := touched + [k.client];
        }
      }
      assert order[..|order|] == order;
    }

    /** One remote client: its links are rewritten, its growth against the fetched links becomes a row. */
    method WriteOne(fetched: seq<Link>, client: Id, g: seq<nat>, s: Stat) returns (rows: seq<Usage>)
      requires g != [] && Places(fetched, g)
      modifies this`links
      ensures links == WriteGroup(old(links), g, Primary(fetched, g, s.inbound), s)
      ensures rows == GrowthRow(client, fetched[Primary(fetched, g, s.inbound)], s)
    {
      rows := [];
      var primary := Primary(fetched, g, s.inbound);
      var up, down := Counter(s, Up), Counter(s, Down);
      var dUp := if up >= fetched[primary].up then up - fetched[primary].up else up;
      var dDown := if down >= fetched[primary].down then down - fetched[primary].down else down;
      if dUp + dDown > 0 {
        rows := [Usage(client, dUp, dDown)];
      }
      links := WriteGroup(links, g, primary, s);
    }

    /** The usage is summed again over every link of the client and the label follows. */
    method RecomputeClient(id: Id, now: int)
      modifies this`clients
      ensures clients == if id in old(clients) then old(clients)[id := Recomputed(old(clients)[id], links, id, now)]
        else old(clients)
    {
      if id !in clients {
        return;
      }
      var c := clients[id];
      var usedUp, usedDown := Total(links, id, Up), Total(links, id, Down);
      var status := c.status;
      if status != Disabled {
        if c.expires.Some? && c.expires.value < now {
          status := Status.Expired;
        } else if c.limit > 0 && usedUp + usedDown >= c.limit {
          status := Limited;
        } else {
          status := Active;
        }
      }
      clients := clients[id := c.(usedUp := usedUp, usedDown := usedDown, status := status)];
    }
  }

  lemma NextTouched(links: seq<Link>, server: Id, stats: Stats, ks: seq<Key>, n: nat)
    requires n < |ks|
    ensures forall c :: (Touched(links, server, stats, ks[..n + 1], c)
      <==> Touched(links, server, stats, ks[..n], c) || (ks[n].client == c && ks[n].email in stats))
  {
    var now, before := ks[..n + 1], ks[..n];
    assert now == before + [ks[n]];
    forall c ensures Touched(links, server, stats, now, c)
      <==> Touched(links, server, stats, before, c) || (ks[n].client == c && ks[n].email in stats)
    {
      if Touched(links, server, stats, now, c) {
        var i :| 0 <= i < |now| && now[i].client == c && now[i].email in stats;
        assert i < n ==> before[i] == now[i];
      }
      if Touched(links, server, stats, before, c) {
        var i :| 0 <= i < |before| && before[i].client == c && before[i].email in stats;
        assert now[i] == before[i];
      }
      assert now[n] == ks[n];
    }
  }

  lemma NextRow(links: seq<Link>, server: Id, stats: Stats, ks: seq<Key>, n: nat)
    requires n < |ks| && forall k :: k in ks ==> k in Keys(links, server)
    ensures forall k :: k in ks[..n + 1] ==> k in Keys(links, server)
    ensures UsageRows(links, server, stats, ks[..n + 1])
         == UsageRows(links, server, stats, ks[..n]) + RowOf(links, server, stats, ks[n])
  {
    assert ks[..n + 1][..n] == ks[..n];
  }
}
