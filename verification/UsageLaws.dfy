/** What a sync writes to links, usage rows and clients, field by field. */
module UsageLaws {
  import opened Results
  import opened UsageSync
  import opened UsageTotals

  /** A panel's negative counter counts as none. */
  lemma CounterIs(s: Stat, w: Way)
    ensures var n := if w == Up then s.up else s.down; Counter(s, w) >= n && (Counter(s, w) == n || Counter(s, w) == 0)
    ensures var n := if w == Up then s.up else s.down; n < 0 ==> Counter(s, w) == 0
  {
  }

  /** The i-th row is the kept one, and every earlier row of its email is smaller. */
  ghost predicate FirstAt(stats: Stats, rows: seq<Stat>, e: string, i: int) {
    && e in stats && 0 <= i < |rows| && rows[i] == stats[e]
    && forall j :: 0 <= j < i && rows[j].email == e ==> Sum(rows[j]) < Sum(stats[e])
  }

  /** Of the rows of one email with the largest total, the first reported one is kept. */
  ghost predicate FirstLargest(stats: Stats, rows: seq<Stat>) {
    forall e :: e in stats ==> exists i :: FirstAt(stats, rows, e, i)
  }

  function RowUnder(s: Stat, inbound: int): Stat {
    s.(inbound := if s.inbound != 0 then s.inbound else inbound)
  }

  lemma NotedFirst(stats: Stats, s: Stat, inbound: int, rows: seq<Stat>)
    requires FirstLargest(stats, rows) && Largest(stats, rows)
    ensures FirstLargest(Noted(stats, s, inbound), rows + [RowUnder(s, inbound)])
  {
    var next, all := Noted(stats, s, inbound), rows + [RowUnder(s, inbound)];
    forall e | e in next ensures exists i :: FirstAt(next, all, e, i) {
      if e == s.email && (e !in stats || Sum(s) > Sum(stats[e])) {
        forall j | 0 <= j < |rows| && all[j].email == e ensures Sum(all[j]) < Sum(next[e]) {
          assert rows[j] in rows;
        }
        assert FirstAt(next, all, e, |rows|);
      } else {
        var i :| FirstAt(stats, rows, e, i);
        assert FirstAt(next, all, e, i);
      }
    }
  }

  lemma {:induction false} NotedAllFirst(stats: Stats, rows: seq<Stat>, inbound: int, seen: seq<Stat>)
    requires FirstLargest(stats, seen) && Largest(stats, seen)
    ensures FirstLargest(NotedAll(stats, rows, inbound), seen + Placed(rows, inbound))
  {
    if rows == [] {
      assert seen + Placed(rows, inbound) == seen;
    } else {
      var front, last := rows[..|rows| - 1], rows[|rows| - 1];
      assert NotedAll(stats, rows, inbound) == Noted(NotedAll(stats, front, inbound), last, inbound);
      assert Placed(rows, inbound) == Placed(front, inbound) + [RowUnder(last, inbound)];
      hide *;
      NotedAllFirst(stats, front, inbound, seen);
      NotedAllLargest(stats, front, inbound, seen);
      NotedFirst(NotedAll(stats, front, inbound), last, inbound, seen + Placed(front, inbound));
      assert seen + (Placed(front, inbound) + [RowUnder(last, inbound)])
        == seen + Placed(front, inbound) + [RowUnder(last, inbound)];
    }
  }

  /** The kept row is the first of the largest ones of its email, in the order the inbounds are listed. */
  lemma {:induction false} FirstLargestIsKept(inbounds: seq<Inbound>)
    ensures FirstLargest(StatsOf(inbounds), AllRows(inbounds))
  {
    if inbounds != [] {
      var n := |inbounds| - 1;
      FirstLargestIsKept(inbounds[..n]);
      LargestIsKept(inbounds[..n]);
      hide FirstLargest, Largest;
      NotedAllFirst(StatsOf(inbounds[..n]), inbounds[n].stats, inbounds[n].id, AllRows(inbounds[..n]));
    }
  }

  /**
   A link of another server stays as it is; one the panel does not report is marked missing and keeps its
   counters; a reported one is no longer missing and takes the panel's switch.
   */
  lemma LinkAfterSync(links: seq<Link>, server: Id, stats: Stats, i: nat)
    requires i < |links|
    ensures var l, a := links[i], After(links, server, stats)[i];
      && (l.server != server ==> a == l)
      && (l.server == server && l.email !in stats ==> a == l.(missing := true))
      && (l.server == server && l.email in stats ==>
            a == l.(up := a.up, down := a.down, enabled := stats[l.email].enable, missing := false))
  {
    AfterAt(links, server, stats, i);
    KeyIsListed(links, server, i);
    hide PrimaryOf, Keys;
  }

  lemma KeyIsListed(links: seq<Link>, server: Id, i: nat)
    requires i < |links|
    ensures KeyOf(links[i]) in Keys(links, server) <== links[i].server == server
  {
    if links[i].server == server {
      assert InGroup(links[i], server, KeyOf(links[i]));
    }
  }

  /** No empty usage row is written. */
  lemma {:induction false} RowsAreFull(links: seq<Link>, server: Id, stats: Stats, ks: seq<Key>)
    requires forall k :: k in ks ==> k in Keys(links, server)
    ensures forall u :: u in UsageRows(links, server, stats, ks) ==> u.up > 0 || u.down > 0
  {
    if ks != [] {
      RowsAreFull(links, server, stats, ks[..|ks| - 1]);
      hide DeltaOf;
    }
  }

  /** A client with no reported link on the server is left alone. */
  lemma ClientStays(b: Books, server: Id, inbounds: seq<Inbound>, now: int, c: Id)
    requires c in b.clients && !HasReported(b.links, server, StatsOf(inbounds), c)
    ensures c in Sync(b, server, inbounds, now).clients && Sync(b, server, inbounds, now).clients[c] == b.clients[c]
  {
    TouchedIff(b.links, server, StatsOf(inbounds), c);
    hide StatsOf, UsageRows, Synced, Touched, HasReported;
  }

  ghost predicate HasReported(links: seq<Link>, server: Id, stats: Stats, c: Id) {
    exists i :: 0 <= i < |links| && links[i].server == server && links[i].client == c && links[i].email in stats
  }

  lemma TouchedIff(links: seq<Link>, server: Id, stats: Stats, c: Id)
    ensures Touched(links, server, stats, Keys(links, server), c) <==> HasReported(links, server, stats, c)
  {
    var ks := Keys(links, server);
    if j :| 0 <= j < |ks| && ks[j].client == c && ks[j].email in stats {
      assert ks[j] in ks;
      var i :| 0 <= i < |links| && InGroup(links[i], server, ks[j]);
      assert HasReported(links, server, stats, c);
    }
    if i :| 0 <= i < |links| && links[i].server == server && links[i].client == c && links[i].email in stats {
      assert InGroup(links[i], server, KeyOf(links[i]));
      assert KeyOf(links[i]) in ks;
    }
  }

  /** A client with a reported link carries the sums over its links, and the label that follows. */
  lemma ClientRecounted(b: Books, server: Id, inbounds: seq<Inbound>, now: int, c: Id)
    requires c in b.clients && HasReported(b.links, server, StatsOf(inbounds), c)
    ensures var next := Sync(b, server, inbounds, now);
      c in next.clients && next.clients[c] == Recomputed(b.clients[c], next.links, c, now)
  {
    TouchedIff(b.links, server, StatsOf(inbounds), c);
    hide StatsOf, UsageRows, Synced, Touched, HasReported, Recomputed;
  }

  /** A client is disabled by hand alone; else expired by its time, else limited by its traffic, else active. */
  lemma LabelIff(c: Client, links: seq<Link>, id: Id, now: int)
    ensures var r := Recomputed(c, links, id, now);
      var used, late := r.usedUp + r.usedDown, c.expires.Some? && c.expires.value < now;
      && r.limit == c.limit && r.expires == c.expires
      && (r.status == Disabled <==> c.status == Disabled)
      && (r.status == Status.Expired <==> c.status != Disabled && late)
      && (r.status == Limited <==> c.status != Disabled && !late && c.limit != 0 && c.limit <= used)
  {
  }
}
