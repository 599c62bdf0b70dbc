/** Panel counters folded into the links of a server, and the clients' usage that follows. */
module UsageSync {
  import opened Results
  import Ledger

  type Id = Ledger.Id

  /** A panel's row for one remote client; inbound 0 means the row does not name one. */
  datatype Stat = Stat(email: string, inbound: int, up: int, down: int, enable: bool)

  datatype Inbound = Inbound(id: int, stats: seq<Stat>)

  datatype Link = Link(client: Id, server: Id, email: string, inbound: int, up: nat, down: nat, enabled: bool,
                       missing: bool)

  datatype Usage = Usage(client: Id, up: nat, down: nat)

  datatype Status = Active | Disabled | Expired | Limited

  datatype Client = Client(limit: nat, expires: Option<int>, status: Status, usedUp: nat, usedDown: nat)

  /** Links that share it are one remote client. */
  datatype Key = Key(client: Id, email: string)

  datatype Way = Up | Down

  function Amount(l: Link, w: Way): nat { if w == Up then l.up else l.down }

  function Counter(s: Stat, w: Way): nat {
    var n := if w == Up then s.up else s.down;
    if n < 0 then 0 else n
  }

  // ---------- the largest row of each email ----------

  type Stats = map<string, Stat>

  function Noted(stats: Stats, s: Stat, inbound: int): Stats {
    if s.email !in stats || s.up + s.down > stats[s.email].up + stats[s.email].down
    then stats[s.email := s.(inbound := if s.inbound != 0 then s.inbound else inbound)]
    else stats
  }

  function NotedAll(stats: Stats, rows: seq<Stat>, inbound: int): Stats {
    if rows == [] then stats else Noted(NotedAll(stats, rows[..|rows| - 1], inbound), rows[|rows| - 1], inbound)
  }

  function StatsOf(inbounds: seq<Inbound>): Stats {
    if inbounds == [] then map[]
    else
      var last := inbounds[|inbounds| - 1];
      NotedAll(StatsOf(inbounds[..|inbounds| - 1]), last.stats, last.id)
  }

  /** A row as it is kept: one that names no inbound gets the inbound it is listed under. */
  function Placed(rows: seq<Stat>, inbound: int): (r: seq<Stat>)
    ensures |r| == |rows|
  {
    if rows == [] then []
    else
      var s := rows[|rows| - 1];
      Placed(rows[..|rows| - 1], inbound) + [s.(inbound := if s.inbound != 0 then s.inbound else inbound)]
  }

  function AllRows(inbounds: seq<Inbound>): seq<Stat> {
    if inbounds == [] then []
    else
      var last := inbounds[|inbounds| - 1];
      AllRows(inbounds[..|inbounds| - 1]) + Placed(last.stats, last.id)
  }

  function Sum(s: Stat): int { s.up + s.down }

  /** For every email of `rows`, `stats` holds a row of that email that no other one exceeds. */
  ghost predicate Largest(stats: Stats, rows: seq<Stat>) {
    && (forall e :: e in stats ==> stats[e] in rows && stats[e].email == e)
    && (forall s :: s in rows ==> s.email in stats && Sum(s) <= Sum(stats[s.email]))
  }

  lemma NotedLargest(stats: Stats, s: Stat, inbound: int, rows: seq<Stat>)
    requires Largest(stats, rows)
    ensures Largest(Noted(stats, s, inbound), rows + [s.(inbound := if s.inbound != 0 then s.inbound else inbound)])
  {
  }

  lemma {:induction false} NotedAllLargest(stats: Stats, rows: seq<Stat>, inbound: int, seen: seq<Stat>)
    requires Largest(stats, seen)
    ensures Largest(NotedAll(stats, rows, inbound), seen + Placed(rows, inbound))
  {
    if rows == [] {
      assert seen + Placed(rows, inbound) == seen;
    } else {
      var n := |rows| - 1;
      NotedAllLargest(stats, rows[..n], inbound, seen);
      NotedLargest(NotedAll(stats, rows[..n], inbound), rows[n], inbound, seen + Placed(rows[..n], inbound));
      var s := rows[n].(inbound := if rows[n].inbound != 0 then rows[n].inbound else inbound);
      assert seen + Placed(rows, inbound) == seen + Placed(rows[..n], inbound) + [s];
    }
  }

  /** The row kept for an email is a reported one with the largest total of that email's rows. */
  lemma {:induction false} LargestIsKept(inbounds: seq<Inbound>)
    ensures Largest(StatsOf(inbounds), AllRows(inbounds))
  {
    if inbounds != [] {
      var n := |inbounds| - 1;
      LargestIsKept(inbounds[..n]);
      NotedAllLargest(StatsOf(inbounds[..n]), inbounds[n].stats, inbounds[n].id, AllRows(inbounds[..n]));
    }
  }

  // ---------- groups ----------

  function KeyOf(l: Link): Key { Key(l.client, l.email) }

  predicate InGroup(l: Link, server: Id, k: Key) {
    l.server == server && KeyOf(l) == k
  }

  predicate Places(links: seq<Link>, g: seq<nat>) {
    forall j :: 0 <= j < |g| ==> g[j] < |links|
  }

  /** The places of a group's links, in table order. */
  function Group(links: seq<Link>, server: Id, k: Key): (g: seq<nat>)
    ensures Places(links, g)
    ensures forall i: nat :: i in g <==> i < |links| && InGroup(links[i], server, k)
  {
    if links == [] then []
    else
      var n := |links| - 1;
      Group(links[..n], server, k) + (if InGroup(links[n], server, k) then [n] else [])
  }

  /** The remote clients on a server, in the order of their first link. */
  function Keys(links: seq<Link>, server: Id): (ks: seq<Key>)
    ensures forall k :: k in ks <==> exists i :: 0 <= i < |links| && InGroup(links[i], server, k)
    ensures forall i, j :: 0 <= i < j < |ks| ==> ks[i] != ks[j]
  {
    if links == [] then []
    else
      var n := |links| - 1;
      var front := Keys(links[..n], server);
      assert forall i :: 0 <= i < n ==> links[..n][i] == links[i];
      if links[n].server == server && KeyOf(links[n]) !in front then front + [KeyOf(links[n])] else front
  }

  function FirstUnder(links: seq<Link>, g: seq<nat>, inbound: int): (i: nat)
    requires Places(links, g)
    ensures i <= |g| && (forall j :: 0 <= j < i ==> links[g[j]].inbound != inbound)
    ensures i < |g| ==> links[g[i]].inbound == inbound
  {
    if g == [] || links[g[0]].inbound == inbound then 0
    else
      assert forall j :: 1 <= j < |g| ==> g[j] == g[1..][j - 1];
      1 + FirstUnder(links, g[1..], inbound)
  }

  function LowestInbound(links: seq<Link>, g: seq<nat>): (p: nat)
    requires g != [] && Places(links, g)
    ensures p in g && forall i: nat :: i in g ==> links[p].inbound <= links[i].inbound
  {
    if |g| == 1 then g[0]
    else
      var rest := LowestInbound(links, g[1..]);
      assert forall i: nat :: i in g <==> i == g[0] || i in g[1..];
      if links[g[0]].inbound <= links[rest].inbound then g[0] else rest
  }

  /** The link that holds the usage: the one under the reported inbound, else the lowest inbound's. */
  function Primary(links: seq<Link>, g: seq<nat>, inbound: int): (p: nat)
    requires g != [] && Places(links, g)
    ensures p in g && p < |links|
    ensures (exists i: nat :: i in g && links[i].inbound == inbound) ==> links[p].inbound == inbound
    ensures (forall i: nat :: i in g ==> links[i].inbound != inbound)
      ==> forall i: nat :: i in g ==> links[p].inbound <= links[i].inbound
  {
    var i := FirstUnder(links, g, inbound);
    if i < |g| then g[i] else LowestInbound(links, g)
  }

  function PrimaryOf(links: seq<Link>, server: Id, k: Key, inbound: int): (p: nat)
    requires k in Keys(links, server)
    ensures p < |links| && InGroup(links[p], server, k)
  {
    Primary(links, Group(links, server, k), inbound)
  }

  // ---------- the new links, usage rows and clients ----------

  predicate IsReported(l: Link, server: Id, stats: Stats) {
    l.server == server && l.email in stats
  }

  function SyncedLink(links: seq<Link>, server: Id, stats: Stats, i: nat): Link
    requires i < |links| && links[i].server == server
  {
    var l := links[i];
    if l.email !in stats then l.(missing := true)
    else
      var s := stats[l.email];
      assert InGroup(l, server, KeyOf(l));
      if i == PrimaryOf(links, server, KeyOf(l), s.inbound)
      then l.(up := Counter(s, Up), down := Counter(s, Down), enabled := s.enable, missing := false)
      else l.(up := 0, down := 0, enabled := s.enable, missing := false)
  }

  /** The links once the groups of `ks` have been written. */
  function Synced(links: seq<Link>, server: Id, stats: Stats, ks: seq<Key>): (r: seq<Link>)
    ensures |r| == |links|
  {
    seq(|links|, i requires 0 <= i < |links| =>
      if links[i].server == server && KeyOf(links[i]) in ks then SyncedLink(links, server, stats, i) else links[i])
  }

  /** What a counter grew by; a decrease means it was reset and counted up again. */
  function Growth(now: nat, before: nat): nat {
    if now >= before then now - before else now
  }

  function DeltaOf(links: seq<Link>, server: Id, stats: Stats, k: Key, w: Way): nat
    requires k in Keys(links, server)
  {
    if k.email !in stats then 0
    else
      var s := stats[k.email];
      Growth(Counter(s, w), Amount(links[PrimaryOf(links, server, k, s.inbound)], w))
  }

  function RowOf(links: seq<Link>, server: Id, stats: Stats, k: Key): seq<Usage>
    requires k in Keys(links, server)
  {
    var up, down := DeltaOf(links, server, stats, k, Up), DeltaOf(links, server, stats, k, Down);
    if up + down > 0 then [Usage(k.client, up, down)] else []
  }

  function UsageRows(links: seq<Link>, server: Id, stats: Stats, ks: seq<Key>): seq<Usage>
    requires forall k :: k in ks ==> k in Keys(links, server)
  {
    if ks == [] then []
    else UsageRows(links, server, stats, ks[..|ks| - 1]) + RowOf(links, server, stats, ks[|ks| - 1])
  }

  function Total(links: seq<Link>, c: Id, w: Way): nat {
    if links == [] then 0
    else
      var l := links[|links| - 1];
      Total(links[..|links| - 1], c, w) + (if l.client == c then Amount(l, w) else 0)
  }

  function Label(c: Client, up: nat, down: nat, now: int): Status {
    if c.status == Disabled then Disabled
    else if c.expires.Some? && c.expires.value < now then Status.Expired
    else if c.limit > 0 && up + down >= c.limit then Limited
    else Active
  }

  function Recomputed(c: Client, links: seq<Link>, id: Id, now: int): Client {
    var up, down := Total(links, id, Up), Total(links, id, Down);
    c.(usedUp := up, usedDown := down, status := Label(c, up, down, now))
  }

  predicate Touched(links: seq<Link>, server: Id, stats: Stats, ks: seq<Key>, c: Id) {
    exists i :: 0 <= i < |ks| && ks[i].client == c && ks[i].email in stats
  }

  datatype Books = Books(links: seq<Link>, usage: seq<Usage>, clients: map<Id, Client>)

  function Sync(b: Books, server: Id, inbounds: seq<Inbound>, now: int): Books {
    var stats, ks := StatsOf(inbounds), Keys(b.links, server);
    var links := Synced(b.links, server, stats, ks);
    Books(links, b.usage + UsageRows(b.links, server, stats, ks),
          map c | c in b.clients ::
            if Touched(b.links, server, stats, ks, c) then Recomputed(b.clients[c], links, c, now) else b.clients[c])
  }
}
