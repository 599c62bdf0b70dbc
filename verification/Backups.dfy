/** The backup schedule and the retention of old backups. Days are 24 hours long. */
module Backups {
  import opened Results

  type Id = string

  const MINUTE := 60000
  const HOUR := 3600000
  const DAY := 86400000
  const SCHEDULE_MINUTE := 15

  datatype Settings = Settings(enabled: bool, hour: int, extraHours: seq<int>, keepLast: nat, keepDays: nat)

  // ---------- the schedule ----------

  predicate ValidHour(h: int) { 0 <= h <= 23 }

  predicate Chosen(s: Settings, h: int) {
    ValidHour(h) && (h == s.hour || h in s.extraHours)
  }

  /** The start of the day an instant falls in. */
  function DayStart(t: int): int { t / DAY * DAY }

  function Slot(day: int, h: int): int { day + h * HOUR + SCHEDULE_MINUTE * MINUTE }

  ghost predicate Scheduled(s: Settings, t: int) {
    exists h :: Chosen(s, h) && t == Slot(DayStart(t), h)
  }

  ghost predicate Climbing(hours: seq<int>) {
    forall i, j :: 0 <= i < j < |hours| ==> hours[i] < hours[j]
  }

  /** Every chosen hour once, in order. */
  method BackupTimes(s: Settings) returns (times: seq<int>)
    ensures Climbing(times) && forall h :: h in times <==> 0 <= h <= 23 && (h == s.hour || h in s.extraHours)
  {
    times := [];
    var all := [s.hour] + s.extraHours;
    for i := 0 to |all|
      invariant Climbing(times)
      invariant forall h :: h in times <==> ValidHour(h) && h in all[..i]
    {
      if ValidHour(all[i]) && all[i] !in times {
        times := Inserted(times, all[i]);
      }
    }
    assert all[..|all|] == all;
  }

  function Inserted(hours: seq<int>, h: int): (r: seq<int>)
    requires Climbing(hours) && h !in hours
    ensures Climbing(r) && forall x :: x in r <==> x in hours || x == h
  {
    if hours == [] || h < hours[0] then [h] + hours
    else
      assert h > hours[0];
      assert forall i :: 0 <= i < |hours[1..]| ==> hours[0] < hours[1..][i];
      var rest := Inserted(hours[1..], h);
      assert forall i :: 0 <= i < |rest| ==> rest[i] in rest;
      [hours[0]] + rest
  }

  lemma DayHolds(t: int)
    ensures DayStart(t) <= t < DayStart(t) + DAY && DayStart(t) % DAY == 0
  {
  }

  lemma DayIs(day: int, t: int)
    requires day % DAY == 0 && day <= t < day + DAY
    ensures DayStart(t) == day
  {
  }

  lemma LaterDay(day: int, other: int)
    requires day % DAY == 0 && other % DAY == 0 && other > day
    ensures other >= day + DAY
  {
  }

  lemma SlotsOfDays(t: int, u: int, h: int, g: int)
    requires ValidHour(h) && ValidHour(g)
    ensures DayStart(Slot(DayStart(t), h)) == DayStart(t)
    ensures DayStart(Slot(DayStart(t) + DAY, h)) == DayStart(t) + DAY
    ensures u == Slot(DayStart(u), g) && DayStart(u) < DayStart(t) ==> u < DayStart(t)
    ensures DayStart(u) > DayStart(t) ==> DayStart(u) >= DayStart(t) + DAY
    ensures DayStart(t) <= t < DayStart(t) + DAY
  {
    DayHolds(t);
    DayHolds(u);
    var start, other := DayStart(t), DayStart(u);
    DayIs(start, Slot(start, h));
    DayIs(start + DAY, Slot(start + DAY, h));
    if other > start {
      LaterDay(start, other);
    } else if other < start {
      LaterDay(other, start);
    }
    hide DayStart;
  }

  /**
   The next run is the first scheduled instant after `from`; there is none only when switched off or without a
   valid hour.
   */
  method NextRunAt(s: Settings, from: int) returns (next: Option<int>)
    ensures next.None? <==> !s.enabled || forall h :: 0 <= h <= 23 ==> h != s.hour && h !in s.extraHours
    ensures next.Some? ==> Scheduled(s, next.value) && next.value > from
    ensures next.Some? ==> forall t :: Scheduled(s, t) && t > from ==> next.value <= t
  {
    if !s.enabled {
      return None;
    }
    var times := BackupTimes(s);
    if |times| == 0 {
      assert s.hour !in times && forall h :: h in s.extraHours ==> h !in times;
      return None;
    }
    var start := DayStart(from);
    assert times[0] in times;
    for day := 0 to 2
      invariant day > 0 ==> forall h :: h in times ==> Slot(start, h) <= from
      invariant day < 2
    {
      for i := 0 to |times|
        invariant forall j :: 0 <= j < i ==> Slot(start + day * DAY, times[j]) <= from
        invariant day == 1 ==> i == 0
      {
        var h := times[i];
        assert h in times;
        var d := Slot(start + day * DAY, h);
        if d > from {
          FirstAfter(s, times, from, day, i);
          return Some(d);
        }
        SlotsOfDays(from, from, h, h);
      }
      assert forall h :: h in times ==> exists j :: 0 <= j < |times| && times[j] == h;
      assert day == 0;
    }
    return None;
  }

  lemma FirstAfter(s: Settings, times: seq<int>, from: int, day: nat, i: nat)
    requires Climbing(times) && (forall h :: h in times <==> Chosen(s, h)) && i < |times| && day < 2
    requires Slot(DayStart(from) + day * DAY, times[i]) > from
    requires forall j :: 0 <= j < i ==> Slot(DayStart(from) + day * DAY, times[j]) <= from
    requires day == 1 ==> i == 0 && forall h :: h in times ==> Slot(DayStart(from), h) <= from
    ensures var d := Slot(DayStart(from) + day * DAY, times[i]);
      Scheduled(s, d) && forall t :: Scheduled(s, t) && t > from ==> d <= t
  {
    var start := DayStart(from);
    var d := Slot(start + day * DAY, times[i]);
    assert times[i] in times;
    SlotsOfDays(from, from, times[i], times[i]);
    assert d == Slot(DayStart(d), times[i]);
    forall t | Scheduled(s, t) && t > from ensures d <= t {
      var g :| Chosen(s, g) && t == Slot(DayStart(t), g);
      assert g in times;
      var k :| 0 <= k < |times| && times[k] == g;
      SlotsOfDays(from, t, times[i], g);
      assert DayStart(t) >= start;
      if day == 0 && DayStart(t) == start {
        assert k >= i;
      }
    }
  }

  // ---------- retention ----------

  datatype Status = Running | Done | Failed

  datatype Row = Row(id: Id, status: Status, at: int)

  ghost predicate DistinctIds(rows: seq<Row>) {
    forall i, j :: 0 <= i < j < |rows| ==> rows[i].id != rows[j].id
  }

  ghost predicate NewestFirst(rows: seq<Row>) {
    forall i, j :: 0 <= i < j < |rows| ==> rows[i].at >= rows[j].at
  }

  function Insert(r: Row, rows: seq<Row>): seq<Row> {
    if rows == [] || r.at >= rows[0].at then [r] + rows else [rows[0]] + Insert(r, rows[1..])
  }

  /** The finished backups, newest first. */
  function Ranked(rows: seq<Row>): seq<Row> {
    if rows == [] then []
    else
      var rest := Ranked(rows[1..]);
      if rows[0].status == Done then Insert(rows[0], rest) else rest
  }

  predicate TooOld(s: Settings, r: Row, now: int) {
    s.keepDays > 0 && now - s.keepDays * DAY > 0 && r.at < now - s.keepDays * DAY
  }

  predicate Stays(s: Settings, r: Row, rank: nat, protect: set<Id>, now: int) {
    rank == 0 || r.id in protect || (rank < s.keepLast && !TooOld(s, r, now))
  }

  /** Ids of the ranked rows, from the k-th on, that are to go. */
  function Doomed(s: Settings, ranked: seq<Row>, k: nat, protect: set<Id>, now: int): set<Id> {
    if ranked == [] then {}
    else
      (if Stays(s, ranked[0], k, protect, now) then {} else {ranked[0].id})
      + Doomed(s, ranked[1..], k + 1, protect, now)
  }

  predicate StaleFailure(r: Row, now: int) {
    r.status == Failed && r.at < now - 30 * DAY
  }

  function Without(rows: seq<Row>, gone: set<Id>): seq<Row> {
    if rows == [] then [] else (if rows[0].id in gone then [] else [rows[0]]) + Without(rows[1..], gone)
  }

  function WithoutFailures(rows: seq<Row>, now: int): seq<Row> {
    if rows == [] then [] else (if StaleFailure(rows[0], now) then [] else [rows[0]]) + WithoutFailures(rows[1..], now)
  }

  /** `stuck` are the backups whose deletion fails; the failure is ignored. */
  function Retained(s: Settings, rows: seq<Row>, protect: set<Id>, now: int, stuck: set<Id>): seq<Row> {
    WithoutFailures(Without(rows, Doomed(s, Ranked(rows), 0, protect, now) - stuck), now)
  }

  lemma {:induction false} WithoutNone(rows: seq<Row>)
    ensures Without(rows, {}) == rows
  {
    if rows != [] { WithoutNone(rows[1..]); }
  }

  lemma {:induction false} WithoutTwice(rows: seq<Row>, a: set<Id>, b: set<Id>)
    ensures Without(Without(rows, a), b) == Without(rows, a + b)
  {
    if rows != [] {
      WithoutTwice(rows[1..], a, b);
      var rest := Without(rows[1..], a);
      assert [rows[0]] + rest == [rows[0]] + rest && ([rows[0]] + rest)[1..] == rest;
      assert [] + rest == rest;
    }
  }

  lemma {:induction false} WithoutMembers(rows: seq<Row>, gone: set<Id>)
    ensures forall r :: r in Without(rows, gone) <==> r in rows && r.id !in gone
  {
    if rows != [] { WithoutMembers(rows[1..], gone); }
  }

  lemma {:induction false} WithoutFailuresMembers(rows: seq<Row>, now: int)
    ensures forall r :: r in WithoutFailures(rows, now) <==> r in rows && !StaleFailure(r, now)
  {
    if rows != [] { WithoutFailuresMembers(rows[1..], now); }
  }

  lemma {:induction false} InsertMembers(r: Row, rows: seq<Row>)
    ensures forall x :: x in Insert(r, rows) <==> x == r || x in rows
  {
    if rows != [] && r.at < rows[0].at { InsertMembers(r, rows[1..]); }
  }

  lemma {:induction false} InsertSorts(r: Row, rows: seq<Row>)
    requires NewestFirst(rows)
    ensures NewestFirst(Insert(r, rows))
  {
    if rows != [] && r.at < rows[0].at {
      InsertSorts(r, rows[1..]);
      InsertMembers(r, rows[1..]);
      var rest := Insert(r, rows[1..]);
      forall j | 0 <= j < |rest| ensures rest[j].at <= rows[0].at {
        assert rest[j] in rest;
      }
    }
  }

  lemma {:induction false} RankedMembers(rows: seq<Row>)
    ensures forall r :: r in Ranked(rows) <==> r in rows && r.status == Done
    ensures NewestFirst(Ranked(rows))
  {
    if rows != [] {
      RankedMembers(rows[1..]);
      InsertMembers(rows[0], Ranked(rows[1..]));
      InsertSorts(rows[0], Ranked(rows[1..]));
    }
  }

  /** Dropping rows and then ranking is ranking and then dropping. */
  lemma {:induction false} InsertWithout(r: Row, rows: seq<Row>, gone: set<Id>)
    requires NewestFirst(rows)
    ensures Without(Insert(r, rows), gone)
      == if r.id in gone then Without(rows, gone) else Insert(r, Without(rows, gone))
  {
    if rows == [] || r.at >= rows[0].at {
      assert ([r] + rows)[1..] == rows;
      WithoutMembers(rows, gone);
      var w := Without(rows, gone);
      assert w != [] ==> w[0] in w;
      assert [] + w == w;
    } else {
      InsertWithout(r, rows[1..], gone);
      var rest := Insert(r, rows[1..]);
      assert ([rows[0]] + rest)[1..] == rest;
      var w := Without(rows[1..], gone);
      assert ([rows[0]] + w)[1..] == w;
      assert [] + w == w && [] + Without(rest, gone) == Without(rest, gone);
    }
  }

  lemma {:induction false} RankedWithout(rows: seq<Row>, gone: set<Id>)
    ensures Ranked(Without(rows, gone)) == Without(Ranked(rows), gone)
  {
    if rows != [] {
      RankedWithout(rows[1..], gone);
      RankedMembers(rows[1..]);
      var w := Without(rows[1..], gone);
      assert ([rows[0]] + w)[1..] == w && [] + w == w;
      hide NewestFirst;
      if rows[0].status == Done {
        InsertWithout(rows[0], Ranked(rows[1..]), gone);
      }
    }
  }

  lemma {:induction false} RankedWithoutFailures(rows: seq<Row>, now: int)
    ensures Ranked(WithoutFailures(rows, now)) == Ranked(rows)
  {
    if rows != [] {
      RankedWithoutFailures(rows[1..], now);
      var w := WithoutFailures(rows[1..], now);
      assert ([rows[0]] + w)[1..] == w && [] + w == w;
    }
  }

  lemma {:induction false} DoomedExactly(s: Settings, ranked: seq<Row>, k: nat, protect: set<Id>, now: int)
    requires DistinctIds(ranked)
    ensures forall i :: 0 <= i < |ranked|
              ==> (ranked[i].id in Doomed(s, ranked, k, protect, now) <==> !Stays(s, ranked[i], k + i, protect, now))
    ensures forall id :: id in Doomed(s, ranked, k, protect, now)
              ==> exists i :: 0 <= i < |ranked| && ranked[i].id == id
  {
    if ranked != [] {
      DoomedExactly(s, ranked[1..], k + 1, protect, now);
      hide Stays;
      forall i | 0 <= i < |ranked|
        ensures ranked[i].id in Doomed(s, ranked, k, protect, now) <==> !Stays(s, ranked[i], k + i, protect, now)
      {
        assert i > 0 ==> ranked[i] == ranked[1..][i - 1];
      }
      assert forall i :: 0 <= i < |ranked[1..]| ==> ranked[1..][i] == ranked[i + 1];
    }
  }

  lemma {:induction false} RankedDistinct(rows: seq<Row>)
    requires DistinctIds(rows)
    ensures DistinctIds(Ranked(rows))
  {
    if rows != [] {
      RankedDistinct(rows[1..]);
      RankedMembers(rows[1..]);
      var rest := Ranked(rows[1..]);
      forall x | x in rest ensures x.id != rows[0].id {
        var m :| 0 <= m < |rows[1..]| && rows[1..][m] == x;
        assert rows[m + 1] == x;
      }
      InsertDistinct(rows[0], rest);
    }
  }

  lemma {:induction false} InsertDistinct(r: Row, rows: seq<Row>)
    requires DistinctIds(rows) && forall x :: x in rows ==> x.id != r.id
    ensures DistinctIds(Insert(r, rows))
  {
    if rows != [] && r.at < rows[0].at {
      InsertDistinct(r, rows[1..]);
      InsertMembers(r, rows[1..]);
      var rest := Insert(r, rows[1..]);
      forall j | 0 <= j < |rest| ensures rest[j].id != rows[0].id {
        assert rest[j] in rest;
      }
    }
  }

  /** A row's rank: its place among the finished backups, newest first. */
  ghost predicate RankIs(rows: seq<Row>, r: Row, rank: nat) {
    rank < |Ranked(rows)| && Ranked(rows)[rank] == r
  }

  /** What exactly survives: by rank for finished backups, by age for failed ones, everything else untouched. */
  lemma Survivors(s: Settings, rows: seq<Row>, protect: set<Id>, now: int, stuck: set<Id>, r: Row, rank: nat)
    requires DistinctIds(rows) && r in rows && (r.status == Done ==> RankIs(rows, r, rank))
    ensures r in Retained(s, rows, protect, now, stuck) <==>
      if r.status == Done then r.id in stuck || Stays(s, r, rank, protect, now) else !StaleFailure(r, now)
  {
    var ranked := Ranked(rows);
    var gone := Doomed(s, ranked, 0, protect, now) - stuck;
    WithoutMembers(rows, gone);
    WithoutFailuresMembers(Without(rows, gone), now);
    RankedDistinct(rows);
    RankedMembers(rows);
    DoomedExactly(s, ranked, 0, protect, now);
    hide Stays, StaleFailure, Doomed, Without, WithoutFailures, Ranked;
    if r.status != Done && r.id in gone {
      assert false;
    }
  }

  /** The newest finished backup and every protected one are always kept. */
  lemma NewestAndProtectedStay(s: Settings, rows: seq<Row>, protect: set<Id>, now: int, stuck: set<Id>, r: Row)
    requires DistinctIds(rows) && r in rows && r.status == Done
    requires r.id in protect || RankIs(rows, r, 0)
    ensures r in Retained(s, rows, protect, now, stuck)
  {
    RankedMembers(rows);
    assert r in Ranked(rows);
    var rank: nat :| rank < |Ranked(rows)| && Ranked(rows)[rank] == r && (r.id in protect || rank == 0);
    Survivors(s, rows, protect, now, stuck, r, rank);
  }

  lemma {:induction false} CountLeft(s: Settings, ranked: seq<Row>, k: nat, protect: set<Id>, now: int, gone: set<Id>)
    requires DistinctIds(ranked)
    requires forall i :: 0 <= i < |ranked| ==> (ranked[i].id !in gone ==> Stays(s, ranked[i], k + i, protect, now))
    ensures var m := if s.keepLast == 0 then 1 else s.keepLast;
      |Without(ranked, gone)| <= (if k < m then m - k else 0) + |protect|
  {
    if ranked != [] {
      var first, rest := ranked[0], ranked[1..];
      assert forall i :: 0 <= i < |rest| ==> rest[i] == ranked[i + 1];
      var fewer := protect - {first.id};
      forall i | 0 <= i < |rest| && rest[i].id !in gone ensures Stays(s, rest[i], k + 1 + i, fewer, now) {
        assert ranked[i + 1].id !in gone && ranked[i + 1].id != first.id;
        assert Stays(s, ranked[i + 1], k + (i + 1), protect, now);
      }
      hide TooOld;
      if first.id in gone || first.id !in protect {
        CountLeft(s, rest, k + 1, protect, now, gone);
        if first.id !in gone {
          assert Stays(s, ranked[0], k + 0, protect, now);
        }
      } else {
        CountLeft(s, rest, k + 1, fewer, now, gone);
        assert |protect| == |fewer| + 1;
      }
    }
  }

  /** When every deletion works, at most keepLast finished backups (or one) stay besides the protected ones. */
  lemma AtMostKeepLast(s: Settings, rows: seq<Row>, protect: set<Id>, now: int)
    requires DistinctIds(rows)
    ensures |Ranked(Retained(s, rows, protect, now, {}))| <= (if s.keepLast == 0 then 1 else s.keepLast) + |protect|
  {
    var ranked := Ranked(rows);
    var gone := Doomed(s, ranked, 0, protect, now) - {};
    RankedDistinct(rows);
    DoomedExactly(s, ranked, 0, protect, now);
    RankedWithoutFailures(Without(rows, gone), now);
    RankedWithout(rows, gone);
    hide Stays, Doomed, Ranked, Without, WithoutFailures;
    CountLeft(s, ranked, 0, protect, now, gone);
  }

  lemma {:induction false} RanksFall(ranked: seq<Row>, gone: set<Id>, j: nat) returns (i: nat)
    requires j < |Without(ranked, gone)|
    ensures j <= i < |ranked| && ranked[i] == Without(ranked, gone)[j] && ranked[i].id !in gone
    ensures i == 0 || j < i || ranked[0].id !in gone
  {
    if ranked[0].id !in gone && j == 0 {
      i := 0;
    } else {
      i := RanksFall(ranked[1..], gone, if ranked[0].id in gone then j else j - 1);
      i := i + 1;
    }
  }

  lemma {:induction false} DoomedNone(s: Settings, ranked: seq<Row>, k: nat, protect: set<Id>, now: int)
    requires forall i :: 0 <= i < |ranked| ==> Stays(s, ranked[i], k + i, protect, now)
    ensures Doomed(s, ranked, k, protect, now) == {}
  {
    if ranked != [] {
      assert Stays(s, ranked[0], k + 0, protect, now);
      forall i | 0 <= i < |ranked[1..]| ensures Stays(s, ranked[1..][i], k + 1 + i, protect, now) {
        assert Stays(s, ranked[i + 1], k + (i + 1), protect, now);
      }
      DoomedNone(s, ranked[1..], k + 1, protect, now);
    }
  }

  lemma {:induction false} FailuresGone(rows: seq<Row>, now: int)
    ensures WithoutFailures(WithoutFailures(rows, now), now) == WithoutFailures(rows, now)
  {
    if rows != [] {
      FailuresGone(rows[1..], now);
      var w := WithoutFailures(rows[1..], now);
      assert ([rows[0]] + w)[1..] == w && [] + w == w;
    }
  }

  /** Run again at the same instant the retention removes nothing more. */
  lemma Idempotent(s: Settings, rows: seq<Row>, protect: set<Id>, now: int)
    requires DistinctIds(rows)
    ensures var once := Retained(s, rows, protect, now, {}); Retained(s, once, protect, now, {}) == once
  {
    var ranked := Ranked(rows);
    var gone := Doomed(s, ranked, 0, protect, now) - {};
    var once := Retained(s, rows, protect, now, {});
    RankedDistinct(rows);
    DoomedExactly(s, ranked, 0, protect, now);
    RankedWithoutFailures(Without(rows, gone), now);
    RankedWithout(rows, gone);
    var left := Ranked(once);
    assert left == Without(ranked, gone);
    hide Doomed, Ranked, Without, WithoutFailures, TooOld;
    forall j | 0 <= j < |left| ensures Stays(s, left[j], 0 + j, protect, now) {
      var i := RanksFall(ranked, gone, j);
      assert Stays(s, ranked[i], 0 + i, protect, now);
    }
    DoomedNone(s, left, 0, protect, now);
    hide Stays;
    FailuresGone(Without(rows, gone), now);
    WithoutNone(once);
    var none: set<Id> := {};
    assert Doomed(s, left, 0, protect, now) - none == none;
  }

  // ---------- the service ----------

  class BackupTable {
    var rows: seq<Row>

    constructor (rows: seq<Row>)
      ensures this.rows == rows
    {
      this.rows := rows;
    }

    /** Deletes what retention does not keep; a deletion that fails leaves its row. */
    method ApplyRetention(s: Settings, protect: set<Id>, now: int, stuck: set<Id>)
      modifies this
      ensures rows == Retained(s, old(rows), protect, now, stuck)
    {
      var ok := Ranked(rows);
      var cutoff := if s.keepDays > 0 then now - s.keepDays * DAY else 0;
      var i := 0;
      ghost var before := rows;
      ghost var gone: set<Id> := {};
      WithoutNone(rows);
      while i < |ok|
        invariant 0 <= i <= |ok|
        invariant rows == Without(before, gone)
        invariant gone + (Doomed(s, ok[i..], i, protect, now) - stuck) == Doomed(s, ok, 0, protect, now) - stuck
      {
        var b, index := ok[i], i;
        assert ok[i..][0] == b && ok[i..][1..] == ok[i + 1..];
        i := i + 1;
        if index == 0 || b.id in protect {
          continue;
        }
        var tooMany := index >= s.keepLast;
        var tooOld := cutoff > 0 && b.at < cutoff;
        if tooMany || tooOld {
          if b.id !in stuck {
            WithoutTwice(before, gone, {b.id});
            rows := Without(rows, {b.id});
            gone := gone + {b.id};
          }
        }
      }
      assert Doomed(s, ok[i..], i, protect, now) == {};
      assert gone == Doomed(s, ok, 0, protect, now) - stuck;
      rows := WithoutFailures(rows, now);
    }
  }
}
