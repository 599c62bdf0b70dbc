/**
 The unified log: five tables, each read newest first, shown as one list in pages.
 A page fetches only a prefix of every table; the reference fetches everything.
 */
module UnifiedLog {
  import opened Results
  import opened LogLevels

  /** `at` counts milliseconds; the instants' text form has a fixed width, so it sorts the same way. */
  datatype Entry = Entry(id: string, source: Source, level: Level, at: int)

  /** The rows of each table that match the filter, newest first. */
  datatype Tables = Tables(audit: seq<Entry>, notification: seq<Entry>, webhook: seq<Entry>,
                           incident: seq<Entry>, backup: seq<Entry>)

  const SOURCES: seq<Source> := [Audit, Notification, Webhook, Incident, Backup]
  const WINDOW := 5000

  function Rows(t: Tables, s: Source): seq<Entry> {
    match s
    case Audit => t.audit
    case Notification => t.notification
    case Webhook => t.webhook
    case Incident => t.incident
    case Backup => t.backup
  }

  datatype Query = Query(sources: set<Source>, levels: seq<Level>, oneAdmin: bool, skip: Option<int>, take: Option<int>)

  function LevelsOf(q: Query): seq<Level> {
    if q.levels == [] then ALL else q.levels
  }

  predicate Wanted(q: Query, s: Source) {
    q.sources == {} || s in q.sources
  }

  predicate IsActive(q: Query, s: Source) {
    !(q.oneAdmin && (s == Incident || s == Backup)) && Asks(s, LevelsOf(q))
  }

  function Clamp(v: Option<int>, fallback: int, min: int, max: int): int {
    match v
    case None => fallback
    case Some(n) => if n < min then min else if n > max then max else n
  }

  function TakeOf(q: Query): int { Clamp(q.take, 200, 1, 5000) }

  function SkipOf(q: Query): int { Clamp(q.skip, 0, 0, 100000) }

  // ---------- stable sort ----------

  ghost predicate NewestFirst(s: seq<Entry>) {
    forall i, j :: 0 <= i < j < |s| ==> s[i].at >= s[j].at
  }

  /** `e` came before all of `s`, so it goes in front of the entries of its own time. */
  function Insert(e: Entry, s: seq<Entry>): seq<Entry> {
    if s == [] || e.at >= s[0].at then [e] + s else [s[0]] + Insert(e, s[1..])
  }

  function Sort(s: seq<Entry>): seq<Entry> {
    if s == [] then [] else Insert(s[0], Sort(s[1..]))
  }

  function At(s: seq<Entry>, t: int): seq<Entry> {
    if s == [] then [] else (if s[0].at == t then [s[0]] else []) + At(s[1..], t)
  }

  /** Newest first, and the entries of any one time in the order they had. */
  ghost predicate IsStableSort(r: seq<Entry>, s: seq<Entry>) {
    NewestFirst(r) && forall t :: At(r, t) == At(s, t)
  }

  lemma {:induction false} InsertAt(e: Entry, s: seq<Entry>, t: int)
    requires NewestFirst(s)
    ensures NewestFirst(Insert(e, s)) && At(Insert(e, s), t) == At([e] + s, t)
    ensures forall x :: x in Insert(e, s) ==> x == e || x in s
  {
    if s == [] || e.at >= s[0].at {
    } else {
      var rest := Insert(e, s[1..]);
      InsertAt(e, s[1..], t);
      assert Insert(e, s) == [s[0]] + rest && ([s[0]] + rest)[1..] == rest;
      assert ([e] + s)[1..] == s && ([e] + s[1..])[1..] == s[1..];
      forall k | 0 <= k < |rest| ensures rest[k].at <= s[0].at {
        assert rest[k] in rest;
      }
    }
  }

  lemma {:induction false} SortIsStable(s: seq<Entry>)
    ensures IsStableSort(Sort(s), s)
  {
    if s != [] {
      SortIsStable(s[1..]);
      forall t ensures NewestFirst(Sort(s)) && At(Sort(s), t) == At(s, t) {
        var rest := Sort(s[1..]);
        InsertAt(s[0], rest, t);
        var first := if s[0].at == t then [s[0]] else [];
        assert ([s[0]] + rest)[1..] == rest;
        assert At([s[0]] + rest, t) == first + At(rest, t) && At(s, t) == first + At(s[1..], t);
        hide At, Insert;
      }
    }
  }

  lemma {:induction false} AtMembers(s: seq<Entry>, t: int)
    ensures forall x :: x in At(s, t) ==> x in s && x.at == t
    ensures forall x :: x in s && x.at == t ==> x in At(s, t)
  {
    if s != [] {
      AtMembers(s[1..], t);
    }
  }

  /** The newest time of both lists is the same, so their heads agree. */
  lemma SameHead(r: seq<Entry>, q: seq<Entry>)
    requires NewestFirst(r) && NewestFirst(q) && forall t :: At(r, t) == At(q, t)
    requires r != []
    ensures q != [] && r[0] == q[0]
  {
    AtMembers(r, r[0].at);
    AtMembers(q, r[0].at);
    assert r[0] in At(q, r[0].at);
    AtMembers(q, q[0].at);
    AtMembers(r, q[0].at);
    assert q[0] in At(r, q[0].at);
    assert r[0].at == q[0].at;
    assert At(r, r[0].at)[0] == r[0] && At(q, r[0].at)[0] == q[0];
  }

  /** A stable sort has only one possible result, whatever algorithm computes it. */
  lemma {:induction false} StableSortIsUnique(r: seq<Entry>, q: seq<Entry>)
    requires NewestFirst(r) && NewestFirst(q) && forall t :: At(r, t) == At(q, t)
    ensures r == q
  {
    if r != [] {
      SameHead(r, q);
      forall t ensures At(r[1..], t) == At(q[1..], t) {
        assert At(r, t) == At(q, t);
        var first := if r[0].at == t then [r[0]] else [];
        assert At(r, t) == first + At(r[1..], t) && At(q, t) == first + At(q[1..], t);
        assert (first + At(r[1..], t))[|first|..] == At(r[1..], t);
        assert (first + At(q[1..], t))[|first|..] == At(q[1..], t);
      }
      StableSortIsUnique(r[1..], q[1..]);
      assert r == [r[0]] + r[1..] && q == [q[0]] + q[1..];
    } else if q != [] {
      SameHead(q, r);
    }
  }

  lemma {:induction false} InsertKeepsAll(e: Entry, s: seq<Entry>)
    ensures multiset(Insert(e, s)) == multiset{e} + multiset(s)
  {
    if s == [] || e.at >= s[0].at {
    } else {
      InsertKeepsAll(e, s[1..]);
      assert s == [s[0]] + s[1..];
    }
  }

  lemma {:induction false} SortKeepsAll(s: seq<Entry>)
    ensures multiset(Sort(s)) == multiset(s) && |Sort(s)| == |s|
  {
    if s != [] {
      SortKeepsAll(s[1..]);
      InsertKeepsAll(s[0], Sort(s[1..]));
      assert s == [s[0]] + s[1..];
      assert |multiset(Sort(s))| == |multiset(s)|;
    }
  }

  lemma {:induction false} SortedIsFixed(s: seq<Entry>)
    requires NewestFirst(s)
    ensures Sort(s) == s
  {
    if s != [] {
      SortedIsFixed(s[1..]);
    }
  }

  // ---------- merging ----------

  function Merge(x: seq<Entry>, y: seq<Entry>): seq<Entry> {
    if x == [] then y
    else if y == [] || x[0].at >= y[0].at then [x[0]] + Merge(x[1..], y)
    else [y[0]] + Merge(x, y[1..])
  }

  lemma TakeLeft(x: seq<Entry>, y: seq<Entry>)
    requires x != [] && (y == [] || x[0].at >= y[0].at)
    ensures Merge(x, y) == [x[0]] + Merge(x[1..], y)
  {
  }

  lemma TakeRight(x: seq<Entry>, y: seq<Entry>)
    requires x != [] && y != [] && x[0].at < y[0].at
    ensures Merge(x, y) == [y[0]] + Merge(x, y[1..])
  {
  }

  lemma {:induction false} InsertMerge(e: Entry, x: seq<Entry>, y: seq<Entry>)
    ensures Insert(e, Merge(x, y)) == Merge(Insert(e, x), y)
    decreases |x| + |y|
  {
    if (x == [] || e.at >= x[0].at) && (y == [] || e.at >= y[0].at) {
      assert ([e] + x)[1..] == x;
    } else if x == [] {
      InsertMerge(e, x, y[1..]);
      assert ([y[0]] + Merge(x, y[1..]))[1..] == Merge(x, y[1..]);
      assert Insert(e, x) == [e];
      assert Merge([e], y) == [y[0]] + Merge([e], y[1..]);
    } else if y == [] || x[0].at >= y[0].at {
      InsertMerge(e, x[1..], y);
      var m := Merge(x[1..], y);
      assert Merge(x, y) == [x[0]] + m && ([x[0]] + m)[1..] == m;
      assert Insert(e, x) == [x[0]] + Insert(e, x[1..]);
      assert ([x[0]] + Insert(e, x[1..]))[1..] == Insert(e, x[1..]);
    } else {
      InsertMerge(e, x, y[1..]);
      var m := Merge(x, y[1..]);
      assert Merge(x, y) == [y[0]] + m && ([y[0]] + m)[1..] == m;
      if e.at >= x[0].at {
        assert Insert(e, x) == [e] + x;
      } else {
        assert Insert(e, x)[0] == x[0];
      }
      assert Merge(Insert(e, x), y) == [y[0]] + Merge(Insert(e, x), y[1..]);
    }
  }

  /** Sorting a concatenation is merging the sorted parts. */
  lemma {:induction false} SortIsMerge(x: seq<Entry>, y: seq<Entry>)
    ensures Sort(x + y) == Merge(Sort(x), Sort(y))
  {
    if x == [] {
      assert x + y == y;
    } else {
      assert (x + y)[1..] == x[1..] + y;
      SortIsMerge(x[1..], y);
      InsertMerge(x[0], Sort(x[1..]), Sort(y));
    }
  }

  function Prefix(s: seq<Entry>, w: nat): seq<Entry> {
    if |s| <= w then s else s[..w]
  }

  lemma PrefixTail(s: seq<Entry>, w: nat)
    requires s != [] && w > 0
    ensures Prefix(s, w) != [] && Prefix(s, w)[0] == s[0]
    ensures Prefix(s, w) == [s[0]] + Prefix(s[1..], w - 1) && Prefix(s, w)[1..] == Prefix(s[1..], w - 1)
  {
  }

  /** Cutting a list at w or later does not change what its first w entries are. */
  lemma PrefixPrefix(s: seq<Entry>, v: nat, w: nat)
    requires w <= v
    ensures Prefix(Prefix(s, v), w) == Prefix(s, w)
  {
  }

  /** The first w of a merge need only the first w of each side (any cut from w on will do). */
  lemma {:induction false} MergePrefix(x: seq<Entry>, y: seq<Entry>, v: nat, u: nat, w: nat)
    requires w <= v && w <= u
    ensures Prefix(Merge(x, y), w) == Prefix(Merge(Prefix(x, v), Prefix(y, u)), w)
    decreases |x| + |y|
  {
    var px, py := Prefix(x, v), Prefix(y, u);
    if w == 0 {
    } else if x == [] {
      PrefixPrefix(y, u, w);
    } else if y == [] || x[0].at >= y[0].at {
      PrefixTail(x, v);
      assert py == [] || py[0] == y[0];
      hide Merge, Prefix;
      TakeLeft(x, y);
      TakeLeft(px, py);
      MergePrefix(x[1..], y, v - 1, u, w - 1);
      PrefixOfCons(x[0], Merge(x[1..], y), w);
      PrefixOfCons(x[0], Merge(px[1..], py), w);
    } else {
      PrefixTail(x, v);
      PrefixTail(y, u);
      hide Merge, Prefix;
      TakeRight(x, y);
      TakeRight(px, py);
      MergePrefix(x, y[1..], v, u - 1, w - 1);
      PrefixOfCons(y[0], Merge(x, y[1..]), w);
      PrefixOfCons(y[0], Merge(px, py[1..]), w);
    }
  }

  lemma PrefixOfCons(e: Entry, s: seq<Entry>, w: nat)
    requires w > 0
    ensures Prefix([e] + s, w) == [e] + Prefix(s, w - 1)
  {
  }

  // ---------- the page ----------

  predicate Picked(q: Query, s: Source) {
    Wanted(q, s) && IsActive(q, s)
  }

  /** The matching rows of one table, none when it is not picked. */
  function Chunk(t: Tables, q: Query, s: Source): seq<Entry> {
    if Picked(q, s) then Rows(t, s) else []
  }

  /** The picked tables' first w rows each, one table after the other. */
  function Fetched(t: Tables, q: Query, sources: seq<Source>, w: nat): seq<Entry> {
    if sources == [] then [] else Prefix(Chunk(t, q, sources[0]), w) + Fetched(t, q, sources[1..], w)
  }

  /** Every matching row of the picked tables. */
  function Everything(t: Tables, q: Query, sources: seq<Source>): seq<Entry> {
    if sources == [] then [] else Chunk(t, q, sources[0]) + Everything(t, q, sources[1..])
  }

  function Slice(s: seq<Entry>, from: nat, to: nat): seq<Entry>
    requires from <= to
  {
    s[(if from < |s| then from else |s|)..(if to < |s| then to else |s|)]
  }

  function Min(a: nat, b: nat): nat { if a < b then a else b }

  function CountOf(t: Tables, q: Query, s: Source): nat {
    if IsActive(q, s) then |Rows(t, s)| else 0
  }

  function Total(t: Tables, q: Query, sources: seq<Source>): nat {
    if sources == [] then 0
    else (if Wanted(q, sources[0]) then CountOf(t, q, sources[0]) else 0) + Total(t, q, sources[1..])
  }

  datatype Page = Page(items: seq<Entry>, total: nat, facets: seq<nat>)

  function Items(t: Tables, q: Query, skip: nat, take: nat): seq<Entry> {
    Slice(Sort(Fetched(t, q, SOURCES, Min(WINDOW, skip + take))), skip, skip + take)
  }

  function UnifiedPage(t: Tables, q: Query): Page {
    Page(Items(t, q, SkipOf(q), TakeOf(q)), Total(t, q, SOURCES),
         seq(|SOURCES|, i requires 0 <= i < |SOURCES| => CountOf(t, q, SOURCES[i])))
  }

  /** The whole log, newest first. */
  function WholeLog(t: Tables, q: Query): seq<Entry> {
    Sort(Everything(t, q, SOURCES))
  }

  ghost predicate TablesSorted(t: Tables) {
    forall s :: NewestFirst(Rows(t, s))
  }

  lemma PrefixSorted(s: seq<Entry>, w: nat)
    requires NewestFirst(s)
    ensures NewestFirst(Prefix(s, w))
  {
  }

  lemma {:induction false} FetchEnough(t: Tables, q: Query, sources: seq<Source>, v: nat, w: nat)
    requires TablesSorted(t) && w <= v
    ensures Prefix(Sort(Fetched(t, q, sources, v)), w) == Prefix(Sort(Everything(t, q, sources)), w)
  {
    if sources != [] {
      var all := Chunk(t, q, sources[0]);
      assert NewestFirst(all);
      var cut := Prefix(all, v);
      var less, more := Fetched(t, q, sources[1..], v), Everything(t, q, sources[1..]);
      assert Fetched(t, q, sources, v) == cut + less && Everything(t, q, sources) == all + more;
      PrefixSorted(all, v);
      hide Fetched, Everything, Chunk, Merge, Sort, Prefix, TablesSorted, NewestFirst;
      FetchEnough(t, q, sources[1..], v, w);
      SortIsMerge(cut, less);
      SortIsMerge(all, more);
      SortedIsFixed(cut);
      SortedIsFixed(all);
      MergePrefix(cut, Sort(less), w, w, w);
      MergePrefix(all, Sort(more), w, w, w);
      PrefixPrefix(all, v, w);
    }
  }

  lemma SliceOfPrefix(a: seq<Entry>, b: seq<Entry>, from: nat, to: nat)
    requires from <= to && Prefix(a, to) == Prefix(b, to)
    ensures Slice(a, from, to) == Slice(b, from, to)
  {
    assert Slice(a, from, to) == Slice(Prefix(a, to), from, to);
    assert Slice(b, from, to) == Slice(Prefix(b, to), from, to);
  }

  /** Up to the window a page is the same part of the whole log. */
  lemma PageExact(t: Tables, q: Query, skip: nat, take: nat)
    requires TablesSorted(t) && skip + take <= WINDOW
    ensures Items(t, q, skip, take) == Slice(WholeLog(t, q), skip, skip + take)
  {
    FetchEnough(t, q, SOURCES, skip + take, skip + take);
    var fetched, all := Fetched(t, q, SOURCES, skip + take), Everything(t, q, SOURCES);
    assert Items(t, q, skip, take) == Slice(Sort(fetched), skip, skip + take) && WholeLog(t, q) == Sort(all) by {
      hide Fetched, Everything, Sort, Slice, TablesSorted;
    }
    hide Items, WholeLog, Fetched, Everything, Sort, Slice, Prefix, TablesSorted;
    SliceOfPrefix(Sort(fetched), Sort(all), skip, skip + take);
  }

  /** A table of `n` rows of one time. */
  function Block(n: nat): (r: seq<Entry>)
    ensures |r| == n && NewestFirst(r)
  {
    seq(n, i => Entry("", Audit, Info, 0))
  }

  function OnlyOne(s: Source, rows: seq<Entry>): Tables {
    Tables(if s == Audit then rows else [], if s == Notification then rows else [], if s == Webhook then rows else [],
           if s == Incident then rows else [], if s == Backup then rows else [])
  }

  lemma {:induction false} OnlyOneFetched(s: Source, rows: seq<Entry>, q: Query, sources: seq<Source>, w: nat)
    requires Picked(q, s) && forall i, j :: 0 <= i < j < |sources| ==> sources[i] != sources[j]
    ensures Fetched(OnlyOne(s, rows), q, sources, w) == if s in sources then Prefix(rows, w) else []
    ensures Everything(OnlyOne(s, rows), q, sources) == if s in sources then rows else []
  {
    if sources != [] {
      var t := OnlyOne(s, rows);
      assert Chunk(t, q, sources[0]) == if sources[0] == s then rows else [];
      assert Prefix([], w) == [];
      hide Picked, Chunk, OnlyOne, Prefix;
      assert s in sources <==> s == sources[0] || s in sources[1..];
      OnlyOneFetched(s, rows, q, sources[1..], w);
    }
  }

  /** One table that is longer than the window already loses the end of the page. */
  lemma PageTooLong(q: Query, skip: nat, take: nat, s: Source) returns (t: Tables)
    requires take >= 1 && Picked(q, s) && skip + take > WINDOW
    ensures TablesSorted(t) && Items(t, q, skip, take) != Slice(WholeLog(t, q), skip, skip + take)
  {
    var rows := Block(skip + take);
    t := OnlyOne(s, rows);
    OnlyOneSorted(s, rows);
    OnlyOneItems(s, rows, q, skip, take);
    var cut := Prefix(rows, WINDOW);
    assert |cut| == WINDOW;
    hide Picked, Sort, Block, OnlyOne, Prefix, Slice, TablesSorted, Items, WholeLog, NewestFirst;
    SortKeepsAll(rows);
    SortKeepsAll(cut);
    SliceLength(Sort(cut), skip, skip + take);
    SliceLength(Sort(rows), skip, skip + take);
  }

  lemma OnlyOneItems(s: Source, rows: seq<Entry>, q: Query, skip: nat, take: nat)
    requires Picked(q, s) && skip + take > WINDOW
    ensures Items(OnlyOne(s, rows), q, skip, take) == Slice(Sort(Prefix(rows, WINDOW)), skip, skip + take)
    ensures WholeLog(OnlyOne(s, rows), q) == Sort(rows)
  {
    assert s in SOURCES;
    OnlyOneFetched(s, rows, q, SOURCES, WINDOW);
    hide Picked, Sort, Everything, Fetched, OnlyOne, Prefix, Slice;
  }

  lemma OnlyOneSorted(s: Source, rows: seq<Entry>)
    requires NewestFirst(rows)
    ensures TablesSorted(OnlyOne(s, rows))
  {
  }

  lemma SliceLength(s: seq<Entry>, from: nat, to: nat)
    requires from <= to
    ensures to <= |s| ==> |Slice(s, from, to)| == to - from
    ensures from < to && |s| < to ==> |Slice(s, from, to)| < to - from
  {
  }

  /**
   Pages are right for every content of the tables exactly when they end inside the window.
   */
  lemma PageExactIff(q: Query, skip: nat, take: nat, s: Source)
    requires take >= 1 && Picked(q, s)
    ensures (forall t :: TablesSorted(t) ==> Items(t, q, skip, take) == Slice(WholeLog(t, q), skip, skip + take))
       <==> skip + take <= WINDOW
  {
    hide TablesSorted, Items, WholeLog, Picked;
    if skip + take <= WINDOW {
      forall t | TablesSorted(t) ensures Items(t, q, skip, take) == Slice(WholeLog(t, q), skip, skip + take) {
        PageExact(t, q, skip, take);
      }
    } else {
      var t := PageTooLong(q, skip, take, s);
    }
  }

  function Pages(t: Tables, q: Query, take: nat, n: nat): seq<Entry> {
    if n == 0 then [] else Pages(t, q, take, n - 1) + Items(t, q, (n - 1) * take, take)
  }

  lemma SlicesJoin(s: seq<Entry>, a: nat, b: nat, c: nat)
    requires a <= b <= c
    ensures Slice(s, a, b) + Slice(s, b, c) == Slice(s, a, c)
  {
  }

  lemma PageEnd(n: nat, take: nat)
    requires n > 0
    ensures (n - 1) * take + take == n * take && 0 <= (n - 1) * take
  {
  }

  /** Reading page after page gives the whole log from the top, no row lost and none repeated. */
  lemma {:induction false} PagesCover(t: Tables, q: Query, take: nat, n: nat)
    requires TablesSorted(t) && n * take <= WINDOW
    ensures Pages(t, q, take, n) == Prefix(WholeLog(t, q), n * take)
  {
    var log := WholeLog(t, q);
    if n > 0 {
      PageEnd(n, take);
      var a, b := (n - 1) * take, n * take;
      PagesCover(t, q, take, n - 1);
      PageExact(t, q, a, take);
      hide WholeLog, Items, TablesSorted;
      SlicesJoin(log, 0, a, b);
      assert Slice(log, 0, a) == Prefix(log, a) && Slice(log, 0, b) == Prefix(log, b);
    }
  }

  lemma {:induction false} EverythingCounted(t: Tables, q: Query, sources: seq<Source>)
    ensures |Everything(t, q, sources)| == Total(t, q, sources)
  {
    if sources != [] {
      EverythingCounted(t, q, sources[1..]);
    }
  }

  /** The total is the number of rows of the whole log, which holds every matching row once. */
  lemma TotalIsWholeLog(t: Tables, q: Query)
    ensures UnifiedPage(t, q).total == |WholeLog(t, q)|
    ensures multiset(WholeLog(t, q)) == multiset(Everything(t, q, SOURCES))
    ensures IsStableSort(WholeLog(t, q), Everything(t, q, SOURCES))
  {
    EverythingCounted(t, q, SOURCES);
    SortKeepsAll(Everything(t, q, SOURCES));
    SortIsStable(Everything(t, q, SOURCES));
  }

  /** A query whose page ends inside the window gets exactly its part of the whole log. */
  lemma PageIsSlice(t: Tables, q: Query)
    requires TablesSorted(t) && SkipOf(q) + TakeOf(q) <= WINDOW
    ensures UnifiedPage(t, q).items == Slice(WholeLog(t, q), SkipOf(q), SkipOf(q) + TakeOf(q))
  {
    PageExact(t, q, SkipOf(q), TakeOf(q));
  }
}
