/** Which rows a query of the unified log shows, told by its own fields. */
module LogScope {
  import opened Results
  import opened LogLevels
  import opened UnifiedLog

  /** Every table holds rows of its own source. */
  ghost predicate OwnSources(t: Tables) {
    && (forall e :: e in t.audit ==> e.source == Audit)
    && (forall e :: e in t.notification ==> e.source == Notification)
    && (forall e :: e in t.webhook ==> e.source == Webhook)
    && (forall e :: e in t.incident ==> e.source == Incident)
    && (forall e :: e in t.backup ==> e.source == Backup)
  }

  function AllRows(t: Tables): seq<Entry> {
    t.audit + t.notification + t.webhook + t.incident + t.backup
  }

  /** Some row of this source would show an asked level. */
  ghost predicate ShowsAsked(q: Query, s: Source) {
    exists r: Record :: SourceOf(r) == s && (q.levels == [] || LevelOf(r) in q.levels)
  }

  /** Incidents and backups belong to the whole system, not to one admin. */
  predicate SystemWide(s: Source) {
    s == Incident || s == Backup
  }

  /** The levels listed for a source are exactly those its rows can show. */
  lemma SourceLevelsExact(s: Source, l: Level)
    ensures l in SourceLevels(s) <==> exists r :: SourceOf(r) == s && LevelOf(r) == l
  {
    if l in SourceLevels(s) {
      var r := RowWith(s, l);
      assert SourceOf(r) == s && LevelOf(r) == l;
    } else {
      forall r: Record | SourceOf(r) == s ensures LevelOf(r) != l {
        LevelIsListed(r);
      }
    }
  }

  lemma LevelIsListed(r: Record)
    ensures LevelOf(r) in SourceLevels(SourceOf(r))
  {
    hide AfterFirstDot;
  }

  lemma RowWith(s: Source, l: Level) returns (r: Record)
    requires l in SourceLevels(s)
    ensures SourceOf(r) == s && LevelOf(r) == l
  {
    match s
    case Audit => r := Sample(l);
    case Notification => r := NoticeRow(l == Info);
    case Webhook =>
      r := if l == Error then DeliveryRow(Some(500), None, false) else DeliveryRow(None, None, l == Success);
    case Incident => r := IncidentRow(l == Error);
    case Backup => r := BackupRow(if l == Success then Done else if l == Error then Failed else Running);
  }

  /** A source takes part in a query exactly when it can show an asked level and is not cut off by the admin. */
  lemma ActiveIff(q: Query, s: Source)
    ensures IsActive(q, s) <==> ShowsAsked(q, s) && !(q.oneAdmin && SystemWide(s))
  {
    if ShowsAsked(q, s) {
      var r: Record :| SourceOf(r) == s && (q.levels == [] || LevelOf(r) in q.levels);
      LevelIsListed(r);
      EveryLevel(LevelOf(r));
      assert Asks(s, LevelsOf(q));
    }
    if Asks(s, LevelsOf(q)) {
      var l :| l in SourceLevels(s) && l in LevelsOf(q);
      var r := RowWith(s, l);
      assert q.levels == [] || LevelOf(r) in q.levels;
    }
    hide LevelOf, SourceLevels;
  }

  lemma EveryLevel(l: Level)
    ensures l in ALL
  {
    match l
    case Error => assert ALL[0] == l;
    case Warning => assert ALL[1] == l;
    case Success => assert ALL[2] == l;
    case Info => assert ALL[3] == l;
  }

  lemma {:induction false} EverythingIs(t: Tables, q: Query, sources: seq<Source>, e: Entry)
    ensures e in Everything(t, q, sources) <==> exists s :: s in sources && e in Chunk(t, q, s)
  {
    if sources != [] {
      EverythingIs(t, q, sources[1..], e);
      assert forall s :: s in sources <==> s == sources[0] || s in sources[1..];
      hide Chunk;
    }
  }

  lemma EverySource(s: Source)
    ensures s in SOURCES
  {
    match s
    case Audit => assert SOURCES[0] == s;
    case Notification => assert SOURCES[1] == s;
    case Webhook => assert SOURCES[2] == s;
    case Incident => assert SOURCES[3] == s;
    case Backup => assert SOURCES[4] == s;
  }

  lemma EverythingHolds(t: Tables, q: Query, e: Entry)
    requires OwnSources(t)
    ensures e in Everything(t, q, SOURCES) <==> e in AllRows(t) && Picked(q, e.source)
  {
    EverythingIs(t, q, SOURCES, e);
    hide Picked, Everything;
    if s :| s in SOURCES && e in Chunk(t, q, s) {
      assert e in Rows(t, s) && e.source == s;
    }
    if e in AllRows(t) && Picked(q, e.source) {
      EverySource(e.source);
      assert e in Chunk(t, q, e.source);
    }
  }

  /**
   An entry is in the log exactly when it is a row of a wanted table which can show an asked level and,
   in the log of one admin, is not system-wide.
   */
  lemma ShownIff(t: Tables, q: Query, e: Entry)
    requires OwnSources(t)
    ensures e in WholeLog(t, q)
       <==> (&& e in AllRows(t) && (q.sources == {} || e.source in q.sources)
             && ShowsAsked(q, e.source) && !(q.oneAdmin && SystemWide(e.source)))
  {
    EverythingHolds(t, q, e);
    ActiveIff(q, e.source);
    TotalIsWholeLog(t, q);
    assert e in WholeLog(t, q) <==> e in multiset(WholeLog(t, q));
    hide IsActive, ShowsAsked, Everything, WholeLog, UnifiedPage;
  }

  /** Some page of the query shows the entry. */
  ghost predicate OnSomePage(t: Tables, q: Query, e: Entry) {
    exists skip: nat, take: nat :: skip + take <= WINDOW && e in Items(t, q, skip, take)
  }

  /** Where the log fits the window, the pages show exactly these entries. */
  lemma OnPageIff(t: Tables, q: Query, e: Entry)
    requires OwnSources(t) && TablesSorted(t) && UnifiedPage(t, q).total <= WINDOW
    ensures OnSomePage(t, q, e)
       <==> (&& e in AllRows(t) && (q.sources == {} || e.source in q.sources)
             && ShowsAsked(q, e.source) && !(q.oneAdmin && SystemWide(e.source)))
  {
    ShownIff(t, q, e);
    TotalIsWholeLog(t, q);
    hide OwnSources, TablesSorted, UnifiedPage, WholeLog, Items, ShowsAsked;
    var log := WholeLog(t, q);
    if skip: nat, take: nat :| skip + take <= WINDOW && e in Items(t, q, skip, take) {
      PageExact(t, q, skip, take);
    }
    if e in log {
      PageExact(t, q, 0, WINDOW);
      assert Slice(log, 0, WINDOW) == log;
    }
  }

  /** The facets count each table's rows, wanted or not, and show zero for a source that takes no part. */
  lemma FacetsIff(t: Tables, q: Query, s: Source, i: nat)
    requires i < |SOURCES| && SOURCES[i] == s
    ensures |UnifiedPage(t, q).facets| == 5
    ensures var rows := [t.audit, t.notification, t.webhook, t.incident, t.backup][i];
      UnifiedPage(t, q).facets[i] == if ShowsAsked(q, s) && !(q.oneAdmin && SystemWide(s)) then |rows| else 0
  {
    ActiveIff(q, s);
    hide IsActive, ShowsAsked, Items, Total;
  }

  function InRange(n: int, least: int, most: int): int
    requires least <= most
  {
    if n < least then least else if most < n then most else n
  }

  /** A page holds the asked number of entries, 200 when none is asked for, as far as the log goes. */
  lemma PageLength(t: Tables, q: Query)
    requires TablesSorted(t)
    ensures var take := if q.take.None? then 200 else InRange(q.take.value, 1, 5000);
      var skip := if q.skip.None? then 0 else InRange(q.skip.value, 0, 100000);
      var left := UnifiedPage(t, q).total - skip;
      skip + take <= WINDOW
      ==> |UnifiedPage(t, q).items| == if left < 0 then 0 else if left < take then left else take
  {
    Bounds(q);
    LengthOfPage(t, q);
    hide *;
  }

  lemma Bounds(q: Query)
    ensures TakeOf(q) == if q.take.None? then 200 else InRange(q.take.value, 1, 5000)
    ensures SkipOf(q) == if q.skip.None? then 0 else InRange(q.skip.value, 0, 100000)
  {
  }

  lemma LengthOfPage(t: Tables, q: Query)
    requires TablesSorted(t)
    ensures SkipOf(q) >= 0 && TakeOf(q) >= 1
    ensures var left := UnifiedPage(t, q).total - SkipOf(q);
      SkipOf(q) + TakeOf(q) <= WINDOW
      ==> |UnifiedPage(t, q).items| == if left < 0 then 0 else if left < TakeOf(q) then left else TakeOf(q)
  {
    assert SkipOf(q) >= 0 && TakeOf(q) >= 1;
    hide TablesSorted, WholeLog, UnifiedPage, TakeOf, SkipOf, IsStableSort, Slice;
    TotalIsWholeLog(t, q);
    if SkipOf(q) + TakeOf(q) <= WINDOW {
      PageIsSlice(t, q);
      SliceCount(WholeLog(t, q), SkipOf(q), TakeOf(q));
    }
  }

  lemma SliceCount(log: seq<Entry>, skip: nat, take: nat)
    ensures var left := |log| - skip;
      |Slice(log, skip, skip + take)| == if left < 0 then 0 else if left < take then left else take
  {
  }
}
