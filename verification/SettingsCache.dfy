/** Settings rows read through a cache with a time to live. */
module SettingsCache {
  import opened Results

  /** A JSON value as text. */
  type Json = string

  const EMPTY: Json := "{}"

  /** What a key's schema makes of a value, with the defaults filled in. */
  type Schema = Json -> Option<Json>

  /** The defaults fill the empty value, and a parsed value parses to itself. */
  ghost predicate Sound(s: Schema) {
    s(EMPTY).Some? && forall raw :: s(raw).Some? ==> s(s(raw).value) == s(raw)
  }

  datatype Entry = Entry(at: int, value: Json)

  type Table = map<string, Json>

  type Cache = map<string, Entry>

  ghost predicate AllSound(schemas: string -> Schema) {
    forall key :: Sound(schemas(key))
  }

  /** Reading the table without a cache: a value that does not parse counts as empty. */
  function Parsed(schemas: string -> Schema, table: Table, key: string): Json
    requires schemas(key)(EMPTY).Some?
  {
    var s := schemas(key);
    match s(if key in table then table[key] else EMPTY)
    case Some(v) => v
    case None => s(EMPTY).value
  }

  predicate IsHit(cache: Cache, key: string, now: int, ttl: int) {
    key in cache && now - cache[key].at < ttl
  }

  // ---------- one process ----------

  class Settings {
    const schemas: string -> Schema
    var table: Table
    var cache: Cache

    constructor (schemas: string -> Schema, table: Table)
      requires AllSound(schemas)
      ensures Valid() && this.table == table
    {
      this.schemas := schemas;
      this.table, cache := table, map[];
    }

    /** Every cached value is what the table parses to. */
    ghost predicate Valid()
      reads this
    {
      && AllSound(schemas)
      && forall key :: key in cache ==> cache[key].value == Parsed(schemas, table, key)
    }

    /** While this process is the only writer a read is exactly the table's parsed value, at any time and ttl. */
    method GetSetting(key: string, now: int, ttl: int) returns (value: Json)
      requires Valid()
      modifies this`cache
      ensures Valid() && value == Parsed(schemas, table, key)
      ensures cache == if IsHit(old(cache), key, now, ttl) then old(cache) else old(cache)[key := Entry(now, value)]
    {
      assert Sound(schemas(key));
      if key in cache && now - cache[key].at < ttl {
        return cache[key].value;
      }
      var s := schemas(key);
      var parsed := s(if key in table then table[key] else EMPTY);
      value := if parsed.Some? then parsed.value else s(EMPTY).value;
      cache := cache[key := Entry(now, value)];
    }

    /** An input the schema refuses changes nothing; any other is what every later read of the key gives. */
    method SetSetting(key: string, input: Json, now: int) returns (value: Option<Json>)
      requires Valid()
      modifies this
      ensures Valid() && value == schemas(key)(input)
      ensures value.None? ==> table == old(table) && cache == old(cache)
      ensures value.Some? ==> Parsed(schemas, table, key) == value.value
      ensures value.Some? ==> table == old(table)[key := value.value]
                              && cache == old(cache)[key := Entry(now, value.value)]
    {
      assert Sound(schemas(key));
      value := schemas(key)(input);
      if value.None? {
        return;
      }
      ghost var before := table;
      table := table[key := value.value];
      cache := cache[key := Entry(now, value.value)];
      forall k | k in cache ensures cache[k].value == Parsed(schemas, table, k) {
        assert k != key ==> Parsed(schemas, table, k) == Parsed(schemas, before, k);
      }
    }
  }

  // ---------- several processes, one table ----------

  /** The table as it was after a step, and when. */
  datatype Moment = Moment(at: int, table: Table)

  /** `wrote` says after which moment a process last wrote a key. */
  datatype World = World(past: seq<Moment>, caches: map<nat, Cache>, wrote: map<(nat, string), nat>)

  datatype Step =
    | Get(process: nat, key: string, ttl: int, now: int)
    | Set(process: nat, key: string, input: Json, now: int)

  function CacheOf(w: World, p: nat): Cache {
    if p in w.caches then w.caches[p] else map[]
  }

  function Current(w: World): Moment
    requires w.past != []
  {
    w.past[|w.past| - 1]
  }

  /** What a read returns. */
  function Answer(schemas: string -> Schema, w: World, p: nat, key: string, ttl: int, now: int): Json
    requires w.past != [] && schemas(key)(EMPTY).Some?
  {
    if IsHit(CacheOf(w, p), key, now, ttl) then CacheOf(w, p)[key].value else Parsed(schemas, Current(w).table, key)
  }

  function After(schemas: string -> Schema, w: World, s: Step): World
    requires w.past != [] && schemas(s.key)(EMPTY).Some?
  {
    var cache, table, schema := CacheOf(w, s.process), Current(w).table, schemas(s.key);
    match s
    case Get(p, key, ttl, now) =>
      var entry := if IsHit(cache, key, now, ttl) then cache[key] else Entry(now, Parsed(schemas, table, key));
      World(w.past + [Moment(now, table)], w.caches[p := cache[key := entry]], w.wrote)
    case Set(p, key, input, now) =>
      (match schema(input)
       case None => w.(past := w.past + [Moment(now, table)])
       case Some(v) =>
         World(w.past + [Moment(now, table[key := v])], w.caches[p := cache[key := Entry(now, v)]],
               w.wrote[(p, key) := |w.past|]))
  }

  /** The value was the table's at that moment, which is no earlier than the process's own last write of the key. */
  ghost predicate TrueAt(schemas: string -> Schema, w: World, p: nat, key: string, value: Json, i: nat)
    requires AllSound(schemas)
  {
    && i < |w.past| && Sound(schemas(key)) && value == Parsed(schemas, w.past[i].table, key)
    && ((p, key) in w.wrote ==> w.wrote[(p, key)] <= i)
  }

  ghost predicate EntryTrue(schemas: string -> Schema, w: World, p: nat, key: string)
    requires AllSound(schemas)
  {
    key in CacheOf(w, p) ==>
      exists i: nat :: TrueAt(schemas, w, p, key, CacheOf(w, p)[key].value, i) && w.past[i].at == CacheOf(w, p)[key].at
  }

  ghost predicate Good(schemas: string -> Schema, w: World)
    requires AllSound(schemas)
  {
    && w.past != []
    && (forall pk :: pk in w.wrote ==> w.wrote[pk] < |w.past|)
    && forall p, key :: EntryTrue(schemas, w, p, key)
  }

  lemma StepKeepsGood(schemas: string -> Schema, w: World, s: Step)
    requires AllSound(schemas) && Good(schemas, w) && Sound(schemas(s.key))
    ensures Good(schemas, After(schemas, w, s))
  {
    var next := After(schemas, w, s);
    forall p: nat, key | key in CacheOf(next, p)
      ensures EntryTrue(schemas, next, p, key)
    {
      if key in CacheOf(w, p) && CacheOf(next, p)[key] == CacheOf(w, p)[key]
        && (s.Get? || (p, key) != (s.process, s.key)) {
        assert EntryTrue(schemas, w, p, key);
        var i: nat :| TrueAt(schemas, w, p, key, CacheOf(w, p)[key].value, i) && w.past[i].at == CacheOf(w, p)[key].at;
        assert next.past[i] == w.past[i];
        assert TrueAt(schemas, next, p, key, CacheOf(next, p)[key].value, i);
      } else if s.Set? && schemas(s.key)(s.input).None? {
        assert EntryTrue(schemas, w, p, key);
        var i: nat :| TrueAt(schemas, w, p, key, CacheOf(w, p)[key].value, i) && w.past[i].at == CacheOf(w, p)[key].at;
        assert next.past[i] == w.past[i];
        assert TrueAt(schemas, next, p, key, CacheOf(next, p)[key].value, i);
      } else {
        var i := |w.past|;
        assert next.past[i].at == s.now;
        assert TrueAt(schemas, next, p, key, CacheOf(next, p)[key].value, i);
      }
    }
  }

  ghost function Run(schemas: string -> Schema, table: Table, start: int, run: seq<Step>): (w: World)
    requires AllSound(schemas)
    ensures w.past != []
  {
    if run == [] then World([Moment(start, table)], map[], map[])
    else
      var s := run[|run| - 1];
      assert Sound(schemas(s.key));
      After(schemas, Run(schemas, table, start, run[..|run| - 1]), s)
  }

  lemma {:induction false} RunIsGood(schemas: string -> Schema, table: Table, start: int, run: seq<Step>)
    requires AllSound(schemas)
    ensures Good(schemas, Run(schemas, table, start, run))
  {
    if run != [] {
      var s := run[|run| - 1];
      assert Sound(schemas(s.key));
      RunIsGood(schemas, table, start, run[..|run| - 1]);
      hide Good, After;
      StepKeepsGood(schemas, Run(schemas, table, start, run[..|run| - 1]), s);
    }
  }

  /**
   After any run of reads and writes by any processes, a read returns what the table parsed to
   now or less than ttl ago, and never anything older than the reader's own last write.
   */
  lemma ReadIsRecent(schemas: string -> Schema, table: Table, start: int, run: seq<Step>,
                                             p: nat, key: string, ttl: int, now: int)
    requires AllSound(schemas)
    ensures Sound(schemas(key))
    ensures var w := Run(schemas, table, start, run);
      exists i: nat :: TrueAt(schemas, w, p, key, Answer(schemas, w, p, key, ttl, now), i)
                       && (i == |w.past| - 1 || now - w.past[i].at < ttl)
  {
    assert Sound(schemas(key));
    RunIsGood(schemas, table, start, run);
    var w := Run(schemas, table, start, run);
    var value := Answer(schemas, w, p, key, ttl, now);
    if IsHit(CacheOf(w, p), key, now, ttl) {
      assert EntryTrue(schemas, w, p, key);
      var i: nat :| TrueAt(schemas, w, p, key, CacheOf(w, p)[key].value, i) && w.past[i].at == CacheOf(w, p)[key].at;
      assert TrueAt(schemas, w, p, key, value, i);
    } else {
      assert TrueAt(schemas, w, p, key, value, |w.past| - 1);
    }
  }

  /** Another process's write stays unseen for as long as the ttl: the read is the old value. */
  lemma StaleUntilTtl(schemas: string -> Schema, table: Table, key: string, input: Json, start: int, ttl: int,
                      later: int)
    requires AllSound(schemas) && Sound(schemas(key)) && schemas(key)(input).Some? && start <= later < start + ttl
    ensures var w := Run(schemas, table, start, [Get(1, key, ttl, start), Set(2, key, input, start)]);
      Answer(schemas, w, 1, key, ttl, later) == Parsed(schemas, table, key)
      && Parsed(schemas, Current(w).table, key) == schemas(key)(input).value
  {
    var run := [Get(1, key, ttl, start), Set(2, key, input, start)];
    assert run[..1] == [run[0]] && [run[0]][..0] == [];
    var w0 := World([Moment(start, table)], map[], map[]);
    assert Run(schemas, table, start, []) == w0;
    var w1 := After(schemas, w0, run[0]);
    assert Run(schemas, table, start, [run[0]]) == w1;
    assert CacheOf(w1, 1)[key] == Entry(start, Parsed(schemas, table, key));
    var w2 := After(schemas, w1, run[1]);
    assert CacheOf(w2, 1) == CacheOf(w1, 1);
  }
}
