/** The log as a CSV file, and a reader that follows section 2 of RFC 4180. */
module LogCsv {
  import opened Results

  /** `at`, `source`, `level` and `action` are always there; `meta` is its serialised text. */
  datatype LogEntry = LogEntry(at: string, source: string, level: string, action: string, actor: Option<string>,
                               target: Option<string>, text: Option<string>, ip: Option<string>, meta: Option<string>)

  const HEAD: seq<string> := ["at", "source", "level", "action", "actor", "target", "text", "ip", "meta"]
  const BOM := "\U{FEFF}"
  const CRLF := "\r\n"

  // ---------- the printer ----------

  function OrEmpty(v: Option<string>): string {
    match v
    case None => ""
    case Some(s) => s
  }

  function Fields(e: LogEntry): seq<string> {
    [e.at, e.source, e.level, e.action]
    + [OrEmpty(e.actor), OrEmpty(e.target), OrEmpty(e.text), OrEmpty(e.ip), OrEmpty(e.meta)]
  }

  function Doubled(s: string): string {
    if s == "" then "" else (if s[0] == '"' then "\"\"" else [s[0]]) + Doubled(s[1..])
  }

  function Esc(s: string): string {
    "\"" + Doubled(s) + "\""
  }

  function Join(parts: seq<string>, sep: string): string {
    if parts == [] then "" else if |parts| == 1 then parts[0] else parts[0] + sep + Join(parts[1..], sep)
  }

  function Escaped(fields: seq<string>): seq<string> {
    seq(|fields|, i requires 0 <= i < |fields| => Esc(fields[i]))
  }

  function Line(fields: seq<string>): string {
    Join(Escaped(fields), ",")
  }

  function Lines(items: seq<LogEntry>): seq<string> {
    seq(|items|, i requires 0 <= i < |items| => Line(Fields(items[i])))
  }

  function Csv(items: seq<LogEntry>): string {
    BOM + Join([Join(HEAD, ",")] + Lines(items), CRLF)
  }

  // ---------- the reader ----------

  datatype At = RecordStart | FieldStart | Bare | Quoted | QuoteSeen

  type Table = seq<seq<string>>

  /** `field`, `record` and `done` hold what has been read of the field, the record and the file. */
  function Read(s: string, at: At, field: string, record: seq<string>, done: Table): Option<Table> {
    if s == "" then
      (if at == Quoted then None else if at == RecordStart then Some(done) else Some(done + [record + [field]]))
    else if at == Quoted then
      (if s[0] == '"' then Read(s[1..], QuoteSeen, field, record, done)
       else Read(s[1..], Quoted, field + [s[0]], record, done))
    else if s[0] == '"' then
      (if at == QuoteSeen then Read(s[1..], Quoted, field + ['"'], record, done)
       else if at == Bare then None
       else Read(s[1..], Quoted, "", record, done))
    else if s[0] == ',' then Read(s[1..], FieldStart, "", record + [field], done)
    else if s[0] == '\r' && |s| >= 2 && s[1] == '\n' then Read(s[2..], RecordStart, "", [], done + [record + [field]])
    else if s[0] == '\r' || s[0] == '\n' || at == QuoteSeen then None
    else Read(s[1..], Bare, field + [s[0]], record, done)
  }

  /** The mark at the front is an encoding signature and no part of the text. */
  function ReadFile(s: string): Option<Table> {
    Read(if BOM <= s then s[|BOM|..] else s, RecordStart, "", [], [])
  }

  // ---------- round trip ----------

  lemma {:induction false} ReadInside(v: string, rest: string, field: string, record: seq<string>, done: Table)
    ensures Read(Doubled(v) + "\"" + rest, Quoted, field, record, done)
      == Read(rest, QuoteSeen, field + v, record, done)
  {
    var s := Doubled(v) + "\"" + rest;
    if v == "" {
      assert s == "\"" + rest && s[1..] == rest;
      assert field + v == field;
    } else {
      var tail := Doubled(v[1..]) + "\"" + rest;
      assert (field + [v[0]]) + v[1..] == field + v;
      if v[0] == '"' {
        assert s == "\"\"" + tail && s[1..] == "\"" + tail && s[1..][1..] == tail;
      } else {
        assert s == [v[0]] + tail && s[1..] == tail;
      }
      ReadInside(v[1..], rest, field + [v[0]], record, done);
    }
  }

  /** A quoted field is read back whole, whatever quotes, commas and line breaks it holds. */
  lemma ReadField(v: string, rest: string, at: At, record: seq<string>, done: Table)
    requires at == RecordStart || at == FieldStart
    ensures Read(Esc(v) + rest, at, "", record, done) == Read(rest, QuoteSeen, v, record, done)
  {
    var s := Esc(v) + rest;
    assert s[0] == '"' && s[1..] == Doubled(v) + "\"" + rest;
    ReadInside(v, rest, "", record, done);
    assert "" + v == v;
  }

  lemma EscapedTail(fields: seq<string>)
    requires |fields| > 1
    ensures Line(fields) == Esc(fields[0]) + "," + Line(fields[1..])
  {
    assert Escaped(fields)[1..] == Escaped(fields[1..]);
  }

  /** A line leaves the reader behind its last field, all earlier ones in the record. */
  lemma {:induction false} ReadLine(fields: seq<string>, rest: string, at: At, record: seq<string>, done: Table)
    requires fields != [] && (at == RecordStart || at == FieldStart)
    ensures Read(Line(fields) + rest, at, "", record, done)
         == Read(rest, QuoteSeen, fields[|fields| - 1], record + fields[..|fields| - 1], done)
  {
    if |fields| == 1 {
      assert Line(fields) == Esc(fields[0]);
      ReadField(fields[0], rest, at, record, done);
      assert record + fields[..0] == record;
    } else {
      EscapedTail(fields);
      var tail := Line(fields[1..]) + rest;
      assert Line(fields) + rest == Esc(fields[0]) + ("," + tail);
      ReadField(fields[0], "," + tail, at, record, done);
      assert ("," + tail)[1..] == tail;
      ReadLine(fields[1..], rest, FieldStart, record + [fields[0]], done);
      assert (record + [fields[0]]) + fields[1..][..|fields| - 2] == record + fields[..|fields| - 1];
    }
  }

  lemma ReadEndOfRecord(rest: string, at: At, field: string, record: seq<string>, done: Table)
    requires at == QuoteSeen || at == Bare
    ensures Read(CRLF + rest, at, field, record, done) == Read(rest, RecordStart, "", [], done + [record + [field]])
  {
    assert (CRLF + rest)[2..] == rest;
  }

  function LinesOf(rows: Table): seq<string> {
    seq(|rows|, i requires 0 <= i < |rows| => Line(rows[i]))
  }

  lemma {:induction false} ReadLines(rows: Table, done: Table)
    requires rows != [] && forall i :: 0 <= i < |rows| ==> rows[i] != []
    ensures Read(Join(LinesOf(rows), CRLF), RecordStart, "", [], done) == Some(done + rows)
  {
    var first := rows[0];
    var n := |first| - 1;
    assert first[..n] + [first[n]] == first && [] + first[..n] == first[..n];
    if |rows| == 1 {
      ReadLine(first, "", RecordStart, [], done);
      assert Line(first) + "" == Line(first);
      assert rows == [first];
    } else {
      var tail := Join(LinesOf(rows[1..]), CRLF);
      assert LinesOf(rows)[1..] == LinesOf(rows[1..]);
      assert Join(LinesOf(rows), CRLF) == Line(first) + (CRLF + tail);
      hide Join, LinesOf, Line;
      ReadLine(first, CRLF + tail, RecordStart, [], done);
      ReadEndOfRecord(tail, QuoteSeen, first[n], first[..n], done);
      ReadLines(rows[1..], done + [first]);
      assert (done + [first]) + rows[1..] == done + rows;
    }
  }

  predicate IsBare(c: char) {
    c != '"' && c != ',' && c != '\r' && c != '\n'
  }

  lemma {:induction false} ReadBare(v: string, rest: string, at: At, field: string, record: seq<string>, done: Table)
    requires v != "" && forall i :: 0 <= i < |v| ==> IsBare(v[i])
    requires at == Bare || ((at == RecordStart || at == FieldStart) && field == "")
    ensures Read(v + rest, at, field, record, done) == Read(rest, Bare, field + v, record, done)
  {
    assert (v + rest)[1..] == v[1..] + rest;
    assert (field + [v[0]]) + v[1..] == field + v;
    if |v| == 1 {
      assert v[1..] + rest == rest && field + [v[0]] == field + v;
    } else {
      ReadBare(v[1..], rest, Bare, field + [v[0]], record, done);
    }
  }

  ghost predicate BareNames(names: seq<string>) {
    forall i :: 0 <= i < |names| ==> names[i] != "" && forall j :: 0 <= j < |names[i]| ==> IsBare(names[i][j])
  }

  /** Bare names joined by commas are read like a quoted line. */
  lemma {:induction false} ReadNames(names: seq<string>, rest: string, at: At, record: seq<string>, done: Table)
    requires names != [] && BareNames(names) && (at == RecordStart || at == FieldStart)
    ensures Read(Join(names, ",") + rest, at, "", record, done)
         == Read(rest, Bare, names[|names| - 1], record + names[..|names| - 1], done)
  {
    assert "" + names[0] == names[0];
    if |names| == 1 {
      ReadBare(names[0], rest, at, "", record, done);
      assert record + names[..0] == record;
    } else {
      var tail := Join(names[1..], ",") + rest;
      assert Join(names, ",") + rest == names[0] + ("," + tail);
      ReadBare(names[0], "," + tail, at, "", record, done);
      assert ("," + tail)[1..] == tail;
      ReadNames(names[1..], rest, FieldStart, record + [names[0]], done);
      assert (record + [names[0]]) + names[1..][..|names| - 2] == record + names[..|names| - 1];
    }
  }

  function FieldRows(items: seq<LogEntry>): Table {
    seq(|items|, i requires 0 <= i < |items| => Fields(items[i]))
  }

  lemma HeadIsBare()
    ensures BareNames(HEAD)
  {
  }

  lemma ReadText(names: seq<string>, rows: Table)
    requires names != [] && BareNames(names)
    requires forall i :: 0 <= i < |rows| ==> rows[i] != []
    ensures Read(Join([Join(names, ",")] + LinesOf(rows), CRLF), RecordStart, "", [], []) == Some([names] + rows)
  {
    if rows == [] {
      ReadHeadAlone(names, Join(names, ","));
      assert [Join(names, ",")] + LinesOf(rows) == [Join(names, ",")] && [names] + rows == [names];
    } else {
      ReadHeadAndRows(names, Join(names, ","), rows);
    }
  }

  lemma ReadHeadAlone(names: seq<string>, head: string)
    requires names != [] && BareNames(names) && head == Join(names, ",")
    ensures Read(Join([head], CRLF), RecordStart, "", [], []) == Some([names])
  {
    var front, last := names[..|names| - 1], names[|names| - 1];
    assert front + [last] == names && [] + front == front;
    assert Join([head], CRLF) == head + "";
    hide Read, BareNames, Join;
    ReadNames(names, "", RecordStart, [], []);
    ReadEnd(last, front);
  }

  lemma ReadHeadAndRows(names: seq<string>, head: string, rows: Table)
    requires names != [] && BareNames(names) && head == Join(names, ",")
    requires rows != [] && forall i :: 0 <= i < |rows| ==> rows[i] != []
    ensures Read(Join([head] + LinesOf(rows), CRLF), RecordStart, "", [], []) == Some([names] + rows)
  {
    assert LinesOf(rows) != [];
    hide *;
    var tail := Join(LinesOf(rows), CRLF);
    var front, last := names[..|names| - 1], names[|names| - 1];
    NamesSplit(names);
    JoinHead(head, LinesOf(rows));
    ReadNames(names, CRLF + tail, RecordStart, [], []);
    ReadEndOfRecord(tail, Bare, last, front, []);
    ReadLines(rows, [names]);
  }

  lemma NamesSplit(names: seq<string>)
    requires names != []
    ensures var front, last := names[..|names| - 1], names[|names| - 1];
      [] + front == front && [] + [front + [last]] == [names]
  {
    assert names[..|names| - 1] + [names[|names| - 1]] == names;
  }

  lemma JoinHead(head: string, lines: seq<string>)
    requires lines != []
    ensures Join([head] + lines, CRLF) == head + (CRLF + Join(lines, CRLF))
  {
    assert ([head] + lines)[1..] == lines;
  }

  /** The reader gets the header and every field of every row back. */
  lemma RoundTrip(items: seq<LogEntry>)
    ensures ReadFile(Csv(items)) == Some([HEAD] + FieldRows(items))
  {
    var rows := FieldRows(items);
    var text := Join([Join(HEAD, ",")] + Lines(items), CRLF);
    assert Lines(items) == LinesOf(rows);
    HeadIsBare();
    ReadText(HEAD, rows);
    hide BareNames, Read, Join, Lines, LinesOf;
    assert BOM <= BOM + text && (BOM + text)[|BOM|..] == text;
  }

  lemma ReadEnd(field: string, record: seq<string>)
    ensures Read("", Bare, field, record, []) == Some([record + [field]])
  {
    assert [] + [record + [field]] == [record + [field]];
  }

  /** Two logs give the same file exactly when they agree field by field, an absent one counting as empty. */
  lemma SameFileIff(a: seq<LogEntry>, b: seq<LogEntry>)
    ensures Csv(a) == Csv(b) <==> FieldRows(a) == FieldRows(b)
  {
    RoundTrip(a);
    RoundTrip(b);
    var x, y := FieldRows(a), FieldRows(b);
    assert ([HEAD] + x)[1..] == x && ([HEAD] + y)[1..] == y;
    if x == y {
      assert |a| == |b|;
      forall i | 0 <= i < |a| ensures Line(Fields(a[i])) == Line(Fields(b[i])) {
        assert x[i] == Fields(a[i]) && y[i] == Fields(b[i]);
      }
      assert Lines(a) == Lines(b);
    }
  }
}
