/** Levels of log rows: the one shown beside a row and the one the query's filter selects by. */
module LogLevels {
  import opened Results

  datatype Source = Audit | Notification | Webhook | Incident | Backup

  datatype Level = Error | Warning | Success | Info

  datatype BackupStatus = Done | Failed | Running

  /** What the levels of a row are decided by, table by table. */
  datatype Record =
    | AuditRow(action: string)
    | NoticeRow(ok: bool)
    | DeliveryRow(status: Option<int>, error: Option<string>, finished: bool)
    | IncidentRow(isOpen: bool)
    | BackupRow(result: BackupStatus)

  const ALL: seq<Level> := [Error, Warning, Success, Info]
  const SUCCESS_VERBS := ["create", "approve", "fulfill", "enable", "login", "renew", "totp_enabled", "verify",
    "restore"]
  const WARNING_VERBS := ["delete", "disable", "cancel", "reset_traffic", "prune", "cleanup", "logout"]
  const ERROR_VERBS := ["login_failed", "failed", "error", "reject"]

  function SourceOf(r: Record): Source {
    match r
    case AuditRow(_) => Audit
    case NoticeRow(_) => Notification
    case DeliveryRow(_, _, _) => Webhook
    case IncidentRow(_) => Incident
    case BackupRow(_) => Backup
  }

  function SourceLevels(s: Source): set<Level> {
    match s
    case Audit => {Error, Warning, Success, Info}
    case Notification => {Error, Info}
    case Webhook => {Error, Success, Info}
    case Incident => {Error, Success}
    case Backup => {Error, Success, Info}
  }

  predicate Asks(s: Source, levels: seq<Level>) {
    exists l :: l in SourceLevels(s) && l in levels
  }

  // ---------- the level shown ----------

  function AfterFirstDot(s: string): string {
    if '.' !in s then s else if s[0] == '.' then s[1..] else AfterFirstDot(s[1..])
  }

  function VerbLevel(verb: string): Level {
    if verb in ERROR_VERBS then Error
    else if verb in WARNING_VERBS then Warning
    else if verb in SUCCESS_VERBS then Success
    else Info
  }

  predicate HttpError(status: Option<int>) {
    status.Some? && status.value >= 400
  }

  function LevelOf(r: Record): Level {
    match r
    case AuditRow(action) => VerbLevel(AfterFirstDot(action))
    case NoticeRow(ok) => if ok then Info else Error
    case DeliveryRow(status, error, finished) =>
      if (error.Some? && error.value != "") || HttpError(status) then Error else if finished then Success else Info
    case IncidentRow(isOpen) => if isOpen then Error else Success
    case BackupRow(result) => if result == Done then Success else if result == Failed then Error else Info
  }

  // ---------- the level filtered by ----------

  predicate EndsWith(s: string, tail: string) {
    |tail| <= |s| && s[|s| - |tail|..] == tail
  }

  predicate EndsWithVerb(action: string, verbs: seq<string>) {
    exists i :: 0 <= i < |verbs| && EndsWith(action, "." + verbs[i])
  }

  /** The level part of each table's where clause. */
  predicate Passes(r: Record, levels: seq<Level>) {
    match r
    case AuditRow(action) =>
      |levels| >= |ALL|
      || (Error in levels && EndsWithVerb(action, ERROR_VERBS))
      || (Warning in levels && EndsWithVerb(action, WARNING_VERBS))
      || (Success in levels && EndsWithVerb(action, SUCCESS_VERBS))
      || (Info in levels && !EndsWithVerb(action, ERROR_VERBS + WARNING_VERBS + SUCCESS_VERBS))
    case NoticeRow(ok) =>
      (Info in levels) == (Error in levels) || ok == (Info in levels)
    case DeliveryRow(status, error, finished) =>
      (Error in levels && Success in levels && Info in levels)
      || (Error in levels && (error.Some? || HttpError(status)))
      || (Success in levels && error.None? && finished && !HttpError(status))
      || (Info in levels && error.None? && !finished && !HttpError(status))
    case IncidentRow(isOpen) =>
      (Error in levels) == (Success in levels) || isOpen == (Error in levels)
    case BackupRow(result) =>
      (Error in levels && Success in levels && Info in levels)
      || (result == Done && Success in levels) || (result == Failed && Error in levels)
      || (result == Running && Info in levels)
  }

  // ---------- dotted actions ----------

  function AfterLastDot(s: string): string {
    if '.' !in s then s else AfterLastDot(s[1..])
  }

  function Dots(s: string): nat {
    if s == "" then 0 else (if s[0] == '.' then 1 else 0) + Dots(s[1..])
  }

  lemma {:induction false} NoDots(s: string)
    ensures Dots(s) == 0 <==> '.' !in s
  {
    if s != "" {
      NoDots(s[1..]);
    }
  }

  lemma {:induction false} LastOf(front: string, verb: string)
    requires '.' !in verb
    ensures AfterLastDot(front + "." + verb) == verb
  {
    var s := front + "." + verb;
    assert s[|front|] == '.';
    if front == "" {
      assert s[1..] == verb;
    } else {
      assert s[1..] == front[1..] + "." + verb;
      LastOf(front[1..], verb);
    }
  }

  lemma {:induction false} SplitAtLast(s: string) returns (front: string)
    requires '.' in s
    ensures s == front + "." + AfterLastDot(s)
  {
    if '.' in s[1..] {
      var rest := SplitAtLast(s[1..]);
      front := [s[0]] + rest;
      assert s == [s[0]] + s[1..];
    } else {
      front := "";
      assert s == [s[0]] + s[1..];
    }
  }

  /** A dotless verb ends an action after a dot exactly when it is the last segment of a dotted action. */
  lemma EndsWithIsLast(s: string, verb: string)
    requires '.' !in verb
    ensures EndsWith(s, "." + verb) <==> '.' in s && AfterLastDot(s) == verb
  {
    var tail := "." + verb;
    if EndsWith(s, tail) {
      var front := s[..|s| - |tail|];
      assert s == front + tail && front + tail == front + "." + verb;
      assert s[|front|] == '.';
      LastOf(front, verb);
    }
    if '.' in s && AfterLastDot(s) == verb {
      var front := SplitAtLast(s);
      assert s == front + tail;
      assert s[|s| - |tail|..] == tail;
    }
  }

  lemma {:induction false} OneDot(s: string)
    ensures Dots(s) <= 1 ==> AfterFirstDot(s) == AfterLastDot(s)
    ensures Dots(s) >= 2 ==> '.' in AfterFirstDot(s)
    ensures '.' !in AfterLastDot(s)
  {
    NoDots(s);
    if '.' in s {
      NoDots(s[1..]);
      OneDot(s[1..]);
    }
  }

  predicate Listed(verb: string) {
    verb in ERROR_VERBS || verb in WARNING_VERBS || verb in SUCCESS_VERBS
  }

  /** No listed verb holds a dot, and no verb is in two lists. */
  lemma VerbLists(verb: string)
    ensures Listed(verb) ==> '.' !in verb && verb != ""
    ensures !(verb in ERROR_VERBS && verb in WARNING_VERBS)
    ensures !(verb in ERROR_VERBS && verb in SUCCESS_VERBS)
    ensures !(verb in WARNING_VERBS && verb in SUCCESS_VERBS)
  {
    if verb in ERROR_VERBS {
      assert |verb| == 12 || (|verb| == 6 && verb[0] in "fr") || (|verb| == 5 && verb[0] == 'e');
      assert |verb| == 12 ==> verb[0] == 'l';
    }
    if verb in WARNING_VERBS {
      assert (|verb| == 6 && (verb[0] == 'd' || verb[0] == 'l' || (verb[0] == 'c' && verb[1] == 'a')))
        || (|verb| == 7 && verb[0] in "dc") || |verb| == 13 || (|verb| == 5 && verb[0] == 'p');
    }
    if verb in SUCCESS_VERBS {
      assert (|verb| == 6 && (verb[0] == 'e' || verb[0] == 'v' || (verb[0] == 'c' && verb[1] == 'r')))
        || (|verb| == 7 && verb[0] in "afr") || (|verb| == 5 && verb[0] in "lr") || (|verb| == 12 && verb[0] == 't');
    }
  }

  /** The where clause reads the last segment of a dotted action; the level shown, what follows the first dot. */
  function FilterLevel(action: string): Level {
    if '.' in action then VerbLevel(AfterLastDot(action)) else Info
  }

  lemma EndsWithListed(action: string, verbs: seq<string>)
    requires forall i :: 0 <= i < |verbs| ==> Listed(verbs[i])
    ensures EndsWithVerb(action, verbs) <==> '.' in action && AfterLastDot(action) in verbs
  {
    forall i | 0 <= i < |verbs|
      ensures EndsWith(action, "." + verbs[i]) <==> '.' in action && AfterLastDot(action) == verbs[i]
    {
      VerbLists(verbs[i]);
      hide Listed;
      EndsWithIsLast(action, verbs[i]);
    }
    hide Listed, EndsWith;
    if '.' in action && AfterLastDot(action) in verbs {
      var i :| 0 <= i < |verbs| && verbs[i] == AfterLastDot(action);
      assert EndsWith(action, "." + verbs[i]);
    }
  }

  lemma AuditFilter(action: string, levels: seq<Level>)
    requires |levels| < |ALL|
    ensures Passes(AuditRow(action), levels) <==> FilterLevel(action) in levels
  {
    var all := ERROR_VERBS + WARNING_VERBS + SUCCESS_VERBS;
    var last := AfterLastDot(action);
    EndsWithListed(action, ERROR_VERBS);
    EndsWithListed(action, WARNING_VERBS);
    EndsWithListed(action, SUCCESS_VERBS);
    EndsWithListed(action, all);
    assert last in all <==> Listed(last);
    VerbLists(last);
    hide EndsWithVerb, AfterLastDot;
  }

  /** The level shown and the level filtered by are the same. */
  predicate Regular(r: Record) {
    match r
    case AuditRow(action) => Dots(action) == 1 || !Listed(AfterLastDot(action))
    case DeliveryRow(status, error, _) => error != Some("") || HttpError(status)
    case _ => true
  }

  lemma RegularAction(action: string)
    ensures FilterLevel(action) == LevelOf(AuditRow(action)) <==> Regular(AuditRow(action))
  {
    OneDot(action);
    NoDots(action);
    var first, last := AfterFirstDot(action), AfterLastDot(action);
    VerbLists(first);
    VerbLists(last);
    hide AfterFirstDot, AfterLastDot, Dots;
  }

  /** All four levels, or a list too short to be taken for all four. */
  predicate Plain(levels: seq<Level>) {
    |levels| < |ALL| || forall l :: l in levels
  }

  /** A regular row is selected exactly when its level is among those asked for. */
  lemma RegularPasses(r: Record, levels: seq<Level>)
    requires Regular(r) && Plain(levels) && Asks(SourceOf(r), levels)
    ensures Passes(r, levels) <==> LevelOf(r) in levels
  {
    if r.AuditRow? {
      RegularAction(r.action);
      if |levels| < |ALL| {
        AuditFilter(r.action, levels);
      }
    }
  }

  /** Exactly the regular rows are filtered by the level they show. */
  lemma FilterIffRegular(r: Record)
    ensures (forall levels :: Plain(levels) && Asks(SourceOf(r), levels)
               ==> (Passes(r, levels) <==> LevelOf(r) in levels))
       <==> Regular(r)
  {
    if Regular(r) {
      forall levels | Plain(levels) && Asks(SourceOf(r), levels) ensures Passes(r, levels) <==> LevelOf(r) in levels {
        RegularPasses(r, levels);
      }
    } else {
      var levels := [LevelOf(r)];
      assert LevelOf(r) in levels;
      if r.AuditRow? {
        RegularAction(r.action);
        AuditFilter(r.action, levels);
        assert !Passes(r, levels);
      } else {
        assert !Passes(r, levels);
      }
      assert Plain(levels) && Asks(SourceOf(r), levels);
    }
  }

  /** A list of four or more levels that repeats one and misses another selects every audit row. */
  lemma FilterIffPlain(levels: seq<Level>)
    requires levels != []
    ensures (forall r :: Regular(r) && Asks(SourceOf(r), levels) ==> (Passes(r, levels) <==> LevelOf(r) in levels))
       <==> Plain(levels)
  {
    if Plain(levels) {
      forall r | Regular(r) && Asks(SourceOf(r), levels) ensures Passes(r, levels) <==> LevelOf(r) in levels {
        RegularPasses(r, levels);
      }
    } else {
      var missing :| missing !in levels;
      var r := Sample(missing);
      assert levels[0] in levels && SourceLevels(Audit) == {Error, Warning, Success, Info};
      assert Asks(Audit, levels) by {
        var l := levels[0];
        assert l == Error || l == Warning || l == Success || l == Info;
      }
      hide Regular, LevelOf;
      assert Regular(r) && Asks(SourceOf(r), levels) && Passes(r, levels) && LevelOf(r) == missing;
    }
  }

  /** Every level is shown by some regular audit row. */
  lemma Sample(l: Level) returns (r: Record)
    ensures r.AuditRow? && Regular(r) && LevelOf(r) == l
  {
    match l
    case Error => r := SampleVerb(ERROR_VERBS[3], l);
    case Warning => r := SampleVerb(WARNING_VERBS[2], l);
    case Success => r := SampleVerb(SUCCESS_VERBS[0], l);
    case Info =>
      VerbLists("");
      r := AuditRow("");
  }

  lemma SampleVerb(verb: string, l: Level) returns (r: Record)
    requires match l
      case Error => verb in ERROR_VERBS
      case Warning => verb in WARNING_VERBS
      case Success => verb in SUCCESS_VERBS
      case Info => false
    ensures r.AuditRow? && Regular(r) && LevelOf(r) == l
  {
    VerbLists(verb);
    NoDots(verb);
    assert ("." + verb)[1..] == verb;
    r := AuditRow("." + verb);
  }

  /** An action with a second dot before a listed verb is shown as information and filtered by its verb. */
  lemma SecondDot(a: string, b: string, verb: string, levels: seq<Level>)
    requires '.' !in a && Listed(verb) && |levels| < |ALL|
    ensures LevelOf(AuditRow(a + "." + b + "." + verb)) == Info
    ensures Passes(AuditRow(a + "." + b + "." + verb), levels) <==> VerbLevel(verb) in levels
  {
    var tail := b + "." + verb;
    var action := a + "." + tail;
    assert action == a + "." + b + "." + verb;
    FirstOf(a, tail);
    assert tail[|b|] == '.';
    VerbLists(tail);
    VerbLists(verb);
    LastOf(a + "." + b, verb);
    assert action[|a|] == '.';
    AuditFilter(action, levels);
    hide Listed, AfterLastDot, AfterFirstDot, Passes;
  }

  lemma {:induction false} FirstOf(front: string, tail: string)
    requires '.' !in front
    ensures AfterFirstDot(front + "." + tail) == tail
  {
    var s := front + "." + tail;
    assert s[|front|] == '.';
    if front == "" {
      assert s[1..] == tail;
    } else {
      assert s[1..] == front[1..] + "." + tail;
      FirstOf(front[1..], tail);
    }
  }

  /** The rejections of payment plugins are shown as information, yet are found under the errors only. */
  lemma PluginRejectionsDiffer()
    ensures LevelOf(AuditRow("pay.plugin.reject")) == Info
    ensures Passes(AuditRow("pay.plugin.reject"), [Error]) && !Passes(AuditRow("pay.plugin.reject"), [Info])
  {
    assert "pay" + "." + "plugin" + "." + "reject" == "pay.plugin.reject";
    assert ERROR_VERBS[3] == "reject";
    SecondDot("pay", "plugin", "reject", [Error]);
    SecondDot("pay", "plugin", "reject", [Info]);
    hide LevelOf, Passes;
  }

  /**
   The level shown beside a row: of an audit row by the verb after its first dot, of a delivery an error for
   any error text or a status of 400 and more, else a success once it is done.
   */
  lemma ShownLevels(category: string, verb: string, status: Option<int>, error: Option<string>, finished: bool)
    requires '.' !in category
    ensures LevelOf(AuditRow(category + "." + verb)) ==
      if verb in ["login_failed", "failed", "error", "reject"] then Error
      else if verb in ["delete", "disable", "cancel", "reset_traffic", "prune", "cleanup", "logout"] then Warning
      else if verb in ["create", "approve", "fulfill", "enable", "login", "renew", "totp_enabled", "verify", "restore"]
      then Success else Info
    ensures LevelOf(DeliveryRow(status, error, finished)) == Error
      <==> (error.Some? && error.value != "") || (status.Some? && status.value >= 400)
    ensures LevelOf(DeliveryRow(status, error, finished)) == Success
      <==> finished && (error.None? || error.value == "") && (status.None? || status.value < 400)
  {
    FirstOf(category, verb);
    hide AfterFirstDot;
  }

  lemma OtherLevels(ok: bool, isOpen: bool, verb: string)
    requires '.' !in verb
    ensures LevelOf(NoticeRow(ok)) == if ok then Info else Error
    ensures LevelOf(IncidentRow(isOpen)) == if isOpen then Error else Success
    ensures LevelOf(BackupRow(Done)) == Success && LevelOf(BackupRow(Failed)) == Error
            && LevelOf(BackupRow(Running)) == Info
    ensures LevelOf(AuditRow(verb)) == LevelOf(AuditRow("." + verb))
  {
    var none := "";
    assert none + "." + verb == "." + verb;
    FirstOf("", verb);
    hide VerbLevel;
  }
}
