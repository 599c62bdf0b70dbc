/** Shop domains: the requested host of every admin, and the host its shop is live on. */
module StoreDomains {
  import opened Results

  type Id = string

  /** `verified` tells whether the host was ever verified under this token. */
  datatype Record = Record(host: string, token: string, verified: bool)

  /** A brand may have a live host; the book holds what was requested. */
  datatype Domains = Domains(book: map<Id, Record>, brands: map<Id, Option<string>>)

  datatype Store = Store(enabled: bool, adminActive: bool)

  /** What the two probes of a host answer, https first; "" where nothing usable came back. */
  datatype Answers = Answers(https: string, http: string)

  function Live(d: Domains, a: Id): Option<string> {
    if a in d.brands then d.brands[a] else None
  }

  predicate LiveElsewhere(d: Domains, a: Id, host: string) {
    exists b :: b in d.brands && b != a && d.brands[b] == Some(host)
  }

  predicate RequestedElsewhere(d: Domains, a: Id, host: string) {
    exists b :: b in d.book && b != a && d.book[b].host == host
  }

  function Cleared(d: Domains, a: Id): Domains {
    if a in d.brands then d.(brands := d.brands[a := None]) else d
  }

  /** `host` is normalised, "" when the input was no usable domain; `token` is the one made for a new host. */
  function Set(d: Domains, panel: string, a: Id, host: string, token: string): (Domains, Reply) {
    if host == "" || host == panel then (d, Thrown(Invalid))
    else if LiveElsewhere(d, a, host) || RequestedElsewhere(d, a, host) then (d, Thrown(Conflict))
    else if a in d.book && d.book[a].host == host then (d, Ok)
    else (Cleared(d.(book := d.book[a := Record(host, token, false)]), a), Ok)
  }

  function Remove(d: Domains, a: Id): Domains {
    Cleared(d.(book := d.book - {a}), a)
  }

  predicate Passes(token: string, answers: Answers) {
    (answers.https != "" && answers.https == token) || (answers.http != "" && answers.http == token)
  }

  function Verify(d: Domains, a: Id, answers: Answers): (Domains, Reply) {
    if a !in d.book then (d, Thrown(NotFound))
    else
      var rec := d.book[a];
      if Passes(rec.token, answers)
      then (Domains(d.book[a := rec.(verified := true)], d.brands[a := Some(rec.host)]), Ok)
      else (d, Ok)
  }

  // ---------- what every run keeps ----------

  /** Every host is requested by one admin, and a live host is its admin's verified request, never the panel's. */
  ghost predicate Good(d: Domains, panel: string) {
    && (forall a, b :: a in d.book && b in d.book && a != b ==> d.book[a].host != d.book[b].host)
    && (forall a :: a in d.book ==> d.book[a].host != "" && d.book[a].host != panel)
    && (forall a :: a in d.brands && d.brands[a].Some?
          ==> a in d.book && d.book[a].host == d.brands[a].value && d.book[a].verified)
  }

  datatype Step =
    | SetStep(admin: Id, host: string, token: string)
    | RemoveStep(admin: Id)
    | VerifyStep(admin: Id, answers: Answers)

  function Do(d: Domains, panel: string, s: Step): Domains {
    match s
    case SetStep(a, host, token) => Set(d, panel, a, host, token).0
    case RemoveStep(a) => Remove(d, a)
    case VerifyStep(a, answers) => Verify(d, a, answers).0
  }

  ghost function Run(panel: string, run: seq<Step>): Domains {
    if run == [] then Domains(map[], map[]) else Do(Run(panel, run[..|run| - 1]), panel, run[|run| - 1])
  }

  lemma StepKeepsGood(d: Domains, panel: string, s: Step)
    requires Good(d, panel)
    ensures Good(Do(d, panel, s), panel)
  {
    if s.SetStep? {
      assert Set(d, panel, s.admin, s.host, s.token).0 == d || !RequestedElsewhere(d, s.admin, s.host);
    }
  }

  lemma {:induction false} RunIsGood(panel: string, run: seq<Step>)
    ensures Good(Run(panel, run), panel)
  {
    if run != [] {
      RunIsGood(panel, run[..|run| - 1]);
      hide Good, Do;
      StepKeepsGood(Run(panel, run[..|run| - 1]), panel, run[|run| - 1]);
    }
  }

  /** After any run two admins never hold the same host, requested or live, in any mixture. */
  lemma HostsAreExclusive(panel: string, run: seq<Step>, a: Id, b: Id, host: string)
    requires a != b
    ensures var d := Run(panel, run);
      (Live(d, a) == Some(host) || (a in d.book && d.book[a].host == host)) ==>
        Live(d, b) != Some(host) && !(b in d.book && d.book[b].host == host)
    ensures Live(Run(panel, run), a) == Some(host) ==> host != panel && host != ""
  {
    RunIsGood(panel, run);
  }

  /** A live host answered with its admin's present token at some verification. */
  ghost predicate WasProved(run: seq<Step>, a: Id, token: string) {
    exists i :: 0 <= i < |run| && run[i].VerifyStep? && run[i].admin == a && Passes(token, run[i].answers)
  }

  lemma WasProvedMore(run: seq<Step>, a: Id, token: string)
    requires run != [] && WasProved(run[..|run| - 1], a, token)
    ensures WasProved(run, a, token)
  {
    var i :| 0 <= i < |run| - 1 && run[..|run| - 1][i].VerifyStep? && run[..|run| - 1][i].admin == a
      && Passes(token, run[..|run| - 1][i].answers);
    assert run[i] == run[..|run| - 1][i];
  }

  /** A host becomes live only by a passed verification; any other step keeps the token of a live host. */
  lemma LiveAfterStep(d: Domains, panel: string, s: Step, a: Id)
    requires Good(d, panel) && Live(Do(d, panel, s), a).Some?
    ensures var next := Do(d, panel, s);
      && a in next.book && next.book[a].host == Live(next, a).value
      && ((s.VerifyStep? && s.admin == a && Passes(next.book[a].token, s.answers))
          || (Live(d, a).Some? && a in d.book && d.book[a].token == next.book[a].token))
  {
  }

  /** No shop is ever live on a host that did not answer with the token its admin was given for it. */
  lemma {:induction false} LiveWasProved(panel: string, run: seq<Step>, a: Id)
    requires Live(Run(panel, run), a).Some?
    ensures var d := Run(panel, run);
      a in d.book && d.book[a].host == Live(d, a).value && WasProved(run, a, d.book[a].token)
  {
    if run != [] {
      var n := |run| - 1;
      var before, s := Run(panel, run[..n]), run[n];
      RunIsGood(panel, run[..n]);
      LiveAfterStep(before, panel, s, a);
      var token := Run(panel, run).book[a].token;
      hide Good, Do, Run, Live, Passes;
      if s.VerifyStep? && s.admin == a && Passes(token, s.answers) {
        assert run[n].VerifyStep? && run[n].admin == a && Passes(token, run[n].answers);
      } else {
        LiveWasProved(panel, run[..n], a);
        WasProvedMore(run, a, token);
      }
    }
  }

  // ---------- lookups ----------

  /** The admins whose shop a host may resolve to. */
  ghost predicate Serves(d: Domains, stores: map<Id, Store>, host: string, a: Id) {
    host != "" && Live(d, a) == Some(host) && a in stores && stores[a].enabled && stores[a].adminActive
  }

  /** A host resolves to at most one shop. */
  lemma OneShopPerHost(panel: string, run: seq<Step>, stores: map<Id, Store>, host: string, a: Id, b: Id)
    requires Serves(Run(panel, run), stores, host, a) && Serves(Run(panel, run), stores, host, b)
    ensures a == b
  {
    RunIsGood(panel, run);
  }

  /** A successful verification moves the shop, a removal or another host takes it down at once. */
  lemma ShopMoves(d: Domains, panel: string, a: Id, answers: Answers, host: string, token: string)
    requires Good(d, panel)
    ensures a in d.book && Passes(d.book[a].token, answers) ==> Live(Verify(d, a, answers).0, a) == Some(d.book[a].host)
    ensures !(a in d.book && Passes(d.book[a].token, answers)) ==> Verify(d, a, answers).0 == d
    ensures Live(Remove(d, a), a) == None
    ensures Set(d, panel, a, host, token).1 == Ok ==>
      Live(Set(d, panel, a, host, token).0, a) == if a in d.book && d.book[a].host == host then Live(d, a) else None
    ensures forall b :: b != a ==>
      Live(Set(d, panel, a, host, token).0, b) == Live(d, b) == Live(Remove(d, a), b)
        == Live(Verify(d, a, answers).0, b)
  {
  }

  /** The loop-back route may answer for a host with this token. */
  ghost predicate ServesToken(d: Domains, host: string, token: string) {
    exists a :: a in d.book && d.book[a].host == host && d.book[a].token == token
  }

  /** A host that points at this panel is answered with its own admin's token, so verifying it succeeds. */
  lemma PointedHostVerifies(panel: string, run: seq<Step>, a: Id, served: string)
    requires var d := Run(panel, run); a in d.book && d.book[a].token != "" && ServesToken(d, d.book[a].host, served)
    ensures var d := Run(panel, run); Live(Verify(d, a, Answers("", served)).0, a) == Some(d.book[a].host)
  {
    RunIsGood(panel, run);
  }

  // ---------- the service ----------

  class DomainDesk {
    const panel: string
    var book: map<Id, Record>
    var brands: map<Id, Option<string>>

    ghost function State(): Domains
      reads this
    {
      Domains(book, brands)
    }

    constructor (panel: string)
      ensures this.panel == panel && State() == Domains(map[], map[]) && Good(State(), panel)
    {
      this.panel := panel;
      book, brands := map[], map[];
    }

    /** The token this panel serves for a host, found by walking the book. */
    method TokenForHost(host: string) returns (token: Option<string>)
      ensures token.Some? ==> ServesToken(State(), host, token.value)
      ensures token.None? ==> host == "" || forall a :: a in book ==> book[a].host != host
    {
      if host == "" {
        return None;
      }
      var left := book.Keys;
      while left != {}
        invariant left <= book.Keys && forall a :: a in book && a !in left ==> book[a].host != host
        decreases |left|
      {
        var a :| a in left;
        if book[a].host == host {
          return Some(book[a].token);
        }
        left := left - {a};
      }
      return None;
    }

    /** The admin whose shop a host shows. */
    method GetStoreByHost(host: string, stores: map<Id, Store>) returns (found: Option<Id>)
      requires Good(State(), panel)
      ensures forall a :: found == Some(a) <==> Serves(State(), stores, host, a)
      ensures forall a :: (found == Some(a)
                           <==> (&& host != "" && a in brands && brands[a] == Some(host)
                                 && a in stores && stores[a] == Store(true, true)))
    {
      if host == "" {
        return None;
      }
      var left := brands.Keys;
      while left != {}
        invariant left <= brands.Keys && forall a :: a in brands && a !in left ==> brands[a] != Some(host)
        decreases |left|
      {
        var a :| a in left;
        left := left - {a};
        if brands[a] == Some(host) {
          assert forall b :: b in brands && brands[b] == Some(host) ==> b == a;
          if a in stores && stores[a].enabled && stores[a].adminActive {
            return Some(a);
          }
          return None;
        }
      }
      return None;
    }

    method ClearLive(a: Id)
      modifies this`brands
      ensures State() == Cleared(old(State()), a)
    {
      if a in brands && brands[a].Some? {
        brands := brands[a := None];
      }
      assert a in old(brands) && old(brands)[a] == None ==> old(brands)[a := None] == old(brands);
    }

    method SetStoreDomain(a: Id, host: string, newToken: string) returns (r: Reply)
      modifies this
      ensures (State(), r) == Set(old(State()), panel, a, host, newToken)
      ensures Good(old(State()), panel) ==> Good(State(), panel)
    {
      StepKeepsGoodIfGood(State(), panel, SetStep(a, host, newToken));
      hide Good;
      if host == "" {
        return Thrown(Invalid);
      }
      if host == panel {
        return Thrown(Invalid);
      }
      if exists b :: b in brands && b != a && brands[b] == Some(host) {
        assert LiveElsewhere(State(), a, host);
        return Thrown(Conflict);
      }
      var left := book.Keys;
      while left != {}
        invariant left <= book.Keys && forall b :: b in book && b !in left ==> b == a || book[b].host != host
        decreases |left|
      {
        var b :| b in left;
        left := left - {b};
        if book[b].host == host && b != a {
          assert RequestedElsewhere(State(), a, host);
          return Thrown(Conflict);
        }
      }
      var same := a in book && book[a].host == host;
      var next := if same then book[a] else Record(host, newToken, false);
      ghost var was := book;
      book := book[a := next];
      assert same ==> book == was;
      if !same {
        ClearLive(a);
      }
      r := Ok;
    }

    method RemoveStoreDomain(a: Id)
      modifies this
      ensures State() == Remove(old(State()), a)
      ensures Good(old(State()), panel) ==> Good(State(), panel)
    {
      StepKeepsGoodIfGood(State(), panel, RemoveStep(a));
      hide Good;
      book := book - {a};
      ClearLive(a);
    }

    /** The probes run in order and stop at the first that passes. */
    method VerifyStoreDomain(a: Id, answers: Answers) returns (r: Reply)
      modifies this
      ensures (State(), r) == Verify(old(State()), a, answers)
      ensures Good(old(State()), panel) ==> Good(State(), panel)
    {
      StepKeepsGoodIfGood(State(), panel, VerifyStep(a, answers));
      hide Good;
      if a !in book {
        return Thrown(NotFound);
      }
      var rec := book[a];
      var got := [answers.https, answers.http];
      var passed := false;
      var i := 0;
      while i < |got| && !passed
        invariant 0 <= i <= |got|
        invariant passed ==> Passes(rec.token, answers)
        invariant !passed ==> forall j :: 0 <= j < i ==> !(got[j] != "" && got[j] == rec.token)
      {
        passed := got[i] != "" && got[i] == rec.token;
        i := i + 1;
      }
      assert !passed ==> !(got[0] != "" && got[0] == rec.token) && !(got[1] != "" && got[1] == rec.token);
      ghost var was := book;
      book := book[a := rec.(verified := passed || rec.verified)];
      assert !passed ==> book == was;
      if passed {
        brands := brands[a := Some(rec.host)];
      }
      r := Ok;
    }
  }

  lemma StepKeepsGoodIfGood(d: Domains, panel: string, s: Step)
    ensures Good(d, panel) ==> Good(Do(d, panel, s), panel)
  {
    if Good(d, panel) {
      StepKeepsGood(d, panel, s);
    }
  }
}
