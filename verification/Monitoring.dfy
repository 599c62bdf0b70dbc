/** Incidents of the monitored servers: opened and closed by the check rounds, or closed by hand. */
module Monitoring {
  import opened Results

  type Id = string

  datatype Kind = Offline | AuthError | XrayDown | HighCpu

  datatype Incident = Incident(server: Id, kind: Kind, isOpen: bool)

  /** One check of a server; `cpu` counts as zero where it is missing. */
  datatype Metric = Metric(online: bool, cpu: Option<real>, xray: string)

  datatype Server = Server(id: Id, isActive: bool, authFailed: bool)

  datatype Settings = Settings(failThreshold: nat, cpuThreshold: int)

  /** The latest checks of every server, newest first. */
  type Checks = map<Id, seq<Metric>>

  function Recent(checks: Checks, s: Id, m: Settings): seq<Metric> {
    var all := if s in checks then checks[s] else [];
    var take := if m.failThreshold < 3 then 3 else m.failThreshold;
    if |all| > take then all[..take] else all
  }

  predicate IsDown(recent: seq<Metric>, m: Settings) {
    |recent| >= m.failThreshold && forall i :: 0 <= i < m.failThreshold ==> !recent[i].online
  }

  function Cpu(r: Metric): real {
    if r.cpu.Some? then r.cpu.value else 0.0
  }

  predicate CpuHigh(recent: seq<Metric>, m: Settings) {
    |recent| >= 3 && forall i :: 0 <= i < 3 ==> Cpu(recent[i]) >= m.cpuThreshold as real
  }

  predicate CpuCalm(r: Metric, m: Settings) {
    Cpu(r) < (if m.cpuThreshold < 10 then 0 else m.cpuThreshold - 10) as real
  }

  predicate XrayStopped(r: Metric) {
    r.xray != "" && r.xray != "running"
  }

  // ---------- open incidents ----------

  predicate Matches(i: Incident, s: Id, k: Kind) {
    i.isOpen && i.server == s && i.kind == k
  }

  function FirstOpen(incs: seq<Incident>, s: Id, k: Kind): (i: nat)
    ensures i <= |incs| && (i < |incs| ==> Matches(incs[i], s, k))
    ensures forall j :: 0 <= j < i ==> !Matches(incs[j], s, k)
  {
    if incs == [] || Matches(incs[0], s, k) then 0
    else
      assert forall j :: 0 < j < |incs| ==> incs[j] == incs[1..][j - 1];
      1 + FirstOpen(incs[1..], s, k)
  }

  predicate HasOpen(incs: seq<Incident>, s: Id, k: Kind) {
    FirstOpen(incs, s, k) < |incs|
  }

  function Opened(incs: seq<Incident>, s: Id, k: Kind): seq<Incident> {
    incs + [Incident(s, k, true)]
  }

  function Closed(incs: seq<Incident>, s: Id, k: Kind): seq<Incident> {
    var i := FirstOpen(incs, s, k);
    if i < |incs| then incs[i := incs[i].(isOpen := false)] else incs
  }

  function Count(incs: seq<Incident>, s: Id, k: Kind): nat {
    if incs == [] then 0
    else Count(incs[..|incs| - 1], s, k) + (if Matches(incs[|incs| - 1], s, k) then 1 else 0)
  }

  function OpenTotal(incs: seq<Incident>): nat {
    if incs == [] then 0
    else OpenTotal(incs[..|incs| - 1]) + (if incs[|incs| - 1].isOpen then 1 else 0)
  }

  lemma CountOpened(incs: seq<Incident>, s: Id, k: Kind, t: Id, l: Kind)
    ensures Count(Opened(incs, s, k), t, l) == Count(incs, t, l) + (if s == t && k == l then 1 else 0)
    ensures OpenTotal(Opened(incs, s, k)) == OpenTotal(incs) + 1
  {
    assert Opened(incs, s, k)[..|incs|] == incs;
  }

  lemma {:induction false} CountShut(incs: seq<Incident>, i: nat, t: Id, l: Kind)
    requires i < |incs| && incs[i].isOpen
    ensures Count(incs[i := incs[i].(isOpen := false)], t, l)
      == Count(incs, t, l) - (if Matches(incs[i], t, l) then 1 else 0)
    ensures OpenTotal(incs[i := incs[i].(isOpen := false)]) == OpenTotal(incs) - 1
  {
    var n := |incs| - 1;
    var next := incs[i := incs[i].(isOpen := false)];
    if i == n {
      assert next[..n] == incs[..n];
    } else {
      assert next[..n] == incs[..n][i := incs[i].(isOpen := false)];
      CountShut(incs[..n], i, t, l);
    }
  }

  lemma {:induction false} CountIsNone(incs: seq<Incident>, s: Id, k: Kind)
    requires forall j :: 0 <= j < |incs| ==> !Matches(incs[j], s, k)
    ensures Count(incs, s, k) == 0
  {
    if incs != [] {
      CountIsNone(incs[..|incs| - 1], s, k);
    }
  }

  lemma {:induction false} CountIsSome(incs: seq<Incident>, s: Id, k: Kind, j: nat)
    requires j < |incs| && Matches(incs[j], s, k)
    ensures Count(incs, s, k) > 0
  {
    if j < |incs| - 1 {
      CountIsSome(incs[..|incs| - 1], s, k, j);
    }
  }

  /** An incident is found exactly when one is open. */
  lemma OpenIffCounted(incs: seq<Incident>, s: Id, k: Kind)
    ensures HasOpen(incs, s, k) <==> Count(incs, s, k) > 0
  {
    if HasOpen(incs, s, k) {
      CountIsSome(incs, s, k, FirstOpen(incs, s, k));
    } else {
      CountIsNone(incs, s, k);
    }
  }

  lemma CountClosed(incs: seq<Incident>, s: Id, k: Kind, t: Id, l: Kind)
    ensures Count(Closed(incs, s, k), t, l)
      == Count(incs, t, l) - (if s == t && k == l && Count(incs, t, l) > 0 then 1 else 0)
  {
    OpenIffCounted(incs, s, k);
    var i := FirstOpen(incs, s, k);
    if i < |incs| {
      CountShut(incs, i, t, l);
    }
  }

  // ---------- one server in one round ----------

  function Reachability(incs: seq<Incident>, s: Server, recent: seq<Metric>, m: Settings): seq<Incident>
    requires recent != []
  {
    if IsDown(recent, m) then
      if HasOpen(incs, s.id, Offline) || HasOpen(incs, s.id, AuthError) then incs
      else Opened(incs, s.id, if s.authFailed then AuthError else Offline)
    else if recent[0].online then Closed(Closed(incs, s.id, Offline), s.id, AuthError)
    else incs
  }

  function Service(incs: seq<Incident>, s: Server, latest: Metric): seq<Incident> {
    if !latest.online then incs
    else if XrayStopped(latest) then (if HasOpen(incs, s.id, XrayDown) then incs else Opened(incs, s.id, XrayDown))
    else Closed(incs, s.id, XrayDown)
  }

  function Load(incs: seq<Incident>, s: Server, recent: seq<Metric>, m: Settings): seq<Incident>
    requires recent != []
  {
    if !recent[0].online then incs
    else if CpuHigh(recent, m) && !HasOpen(incs, s.id, HighCpu) then Opened(incs, s.id, HighCpu)
    else if CpuCalm(recent[0], m) then Closed(incs, s.id, HighCpu)
    else incs
  }

  function Checked(incs: seq<Incident>, s: Server, recent: seq<Metric>, m: Settings): seq<Incident> {
    if !s.isActive || recent == [] then incs
    else Load(Service(Reachability(incs, s, recent, m), s, recent[0]), s, recent, m)
  }

  function Round(incs: seq<Incident>, servers: seq<Server>, checks: Checks, m: Settings): seq<Incident> {
    if servers == [] then incs
    else
      var s := servers[|servers| - 1];
      Checked(Round(incs, servers[..|servers| - 1], checks, m), s, Recent(checks, s.id, m), m)
  }

  // ---------- what every run keeps ----------

  /** At most one open incident per server and kind, and a server is never both offline and failing to log in. */
  ghost predicate Good(incs: seq<Incident>) {
    forall s :: GoodFor(incs, s)
  }

  predicate GoodFor(incs: seq<Incident>, s: Id) {
    && Count(incs, s, Offline) + Count(incs, s, AuthError) <= 1
    && Count(incs, s, XrayDown) <= 1
    && Count(incs, s, HighCpu) <= 1
  }

  /** The open incidents of a server after its checks, kind by kind. */
  lemma CheckedCounts(incs: seq<Incident>, s: Server, recent: seq<Metric>, m: Settings, k: Kind)
    requires GoodFor(incs, s.id) && s.isActive && recent != []
    ensures var down, online, before := IsDown(recent, m), recent[0].online, Count(incs, s.id, k);
      Count(Checked(incs, s, recent, m), s.id, k) == match k
        case Offline =>
          if down then (if before + Count(incs, s.id, AuthError) > 0 || s.authFailed then before else 1)
          else if online then 0 else before
        case AuthError =>
          if down then (if before + Count(incs, s.id, Offline) > 0 || !s.authFailed then before else 1)
          else if online then 0 else before
        case XrayDown => if !online then before else if XrayStopped(recent[0]) then 1 else 0
        case HighCpu =>
          if !online then before
          else if CpuHigh(recent, m) && before == 0 then 1
          else if CpuCalm(recent[0], m) then 0 else before
  {
    var a := Reachability(incs, s, recent, m);
    var b := Service(a, s, recent[0]);
    ReachabilityCounts(incs, s, recent, m, s.id, k);
    ReachabilityCounts(incs, s, recent, m, s.id, XrayDown);
    ReachabilityCounts(incs, s, recent, m, s.id, HighCpu);
    ServiceCounts(a, s, recent[0], s.id, k);
    ServiceCounts(a, s, recent[0], s.id, HighCpu);
    LoadCounts(b, s, recent, m, s.id, k);
    hide Reachability, Service, Load, IsDown, CpuHigh, CpuCalm, XrayStopped, Count;
  }

  lemma ReachabilityCounts(incs: seq<Incident>, s: Server, recent: seq<Metric>, m: Settings, t: Id, k: Kind)
    requires recent != []
    ensures var down, online, before := IsDown(recent, m), recent[0].online, Count(incs, t, k);
      var both := Count(incs, s.id, Offline) + Count(incs, s.id, AuthError);
      Count(Reachability(incs, s, recent, m), t, k) ==
        if t != s.id || k == XrayDown || k == HighCpu then before
        else if down then (if both == 0 && k == (if s.authFailed then AuthError else Offline) then 1 else before)
        else if online && before > 0 then before - 1 else before
  {
    OpenIffCounted(incs, s.id, Offline);
    OpenIffCounted(incs, s.id, AuthError);
    CountOpened(incs, s.id, if s.authFailed then AuthError else Offline, t, k);
    CountClosed(incs, s.id, Offline, t, k);
    CountClosed(Closed(incs, s.id, Offline), s.id, AuthError, t, k);
    hide Opened, Closed, HasOpen, Count, IsDown;
  }

  lemma ServiceCounts(incs: seq<Incident>, s: Server, latest: Metric, t: Id, k: Kind)
    ensures var before := Count(incs, t, k);
      Count(Service(incs, s, latest), t, k) ==
        if t != s.id || k != XrayDown || !latest.online then before
        else if XrayStopped(latest) then (if before == 0 then 1 else before)
        else if before > 0 then before - 1 else 0
  {
    OpenIffCounted(incs, s.id, XrayDown);
    CountOpened(incs, s.id, XrayDown, t, k);
    CountClosed(incs, s.id, XrayDown, t, k);
    hide Opened, Closed, HasOpen, Count, XrayStopped;
  }

  lemma LoadCounts(incs: seq<Incident>, s: Server, recent: seq<Metric>, m: Settings, t: Id, k: Kind)
    requires recent != []
    ensures var before := Count(incs, t, k);
      Count(Load(incs, s, recent, m), t, k) ==
        if t != s.id || k != HighCpu || !recent[0].online then before
        else if CpuHigh(recent, m) && before == 0 then 1
        else if CpuCalm(recent[0], m) && before > 0 then before - 1 else before
  {
    OpenIffCounted(incs, s.id, HighCpu);
    CountOpened(incs, s.id, HighCpu, t, k);
    CountClosed(incs, s.id, HighCpu, t, k);
    hide Opened, Closed, HasOpen, Count, CpuHigh, CpuCalm;
  }

  /** The checks of one server leave every other server's incidents as they were. */
  lemma OthersStay(incs: seq<Incident>, s: Server, recent: seq<Metric>, m: Settings, t: Id, k: Kind)
    requires t != s.id
    ensures Count(Checked(incs, s, recent, m), t, k) == Count(incs, t, k)
  {
    if s.isActive && recent != [] {
      var a := Reachability(incs, s, recent, m);
      ReachabilityCounts(incs, s, recent, m, t, k);
      ServiceCounts(a, s, recent[0], t, k);
      LoadCounts(Service(a, s, recent[0]), s, recent, m, t, k);
      hide Reachability, Service, Load, Count;
    }
  }

  lemma CheckKeepsGood(incs: seq<Incident>, s: Server, recent: seq<Metric>, m: Settings)
    requires Good(incs)
    ensures Good(Checked(incs, s, recent, m))
  {
    var after := Checked(incs, s, recent, m);
    forall t ensures GoodFor(after, t) {
      assert GoodFor(incs, t);
      if t != s.id {
        OthersStay(incs, s, recent, m, t, Offline);
        OthersStay(incs, s, recent, m, t, AuthError);
        OthersStay(incs, s, recent, m, t, XrayDown);
        OthersStay(incs, s, recent, m, t, HighCpu);
      } else if s.isActive && recent != [] {
        CheckedCounts(incs, s, recent, m, Offline);
        CheckedCounts(incs, s, recent, m, AuthError);
        CheckedCounts(incs, s, recent, m, XrayDown);
        CheckedCounts(incs, s, recent, m, HighCpu);
      }
      hide Checked, Count, IsDown, CpuHigh, CpuCalm, XrayStopped;
    }
  }

  lemma {:induction false} RoundKeepsGood(incs: seq<Incident>, servers: seq<Server>, checks: Checks, m: Settings)
    requires Good(incs)
    ensures Good(Round(incs, servers, checks, m))
  {
    if servers != [] {
      var n := |servers| - 1;
      RoundKeepsGood(incs, servers[..n], checks, m);
      hide Good, Checked, Recent;
      CheckKeepsGood(Round(incs, servers[..n], checks, m), servers[n], Recent(checks, servers[n].id, m), m);
    }
  }

  datatype Step =
    | RoundStep(servers: seq<Server>, checks: Checks, settings: Settings)
    | CloseByHand(incident: nat)

  function ByHand(incs: seq<Incident>, i: nat): seq<Incident> {
    if i < |incs| && incs[i].isOpen then incs[i := incs[i].(isOpen := false)] else incs
  }

  function Do(incs: seq<Incident>, s: Step): seq<Incident> {
    match s
    case RoundStep(servers, checks, m) => Round(incs, servers, checks, m)
    case CloseByHand(i) => ByHand(incs, i)
  }

  ghost function Run(run: seq<Step>): seq<Incident> {
    if run == [] then [] else Do(Run(run[..|run| - 1]), run[|run| - 1])
  }

  /** Over any run of rounds and manual closes. */
  lemma {:induction false} RunIsGood(run: seq<Step>)
    ensures Good(Run(run))
  {
    if run != [] {
      var before := Run(run[..|run| - 1]);
      RunIsGood(run[..|run| - 1]);
      match run[|run| - 1]
      case RoundStep(servers, checks, m) => RoundKeepsGood(before, servers, checks, m);
      case CloseByHand(i) =>
        if i < |before| && before[i].isOpen {
          forall s ensures GoodFor(ByHand(before, i), s) {
            assert GoodFor(before, s);
            CountShut(before, i, s, Offline);
            CountShut(before, i, s, AuthError);
            CountShut(before, i, s, XrayDown);
            CountShut(before, i, s, HighCpu);
            hide Count;
          }
        }
    }
  }

  // ---------- what a round leaves ----------

  ghost predicate DistinctServers(servers: seq<Server>) {
    forall i, j :: 0 <= i < j < |servers| ==> servers[i].id != servers[j].id
  }

  lemma {:induction false} RoundSkips(incs: seq<Incident>, servers: seq<Server>, checks: Checks, m: Settings, t: Id,
                                      k: Kind)
    requires forall i :: 0 <= i < |servers| ==> servers[i].id != t
    ensures Count(Round(incs, servers, checks, m), t, k) == Count(incs, t, k)
  {
    if servers != [] {
      var n := |servers| - 1;
      RoundSkips(incs, servers[..n], checks, m, t, k);
      hide Checked, Count, Recent;
      OthersStay(Round(incs, servers[..n], checks, m), servers[n], Recent(checks, servers[n].id, m), m, t, k);
    }
  }

  /** In a round a server's incidents depend on its own checks alone. */
  lemma {:induction false} RoundIsPerServer(incs: seq<Incident>, servers: seq<Server>, checks: Checks, m: Settings,
                                            i: nat, k: Kind)
    requires Good(incs) && DistinctServers(servers) && i < |servers|
    ensures Count(Round(incs, servers, checks, m), servers[i].id, k)
         == Count(Checked(incs, servers[i], Recent(checks, servers[i].id, m), m), servers[i].id, k)
  {
    var n := |servers| - 1;
    var t, recent := servers[i].id, Recent(checks, servers[i].id, m);
    var before := Round(incs, servers[..n], checks, m);
    if i == n {
      RoundKeepsGood(incs, servers[..n], checks, m);
      assert GoodFor(incs, t) && GoodFor(before, t);
      RoundSkips(incs, servers[..n], checks, m, t, k);
      RoundSkips(incs, servers[..n], checks, m, t, Offline);
      RoundSkips(incs, servers[..n], checks, m, t, AuthError);
      if servers[i].isActive && recent != [] {
        CheckedCounts(incs, servers[i], recent, m, k);
        CheckedCounts(before, servers[i], recent, m, k);
      }
      hide Count, Recent, GoodFor;
    } else {
      RoundIsPerServer(incs, servers[..n], checks, m, i, k);
      OthersStay(before, servers[n], Recent(checks, servers[n].id, m), m, t, k);
    }
  }

  /**
   After a round of any reachable state, for every checked server: an online latest check leaves
   neither OFFLINE nor AUTH_ERROR open and the service incident tells the truth; as many failures
   in a row as the threshold asks leave exactly one open.
   */
  lemma RoundTellsTheTruth(run: seq<Step>, servers: seq<Server>, checks: Checks, m: Settings, i: nat)
    requires m.failThreshold >= 1 && DistinctServers(servers) && i < |servers| && servers[i].isActive
    requires Recent(checks, servers[i].id, m) != []
    ensures var s := servers[i].id;
      var after, recent := Round(Run(run), servers, checks, m), Recent(checks, s, m);
      && (recent[0].online ==> !HasOpen(after, s, Offline) && !HasOpen(after, s, AuthError)
                               && (HasOpen(after, s, XrayDown) <==> XrayStopped(recent[0])))
      && (IsDown(recent, m) ==> Count(after, s, Offline) + Count(after, s, AuthError) == 1)
  {
    var incs := Run(run);
    RunIsGood(run);
    assert GoodFor(incs, servers[i].id);
    var after, recent := Round(incs, servers, checks, m), Recent(checks, servers[i].id, m);
    assert recent[0].online ==> !IsDown(recent, m);
    forall k: Kind ensures HasOpen(after, servers[i].id, k) <==> Count(after, servers[i].id, k) > 0 {
      OpenIffCounted(after, servers[i].id, k);
    }
    RoundIsPerServer(incs, servers, checks, m, i, Offline);
    RoundIsPerServer(incs, servers, checks, m, i, AuthError);
    RoundIsPerServer(incs, servers, checks, m, i, XrayDown);
    CheckedCounts(incs, servers[i], recent, m, Offline);
    CheckedCounts(incs, servers[i], recent, m, AuthError);
    CheckedCounts(incs, servers[i], recent, m, XrayDown);
    hide Count, HasOpen, Round, Checked, IsDown, Recent, XrayStopped;
  }

  /**
   An open HIGH_CPU incident is closed by a round exactly when the latest check is online and below the lower mark.
   */
  lemma HighCpuClosesIff(run: seq<Step>, servers: seq<Server>, checks: Checks, m: Settings, i: nat)
    requires DistinctServers(servers) && i < |servers| && HasOpen(Run(run), servers[i].id, HighCpu)
    ensures var recent, after := Recent(checks, servers[i].id, m), Round(Run(run), servers, checks, m);
      HasOpen(after, servers[i].id, HighCpu)
      <==> !(servers[i].isActive && recent != [] && recent[0].online && CpuCalm(recent[0], m))
  {
    var incs := Run(run);
    RunIsGood(run);
    assert GoodFor(incs, servers[i].id);
    var recent := Recent(checks, servers[i].id, m);
    OpenIffCounted(incs, servers[i].id, HighCpu);
    OpenIffCounted(Round(incs, servers, checks, m), servers[i].id, HighCpu);
    RoundIsPerServer(incs, servers, checks, m, i, HighCpu);
    if servers[i].isActive && recent != [] {
      CheckedCounts(incs, servers[i], recent, m, HighCpu);
    }
    hide Count, HasOpen, Round, Recent, CpuHigh, CpuCalm;
  }

  lemma NotOnline(incs: seq<Incident>, s: Server, recent: seq<Metric>, m: Settings)
    requires recent != []
    ensures !recent[0].online && s.isActive ==> Checked(incs, s, recent, m) == Reachability(incs, s, recent, m)
  {
  }

  // ---------- the service ----------

  class Monitor {
    var incidents: seq<Incident>

    constructor ()
      ensures incidents == [] && Good(incidents)
    {
      incidents := [];
    }

    method OpenIncident(s: Id, k: Kind)
      modifies this
      ensures incidents == Opened(old(incidents), s, k)
    {
      incidents := incidents + [Incident(s, k, true)];
    }

    method ResolveIncident(i: nat)
      requires i < |incidents|
      modifies this
      ensures incidents == old(incidents)[i := old(incidents)[i].(isOpen := false)]
    {
      incidents := incidents[i := incidents[i].(isOpen := false)];
    }

    method ResolveIncidentManually(i: nat) returns (r: Reply)
      modifies this
      ensures incidents == ByHand(old(incidents), i) && r == if i < |incidents| then Ok else Thrown(NotFound)
    {
      if i >= |incidents| {
        return Thrown(NotFound);
      }
      if incidents[i].isOpen {
        ResolveIncident(i);
      }
      r := Ok;
    }

    /** The first open incident of a kind is closed, if there is one. */
    method CloseFirst(s: Id, k: Kind) returns (closed: nat)
      modifies this
      ensures incidents == Closed(old(incidents), s, k)
      ensures closed == if HasOpen(old(incidents), s, k) then 1 else 0
      ensures OpenTotal(incidents) + closed == OpenTotal(old(incidents))
    {
      closed := 0;
      var i := FirstOpen(incidents, s, k);
      if i < |incidents| {
        CountShut(incidents, i, s, k);
        ResolveIncident(i);
        closed := 1;
      }
    }

    method CheckReachability(s: Server, recent: seq<Metric>, m: Settings) returns (raised: nat, resolved: nat)
      requires recent != []
      modifies this
      ensures incidents == Reachability(old(incidents), s, recent, m)
      ensures OpenTotal(incidents) + resolved == OpenTotal(old(incidents)) + raised
    {
      raised, resolved := 0, 0;
      var down := |recent| >= m.failThreshold;
      var n := 0;
      while n < m.failThreshold && down
        invariant 0 <= n <= m.failThreshold
        invariant incidents == old(incidents)
        invariant down <==> |recent| >= m.failThreshold && forall j :: 0 <= j < n ==> !recent[j].online
      {
        down := !recent[n].online;
        n := n + 1;
      }
      assert down == IsDown(recent, m);
      hide IsDown, OpenTotal, Closed, HasOpen;
      if down {
        if !HasOpen(incidents, s.id, Offline) && !HasOpen(incidents, s.id, AuthError) {
          var kind := if s.authFailed then AuthError else Offline;
          CountOpened(incidents, s.id, kind, s.id, kind);
          OpenIncident(s.id, kind);
          raised := 1;
        }
      } else if recent[0].online {
        var a := CloseFirst(s.id, Offline);
        var b := CloseFirst(s.id, AuthError);
        resolved := a + b;
      }
    }

    method CheckService(s: Server, latest: Metric) returns (raised: nat, resolved: nat)
      requires latest.online
      modifies this
      ensures incidents == Service(old(incidents), s, latest)
      ensures OpenTotal(incidents) + resolved == OpenTotal(old(incidents)) + raised
    {
      raised, resolved := 0, 0;
      hide OpenTotal, Closed, XrayStopped;
      if XrayStopped(latest) {
        if !HasOpen(incidents, s.id, XrayDown) {
          CountOpened(incidents, s.id, XrayDown, s.id, XrayDown);
          OpenIncident(s.id, XrayDown);
          raised := 1;
        }
      } else {
        resolved := CloseFirst(s.id, XrayDown);
      }
    }

    method CheckLoad(s: Server, recent: seq<Metric>, m: Settings) returns (raised: nat, resolved: nat)
      requires recent != [] && recent[0].online
      modifies this
      ensures incidents == Load(old(incidents), s, recent, m)
      ensures OpenTotal(incidents) + resolved == OpenTotal(old(incidents)) + raised
    {
      raised, resolved := 0, 0;
      var last3 := if |recent| > 3 then recent[..3] else recent;
      var cpuHigh := |last3| == 3 && forall r :: r in last3 ==> Cpu(r) >= m.cpuThreshold as real;
      assert cpuHigh == CpuHigh(recent, m) by {
        if cpuHigh {
          assert forall i :: 0 <= i < 3 ==> recent[i] == last3[i] && last3[i] in last3;
        }
      }
      hide OpenTotal, Closed, CpuHigh, CpuCalm;
      if cpuHigh && !HasOpen(incidents, s.id, HighCpu) {
        CountOpened(incidents, s.id, HighCpu, s.id, HighCpu);
        OpenIncident(s.id, HighCpu);
        raised := 1;
      } else if CpuCalm(recent[0], m) {
        resolved := CloseFirst(s.id, HighCpu);
      }
    }

    /** One server; the counts returned say by how much the open incidents changed. */
    method CheckServer(s: Server, recent: seq<Metric>, m: Settings) returns (raised: nat, resolved: nat)
      requires s.isActive
      modifies this
      ensures incidents == Checked(old(incidents), s, recent, m)
      ensures OpenTotal(incidents) + resolved == OpenTotal(old(incidents)) + raised
    {
      if |recent| == 0 {
        return 0, 0;
      }
      NotOnline(incidents, s, recent, m);
      hide Reachability, Service, Load, OpenTotal;
      raised, resolved := CheckReachability(s, recent, m);
      if recent[0].online {
        var o, r := CheckService(s, recent[0]);
        raised, resolved := raised + o, resolved + r;
        o, r := CheckLoad(s, recent, m);
        raised, resolved := raised + o, resolved + r;
      }
    }

    method EvaluateIncidents(servers: seq<Server>, checks: Checks, m: Settings) returns (raised: nat, resolved: nat)
      modifies this
      ensures incidents == Round(old(incidents), servers, checks, m)
      ensures OpenTotal(incidents) + resolved == OpenTotal(old(incidents)) + raised
      ensures Good(old(incidents)) ==> Good(incidents)
    {
      raised, resolved := 0, 0;
      RoundKeepsGoodIfGood(incidents, servers, checks, m);
      for i := 0 to |servers|
        invariant incidents == Round(old(incidents), servers[..i], checks, m)
        invariant OpenTotal(incidents) + resolved == OpenTotal(old(incidents)) + raised
      {
        assert servers[..i + 1][..i] == servers[..i];
        var s := servers[i];
        if s.isActive {
          var recent := Recent(checks, s.id, m);
          hide Checked, OpenTotal, Recent;
          var o, r := CheckServer(s, recent, m);
          raised, resolved := raised + o, resolved + r;
        }
      }
      assert servers[..|servers|] == servers;
    }
  }

  lemma RoundKeepsGoodIfGood(incs: seq<Incident>, servers: seq<Server>, checks: Checks, m: Settings)
    ensures Good(incs) ==> Good(Round(incs, servers, checks, m))
  {
    if Good(incs) {
      RoundKeepsGood(incs, servers, checks, m);
    }
  }
}
