/** What a check round leaves open, told by the checks themselves. */
module IncidentLaws {
  import opened Results
  import opened Monitoring

  /** The server's checks, newest first. */
  function ChecksOf(checks: Checks, s: Id): seq<Metric> {
    if s in checks then checks[s] else []
  }

  ghost predicate IsOpen(incs: seq<Incident>, s: Id, k: Kind) {
    exists j :: 0 <= j < |incs| && incs[j] == Incident(s, k, true)
  }

  /** The latest n checks are there and all failed. */
  predicate FailedInARow(all: seq<Metric>, n: nat) {
    |all| >= n && forall i :: 0 <= i < n ==> !all[i].online
  }

  function Load(r: Metric): real {
    match r.cpu
    case None => 0.0
    case Some(c) => c
  }

  /** The latest three checks are there and all at the mark or above. */
  predicate BusyThreeTimes(all: seq<Metric>, mark: int) {
    |all| >= 3 && Load(all[0]) >= mark as real && Load(all[1]) >= mark as real && Load(all[2]) >= mark as real
  }

  /** Ten points below the mark, and never below zero. */
  predicate Quiet(r: Metric, mark: int) {
    Load(r) < 0.0 || Load(r) < (mark - 10) as real
  }

  lemma OpenIff(incs: seq<Incident>, s: Id, k: Kind)
    ensures IsOpen(incs, s, k) <==> HasOpen(incs, s, k)
    ensures IsOpen(incs, s, k) <==> Count(incs, s, k) > 0
  {
    OpenIffCounted(incs, s, k);
    var i := FirstOpen(incs, s, k);
    if i < |incs| {
      assert incs[i] == Incident(s, k, true);
    }
    if j :| 0 <= j < |incs| && incs[j] == Incident(s, k, true) {
      assert Matches(incs[j], s, k);
    }
  }

  /** What the round looks at says the same as all checks. */
  lemma RecentSays(checks: Checks, s: Id, m: Settings)
    ensures var all, recent := ChecksOf(checks, s), Recent(checks, s, m);
      && (recent == [] <==> all == []) && (all != [] ==> recent[0] == all[0])
      && (IsDown(recent, m) <==> FailedInARow(all, m.failThreshold))
      && (CpuHigh(recent, m) <==> BusyThreeTimes(all, m.cpuThreshold))
      && (all != [] ==> (CpuCalm(recent[0], m) <==> Quiet(all[0], m.cpuThreshold)))
  {
    var all, recent := ChecksOf(checks, s), Recent(checks, s, m);
    assert forall i :: 0 <= i < |recent| ==> recent[i] == all[i] && Cpu(recent[i]) == Load(all[i]);
    if CpuHigh(recent, m) {
      assert Cpu(recent[0]) >= m.cpuThreshold as real && Cpu(recent[1]) >= m.cpuThreshold as real
        && Cpu(recent[2]) >= m.cpuThreshold as real;
    }
  }

  /**
   After a round of any reachable state, for every active server that was checked: enough failures in a row
   leave exactly one of OFFLINE and AUTH_ERROR open, a new one as the last error says; else an online check
   leaves neither; else both are as before. XRAY_DOWN and HIGH_CPU change on an online check alone: the first is
   open exactly when the service says it is not running; the second opens after three busy checks in a
   row, and an open one closes on a quiet check.
   */
  lemma RoundIff(run: seq<Step>, servers: seq<Server>, checks: Checks, m: Settings, i: nat)
    requires DistinctServers(servers) && i < |servers| && servers[i].isActive && ChecksOf(checks, servers[i].id) != []
    ensures var s, all, before := servers[i].id, ChecksOf(checks, servers[i].id), Run(run);
      var after := Round(before, servers, checks, m);
      var down, online := FailedInARow(all, m.failThreshold), all[0].online;
      var wasDown := IsOpen(before, s, Offline) || IsOpen(before, s, AuthError);
      && (IsOpen(after, s, Offline) <==>
            if down then (if wasDown then IsOpen(before, s, Offline) else !servers[i].authFailed)
            else !online && IsOpen(before, s, Offline))
      && (IsOpen(after, s, AuthError) <==>
            if down then (if wasDown then IsOpen(before, s, AuthError) else servers[i].authFailed)
            else !online && IsOpen(before, s, AuthError))
      && (IsOpen(after, s, XrayDown) <==>
            if online then all[0].xray != "" && all[0].xray != "running" else IsOpen(before, s, XrayDown))
      && (IsOpen(after, s, HighCpu) <==>
            if !online then IsOpen(before, s, HighCpu)
            else if IsOpen(before, s, HighCpu) then !Quiet(all[0], m.cpuThreshold)
            else BusyThreeTimes(all, m.cpuThreshold))
  {
    var s, before := servers[i].id, Run(run);
    var recent, after := Recent(checks, s, m), Round(before, servers, checks, m);
    RecentSays(checks, s, m);
    RunIsGood(run);
    assert GoodFor(before, s);
    assert XrayStopped(recent[0]) <==> recent[0].xray != "" && recent[0].xray != "running";
    forall k: Kind
      ensures IsOpen(before, s, k) <==> Count(before, s, k) > 0
      ensures IsOpen(after, s, k) <==> Count(Checked(before, servers[i], recent, m), s, k) > 0
    {
      OpenIff(before, s, k);
      OpenIff(after, s, k);
      RoundIsPerServer(before, servers, checks, m, i, k);
    }
    CheckedCounts(before, servers[i], recent, m, Offline);
    CheckedCounts(before, servers[i], recent, m, AuthError);
    CheckedCounts(before, servers[i], recent, m, XrayDown);
    CheckedCounts(before, servers[i], recent, m, HighCpu);
    hide IsOpen, Count, Checked, Round, Run, Recent, IsDown, CpuHigh, CpuCalm, XrayStopped;
  }

  /** An inactive server, or one without a check, keeps its incidents. */
  lemma NotChecked(run: seq<Step>, servers: seq<Server>, checks: Checks, m: Settings, i: nat, k: Kind)
    requires DistinctServers(servers) && i < |servers|
    requires !servers[i].isActive || ChecksOf(checks, servers[i].id) == []
    ensures IsOpen(Round(Run(run), servers, checks, m), servers[i].id, k) <==> IsOpen(Run(run), servers[i].id, k)
  {
    RunIsGood(run);
    RecentSays(checks, servers[i].id, m);
    RoundIsPerServer(Run(run), servers, checks, m, i, k);
    OpenIff(Run(run), servers[i].id, k);
    OpenIff(Round(Run(run), servers, checks, m), servers[i].id, k);
  }
}
