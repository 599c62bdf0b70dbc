/** The storefront's request limiter: a bucket per action and key, swept only when there are many. */
module RateLimit {
  import opened Results

  datatype Limit = Limit(max: nat, windowMs: nat)

  datatype Bucket = Bucket(count: nat, resetAt: int)

  const SWEEP_ABOVE := 10000

  function LimitOf(action: string): (l: Limit)
    ensures l.max >= 1 && l.windowMs >= 1
  {
    match action
    case "customerLookup" => Limit(12, 60000)
    case "customerLogin" => Limit(10, 60000)
    case "checkout" => Limit(8, 60000)
    case "renewal" => Limit(8, 60000)
    case "tracking" => Limit(30, 60000)
    case "claim-service" => Limit(10, 60000)
    case "telegramSession" => Limit(20, 60000)
    case "telegramWebhook" => Limit(240, 60000)
    case _ => Limit(30, 60000)
  }

  function IdOf(action: string, key: string): string {
    action + ":" + key
  }

  /** Actions without a colon never share a bucket. */
  lemma IdsDiffer(action: string, key: string, action2: string, key2: string)
    requires ':' !in action && ':' !in action2
    ensures IdOf(action, key) == IdOf(action2, key2) <==> action == action2 && key == key2
  {
    var a, b := IdOf(action, key), IdOf(action2, key2);
    if a == b {
      assert a[|action|] == ':' && b[|action2|] == ':';
      if |action| < |action2| {
        assert false;
      } else if |action2| < |action| {
        assert false;
      } else {
        assert action == a[..|action|] && key == a[|action| + 1..];
        assert action2 == b[..|action2|] && key2 == b[|action2| + 1..];
      }
    }
  }

  type Buckets = map<string, Bucket>

  function Swept(b: Buckets, now: int): Buckets {
    map id | id in b && b[id].resetAt > now :: b[id]
  }

  /** One bucket's answer to one call. */
  function Hit(bucket: Option<Bucket>, limit: Limit, now: int): (Bucket, bool) {
    if bucket.None? || bucket.value.resetAt <= now then (Bucket(1, now + limit.windowMs), true)
    else (bucket.value.(count := bucket.value.count + 1), bucket.value.count + 1 <= limit.max)
  }

  function Find(b: Buckets, id: string): Option<Bucket> {
    if id in b then Some(b[id]) else None
  }

  datatype Call = Call(action: string, key: string, at: int)

  function CallId(c: Call): string { IdOf(c.action, c.key) }

  /** The limiter without sweeping. */
  function Simple(b: Buckets, c: Call): (Buckets, bool) {
    var (bucket, ok) := Hit(Find(b, CallId(c)), LimitOf(c.action), c.at);
    (b[CallId(c) := bucket], ok)
  }

  /** The limiter as it is: a new bucket past the threshold sweeps the expired ones. */
  function Checked(b: Buckets, c: Call): (Buckets, bool) {
    var (next, ok) := Simple(b, c);
    if (Find(b, CallId(c)).None? || b[CallId(c)].resetAt <= c.at) && |next| > SWEEP_ABOVE
    then (Swept(next, c.at), ok) else (next, ok)
  }

  // ---------- the service ----------

  class StoreRateLimit {
    var buckets: Buckets

    constructor ()
      ensures buckets == map[]
    {
      buckets := map[];
    }

    /** `ok` is false where the service throws. */
    method Check(action: string, key: string, now: int) returns (ok: bool)
      modifies this
      ensures (buckets, ok) == Checked(old(buckets), Call(action, key, now))
    {
      var limit := LimitOf(action);
      var id := IdOf(action, key);
      if id !in buckets || buckets[id].resetAt <= now {
        buckets := buckets[id := Bucket(1, now + limit.windowMs)];
        if |buckets| > SWEEP_ABOVE {
          Cleanup(now);
        }
        return true;
      }
      var bucket := buckets[id];
      var count := bucket.count + 1;
      buckets := buckets[id := bucket.(count := count)];
      ok := count <= limit.max;
    }

    method Cleanup(now: int)
      modifies this
      ensures buckets == Swept(old(buckets), now)
    {
      var left := buckets.Keys;
      while left != {}
        invariant left <= old(buckets).Keys
        invariant buckets
          == map id | id in old(buckets) && (id in left || old(buckets)[id].resetAt > now) :: old(buckets)[id]
        decreases |left|
      {
        var id :| id in left;
        left := left - {id};
        if buckets[id].resetAt <= now {
          buckets := buckets - {id};
        }
      }
    }
  }

  // ---------- sweeping changes no answer ----------

  /** Both hold the same buckets among those that are not yet over. */
  ghost predicate SameLive(a: Buckets, b: Buckets, now: int) {
    forall id :: (id in a && a[id].resetAt > now) || (id in b && b[id].resetAt > now) ==>
      id in a && id in b && a[id] == b[id]
  }

  lemma SameAnswer(fast: Buckets, simple: Buckets, c: Call, now: int)
    requires SameLive(fast, simple, now) && now <= c.at
    ensures Checked(fast, c).1 == Simple(simple, c).1 && SameLive(Checked(fast, c).0, Simple(simple, c).0, c.at)
  {
    var id := CallId(c);
    assert SameLive(fast, simple, c.at);
    var next := Simple(fast, c).0;
    assert SameLive(next, Simple(simple, c).0, c.at);
    assert SameLive(Swept(next, c.at), Simple(simple, c).0, c.at);
  }

  ghost predicate InOrder(calls: seq<Call>) {
    forall i, j :: 0 <= i < j < |calls| ==> calls[i].at <= calls[j].at
  }

  function RunChecked(calls: seq<Call>): (Buckets, seq<bool>) {
    if calls == [] then (map[], [])
    else
      var (b, answers) := RunChecked(calls[..|calls| - 1]);
      var (next, ok) := Checked(b, calls[|calls| - 1]);
      (next, answers + [ok])
  }

  function RunSimple(calls: seq<Call>): (r: (Buckets, seq<bool>))
    ensures |r.1| == |calls|
  {
    if calls == [] then (map[], [])
    else
      var (b, answers) := RunSimple(calls[..|calls| - 1]);
      var (next, ok) := Simple(b, calls[|calls| - 1]);
      (next, answers + [ok])
  }

  /** With a clock that does not run backwards, the sweeping limiter answers every call like the simple one. */
  lemma {:induction false} SweepingIsInvisible(calls: seq<Call>)
    requires InOrder(calls)
    ensures RunChecked(calls).1 == RunSimple(calls).1
    ensures calls != [] ==> SameLive(RunChecked(calls).0, RunSimple(calls).0, calls[|calls| - 1].at)
  {
    if calls != [] {
      var front, c := calls[..|calls| - 1], calls[|calls| - 1];
      SweepingIsInvisible(front);
      var now := if front == [] then c.at else front[|front| - 1].at;
      hide Checked, Simple;
      SameAnswer(RunChecked(front).0, RunSimple(front).0, c, now);
    }
  }

  // ---------- one bucket over time ----------

  /** The bucket after calls at the given times. */
  function BucketAfter(limit: Limit, times: seq<int>): Option<Bucket> {
    if times == [] then None
    else Some(Hit(BucketAfter(limit, times[..|times| - 1]), limit, times[|times| - 1]).0)
  }

  predicate LastAdmitted(limit: Limit, times: seq<int>)
    requires times != []
  {
    Hit(BucketAfter(limit, times[..|times| - 1]), limit, times[|times| - 1]).1
  }

  /** Admitted calls between two instants, both included. */
  function Admitted(limit: Limit, times: seq<int>, lo: int, hi: int): nat {
    if times == [] then 0
    else
      var at := times[|times| - 1];
      Admitted(limit, times[..|times| - 1], lo, hi) + (if lo <= at <= hi && LastAdmitted(limit, times) then 1 else 0)
  }

  function AdmittedSince(limit: Limit, times: seq<int>, lo: int): nat {
    if times == [] then 0
    else
      var at := times[|times| - 1];
      AdmittedSince(limit, times[..|times| - 1], lo) + (if lo <= at && LastAdmitted(limit, times) then 1 else 0)
  }

  ghost predicate Ascending(times: seq<int>) {
    forall i, j :: 0 <= i < j < |times| ==> times[i] <= times[j]
  }

  function Used(limit: Limit, b: Bucket): nat {
    if b.count < limit.max then b.count else limit.max
  }

  /** What is known of the admitted calls, by where counting starts relative to the bucket. */
  ghost predicate Bounded(limit: Limit, times: seq<int>, b: Bucket) {
    var start := b.resetAt - limit.windowMs;
    && b.count >= 1
    && (forall lo :: lo >= b.resetAt ==> AdmittedSince(limit, times, lo) == 0)
    && (forall lo :: lo >= start ==> AdmittedSince(limit, times, lo) <= Used(limit, b))
    && (forall lo :: lo > start ==> AdmittedSince(limit, times, lo) <= Used(limit, b) - 1)
    && (forall lo :: lo >= start - limit.windowMs ==> AdmittedSince(limit, times, lo) <= Used(limit, b) + limit.max)
    && (forall lo :: lo > start - limit.windowMs ==> AdmittedSince(limit, times, lo) <= Used(limit, b) + limit.max - 1)
  }

  lemma {:induction false} NoneLater(limit: Limit, times: seq<int>, lo: int)
    requires forall i :: 0 <= i < |times| ==> times[i] < lo
    ensures AdmittedSince(limit, times, lo) == 0
  {
    if times != [] {
      NoneLater(limit, times[..|times| - 1], lo);
    }
  }

  lemma {:induction false} BucketBounds(limit: Limit, times: seq<int>)
    requires limit.max >= 1 && limit.windowMs >= 1 && times != [] && Ascending(times)
    ensures var b := BucketAfter(limit, times).value;
      Bounded(limit, times, b) && b.resetAt - limit.windowMs <= times[|times| - 1] < b.resetAt
  {
    var front, at := times[..|times| - 1], times[|times| - 1];
    var b := BucketAfter(limit, times).value;
    if front != [] {
      BucketBounds(limit, front);
      assert front[|front| - 1] <= at;
    }
    forall lo ensures AdmittedSince(limit, times, lo)
      == AdmittedSince(limit, front, lo) + if lo <= at && LastAdmitted(limit, times) then 1 else 0
    {
    }
    hide AdmittedSince;
    forall lo | front == [] || lo > front[|front| - 1] ensures AdmittedSince(limit, front, lo) == 0 {
      NoneLater(limit, front, lo);
    }
  }

  lemma {:induction false} SinceIsMore(limit: Limit, times: seq<int>, lo: int, hi: int)
    ensures Admitted(limit, times, lo, hi) <= AdmittedSince(limit, times, lo)
  {
    if times != [] {
      SinceIsMore(limit, times[..|times| - 1], lo, hi);
    }
  }

  /**
   A span that starts no earlier than the bucket in force at its end admits at most the maximum,
   however long it is; `later` are the calls after the span.
   */
  lemma {:induction false} SpanInBucket(limit: Limit, times: seq<int>, later: seq<int>, lo: int, hi: int)
    requires limit.max >= 1 && limit.windowMs >= 1 && times != [] && Ascending(times)
    requires times[|times| - 1] <= hi && forall i :: 0 <= i < |later| ==> hi < later[i]
    requires BucketAfter(limit, times).value.resetAt - limit.windowMs <= lo
    ensures Admitted(limit, times + later, lo, hi) <= limit.max
  {
    if later == [] {
      assert times + later == times;
      SinceIsMore(limit, times, lo, hi);
      BucketBounds(limit, times);
    } else {
      var all := times + later;
      assert all[..|all| - 1] == times + later[..|later| - 1];
      SpanInBucket(limit, times, later[..|later| - 1], lo, hi);
    }
  }

  /** Any span of one window's length, ends included, admits at most twice the maximum. */
  lemma {:induction false} WindowBound(limit: Limit, times: seq<int>, lo: int)
    requires limit.max >= 1 && limit.windowMs >= 1 && Ascending(times)
    ensures Admitted(limit, times, lo, lo + limit.windowMs) <= 2 * limit.max
  {
    if times != [] {
      var at := times[|times| - 1];
      if lo <= at <= lo + limit.windowMs {
        SinceIsMore(limit, times, lo, lo + limit.windowMs);
        BucketBounds(limit, times);
      } else {
        WindowBound(limit, times[..|times| - 1], lo);
      }
    }
  }

  // ---------- a burst over the edge of a window ----------

  function Repeat(at: int, n: nat): (r: seq<int>)
    ensures |r| == n && forall i :: 0 <= i < n ==> r[i] == at
  {
    seq(n, _ => at)
  }

  /** n calls at one instant fill the bucket that is open. */
  lemma {:induction false} Fill(limit: Limit, times: seq<int>, at: int, n: nat, lo: int, hi: int)
    requires BucketAfter(limit, times).Some? && BucketAfter(limit, times).value.resetAt > at && lo <= at <= hi
    requires BucketAfter(limit, times).value.count + n <= limit.max
    ensures var b := BucketAfter(limit, times).value;
      BucketAfter(limit, times + Repeat(at, n)) == Some(Bucket(b.count + n, b.resetAt))
    ensures Admitted(limit, times + Repeat(at, n), lo, hi) == Admitted(limit, times, lo, hi) + n
  {
    if n == 0 {
      assert times + Repeat(at, 0) == times;
    } else {
      Fill(limit, times, at, n - 1, lo, hi);
      hide BucketAfter, Admitted;
      OneMore(limit, times + Repeat(at, n - 1), at, lo, hi);
      assert times + Repeat(at, n) == times + Repeat(at, n - 1) + [at];
    }
  }

  lemma OneMore(limit: Limit, times: seq<int>, at: int, lo: int, hi: int)
    requires BucketAfter(limit, times).Some? && BucketAfter(limit, times).value.resetAt > at && lo <= at <= hi
    requires BucketAfter(limit, times).value.count + 1 <= limit.max
    ensures var b := BucketAfter(limit, times).value;
      BucketAfter(limit, times + [at]) == Some(Bucket(b.count + 1, b.resetAt))
    ensures Admitted(limit, times + [at], lo, hi) == Admitted(limit, times, lo, hi) + 1
  {
    NextTime(limit, times, at, lo, hi);
    hide BucketAfter, Admitted;
  }

  lemma NextTime(limit: Limit, times: seq<int>, at: int, lo: int, hi: int)
    ensures BucketAfter(limit, times + [at]) == Some(Hit(BucketAfter(limit, times), limit, at).0)
    ensures Admitted(limit, times + [at], lo, hi)
      == Admitted(limit, times, lo, hi) + if lo <= at <= hi && Hit(BucketAfter(limit, times), limit, at).1 then 1 else 0
  {
    assert (times + [at])[..|times|] == times;
  }

  /** A bucket opened at 0 and filled in its last millisecond. */
  function LateCalls(limit: Limit): seq<int>
    requires limit.max >= 1
  {
    [0] + Repeat(limit.windowMs - 1, limit.max - 1)
  }

  lemma LateHalf(limit: Limit, lo: int, hi: int)
    requires limit.max >= 1 && limit.windowMs >= 1 && lo <= limit.windowMs - 1 <= hi
    ensures BucketAfter(limit, LateCalls(limit)) == Some(Bucket(limit.max, limit.windowMs))
    ensures Admitted(limit, LateCalls(limit), lo, hi) >= limit.max - 1
  {
    var none: seq<int> := [];
    NextTime(limit, none, 0, lo, hi);
    assert none + [0] == [0] && BucketAfter(limit, none) == None;
    hide BucketAfter, Admitted;
    Fill(limit, [0], limit.windowMs - 1, limit.max - 1, lo, hi);
  }

  /** The next bucket, opened and filled at the edge. */
  lemma EdgeHalf(limit: Limit, times: seq<int>, at: int, lo: int, hi: int)
    requires limit.max >= 1 && limit.windowMs >= 1 && lo <= at <= hi
    requires BucketAfter(limit, times).Some? && BucketAfter(limit, times).value.resetAt <= at
    ensures Admitted(limit, times + [at] + Repeat(at, limit.max - 1), lo, hi)
      == Admitted(limit, times, lo, hi) + limit.max
  {
    NextTime(limit, times, at, lo, hi);
    hide BucketAfter, Admitted;
    Fill(limit, times + [at], at, limit.max - 1, lo, hi);
  }

  /** Within one millisecond across the edge 2*max - 1 calls are admitted: the window does not slide. */
  lemma EdgeBurst(limit: Limit) returns (times: seq<int>)
    requires limit.max >= 1 && limit.windowMs >= 1
    ensures Ascending(times)
    ensures Admitted(limit, times, limit.windowMs - 1, limit.windowMs) >= 2 * limit.max - 1
  {
    var w := limit.windowMs;
    LateHalf(limit, w - 1, w);
    EdgeHalf(limit, LateCalls(limit), w, w - 1, w);
    times := LateCalls(limit) + [w] + Repeat(w, limit.max - 1);
    hide BucketAfter, Admitted;
  }

  // ---------- when the window slides ----------

  /** A span of windowMs milliseconds admits at most 2*max - 1, and no more than max when it is a single one. */
  lemma {:induction false} SlidingBound(limit: Limit, times: seq<int>, lo: int)
    requires limit.max >= 1 && limit.windowMs >= 1 && Ascending(times)
    ensures Admitted(limit, times, lo, lo + limit.windowMs - 1)
      <= if limit.windowMs == 1 then limit.max else 2 * limit.max - 1
  {
    if times != [] {
      var at, hi := times[|times| - 1], lo + limit.windowMs - 1;
      if lo <= at <= hi {
        SinceIsMore(limit, times, lo, hi);
        BucketBounds(limit, times);
      } else {
        SlidingBound(limit, times[..|times| - 1], lo);
      }
    }
  }

  lemma {:induction false} WiderAdmitsMore(limit: Limit, times: seq<int>, lo: int, hi: int, wider: int)
    requires hi <= wider
    ensures Admitted(limit, times, lo, hi) <= Admitted(limit, times, lo, wider)
  {
    if times != [] {
      WiderAdmitsMore(limit, times[..|times| - 1], lo, hi, wider);
    }
  }

  /** Admitted calls of the windowMs milliseconds from lo on. */
  function InSpan(limit: Limit, times: seq<int>, lo: int): nat {
    Admitted(limit, times, lo, lo + limit.windowMs - 1)
  }

  /** Every span of windowMs milliseconds of every run admits at most the bound. */
  ghost predicate SpansAdmit(limit: Limit, bound: int) {
    forall times, lo :: Ascending(times) ==> InSpan(limit, times, lo) <= bound
  }

  /** Exactly how many calls a span of windowMs milliseconds can admit. */
  lemma WorstSpan(limit: Limit, bound: int)
    requires limit.max >= 1 && limit.windowMs >= 1
    ensures SpansAdmit(limit, bound) <==> bound >= if limit.windowMs == 1 then limit.max else 2 * limit.max - 1
  {
    var w := limit.windowMs;
    if bound >= if w == 1 then limit.max else 2 * limit.max - 1 {
      forall times, lo | Ascending(times) ensures InSpan(limit, times, lo) <= bound {
        SlidingBound(limit, times, lo);
      }
    } else if w == 1 {
      var times := FullInstant(limit);
      assert InSpan(limit, times, 0) > bound;
    } else {
      var times := EdgeBurst(limit);
      WiderAdmitsMore(limit, times, w - 1, w, w - 1 + w - 1);
      assert InSpan(limit, times, w - 1) > bound;
    }
  }

  lemma FullInstant(limit: Limit) returns (times: seq<int>)
    requires limit.max >= 1 && limit.windowMs >= 1
    ensures Ascending(times) && Admitted(limit, times, 0, 0) >= limit.max
  {
    var none: seq<int> := [];
    NextTime(limit, none, 0, 0, 0);
    assert none + [0] == [0] && BucketAfter(limit, none) == None;
    times := [0] + Repeat(0, limit.max - 1);
    hide BucketAfter, Admitted;
    Fill(limit, [0], 0, limit.max - 1, 0, 0);
  }

  /** The window slides, in that no span of its length admits more than the maximum, only where it is trivial. */
  lemma SlidesIff(limit: Limit)
    requires limit.max >= 1 && limit.windowMs >= 1
    ensures SpansAdmit(limit, limit.max) <==> limit.max == 1 || limit.windowMs == 1
  {
    WorstSpan(limit, limit.max);
  }

  /** So it slides for no action of the service. */
  lemma NoActionSlides(action: string)
    ensures !SpansAdmit(LimitOf(action), LimitOf(action).max)
  {
    SlidesIff(LimitOf(action));
  }

  // ---------- from one bucket to the whole limiter ----------

  function TimesOf(calls: seq<Call>, id: string): seq<int> {
    if calls == [] then []
    else
      var c := calls[|calls| - 1];
      TimesOf(calls[..|calls| - 1], id) + (if CallId(c) == id then [c.at] else [])
  }

  /** Admitted calls of one id in a run of the limiter, between two instants. */
  function AdmittedCalls(calls: seq<Call>, answers: seq<bool>, id: string, lo: int, hi: int): nat
    requires |answers| == |calls|
  {
    if calls == [] then 0
    else
      var n := |calls| - 1;
      AdmittedCalls(calls[..n], answers[..n], id, lo, hi)
      + (if CallId(calls[n]) == id && answers[n] && lo <= calls[n].at <= hi then 1 else 0)
  }

  /** All calls of an id are of one action. */
  ghost predicate OneAction(calls: seq<Call>, id: string, action: string) {
    forall i :: 0 <= i < |calls| && CallId(calls[i]) == id ==> calls[i].action == action
  }

  lemma SimpleTouchesOne(b: Buckets, c: Call, id: string)
    ensures var (bucket, ok) := Hit(Find(b, CallId(c)), LimitOf(c.action), c.at);
      Simple(b, c).1 == ok && Find(Simple(b, c).0, id) == if CallId(c) == id then Some(bucket) else Find(b, id)
  {
  }

  lemma LastAnswer(calls: seq<Call>)
    requires calls != []
    ensures var n := |calls| - 1;
      && RunSimple(calls).0 == Simple(RunSimple(calls[..n]).0, calls[n]).0
      && RunSimple(calls).1[..n] == RunSimple(calls[..n]).1
      && RunSimple(calls).1[n] == Simple(RunSimple(calls[..n]).0, calls[n]).1
  {
  }

  lemma {:induction false} RunIsPerBucket(calls: seq<Call>, id: string, action: string, lo: int, hi: int)
    requires OneAction(calls, id, action)
    ensures Find(RunSimple(calls).0, id) == BucketAfter(LimitOf(action), TimesOf(calls, id))
    ensures AdmittedCalls(calls, RunSimple(calls).1, id, lo, hi)
      == Admitted(LimitOf(action), TimesOf(calls, id), lo, hi)
  {
    if calls != [] {
      var n := |calls| - 1;
      var c := calls[n];
      assert OneAction(calls[..n], id, action) && (CallId(c) == id ==> c.action == action);
      RunIsPerBucket(calls[..n], id, action, lo, hi);
      var times := TimesOf(calls[..n], id);
      assert TimesOf(calls, id) == times + (if CallId(c) == id then [c.at] else []);
      assert times + [] == times;
      LastAnswer(calls);
      SimpleTouchesOne(RunSimple(calls[..n]).0, c, id);
      NextTime(LimitOf(action), times, c.at, lo, hi);
      hide Hit, LimitOf, CallId, Simple, RunSimple, BucketAfter, Admitted, TimesOf, OneAction, Find;
    }
  }

  lemma {:induction false} TimesAscend(calls: seq<Call>, id: string)
    requires InOrder(calls)
    ensures Ascending(TimesOf(calls, id))
    ensures forall t :: t in TimesOf(calls, id) ==> calls != [] && t <= calls[|calls| - 1].at
  {
    if calls != [] {
      var n := |calls| - 1;
      var times := TimesOf(calls[..n], id);
      TimesAscend(calls[..n], id);
      forall i | 0 <= i < |times| ensures times[i] <= calls[n].at {
        assert times[i] in times;
      }
      hide CallId;
    }
  }

  lemma ColonFreeIsOneAction(calls: seq<Call>, action: string, key: string)
    requires ':' !in action && forall i :: 0 <= i < |calls| ==> ':' !in calls[i].action
    ensures OneAction(calls, IdOf(action, key), action)
  {
    forall i | 0 <= i < |calls| && CallId(calls[i]) == IdOf(action, key) ensures calls[i].action == action {
      IdsDiffer(calls[i].action, calls[i].key, action, key);
    }
  }

  lemma WindowPerBucket(calls: seq<Call>, id: string, action: string, lo: int)
    requires InOrder(calls) && OneAction(calls, id, action)
    ensures |RunChecked(calls).1| == |calls|
    ensures AdmittedCalls(calls, RunChecked(calls).1, id, lo, lo + LimitOf(action).windowMs) <= 2 * LimitOf(action).max
  {
    SweepingIsInvisible(calls);
    RunIsPerBucket(calls, id, action, lo, lo + LimitOf(action).windowMs);
    TimesAscend(calls, id);
    WindowBound(LimitOf(action), TimesOf(calls, id), lo);
  }

  /**
   In any run with a forward clock, whatever the keys, one action and key is admitted at most
   2*max times in any span of its window. No action in its table of limits has a colon.
   */
  lemma AtMostTwiceMax(calls: seq<Call>, action: string, key: string, lo: int)
    requires InOrder(calls) && ':' !in action && forall i :: 0 <= i < |calls| ==> ':' !in calls[i].action
    ensures |RunChecked(calls).1| == |calls|
    ensures AdmittedCalls(calls, RunChecked(calls).1, IdOf(action, key), lo, lo + LimitOf(action).windowMs)
      <= 2 * LimitOf(action).max
  {
    ColonFreeIsOneAction(calls, action, key);
    WindowPerBucket(calls, IdOf(action, key), action, lo);
  }

  // ---------- the table of limits and the table of buckets ----------

  lemma Limits(action: string)
    ensures LimitOf(action).windowMs == 60000
    ensures LimitOf(action).max ==
      if action == "telegramWebhook" then 240
      else if action == "telegramSession" then 20
      else if action == "customerLookup" then 12
      else if action in ["customerLogin", "claim-service"] then 10
      else if action in ["checkout", "renewal"] then 8 else 30
  {
  }

  /**
   A call leaves every other bucket as it is, or, when it opens a bucket as the 10001st or later, keeps of the
   others exactly those that are not over.
   */
  lemma BucketsAfter(b: Buckets, c: Call, id: string)
    requires id != c.action + ":" + c.key
    ensures var next, own := Checked(b, c).0, c.action + ":" + c.key;
      var opens := own !in b || b[own].resetAt <= c.at;
      var many := |b| + (if own in b then 0 else 1) > 10000;
      && (id in next <==> id in b && (opens && many ==> b[id].resetAt > c.at))
      && (id in next ==> next[id] == b[id])
  {
    var own := c.action + ":" + c.key;
    assert CallId(c) == own;
    var (bucket, ok) := Hit(Find(b, own), LimitOf(c.action), c.at);
    Grown(b, own, bucket);
    hide LimitOf, Hit;
  }

  lemma Grown(b: Buckets, own: string, bucket: Bucket)
    ensures |b[own := bucket]| == |b| + (if own in b then 0 else 1)
  {
    assert b[own := bucket].Keys == b.Keys + {own};
  }

  /** The called bucket: one call more while it is open, up to the limit, else a new one for a whole window. */
  lemma BucketOfCall(b: Buckets, c: Call)
    ensures var (next, ok), own := Checked(b, c), c.action + ":" + c.key;
      var open := own in b && b[own].resetAt > c.at;
      && own in next && (open ==> next[own] == Bucket(b[own].count + 1, b[own].resetAt))
      && (!open ==> next[own] == Bucket(1, c.at + LimitOf(c.action).windowMs))
      && (ok <==> !open || b[own].count < LimitOf(c.action).max)
  {
    assert LimitOf(c.action).windowMs >= 1;
    hide LimitOf;
  }
}
