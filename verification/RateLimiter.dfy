/**
 The Gmail quota token bucket (internal/email/ratelimiter.go).

 Every goroutine works on the bucket in short lock holds: refill at the current
 time, then either take the cost of the call or give the lock back and sleep.
 An interleaving of any number of callers is therefore a sequence of such holds,
 each with the clock value it read. Time is in seconds, quota in units per minute.
 */
module TokenBucket {

  datatype Bucket = Bucket(max: real, tokens: real, lastRefill: real)

  /** One lock hold: an attempt to take `cost`, or a poll of the level. */
  datatype Event = Attempt(time: real, cost: real) | Poll(time: real)

  function NewBucket(maxQuotaPerMinute: real, now: real): Bucket {
    var max := if maxQuotaPerMinute <= 0.0 then 15000.0 else maxQuotaPerMinute;
    Bucket(max, max, now)
  }

  /** Quota that flows in between two clock values. */
  function Earned(max: real, from: real, to: real): real {
    (to - from) * max / 60.0
  }

  function Refilled(b: Bucket, now: real): Bucket {
    var level := b.tokens + Earned(b.max, b.lastRefill, now);
    b.(tokens := if level > b.max then b.max else level, lastRefill := now)
  }

  predicate Grants(b: Bucket, e: Event) {
    e.Attempt? && Refilled(b, e.time).tokens >= e.cost
  }

  function Step(b: Bucket, e: Event): Bucket {
    var r := Refilled(b, e.time);
    if Grants(b, e) then r.(tokens := r.tokens - e.cost) else r
  }

  /** The bucket after the first n lock holds of a run. */
  function After(b: Bucket, es: seq<Event>, n: nat): Bucket
    requires n <= |es|
  {
    if n == 0 then b else Step(After(b, es, n - 1), es[n - 1])
  }

  /** Clock values never go back, and the bucket was created before the first of them. */
  ghost predicate Ordered(b: Bucket, es: seq<Event>) {
    && (forall i :: 0 <= i < |es| ==> b.lastRefill <= es[i].time)
    && (forall i, j :: 0 <= i <= j < |es| ==> es[i].time <= es[j].time)
  }

  ghost predicate Fresh(b: Bucket) {
    b.max > 0.0 && b.tokens == b.max
  }

  ghost predicate GrantedAt(b: Bucket, es: seq<Event>, k: nat)
    requires k < |es|
  {
    Grants(After(b, es, k), es[k])
  }

  ghost function CostAt(b: Bucket, es: seq<Event>, k: nat): real
    requires k < |es|
  {
    if GrantedAt(b, es, k) then es[k].cost else 0.0
  }

  /** Quota handed out by the events i with lo <= i < hi. */
  ghost function Spent(b: Bucket, es: seq<Event>, lo: nat, hi: nat): real
    requires lo <= hi <= |es|
    decreases hi
  {
    if lo == hi then 0.0 else Spent(b, es, lo, hi - 1) + CostAt(b, es, hi - 1)
  }

  /** What the window that opens at event j leaves over just before event k is decided. */
  ghost function Allowance(b: Bucket, es: seq<Event>, j: nat, k: nat): real
    requires j <= k < |es|
  {
    b.max + Earned(b.max, es[j].time, es[k].time) - Spent(b, es, j, k)
  }

  lemma EarnedAdds(max: real, s: real, t: real, u: real)
    ensures Earned(max, s, t) + Earned(max, t, u) == Earned(max, s, u)
  {
    assert (t - s) * max + (u - t) * max == (u - s) * max;
  }

  lemma EarnedGrows(max: real, s: real, t: real)
    requires max >= 0.0 && s <= t
    ensures Earned(max, s, t) >= 0.0
  {
    assert (t - s) * max >= 0.0;
  }

  lemma AfterKeepsMax(b: Bucket, es: seq<Event>, n: nat)
    requires n <= |es|
    ensures After(b, es, n).max == b.max
    ensures n > 0 ==> After(b, es, n).lastRefill == es[n - 1].time
  {
    if n > 0 {
      AfterKeepsMax(b, es, n - 1);
    }
  }

  /**
   The level found by event k is exactly the smallest allowance over all windows
   that open at an earlier event or at k itself; `tight` is a window that attains it.
   */
  lemma {:induction false} LevelIsSmallestAllowance(b: Bucket, es: seq<Event>, k: nat) returns (tight: nat)
    requires Fresh(b) && Ordered(b, es) && k < |es|
    ensures tight <= k && Refilled(After(b, es, k), es[k].time).tokens == Allowance(b, es, tight, k)
    ensures forall j :: 0 <= j <= k ==>
              Refilled(After(b, es, k), es[k].time).tokens <= Allowance(b, es, j, k)
  {
    AfterKeepsMax(b, es, k);
    if k == 0 {
      EarnedGrows(b.max, b.lastRefill, es[0].time);
      tight := 0;
    } else {
      var before := LevelIsSmallestAllowance(b, es, k - 1);
      var level := After(b, es, k).tokens + Earned(b.max, es[k - 1].time, es[k].time);
      forall j | 0 <= j < k
        ensures Allowance(b, es, j, k) ==
                Allowance(b, es, j, k - 1) - CostAt(b, es, k - 1) + Earned(b.max, es[k - 1].time, es[k].time)
      {
        EarnedAdds(b.max, es[j].time, es[k - 1].time, es[k].time);
      }
      assert Allowance(b, es, k, k) == b.max;
      tight := if level > b.max then k else before;
    }
  }

  /**
   Closed form of the whole run: after event k the bucket holds the minimum over all
   windows that open at some event j <= k of max + inflow(j..k) - grants(j..k).
   */
  lemma TokensAreTightestWindow(b: Bucket, es: seq<Event>, k: nat)
    requires Fresh(b) && Ordered(b, es) && k < |es|
    ensures forall j :: 0 <= j <= k ==>
              After(b, es, k + 1).tokens <= b.max + Earned(b.max, es[j].time, es[k].time) - Spent(b, es, j, k + 1)
    ensures exists j :: 0 <= j <= k &&
              After(b, es, k + 1).tokens == b.max + Earned(b.max, es[j].time, es[k].time) - Spent(b, es, j, k + 1)
  {
    var tight := LevelIsSmallestAllowance(b, es, k);
    forall j | 0 <= j <= k
      ensures b.max + Earned(b.max, es[j].time, es[k].time) - Spent(b, es, j, k + 1)
              == Allowance(b, es, j, k) - CostAt(b, es, k)
    {
    }
    assert After(b, es, k + 1).tokens
        == b.max + Earned(b.max, es[tight].time, es[k].time) - Spent(b, es, tight, k + 1);
  }

  /** A request is granted exactly when no window ending at it would be overdrawn. */
  lemma GrantedExactlyWhenNoWindowOverdrawn(b: Bucket, es: seq<Event>, k: nat)
    requires Fresh(b) && Ordered(b, es) && k < |es| && es[k].Attempt?
    ensures GrantedAt(b, es, k) <==>
            forall j :: 0 <= j <= k ==>
              Spent(b, es, j, k) + es[k].cost <= b.max + Earned(b.max, es[j].time, es[k].time)
  {
    var tight := LevelIsSmallestAllowance(b, es, k);
    if !GrantedAt(b, es, k) {
      assert Spent(b, es, tight, k) + es[k].cost > b.max + Earned(b.max, es[tight].time, es[k].time);
    } else {
      forall j | 0 <= j <= k
        ensures Spent(b, es, j, k) + es[k].cost <= b.max + Earned(b.max, es[j].time, es[k].time)
      {
        assert Refilled(After(b, es, k), es[k].time).tokens <= Allowance(b, es, j, k);
      }
    }
  }

  /** A request that costs more than the whole bucket starves, whatever the others do. */
  lemma OversizedNeverGranted(b: Bucket, es: seq<Event>, k: nat)
    requires Fresh(b) && Ordered(b, es) && k < |es|
    requires es[k].Attempt? && es[k].cost > b.max
    ensures !GrantedAt(b, es, k)
  {
    GrantedExactlyWhenNoWindowOverdrawn(b, es, k);
    assert Spent(b, es, k, k) == 0.0;
    assert Earned(b.max, es[k].time, es[k].time) == 0.0;
  }

  // ----- the traffic the bucket admits -----

  /** Quota asked for by the attempts i with lo <= i < hi, granted or not. */
  ghost function Demand(es: seq<Event>, lo: nat, hi: nat): real
    requires lo <= hi <= |es|
    decreases hi
  {
    if lo == hi then 0.0
    else Demand(es, lo, hi - 1) + (if es[hi - 1].Attempt? then es[hi - 1].cost else 0.0)
  }

  ghost predicate AllGranted(b: Bucket, es: seq<Event>, n: nat)
    requires n <= |es|
  {
    forall i :: 0 <= i < n && es[i].Attempt? ==> GrantedAt(b, es, i)
  }

  /** The demand from event j to event k is no more than a full bucket and the inflow. */
  ghost predicate Fits(b: Bucket, es: seq<Event>, j: nat, k: nat)
    requires j <= k < |es|
  {
    Demand(es, j, k + 1) <= b.max + Earned(b.max, es[j].time, es[k].time)
  }

  ghost predicate Conforms(b: Bucket, es: seq<Event>, n: nat)
    requires n <= |es|
  {
    forall j, k {:trigger Fits(b, es, j, k)} :: 0 <= j <= k < n && es[k].Attempt? ==> Fits(b, es, j, k)
  }

  lemma ConformsOneMore(b: Bucket, es: seq<Event>, k: nat)
    requires k < |es|
    ensures Conforms(b, es, k + 1) <==>
            Conforms(b, es, k) && (es[k].Attempt? ==> forall j :: 0 <= j <= k ==> Fits(b, es, j, k))
  {
  }

  lemma {:induction false} SpentIsDemand(b: Bucket, es: seq<Event>, j: nat, k: nat)
    requires j <= k <= |es| && AllGranted(b, es, k)
    ensures Spent(b, es, j, k) == Demand(es, j, k)
    decreases k
  {
    if j < k {
      SpentIsDemand(b, es, j, k - 1);
    }
  }

  lemma LastIsGrantedIff(b: Bucket, es: seq<Event>, k: nat)
    requires Fresh(b) && Ordered(b, es) && k < |es| && es[k].Attempt? && AllGranted(b, es, k)
    ensures GrantedAt(b, es, k) <==> forall j :: 0 <= j <= k ==> Fits(b, es, j, k)
  {
    GrantedExactlyWhenNoWindowOverdrawn(b, es, k);
    forall j | 0 <= j <= k
      ensures Fits(b, es, j, k) <==>
              Spent(b, es, j, k) + es[k].cost <= b.max + Earned(b.max, es[j].time, es[k].time)
    {
      SpentIsDemand(b, es, j, k);
    }
  }

  /**
   Exact characterisation of the admitted traffic: every request is granted the first
   time it is tried if and only if no window of the demand exceeds max + inflow.
   */
  lemma {:induction false} AdmitsExactlyConformingTraffic(b: Bucket, es: seq<Event>, n: nat)
    requires Fresh(b) && Ordered(b, es) && n <= |es|
    ensures AllGranted(b, es, n) <==> Conforms(b, es, n)
  {
    if n > 0 {
      AdmitsExactlyConformingTraffic(b, es, n - 1);
      ConformsOneMore(b, es, n - 1);
      if es[n - 1].Attempt? && AllGranted(b, es, n - 1) {
        LastIsGrantedIff(b, es, n - 1);
      }
    }
  }

  // ----- bounds -----

  ghost predicate NonNegativeCosts(es: seq<Event>) {
    forall i :: 0 <= i < |es| && es[i].Attempt? ==> es[i].cost >= 0.0
  }

  /** The level never leaves [0, max] as long as nobody asks for a negative amount. */
  lemma {:induction false} LevelStaysInRange(b: Bucket, es: seq<Event>, n: nat)
    requires Fresh(b) && Ordered(b, es) && n <= |es|
    requires NonNegativeCosts(es)
    ensures 0.0 <= After(b, es, n).tokens <= b.max
  {
    if n > 0 {
      LevelStaysInRange(b, es, n - 1);
      AfterKeepsMax(b, es, n - 1);
      EarnedGrows(b.max, After(b, es, n - 1).lastRefill, es[n - 1].time);
    }
  }

  /** The lower bound needs no restriction: no request, of whatever sign, is granted more than there is. */
  lemma {:induction false} LevelIsNeverNegative(b: Bucket, es: seq<Event>, n: nat)
    requires Fresh(b) && Ordered(b, es) && n <= |es|
    ensures After(b, es, n).tokens >= 0.0
  {
    if n > 0 {
      LevelIsNeverNegative(b, es, n - 1);
      AfterKeepsMax(b, es, n - 1);
      EarnedGrows(b.max, After(b, es, n - 1).lastRefill, es[n - 1].time);
    }
  }

  /** Requests of these costs, one after the other, at these clock values. */
  function Attempts(costs: seq<real>, times: seq<real>): (es: seq<Event>)
    requires |times| == |costs|
    ensures |es| == |costs|
    ensures forall i :: 0 <= i < |es| ==> es[i] == Attempt(times[i], costs[i])
  {
    seq(|costs|, i requires 0 <= i < |costs| => Attempt(times[i], costs[i]))
  }

  ghost predicate WithinCapacity(b: Bucket, es: seq<Event>) {
    forall n :: 0 <= n <= |es| ==> After(b, es, n).tokens <= b.max
  }

  /** A minute after everything else the bucket is full, and a negative cost then goes on top. */
  lemma NegativeCostOverfills(b: Bucket, costs: seq<real>, k: nat) returns (times: seq<real>)
    requires Fresh(b) && k < |costs| && costs[k] < 0.0
    ensures |times| == |costs| && Ordered(b, Attempts(costs, times))
    ensures After(b, Attempts(costs, times), k + 1).tokens > b.max
  {
    times := seq(|costs|, i => if i < k then b.lastRefill else b.lastRefill + 60.0);
    var es := Attempts(costs, times);
    LevelIsNeverNegative(b, es, k);
    AfterKeepsMax(b, es, k);
    assert After(b, es, k).lastRefill == b.lastRefill;
    FullAfterAMinute(After(b, es, k), costs[k]);
  }

  lemma FullAfterAMinute(b: Bucket, cost: real)
    requires b.max > 0.0 && b.tokens >= 0.0 && cost < 0.0
    ensures Step(b, Attempt(b.lastRefill + 60.0, cost)).tokens == b.max - cost
  {
    var earned := Earned(b.max, b.lastRefill, b.lastRefill + 60.0);
    assert earned == 60.0 * b.max / 60.0 == b.max;
  }

  /**
   The upper bound needs the restriction: requests of given costs keep within the capacity however they are
   timed exactly when none of the costs is negative (AcquireN multiplies by an unchecked count).
   */
  lemma CapacityHoldsIffCostsNonNegative(b: Bucket, costs: seq<real>)
    requires Fresh(b)
    ensures (forall i :: 0 <= i < |costs| ==> costs[i] >= 0.0) <==>
            (forall times: seq<real> ::
               |times| == |costs| && Ordered(b, Attempts(costs, times)) ==> WithinCapacity(b, Attempts(costs, times)))
  {
    if forall i :: 0 <= i < |costs| ==> costs[i] >= 0.0 {
      forall times: seq<real> | |times| == |costs| && Ordered(b, Attempts(costs, times))
        ensures WithinCapacity(b, Attempts(costs, times))
      {
        forall n | 0 <= n <= |costs|
          ensures After(b, Attempts(costs, times), n).tokens <= b.max
        {
          LevelStaysInRange(b, Attempts(costs, times), n);
        }
      }
    } else {
      var k :| 0 <= k < |costs| && costs[k] < 0.0;
      var times := NegativeCostOverfills(b, costs, k);
      assert !WithinCapacity(b, Attempts(costs, times));
    }
  }

  /** Quota granted by the first n events at clock values in [s, t]. */
  ghost function SpentWithin(b: Bucket, es: seq<Event>, n: nat, s: real, t: real): real
    requires n <= |es|
  {
    if n == 0 then 0.0 else
      var last := if s <= es[n - 1].time <= t then CostAt(b, es, n - 1) else 0.0;
      SpentWithin(b, es, n - 1, s, t) + last
  }

  /** The events with clock values in [s, t] form one block of indices. */
  lemma {:induction false} WindowIsContiguous(b: Bucket, es: seq<Event>, n: nat, s: real, t: real) returns (lo: nat, hi: nat)
    requires Ordered(b, es) && n <= |es| && s <= t
    ensures lo <= hi <= n && SpentWithin(b, es, n, s, t) == Spent(b, es, lo, hi)
    ensures forall i :: lo <= i < hi ==> s <= es[i].time <= t
    ensures lo < hi || lo == n || es[n - 1].time > t
    ensures hi < n ==> es[n - 1].time > t
  {
    if n == 0 {
      lo, hi := 0, 0;
    } else {
      lo, hi := WindowIsContiguous(b, es, n - 1, s, t);
      if es[n - 1].time < s {
        assert lo == hi;
        lo, hi := n, n;
      } else if es[n - 1].time <= t {
        hi := n;
      }
    }
  }

  /** In any time window [s, t] callers get at most max + rate * (t - s), polls, retries and negative requests included. */
  lemma GrantsInAnyWindowBounded(b: Bucket, es: seq<Event>, s: real, t: real)
    requires Fresh(b) && Ordered(b, es) && s <= t
    ensures SpentWithin(b, es, |es|, s, t) <= b.max + Earned(b.max, s, t)
  {
    var lo, hi := WindowIsContiguous(b, es, |es|, s, t);
    EarnedGrows(b.max, s, t);
    if lo < hi {
      TokensAreTightestWindow(b, es, hi - 1);
      LevelIsNeverNegative(b, es, hi);
      EarnedAdds(b.max, s, es[lo].time, t);
      EarnedAdds(b.max, es[lo].time, es[hi - 1].time, t);
      EarnedGrows(b.max, s, es[lo].time);
      EarnedGrows(b.max, es[hi - 1].time, t);
    }
  }

  // ----- polls and failed attempts leave no trace -----

  lemma RefillTwice(b: Bucket, s: real, t: real)
    requires b.max > 0.0 && b.lastRefill <= s <= t
    ensures Refilled(Refilled(b, s), t) == Refilled(b, t)
  {
    EarnedAdds(b.max, b.lastRefill, s, t);
    EarnedGrows(b.max, s, t);
  }

  /** The run with every poll and every attempt that was not granted removed. */
  ghost function GrantsOnly(b: Bucket, es: seq<Event>, n: nat): seq<Event>
    requires n <= |es|
  {
    if n == 0 then []
    else if GrantedAt(b, es, n - 1) then GrantsOnly(b, es, n - 1) + [es[n - 1]]
    else GrantsOnly(b, es, n - 1)
  }

  lemma {:induction false} AfterPrefix(b: Bucket, es: seq<Event>, fs: seq<Event>, n: nat)
    requires n <= |es|
    ensures After(b, es + fs, n) == After(b, es, n)
  {
    if n > 0 {
      AfterPrefix(b, es, fs, n - 1);
    }
  }

  lemma OneMoreGrant(b: Bucket, gs: seq<Event>, before: Bucket, e: Event)
    requires Grants(before, e) && Refilled(After(b, gs, |gs|), e.time) == Refilled(before, e.time)
    requires forall i :: 0 <= i < |gs| ==> GrantedAt(b, gs, i)
    ensures After(b, gs + [e], |gs| + 1) == Step(before, e)
    ensures forall i :: 0 <= i <= |gs| ==> GrantedAt(b, gs + [e], i)
  {
    AfterPrefix(b, gs, [e], |gs|);
    forall i | 0 <= i < |gs|
      ensures GrantedAt(b, gs + [e], i)
    {
      assert GrantedAt(b, gs, i);
      AfterPrefix(b, gs, [e], i);
    }
  }

  /**
   Polls, and the wake-ups of waiters that must sleep again, are invisible: the run
   without them grants exactly the same requests and shows the same level from then on.
   */
  lemma {:induction false} OnlyGrantsMatter(b: Bucket, es: seq<Event>, n: nat, t: real)
    requires Fresh(b) && Ordered(b, es) && n <= |es|
    requires b.lastRefill <= t && (n > 0 ==> es[n - 1].time <= t)
    ensures var gs := GrantsOnly(b, es, n);
            && Refilled(After(b, gs, |gs|), t) == Refilled(After(b, es, n), t)
            && (forall i :: 0 <= i < |gs| ==> GrantedAt(b, gs, i))
  {
    if n > 0 {
      var e := es[n - 1];
      var before := After(b, es, n - 1);
      var gs := GrantsOnly(b, es, n - 1);
      OnlyGrantsMatter(b, es, n - 1, e.time);
      AfterKeepsMax(b, es, n - 1);
      if GrantedAt(b, es, n - 1) {
        OneMoreGrant(b, gs, before, e);
      } else {
        OnlyGrantsMatter(b, es, n - 1, t);
        RefillTwice(before, e.time, t);
      }
    }
  }

  // ----- the sleep between two attempts -----

  /** The sleep of a waiter that found too little, in whole milliseconds. */
  function WaitMillis(b: Bucket, cost: real): int
    requires b.max > 0.0
  {
    ((cost - b.tokens) / (b.max / 60.0) * 1000.0).Floor
  }

  /** Left alone, a waiter that sleeps d seconds is granted exactly when the inflow covers what was missing. */
  lemma SleeperGrantedIff(b: Bucket, cost: real, d: real)
    requires b.max > 0.0 && b.tokens < cost <= b.max && d >= 0.0
    ensures Grants(b, Attempt(b.lastRefill + d, cost)) <==> d >= (cost - b.tokens) / (b.max / 60.0)
  {
    var rate := b.max / 60.0;
    assert Earned(b.max, b.lastRefill, b.lastRefill + d) == d * rate;
    var need := (cost - b.tokens) / rate;
    assert need * rate == cost - b.tokens;
    if d >= need {
      assert d * rate >= need * rate by { MulGrows(need, d, rate); }
    } else {
      assert d * rate < need * rate by { MulGrows(d, need, rate); }
    }
  }

  lemma MulGrows(x: real, y: real, z: real)
    requires x <= y && z > 0.0
    ensures x * z <= y * z
    ensures x < y ==> x * z < y * z
  {
    assert (y - x) * z >= 0.0;
    if x < y {
      assert (y - x) * z > 0.0;
    }
  }

  /**
   The computed sleep is rounded down to a millisecond: the retry right at its end is granted
   exactly when nothing was rounded away, and one millisecond more always suffices.
   */
  lemma ComputedSleepIsTight(b: Bucket, cost: real)
    requires b.max > 0.0 && b.tokens < cost <= b.max
    ensures var w := WaitMillis(b, cost) as real;
            && w >= 0.0
            && (Grants(b, Attempt(b.lastRefill + w / 1000.0, cost))
                <==> w == (cost - b.tokens) / (b.max / 60.0) * 1000.0)
            && Grants(b, Attempt(b.lastRefill + (w + 1.0) / 1000.0, cost))
  {
    var need := (cost - b.tokens) / (b.max / 60.0);
    assert need > 0.0;
    var w := WaitMillis(b, cost) as real;
    assert w <= need * 1000.0 < w + 1.0;
    SleeperGrantedIff(b, cost, w / 1000.0);
    SleeperGrantedIff(b, cost, (w + 1.0) / 1000.0);
  }
}

/** The limiter object, whose fields every lock hold updates in place. */
module RateLimiting {
  import opened TokenBucket

  const QUOTA_COSTS: map<string, real> := map[
    "messages.list" := 5.0,
    "messages.get" := 5.0,
    "messages.modify" := 5.0,
    "messages.batchModify" := 50.0,
    "messages.trash" := 5.0,
    "messages.delete" := 10.0,
    "messages.send" := 100.0,
    "labels.list" := 1.0,
    "labels.get" := 1.0]

  function TotalCost(operation: string, count: int): real {
    (if operation in QUOTA_COSTS then QUOTA_COSTS[operation] else 5.0) * count as real
  }

  /** A call asks for a negative amount exactly when its count is negative. */
  lemma NegativeCountIffNegativeCost(operation: string, count: int)
    ensures TotalCost(operation, count) < 0.0 <==> count < 0
  {
    var cost := if operation in QUOTA_COSTS then QUOTA_COSTS[operation] else 5.0;
    assert cost >= 1.0;
    var n := count as real;
    if count < 0 {
      assert cost * n <= n;
    } else {
      assert cost * n >= 0.0;
    }
  }

  /** What happens while a waiter sleeps: the lock holds of the others, then its own wake-up. */
  datatype Round = Round(others: seq<Event>, wake: real)

  function AttemptTime(start: real, rounds: seq<Round>, used: nat): real
    requires used <= |rounds|
  {
    if used == 0 then start else rounds[used - 1].wake
  }

  /** The lock holds from the start of a call to just before its attempt after `used` sleeps. */
  ghost function Lead(cost: real, start: real, rounds: seq<Round>, used: nat): seq<Event>
    requires used <= |rounds|
    decreases used, 0
  {
    if used == 0 then [] else CallTrace(cost, start, rounds, used - 1) + rounds[used - 1].others
  }

  /** The lock holds of a call that has slept `used` times, its last attempt included. */
  ghost function CallTrace(cost: real, start: real, rounds: seq<Round>, used: nat): (es: seq<Event>)
    requires used <= |rounds|
    ensures es != []
    decreases used, 1
  {
    Lead(cost, start, rounds, used) + [Attempt(AttemptTime(start, rounds, used), cost)]
  }

  /** The attempt that a call makes after `used` sleeps gets its quota. */
  ghost predicate Served(b: Bucket, cost: real, start: real, rounds: seq<Round>, used: nat)
    requires used <= |rounds|
  {
    var es := CallTrace(cost, start, rounds, used);
    GrantedAt(b, es, |es| - 1)
  }

  lemma LastAttempt(b: Bucket, cost: real, start: real, rounds: seq<Round>, used: nat)
    requires used <= |rounds|
    ensures var lead := Lead(cost, start, rounds, used);
            var e := Attempt(AttemptTime(start, rounds, used), cost);
            var es := CallTrace(cost, start, rounds, used);
            && (Served(b, cost, start, rounds, used) <==> Grants(After(b, lead, |lead|), e))
            && After(b, es, |es|) == Step(After(b, lead, |lead|), e)
  {
    var lead := Lead(cost, start, rounds, used);
    AfterPrefix(b, lead, [Attempt(AttemptTime(start, rounds, used), cost)], |lead|);
  }

  /** A call that asks for more than the whole bucket sleeps forever, whatever the others do meanwhile. */
  lemma OversizedCallNeverServed(b: Bucket, cost: real, start: real, rounds: seq<Round>, used: nat)
    requires used <= |rounds| && Fresh(b) && cost > b.max
    requires Ordered(b, CallTrace(cost, start, rounds, used))
    ensures !Served(b, cost, start, rounds, used)
  {
    var es := CallTrace(cost, start, rounds, used);
    OversizedNeverGranted(b, es, |es| - 1);
  }

  lemma {:induction false} AfterConcat(b: Bucket, es: seq<Event>, fs: seq<Event>)
    ensures After(b, es + fs, |es| + |fs|) == After(After(b, es, |es|), fs, |fs|)
    decreases |fs|
  {
    if fs == [] {
      assert es + fs == es;
    } else {
      var init := fs[..|fs| - 1];
      assert (es + fs)[|es| + |fs| - 1] == fs[|fs| - 1];
      AfterConcat(b, es, init);
      assert es + fs == (es + init) + [fs[|fs| - 1]];
      AfterPrefix(b, es + init, [fs[|fs| - 1]], |es| + |init|);
      assert fs == init + [fs[|fs| - 1]];
      AfterPrefix(After(b, es, |es|), init, [fs[|fs| - 1]], |init|);
    }
  }

  class RateLimiter {
    var maxQuotaPerMinute: real
    var tokens: real
    var lastRefill: real

    function View(): Bucket
      reads this
    {
      Bucket(maxQuotaPerMinute, tokens, lastRefill)
    }

    constructor (maxQuotaPerMinute: real, now: real)
      ensures View() == NewBucket(maxQuotaPerMinute, now)
      ensures Fresh(View())
    {
      var max := maxQuotaPerMinute;
      if max <= 0.0 {
        max := 15000.0;
      }
      this.maxQuotaPerMinute := max;
      this.tokens := max;
      this.lastRefill := now;
    }

    method Refill(now: real)
      modifies this
      ensures View() == Refilled(old(View()), now)
    {
      var elapsed := now - lastRefill;
      tokens := tokens + elapsed * maxQuotaPerMinute / 60.0;
      if tokens > maxQuotaPerMinute {
        tokens := maxQuotaPerMinute;
      }
      lastRefill := now;
    }

    method Tokens(now: real) returns (level: real)
      modifies this
      ensures View() == Step(old(View()), Poll(now)) && level == tokens
    {
      Refill(now);
      level := tokens;
    }

    /** Any lock holds of other callers, in the order in which they get the lock. */
    method OtherCallers(others: seq<Event>)
      modifies this
      ensures View() == After(old(View()), others, |others|)
    {
      for i := 0 to |others|
        invariant View() == After(old(View()), others, i)
      {
        Refill(others[i].time);
        if others[i].Attempt? && tokens >= others[i].cost {
          tokens := tokens - others[i].cost;
        }
      }
    }

    /** AcquireN, up to the cost of the call. */
    method AcquireN(operation: string, count: int, start: real, rounds: seq<Round>)
      returns (granted: bool, used: nat)
      modifies this
      ensures used <= |rounds| && (!granted ==> used == |rounds|)
      ensures var es := CallTrace(TotalCost(operation, count), start, rounds, used);
              View() == After(old(View()), es, |es|)
      ensures granted <==> Served(old(View()), TotalCost(operation, count), start, rounds, used)
      ensures forall i :: 0 <= i < used ==>
                !Served(old(View()), TotalCost(operation, count), start, rounds, i)
    {
      var cost := 5.0;
      if operation in QUOTA_COSTS {
        cost := QUOTA_COSTS[operation];
      }
      var totalCost := cost * count as real;
      assert totalCost == TotalCost(operation, count);
      granted, used := Wait(totalCost, start, rounds);
    }

    /**
     The wait loop of AcquireN. `rounds` is what happens during its sleeps; when the call is
     still waiting after all of them, `granted` is false and `used` is their number.
     */
    method Wait(totalCost: real, start: real, rounds: seq<Round>) returns (granted: bool, used: nat)
      modifies this
      ensures used <= |rounds| && (!granted ==> used == |rounds|)
      ensures var es := CallTrace(totalCost, start, rounds, used);
              View() == After(old(View()), es, |es|)
      ensures granted <==> Served(old(View()), totalCost, start, rounds, used)
      ensures forall i :: 0 <= i < used ==> !Served(old(View()), totalCost, start, rounds, i)
    {
      ghost var before := View();
      used := 0;
      Refill(start);
      while tokens < totalCost && used < |rounds|
        invariant used <= |rounds|
        invariant var lead := Lead(totalCost, start, rounds, used);
                  View() == Refilled(After(before, lead, |lead|), AttemptTime(start, rounds, used))
        invariant forall i :: 0 <= i < used ==> !Served(before, totalCost, start, rounds, i)
        decreases |rounds| - used
      {
        LastAttempt(before, totalCost, start, rounds, used);
        AfterConcat(before, CallTrace(totalCost, start, rounds, used), rounds[used].others);
        OtherCallers(rounds[used].others);
        Refill(rounds[used].wake);
        used := used + 1;
      }
      LastAttempt(before, totalCost, start, rounds, used);
      granted := tokens >= totalCost;
      if granted {
        tokens := tokens - totalCost;
      }
    }
  }
}

/** How many calls of each operation get their quota at one instant. */
module Bursts {
  import opened TokenBucket
  import opened RateLimiting

  const FIVES := {"messages.list", "messages.get", "messages.modify", "messages.trash"}
  const ONES := {"labels.list", "labels.get"}

  predicate CallsFit(k: int, cost: real, full: real) {
    k as real * cost <= full
  }

  /** The k-th call, counted from 1, is served exactly when k calls of this cost fit a full bucket. */
  predicate ServedUpTo(served: seq<bool>, cost: real, full: real) {
    forall i :: 0 <= i < |served| ==> (served[i] <==> CallsFit(i + 1, cost, full))
  }

  /** The first n calls are served and no others. */
  predicate ServedFirst(served: seq<bool>, n: nat) {
    forall i :: 0 <= i < |served| ==> (served[i] <==> i < n)
  }

  lemma CallsFitIff(k: nat, n: nat, cost: real)
    requires cost > 0.0
    ensures CallsFit(k, cost, n as real * cost) <==> k <= n
  {
    var more := n as real - k as real;
    assert more * cost == n as real * cost - k as real * cost;
    if k > n {
      assert -more * cost > 0.0;
    } else {
      assert more * cost >= 0.0;
    }
  }

  lemma FullIsEnough(served: seq<bool>, cost: real, n: nat)
    requires cost > 0.0 && ServedUpTo(served, cost, n as real * cost)
    ensures ServedFirst(served, n)
  {
    forall i | 0 <= i < |served|
      ensures served[i] <==> i < n
    {
      CallsFitIff(i + 1, n, cost);
    }
  }

  lemma OneMoreServed(served: seq<bool>, cost: real, full: real, granted: bool)
    requires ServedUpTo(served, cost, full) && (granted <==> CallsFit(|served| + 1, cost, full))
    ensures ServedUpTo(served + [granted], cost, full)
  {
  }

  lemma OneAttempt(b: Bucket, cost: real, now: real)
    requires b.lastRefill == now && b.tokens <= b.max
    ensures Served(b, cost, now, [], 0) <==> b.tokens >= cost
    ensures var es := CallTrace(cost, now, [], 0);
            After(b, es, |es|) == if b.tokens >= cost then b.(tokens := b.tokens - cost) else b
  {
    LastAttempt(b, cost, now, [], 0);
    assert Earned(b.max, now, now) == 0.0;
  }

  /** The level after k calls. */
  ghost predicate LevelAfter(b: Bucket, cost: real, k: nat, full: real) {
    && b.max == full && 0.0 <= b.tokens <= full
    && (if CallsFit(k, cost, full) then b.tokens == full - k as real * cost else b.tokens < cost)
  }

  lemma OneMoreCall(b: Bucket, cost: real, k: nat, full: real)
    requires LevelAfter(b, cost, k, full) && cost > 0.0
    ensures b.tokens >= cost <==> CallsFit(k + 1, cost, full)
    ensures LevelAfter(if b.tokens >= cost then b.(tokens := b.tokens - cost) else b, cost, k + 1, full)
  {
    assert (k + 1) as real * cost == k as real * cost + cost;
  }

  lemma Costs(operation: string, count: int)
    ensures operation in FIVES ==> TotalCost(operation, count) == count as real * 5.0
    ensures operation == "messages.batchModify" ==> TotalCost(operation, count) == count as real * 50.0
    ensures operation == "messages.delete" ==> TotalCost(operation, count) == count as real * 10.0
    ensures operation == "messages.send" ==> TotalCost(operation, count) == count as real * 100.0
    ensures operation in ONES ==> TotalCost(operation, count) == count as real
    ensures operation !in FIVES + ONES + {"messages.batchModify", "messages.delete", "messages.send"} ==>
              TotalCost(operation, count) == count as real * 5.0
  {
  }

  /** One call for any number of operations is served at once exactly when all of them fit the bucket together. */
  method Bulk(operation: string, count: int, maxQuotaPerMinute: real, now: real) returns (granted: bool)
    ensures var full := if maxQuotaPerMinute <= 0.0 then 15000.0 else maxQuotaPerMinute;
            && (operation in FIVES ==> (granted <==> CallsFit(count, 5.0, full)))
            && (operation == "messages.batchModify" ==> (granted <==> CallsFit(count, 50.0, full)))
            && (operation == "messages.delete" ==> (granted <==> CallsFit(count, 10.0, full)))
            && (operation == "messages.send" ==> (granted <==> CallsFit(count, 100.0, full)))
            && (operation in ONES ==> (granted <==> CallsFit(count, 1.0, full)))
            && (operation !in FIVES + ONES + {"messages.batchModify", "messages.delete", "messages.send"} ==>
                  (granted <==> CallsFit(count, 5.0, full)))
  {
    var limiter := new RateLimiter(maxQuotaPerMinute, now);
    Costs(operation, count);
    OneAttempt(limiter.View(), TotalCost(operation, count), now);
    var used;
    granted, used := limiter.AcquireN(operation, count, now, []);
  }

  /** Single calls of an operation, all at the instant at which the limiter is created. */
  method Burst(operation: string, n: nat, maxQuotaPerMinute: real, now: real) returns (served: seq<bool>)
    ensures |served| == n
    ensures var full := if maxQuotaPerMinute <= 0.0 then 15000.0 else maxQuotaPerMinute;
            && (operation in FIVES ==> ServedUpTo(served, 5.0, full))
            && (operation == "messages.batchModify" ==> ServedUpTo(served, 50.0, full))
            && (operation == "messages.delete" ==> ServedUpTo(served, 10.0, full))
            && (operation == "messages.send" ==> ServedUpTo(served, 100.0, full))
            && (operation in ONES ==> ServedUpTo(served, 1.0, full))
            && (operation !in FIVES + ONES + {"messages.batchModify", "messages.delete", "messages.send"} ==>
                  ServedUpTo(served, 5.0, full))
  {
    ghost var full, cost := NewBucket(maxQuotaPerMinute, now).max, TotalCost(operation, 1);
    Costs(operation, 1);
    var limiter := new RateLimiter(maxQuotaPerMinute, now);
    served := [];
    for k := 0 to n
      invariant |served| == k && ServedUpTo(served, cost, full)
      invariant LevelAfter(limiter.View(), cost, k, full) && limiter.View().lastRefill == now
    {
      OneAttempt(limiter.View(), cost, now);
      OneMoreCall(limiter.View(), cost, k, full);
      var granted, used := limiter.AcquireN(operation, 1, now, []);
      OneMoreServed(served, cost, full, granted);
      served := served + [granted];
    }
  }

  /** With the default maximum: 3000, 300, 1500, 150 and 15000 calls. */
  method DefaultBurst(operation: string, n: nat, now: real) returns (served: seq<bool>)
    ensures |served| == n
    ensures operation in FIVES ==> ServedFirst(served, 3000)
    ensures operation == "messages.batchModify" ==> ServedFirst(served, 300)
    ensures operation == "messages.delete" ==> ServedFirst(served, 1500)
    ensures operation == "messages.send" ==> ServedFirst(served, 150)
    ensures operation in ONES ==> ServedFirst(served, 15000)
    ensures operation !in FIVES + ONES + {"messages.batchModify", "messages.delete", "messages.send"} ==>
              ServedFirst(served, 3000)
  {
    served := Burst(operation, n, 0.0, now);
    if operation == "messages.batchModify" {
      FullIsEnough(served, 50.0, 300);
    } else if operation == "messages.delete" {
      FullIsEnough(served, 10.0, 1500);
    } else if operation == "messages.send" {
      FullIsEnough(served, 100.0, 150);
    } else if operation in ONES {
      FullIsEnough(served, 1.0, 15000);
    } else {
      FullIsEnough(served, 5.0, 3000);
    }
  }
}

/** Calls that fit the bucket and are never served all the same, because others take the inflow during their sleeps. */
module Starvation {
  import opened TokenBucket
  import opened RateLimiting

  /** A call of the cheapest operation, as often as the level allows at this time. */
  function Unit(b: Bucket, t: real): Event {
    Attempt(t, TotalCost("labels.list", Refilled(b, t).tokens.Floor))
  }

  /** A call of labels.list. */
  ghost predicate IsUnit(e: Event) {
    e.Attempt? && exists n: nat :: e.cost == TotalCost("labels.list", n)
  }

  /** Less is left than any call asks for. */
  predicate Drained(b: Bucket) {
    b.max > 0.0 && 0.0 <= b.tokens < 1.0
  }

  lemma UnitDrains(b: Bucket, t: real)
    requires b.max > 0.0 && b.tokens >= 0.0 && b.lastRefill <= t
    ensures IsUnit(Unit(b, t)) && Drained(Step(b, Unit(b, t)))
    ensures Step(b, Unit(b, t)).lastRefill == t && Step(b, Unit(b, t)).max == b.max
  {
    EarnedGrows(b.max, b.lastRefill, t);
    var level := Refilled(b, t).tokens;
    assert level >= 0.0;
    var n: nat := level.Floor;
    UnitCost(n);
    assert Unit(b, t) == Attempt(t, n as real);
  }

  lemma UnitCost(n: nat)
    ensures TotalCost("labels.list", n) == n as real
  {
  }

  lemma DrainedRefuses(b: Bucket, cost: real)
    requires Drained(b) && cost >= 1.0
    ensures !Grants(b, Attempt(b.lastRefill, cost)) && Step(b, Attempt(b.lastRefill, cost)).tokens <= b.tokens
    ensures Drained(Step(b, Attempt(b.lastRefill, cost)))
  {
    assert Earned(b.max, b.lastRefill, b.lastRefill) == 0.0;
  }

  function TimeBefore(start: real, wakes: seq<real>, i: nat): real
    requires i <= |wakes|
  {
    if i == 0 then start else wakes[i - 1]
  }

  predicate Rising(start: real, wakes: seq<real>) {
    forall i :: 0 <= i < |wakes| ==> TimeBefore(start, wakes, i) <= wakes[i]
  }

  lemma RisingPrefix(start: real, wakes: seq<real>, n: nat)
    requires Rising(start, wakes) && n <= |wakes|
    ensures Rising(start, wakes[..n])
  {
    forall i | 0 <= i < n
      ensures TimeBefore(start, wakes[..n], i) <= wakes[..n][i]
    {
      assert TimeBefore(start, wakes, i) <= wakes[i];
    }
  }

  /** Just before each attempt of a call with these wake-ups somebody else takes what there is. */
  ghost function Crowd(b: Bucket, cost: real, start: real, wakes: seq<real>): (rounds: seq<Round>)
    ensures |rounds| == |wakes| && forall i :: 0 <= i < |wakes| ==> rounds[i].wake == wakes[i]
  {
    if wakes == [] then [] else
      var n := |wakes| - 1;
      var before := Crowd(b, cost, start, wakes[..n]);
      var trace := CallTrace(cost, start, before, n);
      before + [Round([Unit(After(b, trace, |trace|), wakes[n])], wakes[n])]
  }

  lemma {:induction false} TraceOfPrefix(cost: real, start: real, rounds: seq<Round>, more: Round, used: nat)
    requires used <= |rounds|
    ensures CallTrace(cost, start, rounds + [more], used) == CallTrace(cost, start, rounds, used)
  {
    if used > 0 {
      TraceOfPrefix(cost, start, rounds, more, used - 1);
    }
  }

  /** The state after the last attempt, and that it fails. */
  ghost predicate Waits(b: Bucket, cost: real, start: real, rounds: seq<Round>, used: nat)
    requires used <= |rounds|
  {
    var trace := CallTrace(cost, start, rounds, used);
    var after := After(b, trace, |trace|);
    && Drained(after) && after.max == b.max && after.lastRefill == AttemptTime(start, rounds, used)
    && !Served(b, cost, start, rounds, used)
  }

  lemma FirstWaits(b: Bucket, cost: real, start: real, rounds: seq<Round>)
    requires Drained(b) && cost >= 1.0 && b.lastRefill == start
    ensures Waits(b, cost, start, rounds, 0)
  {
    LastAttempt(b, cost, start, rounds, 0);
    DrainedRefuses(b, cost);
  }

  lemma NextWaits(b: Bucket, cost: real, start: real, rounds: seq<Round>, wake: real, round: Round)
    requires cost >= 1.0 && Waits(b, cost, start, rounds, |rounds|) && AttemptTime(start, rounds, |rounds|) <= wake
    requires var trace := CallTrace(cost, start, rounds, |rounds|);
             round == Round([Unit(After(b, trace, |trace|), wake)], wake)
    ensures Waits(b, cost, start, rounds + [round], |rounds| + 1) && IsUnit(round.others[0])
  {
    var all, n := rounds + [round], |rounds|;
    var trace := CallTrace(cost, start, rounds, n);
    var s := After(b, trace, |trace|);
    TraceOfPrefix(cost, start, rounds, round, n);
    var lead := Lead(cost, start, all, n + 1);
    assert lead == trace + round.others;
    AfterPrefix(b, trace, round.others, |trace|);
    UnitDrains(s, wake);
    assert After(b, lead, |lead|) == Step(s, Unit(s, wake));
    LastAttempt(b, cost, start, all, n + 1);
    DrainedRefuses(Step(s, Unit(s, wake)), cost);
  }

  /** Each round is one other call, at the time of the wake-up. */
  ghost predicate Crowded(rounds: seq<Round>) {
    forall i :: 0 <= i < |rounds| ==>
      |rounds[i].others| == 1 && rounds[i].others[0].time == rounds[i].wake && IsUnit(rounds[i].others[0])
  }

  ghost predicate AllWait(b: Bucket, cost: real, start: real, rounds: seq<Round>) {
    forall i :: 0 <= i <= |rounds| ==> Waits(b, cost, start, rounds, i)
  }

  lemma StillWaits(b: Bucket, cost: real, start: real, rounds: seq<Round>, more: Round)
    requires AllWait(b, cost, start, rounds)
    ensures forall i :: 0 <= i <= |rounds| ==> Waits(b, cost, start, rounds + [more], i)
  {
    forall i | 0 <= i <= |rounds|
      ensures Waits(b, cost, start, rounds + [more], i)
    {
      assert Waits(b, cost, start, rounds, i);
      TraceOfPrefix(cost, start, rounds, more, i);
    }
  }

  lemma CrowdGrows(b: Bucket, cost: real, start: real, rounds: seq<Round>, wake: real, round: Round)
    requires cost >= 1.0 && AllWait(b, cost, start, rounds) && AttemptTime(start, rounds, |rounds|) <= wake
    requires var trace := CallTrace(cost, start, rounds, |rounds|);
             round == Round([Unit(After(b, trace, |trace|), wake)], wake)
    requires Crowded(rounds)
    ensures AllWait(b, cost, start, rounds + [round]) && Crowded(rounds + [round])
  {
    assert Waits(b, cost, start, rounds, |rounds|);
    NextWaits(b, cost, start, rounds, wake, round);
    StillWaits(b, cost, start, rounds, round);
  }

  lemma {:induction false} CrowdStarves(b: Bucket, cost: real, start: real, wakes: seq<real>)
    requires Drained(b) && cost >= 1.0 && b.lastRefill == start && Rising(start, wakes)
    ensures AllWait(b, cost, start, Crowd(b, cost, start, wakes)) && Crowded(Crowd(b, cost, start, wakes))
    decreases |wakes|
  {
    if wakes == [] {
      FirstWaits(b, cost, start, []);
    } else {
      var n := |wakes| - 1;
      var before := Crowd(b, cost, start, wakes[..n]);
      RisingPrefix(start, wakes, n);
      CrowdStarves(b, cost, start, wakes[..n]);
      assert TimeBefore(start, wakes, n) <= wakes[n];
      var trace := CallTrace(cost, start, before, n);
      CrowdGrows(b, cost, start, before, wakes[n], Round([Unit(After(b, trace, |trace|), wakes[n])], wakes[n]));
    }
  }

  predicate WakesAt(rounds: seq<Round>, wakes: seq<real>) {
    |rounds| == |wakes| && forall i :: 0 <= i < |wakes| ==> rounds[i].wake == wakes[i]
  }

  predicate InOrder(es: seq<Event>, from: real, to: real) {
    && (forall i :: 0 <= i < |es| ==> from <= es[i].time <= to)
    && (forall i, j :: 0 <= i <= j < |es| ==> es[i].time <= es[j].time)
  }

  lemma InOrderAdds(es: seq<Event>, e: Event, from: real, to: real)
    requires InOrder(es, from, to) && to <= e.time && from <= to
    ensures InOrder(es + [e], from, e.time)
  {
  }

  lemma {:induction false} TraceInOrder(cost: real, start: real, rounds: seq<Round>, wakes: seq<real>, used: nat)
    requires Crowded(rounds) && WakesAt(rounds, wakes) && Rising(start, wakes) && used <= |rounds|
    ensures start <= AttemptTime(start, rounds, used)
    ensures InOrder(CallTrace(cost, start, rounds, used), start, AttemptTime(start, rounds, used))
  {
    if used > 0 {
      var before, wake := AttemptTime(start, rounds, used - 1), rounds[used - 1].wake;
      TraceInOrder(cost, start, rounds, wakes, used - 1);
      assert TimeBefore(start, wakes, used - 1) <= wakes[used - 1];
      var trace, other := CallTrace(cost, start, rounds, used - 1), rounds[used - 1].others[0];
      assert rounds[used - 1].others == [other];
      InOrderAdds(trace, other, start, before);
      InOrderAdds(trace + [other], Attempt(wake, cost), start, wake);
    }
  }

  /** After `first` a call that starts and wakes up at these times is not served at any of them. */
  ghost predicate Starves(b: Bucket, first: seq<Event>, cost: real, start: real, rounds: seq<Round>) {
    && Ordered(b, first + CallTrace(cost, start, rounds, |rounds|))
    && (forall i :: 0 <= i < |first| ==> IsUnit(first[i])) && Crowded(rounds)
    && (forall i :: 0 <= i <= |rounds| ==> !Served(After(b, first, |first|), cost, start, rounds, i))
  }

  /** Whenever it starts and however often and long it sleeps, others with calls of labels.list can keep it waiting. */
  ghost predicate CanStarve(b: Bucket, cost: real) {
    forall start, wakes {:trigger Rising(start, wakes)} :: b.lastRefill <= start && Rising(start, wakes) ==>
      exists first, rounds :: WakesAt(rounds, wakes) && Starves(b, first, cost, start, rounds)
  }

  lemma CrowdKeepsWaiting(b: Bucket, cost: real, start: real, wakes: seq<real>) returns (first: seq<Event>, rounds: seq<Round>)
    requires Fresh(b) && cost >= 1.0 && b.lastRefill <= start && Rising(start, wakes)
    ensures WakesAt(rounds, wakes) && Starves(b, first, cost, start, rounds)
  {
    first := [Unit(b, start)];
    UnitDrains(b, start);
    var s := After(b, first, 1);
    assert After(b, first, 0) == b;
    assert s == Step(b, first[0]);
    rounds := Crowd(s, cost, start, wakes);
    CrowdStarves(s, cost, start, wakes);
    forall i | 0 <= i <= |rounds|
      ensures !Served(s, cost, start, rounds, i)
    {
      assert Waits(s, cost, start, rounds, i);
    }
    TraceInOrder(cost, start, rounds, wakes, |rounds|);
  }

  lemma {:induction false} TraceStarts(cost: real, start: real, rounds: seq<Round>, used: nat)
    requires used <= |rounds|
    ensures CallTrace(cost, start, rounds, used)[0] == Attempt(start, cost)
  {
    if used > 0 {
      TraceStarts(cost, start, rounds, used - 1);
    }
  }

  lemma OrderedParts(b: Bucket, first: seq<Event>, trace: seq<Event>)
    requires Ordered(b, first + trace) && trace != []
    ensures Ordered(b, first) && b.lastRefill <= trace[0].time
    ensures first != [] ==> first[|first| - 1].time <= trace[0].time
  {
    var all := first + trace;
    assert all[|first|] == trace[0];
    assert forall i :: 0 <= i < |first| ==> all[i] == first[i];
  }

  /** A call that asks for nothing is served at once, whatever came before it. */
  lemma NothingIsServed(b: Bucket, first: seq<Event>, cost: real, start: real, rounds: seq<Round>)
    requires Fresh(b) && cost <= 0.0 && Ordered(b, first + CallTrace(cost, start, rounds, |rounds|))
    ensures Served(After(b, first, |first|), cost, start, rounds, 0)
  {
    TraceStarts(cost, start, rounds, |rounds|);
    OrderedParts(b, first, CallTrace(cost, start, rounds, |rounds|));
    LevelIsNeverNegative(b, first, |first|);
    AfterKeepsMax(b, first, |first|);
    LateIsServed(After(b, first, |first|), cost, start, rounds);
  }

  lemma LateIsServed(b: Bucket, cost: real, start: real, rounds: seq<Round>)
    requires b.max > 0.0 && b.tokens >= 0.0 && b.lastRefill <= start && cost <= 0.0
    ensures Served(b, cost, start, rounds, 0)
  {
    LastAttempt(b, cost, start, rounds, 0);
    EarnedGrows(b.max, b.lastRefill, start);
  }

  lemma CostOfCount(operation: string, count: int)
    ensures count > 0 ==> TotalCost(operation, count) >= 1.0
    ensures count <= 0 ==> TotalCost(operation, count) <= 0.0
  {
    var cost := if operation in QUOTA_COSTS then QUOTA_COSTS[operation] else 5.0;
    assert cost >= 1.0;
    var n := count as real;
    if count > 0 {
      assert n >= 1.0 && cost * n >= n;
    } else {
      assert cost * n <= 0.0;
    }
  }

  /** So a call may wait forever exactly when it asks for anything at all. */
  lemma StarvesIff(b: Bucket, operation: string, count: int)
    requires Fresh(b)
    ensures CanStarve(b, TotalCost(operation, count)) <==> count > 0
  {
    var cost := TotalCost(operation, count);
    CostOfCount(operation, count);
    if count > 0 {
      forall start, wakes | b.lastRefill <= start && Rising(start, wakes)
        ensures exists first, rounds :: WakesAt(rounds, wakes) && Starves(b, first, cost, start, rounds)
      {
        var first, rounds := CrowdKeepsWaiting(b, cost, start, wakes);
      }
    } else if CanStarve(b, cost) {
      assert Rising(b.lastRefill, []);
      var first, rounds :| WakesAt(rounds, []) && Starves(b, first, cost, b.lastRefill, rounds);
      NothingIsServed(b, first, cost, b.lastRefill, rounds);
      assert false;
    }
  }
}
