/** The in-process token bucket that bounds run creation per key. Tokens and times are exact reals. */
module RateLimiter {
  import opened Wrappers

  datatype Bucket = Bucket(tokens: real, updatedAt: real)

  type Buckets = map<string, Bucket>

  /** Capacity and refill after the constructor's clamping. */
  datatype Limits = Limits(capacity: nat, refill: real)

  predicate Valid(l: Limits) {
    l.refill >= 0.0
  }

  function MinReal(a: real, b: real): real { if a <= b then a else b }
  function MaxReal(a: real, b: real): real { if a >= b then a else b }

  function Replenish(l: Limits, b: Bucket, now: real): Bucket {
    Bucket(MinReal(l.capacity as real, b.tokens + MaxReal(0.0, now - b.updatedAt) * l.refill), now)
  }

  /** The table and the answer after one `allow` call. */
  function AllowStep(l: Limits, table: Buckets, key: string, now: real): (Buckets, bool) {
    if l.capacity == 0 then (table, true)
    else if key !in table then (table[key := Bucket((l.capacity - 1) as real, now)], true)
    else
      var b := Replenish(l, table[key], now);
      if b.tokens >= 1.0 then (table[key := b.(tokens := b.tokens - 1.0)], true)
      else (table[key := b], false)
  }

  /** The seconds until a whole token, as the code rounds them. */
  function Wait(l: Limits, b: Bucket): int
    requires l.refill > 0.0
  {
    var seconds := ((1.0 - b.tokens) / l.refill + 0.999).Floor;
    if seconds >= 1 then seconds else 1
  }

  /** The table and the answer after one `retry_after_seconds` call. */
  function RetryStep(l: Limits, table: Buckets, key: string, now: real): (Buckets, int) {
    if l.capacity == 0 || l.refill <= 0.0 then (table, 1)
    else if key !in table then (table, 0)
    else
      var b := Replenish(l, table[key], now);
      (table[key := b], if b.tokens >= 1.0 then 0 else Wait(l, b))
  }

  class TokenBucketRateLimiter {
    const limits: Limits
    var buckets: Buckets

    constructor (capacity: int, refillPerSecond: real)
      ensures Valid(limits) && buckets == map[]
      ensures limits.capacity == (if capacity > 0 then capacity else 0)
      ensures limits.refill == MaxReal(0.0, refillPerSecond)
    {
      limits := Limits(if capacity > 0 then capacity else 0, MaxReal(0.0, refillPerSecond));
      buckets := map[];
    }

    method Refresh(key: string, now: real)
      requires key in buckets
      modifies this
      ensures buckets == old(buckets)[key := Replenish(limits, old(buckets)[key], now)]
    {
      var bucket := buckets[key];
      var elapsed := MaxReal(0.0, now - bucket.updatedAt);
      var tokens := MinReal(limits.capacity as real, bucket.tokens + elapsed * limits.refill);
      assert Bucket(tokens, now) == Replenish(limits, bucket, now);
      buckets := buckets[key := Bucket(tokens, now)];
    }

    method Allow(key: string, now: real) returns (ok: bool)
      modifies this
      ensures limits.capacity == 0 ==> ok && buckets == old(buckets)
      ensures limits.capacity > 0 && key !in old(buckets) ==>
                ok && buckets == old(buckets)[key := Bucket((limits.capacity - 1) as real, now)]
      ensures limits.capacity > 0 && key in old(buckets) ==>
                var before := old(buckets)[key];
                var climbed := if now > before.updatedAt then now - before.updatedAt else 0.0;
                var earned := before.tokens + climbed * limits.refill;
                var available := if earned < limits.capacity as real then earned else limits.capacity as real;
                && (ok <==> available >= 1.0)
                && buckets == old(buckets)[key := Bucket(if ok then available - 1.0 else available, now)]
      ensures (buckets, ok) == AllowStep(limits, old(buckets), key, now)
    {
      if limits.capacity <= 0 {
        return true;
      }
      ghost var before := buckets;
      if key !in buckets {
        buckets := buckets[key := Bucket((limits.capacity - 1) as real, now)];
        return true;
      }
      Refresh(key, now);
      if buckets[key].tokens >= 1.0 {
        buckets := buckets[key := buckets[key].(tokens := buckets[key].tokens - 1.0)];
        assert buckets == before[key := buckets[key]];
        return true;
      }
      return false;
    }

    method RetryAfterSeconds(key: string, now: real) returns (seconds: int)
      modifies this
      ensures limits.capacity == 0 || limits.refill <= 0.0 ==> seconds == 1 && buckets == old(buckets)
      ensures limits.capacity > 0 && limits.refill > 0.0 && key !in old(buckets) ==> seconds == 0
      ensures (buckets, seconds) == RetryStep(limits, old(buckets), key, now)
    {
      if limits.capacity <= 0 || limits.refill <= 0.0 {
        return 1;
      }
      if key !in buckets {
        return 0;
      }
      Refresh(key, now);
      if buckets[key].tokens >= 1.0 {
        return 0;
      }
      seconds := ((1.0 - buckets[key].tokens) / limits.refill + 0.999).Floor;
      if seconds < 1 {
        seconds := 1;
      }
    }
  }

  // ---------------------------------------------------------------- runs of calls

  datatype Call = Allow(key: string, now: real) | RetryAfter(key: string, now: real)

  function After(l: Limits, table: Buckets, call: Call): Buckets {
    match call
    case Allow(key, now) => AllowStep(l, table, key, now).0
    case RetryAfter(key, now) => RetryStep(l, table, key, now).0
  }

  function Run(l: Limits, table: Buckets, calls: seq<Call>): Buckets
    decreases |calls|
  {
    if calls == [] then table else Run(l, After(l, table, calls[0]), calls[1..])
  }

  /** How many of the calls are requests of the key that are permitted. */
  function Permitted(l: Limits, table: Buckets, calls: seq<Call>, key: string): nat
    decreases |calls|
  {
    if calls == [] then 0
    else
      var call := calls[0];
      (if call.Allow? && call.key == key && AllowStep(l, table, key, call.now).1 then 1 else 0)
      + Permitted(l, After(l, table, call), calls[1..], key)
  }

  /** Readings in the order in which the calls take the lock. */
  ghost predicate Nondecreasing(start: real, calls: seq<Call>) {
    && (forall i | 0 <= i < |calls| :: start <= calls[i].now)
    && (forall i, j | 0 <= i < j < |calls| :: calls[i].now <= calls[j].now)
  }

  /** No bucket holds more than the capacity or was updated later than `now`. */
  ghost predicate Sound(l: Limits, table: Buckets, now: real) {
    forall k | k in table :: 0.0 <= table[k].tokens <= l.capacity as real && table[k].updatedAt <= now
  }

  /** What a key could spend at `now`. */
  function Available(l: Limits, table: Buckets, key: string, now: real): real {
    if key in table then Replenish(l, table[key], now).tokens else l.capacity as real
  }

  lemma Accrues(refill: real, earlier: real, later: real)
    requires refill >= 0.0 && earlier <= later
    ensures earlier * refill <= later * refill
    ensures 0.0 <= (later - earlier) * refill
  {
    assert (later - earlier) * refill >= 0.0;
    assert (later - earlier) * refill == later * refill - earlier * refill;
  }

  /** Every bucket holds between nothing and the capacity, whenever it was updated. */
  ghost predicate Filled(l: Limits, table: Buckets) {
    forall k | k in table :: 0.0 <= table[k].tokens <= l.capacity as real
  }

  /** How far the clock moved forward from reading to reading; steps backward count nothing. */
  function Climb(start: real, calls: seq<Call>): real
    decreases |calls|
  {
    if calls == [] then 0.0 else MaxReal(0.0, calls[0].now - start) + Climb(calls[0].now, calls[1..])
  }

  lemma StepKeepsFilled(l: Limits, table: Buckets, call: Call)
    requires Valid(l) && l.capacity > 0 && Filled(l, table)
    ensures Filled(l, After(l, table, call))
  {
    if call.key in table {
      ReplenishFills(l, table[call.key], call.now);
    }
  }

  lemma ReplenishFills(l: Limits, b: Bucket, now: real)
    requires Valid(l) && 0.0 <= b.tokens <= l.capacity as real
    ensures b.tokens <= Replenish(l, b, now).tokens <= l.capacity as real
  {
    Accrues(l.refill, 0.0, MaxReal(0.0, now - b.updatedAt));
  }

  lemma LaterIsMore(l: Limits, b: Bucket, now: real, later: real)
    requires Valid(l) && 0.0 <= b.tokens <= l.capacity as real
    ensures Replenish(l, b, later).tokens <= Replenish(l, b, now).tokens + MaxReal(0.0, later - now) * l.refill
  {
    var early, late, step := MaxReal(0.0, now - b.updatedAt), MaxReal(0.0, later - b.updatedAt), MaxReal(0.0, later - now);
    Accrues(l.refill, late, early + step);
    Accrues(l.refill, 0.0, step);
    SumTimes(early, step, l.refill);
  }

  lemma SumTimes(a: real, b: real, refill: real)
    ensures (a + b) * refill == a * refill + b * refill
  {
  }

  lemma AvailableClimbs(l: Limits, table: Buckets, key: string, now: real, later: real)
    requires Valid(l) && Filled(l, table)
    ensures Available(l, table, key, later) <= Available(l, table, key, now) + Gain(l, now, later)
    ensures Available(l, table, key, now) >= 0.0
  {
    Accrues(l.refill, 0.0, MaxReal(0.0, later - now));
    if key in table {
      LaterIsMore(l, table[key], now, later);
      ReplenishFills(l, table[key], now);
    }
  }

  lemma AvailableAfter(l: Limits, table: Buckets, call: Call, key: string)
    requires Valid(l) && l.capacity > 0 && Filled(l, table)
    ensures Available(l, After(l, table, call), key, call.now)
         == Available(l, table, key, call.now)
            - if call.Allow? && call.key == key && AllowStep(l, table, key, call.now).1 then 1.0 else 0.0
  {
    if call.key == key && key in table {
      ReplenishFills(l, table[key], call.now);
    }
  }

  /** What the refill adds while the clock climbs. */
  function Earned(l: Limits, start: real, calls: seq<Call>): real
    decreases |calls|
  {
    if calls == [] then 0.0 else Gain(l, start, calls[0].now) + Earned(l, calls[0].now, calls[1..])
  }

  function Gain(l: Limits, now: real, later: real): real {
    if later <= now then 0.0 else (later - now) * l.refill
  }

  lemma {:induction false} EarnedByClimbing(l: Limits, start: real, calls: seq<Call>)
    ensures Earned(l, start, calls) == Climb(start, calls) * l.refill
    decreases |calls|
  {
    if calls != [] {
      EarnedByClimbing(l, calls[0].now, calls[1..]);
      SumTimes(MaxReal(0.0, calls[0].now - start), Climb(calls[0].now, calls[1..]), l.refill);
    }
  }

  /** The potential argument, for readings in any order: what is permitted was available or the clock climbed for it. */
  lemma {:induction false} PermittedIsEarned(l: Limits, table: Buckets, calls: seq<Call>, key: string, start: real)
    requires Valid(l) && l.capacity > 0 && Filled(l, table)
    ensures Permitted(l, table, calls, key) as real <= Available(l, table, key, start) + Earned(l, start, calls)
    decreases |calls|
  {
    if calls == [] {
      AvailableClimbs(l, table, key, start, start);
    } else {
      var call := calls[0];
      StepKeepsFilled(l, table, call);
      PermittedIsEarned(l, After(l, table, call), calls[1..], key, call.now);
      AvailableClimbs(l, table, key, start, call.now);
      AvailableAfter(l, table, call, key);
    }
  }

  lemma PermittedIsClimbedFor(l: Limits, table: Buckets, calls: seq<Call>, key: string, start: real)
    requires Valid(l) && l.capacity > 0 && Filled(l, table)
    ensures Permitted(l, table, calls, key) as real <= Available(l, table, key, start) + Climb(start, calls) * l.refill
  {
    PermittedIsEarned(l, table, calls, key, start);
    EarnedByClimbing(l, start, calls);
  }

  /** A clock that never runs backward climbs no further than the window is long. */
  lemma {:induction false} ClimbIsSpan(start: real, calls: seq<Call>, end: real)
    requires Nondecreasing(start, calls) && start <= end && forall i | 0 <= i < |calls| :: calls[i].now <= end
    ensures Climb(start, calls) <= end - start
    decreases |calls|
  {
    if calls != [] { ClimbIsSpan(calls[0].now, calls[1..], end); }
  }

  lemma EarnedInSpan(l: Limits, start: real, calls: seq<Call>, end: real)
    requires Valid(l) && Nondecreasing(start, calls) && start <= end && forall i | 0 <= i < |calls| :: calls[i].now <= end
    ensures Earned(l, start, calls) <= (end - start) * l.refill
  {
    ClimbIsSpan(start, calls, end);
    EarnedByClimbing(l, start, calls);
    Accrues(l.refill, Climb(start, calls), end - start);
  }

  /** With nondecreasing readings, what is permitted was available at the start or accrued since. */
  lemma PermittedIsPaidFor(l: Limits, table: Buckets, calls: seq<Call>, key: string, start: real, end: real)
    requires Valid(l) && l.capacity > 0 && Filled(l, table) && Nondecreasing(start, calls)
    requires start <= end && forall i | 0 <= i < |calls| :: calls[i].now <= end
    ensures Permitted(l, table, calls, key) as real <= Available(l, table, key, start) + (end - start) * l.refill
  {
    PermittedIsEarned(l, table, calls, key, start);
    EarnedInSpan(l, start, calls, end);
  }

  lemma {:induction false} RunKeepsFilled(l: Limits, table: Buckets, calls: seq<Call>)
    requires Valid(l) && l.capacity > 0 && Filled(l, table)
    ensures Filled(l, Run(l, table, calls))
    decreases |calls|
  {
    if calls != [] {
      StepKeepsFilled(l, table, calls[0]);
      RunKeepsFilled(l, After(l, table, calls[0]), calls[1..]);
    }
  }

  lemma WindowEarns(l: Limits, before: seq<Call>, window: seq<Call>, key: string, opens: real)
    requires Valid(l) && l.capacity > 0
    ensures Permitted(l, Run(l, map[], before), window, key) as real <= l.capacity as real + Earned(l, opens, window)
  {
    var table := Run(l, map[], before);
    RunKeepsFilled(l, map[], before);
    PermittedIsEarned(l, table, window, key, opens);
    if key in table { ReplenishFills(l, table[key], opens); }
  }

  /**
    Whatever happened before, and in whatever order the window's readings come, the requests permitted
    for a key number at most the capacity plus what is refilled while the clock climbs.
  */
  lemma ClimbBound(l: Limits, before: seq<Call>, window: seq<Call>, key: string, opens: real)
    requires Valid(l) && l.capacity > 0
    ensures Permitted(l, Run(l, map[], before), window, key) as real <= l.capacity as real + Climb(opens, window) * l.refill
  {
    WindowEarns(l, before, window, key, opens);
    EarnedByClimbing(l, opens, window);
  }

  /** In every window with nondecreasing readings: at most the capacity plus what is refilled in the window. */
  lemma WindowBound(l: Limits, before: seq<Call>, window: seq<Call>, key: string, opens: real, closes: real)
    requires Valid(l) && l.capacity > 0
    requires Nondecreasing(opens, window) && opens <= closes && (forall i | 0 <= i < |window| :: window[i].now <= closes)
    ensures Permitted(l, Run(l, map[], before), window, key) as real <= l.capacity as real + (closes - opens) * l.refill
  {
    WindowEarns(l, before, window, key, opens);
    EarnedInSpan(l, opens, window, closes);
  }

  // ---------------------------------------------------------------- a clock that runs backward

  /** A reading of `hi`, and then n times a reading of `lo` followed by one of `hi`. */
  function Swings(key: string, lo: real, hi: real, n: nat): seq<Call> {
    if n == 0 then [Allow(key, hi)] else [Allow(key, hi), Allow(key, lo)] + Swings(key, lo, hi, n - 1)
  }

  lemma {:induction false} SwingsPermit(l: Limits, table: Buckets, key: string, lo: real, hi: real, n: nat)
    requires l.capacity == 1 && l.refill >= 0.0 && lo < hi && (hi - lo) * l.refill >= 1.0
    requires key !in table || table[key] == Bucket(0.0, lo)
    decreases n
    ensures Permitted(l, table, Swings(key, lo, hi, n), key) == n + 1
    ensures forall i | 0 <= i < |Swings(key, lo, hi, n)| :: lo <= Swings(key, lo, hi, n)[i].now <= hi
  {
    var calls := Swings(key, lo, hi, n);
    var high := After(l, table, calls[0]);
    assert AllowStep(l, table, key, hi).1 && high[key] == Bucket(0.0, hi);
    if n == 0 {
      assert calls[1..] == [];
    } else {
      var low := After(l, high, calls[1]);
      StillEmpty(l, high, key, lo, hi);
      assert calls[1..][0] == Allow(key, lo) && calls[1..][1..] == Swings(key, lo, hi, n - 1);
      SwingsPermit(l, low, key, lo, hi, n - 1);
    }
  }

  lemma StillEmpty(l: Limits, table: Buckets, key: string, lo: real, hi: real)
    requires l.capacity == 1 && lo < hi && key in table && table[key] == Bucket(0.0, hi)
    ensures AllowStep(l, table, key, lo) == (table[key := Bucket(0.0, lo)], false)
  {
  }

  /**
    A clock read before the lock is taken may run backward. Whenever a full bucket fits between two
    readings, a window that goes on swinging between them has no bound: n swings permit n + 1 requests,
    which exceeds the window's bound exactly when n exceeds its refill. The climb pays for each of them.
  */
  lemma BackwardClockBreaksBound(l: Limits, key: string, lo: real, hi: real, n: nat)
    requires l.capacity == 1 && l.refill >= 0.0 && lo < hi && (hi - lo) * l.refill >= 1.0
    ensures var window := Swings(key, lo, hi, n);
      && (forall i | 0 <= i < |window| :: lo <= window[i].now <= hi)
      && Permitted(l, map[], window, key) == n + 1
      && (Permitted(l, map[], window, key) as real > l.capacity as real + (hi - lo) * l.refill
          <==> n as real > (hi - lo) * l.refill)
      && Climb(hi, window) == n as real * (hi - lo)
  {
    SwingsPermit(l, map[], key, lo, hi, n);
    SwingsClimb(key, lo, hi, n);
  }

  lemma {:induction false} SwingsClimb(key: string, lo: real, hi: real, n: nat)
    requires lo < hi
    ensures Climb(hi, Swings(key, lo, hi, n)) == n as real * (hi - lo)
    ensures Climb(lo, Swings(key, lo, hi, n)) == n as real * (hi - lo) + (hi - lo)
  {
    var calls := Swings(key, lo, hi, n);
    if n == 0 {
      assert calls[1..] == [];
    } else {
      var rest := Swings(key, lo, hi, n - 1);
      assert calls[1..][0] == Allow(key, lo) && calls[1..][1..] == rest;
      SwingsClimb(key, lo, hi, n - 1);
      assert Climb(hi, calls[1..]) == Climb(lo, rest);
      assert Climb(hi, calls) == Climb(lo, rest) && Climb(lo, calls) == Climb(lo, rest) + (hi - lo);
      OneMoreSwing(n - 1, n, hi - lo);
    }
  }

  lemma OneMoreSwing(swings: nat, n: nat, span: real)
    requires n == swings + 1
    ensures swings as real * span + span == n as real * span
  {
    assert n as real == swings as real + 1.0;
    SumTimes(swings as real, 1.0, span);
  }

  // ---------------------------------------------------------------- when a window has its bound

  /** How far a list of readings climbs. */
  function Rise(readings: seq<real>): real {
    if |readings| <= 1 then 0.0 else MaxReal(0.0, readings[1] - readings[0]) + Rise(readings[1..])
  }

  /** m requests of one key at one reading. */
  function Burst(key: string, now: real, m: nat): seq<Call> {
    seq(m, _ => Allow(key, now))
  }

  /** m requests of one key at each of the readings, in their order. */
  function Bursts(key: string, readings: seq<real>, m: nat): seq<Call> {
    if readings == [] then [] else Burst(key, readings[0], m) + Bursts(key, readings[1..], m)
  }

  lemma {:induction false} PermittedAppend(l: Limits, table: Buckets, first: seq<Call>, more: seq<Call>, key: string)
    ensures Permitted(l, table, first + more, key) == Permitted(l, table, first, key) + Permitted(l, Run(l, table, first), more, key)
    ensures Run(l, table, first + more) == Run(l, Run(l, table, first), more)
    decreases |first|
  {
    if first == [] {
      assert first + more == more;
    } else {
      assert (first + more)[1..] == first[1..] + more;
      PermittedAppend(l, After(l, table, first[0]), first[1..], more, key);
    }
  }

  lemma {:induction false} ClimbAppend(start: real, now: real, first: seq<Call>, more: seq<Call>)
    requires forall i | 0 <= i < |first| :: first[i].now == now
    ensures Climb(start, first + more) == if first == [] then Climb(start, more) else MaxReal(0.0, now - start) + Climb(now, more)
    decreases |first|
  {
    if first == [] {
      assert first + more == more;
    } else {
      assert (first + more)[1..] == first[1..] + more;
      ClimbAppend(now, now, first[1..], more);
    }
  }

  /** Repeating readings climbs no further than they do. */
  lemma {:induction false} BurstsClimb(key: string, readings: seq<real>, m: nat, start: real)
    requires readings != []
    ensures Climb(start, Bursts(key, readings, m)) <= MaxReal(0.0, readings[0] - start) + Rise(readings)
    decreases |readings|
  {
    var now := readings[0];
    ClimbAppend(start, now, Burst(key, now, m), Bursts(key, readings[1..], m));
    if |readings| > 1 {
      BurstsClimb(key, readings[1..], m, if m == 0 then start else now);
      assert readings[1..][0] == readings[1];
    }
  }

  /** Requests at one reading take what is available, whole token by whole token. */
  lemma {:induction false} BurstDrains(l: Limits, table: Buckets, key: string, now: real, m: nat)
    requires Valid(l) && l.capacity > 0 && Filled(l, table)
    ensures var table' := Run(l, table, Burst(key, now, m));
      && Filled(l, table')
      && Permitted(l, table, Burst(key, now, m), key) as real
         == Available(l, table, key, now) - Available(l, table', key, now)
      && (Available(l, table, key, now) <= m as real ==> Available(l, table', key, now) < 1.0)
      && (m > 0 ==> key in table' && table'[key].updatedAt == now)
    decreases m
  {
    if m > 0 {
      var calls := Burst(key, now, m);
      var next := After(l, table, calls[0]);
      assert calls[1..] == Burst(key, now, m - 1);
      StepKeepsFilled(l, table, calls[0]);
      AvailableAfter(l, table, calls[0], key);
      BurstDrains(l, next, key, now, m - 1);
      OneBurstStep(l, table, key, now);
      if m == 1 { assert calls[1..] == []; }
    } else {
      assert Burst(key, now, 0) == [];
      AvailableClimbs(l, table, key, now, now);
    }
  }

  lemma OneBurstStep(l: Limits, table: Buckets, key: string, now: real)
    requires Valid(l) && l.capacity > 0
    ensures AllowStep(l, table, key, now).1 <==> Available(l, table, key, now) >= 1.0
    ensures key in AllowStep(l, table, key, now).0 && AllowStep(l, table, key, now).0[key].updatedAt == now
  {
  }

  /** A bucket with room for the step gains it in full. */
  lemma GainsInFull(l: Limits, table: Buckets, key: string, now: real, later: real)
    requires key in table && table[key].updatedAt == now && table[key].tokens + Gain(l, now, later) <= l.capacity as real
    requires Valid(l) && Filled(l, table)
    ensures Available(l, table, key, later) == Available(l, table, key, now) + Gain(l, now, later)
  {
    assert table[key].tokens <= l.capacity as real;
    if later <= now { assert MaxReal(0.0, later - now) == 0.0; }
  }

  /** The readings' climb in tokens. */
  function RiseEarns(l: Limits, readings: seq<real>): real {
    if |readings| <= 1 then 0.0 else Gain(l, readings[0], readings[1]) + RiseEarns(l, readings[1..])
  }

  lemma {:induction false} RiseEarnsIs(l: Limits, readings: seq<real>)
    ensures RiseEarns(l, readings) == Rise(readings) * l.refill
  {
    if |readings| > 1 {
      RiseEarnsIs(l, readings[1..]);
      SumTimes(MaxReal(0.0, readings[1] - readings[0]), Rise(readings[1..]), l.refill);
    }
  }

  /** Every step of the readings fits into a bucket that holds less than one token. */
  ghost predicate StepsFit(l: Limits, readings: seq<real>) {
    forall i | 0 <= i < |readings| - 1 :: Gain(l, readings[i], readings[i + 1]) + 1.0 <= l.capacity as real
  }

  lemma RestFits(l: Limits, readings: seq<real>)
    requires readings != [] && StepsFit(l, readings)
    ensures StepsFit(l, readings[1..])
  {
    var rest := readings[1..];
    forall i | 0 <= i < |rest| - 1
      ensures Gain(l, rest[i], rest[i + 1]) + 1.0 <= l.capacity as real
    {
      var j := i + 1;
      assert Gain(l, readings[j], readings[j + 1]) + 1.0 <= l.capacity as real;
    }
  }

  /** Enough requests at every reading take all that the climb brings, up to less than one token. */
  lemma {:induction false} BurstsTakeAll(l: Limits, table: Buckets, key: string, readings: seq<real>)
    requires Valid(l) && l.capacity > 0 && Filled(l, table) && readings != [] && StepsFit(l, readings)
    ensures Permitted(l, table, Bursts(key, readings, l.capacity), key) as real
            > Available(l, table, key, readings[0]) + RiseEarns(l, readings) - 1.0
    decreases |readings|
  {
    var now, m := readings[0], l.capacity;
    var first, more := Burst(key, now, m), Bursts(key, readings[1..], m);
    var drained := Run(l, table, first);
    PermittedAppend(l, table, first, more, key);
    AvailableFits(l, table, key, now);
    BurstDrains(l, table, key, now, m);
    if |readings| == 1 {
      assert more == [];
    } else {
      assert readings[1..][0] == readings[1];
      RestFits(l, readings);
      AvailableIsTokens(l, drained, key, now);
      assert Gain(l, readings[0], readings[0 + 1]) + 1.0 <= l.capacity as real;
      GainsInFull(l, drained, key, now, readings[1]);
      BurstsTakeAll(l, drained, key, readings[1..]);
    }
  }

  lemma AvailableFits(l: Limits, table: Buckets, key: string, now: real)
    requires Valid(l) && Filled(l, table)
    ensures Available(l, table, key, now) <= l.capacity as real
  {
  }

  lemma AvailableIsTokens(l: Limits, table: Buckets, key: string, now: real)
    requires key in table && table[key].updatedAt == now && Filled(l, table)
    ensures Available(l, table, key, now) == table[key].tokens
  {
    assert MaxReal(0.0, now - now) * l.refill == 0.0;
  }

  /** The window bound at these readings: for any limits, earlier calls, key and number of requests at each reading. */
  ghost predicate Bounded(readings: seq<real>, length: real) {
    forall l, before, key, m | Valid(l) && l.capacity > 0 ::
      Permitted(l, Run(l, map[], before), Bursts(key, readings, m), key) as real <= l.capacity as real + length * l.refill
  }

  /** A capacity no step of the readings exceeds. */
  function RoomFor(refill: real, readings: seq<real>): nat {
    if |readings| <= 1 then 1
    else
      var rest := RoomFor(refill, readings[1..]);
      var step := Gain(Limits(1, refill), readings[0], readings[1]).Floor + 2;
      if rest >= step then rest else step
  }

  lemma {:induction false} RoomFits(refill: real, readings: seq<real>, capacity: nat)
    requires refill >= 0.0 && capacity >= RoomFor(refill, readings)
    ensures StepsFit(Limits(capacity, refill), readings) && capacity > 0
  {
    var l := Limits(capacity, refill);
    if |readings| > 1 {
      RoomFits(refill, readings[1..], capacity);
      forall i | 0 <= i < |readings| - 1
        ensures Gain(l, readings[i], readings[i + 1]) + 1.0 <= capacity as real
      {
        if i > 0 {
          assert Gain(l, readings[1..][i - 1], readings[1..][i - 1 + 1]) + 1.0 <= capacity as real;
        }
      }
    }
  }

  /** Limits under which the climb brings exactly one token more than the length does. */
  lemma SteepLimits(readings: seq<real>, length: real) returns (l: Limits)
    requires Rise(readings) > length
    ensures Valid(l) && l.capacity > 0 && StepsFit(l, readings)
    ensures RiseEarns(l, readings) - 1.0 == length * l.refill
  {
    var refill := Inverse(Rise(readings), length);
    l := Limits(RoomFor(refill, readings), refill);
    RoomFits(refill, readings, l.capacity);
    RiseEarnsIs(l, readings);
  }

  lemma Inverse(rise: real, length: real) returns (refill: real)
    requires rise > length
    ensures refill >= 0.0 && rise * refill - 1.0 == length * refill
  {
    refill := 1.0 / (rise - length);
    assert (rise - length) * refill == 1.0;
    SumTimes(rise - length, length, refill);
  }

  lemma SteepReadingsBreak(readings: seq<real>, length: real)
    requires readings != [] && Rise(readings) > length
    ensures !Bounded(readings, length)
  {
    var l := SteepLimits(readings, length);
    FullDrains(l, readings);
    assert Permitted(l, Run(l, map[], []), Bursts("key", readings, l.capacity), "key") as real
           > l.capacity as real + length * l.refill;
  }

  lemma FullDrains(l: Limits, readings: seq<real>)
    requires Valid(l) && l.capacity > 0 && readings != [] && StepsFit(l, readings)
    ensures Permitted(l, Run(l, map[], []), Bursts("key", readings, l.capacity), "key") as real
            > l.capacity as real + (RiseEarns(l, readings) - 1.0)
  {
    BurstsTakeAll(l, map[], "key", readings);
  }

  lemma FlatReadingsHold(readings: seq<real>, length: real, l: Limits, before: seq<Call>, key: string, m: nat)
    requires readings != [] && Rise(readings) <= length && Valid(l) && l.capacity > 0
    ensures Permitted(l, Run(l, map[], before), Bursts(key, readings, m), key) as real <= l.capacity as real + length * l.refill
  {
    var window := Bursts(key, readings, m);
    FlatEarns(readings, length, l, key, m);
    WindowEarns(l, before, window, key, readings[0]);
  }

  lemma FlatEarns(readings: seq<real>, length: real, l: Limits, key: string, m: nat)
    requires readings != [] && Rise(readings) <= length && Valid(l)
    ensures Earned(l, readings[0], Bursts(key, readings, m)) <= length * l.refill
  {
    var window := Bursts(key, readings, m);
    BurstsClimb(key, readings, m, readings[0]);
    EarnedByClimbing(l, readings[0], window);
    Accrues(l.refill, Climb(readings[0], window), length);
  }

  /**
    The exact condition: a window of that length has its bound at these readings, for all limits, earlier
    calls, keys and numbers of requests, exactly when the readings climb no further than the window is long.
  */
  lemma BoundedIff(readings: seq<real>, length: real)
    requires readings != [] && length >= 0.0
    ensures Bounded(readings, length) <==> Rise(readings) <= length
  {
    if Rise(readings) <= length {
      forall l, before, key, m | Valid(l) && l.capacity > 0
        ensures Permitted(l, Run(l, map[], before), Bursts(key, readings, m), key) as real <= l.capacity as real + length * l.refill
      {
        FlatReadingsHold(readings, length, l, before, key, m);
      }
    } else {
      SteepReadingsBreak(readings, length);
    }
  }

  lemma ReplenishTwice(l: Limits, b: Bucket, now: real, later: real)
    requires Valid(l) && b.updatedAt <= now <= later && b.tokens <= l.capacity as real
    ensures Replenish(l, Replenish(l, b, now), later) == Replenish(l, b, later)
  {
    Accrues(l.refill, 0.0, later - now);
    Accrues(l.refill, 0.0, now - b.updatedAt);
    assert (later - b.updatedAt) * l.refill == (now - b.updatedAt) * l.refill + (later - now) * l.refill;
  }

  /** Asking how long to wait changes no later answer. */
  lemma LookingIsHarmless(l: Limits, table: Buckets, key: string, other: string, now: real, later: real)
    requires Valid(l) && Sound(l, table, now) && now <= later
    ensures AllowStep(l, RetryStep(l, table, key, now).0, other, later).1 == AllowStep(l, table, other, later).1
  {
    if key in table { ReplenishTwice(l, table[key], now, later); }
  }

  // ---------------------------------------------------------------- waiting

  lemma TokensAfter(l: Limits, b: Bucket, waited: real)
    requires l.refill > 0.0 && l.capacity > 0 && b.tokens < 1.0 && waited >= 0.0
    ensures Replenish(l, b, b.updatedAt + waited).tokens >= 1.0 <==> waited >= (1.0 - b.tokens) / l.refill
  {
    var x := (1.0 - b.tokens) / l.refill;
    assert x * l.refill == 1.0 - b.tokens;
    assert MaxReal(0.0, (b.updatedAt + waited) - b.updatedAt) == waited;
    assert Replenish(l, b, b.updatedAt + waited).tokens == MinReal(l.capacity as real, b.tokens + waited * l.refill);
    if waited >= x {
      Accrues(l.refill, x, waited);
    } else {
      assert (x - waited) * l.refill > 0.0;
      assert (x - waited) * l.refill == x * l.refill - waited * l.refill;
      assert b.tokens + waited * l.refill < 1.0;
    }
  }

  /** A refused key that waits the advised seconds and one millisecond is permitted. */
  lemma AdvisedWaitSuffices(l: Limits, table: Buckets, key: string, now: real)
    requires Valid(l) && l.capacity > 0 && l.refill > 0.0 && Sound(l, table, now)
    ensures var (table', seconds) := RetryStep(l, table, key, now);
      AllowStep(l, table', key, now + seconds as real + 0.001).1
  {
    if key in table {
      var b := Replenish(l, table[key], now);
      var (table', seconds) := RetryStep(l, table, key, now);
      if b.tokens < 1.0 {
        TokensAfter(l, b, seconds as real + 0.001);
      } else {
        Accrues(l.refill, 0.0, 0.001);
        assert seconds == 0 && table'[key] == b && b.updatedAt == now;
        assert Replenish(l, b, now + seconds as real + 0.001).tokens >= 1.0;
      }
    }
  }

  lemma RoundedUpIff(x: real, whole: int)
    requires x > 0.0 && whole == (x + 0.999).Floor
    ensures whole as real >= x <==> x == x.Floor as real || x - x.Floor as real >= 0.001
    ensures whole < 1 <==> x < 0.001
  {
    var n := x.Floor;
    assert n as real <= x < n as real + 1.0;
    if x - n as real >= 0.001 {
      assert whole == n + 1;
    } else {
      assert whole == n;
    }
  }

  /**
    Without the extra millisecond the advice is right exactly when the missing time is at most one
    second, a whole number of seconds, or a millisecond or more past one.
  */
  lemma WholeSecondsSufficeIff(l: Limits, b: Bucket)
    requires l.refill > 0.0 && l.capacity > 0 && b.tokens < 1.0
    ensures var missing := (1.0 - b.tokens) / l.refill;
      Replenish(l, b, b.updatedAt + Wait(l, b) as real).tokens >= 1.0
      <==> missing <= 1.0 || missing == missing.Floor as real || missing - missing.Floor as real >= 0.001
  {
    var missing := (1.0 - b.tokens) / l.refill;
    MissingIsPositive(l, b);
    RoundedUpIff(missing, (missing + 0.999).Floor);
    TokensAfter(l, b, Wait(l, b) as real);
  }

  lemma MissingIsPositive(l: Limits, b: Bucket)
    requires l.refill > 0.0 && b.tokens < 1.0
    ensures (1.0 - b.tokens) / l.refill > 0.0
  {
    var missing := (1.0 - b.tokens) / l.refill;
    assert missing * l.refill == 1.0 - b.tokens;
    if missing <= 0.0 { Accrues(l.refill, missing, 0.0); }
  }

  /** Two advised seconds that are too short: 2.0005 seconds are missing. */
  lemma TwoSecondsTooShort()
    ensures var l := Limits(1, 2000.0 / 4001.0);
      var table := AllowStep(l, map[], "key", 0.0).0;
      && RetryStep(l, table, "key", 0.0).1 == 2
      && !AllowStep(l, RetryStep(l, table, "key", 0.0).0, "key", 2.0).1
  {
    var refill := 2000.0 / 4001.0;
    assert 1.0 / refill == 2.0005;
  }

  /**
    The advice is zero exactly when a request would be permitted now; otherwise it is at least one
    second and less than a second longer than needed, unless that second is the first.
  */
  lemma AdviceIsTight(l: Limits, table: Buckets, key: string, now: real)
    requires Valid(l) && l.capacity > 0 && l.refill > 0.0
    ensures var seconds := RetryStep(l, table, key, now).1;
      && (seconds == 0 <==> AllowStep(l, table, key, now).1)
      && (seconds > 1 ==> (seconds as real - 0.999) * l.refill <= 1.0 - Replenish(l, table[key], now).tokens)
  {
    if key in table && Replenish(l, table[key], now).tokens < 1.0 {
      var b := Replenish(l, table[key], now);
      var missing := (1.0 - b.tokens) / l.refill;
      assert missing * l.refill == 1.0 - b.tokens;
      if Wait(l, b) > 1 {
        Accrues(l.refill, Wait(l, b) as real - 0.999, missing);
      }
    }
  }
}
