/**
 Token-bucket fork quotas.  Rates and tokens are reals and the clock is an argument, so the
 bounds are exact; rate and capacity may differ from call to call, as plan tiers change.
 */
module ForkQuota {
  import opened Common

  datatype Bucket = Bucket(tokens: real, lastRefill: real)

  function MinReal(a: real, b: real): real {
    if a < b then a else b
  }

  function Ceil(x: real): int {
    -((-x).Floor)
  }

  /** Time since the last refill; a clock that has not moved forward counts as zero. */
  function Elapsed(b: Bucket, now: real): real {
    if now < b.lastRefill then 0.0 else now - b.lastRefill
  }

  function Refilled(b: Bucket, now: real, rps: real, burst: real): real {
    MinReal(b.tokens + Elapsed(b, now) * rps, burst)
  }

  /** Seconds to wait, rounded up, at least 1, saturating at the largest 64-bit value. */
  function RetryAfter(tokens: real, rps: real): nat
    requires rps > 0.0
  {
    Max(1, Min(Ceil((1.0 - tokens) / rps), U64_LIMIT - 1))
  }

  /** Refill and consume one token; a key seen for the first time starts full. */
  function TakeOne(b: Option<Bucket>, now: real, rps: real, burst: real): (Bucket, Result<(), nat>)
    requires rps > 0.0
  {
    var tokens := Refilled(if b.Some? then b.value else Bucket(burst, now), now, rps, burst);
    if tokens >= 1.0 then (Bucket(tokens - 1.0, now), Ok(()))
    else (Bucket(tokens, now), Err(RetryAfter(tokens, rps)))
  }

  function Lookup(buckets: map<string, Bucket>, key: string): Option<Bucket> {
    if key in buckets then Some(buckets[key]) else None
  }

  class Quota {
    const rps: real
    const burst: nat
    var buckets: map<string, Bucket>
    var orgBuckets: map<string, Bucket>

    constructor (rps: real, burst: nat)
      ensures this.rps == rps && this.burst == burst && buckets == map[] && orgBuckets == map[]
    {
      this.rps, this.burst := rps, burst;
      buckets, orgBuckets := map[], map[];
    }

    predicate IsDisabled() {
      rps <= 0.0
    }

    /** A disabled quota, or a caller without a token, passes without touching any bucket. */
    method TryAcquire(bearer: Option<string>, now: real) returns (r: Result<(), nat>)
      modifies this`buckets
      ensures IsDisabled() || bearer.None? ==> r == Ok(()) && buckets == old(buckets)
      ensures !IsDisabled() && bearer.Some? ==>
                var (b, outcome) := TakeOne(Lookup(old(buckets), bearer.value), now, rps, burst as real);
                r == outcome && buckets == old(buckets)[bearer.value := b]
    {
      if IsDisabled() || bearer.None? {
        return Ok(());
      }
      var b;
      b, r := Take(Lookup(buckets, bearer.value), now, rps, burst as real);
      buckets := buckets[bearer.value := b];
    }

    /** Overrides that are not positive are ignored in favour of the defaults. */
    method TryAcquireOrg(org: string, rpsOverride: Option<real>, burstOverride: Option<nat>, now: real)
      returns (r: Result<(), nat>)
      modifies this`orgBuckets
      ensures IsDisabled() ==> r == Ok(()) && orgBuckets == old(orgBuckets)
      ensures !IsDisabled() ==>
                var rate := if rpsOverride.Some? && rpsOverride.value > 0.0 then rpsOverride.value else rps;
                var size := if burstOverride.Some? && burstOverride.value > 0 then burstOverride.value else burst;
                var (b, outcome) := TakeOne(Lookup(old(orgBuckets), org), now, rate, size as real);
                r == outcome && orgBuckets == old(orgBuckets)[org := b]
    {
      if IsDisabled() {
        return Ok(());
      }
      var rate := if rpsOverride.Some? && rpsOverride.value > 0.0 then rpsOverride.value else rps;
      var size := if burstOverride.Some? && burstOverride.value > 0 then burstOverride.value else burst;
      var b;
      b, r := Take(Lookup(orgBuckets, org), now, rate, size as real);
      orgBuckets := orgBuckets[org := b];
    }
  }

  /** The bucket update, statement by statement. */
  method Take(found: Option<Bucket>, now: real, rps: real, burst: real) returns (b: Bucket, r: Result<(), nat>)
    requires rps > 0.0
    ensures (b, r) == TakeOne(found, now, rps, burst)
  {
    b := if found.Some? then found.value else Bucket(burst, now);
    var elapsed := if now < b.lastRefill then 0.0 else now - b.lastRefill;
    b := Bucket(MinReal(b.tokens + elapsed * rps, burst), now);
    if b.tokens >= 1.0 {
      b := b.(tokens := b.tokens - 1.0);
      r := Ok(());
    } else {
      var secs := Ceil((1.0 - b.tokens) / rps);
      r := Err(Max(1, Min(secs, U64_LIMIT - 1)));
    }
  }

  // ---------------------------------------------------------------------------
  // Runs of calls on one key
  // ---------------------------------------------------------------------------

  datatype Call = Call(now: real, rps: real, burst: real)

  predicate Sane(c: Call) {
    c.rps > 0.0 && c.burst >= 0.0
  }

  /** Calls at nondecreasing times, none before `start`. */
  predicate InOrder(start: real, calls: seq<Call>) {
    && (forall i :: 0 <= i < |calls| ==> Sane(calls[i]) && start <= calls[i].now)
    && (forall i, j :: 0 <= i < j < |calls| ==> calls[i].now <= calls[j].now)
  }

  function Step(b: Option<Bucket>, c: Call): (Bucket, bool)
    requires Sane(c)
  {
    var (b', r) := TakeOne(b, c.now, c.rps, c.burst);
    (b', r.Ok?)
  }

  /** How many calls made at a time in [lo, hi] were admitted. */
  function Admitted(b: Option<Bucket>, calls: seq<Call>, lo: real, hi: real): nat
    requires forall i :: 0 <= i < |calls| ==> Sane(calls[i])
    decreases |calls|
  {
    if calls == [] then 0 else
      var (b', ok) := Step(b, calls[0]);
      (if ok && lo <= calls[0].now <= hi then 1 else 0) + Admitted(Some(b'), calls[1..], lo, hi)
  }

  /** After every call the bucket holds between nothing and that call's capacity. */
  lemma {:induction false} TokensStayWithinCapacity(b: Option<Bucket>, c: Call)
    requires Sane(c) && (b.Some? ==> b.value.tokens >= 0.0)
    ensures var b' := Step(b, c).0; 0.0 <= b'.tokens <= c.burst && b'.lastRefill == c.now
  {
    if b.Some? {
      ProductNonnegative(Elapsed(b.value, c.now), c.rps);
    }
  }

  lemma {:induction false} ProductNonnegative(a: real, b: real)
    requires a >= 0.0 && b >= 0.0
    ensures a * b >= 0.0
  {
  }

  lemma {:induction false} ProductMonotone(a: real, b: real, c: real)
    requires a >= 0.0 && b <= c
    ensures a * b <= a * c
  {
    ProductNonnegative(a, c - b);
    assert a * (c - b) == a * c - a * b;
  }

  lemma {:induction false} NothingAfterTheWindow(b: Option<Bucket>, calls: seq<Call>, lo: real, hi: real)
    requires forall i :: 0 <= i < |calls| ==> Sane(calls[i]) && calls[i].now > hi
    ensures Admitted(b, calls, lo, hi) == 0
    decreases |calls|
  {
    if calls != [] {
      NothingAfterTheWindow(Some(Step(b, calls[0]).0), calls[1..], lo, hi);
    }
  }

  predicate Within(calls: seq<Call>, lo: real, hi: real, maxRps: real, maxBurst: real) {
    forall i :: 0 <= i < |calls| && lo <= calls[i].now <= hi ==> calls[i].rps <= maxRps && calls[i].burst <= maxBurst
  }

  /** Tokens a rate yields in a stretch of time. */
  function Yield(rate: real, span: real): real {
    span * rate
  }

  lemma {:induction false} YieldFacts(rate: real, from: real, mid: real, to: real)
    requires rate >= 0.0 && from <= mid <= to
    ensures Yield(rate, to - from) == Yield(rate, to - mid) + Yield(rate, mid - from)
    ensures 0.0 <= Yield(rate, to - mid) <= Yield(rate, to - from)
  {
    ProductNonnegative(to - mid, rate);
    ProductNonnegative(mid - from, rate);
    assert (to - from) * rate == (to - mid) * rate + (mid - from) * rate;
  }

  function Charge(ok: bool): real {
    if ok then 1.0 else 0.0
  }

  /** The first call in a history is counted when it was admitted inside the window. */
  lemma {:induction false} AdmittedFirst(b: Option<Bucket>, calls: seq<Call>, lo: real, hi: real)
    requires calls != [] && forall i :: 0 <= i < |calls| ==> Sane(calls[i])
    ensures var (b', ok) := Step(b, calls[0]);
            Admitted(b, calls, lo, hi) as real
            == Charge(ok && lo <= calls[0].now <= hi) + Admitted(Some(b'), calls[1..], lo, hi) as real
  {
    hide Step;
  }

  /** From a bucket inside the window, only its tokens and the time left can be spent. */
  lemma {:induction false} RestOfTheWindow(b: Bucket, calls: seq<Call>, lo: real, hi: real,
                                           maxRps: real, maxBurst: real)
    requires InOrder(b.lastRefill, calls) && Within(calls, lo, hi, maxRps, maxBurst)
    requires b.tokens >= 0.0 && lo <= b.lastRefill <= hi && maxRps >= 0.0
    ensures Admitted(Some(b), calls, lo, hi) as real <= b.tokens + Yield(maxRps, hi - b.lastRefill)
    decreases |calls|
  {
    YieldFacts(maxRps, b.lastRefill, b.lastRefill, hi);
    hide Step, Yield;
    if calls == [] {
      NothingAfterTheWindow(Some(b), calls, lo, hi);
    } else if calls[0].now > hi {
      NothingAfterTheWindow(Some(b), calls, lo, hi);
    } else {
      var c := calls[0];
      TokensStayWithinCapacity(Some(b), c);
      RestOfTheWindow(Step(Some(b), c).0, calls[1..], lo, hi, maxRps, maxBurst);
      AdmittedFirst(Some(b), calls, lo, hi);
      SpentFromRefill(b, c, maxRps);
      YieldFacts(maxRps, b.lastRefill, c.now, hi);
    }
  }

  /** One call pays for itself out of the tokens held and the time that has passed. */
  lemma {:induction false} SpentFromRefill(b: Bucket, c: Call, maxRps: real)
    requires Sane(c) && c.rps <= maxRps && b.lastRefill <= c.now
    ensures var (b', ok) := Step(Some(b), c);
            Charge(ok) + b'.tokens <= b.tokens + Yield(maxRps, c.now - b.lastRefill)
  {
    ProductMonotone(c.now - b.lastRefill, c.rps, maxRps);
  }

  /**
   For every call history on a key, the admits in any time window are at most the largest
   capacity plus the largest rate times the window's length, over the calls in the window.
   */
  lemma {:induction false} WindowBound(b: Option<Bucket>, calls: seq<Call>, lo: real, hi: real,
                                       maxRps: real, maxBurst: real)
    requires calls != [] ==> InOrder(calls[0].now, calls)
    requires b.Some? ==> b.value.tokens >= 0.0 && InOrder(b.value.lastRefill, calls)
    requires Within(calls, lo, hi, maxRps, maxBurst)
    requires lo <= hi && maxRps >= 0.0 && maxBurst >= 0.0
    ensures Admitted(b, calls, lo, hi) as real <= maxBurst + Yield(maxRps, hi - lo)
    decreases |calls|
  {
    YieldFacts(maxRps, lo, lo, hi);
    hide Step, Yield;
    if calls == [] {
      NothingAfterTheWindow(b, calls, lo, hi);
    } else if calls[0].now > hi {
      NothingAfterTheWindow(b, calls, lo, hi);
    } else {
      var c := calls[0];
      TokensStayWithinCapacity(b, c);
      AdmittedFirst(b, calls, lo, hi);
      var b' := Step(b, c).0;
      if c.now < lo {
        WindowBound(Some(b'), calls[1..], lo, hi, maxRps, maxBurst);
      } else {
        RestOfTheWindow(b', calls[1..], lo, hi, maxRps, maxBurst);
        FirstInTheWindow(b, c);
        YieldFacts(maxRps, lo, c.now, hi);
      }
    }
  }

  /** Whatever came before, one call cannot spend and keep more than its own capacity. */
  lemma {:induction false} FirstInTheWindow(b: Option<Bucket>, c: Call)
    requires Sane(c)
    ensures var (b', ok) := Step(b, c); Charge(ok) + b'.tokens <= c.burst
  {
  }

  // ---------------------------------------------------------------------------
  // Retry-After is exact
  // ---------------------------------------------------------------------------

  /** The bucket after a run of calls that were all denied; None if one was admitted. */
  function AfterDenials(b: Bucket, calls: seq<Call>): Option<Bucket>
    requires forall i :: 0 <= i < |calls| ==> Sane(calls[i])
    decreases |calls|
  {
    if calls == [] then Some(b) else
      var (b', ok) := Step(Some(b), calls[0]);
      if ok then None else AfterDenials(b', calls[1..])
  }

  /** Calls at one rate whose capacities all hold a whole token, or all do not. */
  predicate SameRate(calls: seq<Call>, rps: real, roomy: bool) {
    forall i :: 0 <= i < |calls| ==> calls[i].rps == rps && (calls[i].burst >= 1.0 <==> roomy)
  }

  /** A capacity below one token never admits, whatever the bucket held. */
  lemma {:induction false} SmallBurstNeverAdmits(b: Option<Bucket>, c: Call)
    requires Sane(c) && c.burst < 1.0
    ensures !Step(b, c).1
  {
  }

  /** Denied calls lose nothing: tokens simply accumulate at the common rate. */
  lemma {:induction false} DenialsAccumulate(b: Bucket, calls: seq<Call>, rps: real)
    requires InOrder(b.lastRefill, calls) && SameRate(calls, rps, true) && b.tokens < 1.0
    requires AfterDenials(b, calls).Some?
    ensures var b' := AfterDenials(b, calls).value;
            && b'.lastRefill >= b.lastRefill
            && b'.tokens == b.tokens + (b'.lastRefill - b.lastRefill) * rps
            && b'.tokens < 1.0
    decreases |calls|
  {
    hide Step, TakeOne;
    if calls != [] {
      var c := calls[0];
      var b1 := Step(Some(b), c).0;
      DenialAccumulates(b, c);
      DenialsAccumulate(b1, calls[1..], rps);
      SplitWait(b.lastRefill, c.now, AfterDenials(b1, calls[1..]).value.lastRefill, rps);
    }
  }

  lemma {:induction false} DenialAccumulates(b: Bucket, c: Call)
    requires Sane(c) && c.burst >= 1.0 && b.lastRefill <= c.now && b.tokens < 1.0
    ensures var (b', ok) := Step(Some(b), c);
            && b'.lastRefill == c.now
            && (ok <==> b.tokens + (c.now - b.lastRefill) * c.rps >= 1.0)
            && (!ok ==> b'.tokens == b.tokens + (c.now - b.lastRefill) * c.rps && b'.tokens < 1.0)
  {
  }

  lemma {:induction false} SplitWait(from: real, mid: real, to: real, rps: real)
    ensures (to - from) * rps == (to - mid) * rps + (mid - from) * rps
  {
  }

  /**
   A call denied with a retry time, then only denied calls at the same rate: a call that many
   seconds later is admitted exactly when its capacity holds a whole token and the wait had
   not saturated, and when the retry time exceeds 1 a call one second sooner is still denied.
   */
  lemma {:induction false} RetryAfterIsExact(b: Bucket, rps: real, between: seq<Call>, last: Call)
    requires b.tokens < 1.0 && rps > 0.0
    requires InOrder(b.lastRefill, between) && SameRate(between, rps, last.burst >= 1.0)
    requires AfterDenials(b, between).Some?
    requires Sane(last) && last.rps == rps
    requires last.now >= AfterDenials(b, between).value.lastRefill
    ensures var retry := RetryAfter(b.tokens, rps);
            var admitted := Step(Some(AfterDenials(b, between).value), last).1;
            && (last.now == b.lastRefill + retry as real ==>
                  (admitted <==> last.burst >= 1.0 && (1.0 - b.tokens) / rps <= (U64_LIMIT - 1) as real))
            && (retry > 1 && last.now == b.lastRefill + retry as real - 1.0 ==> !admitted)
  {
    hide Step, TakeOne, AfterDenials;
    var b' := AfterDenials(b, between).value;
    if last.burst < 1.0 {
      SmallBurstNeverAdmits(Some(b'), last);
    } else {
      DenialsAccumulate(b, between, rps);
      DenialAccumulates(b', last);
      SplitWait(b.lastRefill, b'.lastRefill, last.now, rps);
      WaitSuffices(b.tokens, rps, last.now - b.lastRefill);
      CeilBounds((1.0 - b.tokens) / rps);
    }
  }

  /** Waiting `waited` seconds refills to a whole token exactly when it covers the deficit. */
  lemma {:induction false} WaitSuffices(tokens: real, rps: real, waited: real)
    requires rps > 0.0
    ensures tokens + waited * rps >= 1.0 <==> (1.0 - tokens) / rps <= waited
  {
    var need := (1.0 - tokens) / rps;
    assert need * rps == 1.0 - tokens;
    if need <= waited {
      ProductMonotone(rps, need, waited);
    } else {
      ProductPositive(need - waited, rps);
      assert (need - waited) * rps == need * rps - waited * rps;
    }
  }

  lemma {:induction false} ProductPositive(a: real, b: real)
    requires a > 0.0 && b > 0.0
    ensures a * b > 0.0
  {
  }

  lemma {:induction false} CeilBounds(x: real)
    ensures Ceil(x) as real - 1.0 < x <= Ceil(x) as real
  {
  }

  /**
   The same from the denied call itself: whatever bucket it met, its reported wait is exact.
   */
  lemma {:induction false} DeniedCallersRetry(b: Option<Bucket>, first: Call, between: seq<Call>, last: Call)
    requires Sane(first) && TakeOne(b, first.now, first.rps, first.burst).1.Err?
    requires InOrder(first.now, between) && SameRate(between, first.rps, last.burst >= 1.0)
    requires AfterDenials(Step(b, first).0, between).Some?
    requires Sane(last) && last.rps == first.rps
    requires last.now >= AfterDenials(Step(b, first).0, between).value.lastRefill
    ensures var retry := TakeOne(b, first.now, first.rps, first.burst).1.error;
            var admitted := Step(Some(AfterDenials(Step(b, first).0, between).value), last).1;
            && (last.now == first.now + retry as real ==>
                  (admitted <==> && last.burst >= 1.0
                                 && (1.0 - Step(b, first).0.tokens) / first.rps <= (U64_LIMIT - 1) as real))
            && (retry > 1 && last.now == first.now + retry as real - 1.0 ==> !admitted)
  {
    DenialState(b, first);
    hide TakeOne, RetryAfter, AfterDenials;
    RetryAfterIsExact(Step(b, first).0, first.rps, between, last);
  }

  /** One token in 2^65 seconds: the wait exceeds 64 bits, and the retry it names is denied. */
  lemma {:induction false} SaturatedRetryIsDenied()
    ensures var b := Bucket(0.0, 0.0);
            var rps := 1.0 / (2 * U64_LIMIT) as real;
            var retry := RetryAfter(b.tokens, rps);
            && rps > 0.0 && retry == U64_LIMIT - 1
            && !Step(Some(b), Call(retry as real, rps, 1.0)).1
  {
    var rps := 1.0 / (2 * U64_LIMIT) as real;
    assert (1.0 - 0.0) / rps == (2 * U64_LIMIT) as real;
    var retry := (U64_LIMIT - 1) as real;
    assert Elapsed(Bucket(0.0, 0.0), retry) == retry;
    assert retry * rps < 1.0;
  }

  /** Calls that come at one instant are admitted as long as whole tokens last. */
  lemma {:induction false} SpentAtOnce(b: Bucket, c: Call, calls: seq<Call>)
    requires Sane(c) && b.lastRefill == c.now && 0.0 <= b.tokens <= c.burst
    requires forall i :: 0 <= i < |calls| ==> calls[i] == c
    ensures Admitted(Some(b), calls, c.now, c.now) == Min(|calls|, b.tokens.Floor)
    decreases |calls|
  {
    if calls != [] {
      assert calls[0] == c;
      assert Elapsed(b, c.now) * c.rps == 0.0;
      SpentAtOnce(Step(Some(b), c).0, c, calls[1..]);
      assert b.tokens >= 1.0 ==> (b.tokens - 1.0).Floor == b.tokens.Floor - 1;
    }
  }

  /** The tokens a bucket has after standing idle until `now`. */
  function Stocked(b: Bucket, now: real, rps: real, burst: real): real {
    var full := b.tokens + Yield(rps, now - b.lastRefill);
    if full < burst then full else burst
  }

  lemma {:induction false} YieldIsNonnegative(rate: real, span: real)
    requires rate >= 0.0 && span >= 0.0
    ensures Yield(rate, span) >= 0.0
  {
    ProductNonnegative(span, rate);
  }

  /**
   From any bucket, calls that come together after any idle time are admitted exactly as far
   as the whole tokens go that the time refilled, up to the capacity.
   */
  lemma {:induction false} IdleTimeIsCredited(b: Bucket, c: Call, calls: seq<Call>)
    requires Sane(c) && b.tokens >= 0.0 && b.lastRefill <= c.now
    requires forall i :: 0 <= i < |calls| ==> calls[i] == c
    ensures Stocked(b, c.now, c.rps, c.burst) >= 0.0
    ensures Admitted(Some(b), calls, c.now, c.now) == Min(|calls|, Stocked(b, c.now, c.rps, c.burst).Floor)
  {
    hide Yield, Step;
    YieldIsNonnegative(c.rps, c.now - b.lastRefill);
    var now := Bucket(Stocked(b, c.now, c.rps, c.burst), c.now);
    SpentAtOnce(now, c, calls);
    if calls != [] {
      assert calls[0] == c;
      SameStock(b, now, c);
    }
  }

  /** Letting the time pass first, or in the call, comes to the same. */
  lemma {:induction false} SameStock(b: Bucket, now: Bucket, c: Call)
    requires Sane(c) && b.lastRefill <= c.now
    requires now == Bucket(Stocked(b, c.now, c.rps, c.burst), c.now)
    ensures Step(Some(b), c) == Step(Some(now), c)
  {
    NoTimeNoTokens(now, c);
    StockIsRefill(b, c);
    hide Refilled, Stocked;
  }

  lemma {:induction false} NoTimeNoTokens(now: Bucket, c: Call)
    requires now.lastRefill == c.now && now.tokens <= c.burst
    ensures Refilled(now, c.now, c.rps, c.burst) == now.tokens
  {
    assert Elapsed(now, c.now) == 0.0;
  }

  lemma {:induction false} StockIsRefill(b: Bucket, c: Call)
    requires b.lastRefill <= c.now
    ensures Refilled(b, c.now, c.rps, c.burst) == Stocked(b, c.now, c.rps, c.burst) <= c.burst
  {
    assert Elapsed(b, c.now) == c.now - b.lastRefill;
  }

  /** A key left alone for burst / rate seconds has its whole burst again, whatever it spent. */
  lemma {:induction false} RestRestoresTheBurst(b: Bucket, c: Call, calls: seq<Call>)
    requires Sane(c) && b.tokens >= 0.0 && c.now - b.lastRefill >= c.burst / c.rps
    requires forall i :: 0 <= i < |calls| ==> calls[i] == c
    ensures Admitted(Some(b), calls, c.now, c.now) == Min(|calls|, c.burst.Floor)
  {
    hide Yield, Step, Admitted;
    QuotientNonnegative(c.burst, c.rps);
    LongRestYieldsTheBurst(c.rps, c.burst, c.now - b.lastRefill);
    assert Stocked(b, c.now, c.rps, c.burst) == c.burst;
    IdleTimeIsCredited(b, c, calls);
  }

  lemma {:induction false} LongRestYieldsTheBurst(rate: real, burst: real, idle: real)
    requires rate > 0.0 && idle >= burst / rate
    ensures Yield(rate, idle) >= burst
  {
    var full := burst / rate;
    ProductMonotone(rate, full, idle);
    assert rate * full == burst;
  }

  lemma {:induction false} QuotientNonnegative(a: real, b: real)
    requires a >= 0.0 && b > 0.0
    ensures a / b >= 0.0
  {
  }

  /** A key seen for the first time gets its whole burst at once, and not one call more. */
  lemma {:induction false} NewKeyGetsItsBurst(c: Call, calls: seq<Call>)
    requires Sane(c) && forall i :: 0 <= i < |calls| ==> calls[i] == c
    ensures Admitted(None, calls, c.now, c.now) == Min(|calls|, c.burst.Floor)
  {
    var full := Bucket(c.burst, c.now);
    SpentAtOnce(full, c, calls);
    if calls != [] {
      assert calls[0] == c;
      assert Step(None, c) == Step(Some(full), c);
    }
  }

  /** The state a denial leaves is exactly what `RetryAfterIsExact` starts from. */
  lemma {:induction false} DenialState(b: Option<Bucket>, c: Call)
    requires Sane(c) && TakeOne(b, c.now, c.rps, c.burst).1.Err?
    ensures var (b', r) := TakeOne(b, c.now, c.rps, c.burst);
            b'.tokens < 1.0 && b'.lastRefill == c.now && r.error == RetryAfter(b'.tokens, c.rps)
  {
  }
}
