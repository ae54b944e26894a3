/** Retry classification, circuit breaker and request pacing of one batch
    attempt (`backend/app/impact/resilience.py`). Clocks are monotone reals. */
module Resilience {
  import opened ImpactModels

  type Instant = real

  datatype Category = Retryable | NonRetryable
  datatype Failure = Failure(code: string, category: Category)

  const CIRCUIT_OPEN_CODE := "CONNECTOR_CIRCUIT_OPEN"
  const TRANSIENT_ITEM_CODES: set<string> := {"TEMPORARILY_UNAVAILABLE", "RATE_LIMITED"}
  const TRANSIENT_CODES: set<string> :=
    {"CONNECTOR_TARGET_BUDGET_EXCEEDED", CIRCUIT_OPEN_CODE} + TRANSIENT_ITEM_CODES
  const SYSTEMIC_PERMANENT_CODES: set<string> :=
    {"CONNECTOR_AUTH_DENIED", "CONNECTOR_AUTH_UNAVAILABLE", "CONNECTOR_NOT_REGISTERED",
     "CONNECTOR_ENGINE_VERSION_NOT_ALLOWED", "CONNECTOR_ENGINE_VERSION_MISMATCH", "CONNECTOR_SCHEMA_VIOLATION",
     "CONNECTOR_UNEXPECTED_REDIRECT", "CONNECTOR_REQUEST_ID_MISMATCH"}

  predicate IsTransient(f: Failure) { f.category == Retryable || f.code in TRANSIENT_CODES }

  /** Which failures may pass: retryable ones, and four others. */
  lemma TransientExactly(f: Failure)
    ensures IsTransient(f) <==>
              || f.category == Retryable
              || f.code == "CONNECTOR_TARGET_BUDGET_EXCEEDED" || f.code == "CONNECTOR_CIRCUIT_OPEN"
              || f.code == "TEMPORARILY_UNAVAILABLE" || f.code == "RATE_LIMITED"
  {
  }

  /** Which failures concern every row until somebody changes the configuration. */
  lemma SystemicExactly(code: string)
    ensures code in SYSTEMIC_PERMANENT_CODES <==>
              || code == "CONNECTOR_AUTH_DENIED" || code == "CONNECTOR_AUTH_UNAVAILABLE"
              || code == "CONNECTOR_NOT_REGISTERED" || code == "CONNECTOR_ENGINE_VERSION_NOT_ALLOWED"
              || code == "CONNECTOR_ENGINE_VERSION_MISMATCH" || code == "CONNECTOR_SCHEMA_VIOLATION"
              || code == "CONNECTOR_UNEXPECTED_REDIRECT" || code == "CONNECTOR_REQUEST_ID_MISMATCH"
  {
  }

  // ---- Circuit breaker -----------------------------------------------------------------

  datatype Breaker = Breaker(
    failures: int, openedAt: Option<Instant>, permanentCode: Option<string>, timesOpened: nat)

  const CLOSED := Breaker(0, None, None, 0)

  datatype Limits = Limits(threshold: int, cooldown: Instant)
  {
    predicate Valid() { threshold >= 1 && cooldown > 0.0 }
  }

  function Ask(b: Breaker, lim: Limits, now: Instant): (Breaker, bool) {
    if b.permanentCode.Some? then (b, false)
    else if b.openedAt.None? then (b, true)
    else if now - b.openedAt.value >= lim.cooldown then (b.(openedAt := None, failures := lim.threshold - 1), true)
    else (b, false)
  }

  function Succeed(b: Breaker): Breaker { b.(failures := 0, openedAt := None) }

  function Fail(b: Breaker, lim: Limits, code: string, permanent: bool, now: Instant): Breaker {
    if permanent || code in SYSTEMIC_PERMANENT_CODES then
      b.(permanentCode := Some(code), timesOpened := b.timesOpened + if b.permanentCode.None? then 1 else 0)
    else
      var counted := b.(failures := b.failures + 1);
      if counted.failures >= lim.threshold && counted.openedAt.None?
      then counted.(openedAt := Some(now), timesOpened := counted.timesOpened + 1)
      else counted
  }

  class CircuitBreaker {
    const limits: Limits
    var failures: int
    var openedAt: Option<Instant>
    var permanentCode: Option<string>
    var timesOpened: nat

    function View(): Breaker
      reads this
    {
      Breaker(failures, openedAt, permanentCode, timesOpened)
    }

    constructor (limits: Limits)
      ensures View() == CLOSED && this.limits == limits
    {
      this.limits := limits;
      failures, openedAt, permanentCode, timesOpened := 0, None, None, 0;
    }

    method Allow(now: Instant) returns (allowed: bool)
      modifies this
      ensures (View(), allowed) == Ask(old(View()), limits, now)
    {
      if permanentCode.Some? {
        return false;
      }
      if openedAt.None? {
        return true;
      }
      if now - openedAt.value >= limits.cooldown {
        openedAt := None;
        failures := limits.threshold - 1;
        return true;
      }
      return false;
    }

    method RecordSuccess()
      modifies this
      ensures View() == Succeed(old(View()))
    {
      failures := 0;
      openedAt := None;
    }

    method RecordFailure(code: string, permanent: bool, now: Instant)
      modifies this
      ensures View() == Fail(old(View()), limits, code, permanent, now)
    {
      if permanent || code in SYSTEMIC_PERMANENT_CODES {
        if permanentCode.None? {
          timesOpened := timesOpened + 1;
        }
        permanentCode := Some(code);
        return;
      }
      failures := failures + 1;
      if failures >= limits.threshold && openedAt.None? {
        openedAt := Some(now);
        timesOpened := timesOpened + 1;
      }
    }
  }

  // What concurrent requests may do to a breaker, in any order.

  datatype Event = Asked(at: Instant) | Succeeded(at: Instant) | FailedWith(code: string, permanent: bool, at: Instant)

  function React(b: Breaker, lim: Limits, e: Event): Breaker {
    match e
    case Asked(at) => Ask(b, lim, at).0
    case Succeeded(_) => Succeed(b)
    case FailedWith(code, permanent, at) => Fail(b, lim, code, permanent, at)
  }

  function After(b: Breaker, lim: Limits, events: seq<Event>): Breaker {
    if events == [] then b else React(After(b, lim, events[..|events| - 1]), lim, events[|events| - 1])
  }

  ghost predicate Chronological(events: seq<Event>, start: Instant, now: Instant) {
    if events == [] then start <= now
    else Chronological(events[..|events| - 1], start, events[|events| - 1].at) && events[|events| - 1].at <= now
  }

  function Successes(events: seq<Event>): nat {
    if events == [] then 0
    else Successes(events[..|events| - 1]) + if events[|events| - 1].Succeeded? then 1 else 0
  }

  predicate PassingFailure(e: Event) { e.FailedWith? && !e.permanent && e.code !in SYSTEMIC_PERMANENT_CODES }

  function FailuresSinceSuccess(events: seq<Event>): nat {
    if events == [] || events[|events| - 1].Succeeded? then 0
    else FailuresSinceSuccess(events[..|events| - 1])
         + if PassingFailure(events[|events| - 1]) then 1 else 0
  }

  /** Openings other than the one a permanent code may cause. */
  function Openings(b: Breaker): int { b.timesOpened - if b.permanentCode.Some? then 1 else 0 }

  /** Open exactly when the count of consecutive failures reaches the threshold,
      and only with that many failures since the last success. */
  lemma {:induction false} OpenExactlyAtThreshold(lim: Limits, events: seq<Event>)
    requires lim.Valid()
    ensures var b := After(CLOSED, lim, events);
            && (b.openedAt.Some? <==> b.failures >= lim.threshold)
            && 0 <= b.failures <= FailuresSinceSuccess(events)
            && (b.openedAt.Some? ==> FailuresSinceSuccess(events) >= lim.threshold)
  {
    if events != [] {
      OpenExactlyAtThreshold(lim, events[..|events| - 1]);
    }
  }

  /** From closed, nothing but passing failures opens the breaker once, with the
      failure that makes their number the threshold. */
  lemma {:induction false} OpensWithThresholdFailure(lim: Limits, events: seq<Event>)
    requires lim.Valid() && forall k | 0 <= k < |events| :: PassingFailure(events[k])
    ensures var b := After(CLOSED, lim, events);
            && b.failures == |events| && b.permanentCode == None
            && b.timesOpened == (if |events| < lim.threshold then 0 else 1)
            && b.openedAt == (if |events| < lim.threshold then None else Some(events[lim.threshold - 1].at))
  {
    if events != [] {
      OpensWithThresholdFailure(lim, events[..|events| - 1]);
    }
  }

  /** After any events a success closes the breaker, unless a permanent code
      stands; and a permanent failure puts its own code on record, counting one
      opening when it is the first. */
  lemma LastEventDecides(b: Breaker, lim: Limits, events: seq<Event>, code: string, permanent: bool, at: Instant)
    requires lim.Valid()
    ensures var (before, after) := (After(b, lim, events), After(b, lim, events + [Succeeded(at)]));
            && (Ask(after, lim, at).1 <==> before.permanentCode.None?)
            && after.failures == 0 && after.timesOpened == before.timesOpened
            && after.permanentCode == before.permanentCode
    ensures var (before, after) := (After(b, lim, events), After(b, lim, events + [FailedWith(code, permanent, at)]));
            if permanent || code in SYSTEMIC_PERMANENT_CODES
            then
              && after.permanentCode == Some(code)
              && after.timesOpened == before.timesOpened + (if before.permanentCode.None? then 1 else 0)
            else after.permanentCode == before.permanentCode
  {
    assert (events + [Succeeded(at)])[..|events|] == events;
    assert (events + [FailedWith(code, permanent, at)])[..|events|] == events;
  }

  lemma MoveBy(x: int, c: Instant)
    ensures (x + 1) as real * c == x as real * c + c
  {
  }

  /** `n` times an amount by repeated addition, owed when `n` is negative. */
  ghost function Times(n: int, cooldown: Instant): Instant
    decreases if n < 0 then -n else n
  {
    if n == 0 then 0.0 else if n > 0 then Times(n - 1, cooldown) + cooldown else Times(n + 1, cooldown) - cooldown
  }

  lemma {:induction false} TimesMultiplies(n: int, cooldown: Instant)
    ensures Times(n, cooldown) == n as real * cooldown
    decreases if n < 0 then -n else n
  {
    if n > 0 {
      TimesMultiplies(n - 1, cooldown);
      MoveBy(n - 1, cooldown);
    } else if n < 0 {
      TimesMultiplies(n + 1, cooldown);
      MoveBy(n, cooldown);
    }
  }

  /** Each opening after the first is paid for by a success or a full cooldown. */
  ghost predicate PaidFor(b: Breaker, successes: nat, cooldown: Instant, start: Instant, now: Instant) {
    var paid := Openings(b) - successes;
    && start <= now
    && (if b.openedAt.Some?
        then start <= b.openedAt.value <= now && Times(paid - 1, cooldown) <= b.openedAt.value - start
        else Times(paid, cooldown) <= now - start)
  }

  lemma ReactPays(b: Breaker, lim: Limits, successes: nat, start: Instant, e: Event)
    requires lim.Valid() && PaidFor(b, successes, lim.cooldown, start, e.at)
    ensures PaidFor(React(b, lim, e), successes + if e.Succeeded? then 1 else 0, lim.cooldown, start, e.at)
  {
    var paid := Openings(b) - successes;
    assert Times(paid, lim.cooldown) == Times(paid - 1, lim.cooldown) + lim.cooldown;
    assert Times(paid - 1, lim.cooldown) == Times(paid - 2, lim.cooldown) + lim.cooldown;
  }

  lemma {:induction false} OpeningsPaidFor(lim: Limits, events: seq<Event>, start: Instant, now: Instant)
    requires lim.Valid() && Chronological(events, start, now)
    ensures PaidFor(After(CLOSED, lim, events), Successes(events), lim.cooldown, start, now)
  {
    if events != [] {
      var (before, e) := (events[..|events| - 1], events[|events| - 1]);
      OpeningsPaidFor(lim, before, start, e.at);
      ReactPays(After(CLOSED, lim, before), lim, Successes(before), start, e);
    }
  }

  /** Over any events on a monotone clock, the breaker opens at most once more
      than there were successes and elapsed cooldowns. */
  lemma OpeningsAreBounded(lim: Limits, events: seq<Event>, start: Instant, now: Instant)
    requires lim.Valid() && Chronological(events, start, now)
    ensures Openings(After(CLOSED, lim, events)) as real
         <= 1.0 + Successes(events) as real + (now - start) / lim.cooldown
  {
    OpeningsPaidFor(lim, events, start, now);
    var (o, s) := (Openings(After(CLOSED, lim, events)), Successes(events));
    assert Times(o - s, lim.cooldown) == Times(o - s - 1, lim.cooldown) + lim.cooldown;
    CountByCooldowns(o, s, lim.cooldown, now - start);
  }

  lemma CountByCooldowns(openings: int, successes: int, cooldown: Instant, elapsed: Instant)
    requires cooldown > 0.0 && Times(openings - successes - 1, cooldown) <= elapsed
    ensures openings as real <= 1.0 + successes as real + elapsed / cooldown
  {
    TimesMultiplies(openings - successes - 1, cooldown);
    DivideBy((openings - successes - 1) as real, cooldown, elapsed);
  }

  lemma DivideBy(x: real, c: real, y: real)
    requires c > 0.0 && x * c <= y
    ensures x <= y / c
  {
    var d := y / c;
    assert d * c == y;
    assert (d - x) * c >= 0.0;
  }

  /** After a permanent code nothing is allowed again. */
  lemma {:induction false} PermanentIsForever(b: Breaker, lim: Limits, events: seq<Event>, now: Instant)
    requires b.permanentCode.Some?
    ensures After(b, lim, events).permanentCode.Some? && !Ask(After(b, lim, events), lim, now).1
  {
    if events != [] {
      PermanentIsForever(b, lim, events[..|events| - 1], now);
    }
  }

  /** While the cooldown runs and nothing succeeds, an open breaker refuses every call. */
  lemma {:induction false} FailsFastWhileCooling(b: Breaker, lim: Limits, events: seq<Event>, now: Instant)
    requires b.openedAt.Some? && now < b.openedAt.value + lim.cooldown
    requires forall k | 0 <= k < |events| :: !events[k].Succeeded? && events[k].at <= now
    ensures After(b, lim, events).openedAt == b.openedAt && !Ask(After(b, lim, events), lim, now).1
  {
    if events != [] {
      FailsFastWhileCooling(b, lim, events[..|events| - 1], now);
    }
  }

  // Half-open.

  /** What an allowed call leaves of an open breaker once its cooldown is over. */
  predicate HalfOpen(b: Breaker, lim: Limits) {
    b.permanentCode.None? && b.openedAt.None? && b.failures == lim.threshold - 1
  }

  /** No call has succeeded since the trial, and no cooldown has passed since. */
  ghost predicate WithinTrial(lim: Limits, events: seq<Event>, now: Instant) {
    forall k | 0 <= k < |events| :: !events[k].Succeeded? && events[k].at <= now < events[k].at + lim.cooldown
  }

  ghost predicate SomeFailed(events: seq<Event>) {
    exists k :: 0 <= k < |events| && events[k].FailedWith?
  }

  lemma {:induction false} TrialState(half: Breaker, lim: Limits, events: seq<Event>, now: Instant)
    requires lim.Valid() && HalfOpen(half, lim) && WithinTrial(lim, events, now)
    ensures var b := After(half, lim, events);
            if SomeFailed(events) then b.permanentCode.Some? || (b.openedAt.Some? && now < b.openedAt.value + lim.cooldown)
            else b == half
  {
    if events != [] {
      var (before, e) := (events[..|events| - 1], events[|events| - 1]);
      assert WithinTrial(lim, before, now);
      TrialState(half, lim, before, now);
      if SomeFailed(before) {
        var k :| 0 <= k < |before| && before[k].FailedWith?;
        assert events[k].FailedWith?;
      }
    }
  }

  /** Half-open is not one trial call: until a call fails every call is allowed,
      and from then on, for the rest of the cooldown, none is. */
  lemma HalfOpenUntilNextFailure(half: Breaker, lim: Limits, events: seq<Event>, now: Instant)
    requires lim.Valid() && HalfOpen(half, lim) && WithinTrial(lim, events, now)
    ensures Ask(After(half, lim, events), lim, now).1 <==> forall k | 0 <= k < |events| :: !events[k].FailedWith?
  {
    TrialState(half, lim, events, now);
  }

  /** How many of the calls that ask are let through. */
  function Admitted(b: Breaker, lim: Limits, events: seq<Event>): nat {
    if events == [] then 0
    else
      var (before, e) := (events[..|events| - 1], events[|events| - 1]);
      Admitted(b, lim, before) + if e.Asked? && Ask(After(b, lim, before), lim, e.at).1 then 1 else 0
  }

  /** No call asks before one has failed. */
  ghost predicate AsksOnlyAfterFailure(events: seq<Event>) {
    forall k | 0 <= k < |events| && events[k].Asked? :: SomeFailed(events[..k])
  }

  /** The events come in order within one cooldown, and none is a success. */
  ghost predicate OneTrial(lim: Limits, events: seq<Event>) {
    forall k | 0 <= k < |events| :: WithinTrial(lim, events[..k], events[k].at)
  }

  lemma {:induction false} AdmittedBeyondTrial(half: Breaker, lim: Limits, events: seq<Event>)
    requires lim.Valid() && HalfOpen(half, lim) && OneTrial(lim, events)
    ensures Admitted(half, lim, events) == 0 <==> AsksOnlyAfterFailure(events)
  {
    if events != [] {
      var n := |events| - 1;
      assert forall k | 0 <= k < n :: events[..n][..k] == events[..k];
      assert OneTrial(lim, events[..n]);
      AdmittedBeyondTrial(half, lim, events[..n]);
      TrialState(half, lim, events[..n], events[n].at);
    }
  }

  /** So of an open breaker whose cooldown is over, a single trial is let
      through exactly when no other call asks before one has failed. */
  lemma SingleTrialExactlyWhen(b: Breaker, lim: Limits, at: Instant, events: seq<Event>)
    requires lim.Valid() && b.permanentCode.None? && b.openedAt.Some? && at - b.openedAt.value >= lim.cooldown
    requires OneTrial(lim, events)
    ensures Admitted(b, lim, [Asked(at)] + events) == 1 <==> AsksOnlyAfterFailure(events)
  {
    var half := Ask(b, lim, at).0;
    AdmittedBeyondTrial(half, lim, events);
    AdmittedAfterFirst(b, lim, at, events);
  }

  lemma {:induction false} AdmittedAfterFirst(b: Breaker, lim: Limits, at: Instant, events: seq<Event>)
    requires Ask(b, lim, at).1
    ensures After(b, lim, [Asked(at)] + events) == After(Ask(b, lim, at).0, lim, events)
    ensures Admitted(b, lim, [Asked(at)] + events) == 1 + Admitted(Ask(b, lim, at).0, lim, events)
  {
    var all := [Asked(at)] + events;
    if events == [] {
      assert all == [Asked(at)] && all[..0] == [];
    } else {
      var n := |events| - 1;
      AdmittedAfterFirst(b, lim, at, events[..n]);
      assert all[..|all| - 1] == [Asked(at)] + events[..n];
    }
  }

  // ---- Pacer ---------------------------------------------------------------------------

  function MaxOf(a: Instant, b: Instant): Instant { if a < b then b else a }

  function IntervalFor(qps: real): Instant { if qps > 0.0 then 1.0 / qps else 0.0 }

  class AsyncPacer {
    const interval: Instant
    var nextSlot: Instant
    // History: when each caller so far was let through.
    ghost var starts: seq<Instant>

    ghost predicate Valid()
      reads this
    {
      && Spaced(starts, interval)
      && (starts != [] && interval > 0.0 ==> nextSlot == starts[|starts| - 1] + interval)
    }

    constructor (qps: real)
      ensures Valid() && interval == IntervalFor(qps) && starts == [] && nextSlot == 0.0
      ensures if qps > 0.0 then interval * qps == 1.0 else interval == 0.0
    {
      interval := if qps > 0.0 then 1.0 / qps else 0.0;
      nextSlot := 0.0;
      starts := [];
    }

    /** Reserves the next slot; the caller starts at once or sleeps until then.
        Callers may reach the lock in any order of their clocks. */
    method Acquire(now: Instant) returns (start: Instant)
      requires Valid()
      modifies this
      ensures Valid() && starts == old(starts) + [start] && start >= now
      ensures interval <= 0.0 ==> start == now && nextSlot == old(nextSlot)
      ensures interval > 0.0 ==> start == MaxOf(now, old(nextSlot)) && nextSlot == start + interval
    {
      if interval <= 0.0 {
        starts := starts + [now];
        return now;
      }
      var wait := nextSlot - now;
      nextSlot := MaxOf(now, nextSlot) + interval;
      start := if wait > 0.0 then now + wait else now;
      starts := starts + [start];
    }
  }

  /** Each start is at least one interval after the one before. */
  ghost predicate Spaced(starts: seq<Instant>, interval: Instant) {
    interval > 0.0 ==> forall k | 0 <= k < |starts| - 1 :: starts[k] + interval <= starts[k + 1]
  }

  /** The k-th start after a given one is at least k intervals later. */
  lemma {:induction false} StartsApart(starts: seq<Instant>, interval: Instant, i: nat, k: nat)
    requires Spaced(starts, interval) && interval > 0.0 && i + k < |starts|
    ensures starts[i] + k as real * interval <= starts[i + k]
  {
    if k > 0 {
      StartsApart(starts, interval, i, k - 1);
      MoveBy(k - 1, interval);
    }
  }

  function StartsWithin(starts: seq<Instant>, lo: Instant, hi: Instant): nat {
    if starts == [] then 0
    else StartsWithin(starts[..|starts| - 1], lo, hi) + if lo <= starts[|starts| - 1] <= hi then 1 else 0
  }

  /** The last start in the window lies at least `count - 1` intervals past its left edge. */
  lemma {:induction false} LastStartWithin(starts: seq<Instant>, interval: Instant, lo: Instant, hi: Instant)
    requires Spaced(starts, interval) && interval > 0.0
    ensures var count := StartsWithin(starts, lo, hi);
            count > 0 ==>
              Times(count - 1, interval) <= hi - lo && lo + Times(count - 1, interval) <= starts[|starts| - 1]
  {
    if starts != [] {
      LastStartWithin(starts[..|starts| - 1], interval, lo, hi);
    }
  }

  function PerBatchQps(maxQps: real, maxInflight: nat): real
    requires maxInflight > 0
  {
    maxQps / maxInflight as real
  }

  lemma Scale(x: real, c: real, y: real, q: real)
    requires q > 0.0 && c * q == 1.0 && x * c <= y
    ensures x <= y * q
  {
    assert x == x * (c * q) == (x * c) * q;
  }

  /** A window of length W holds at most W / interval + 1 starts of one pacer. */
  lemma WindowHoldsFewStarts(starts: seq<Instant>, qps: real, lo: Instant, window: Instant)
    requires qps > 0.0 && Spaced(starts, IntervalFor(qps)) && window >= 0.0
    ensures StartsWithin(starts, lo, lo + window) as real <= window * qps + 1.0
  {
    var interval := IntervalFor(qps);
    assert interval * qps == 1.0 && interval > 0.0;
    var count := StartsWithin(starts, lo, lo + window);
    LastStartWithin(starts, interval, lo, lo + window);
    if count > 0 {
      TimesMultiplies(count - 1, interval);
      Scale((count - 1) as real, interval, window, qps);
    }
  }

  ghost function TotalWithin(pacers: seq<seq<Instant>>, lo: Instant, hi: Instant): nat {
    if pacers == [] then 0
    else TotalWithin(pacers[..|pacers| - 1], lo, hi) + StartsWithin(pacers[|pacers| - 1], lo, hi)
  }

  lemma {:induction false} EachAddsAtMost(pacers: seq<seq<Instant>>, lo: Instant, hi: Instant, each: real)
    requires forall k | 0 <= k < |pacers| :: StartsWithin(pacers[k], lo, hi) as real <= each
    ensures TotalWithin(pacers, lo, hi) as real <= Times(|pacers|, each)
  {
    if pacers != [] {
      EachAddsAtMost(pacers[..|pacers| - 1], lo, hi, each);
    }
  }

  lemma QpsIsShared(maxQps: real, maxInflight: nat)
    requires maxQps > 0.0 && maxInflight > 0
    ensures PerBatchQps(maxQps, maxInflight) > 0.0
    ensures maxInflight as real * PerBatchQps(maxQps, maxInflight) == maxQps
  {
  }

  /** The pacers of all batches in flight together keep to the configured rate:
      in any window they start at most `maxQps * window + maxInflight` requests. */
  lemma BatchesShareTheRate(
      pacers: seq<seq<Instant>>, maxQps: real, maxInflight: nat, lo: Instant, window: Instant)
    requires maxQps > 0.0 && |pacers| <= maxInflight && maxInflight > 0 && window >= 0.0
    requires forall k | 0 <= k < |pacers| :: Spaced(pacers[k], IntervalFor(PerBatchQps(maxQps, maxInflight)))
    ensures TotalWithin(pacers, lo, lo + window) as real <= maxQps * window + maxInflight as real
  {
    QpsIsShared(maxQps, maxInflight);
    SharedRate(pacers, PerBatchQps(maxQps, maxInflight), maxQps, maxInflight, lo, window);
  }

  lemma SharedRate(pacers: seq<seq<Instant>>, qps: real, maxQps: real, m: nat, lo: Instant, window: Instant)
    requires qps > 0.0 && window >= 0.0 && |pacers| <= m && m as real * qps == maxQps
    requires forall k | 0 <= k < |pacers| :: Spaced(pacers[k], IntervalFor(qps))
    ensures TotalWithin(pacers, lo, lo + window) as real <= maxQps * window + m as real
  {
    WindowTotal(pacers, qps, lo, window);
    ShareOf(|pacers|, m, qps, window, maxQps);
  }

  lemma WindowTotal(pacers: seq<seq<Instant>>, qps: real, lo: Instant, window: Instant)
    requires qps > 0.0 && window >= 0.0 && forall k | 0 <= k < |pacers| :: Spaced(pacers[k], IntervalFor(qps))
    ensures TotalWithin(pacers, lo, lo + window) as real <= Times(|pacers|, window * qps + 1.0)
  {
    forall k | 0 <= k < |pacers| ensures StartsWithin(pacers[k], lo, lo + window) as real <= window * qps + 1.0 {
      WindowHoldsFewStarts(pacers[k], qps, lo, window);
    }
    EachAddsAtMost(pacers, lo, lo + window, window * qps + 1.0);
  }

  lemma ShareOf(n: nat, m: nat, q: real, window: real, maxQps: real)
    requires n <= m && q > 0.0 && window >= 0.0 && m as real * q == maxQps
    ensures Times(n, window * q + 1.0) <= maxQps * window + m as real
  {
    var each := window * q + 1.0;
    TimesMultiplies(n, each);
    assert each >= 0.0;
    assert (m as real - n as real) * each >= 0.0;
    assert m as real * each == (m as real * q) * window + m as real;
  }
}
