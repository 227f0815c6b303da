/**
 Delivery policies and retry schedules (internal/delivery/policy.go). Durations are in
 nanoseconds; integers are unbounded, so the overflow of absurdly large delays is not modelled.
 */
module Delivery {
  import opened Common
  import opened Json

  const SECOND := 1_000_000_000

  datatype RetryPolicy = RetryPolicy(
    minDelayTarget: int, maxDelayTarget: int, numRetries: int, numNoDelayRetries: int,
    numMinDelayRetries: int, numMaxDelayRetries: int, backoffFunction: string)

  datatype SubscriptionPolicy = SubscriptionPolicy(
    retry: RetryPolicy, maxReceivesPerSecond: int, headerContentType: string)

  datatype TopicPolicy = TopicPolicy(policy: SubscriptionPolicy, disableSubscriptionOverrides: bool)

  const DEFAULT_RETRY := RetryPolicy(20, 20, 3, 0, 0, 0, "linear")
  const DEFAULT_POLICY := SubscriptionPolicy(DEFAULT_RETRY, 0, "text/plain; charset=UTF-8")

  // ---- Merging ----------------------------------------------------------------------------------

  predicate HasCounts(r: RetryPolicy) {
    r.numRetries != 0 || r.numNoDelayRetries != 0 || r.numMinDelayRetries != 0 || r.numMaxDelayRetries != 0
  }

  function MergeRetryPolicy(base: RetryPolicy, override: RetryPolicy): RetryPolicy {
    var counts := if HasCounts(override) then override else base;
    var min := if override.minDelayTarget != 0 then override.minDelayTarget else base.minDelayTarget;
    var max := if override.maxDelayTarget != 0 then override.maxDelayTarget else base.maxDelayTarget;
    var backoff := if override.backoffFunction != "" then override.backoffFunction else base.backoffFunction;
    var min' := if min == 0 then 20 else min;
    RetryPolicy(min', if max == 0 then min' else max,
      counts.numRetries, counts.numNoDelayRetries, counts.numMinDelayRetries, counts.numMaxDelayRetries,
      if backoff == "" then "linear" else backoff)
  }

  /** The three merges of `mergeDefaults` and of each layer of `EffectivePolicy`. */
  function Merge(base: SubscriptionPolicy, override: SubscriptionPolicy): SubscriptionPolicy {
    SubscriptionPolicy(
      MergeRetryPolicy(base.retry, override.retry),
      if override.maxReceivesPerSecond != 0 then override.maxReceivesPerSecond else base.maxReceivesPerSecond,
      if override.headerContentType != "" then override.headerContentType else base.headerContentType)
  }

  function ParseTopicPolicy(raw: Text<TopicPolicy>): Option<TopicPolicy> {
    match raw
    case Blank => Some(TopicPolicy(SubscriptionPolicy(DEFAULT_RETRY, 0, DEFAULT_POLICY.headerContentType), false))
    case Malformed => None
    case Parsed(t) => Some(t)
  }

  function ParseSubscriptionPolicy(raw: Text<SubscriptionPolicy>): Option<SubscriptionPolicy> {
    match raw
    case Blank => Some(DEFAULT_POLICY)
    case Malformed => None
    case Parsed(s) => Some(Merge(DEFAULT_POLICY, s))
  }

  /** The policy in force for a subscription; it is stored again as JSON text. */
  function EffectivePolicy(topicRaw: Text<TopicPolicy>, subRaw: Text<SubscriptionPolicy>): Option<SubscriptionPolicy> {
    var topic := ParseTopicPolicy(topicRaw);
    if topic.None? then None
    else
      var base := Merge(DEFAULT_POLICY, topic.value.policy);
      if topic.value.disableSubscriptionOverrides || subRaw.Blank? then Some(base)
      else
        var sub := ParseSubscriptionPolicy(subRaw);
        if sub.None? then None else Some(Merge(base, sub.value))
  }

  /** A policy with nothing left for a default to fill in. */
  predicate Complete(s: SubscriptionPolicy) {
    && s.retry.minDelayTarget != 0 && s.retry.maxDelayTarget != 0
    && HasCounts(s.retry) && s.retry.backoffFunction != "" && s.headerContentType != ""
  }

  lemma MergeIsComplete(base: SubscriptionPolicy, override: SubscriptionPolicy)
    requires Complete(base)
    ensures Complete(Merge(base, override))
  {
  }

  /**
   The stored effective policy is a fixed point of the parser that the delivery worker applies
   to it, so the worker retries on the schedule computed when the job was enqueued.
   */
  lemma EffectivePolicyIsFixedPoint(topicRaw: Text<TopicPolicy>, subRaw: Text<SubscriptionPolicy>)
    requires EffectivePolicy(topicRaw, subRaw).Some?
    ensures var effective := EffectivePolicy(topicRaw, subRaw).value;
      ParseSubscriptionPolicy(Parsed(effective)) == Some(effective)
  {
    var topic := ParseTopicPolicy(topicRaw).value;
    var base := Merge(DEFAULT_POLICY, topic.policy);
    MergeIsComplete(DEFAULT_POLICY, topic.policy);
    var sub := ParseSubscriptionPolicy(subRaw);
    if sub.Some? {
      MergeIsComplete(base, sub.value);
    }
  }

  // ---- Retry schedules -----------------------------------------------------------------------------

  function Pow2(n: nat): nat { if n == 0 then 1 else 2 * Pow2(n - 1) }

  function Max(a: int, b: int): int { if a < b then b else a }

  function Min(a: int, b: int): int { if a < b then a else b }

  /** The delay, in seconds, of retry `attempt` of `total` backoff retries, in closed form. */
  function BackoffSpec(r: RetryPolicy, attempt: nat, total: nat): int {
    if total <= 1 then r.minDelayTarget
    else if r.backoffFunction == "arithmetic" || r.backoffFunction == "linear" then
      r.minDelayTarget + (r.maxDelayTarget - r.minDelayTarget) * attempt / (total - 1)
    else if r.backoffFunction == "geometric" then
      if attempt == 0 then r.minDelayTarget else Min(r.maxDelayTarget, r.minDelayTarget * (attempt + 1))
    else if r.backoffFunction == "exponential" then
      if attempt == 0 then r.minDelayTarget else Min(r.maxDelayTarget, r.minDelayTarget * Pow2(attempt))
    else r.minDelayTarget
  }

  lemma FloorOfSum(a: int, b: nat, c: nat)
    requires c > 0
    ensures (a as real + (b as real) / (c as real)).Floor == a + b / c
  {
    var q, m := b / c, b % c;
    assert b == q * c + m;
    assert (b as real) / (c as real) == q as real + (m as real) / (c as real);
    assert 0.0 <= (m as real) / (c as real) < 1.0;
  }

  /** The exponential loop, which stops as soon as the maximum is reached. */
  method ExponentialDelay(min: nat, max: nat, attempt: nat) returns (d: int)
    requires 0 < min <= max
    ensures d == if attempt == 0 then min else Min(max, min * Pow2(attempt))
  {
    var value := min;
    for i := 0 to attempt
      invariant value == min * Pow2(i)
      invariant i > 0 ==> value < max
    {
      value := value * 2;
      if value >= max {
        Pow2Monotone(i + 1, attempt);
        MulMonotone(min, Pow2(i + 1), Pow2(attempt));
        return max;
      }
    }
    return value;
  }

  lemma MulMonotone(a: nat, x: int, y: int)
    requires x <= y
    ensures a * x <= a * y
  {
  }

  lemma LinearFloor(min: int, spread: nat, attempt: nat, n: nat)
    requires n > 0
    ensures (min as real + (spread as real / n as real) * attempt as real).Floor == min + spread * attempt / n
  {
    assert (spread as real / n as real) * attempt as real == (spread * attempt) as real / n as real;
    FloorOfSum(min, spread * attempt, n);
  }

  /** `backoffDelay`, the linear case through a fractional step that is floored at the end. */
  method BackoffDelay(r: RetryPolicy, attempt: nat, total: nat) returns (d: int)
    requires 0 < r.minDelayTarget <= r.maxDelayTarget && attempt < total
    ensures d == BackoffSpec(r, attempt, total)
  {
    if total <= 1 {
      return r.minDelayTarget;
    }
    match r.backoffFunction
    case "arithmetic" | "linear" =>
      var step := (r.maxDelayTarget - r.minDelayTarget) as real / (total - 1) as real;
      LinearFloor(r.minDelayTarget, r.maxDelayTarget - r.minDelayTarget, attempt, total - 1);
      return (r.minDelayTarget as real + step * attempt as real).Floor;
    case "geometric" =>
      if attempt == 0 {
        return r.minDelayTarget;
      }
      var value := r.minDelayTarget * (attempt + 1);
      return if value > r.maxDelayTarget then r.maxDelayTarget else value;
    case "exponential" =>
      d := ExponentialDelay(r.minDelayTarget, r.maxDelayTarget, attempt);
    case _ =>
      return r.minDelayTarget;
  }

  lemma {:induction false} Pow2Monotone(i: nat, j: nat)
    requires i <= j
    ensures Pow2(i) <= Pow2(j)
  {
    if i < j {
      Pow2Monotone(i, j - 1);
    }
  }

  function Repeat(n: int, d: int): seq<int> {
    seq(Max(n, 0), _ => d)
  }

  lemma RepeatSnoc(n: nat, d: int)
    ensures Repeat(n + 1, d) == Repeat(n, d) + [d]
  {
  }

  function BackoffRetries(r: RetryPolicy): nat {
    Max(r.numRetries - r.numNoDelayRetries - r.numMinDelayRetries - r.numMaxDelayRetries, 0)
  }

  function BackoffPhase(r: RetryPolicy): seq<int> {
    seq(BackoffRetries(r), i requires 0 <= i => BackoffSpec(r, i, BackoffRetries(r)) * SECOND)
  }

  lemma BackoffSnoc(r: RetryPolicy, k: nat)
    requires k < BackoffRetries(r)
    ensures BackoffPhase(r)[..k + 1] == BackoffPhase(r)[..k] + [BackoffSpec(r, k, BackoffRetries(r)) * SECOND]
  {
  }

  predicate Accepted(r: RetryPolicy) {
    0 <= r.numRetries <= 100 && 0 < r.minDelayTarget <= r.maxDelayTarget
  }

  /** The schedule of an accepted policy: no delay, minimum delay, backoff, maximum delay. */
  function Schedule(r: RetryPolicy): seq<int> {
    Repeat(r.numNoDelayRetries, 0) + Repeat(r.numMinDelayRetries, r.minDelayTarget * SECOND) +
    BackoffPhase(r) + Repeat(r.numMaxDelayRetries, r.maxDelayTarget * SECOND)
  }

  function RetryDelaysSpec(r: RetryPolicy): Result<seq<int>, string> {
    if !(0 <= r.numRetries <= 100) then Err("numRetries must be between 0 and 100")
    else if !Accepted(r) then Err("invalid delay configuration")
    else Ok(Schedule(r))
  }

  /** `RetryDelays`, appending to one slice in four loops: no delay, the minimum, backoff, the maximum. */
  method RetryDelays(policy: SubscriptionPolicy) returns (delays: Result<seq<int>, string>)
    ensures delays == RetryDelaysSpec(policy.retry)
  {
    var r := policy.retry;
    if r.numRetries < 0 || r.numRetries > 100 {
      return Err("numRetries must be between 0 and 100");
    }
    if r.minDelayTarget <= 0 || r.maxDelayTarget <= 0 || r.minDelayTarget > r.maxDelayTarget {
      return Err("invalid delay configuration");
    }
    var backoffRetries := Max(r.numRetries - r.numNoDelayRetries - r.numMinDelayRetries - r.numMaxDelayRetries, 0);
    var out := AppendRepeated([], r.numNoDelayRetries, 0);
    out := AppendRepeated(out, r.numMinDelayRetries, r.minDelayTarget * SECOND);
    ghost var fixed := out;
    assert fixed == Repeat(r.numNoDelayRetries, 0) + Repeat(r.numMinDelayRetries, r.minDelayTarget * SECOND);
    for k := 0 to backoffRetries
      invariant out == fixed + BackoffPhase(r)[..k]
    {
      var d := BackoffDelay(r, k, backoffRetries);
      BackoffSnoc(r, k);
      out := out + [d * SECOND];
    }
    assert BackoffPhase(r)[..backoffRetries] == BackoffPhase(r);
    out := AppendRepeated(out, r.numMaxDelayRetries, r.maxDelayTarget * SECOND);
    return Ok(out);
  }

  /** The loop of the three phases with a fixed delay. */
  method AppendRepeated(delays: seq<int>, count: int, delay: int) returns (out: seq<int>)
    ensures out == delays + Repeat(count, delay)
  {
    out := delays;
    for i := 0 to Max(count, 0)
      invariant out == delays + Repeat(i, delay)
    {
      RepeatSnoc(i, delay);
      out := out + [delay];
    }
    assert Repeat(Max(count, 0), delay) == Repeat(count, delay);
  }

  // ---- The shape of a schedule -----------------------------------------------------------------------

  lemma TimesMonotone(a: nat, b: nat, c: nat)
    requires a <= b
    ensures a * c <= b * c && c * a <= c * b
  {
  }

  lemma AtLeastOnce(a: nat, b: nat)
    requires b >= 1
    ensures a <= a * b
  {
    TimesMonotone(1, b, a);
  }

  lemma DivMonotone(x: nat, y: nat, c: nat)
    requires c > 0 && x <= y
    ensures x / c <= y / c
  {
    var p, q := x / c, y / c;
    assert x == p * c + x % c && y == q * c + y % c;
    if p > q {
      TimesMonotone(q + 1, p, c);
    }
  }

  lemma StepMonotone(spread: nat, i: nat, j: nat, n: nat)
    requires i <= j && n > 0
    ensures 0 <= spread * i / n <= spread * j / n
  {
    TimesMonotone(i, j, spread);
    DivMonotone(0, spread * i, n);
    DivMonotone(spread * i, spread * j, n);
  }

  lemma StepWithin(spread: nat, i: nat, n: nat)
    requires i <= n && n > 0
    ensures 0 <= spread * i / n <= spread
  {
    StepMonotone(spread, i, n, n);
  }

  lemma BackoffWithin(r: RetryPolicy, attempt: nat, total: nat)
    requires Accepted(r) && attempt < total
    ensures r.minDelayTarget <= BackoffSpec(r, attempt, total) <= r.maxDelayTarget
  {
    if total > 1 {
      StepWithin(r.maxDelayTarget - r.minDelayTarget, attempt, total - 1);
      AtLeastOnce(r.minDelayTarget, attempt + 1);
      Pow2Monotone(0, attempt);
      AtLeastOnce(r.minDelayTarget, Pow2(attempt));
    }
  }

  lemma BackoffMonotone(r: RetryPolicy, i: nat, j: nat, total: nat)
    requires Accepted(r) && i <= j < total
    ensures BackoffSpec(r, i, total) <= BackoffSpec(r, j, total)
  {
    if i == 0 {
      BackoffWithin(r, j, total);
    }
    if total > 1 {
      StepMonotone(r.maxDelayTarget - r.minDelayTarget, i, j, total - 1);
      TimesMonotone(i + 1, j + 1, r.minDelayTarget);
      Pow2Monotone(i, j);
      TimesMonotone(Pow2(i), Pow2(j), r.minDelayTarget);
    }
  }

  /** The `i`th delay, by the phase it falls in. */
  function DelayAt(r: RetryPolicy, i: nat): int {
    var a := Max(r.numNoDelayRetries, 0);
    var b := a + Max(r.numMinDelayRetries, 0);
    if i < a then 0
    else if i < b then r.minDelayTarget
    else if i < b + BackoffRetries(r) then BackoffSpec(r, i - b, BackoffRetries(r))
    else r.maxDelayTarget
  }

  lemma ScheduleAt(r: RetryPolicy, i: nat)
    requires i < |Schedule(r)|
    ensures Schedule(r)[i] == DelayAt(r, i) * SECOND
  {
    hide BackoffSpec;
  }

  lemma DelaysGrow(r: RetryPolicy, i: nat, j: nat)
    requires Accepted(r) && i <= j
    ensures DelayAt(r, i) <= DelayAt(r, j)
    ensures DelayAt(r, i) == 0 || r.minDelayTarget <= DelayAt(r, i) <= r.maxDelayTarget
  {
    hide BackoffSpec;
    var b := Max(r.numNoDelayRetries, 0) + Max(r.numMinDelayRetries, 0);
    var n := BackoffRetries(r);
    if b <= i < b + n {
      BackoffWithin(r, i - b, n);
    }
    if b <= j < b + n {
      BackoffWithin(r, j - b, n);
      if b <= i {
        BackoffMonotone(r, i - b, j - b, n);
      }
    }
  }

  /** Every accepted schedule is nondecreasing, and each entry is 0 or between the two targets. */
  lemma ScheduleShape(r: RetryPolicy, i: nat, j: nat)
    requires Accepted(r) && i <= j < |Schedule(r)|
    ensures Schedule(r)[i] <= Schedule(r)[j]
    ensures Schedule(r)[i] == 0 || r.minDelayTarget * SECOND <= Schedule(r)[i] <= r.maxDelayTarget * SECOND
  {
    hide Schedule, DelayAt;
    ScheduleAt(r, i);
    ScheduleAt(r, j);
    DelaysGrow(r, i, j);
  }

  /** With nonnegative counts the number of retries is the larger of the total and the fixed phases. */
  lemma ScheduleLength(r: RetryPolicy)
    requires r.numNoDelayRetries >= 0 && r.numMinDelayRetries >= 0 && r.numMaxDelayRetries >= 0
    ensures |Schedule(r)| == Max(r.numRetries, r.numNoDelayRetries + r.numMinDelayRetries + r.numMaxDelayRetries)
  {
    assert |BackoffPhase(r)| == BackoffRetries(r);
  }
}
