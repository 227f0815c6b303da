/**
 What delivery policies come to (internal/delivery/policy.go), told from the fields that are set: which
 policy is in force, when it has a schedule, and what the delays are.
 */
module RetryPolicies {
  import opened Common
  import opened Json
  import opened Delivery

  // ---- The policy in force -------------------------------------------------------------------------------------

  function OrElse(a: int, b: int): int { if a != 0 then a else b }

  function OrText(a: string, b: string): string { if a != "" then a else b }

  /** A policy with the defaults for what it does not set; the four counts are set together. */
  function Filled(s: SubscriptionPolicy): SubscriptionPolicy {
    var r := s.retry;
    var counted := r.numRetries != 0 || r.numNoDelayRetries != 0 || r.numMinDelayRetries != 0
      || r.numMaxDelayRetries != 0;
    SubscriptionPolicy(
      RetryPolicy(OrElse(r.minDelayTarget, 20), OrElse(r.maxDelayTarget, 20), if counted then r.numRetries else 3,
        r.numNoDelayRetries, r.numMinDelayRetries, r.numMaxDelayRetries, OrText(r.backoffFunction, "linear")),
      s.maxReceivesPerSecond, OrText(s.headerContentType, "text/plain; charset=UTF-8"))
  }

  /** Where neither sets anything, the defaults; where only one does, that one's settings over the defaults. */
  lemma OneLayer(s: SubscriptionPolicy, disabled: bool)
    ensures EffectivePolicy(Blank, Blank) ==
      Some(SubscriptionPolicy(RetryPolicy(20, 20, 3, 0, 0, 0, "linear"), 0, "text/plain; charset=UTF-8"))
    ensures EffectivePolicy(Blank, Parsed(s)) == Some(Filled(s))
    ensures EffectivePolicy(Parsed(TopicPolicy(s, disabled)), Blank) == Some(Filled(s))
  {
  }

  /** A topic that disables overrides decides alone, whatever the subscription's policy, readable or not. */
  lemma DisabledOverrides(topic: TopicPolicy, sub: Text<SubscriptionPolicy>)
    requires topic.disableSubscriptionOverrides
    ensures EffectivePolicy(Parsed(topic), sub) == Some(Filled(topic.policy))
  {
  }

  /**
   Otherwise a subscription's policy replaces the topic's altogether: what it does not set is the default
   and not the topic's setting, except for the throttle.
   */
  lemma SubscriptionReplaces(topic: TopicPolicy, s: SubscriptionPolicy)
    requires !topic.disableSubscriptionOverrides
    ensures EffectivePolicy(Parsed(topic), Parsed(s)) == Some(Filled(s).(maxReceivesPerSecond :=
      OrElse(s.maxReceivesPerSecond, topic.policy.maxReceivesPerSecond)))
  {
  }

  /** There is a policy in force unless one that counts cannot be read. */
  lemma InForceUnlessUnreadable(topic: Text<TopicPolicy>, sub: Text<SubscriptionPolicy>)
    ensures EffectivePolicy(topic, sub).None? <==>
      topic.Malformed?
      || (sub.Malformed? && !(topic.Parsed? && topic.value.disableSubscriptionOverrides))
  {
  }

  // ---- The schedule --------------------------------------------------------------------------------------------

  /**
   A subscription's policy gives a schedule exactly when, defaults filled in, the retries are at most 100
   and the delays in order. One that sets only a minimum above 20 seconds therefore has none, and its
   messages are not retried.
   */
  lemma ScheduleExists(s: SubscriptionPolicy)
    ensures var r := Filled(s).retry;
      RetryDelaysSpec(r).Ok? <==> 0 <= r.numRetries <= 100 && 0 < r.minDelayTarget <= r.maxDelayTarget
    ensures s.retry.minDelayTarget > 20 && s.retry.maxDelayTarget == 0 ==> RetryDelaysSpec(Filled(s).retry).Err?
  {
  }

  lemma DefaultSchedule()
    ensures RetryDelaysSpec(RetryPolicy(20, 20, 3, 0, 0, 0, "linear")) ==
      Ok([20_000_000_000, 20_000_000_000, 20_000_000_000])
  {
    var r := RetryPolicy(20, 20, 3, 0, 0, 0, "linear");
    assert Schedule(r) == [20_000_000_000, 20_000_000_000, 20_000_000_000];
  }

  function Positive(n: int): nat { if n > 0 then n else 0 }

  /** The retries left for the backoff curve. */
  function Left(r: RetryPolicy): nat {
    Positive(r.numRetries - r.numNoDelayRetries - r.numMinDelayRetries - r.numMaxDelayRetries)
  }

  /** The retry at which the backoff curve starts. */
  function Start(r: RetryPolicy): nat { Positive(r.numNoDelayRetries) + Positive(r.numMinDelayRetries) }

  /** Immediate retries come first, then those after the minimum delay, the curve, and those after the maximum. */
  lemma SchedulePhases(r: RetryPolicy, i: nat)
    requires i < |Schedule(r)|
    ensures |Schedule(r)| == Start(r) + Left(r) + Positive(r.numMaxDelayRetries)
    ensures i < Positive(r.numNoDelayRetries) ==> Schedule(r)[i] == 0
    ensures Positive(r.numNoDelayRetries) <= i < Start(r) ==> Schedule(r)[i] == r.minDelayTarget * 1_000_000_000
    ensures Start(r) + Left(r) <= i ==> Schedule(r)[i] == r.maxDelayTarget * 1_000_000_000
  {
    hide BackoffSpec;
  }

  /** The delay of the k-th retry of the curve, in seconds. */
  function Curve(r: RetryPolicy, k: nat): int
    requires k < Left(r) && Start(r) + Left(r) <= |Schedule(r)|
  {
    Schedule(r)[Start(r) + k] / 1_000_000_000
  }

  lemma CurveIsBackoff(r: RetryPolicy, k: nat)
    requires k < Left(r)
    ensures Start(r) + Left(r) <= |Schedule(r)|
    ensures Curve(r, k) == BackoffSpec(r, k, Left(r)) && Schedule(r)[Start(r) + k] == Curve(r, k) * 1_000_000_000
  {
    hide BackoffSpec;
    ScheduleAt(r, Start(r) + k);
  }

  /** `d` is `x / n`, rounded down. */
  predicate IsFloor(d: int, x: int, n: nat) { d * n <= x < (d + 1) * n }

  /** `k` times the distance between the two delays. */
  function Stretch(r: RetryPolicy, k: nat): int { (r.maxDelayTarget - r.minDelayTarget) * k }

  /** The linear curve goes from the minimum to the maximum in even steps, rounded down. */
  lemma LinearCurve(r: RetryPolicy, k: nat)
    requires Accepted(r) && k < Left(r) && Left(r) > 1 && r.backoffFunction in {"linear", "arithmetic"}
    ensures Start(r) + Left(r) <= |Schedule(r)|
    ensures Curve(r, 0) == r.minDelayTarget && Curve(r, Left(r) - 1) == r.maxDelayTarget
    ensures IsFloor(Curve(r, k) - r.minDelayTarget, Stretch(r, k), Left(r) - 1)
  {
    hide Schedule, Curve, IsFloor, Stretch, BackoffSpec;
    CurveIsBackoff(r, k);
    CurveIsBackoff(r, 0);
    CurveIsBackoff(r, Left(r) - 1);
    LinearStep(r, k);
    LinearStep(r, 0);
    LinearStep(r, Left(r) - 1);
    FloorAtEnds(r, BackoffSpec(r, 0, Left(r)) - r.minDelayTarget,
      BackoffSpec(r, Left(r) - 1, Left(r)) - r.minDelayTarget, Left(r) - 1);
  }

  lemma LinearStep(r: RetryPolicy, k: nat)
    requires Accepted(r) && Left(r) > 1 && r.backoffFunction in {"linear", "arithmetic"}
    ensures IsFloor(BackoffSpec(r, k, Left(r)) - r.minDelayTarget, Stretch(r, k), Left(r) - 1)
  {
    hide IsFloor;
    TimesMonotone(0, r.maxDelayTarget - r.minDelayTarget, k);
    DivisionIsFloor(Stretch(r, k), Left(r) - 1);
  }

  lemma DivisionIsFloor(x: nat, n: nat)
    requires n > 0
    ensures IsFloor(x / n, x, n)
  {
  }

  lemma FloorAtEnds(r: RetryPolicy, first: int, last: int, n: nat)
    requires n > 0 && IsFloor(first, Stretch(r, 0), n) && IsFloor(last, Stretch(r, n), n)
    ensures first == 0 && last == r.maxDelayTarget - r.minDelayTarget
  {
    FloorIsUnique(first, 0, n);
    FloorIsUnique(last, r.maxDelayTarget - r.minDelayTarget, n);
  }

  /** The only number that is `q * n / n` rounded down is `q`. */
  lemma FloorIsUnique(d: int, q: int, n: nat)
    requires n > 0 && IsFloor(d, q * n, n)
    ensures d == q
  {
    assert d < q ==> (q - d - 1) * n >= 0;
    assert d > q ==> (d - q - 1) * n >= 0;
  }

  /** The exponential curve starts at the minimum and doubles up to the maximum. */
  lemma ExponentialCurve(r: RetryPolicy, k: nat)
    requires Accepted(r) && k + 1 < Left(r) && r.backoffFunction == "exponential"
    ensures Start(r) + Left(r) <= |Schedule(r)|
    ensures Curve(r, 0) == r.minDelayTarget && Curve(r, k + 1) == Min(r.maxDelayTarget, 2 * Curve(r, k))
  {
    hide Schedule;
    CurveIsBackoff(r, k);
    CurveIsBackoff(r, k + 1);
    CurveIsBackoff(r, 0);
    assert r.minDelayTarget * Pow2(k + 1) == 2 * (r.minDelayTarget * Pow2(k));
  }

  /** The geometric curve adds the minimum each time, up to the maximum. */
  lemma GeometricCurve(r: RetryPolicy, k: nat)
    requires Accepted(r) && k + 1 < Left(r) && r.backoffFunction == "geometric"
    ensures Start(r) + Left(r) <= |Schedule(r)|
    ensures Curve(r, 0) == r.minDelayTarget
    ensures Curve(r, k + 1) == Min(r.maxDelayTarget, Curve(r, k) + r.minDelayTarget)
  {
    hide Schedule;
    CurveIsBackoff(r, k);
    CurveIsBackoff(r, k + 1);
    CurveIsBackoff(r, 0);
    assert r.minDelayTarget * (k + 2) == r.minDelayTarget * (k + 1) + r.minDelayTarget;
  }

  /** Any other curve, and one of a single retry, stays at the minimum. */
  lemma FlatCurve(r: RetryPolicy, k: nat)
    requires k < Left(r)
    requires Left(r) == 1 || r.backoffFunction !in {"linear", "arithmetic", "geometric", "exponential"}
    ensures Start(r) + Left(r) <= |Schedule(r)| && Curve(r, k) == r.minDelayTarget
  {
    hide Schedule;
    CurveIsBackoff(r, k);
  }
}
