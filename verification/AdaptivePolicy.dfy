/** How many transfers may run at once: probing upwards, halving on congestion. Times are in milliseconds. */
module AdaptivePolicy {
  import opened Common

  datatype Observation = Observation(bytes: real, elapsedMs: real, meanDurationMs: real)

  datatype Steady = Steady(rate: real, latency: real)

  datatype Baseline = Baseline(rate: real, latency: real, limit: nat)

  datatype Policy = Policy(maximum: nat, current: nat, baseline: Option<Baseline>, probing: bool, nextProbeAt: real,
    nextDecreaseAt: real, steady: Option<Steady>, degradedWindows: nat)

  const PROBE_COOLDOWN := 10000.0
  const DECREASE_COOLDOWN := 5000.0

  function Fresh(maximum: nat): Policy {
    Policy(maximum, Min(8, maximum), None, false, 0.0, 0.0, None, 0)
  }

  // ---------------------------------------------------------------- the specification

  function Halved(p: Policy, now: real): Policy {
    if now < p.nextDecreaseAt then p
    else
      p.(current := if p.current / 2 >= 1 then p.current / 2 else 1, baseline := None, probing := false, steady := None,
         degradedWindows := 0, nextDecreaseAt := now + DECREASE_COOLDOWN, nextProbeAt := now + PROBE_COOLDOWN)
  }

  function Idled(p: Policy): Policy {
    p.(current := if p.probing && p.baseline.Some? then p.baseline.value.limit else p.current,
       baseline := None, probing := false, steady := None, degradedWindows := 0)
  }

  predicate Improved(p: Policy, w: Observation)
    requires p.baseline.Some? && w.elapsedMs > 0.0
  {
    w.bytes / w.elapsedMs >= p.baseline.value.rate * 1.1 && w.meanDurationMs <= p.baseline.value.latency * 2.0
  }

  predicate Degraded(p: Policy, w: Observation)
    requires w.elapsedMs > 0.0
  {
    p.steady.Some? && w.bytes / w.elapsedMs < p.steady.value.rate * 0.7 && w.meanDurationMs > p.steady.value.latency * 1.5
  }

  function Observed(p: Policy, w: Observation, now: real): Policy {
    if w.bytes <= 0.0 || w.elapsedMs <= 0.0 then p
    else if p.probing && p.baseline.Some? then
      p.(current := if Improved(p, w) then p.current else p.baseline.value.limit,
         probing := false, baseline := None, steady := None,
         nextProbeAt := if Improved(p, w) then now else now + PROBE_COOLDOWN)
    else if Degraded(p, w) then
      var counted := p.(degradedWindows := p.degradedWindows + 1);
      if counted.degradedWindows >= 2 then Halved(counted, now) else counted
    else
      var rate := w.bytes / w.elapsedMs;
      var calm := p.(degradedWindows := 0, steady := Some(Steady(rate, w.meanDurationMs)));
      if now < p.nextProbeAt || p.current >= p.maximum then calm
      else calm.(baseline := Some(Baseline(rate, w.meanDurationMs, p.current)), current := p.current + 1, probing := true)
  }

  // ---------------------------------------------------------------- what every step keeps

  /** The limit stays between 1 and the maximum, and a probe holds exactly one slot more than its baseline. */
  ghost predicate Good(p: Policy) {
    && 1 <= p.current <= p.maximum
    && (p.probing <==> p.baseline.Some?)
    && (p.baseline.Some? ==> p.current == p.baseline.value.limit + 1 && p.baseline.value.limit >= 1)
  }

  datatype Step = Observe(w: Observation) | Congest | Idle

  function After(p: Policy, step: Step, now: real): Policy {
    match step
    case Observe(w) => Observed(p, w, now)
    case Congest => Halved(p, now)
    case Idle => Idled(p)
  }

  lemma StepIsGood(p: Policy, step: Step, now: real)
    requires Good(p)
    ensures Good(After(p, step, now)) && After(p, step, now).maximum == p.maximum
  {
  }

  /** The step halved the limit: exactly then it pushes the time of the next decrease. */
  predicate Halves(p: Policy, step: Step, now: real) { After(p, step, now).nextDecreaseAt != p.nextDecreaseAt }

  /** Only a halving, the end of a probe and the start of one change the limit: a halving cuts it to the half,
      rounded down but at least 1; the end of a probe keeps its slot or gives exactly that slot back. */
  lemma LimitChangesOnlyBy(p: Policy, step: Step, now: real)
    requires Good(p)
    ensures var q := After(p, step, now);
      if Halves(p, step, now) then q.current == (if p.current >= 2 then p.current / 2 else 1) && !q.probing && now >= p.nextDecreaseAt
      else
        || q.current == p.current
        || (p.probing && !q.probing && q.current == p.current - 1 == p.baseline.value.limit)
        || (!p.probing && q.probing && q.current == p.current + 1)
  {
  }

  // ---------------------------------------------------------------- what each step decides

  /** A probe keeps its slot exactly when the throughput rose by a tenth and the latency at most doubled; a failed one
      gives the slot back and waits ten seconds before the next. */
  lemma ProbeIsDecided(p: Policy, w: Observation, now: real)
    requires Good(p) && p.probing && w.bytes > 0.0 && w.elapsedMs > 0.0
    ensures var before, q := p.baseline.value, After(p, Observe(w), now);
      var paid := w.bytes / w.elapsedMs >= before.rate * 1.1 && w.meanDurationMs <= before.latency * 2.0;
      && q.current == (if paid then p.current else p.current - 1)
      && q.nextProbeAt == (if paid then now else now + 10000.0)
      && !q.probing && q.steady.None? && q.nextDecreaseAt == p.nextDecreaseAt && q.degradedWindows == p.degradedWindows
  {
  }

  /** Outside a probe, a window much slower in both rate and latency than the one before changes nothing but the count
      of such windows, and the second in a row halves the limit unless the last halving is less than five seconds old. */
  lemma SlowWindowsHalve(p: Policy, w: Observation, now: real)
    requires Good(p) && !p.probing && w.bytes > 0.0 && w.elapsedMs > 0.0 && p.steady.Some?
    requires w.bytes / w.elapsedMs < p.steady.value.rate * 0.7 && w.meanDurationMs > p.steady.value.latency * 1.5
    ensures var q := After(p, Observe(w), now);
      if p.degradedWindows >= 1 && now >= p.nextDecreaseAt then q == After(p, Congest, now)
      else q == p.(degradedWindows := p.degradedWindows + 1)
  {
  }

  /** Any other window becomes the one to compare with, and starts a probe of one more slot if there is one to probe
      and the pause after the last failure is over. */
  lemma CalmWindowsProbe(p: Policy, w: Observation, now: real)
    requires Good(p) && !p.probing && w.bytes > 0.0 && w.elapsedMs > 0.0
    requires p.steady.None? || w.bytes / w.elapsedMs >= p.steady.value.rate * 0.7
          || w.meanDurationMs <= p.steady.value.latency * 1.5
    ensures var rate, q := w.bytes / w.elapsedMs, After(p, Observe(w), now);
      && q.steady == Some(Steady(rate, w.meanDurationMs)) && q.degradedWindows == 0
      && (q.probing <==> now >= p.nextProbeAt && p.current < p.maximum)
      && q.current == (if q.probing then p.current + 1 else p.current)
      && (q.probing ==> q.baseline == Some(Baseline(rate, w.meanDurationMs, p.current)))
      && q.nextProbeAt == p.nextProbeAt && q.nextDecreaseAt == p.nextDecreaseAt
  {
  }

  /** Windows without bytes or time say nothing. */
  lemma EmptyWindowsSayNothing(p: Policy, w: Observation, now: real)
    requires w.bytes <= 0.0 || w.elapsedMs <= 0.0
    ensures After(p, Observe(w), now) == p
  {
  }

  /** Congestion halves the limit and forgets all measurements; within five seconds of the last halving it does nothing. */
  lemma CongestionHalves(p: Policy, now: real)
    requires Good(p)
    ensures var q := After(p, Congest, now);
      if now < p.nextDecreaseAt then q == p
      else
        && 2 * q.current <= Max(p.current, 2) <= 2 * q.current + 1
        && q.nextDecreaseAt == now + 5000.0 && q.nextProbeAt == now + 10000.0
        && !q.probing && q.steady.None? && q.degradedWindows == 0
  {
  }

  /** An idle lane gives a probed slot back and forgets all measurements, but no pause. */
  lemma IdleForgets(p: Policy, now: real)
    requires Good(p)
    ensures var q := After(p, Idle, now);
      && q.current == (if p.probing then p.current - 1 else p.current)
      && !q.probing && q.steady.None? && q.degradedWindows == 0
      && q.nextProbeAt == p.nextProbeAt && q.nextDecreaseAt == p.nextDecreaseAt
  {
  }

  /** A new lane starts at eight or the maximum, may probe and may halve at once, and compares with nothing. */
  lemma FreshMayProbe(maximum: nat, w: Observation, now: real)
    requires maximum >= 1 && now >= 0.0 && w.bytes > 0.0 && w.elapsedMs > 0.0
    ensures var p := Fresh(maximum);
      && Good(p) && p.maximum == maximum && p.current <= 8 && (p.current == 8 || p.current == maximum)
      && After(p, Observe(w), now).current == (if maximum > 8 then 9 else maximum)
      && 2 * After(p, Congest, now).current <= Max(p.current, 2)
  {
    CalmWindowsProbe(Fresh(maximum), w, now);
    CongestionHalves(Fresh(maximum), now);
  }

  /** The step ended a probe without success or halved the limit. */
  predicate SetsBack(p: Policy, step: Step, now: real) {
    Halves(p, step, now) || (p.probing && !step.Idle? && After(p, step, now).current < p.current)
  }

  /** A policy, the steps taken with their times, and the times of the halvings among them. */
  datatype Trace = Begin | Then(earlier: Trace, step: Step, now: real)

  function Run(p: Policy, trace: Trace): Policy {
    match trace
    case Begin => p
    case Then(earlier, step, now) => After(Run(p, earlier), step, now)
  }

  function Halvings(p: Policy, trace: Trace): seq<real> {
    match trace
    case Begin => []
    case Then(earlier, step, now) =>
      Halvings(p, earlier) + if Halves(Run(p, earlier), step, now) then [now] else []
  }

  lemma HalvingSetsTheClock(p: Policy, step: Step, now: real)
    ensures Halves(p, step, now) ==> now >= p.nextDecreaseAt && After(p, step, now).nextDecreaseAt == now + DECREASE_COOLDOWN
    ensures !Halves(p, step, now) ==> After(p, step, now).nextDecreaseAt == p.nextDecreaseAt
  {
  }

  /** Over every run the limit stays in range, and two halvings are at least 5000 ms apart. */
  lemma {:induction false} HalvingsAreSpaced(p: Policy, trace: Trace)
    requires Good(p)
    ensures Good(Run(p, trace)) && Run(p, trace).maximum == p.maximum
    ensures var times := Halvings(p, trace);
      && (forall i, j | 0 <= i < j < |times| :: times[j] >= times[i] + DECREASE_COOLDOWN)
      && (times != [] ==> Run(p, trace).nextDecreaseAt == times[|times| - 1] + DECREASE_COOLDOWN)
      && (times == [] ==> Run(p, trace).nextDecreaseAt == p.nextDecreaseAt)
  {
    hide Good, After, Halves;
    match trace
    case Begin =>
    case Then(earlier, step, now) =>
      HalvingsAreSpaced(p, earlier);
      StepIsGood(Run(p, earlier), step, now);
      HalvingSetsTheClock(Run(p, earlier), step, now);
  }

  /** The clock does not run backwards. */
  predicate InOrder(trace: Trace) {
    match trace
    case Begin => true
    case Then(Begin, _, _) => true
    case Then(Then(earlier, step, before), _, now) => before <= now && InOrder(Then(earlier, step, before))
  }

  function SetBacks(p: Policy, trace: Trace): seq<real> {
    match trace
    case Begin => []
    case Then(earlier, step, now) =>
      SetBacks(p, earlier) + if SetsBack(Run(p, earlier), step, now) then [now] else []
  }

  lemma StepMovesProbeTime(p: Policy, step: Step, now: real)
    requires Good(p)
    ensures var q := After(p, step, now);
      && (SetsBack(p, step, now) ==> q.nextProbeAt == now + PROBE_COOLDOWN)
      && (q.nextProbeAt == p.nextProbeAt || q.nextProbeAt == now + PROBE_COOLDOWN || p.probing)
      && (q.current > p.current ==> now >= p.nextProbeAt)
      && (!p.probing && q.probing ==> now >= p.nextProbeAt)
  {
  }

  /** A failed probe or a halving is followed by no probe for ten seconds: either the pause still runs, or it is over. */
  lemma {:induction false} PauseRuns(p: Policy, earlier: Trace, step: Step, now: real, t: real)
    requires Good(p) && InOrder(Then(earlier, step, now)) && t in SetBacks(p, Then(earlier, step, now))
    ensures var q := Run(p, Then(earlier, step, now));
      t <= now && (q.nextProbeAt >= t + PROBE_COOLDOWN || now >= t + PROBE_COOLDOWN)
    ensures var q := Run(p, Then(earlier, step, now)); q.probing ==> now >= t + PROBE_COOLDOWN
    decreases earlier
  {
    var before := Run(p, earlier);
    HalvingsAreSpaced(p, earlier);
    StepMovesProbeTime(before, step, now);
    match earlier
    case Begin =>
    case Then(first, previous, at) =>
      if t in SetBacks(p, earlier) {
        PauseRuns(p, first, previous, at, t);
      }
      hide Good, After;
  }

  /** Over every run, the limit rises only ten seconds or more after each failed probe and each halving before. */
  lemma ProbesAreSpaced(p: Policy, earlier: Trace, step: Step, now: real, t: real)
    requires Good(p) && InOrder(Then(earlier, step, now)) && t in SetBacks(p, earlier)
    requires Run(p, Then(earlier, step, now)).current > Run(p, earlier).current
    ensures now >= t + PROBE_COOLDOWN
  {
    HalvingsAreSpaced(p, earlier);
    StepMovesProbeTime(Run(p, earlier), step, now);
    match earlier
    case Then(first, previous, at) =>
      PauseRuns(p, first, previous, at, t);
      hide Good, After;
  }

  // ---------------------------------------------------------------- the class

  class AdaptiveConcurrencyPolicy {
    const maximum: nat
    var current: nat
    var baseline: Option<Baseline>
    var probing: bool
    var nextProbeAt: real
    var nextDecreaseAt: real
    var steady: Option<Steady>
    var degradedWindows: nat

    ghost function Value(): Policy
      reads this
    {
      Policy(maximum, current, baseline, probing, nextProbeAt, nextDecreaseAt, steady, degradedWindows)
    }

    /** The source rejects a maximum below 1. */
    constructor (max: nat)
      requires max >= 1
      ensures Value() == Fresh(max) && Good(Value())
    {
      maximum := max;
      current := Min(8, max);
      baseline, probing, nextProbeAt, nextDecreaseAt, steady, degradedWindows := None, false, 0.0, 0.0, None, 0;
    }

    method Observe(w: Observation, now: real)
      requires Good(Value())
      modifies this
      ensures Value() == Observed(old(Value()), w, now) && Good(Value())
    {
      if w.bytes <= 0.0 || w.elapsedMs <= 0.0 {
        return;
      }
      var rate := w.bytes / w.elapsedMs;
      if probing && baseline.Some? {
        var improved := rate >= baseline.value.rate * 1.1 && w.meanDurationMs <= baseline.value.latency * 2.0;
        if !improved {
          current := baseline.value.limit;
        }
        probing, baseline, steady := false, None, None;
        nextProbeAt := if improved then now else now + PROBE_COOLDOWN;
        return;
      }
      if steady.Some? && rate < steady.value.rate * 0.7 && w.meanDurationMs > steady.value.latency * 1.5 {
        degradedWindows := degradedWindows + 1;
        if degradedWindows >= 2 {
          Congested(now);
        }
        return;
      }
      degradedWindows := 0;
      steady := Some(Steady(rate, w.meanDurationMs));
      if now < nextProbeAt || current >= maximum {
        return;
      }
      baseline := Some(Baseline(rate, w.meanDurationMs, current));
      current := current + 1;
      probing := true;
    }

    method Congested(now: real)
      requires Good(Value())
      modifies this
      ensures Value() == Halved(old(Value()), now) && Good(Value())
    {
      if now < nextDecreaseAt {
        return;
      }
      current := if current / 2 >= 1 then current / 2 else 1;
      baseline, probing, steady, degradedWindows := None, false, None, 0;
      nextDecreaseAt, nextProbeAt := now + DECREASE_COOLDOWN, now + PROBE_COOLDOWN;
    }

    method Idle()
      requires Good(Value())
      modifies this
      ensures Value() == Idled(old(Value())) && Good(Value())
    {
      if probing && baseline.Some? {
        current := baseline.value.limit;
      }
      baseline, probing, steady, degradedWindows := None, false, None, 0;
    }
  }
}
