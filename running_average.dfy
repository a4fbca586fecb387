/** The running-average loss the evaluation job uses as its early-stopping
    signal: exponential smoothing, bootstrapped on the first value and clipped. */
module RunningAverage {
  import opened Common

  /** Upper bound the average is clipped to. */
  const Ceiling: real := 12.0
  /** Decay the evaluation loop uses (the keyword default). */
  const DefaultDecay: real := 0.99

  function Min(a: real, b: real): real { if a <= b then a else b }
  function Max(a: real, b: real): real { if a <= b then b else a }

  /** A prior average of None or of exactly 0 counts as "no average yet". */
  predicate Unset(prior: Option<real>) {
    prior.None? || prior.value == 0.0
  }

  /** `calc_running_avg_loss` without its summary write. */
  function RunningAvg(loss: real, prior: Option<real>, decay: real): (r: real)
    ensures r <= Ceiling
    ensures Unset(prior) ==> r == Min(loss, Ceiling)
    ensures !Unset(prior) && 0.0 <= decay <= 1.0 ==>
      Min(Min(prior.value, loss), Ceiling) <= r <= Max(prior.value, loss)
    ensures !Unset(prior) && decay == 1.0 ==> r == Min(prior.value, Ceiling)
    ensures !Unset(prior) && decay == 0.0 ==> r == Min(loss, Ceiling)
  {
    var smoothed := if Unset(prior) then loss else prior.value * decay + (1.0 - decay) * loss;
    if !Unset(prior) && 0.0 <= decay <= 1.0 then
      ConvexBetween(prior.value, loss, decay);
      assert smoothed == prior.value * decay + (1.0 - decay) * loss;
      Min(smoothed, Ceiling)
    else
      Min(smoothed, Ceiling)
  }

  /** A convex combination lies between its two points. */
  lemma ConvexBetween(p: real, l: real, d: real)
    requires 0.0 <= d <= 1.0
    ensures Min(p, l) <= p * d + (1.0 - d) * l <= Max(p, l)
  {
    var x := p * d + (1.0 - d) * l;
    assert x - l == d * (p - l);
    assert p - x == (1.0 - d) * (p - l);
    if p >= l {
      ProductNonNegative(d, p - l);
      ProductNonNegative(1.0 - d, p - l);
    } else {
      ProductNonNegative(d, l - p);
      ProductNonNegative(1.0 - d, l - p);
    }
  }

  lemma ProductNonNegative(a: real, b: real)
    requires 0.0 <= a && 0.0 <= b
    ensures 0.0 <= a * b
  {
  }

  /** The worked example: prior 10, loss 20, default decay gives 10.1. */
  lemma SmoothingExample()
    ensures RunningAvg(20.0, Some(10.0), DefaultDecay) == 10.1
    ensures RunningAvg(5.0, None, DefaultDecay) == 5.0
    ensures RunningAvg(30.0, Some(0.0), DefaultDecay) == Ceiling
  {
  }
}
