/** The Bernoulli failure estimator of `src/monty/bernoulli.py`.

    `FailureRate` is the declarative meaning of an estimate: the fraction of
    the first `trials` draws that fall strictly below the probability.
    `EstimateFailure` follows the code's loop, draw by draw, and is proved to
    compute exactly that, consuming exactly `trials` draws. */
module Bernoulli {
  import opened Outcomes
  import opened Generator

  /** `ValueError("trials must be > 0")`. */
  datatype EstimateError = TrialsNotPositive

  /** The request the estimator is meant for: a probability in [0, 1] and a
      positive trial count. */
  predicate ValidRequest(probability: real, trials: int)
  {
    0.0 <= probability <= 1.0 && trials > 0
  }

  /** Number of failures among `draws`: each draw strictly below `p` adds one. */
  function Failures(draws: seq<real>, p: real): (n: nat)
    ensures n <= |draws|
  {
    if |draws| == 0 then 0
    else Failures(draws[..|draws| - 1], p) + (if draws[|draws| - 1] < p then 1 else 0)
  }

  /** The positions of the draws that count as failures. */
  ghost function FailureIndices(draws: seq<real>, p: real): set<int>
  {
    set i | 0 <= i < |draws| && draws[i] < p
  }

  /** The running count is the number of draws strictly below the probability. */
  lemma {:induction false} FailuresAreDrawsBelow(draws: seq<real>, p: real)
    ensures Failures(draws, p) == |FailureIndices(draws, p)|
  {
    if |draws| > 0 {
      var n := |draws| - 1;
      var prefix := draws[..n];
      FailuresAreDrawsBelow(prefix, p);
      if draws[n] < p {
        assert FailureIndices(draws, p) == FailureIndices(prefix, p) + {n};
      } else {
        assert FailureIndices(draws, p) == FailureIndices(prefix, p);
      }
    }
  }

  /** When every draw is at least `p`, nothing counts as a failure. */
  lemma {:induction false} NoDrawBelow(draws: seq<real>, p: real)
    requires forall i :: 0 <= i < |draws| ==> p <= draws[i]
    ensures Failures(draws, p) == 0
  {
    if |draws| > 0 {
      NoDrawBelow(draws[..|draws| - 1], p);
    }
  }

  /** When every draw is below `p`, every draw counts as a failure. */
  lemma {:induction false} EveryDrawBelow(draws: seq<real>, p: real)
    requires forall i :: 0 <= i < |draws| ==> draws[i] < p
    ensures Failures(draws, p) == |draws|
  {
    if |draws| > 0 {
      EveryDrawBelow(draws[..|draws| - 1], p);
    }
  }

  /** Raising the probability never lowers the failure count of a fixed draw sequence. */
  lemma {:induction false} FailuresMonotone(draws: seq<real>, p: real, q: real)
    requires p <= q
    ensures Failures(draws, p) <= Failures(draws, q)
  {
    if |draws| > 0 {
      FailuresMonotone(draws[..|draws| - 1], p, q);
    }
  }

  /** What the estimator returns for a stream of draws: an error when
      `trials <= 0`, otherwise the failure count over the first `trials`
      draws divided by `trials`. */
  function FailureRate(probability: real, trials: int, s: Stream): (r: Result<real, EstimateError>)
    ensures r.Err? <==> trials <= 0
    ensures r.Err? ==> r.error == TrialsNotPositive
    ensures r.Ok? ==> 0.0 <= r.value <= 1.0
    ensures r.Ok? ==> r.value * trials as real == |FailureIndices(Draws(s, trials), probability)| as real
  {
    if trials <= 0 then Err(TrialsNotPositive)
    else
      var draws := Draws(s, trials);
      FailuresAreDrawsBelow(draws, probability);
      Ok(Failures(draws, probability) as real / trials as real)
  }

  /** `estimate_failure(probability, trials, seed)`. The loop runs over
      `range(trials)`, which is empty when `trials <= 0`, so the check after
      the loop rejects a bad count before any draw is taken. `drawn` is the
      number of draws the generator gave out. */
  method EstimateFailure(probability: real, trials: int, seed: Option<int>, source: Source, entropy: int)
    returns (rate: Result<real, EstimateError>, drawn: nat)
    ensures rate == FailureRate(probability, trials, source(Seed(seed, entropy)))
    ensures trials <= 0 ==> rate == Err(TrialsNotPositive) && drawn == 0
    ensures trials > 0 ==> drawn == trials
  {
    var rng := NewRng(source, seed, entropy);
    var failures: nat := 0;
    var i := 0;
    while i < trials
      invariant 0 <= i
      invariant trials > 0 ==> i <= trials
      invariant trials <= 0 ==> i == 0
      invariant rng.stream == source(Seed(seed, entropy))
      invariant rng.drawn == i
      invariant failures == Failures(Draws(rng.stream, i), probability)
    {
      var step := Random(rng);
      assert Draws(rng.stream, i + 1)[..i] == Draws(rng.stream, i);
      failures := failures + (if step.0 < probability then 1 else 0);
      rng := step.1;
      i := i + 1;
    }
    drawn := rng.drawn;
    if trials <= 0 {
      rate := Err(TrialsNotPositive);
      return;
    }
    rate := Ok(failures as real / trials as real);
  }

  /** With probability 0 no draw in [0, 1) is a failure: the rate is exactly 0. */
  lemma ZeroProbabilityRate(trials: int, s: Stream)
    requires UnitStream(s)
    requires trials > 0
    ensures FailureRate(0.0, trials, s) == Ok(0.0)
  {
    NoDrawBelow(Draws(s, trials), 0.0);
  }

  /** With probability 1 every draw in [0, 1) is a failure: the rate is exactly 1. */
  lemma OneProbabilityRate(trials: int, s: Stream)
    requires UnitStream(s)
    requires trials > 0
    ensures FailureRate(1.0, trials, s) == Ok(1.0)
  {
    EveryDrawBelow(Draws(s, trials), 1.0);
    assert trials as real / trials as real == 1.0;
  }

  /** For a fixed stream, a larger probability never gives a smaller rate. */
  lemma RateMonotone(p: real, q: real, trials: int, s: Stream)
    requires p <= q
    requires trials > 0
    ensures FailureRate(p, trials, s).value <= FailureRate(q, trials, s).value
  {
    var draws := Draws(s, trials);
    FailuresMonotone(draws, p, q);
    DivideMonotone(Failures(draws, p) as real, Failures(draws, q) as real, trials as real);
  }

  /** The real-division step of `RateMonotone`: dividing by a positive count keeps the order. */
  lemma DivideMonotone(a: real, b: real, d: real)
    requires a <= b && d > 0.0
    ensures a / d <= b / d
  {
    assert b / d - a / d == (b - a) / d;
  }

  /** The rate depends on the first `trials` draws only: two streams that
      agree there give the same result, whatever they hold afterwards. */
  lemma RateReadsOnlyTrialsDraws(probability: real, trials: int, s: Stream, t: Stream)
    requires forall i: nat :: i < trials ==> s(i) == t(i)
    ensures FailureRate(probability, trials, s) == FailureRate(probability, trials, t)
  {
    if trials > 0 {
      assert Draws(s, trials) == Draws(t, trials);
    }
  }

  /** The same seed gives the same result: once a seed is given, the
      system's entropy plays no part. */
  lemma SeedReproducible(probability: real, trials: int, seed: int, source: Source, e1: int, e2: int)
    ensures FailureRate(probability, trials, source(Seed(Some(seed), e1)))
         == FailureRate(probability, trials, source(Seed(Some(seed), e2)))
  {
  }
}
