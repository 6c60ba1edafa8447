# monty: Bernoulli failure-rate estimator, modelled in Dafny

`monty` estimates a Bernoulli failure rate by Monte Carlo sampling.
`estimate_failure(probability, trials, seed)` seeds a generator, takes
`trials` uniform draws in [0, 1), counts the draws strictly below
`probability` and returns that count divided by `trials`; it raises
`ValueError` when `trials <= 0`. The command line validates `--p` (a number
in [0, 1]) and `--trials` (a positive integer, default 10000) before calling
the estimator.

The model has four modules:

- `Outcomes` (`outcomes.dfy`): `Option` for partial conversions and `Result`
  for the paths where Python raises.
- `Generator` (`generator.dfy`): the seeded generator as an explicit family
  of draw streams (`Source`, one `Stream` per seed). A generator value `Rng`
  records how many draws it has given out. This lets the model count draws.
- `Bernoulli` (`bernoulli.dfy`): `Failures` is the running count, and
  `FailureIndices` is its declarative partner, the set of positions of draws
  below the probability. `FailureRate` is the meaning of an estimate.
  `EstimateFailure` is the code's loop, draw by draw, with the `trials <= 0`
  check after the loop. It is proved equal to `FailureRate` and to consume
  exactly `trials` draws, or none when the count is rejected.
- `Cli` (`cli.dfy`): `parse_probability`, `parse_positive_int`, the
  `--trials` default, and `main`'s call of the estimator (`Run`).

Three facts about the code shape the model:

- The estimator does not check the probability: with `probability = 1.5` it
  runs and returns 1; only the command line rejects such values.
- The trial-count check sits after the loop. It is still reached before any
  draw, because `range(trials)` is empty when `trials <= 0`. `EstimateFailure`
  proves that no draw is taken in that case.
- Command-line errors are `argparse.ArgumentTypeError` values carrying the
  code's messages.

## Model

| member | source | states |
|---|---|---|
| Bernoulli.Failures | src/monty/bernoulli.py:7-9 | the failure count never exceeds the number of draws |
| Bernoulli.FailuresAreDrawsBelow | src/monty/bernoulli.py:7-9 | the count the loop accumulates equals the number of positions whose draw is strictly below the probability |
| Bernoulli.NoDrawBelow | src/monty/bernoulli.py:9 | when no draw is below the probability, the count is 0 |
| Bernoulli.EveryDrawBelow | src/monty/bernoulli.py:9 | when every draw is below the probability, the count is the number of draws |
| Bernoulli.FailuresMonotone | src/monty/bernoulli.py:9 | for fixed draws, a larger probability never yields a smaller count |
| Bernoulli.FailureRate | src/monty/bernoulli.py:11-13 | an error exactly when trials <= 0; otherwise a rate in [0, 1] whose product with trials is the number of failing draws among the first trials |
| Bernoulli.EstimateFailure | src/monty/bernoulli.py:5-13 | the loop returns the failure rate of the seeded stream; trials <= 0 gives the error with zero draws consumed; otherwise exactly trials draws are consumed |
| Bernoulli.ZeroProbabilityRate | tests/test_bernoulli.py:9-10 | with probability 0 and draws in [0, 1), the rate is exactly 0 |
| Bernoulli.OneProbabilityRate | tests/test_bernoulli.py:12-13 | with probability 1 and draws in [0, 1), the rate is exactly 1 |
| Bernoulli.RateMonotone | src/monty/bernoulli.py:9-13 | for a fixed stream and positive trials, the rate does not decrease as the probability grows |
| Bernoulli.RateReadsOnlyTrialsDraws | src/monty/bernoulli.py:8-9 | two streams that agree on their first trials draws give the same result |
| Bernoulli.SeedReproducible | tests/test_bernoulli.py:4-7 | with a seed given, the result does not depend on the system entropy, so equal seeds give equal results |
| Cli.ParsePositiveInt | src/monty/cli.py:15-22 | accepts exactly when the text converts to an integer above 0, and returns it unchanged; otherwise the "not a number" or "not positive" error |
| Cli.ParseProbability | src/monty/cli.py:5-13 | accepts exactly when the text converts to a number in [0, 1], and returns it unchanged; otherwise the "not a number" or "out of range" error |
| Cli.TrialsArgument | src/monty/cli.py:28 | the trial count is positive whenever accepted; the absent option is accepted as the default 10000; a given text is validated by `parse_positive_int` |
| Cli.ProbabilityEndpointsAccepted | src/monty/cli.py:10-13 | 0 and 1 are both accepted unchanged |
| Cli.ProbabilityOutsideRejected | src/monty/cli.py:10-12 | -0.1 and 1.1 are rejected with the range error |
| Cli.NonPositiveTrialsRejected | src/monty/cli.py:20-21 | 0 and negative counts are rejected with the positivity error |
| Cli.AcceptedArgumentsAreValid | src/monty/cli.py:27-28 | any accepted pair has a probability in [0, 1] and a positive count, and the estimator accepts it on every stream |
| Cli.Run | src/monty/cli.py:33-38 | main succeeds exactly when both validators accept; it never reaches the estimator's error; its rate lies in [0, 1], equals the failure rate of the seeded stream, and consumed exactly the validated trial count |

## Left out

- The Mersenne Twister behind `random.Random`, and seeding from system entropy. A `Source` parameter maps each seed to a stream of draws. An `entropy` parameter stands for the seed taken when `seed` is `None`. That every draw lies in [0, 1) is a hypothesis (`UnitStream`) of the lemmas that need it.
- Floating point. Probabilities and rates are exact reals, and `failures / trials` is real division. The rounding of the float quotient, NaN and infinities are not modelled. A NaN or infinite `--p` is rejected by the range test in Python, but the model's parser cannot produce one.
- `float(value)` and `int(value)`. They are parameters that return `None` where Python raises `ValueError`. Which texts they accept is not modelled.
- `build_parser` and argparse itself: required-option handling, the conversion of `--seed` with `int`, usage messages and `SystemExit`. `Run` takes the seed already converted. When both `--p` and `--trials` are invalid, `Run` reports `--p`, although argparse reports whichever comes first on the command line.
- The printed line and its six-decimal formatting. `Run` returns the values that line shows (`Report`).
- Statistical claims, such as the rate lying near 0.5 for many trials. They are about the distribution of draws, not about any fixed stream.
