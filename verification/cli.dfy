/** The command-line layer of `src/monty/cli.py`: the two argument
    validators and the way `main` hands their results to the estimator.

    `float(value)` and `int(value)` are taken as parameters: partial
    conversions from text that return `None` where Python raises
    `ValueError`. */
module Cli {
  import opened Outcomes
  import opened Generator
  import Bernoulli

  /** `argparse.ArgumentTypeError` with its message. */
  datatype ArgumentTypeError = ArgumentTypeError(message: string)

  /** `float(value)`; `None` when the text is not a number. */
  type FloatParser = string -> Option<real>

  /** `int(value)`; `None` when the text is not an integer. */
  type IntParser = string -> Option<int>

  /** The value of `--trials` when the option is absent. */
  const DefaultTrials: int := 10000

  /** `parse_probability`: accepts a number in [0, 1] and returns it unchanged. */
  function ParseProbability(value: string, parseFloat: FloatParser): (r: Result<real, ArgumentTypeError>)
    ensures r.Ok? <==> parseFloat(value).Some? && 0.0 <= parseFloat(value).value <= 1.0
    ensures r.Ok? ==> r.value == parseFloat(value).value
    ensures parseFloat(value).None? ==> r == Err(ArgumentTypeError("probability must be a number"))
    ensures parseFloat(value).Some? && r.Err? ==> r == Err(ArgumentTypeError("probability must be between 0..1"))
  {
    match parseFloat(value)
    case None => Err(ArgumentTypeError("probability must be a number"))
    case Some(p) =>
      if !(0.0 <= p <= 1.0) then Err(ArgumentTypeError("probability must be between 0..1"))
      else Ok(p)
  }

  /** `parse_positive_int`: accepts an integer above zero and returns it unchanged. */
  function ParsePositiveInt(value: string, parseInt: IntParser): (r: Result<int, ArgumentTypeError>)
    ensures r.Ok? <==> parseInt(value).Some? && parseInt(value).value > 0
    ensures r.Ok? ==> r.value == parseInt(value).value
    ensures parseInt(value).None? ==> r == Err(ArgumentTypeError("trials must be a number"))
    ensures parseInt(value).Some? && r.Err? ==> r == Err(ArgumentTypeError("trials must be a positive integer"))
  {
    match parseInt(value)
    case None => Err(ArgumentTypeError("trials must be a number"))
    case Some(i) =>
      if i <= 0 then Err(ArgumentTypeError("trials must be a positive integer"))
      else Ok(i)
  }

  /** The value `--trials` takes: the validated text when given, the default otherwise. */
  function TrialsArgument(text: Option<string>, parseInt: IntParser): (r: Result<int, ArgumentTypeError>)
    ensures r.Ok? ==> r.value > 0
    ensures text.None? ==> r == Ok(DefaultTrials)
    ensures text.Some? ==> r == ParsePositiveInt(text.value, parseInt)
  {
    match text
    case None => Ok(DefaultTrials)
    case Some(t) => ParsePositiveInt(t, parseInt)
  }

  /** Both end points of [0, 1] are accepted. */
  lemma ProbabilityEndpointsAccepted(value: string, parseFloat: FloatParser)
    requires parseFloat(value) == Some(0.0) || parseFloat(value) == Some(1.0)
    ensures ParseProbability(value, parseFloat) == Ok(parseFloat(value).value)
  {
  }

  /** -0.1 and 1.1 are rejected as out of range. */
  lemma ProbabilityOutsideRejected(value: string, parseFloat: FloatParser)
    requires parseFloat(value) == Some(-0.1) || parseFloat(value) == Some(1.1)
    ensures ParseProbability(value, parseFloat) == Err(ArgumentTypeError("probability must be between 0..1"))
  {
  }

  /** 0 and every negative count are rejected. */
  lemma NonPositiveTrialsRejected(value: string, parseInt: IntParser)
    requires parseInt(value).Some? && parseInt(value).value <= 0
    ensures ParsePositiveInt(value, parseInt) == Err(ArgumentTypeError("trials must be a positive integer"))
  {
  }

  /** Any pair the validators accept is a request the estimator is meant
      for, and the estimator accepts it on every stream of draws. */
  lemma AcceptedArgumentsAreValid(pText: string, trialsText: Option<string>, parseFloat: FloatParser, parseInt: IntParser, s: Stream)
    requires ParseProbability(pText, parseFloat).Ok?
    requires TrialsArgument(trialsText, parseInt).Ok?
    ensures Bernoulli.ValidRequest(ParseProbability(pText, parseFloat).value, TrialsArgument(trialsText, parseInt).value)
    ensures Bernoulli.FailureRate(ParseProbability(pText, parseFloat).value, TrialsArgument(trialsText, parseInt).value, s).Ok?
  {
  }

  /** Why a run ends without an estimate: the option argparse rejected and
      the validator's error. */
  datatype Failure = BadArgument(option: string, reason: ArgumentTypeError)

  /** What `main` prints: the rate, with the probability, trial count and seed used. */
  datatype Report = Report(rate: real, probability: real, trials: int, seed: Option<int>)

  /** `main`: validates `--p`, then `--trials`, and passes the results to
      `estimate_failure`. The estimator's error is never reached, and the
      draws consumed are exactly the validated trial count. */
  method Run(pText: string, trialsText: Option<string>, seed: Option<int>,
             parseFloat: FloatParser, parseInt: IntParser, source: Source, entropy: int)
    returns (r: Result<Report, Failure>, drawn: nat)
    ensures r.Ok? <==> ParseProbability(pText, parseFloat).Ok? && TrialsArgument(trialsText, parseInt).Ok?
    ensures r.Err? ==> drawn == 0
    ensures ParseProbability(pText, parseFloat).Err? ==> r == Err(BadArgument("--p", ParseProbability(pText, parseFloat).error))
    ensures ParseProbability(pText, parseFloat).Ok? && TrialsArgument(trialsText, parseInt).Err? ==>
              r == Err(BadArgument("--trials", TrialsArgument(trialsText, parseInt).error))
    ensures r.Ok? ==> r.value.probability == ParseProbability(pText, parseFloat).value
    ensures r.Ok? ==> r.value.trials == TrialsArgument(trialsText, parseInt).value == drawn
    ensures r.Ok? ==> r.value.seed == seed
    ensures r.Ok? ==> 0.0 <= r.value.rate <= 1.0
    ensures r.Ok? ==> Ok(r.value.rate) == Bernoulli.FailureRate(r.value.probability, r.value.trials, source(Seed(seed, entropy)))
  {
    drawn := 0;
    var p := ParseProbability(pText, parseFloat);
    if p.Err? {
      r := Err(BadArgument("--p", p.error));
      return;
    }
    var trials := TrialsArgument(trialsText, parseInt);
    if trials.Err? {
      r := Err(BadArgument("--trials", trials.error));
      return;
    }
    var rate;
    rate, drawn := Bernoulli.EstimateFailure(p.value, trials.value, seed, source, entropy);
    // `rate.value` is well defined only if the estimator did not reject the count
    r := Ok(Report(rate.value, p.value, trials.value, seed));
  }
}
