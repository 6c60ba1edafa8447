/** The pseudo-random generator, as seen by the estimator.

    `random.Random(seed)` is replaced by an explicit family of draw streams,
    one per seed; `rng.random()` reads the next element of the stream. Which
    values a stream holds (Mersenne Twister) is not modelled: only that each
    draw lies in [0, 1), where the lemmas need it. */
module Generator {
  import opened Outcomes

  /** An infinite sequence of draws; the i-th call of `random()` returns `s(i)`. */
  type Stream = nat -> real

  /** One stream per seed: the deterministic part of `random.Random(seed)`. */
  type Source = int -> Stream

  /** Every draw of the stream is a uniform-range value in [0, 1). */
  ghost predicate UnitStream(s: Stream)
  {
    forall i: nat :: 0.0 <= s(i) < 1.0
  }

  /** A generator: the stream it was seeded with and how many draws it has consumed. */
  datatype Rng = Rng(stream: Stream, drawn: nat)

  /** The seed the generator is built from: the given one, or one taken
      from the system's entropy when the caller passes none. */
  function Seed(seed: Option<int>, entropy: int): int
  {
    match seed
    case Some(s) => s
    case None => entropy
  }

  /** `random.Random(seed)`: a fresh generator that has drawn nothing yet. */
  function NewRng(source: Source, seed: Option<int>, entropy: int): Rng
  {
    Rng(source(Seed(seed, entropy)), 0)
  }

  /** `rng.random()`: the next draw and the generator advanced past it. */
  function Random(rng: Rng): (real, Rng)
  {
    (rng.stream(rng.drawn), Rng(rng.stream, rng.drawn + 1))
  }

  /** The first `n` draws of a stream, in order. */
  function Draws(s: Stream, n: nat): seq<real>
  {
    seq(n, (i: nat) => s(i))
  }
}
