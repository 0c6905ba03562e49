/** The random numbers of the simulator, made an explicit input.

    The simulator calls rand() from the C library (seeded once from the clock).
    Here the whole stream of its results is a parameter: the k-th call made
    by a run returns rnd(k), and every operation threads a cursor saying how
    many calls have been made so far. Every property of the model therefore
    holds for every possible stream. */
module RandomSource {

  /** A stream of rand() results, indexed by call number. rand() returns a
      value in 0..RAND_MAX; any natural number is allowed here. */
  type Oracle = nat -> nat

  /** get_random(min, max): the rand() result r reduced into [min, max] by
      taking it modulo the width of the range. Since r >= 0 and the width is
      positive, truncating % in C agrees with Euclidean % in Dafny. */
  function GetRandom(min: int, max: int, r: nat): (g: int)
    requires min <= max
    ensures min <= g <= max
    ensures r <= max - min ==> g == min + r
  {
    r % (max - min + 1) + min
  }
}
