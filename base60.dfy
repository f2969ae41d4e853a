/**
 Splitting a count into a base-60 pair: seconds into minutes and seconds for
 the countdown display, minutes into hours and minutes for the statistics.
 */
module Base60 {

  /** `major` whole sixties and `minor` left over. */
  datatype Split = Split(major: nat, minor: nat)

  /** The value a pair stands for. */
  function Value(p: Split): nat {
    p.major * 60 + p.minor
  }

  /** `n // 60` and `n % 60` (the operands are never negative, so floor and
      Euclidean division agree). */
  function Split60(n: nat): (p: Split)
    ensures Value(p) == n && p.minor < 60
  {
    Split(n / 60, n % 60)
  }

  /** The pair is the only one with those two properties. */
  lemma Split60Unique(n: nat, p: Split)
    requires Value(p) == n && p.minor < 60
    ensures p == Split60(n)
  {
  }
}
