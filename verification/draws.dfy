/**
 * Random draws. Every call of `Math.random()` in the game code is replaced by
 * a parameter `u` holding the value it returned, a real in [0, 1).
 */
module Draws {

  /** A value `Math.random()` can return. */
  predicate IsRandom(u: real)
  {
    0.0 <= u < 1.0
  }

  /** Every draw of a sequence is a value `Math.random()` can return. */
  predicate AllRandom(us: seq<real>)
  {
    forall k :: 0 <= k < |us| ==> IsRandom(us[k])
  }

  /** `Math.floor(Math.random() * n)`: a uniform integer in [0, n) when n > 0. */
  function Below(u: real, n: int): (k: int)
    requires IsRandom(u)
    ensures n > 0 ==> 0 <= k < n
  {
    ScaleBounds(u, n);
    (u * n as real).Floor
  }

  lemma ScaleBounds(u: real, n: int)
    requires IsRandom(u)
    ensures n > 0 ==> 0.0 <= u * n as real < n as real
  {
  }

  /** `2 + Math.floor(Math.random() * 8)`: a factor in [2, 9], as drawn by the monster, time-attack and star games. */
  function Factor(u: real): (f: int)
    requires IsRandom(u)
    ensures 2 <= f <= 9
  {
    2 + Below(u, 8)
  }

  /** The product of two drawn factors lies in [4, 81]. */
  lemma ProductRange(ua: real, ub: real)
    requires IsRandom(ua) && IsRandom(ub)
    ensures 4 <= Factor(ua) * Factor(ub) <= 81
  {
    var a, b := Factor(ua), Factor(ub);
    assert 2 * b <= a * b <= 9 * b;
  }
}
