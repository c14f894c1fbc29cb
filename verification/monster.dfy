/**
 * Monster: a monster shows a product of two factors from [2, 9]; the player
 * picks two numbers from 1..9 in two selects and attacks. The attack wins
 * iff the two picks multiply to the monster's number.
 */
module Monster {
  import opened Draws

  /** The values offered by each of the two selects. */
  const PickMin: int := 1
  const PickMax: int := 9

  /** A value one of the selects can hold. */
  predicate IsPick(x: int)
  {
    PickMin <= x <= PickMax
  }

  /**
   * Whether an attack with picks `a` and `b` beats a monster showing
   * `target`: the first pick must divide the number and the second pick
   * must be the quotient.
   */
  function Hits(a: int, b: int, target: int): (hit: bool)
    requires IsPick(a)
    ensures hit <==> target % a == 0 && b == target / a
  {
    MulDiv(a, b, target);
    a * b == target
  }

  /** `a * b == t` with `a > 0` says exactly that `a` divides `t` with quotient `b`. */
  lemma MulDiv(a: int, b: int, t: int)
    requires a > 0
    ensures a * b == t <==> t % a == 0 && b == t / a
  {
    if a * b == t {
      DivUnique(a, b, t);
    }
  }

  /** Euclidean division of `a * b` by `a > 0` leaves no remainder and quotient `b`. */
  lemma DivUnique(a: int, b: int, t: int)
    requires a > 0 && t == a * b
    ensures t % a == 0 && t / a == b
  {
    var q, r := t / a, t % a;
    assert t == a * q + r && 0 <= r < a;
    assert a * (b - q) == r by {
      assert a * (b - q) == a * b - a * q;
    }
    MulSign(a, b - q);
  }

  /** A multiple of a positive number `a` other than 0 lies at least `a` away from 0. */
  lemma MulSign(a: int, d: int)
    requires a > 0
    ensures d >= 1 ==> a * d >= a
    ensures d <= -1 ==> a * d <= -a
  {
    if d >= 1 {
      assert a * d == a * (d - 1) + a;
    } else if d <= -1 {
      assert a * d == a * (d + 1) - a;
    }
  }

  /**
   * Every monster can be beaten: the two factors it was made from, picked in
   * either order, win; and for each first pick at most one second pick wins.
   */
  lemma Beatable(ua: real, ub: real, a: int, b: int, b': int)
    requires IsRandom(ua) && IsRandom(ub)
    requires IsPick(a) && IsPick(b) && IsPick(b')
    ensures IsPick(Factor(ua)) && IsPick(Factor(ub))
    ensures Hits(Factor(ua), Factor(ub), Factor(ua) * Factor(ub))
    ensures Hits(Factor(ub), Factor(ua), Factor(ua) * Factor(ub))
    ensures Hits(a, b, Factor(ua) * Factor(ub)) && Hits(a, b', Factor(ua) * Factor(ub)) ==> b == b'
  {
  }

  /** The state of the Monster screen: the number the current monster shows. */
  class MonsterGame {
    var target: int

    /** The state at page load, before the first monster. */
    constructor ()
      ensures target == 0
    {
      target := 0;
    }

    /** A new monster: the product of two factors drawn from [2, 9]. */
    method NewMonster(ua: real, ub: real)
      requires IsRandom(ua) && IsRandom(ub)
      modifies this`target
      ensures target == Factor(ua) * Factor(ub)
      ensures 4 <= target <= 81
    {
      ProductRange(ua, ub);
      target := Factor(ua) * Factor(ub);
    }

    /** An attack with the two selects' values: the verdict, the monster unchanged. */
    method Attack(a: int, b: int) returns (hit: bool)
      requires IsPick(a) && IsPick(b)
      ensures hit <==> target % a == 0 && b == target / a
      ensures hit ==> a * b == target
    {
      hit := Hits(a, b, target);
    }
  }
}
