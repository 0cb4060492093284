/** Real arithmetic with products that proofs can keep folded. */
module Reals {

  function Min(x: real, y: real): real { if x <= y then x else y }

  function Max(x: real, y: real): real { if x >= y then x else y }

  function Times(x: real, y: real): real { x * y }

  lemma {:induction false} TimesSplits(x: real, y: real, f: real)
    ensures Times(y, f) - Times(x, f) == Times(y - x, f)
    ensures Times(f, y) - Times(f, x) == Times(f, y - x)
    ensures Times(-x, f) == -Times(x, f) && Times(x, f) == Times(f, x)
  {
  }

  lemma {:induction false} TimesDistributes(a: real, x: real, y: real)
    ensures Times(a, x) - Times(a, y) == Times(a, x - y)
  {
    TimesSplits(y, x, a);
  }

  lemma {:induction false} Adds(a: real, x: real, y: real)
    ensures Times(a, x) + Times(a, y) == Times(a, x + y)
  {
  }

  lemma {:induction false} Negates(a: real, d: real)
    ensures Times(a, -d) == -Times(a, d) && Times(-a, d) == -Times(a, d) && Times(-a, -d) == Times(a, d)
  {
  }

  lemma {:induction false} ZeroTimes(a: real)
    ensures Times(a, 0.0) == 0.0 && Times(0.0, a) == 0.0
  {
  }

  lemma {:induction false} TimesGroups(x: real, y: real, z: real)
    ensures Times(Times(x, y), z) == Times(x, Times(y, z))
  {
  }

  lemma {:induction false} Whole(x: real, w: real)
    ensures Times(x, 1.0 - w) + Times(x, w) == x
  {
  }

  lemma {:induction false} TimesNonNegative(x: real, f: real)
    requires x >= 0.0 && f >= 0.0
    ensures Times(x, f) >= 0.0
  {
  }

  lemma {:induction false} Ordered(x: real, y: real, f: real)
    requires x <= y && f >= 0.0
    ensures Times(x, f) <= Times(y, f)
  {
    hide Times;
    TimesSplits(x, y, f);
    TimesNonNegative(y - x, f);
  }

  lemma {:induction false} Larger(x: real, f: real, g: real)
    requires x >= 0.0 && f <= g
    ensures Times(x, f) <= Times(x, g)
  {
    hide Times;
    TimesSplits(f, g, x);
    TimesNonNegative(x, g - f);
  }

  /** The sign of a product with a factor that is not zero. */
  lemma {:induction false} SignOfTimes(a: real, x: real)
    requires a != 0.0
    ensures Times(a, x) == Times(x, a)
    ensures (Times(a, x) == 0.0 <==> x == 0.0) && (Times(a, x) > 0.0 <==> (a > 0.0 && x > 0.0) || (a < 0.0 && x < 0.0))
  {
    if x > 0.0 && a > 0.0 {
      assert a * x > 0.0;
    } else if x > 0.0 {
      assert -a * x > 0.0;
    } else if x < 0.0 && a > 0.0 {
      assert a * -x > 0.0;
    } else if x < 0.0 {
      assert -a * -x > 0.0;
    }
  }
}
