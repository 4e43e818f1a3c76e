/**
 Real arithmetic of the feature code. Its library calls are parameters, with the laws that are used of them.
 */
module RealMath {

  datatype Math = Math(sqrt: real -> real, log: real -> real, log10: real -> real) {

    ghost predicate Root(x: real) {
      sqrt(x) >= 0.0 && Square(sqrt(x)) == x
    }

    ghost predicate Product(x: real, y: real) {
      log(x * y) == log(x) + log(y)
    }

    ghost predicate Increasing(x: real, y: real) {
      log(x) < log(y)
    }

    /** sqrt is the non-negative root; log turns products into sums and increases; nothing is asked of log10. */
    ghost predicate Valid() {
      && (forall x: real | x >= 0.0 :: Root(x))
      && (forall x: real, y: real | x > 0.0 && y > 0.0 :: Product(x, y))
      && (forall x: real, y: real | 0.0 < x < y :: Increasing(x, y))
    }
  }

  function Min(x: real, y: real): real {
    if x < y then x else y
  }

  function Max(x: real, y: real): real {
    if x > y then x else y
  }

  function Abs(x: real): real {
    if x < 0.0 then -x else x
  }

  function Clamp(v: real): real {
    Max(0.0, Min(100.0, v))
  }

  function Clamp01(v: real): real {
    Max(0.0, Min(1.0, v))
  }

  function Times(x: real, y: real): real {
    x * y
  }

  function Square(x: real): real {
    Times(x, x)
  }

  // ----- products

  lemma TimesPositive(x: real, y: real)
    requires x > 0.0 && y > 0.0
    ensures Times(x, y) > 0.0
  {
  }

  lemma TimesNonNegative(x: real, y: real)
    requires x >= 0.0 && y >= 0.0
    ensures Times(x, y) >= 0.0
  {
  }

  lemma CancelFactor(x: real, y: real, c: real)
    requires c > 0.0
    ensures x * c <= y * c <==> x <= y
  {
  }

  lemma SquareNegated(x: real)
    ensures Square(-x) == Square(x)
  {
  }

  lemma SquareNonNegative(x: real)
    ensures Square(x) >= 0.0
  {
    if x >= 0.0 {
      TimesNonNegative(x, x);
    } else {
      TimesNonNegative(-x, -x);
      SquareNegated(x);
    }
  }

  lemma SquarePositive(x: real)
    requires x != 0.0
    ensures Square(x) > 0.0
  {
    if x > 0.0 {
      TimesPositive(x, x);
    } else {
      TimesPositive(-x, -x);
      SquareNegated(x);
    }
  }

  lemma SquareZero(x: real)
    requires Square(x) <= 0.0
    ensures x == 0.0
  {
    if x != 0.0 { SquarePositive(x); }
  }

  lemma TimesSum(x: real, y: real, z: real)
    ensures Times(x, y + z) == Times(x, y) + Times(x, z)
  {
  }

  lemma TimesNext(n: real, x: real)
    ensures Times(n + 1.0, x) == Times(n, x) + x
  {
  }

  lemma SquareOfSum(x: real, y: real)
    ensures Square(x + y) == Square(x) + 2.0 * Times(x, y) + Square(y)
  {
  }

  lemma SquareOfProduct(x: real, y: real)
    ensures Square(Times(x, y)) == Times(Square(x), Square(y))
  {
  }

  lemma SquareIncreases(x: real, y: real)
    requires 0.0 <= x < y
    ensures Square(x) < Square(y)
  {
    SquareOfSum(x, y - x);
    TimesNonNegative(x, y - x);
    SquarePositive(y - x);
  }

  /** Squares compare as absolute values do. */
  lemma SquareOrder(x: real, y: real)
    requires 0.0 <= y && Square(x) <= Square(y)
    ensures -y <= x <= y
  {
    if x > y { SquareIncreases(y, x); }
    if -x > y { SquareIncreases(y, -x); SquareNegated(x); }
  }

  /** The mean of two squares is no less than the product of their bases. */
  lemma ProductBetweenSquares(x: real, y: real)
    ensures -(Square(x) + Square(y)) <= 2.0 * Times(x, y) <= Square(x) + Square(y)
  {
    SquareOfSum(x, y);
    SquareNonNegative(x + y);
    SquareOfSum(x, -y);
    SquareNonNegative(x - y);
    SquareNegated(y);
    assert Times(x, -y) == -Times(x, y);
  }
}
