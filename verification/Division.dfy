// Signed division as the language has it, unsigned division as it is emitted,
// and exactly when the two give the same 64-bit result.
module Division {
  import opened Words

  function Abs(x: int): nat {
    if x < 0 then -x else x
  }

  // Division rounding toward zero. MIN / -1 is the one quotient that does not fit.
  function SignedDiv(a: Int64, b: Int64): (q: int)
    requires b != 0
  {
    if (a < 0) == (b < 0) then Abs(a) / Abs(b) else -(Abs(a) / Abs(b))
  }

  function SignedRem(a: Int64, b: Int64): (r: Int64)
    requires b != 0
  {
    if a < 0 then -(Abs(a) % Abs(b)) else Abs(a) % Abs(b)
  }

  function UDiv(a: Int64, b: Int64): (q: Int64)
    requires b != 0
  {
    QuotientBound(Unsigned(a), Unsigned(b));
    Signed(Unsigned(a) / Unsigned(b))
  }

  function URem(a: Int64, b: Int64): (r: Int64)
    requires b != 0
  {
    Signed(Unsigned(a) % Unsigned(b))
  }

  lemma QuotientBound(x: nat, d: nat)
    requires d > 0
    ensures 0 <= x / d <= x
  {
    Divide(x, d);
    if x / d > x {
      ScaleUp(d, x / d);
    }
  }

  // The operands on which the emitted instruction divides as the language does.
  predicate DivAgrees(a: Int64, b: Int64) {
    || (a >= 0 && b > 0)
    || b == 1
    || (b < 0 && 0 <= a < Abs(b))
    || (b < 0 && a == b)
  }

  predicate RemAgrees(a: Int64, b: Int64) {
    || (a >= 0 && b > 0)
    || (b < 0 && 0 <= a < Abs(b))
    || (b < 0 && a == b)
    || (a < 0 < b && Abs(a) % b == 0 && TWO_64 % b == 0)
  }

  lemma SmallOverLarge(x: nat, d: nat)
    requires x < d
    ensures x / d == 0 && x % d == x
  {
  }

  // x / d and x % d for d <= x < 2d.
  lemma JustOver(x: nat, d: nat)
    requires d <= x < 2 * d
    ensures x / d == 1 && x % d == x - d
  {
    RemainderUnique(x, d, 1, x - d);
  }

  lemma BigQuotient(x: nat, d: nat)
    requires 2 <= d <= x
    ensures 1 <= x / d <= x / 2
  {
    Divide(x, d);
    QuotientAtLeastOne(x, d);
    ScaleUpTo(x / d, 2, d);
  }

  lemma ScaleUpTo(q: nat, c: nat, d: nat)
    requires c <= d
    ensures q * c <= q * d
  {
  }

  // The emitted unsigned division gives the language's quotient exactly on these operands.
  lemma UnsignedDivisionAgreesIff(a: Int64, b: Int64)
    requires b != 0
    ensures UDiv(a, b) == SignedDiv(a, b) <==> DivAgrees(a, b)
  {
    var x, d := Unsigned(a), Unsigned(b);
    QuotientBound(x, d);
    QuotientBound(Abs(a), Abs(b));
    if a >= 0 && b < 0 {
      SmallOverLarge(x, d);
      if a < Abs(b) {
        SmallOverLarge(a, Abs(b));
      } else {
        QuotientAtLeastOne(a, Abs(b));
      }
    } else if a < 0 && b < 0 {
      if a < b {
        SmallOverLarge(x, d);
        QuotientAtLeastOne(Abs(a), Abs(b));
      } else {
        JustOver(x, d);
        if a > b {
          SmallOverLarge(Abs(a), Abs(b));
        } else {
          JustOver(Abs(a), Abs(b));
        }
      }
    } else if a < 0 && b >= 2 {
      BigQuotient(x, d);
    } else if b == 1 {
      RemainderUnique(x, 1, x, 0);
      RemainderUnique(Abs(a), 1, Abs(a), 0);
    }
  }

  lemma QuotientAtLeastOne(x: nat, d: nat)
    requires 0 < d <= x
    ensures x / d >= 1
  {
    Divide(x, d);
    QuotientBound(x, d);
  }

  lemma UnsignedRemainderAgreesIff(a: Int64, b: Int64)
    requires b != 0
    ensures URem(a, b) == SignedRem(a, b) <==> RemAgrees(a, b)
  {
    var x, d := Unsigned(a), Unsigned(b);
    Divide(x, d);
    Divide(Abs(a), Abs(b));
    if a >= 0 && b < 0 {
      SmallOverLarge(x, d);
      if a < Abs(b) {
        SmallOverLarge(a, Abs(b));
      }
    } else if a < 0 && b < 0 {
      if a < b {
        SmallOverLarge(x, d);
      } else {
        JustOver(x, d);
        if a > b {
          SmallOverLarge(Abs(a), Abs(b));
        } else {
          JustOver(Abs(a), Abs(b));
        }
      }
    } else if a < 0 && b > 0 {
      SumDivides(Abs(a), x, b);
    }
  }

  // With y a multiple of d, x is one exactly when x + y is.
  lemma SumDivides(y: nat, x: nat, d: nat)
    requires d > 0 && y + x == TWO_64
    ensures x % d == 0 && y % d == 0 <==> y % d == 0 && TWO_64 % d == 0
  {
    var p, q := y / d, x / d;
    Divide(y, d);
    Divide(x, d);
    Divide(TWO_64, d);
    if y % d == 0 {
      assert TWO_64 == (p + q) * d + x % d;
      RemainderUnique(TWO_64, d, p + q, x % d);
    }
  }

  // -7 / 2 is -3; the emitted instruction gives 2^63 - 4.
  lemma NegativeDividendDisagrees()
    ensures SignedDiv(-7, 2) == -3 && UDiv(-7, 2) == TWO_63 - 4
  {
  }

  // -7 % 2 is -1; the emitted instruction gives 1.
  lemma NegativeRemainderDisagrees()
    ensures SignedRem(-7, 2) == -1 && URem(-7, 2) == 1
  {
  }
}
