/** Integer-tightening helpers of the Fourier-Motzkin module (src/fme.rs,
    `util`): floor division and the symmetric modulo, over exact rationals
    (`real`). Dafny's own `/` on `int` is Euclidean, so truncation toward
    zero is written out. */
module FmeUtil {

  /** Truncation toward zero. */
  function Trunc(x: real): (t: int)
    ensures 0.0 <= x ==> t as real <= x < t as real + 1.0
    ensures x < 0.0 ==> t as real - 1.0 < x <= t as real
  {
    if x >= 0.0 then x.Floor else -((-x).Floor)
  }

  lemma MulLe(x: real, y: real, c: real)
    requires x <= y && c >= 0.0
    ensures x * c <= y * c
  {
    assert (y - x) * c >= 0.0;
  }

  lemma MulLt(x: real, y: real, c: real)
    requires x < y && c > 0.0
    ensures x * c < y * c
  {
    assert (y - x) * c > 0.0;
  }

  /** The remainder of truncated division, as Rust's `%` on rationals:
      `num - den * trunc(num / den)`. It differs from `num` by a multiple of
      `den`, is smaller than `den` in absolute value and never has the
      opposite sign of `num`. */
  function Rem(num: real, den: real): (r: real)
    requires den != 0.0
    ensures 0.0 < r ==> 0.0 < num
    ensures r < 0.0 ==> num < 0.0
    ensures -Abs(den) < r < Abs(den)
    ensures IsMultipleOf(num - r, den)
  {
    TruncRemainderBounds(num, den);
    assert num - (num - Trunc(num / den) as real * den) == Scaled(Trunc(num / den), den);
    num - Trunc(num / den) as real * den
  }

  function Abs(x: real): real
  {
    if x < 0.0 then -x else x
  }

  lemma TruncRemainderBounds(num: real, den: real)
    requires den != 0.0
    ensures var r := num - Trunc(num / den) as real * den;
      (0.0 < r ==> 0.0 < num) && (r < 0.0 ==> num < 0.0) && -Abs(den) < r < Abs(den)
  {
    var q, r := TruncQuotient(num, den);
    var x := num / den;
    var f := x - q as real;
    assert num == x * den;
    assert r == f * den;
    if x >= 0.0 {
      assert 0.0 <= f < 1.0;
      assert f > 0.0 ==> x > 0.0;
    } else {
      assert -1.0 < f <= 0.0;
    }
    ProductBounds(f, den);
    ProductSign(f, den);
    ProductSign(x, den);
  }

  /** A fraction of `c` strictly between `-1` and `1` is smaller than `c`
      in absolute value. */
  lemma ProductBounds(f: real, c: real)
    requires -1.0 < f < 1.0 && c != 0.0
    ensures -Abs(c) < f * c < Abs(c)
  {
    if c > 0.0 {
      MulLt(f, 1.0, c);
      MulLt(-1.0, f, c);
    } else {
      MulLtNeg(f, 1.0, c);
      MulLtNeg(-1.0, f, c);
    }
  }

  /** The sign of a product. */
  lemma ProductSign(f: real, c: real)
    requires c != 0.0
    ensures 0.0 < f * c <==> (0.0 < f && 0.0 < c) || (f < 0.0 && c < 0.0)
    ensures f * c < 0.0 <==> (0.0 < f && c < 0.0) || (f < 0.0 && 0.0 < c)
  {
    if c > 0.0 {
      if f > 0.0 { MulLt(0.0, f, c); } else if f < 0.0 { MulLt(f, 0.0, c); }
    } else {
      if f > 0.0 { MulLtNeg(0.0, f, c); } else if f < 0.0 { MulLtNeg(f, 0.0, c); }
    }
  }

  /** An exact division leaves no remainder. */
  lemma ExactRem(num: real, den: real)
    requires den != 0.0
    ensures (num / den).Floor as real == num / den ==> Rem(num, den) == 0.0
  {
    var x := num / den;
    if x.Floor as real == x {
      assert Trunc(x) as real == x;
      assert num == x * den;
    }
  }

  /** `div_floor` as written: `num / den` on rationals is the exact
      quotient, so the sign fix-up is applied to a non-integer and the
      result is in general not an integer. It is the exact quotient or one
      below it, and it is the floor only when the division is exact. */
  function DivFloorAsWritten(num: real, den: real): (r: real)
    requires den != 0.0
    ensures r == num / den || r == num / den - 1.0
    ensures (num / den).Floor as real == num / den ==> r == num / den
  {
    var d := num / den;
    var r := Rem(num, den);
    ExactRem(num, den);
    if (r > 0.0 && den < 0.0) || (r < 0.0 && den > 0.0) then d - 1.0 else d
  }

  /** `symmod` built on the as-written `div_floor`: it agrees with the
      corrected `SymMod` only when `(2a + b) / 2b` is an integer. */
  function SymModAsWritten(a: real, b: real): (r: real)
    requires b != 0.0
    ensures ((2.0 * a + b) / (2.0 * b)).Floor as real == (2.0 * a + b) / (2.0 * b) ==> r == SymMod(a, b)
  {
    DivFloorIsFloor(2.0 * a + b, 2.0 * b);
    a - b * DivFloorAsWritten(2.0 * a + b, 2.0 * b)
  }

  /** The as-written helpers miss their own contract: `div_floor(7, 2)`
      is `7/2` rather than `3`, `div_floor(-7, 2)` is `-9/2` rather than
      `-4`, and `symmod(3, 4)` is `-2` where the unit test expects `-1`. */
  lemma AsWrittenCounterexamples()
    ensures DivFloorAsWritten(7.0, 2.0) == 3.5
    ensures DivFloorAsWritten(-7.0, 2.0) == -4.5
    ensures SymModAsWritten(3.0, 4.0) == -2.0
  {
    assert Trunc(3.5) == 3;
    assert Trunc(-3.5) == -3;
    assert Trunc(10.0 / 8.0) == 1;
  }

  lemma TruncQuotient(num: real, den: real) returns (q: int, r: real)
    requires den != 0.0
    ensures q == Trunc(num / den) && r == num - q as real * den
    ensures r == (num / den - q as real) * den
  {
    q := Trunc(num / den);
    r := num - q as real * den;
    assert num == (num / den) * den;
  }

  /** `div_floor` with the truncated integer quotient the sign fix-up is
      designed for: `d = trunc(num / den)`, `r = num - d * den`, and one is
      subtracted when `r` and `den` have opposite signs. The result is
      the floor of `num / den`. */
  function DivFloor(num: real, den: real): (d: int)
    requires den != 0.0
    ensures d as real <= num / den < d as real + 1.0
  {
    var q := Trunc(num / den);
    var r := num - q as real * den;
    if (r > 0.0 && den < 0.0) || (r < 0.0 && den > 0.0) then q - 1 else q
  }

  lemma DivFloorIsFloor(num: real, den: real)
    requires den != 0.0
    ensures DivFloor(num, den) == (num / den).Floor
  {
    var q, r := TruncQuotient(num, den);
    var x := num / den;
    if x < q as real {
      // x is negative and not an integer: r has the opposite sign of den
      assert x < 0.0;
      assert den > 0.0 ==> r < 0.0;
      assert den < 0.0 ==> r > 0.0;
    } else {
      assert x == q as real || x > q as real;
      assert den > 0.0 ==> r >= 0.0;
      assert den < 0.0 ==> r <= 0.0;
    }
  }

  /** The floor contract multiplied through by `den`: for a positive
      divisor `d * den <= num < (d + 1) * den`, mirrored for a negative one. */
  lemma DivFloorBounds(num: real, den: real)
    requires den != 0.0
    ensures den > 0.0 ==> DivFloor(num, den) as real * den <= num < (DivFloor(num, den) as real + 1.0) * den
    ensures den < 0.0 ==> (DivFloor(num, den) as real + 1.0) * den < num <= DivFloor(num, den) as real * den
  {
    var d := DivFloor(num, den) as real;
    var x := num / den;
    assert x * den == num;
    if den > 0.0 {
      calc {
        d * den;
      <= { MulLe(d, x, den); }
        x * den;
        num;
      }
      calc {
        num;
        x * den;
      < { MulLt(x, d + 1.0, den); }
        (d + 1.0) * den;
      }
    } else {
      calc {
        (d + 1.0) * den;
      < { MulLtNeg(x, d + 1.0, den); }
        x * den;
        num;
      }
      calc {
        num;
        x * den;
      <= { MulLeNeg(d, x, den); }
        d * den;
      }
    }
  }

  lemma MulLeNeg(x: real, y: real, c: real)
    requires x <= y && c < 0.0
    ensures y * c <= x * c
  {
    assert (y - x) * (-c) >= 0.0;
  }

  lemma MulLtNeg(x: real, y: real, c: real)
    requires x < y && c < 0.0
    ensures y * c < x * c
  {
    assert (y - x) * (-c) > 0.0;
  }

  /** Symmetric modulo: `a - b * floor((2a + b) / 2b)`. It differs from
      `a` by an integer multiple of `b` and lies in `[-b/2, b/2)` for a
      positive modulus, in `(b/2, -b/2]` for a negative one. */
  function SymMod(a: real, b: real): (r: real)
    requires b != 0.0
    ensures IsMultipleOf(a - r, b)
    ensures b > 0.0 ==> -b / 2.0 <= r < b / 2.0
    ensures b < 0.0 ==> b / 2.0 < r <= -b / 2.0
  {
    SymModWindow(a, b);
    a - b * DivFloor(2.0 * a + b, 2.0 * b) as real
  }

  lemma SymModWindow(a: real, b: real)
    requires b != 0.0
    ensures var k := DivFloor(2.0 * a + b, 2.0 * b);
      var r := a - b * k as real;
      a - r == Scaled(k, b) &&
      (b > 0.0 ==> -b / 2.0 <= r < b / 2.0) &&
      (b < 0.0 ==> b / 2.0 < r <= -b / 2.0)
  {
    var k := DivFloor(2.0 * a + b, 2.0 * b);
    var d := k as real;
    DivFloorBounds(2.0 * a + b, 2.0 * b);
    if b > 0.0 {
      calc {
        2.0 * (b * d);
        d * (2.0 * b);
      <=
        2.0 * a + b;
      }
      calc {
        2.0 * a + b;
      <
        (d + 1.0) * (2.0 * b);
        2.0 * (b * d) + 2.0 * b;
      }
    } else {
      calc {
        2.0 * (b * d) + 2.0 * b;
        (d + 1.0) * (2.0 * b);
      <
        2.0 * a + b;
      }
      calc {
        2.0 * a + b;
      <=
        d * (2.0 * b);
        2.0 * (b * d);
      }
    }
  }

  /** Euclidean remainder, as `rem_euclid` on rationals: `a` less the
      largest multiple of `|b|` not above it. */
  function RemEuclid(a: real, b: real): (r: real)
    requires b != 0.0
    ensures 0.0 <= r < Abs(b)
    ensures IsMultipleOf(a - r, b)
  {
    var ab := Abs(b);
    var k := (a / ab).Floor;
    RemainderBounds(a, ab);
    assert a - (a - ab * k as real) == Scaled(if b > 0.0 then k else -k, b);
    a - ab * k as real
  }

  /** `0 <= a - m * floor(a / m) < m` for a positive `m`. */
  lemma RemainderBounds(a: real, m: real)
    requires m > 0.0
    ensures 0.0 <= a - m * (a / m).Floor as real < m
  {
    var x := a / m;
    var f := x.Floor as real;
    assert x * m == a;
    calc {
      a - m * f;
      a - f * m;
    >= { MulLe(f, x, m); }
      a - x * m;
      0.0;
    }
    calc {
      a - m * f;
      x * m - f * m;
    < { MulLt(x, f + 1.0, m); }
      (f + 1.0) * m - f * m;
      m;
    }
  }

  /** Symmetric modulo, alternate form: the Euclidean remainder, less `b`
      when it is at least `b / 2`. It differs from `a` by an integer
      multiple of `b` and lies in `[-b/2, b/2)` for a positive modulus;
      for a negative one the test never keeps the remainder, and the
      result lies in `[-b, -2b)`. */
  function SymModAlt(a: real, b: real): (r: real)
    requires b != 0.0
    ensures IsMultipleOf(a - r, b)
    ensures b > 0.0 ==> -b / 2.0 <= r < b / 2.0
    ensures b < 0.0 ==> -b <= r < -2.0 * b
  {
    var amb := RemEuclid(a, b);
    if 2.0 * amb < b then amb
    else
      MultipleShift(a - amb, b);
      amb - b
  }

  /** `k * b`, named so that it can serve as a trigger. */
  function Scaled(k: int, b: real): real
  {
    k as real * b
  }

  /** `x` is an integer multiple of `b`. */
  ghost predicate IsMultipleOf(x: real, b: real)
  {
    exists k: int :: x == Scaled(k, b)
  }

  lemma ScaledDiff(k1: int, k2: int, b: real)
    ensures Scaled(k1, b) - Scaled(k2, b) == Scaled(k1 - k2, b)
  {
    assert (k1 - k2) as real == k1 as real - k2 as real;
  }

  /** Adding `b` to a multiple of `b` gives a multiple of `b`. */
  lemma MultipleShift(x: real, b: real)
    requires IsMultipleOf(x, b)
    ensures IsMultipleOf(x + b, b)
  {
    var k :| x == Scaled(k, b);
    assert x + b == Scaled(k + 1, b);
  }

  /** Two values in the window `[-b/2, b/2)` that differ from `a` by
      multiples of `b` are equal: the symmetric residue is unique. */
  lemma UniqueInWindow(a: real, b: real, r1: real, r2: real)
    requires b > 0.0
    requires -b / 2.0 <= r1 < b / 2.0 && -b / 2.0 <= r2 < b / 2.0
    requires IsMultipleOf(a - r1, b) && IsMultipleOf(a - r2, b)
    ensures r1 == r2
  {
    var k1 :| a - r1 == Scaled(k1, b);
    var k2 :| a - r2 == Scaled(k2, b);
    ScaledDiff(k1, k2, b);
    var k := k1 - k2;
    if k >= 1 {
      calc {
        b;
        1.0 * b;
      <= { MulLe(1.0, k as real, b); }
        k as real * b;
        Scaled(k, b);
        r2 - r1;
      }
      assert false;
    } else if k <= -1 {
      calc {
        r2 - r1;
        Scaled(k, b);
        k as real * b;
      <= { MulLe(k as real, -1.0, b); }
        -1.0 * b;
      }
      assert false;
    }
  }

  /** The two formulations of the symmetric modulo agree for every
      positive modulus. */
  lemma SymModEquivalent(a: real, b: real)
    requires b > 0.0
    ensures SymMod(a, b) == SymModAlt(a, b)
  {
    UniqueInWindow(a, b, SymMod(a, b), SymModAlt(a, b));
  }

  /** The unit tests and the two regression inputs. */
  lemma SymModExamples()
    ensures SymModAlt(3.0, 4.0) == -1.0 && SymModAlt(1.0, 4.0) == 1.0 && SymModAlt(0.0, 4.0) == 0.0
    ensures SymMod(3.0, 4.0) == -1.0 && SymMod(1.0, 4.0) == 1.0 && SymMod(0.0, 4.0) == 0.0
    ensures SymMod(1687.0, 1125.0) == SymModAlt(1687.0, 1125.0) == 562.0
    ensures SymMod(-190459345.0, 190459346.0) == SymModAlt(-190459345.0, 190459346.0) == 1.0
  {
    SymModEquivalent(3.0, 4.0);
    SymModEquivalent(1.0, 4.0);
    SymModEquivalent(0.0, 4.0);
    SymModEquivalent(1687.0, 1125.0);
    SymModEquivalent(-190459345.0, 190459346.0);
    assert (3.0 / 4.0).Floor == 0;
    assert (1687.0 / 1125.0).Floor == 1;
    assert (-190459345.0 / 190459346.0).Floor == -1;
  }

  /** For a negative modulus the two formulations differ: the source only
      relates them for `b > 0`. */
  lemma SymModDifferForNegativeModulus()
    ensures SymMod(0.0, -4.0) == 0.0 && SymModAlt(0.0, -4.0) == 4.0
  {
    assert Trunc(-4.0 / -8.0) == 0;
  }
}
