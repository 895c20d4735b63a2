/** Affine linear expressions `b + a_1 x_1 + ... + a_n x_n` (src/lin_expr.rs).
    The coefficients are exact rationals, modelled as `real`. */
module LinearExpr {
  import opened Wrappers

  datatype LinExprError =
    | CoeffInvalid      // an empty coefficient vector
    | IndexOutOfBounds  // a variable index outside 1..nvars
    | AssertionError    // a violated equality/inequality assumption

  /** Entry `k` of a coefficient vector, reading past its end as zero. */
  function At(c: seq<real>, k: nat): real
  {
    if k < |c| then c[k] else 0.0
  }

  /** Two coefficient vectors denote the same affine expression: they
      agree everywhere once the shorter one is padded with zeros. */
  ghost predicate SameExpr(a: seq<real>, b: seq<real>)
  {
    forall k: nat :: At(a, k) == At(b, k)
  }

  predicate AllZero(s: seq<real>)
  {
    forall k | 0 <= k < |s| :: s[k] == 0.0
  }

  /** The source's equality on whole coefficient vectors: equal constants,
      then the variable parts compared on their common prefix with the
      longer one's extra entries all zero. */
  function PaddedEq(a: seq<real>, b: seq<real>): bool
    requires |a| > 0 && |b| > 0
  {
    if a[0] != b[0] then false
    else
      var sc, oc := a[1..], b[1..];
      if |sc| < |oc| then AllZero(oc[|sc|..]) && sc == oc[..|sc|]
      else if |sc| == |oc| then sc == oc
      else AllZero(sc[|oc|..]) && sc[..|oc|] == oc
  }

  /** One direction of the padded comparison: `a` is no longer than `b`. */
  lemma PrefixPaddedIsSame(a: seq<real>, b: seq<real>)
    requires |a| <= |b|
    ensures (AllZero(b[|a|..]) && a == b[..|a|]) <==> SameExpr(a, b)
  {
    if SameExpr(a, b) {
      forall k | 0 <= k < |b| - |a| ensures b[|a|..][k] == 0.0 {
        assert At(a, |a| + k) == At(b, |a| + k);
      }
      forall k | 0 <= k < |a| ensures a[k] == b[..|a|][k] {
        assert At(a, k) == At(b, k);
      }
    }
    if AllZero(b[|a|..]) && a == b[..|a|] {
      forall k: nat ensures At(a, k) == At(b, k) {
        if |a| <= k < |b| {
          assert b[|a|..][k - |a|] == b[k];
        }
      }
    }
  }

  /** The padded equality holds exactly when the two vectors denote the
      same expression. */
  lemma PaddedEqIsSameExpr(a: seq<real>, b: seq<real>)
    requires |a| > 0 && |b| > 0
    ensures PaddedEq(a, b) <==> SameExpr(a, b)
  {
    var sc, oc := a[1..], b[1..];
    assert SameExpr(a, b) <==> a[0] == b[0] && SameExpr(sc, oc) by {
      if SameExpr(a, b) {
        assert At(a, 0) == At(b, 0);
        forall k: nat ensures At(sc, k) == At(oc, k) {
          assert At(a, k + 1) == At(b, k + 1);
        }
      }
      if a[0] == b[0] && SameExpr(sc, oc) {
        forall k: nat ensures At(a, k) == At(b, k) {
          if k > 0 {
            assert At(sc, k - 1) == At(oc, k - 1);
          }
        }
      }
    }
    if |sc| <= |oc| {
      PrefixPaddedIsSame(sc, oc);
    } else {
      PrefixPaddedIsSame(oc, sc);
    }
  }

  /** The padded equality is symmetric. */
  lemma PaddedEqSymmetric(a: seq<real>, b: seq<real>)
    requires |a| > 0 && |b| > 0
    ensures PaddedEq(a, b) == PaddedEq(b, a)
  {
    PaddedEqIsSameExpr(a, b);
    PaddedEqIsSameExpr(b, a);
  }

  /** The documented examples: `[0,1,0] == [0,1]`, `[0,1,2] != [0,1]`,
      `[0,1,2] != [0,1,0]` and `[-1,1,2] != [0,1,2]`. */
  lemma PaddedEqExamples()
    ensures PaddedEq([0.0, 1.0, 0.0], [0.0, 1.0]) && PaddedEq([0.0, 1.0], [0.0, 1.0, 0.0])
    ensures !PaddedEq([0.0, 1.0, 2.0], [0.0, 1.0]) && !PaddedEq([0.0, 1.0], [0.0, 1.0, 2.0])
    ensures !PaddedEq([0.0, 1.0, 0.0], [0.0, 1.0, 2.0])
    ensures !PaddedEq([0.0, 1.0, 2.0], [-1.0, 1.0, 2.0])
  {
    assert [0.0, 1.0, 0.0][1..][..1] == [1.0];
    assert [0.0, 1.0, 0.0][1..][1..] == [0.0];
    assert [0.0, 1.0, 2.0][1..][1..] == [2.0];
    assert [0.0, 1.0, 0.0][1..] != [0.0, 1.0, 2.0][1..] by {
      assert [0.0, 1.0, 0.0][1..][1] != [0.0, 1.0, 2.0][1..][1];
    }
  }

  /** An affine expression over `x_1 .. x_n`. Slot 0 of `coeff` holds the
      constant term, slot `i >= 1` the coefficient of `x_i`. */
  class LinExpr {
    var coeff: seq<real>

    /** The constant slot always exists. */
    ghost predicate Valid()
      reads this
    {
      |coeff| > 0
    }

    constructor Init(coeffs: seq<real>)
      requires |coeffs| > 0
      ensures Valid() && coeff == coeffs
    {
      coeff := coeffs;
    }

    /** `LinExpr::new`: fails with `CoeffInvalid` exactly on an empty
        vector; otherwise stores the coefficients verbatim. */
    static method New(coeffs: seq<real>) returns (r: Result<LinExpr, LinExprError>)
      ensures r.Err? <==> coeffs == []
      ensures r.Err? ==> r.error == CoeffInvalid
      ensures r.Ok? ==> fresh(r.value) && r.value.Valid() && r.value.coeff == coeffs
    {
      if coeffs == [] {
        r := Err(CoeffInvalid);
      } else {
        var e := new LinExpr.Init(coeffs);
        r := Ok(e);
      }
    }

    /** `LinExpr::new_zeros`: the zero expression over `nvars` variables. */
    constructor NewZeros(nvars: nat)
      ensures Valid() && NVars() == nvars && Const() == 0.0
      ensures forall i :: 1 <= i <= nvars ==> coeff[i] == 0.0
    {
      coeff := seq(nvars + 1, _ => 0.0);
    }

    /** Adds variable `x_{n+1}` with coefficient `value`; nothing is renumbered. */
    method AddVar(value: real)
      requires Valid()
      modifies this
      ensures Valid() && NVars() == old(NVars()) + 1
      ensures coeff == old(coeff) + [value]
    {
      coeff := coeff + [value];
    }

    /** Number of variables, counting those with coefficient zero. */
    function NVars(): nat
      reads this
      requires Valid()
    {
      |coeff| - 1
    }

    /** The coefficient of `x_i`, or `IndexOutOfBounds` outside `1..nvars`. */
    function Coeff(i: nat): (r: Result<real, LinExprError>)
      reads this
      requires Valid()
      ensures r.Ok? <==> 1 <= i <= NVars()
      ensures r.Ok? ==> r.value == coeff[i]
      ensures r.Err? ==> r.error == IndexOutOfBounds
    {
      if 1 <= i && i <= NVars() then Ok(coeff[i]) else Err(IndexOutOfBounds)
    }

    /** Raw slot access; out of range is a panic in the source. */
    function CoeffUnchecked(i: nat): real
      reads this
      requires i < |coeff|
    {
      coeff[i]
    }

    /** Sets the coefficient of `x_i`, leaving the constant and every other
        slot alone; out of range it fails and changes nothing. */
    method SetCoeff(i: nat, value: real) returns (r: Result<(), LinExprError>)
      requires Valid()
      modifies this
      ensures Valid() && NVars() == old(NVars())
      ensures r.Ok? <==> 1 <= i <= old(NVars())
      ensures r.Ok? ==> coeff == old(coeff)[i := value]
      ensures r.Err? ==> r.error == IndexOutOfBounds && coeff == old(coeff)
    {
      if 1 <= i && i <= NVars() {
        coeff := coeff[i := value];
        r := Ok(());
      } else {
        r := Err(IndexOutOfBounds);
      }
    }

    /** Raw slot update; out of range is a panic in the source. */
    method SetCoeffUnchecked(i: nat, value: real)
      requires i < |coeff|
      modifies this
      ensures coeff == old(coeff)[i := value]
    {
      coeff := coeff[i := value];
    }

    /** The variable coefficients `a_1 .. a_n`. */
    function Coeffs(): (r: seq<real>)
      reads this
      requires Valid()
      ensures |r| == NVars()
      ensures forall i :: 1 <= i <= NVars() ==> r[i - 1] == coeff[i]
    {
      coeff[1..]
    }

    /** The constant term. */
    function Const(): real
      reads this
      requires Valid()
    {
      coeff[0]
    }

    /** Sets the constant term, leaving every coefficient alone. */
    method SetConst(value: real)
      requires Valid()
      modifies this
      ensures Valid() && coeff == old(coeff)[0 := value]
    {
      coeff := coeff[0 := value];
    }

    /** Whether `x_i` is in the support: `coeff(i)` succeeds with a
        non-zero value. Index 0 (the constant) and indices past the end
        are never supported. */
    function Supported(i: nat): (r: bool)
      reads this
      requires Valid()
      ensures r <==> Coeff(i).Ok? && Coeff(i).value != 0.0
      ensures r ==> 1 <= i <= NVars()
    {
      if 1 <= i && i <= NVars() then coeff[i] != 0.0 else false
    }

    /** The source's `PartialEq`: equality up to trailing zero padding. */
    function Equals(other: LinExpr): (r: bool)
      reads this, other
      requires Valid() && other.Valid()
      ensures r <==> SameExpr(coeff, other.coeff)
    {
      PaddedEqIsSameExpr(coeff, other.coeff);
      PaddedEq(coeff, other.coeff)
    }
  }

  /** The unit tests of the basic API and of `add_var`, as a client of the
      contracts above. */
  method BasicApiExample()
  {
    var r := LinExpr.New([1.0, 0.0, 1.0]);
    var e1 := r.value;
    assert e1.NVars() == 2 && e1.Const() == 1.0;
    assert e1.Coeff(1) == Ok(0.0) && e1.Coeff(2) == Ok(1.0);
    assert !e1.Supported(1) && e1.Supported(2);
    assert !e1.Supported(0) && !e1.Supported(3);
    e1.AddVar(3.0);
    assert e1.NVars() == 3 && e1.Coeff(2) == Ok(1.0) && e1.Coeff(3) == Ok(3.0);
    assert e1.Supported(3);

    var e2 := new LinExpr.NewZeros(0);
    assert e2.NVars() == 0 && e2.Const() == 0.0;
    assert e2.Coeff(1).Err? && !e2.Supported(1);
    e2.AddVar(-1.0);
    assert e2.NVars() == 1 && e2.Const() == 0.0;
    assert e2.Coeff(1) == Ok(-1.0) && e2.Supported(1);

    var empty := LinExpr.New([]);
    assert empty == Err(CoeffInvalid);
  }
}
