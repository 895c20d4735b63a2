/** Linear relations `lhs = 0` and `lhs <= 0`, and substitution of a
    variable using an equality (src/lin_rel.rs). */
module LinearRel {
  import opened Wrappers
  import opened LinearExpr

  datatype Constraint = Eq | Le

  /** `lhs constraint 0`. The relation owns its left-hand side. */
  datatype LinRel = LinRel(lhs: LinExpr, constraint: Constraint)

  function MkEq(lhs: LinExpr): (r: LinRel)
    ensures r.lhs == lhs && IsEquality(r)
  {
    LinRel(lhs, Eq)
  }

  function MkLe(lhs: LinExpr): (r: LinRel)
    ensures r.lhs == lhs && !IsEquality(r)
  {
    LinRel(lhs, Le)
  }

  predicate IsEquality(rel: LinRel)
  {
    rel.constraint.Eq?
  }

  // ---------------------------------------------------------------------
  // Meaning of a coefficient vector under an assignment. Variable `x_j`
  // (1-based) takes the value `x[j - 1]`.

  /** `c[from] * x_from + ... + c[n] * x_n`. */
  function SumFrom(c: seq<real>, x: seq<real>, from: nat): real
    requires 1 <= from && |x| == |c| - 1
    decreases |c| - from
  {
    if from >= |c| then 0.0 else c[from] * x[from - 1] + SumFrom(c, x, from + 1)
  }

  /** The value of `c[0] + c[1] x_1 + ... + c[n] x_n`. */
  function Eval(c: seq<real>, x: seq<real>): real
    requires |c| > 0 && |x| == |c| - 1
  {
    c[0] + SumFrom(c, x, 1)
  }

  /** Whether the relation `c constraint 0` holds under `x`. */
  predicate Holds(k: Constraint, c: seq<real>, x: seq<real>)
    requires |c| > 0 && |x| == |c| - 1
  {
    match k
    case Eq => Eval(c, x) == 0.0
    case Le => Eval(c, x) <= 0.0
  }

  // ---------------------------------------------------------------------
  // Choosing a pivot.

  /** Index of the first non-zero entry, as `Iterator::position` finds it. */
  function Position(cs: seq<real>): (r: Option<nat>)
    ensures r.Some? ==> r.value < |cs| && cs[r.value] != 0.0
    ensures r.Some? ==> forall k :: 0 <= k < r.value ==> cs[k] == 0.0
    ensures r.None? ==> forall k :: 0 <= k < |cs| ==> cs[k] == 0.0
  {
    if cs == [] then None
    else if cs[0] != 0.0 then Some(0)
    else match Position(cs[1..])
      case None => None
      case Some(p) => Some(p + 1)
  }

  /** `is_subs`: for an equality, the 1-based index of the first variable
      with a non-zero coefficient; `None` for an inequality or when every
      coefficient is zero. */
  function IsSubs(rel: LinRel): (r: Option<nat>)
    reads rel.lhs
    requires rel.lhs.Valid()
    ensures r.None? <==> !IsEquality(rel) || forall k :: 1 <= k <= rel.lhs.NVars() ==> rel.lhs.coeff[k] == 0.0
    ensures r.Some? ==> 1 <= r.value <= rel.lhs.NVars() && rel.lhs.coeff[r.value] != 0.0
    ensures r.Some? ==> forall k :: 1 <= k < r.value ==> rel.lhs.coeff[k] == 0.0
  {
    if rel.constraint != Eq then None
    else
      var cs := rel.lhs.Coeffs();
      match Position(cs)
      case None => None
      case Some(p) => Some(p + 1)
  }

  /** `is_subs_for`: whether the relation is an equality that can be
      solved for `x_i`; false for indices out of range. */
  function IsSubsFor(rel: LinRel, i: nat): (r: bool)
    reads rel.lhs
    requires rel.lhs.Valid()
    ensures r <==> IsEquality(rel) && 1 <= i <= rel.lhs.NVars() && rel.lhs.coeff[i] != 0.0
  {
    if rel.constraint != Eq then false
    else match rel.lhs.Coeff(i)
      case Ok(c) => c != 0.0
      case Err(_) => false
  }

  /** The pivot `IsSubs` picks is one `IsSubsFor` accepts, and it is the
      smallest such index. */
  lemma IsSubsIsFirstSubsFor(rel: LinRel, i: nat)
    requires rel.lhs.Valid()
    ensures IsSubs(rel).Some? ==> IsSubsFor(rel, IsSubs(rel).value)
    ensures IsSubsFor(rel, i) ==> IsSubs(rel).Some? && IsSubs(rel).value <= i
  {
  }

  // ---------------------------------------------------------------------
  // Substitution.

  /** The coefficient vector `subs` builds: with `m = -1 / o[i]`, every
      slot `j` (the constant included) becomes `s[j] + m * o[j] * s[i]`.
      The result no longer mentions `x_i`, and a slot where `o` is zero is
      left as it was. */
  function SubsCoeffs(s: seq<real>, o: seq<real>, i: nat): (r: seq<real>)
    requires |s| == |o| && 1 <= i < |o| && o[i] != 0.0
    ensures |r| == |s|
    ensures r[i] == 0.0
    ensures forall j :: 0 <= j < |s| && o[j] == 0.0 ==> r[j] == s[j]
  {
    var m := -1.0 / o[i];
    seq(|s|, j requires 0 <= j < |s| => s[j] + m * o[j] * s[i])
  }

  /** Linearity of the variable part: if `r = s + k o` slot by slot, the
      sums follow. */
  lemma {:induction false} SumFromCombine(r: seq<real>, s: seq<real>, o: seq<real>, k: real, x: seq<real>, from: nat)
    requires |r| == |s| == |o| && |x| == |s| - 1 && 1 <= from
    requires forall j :: 0 <= j < |s| ==> r[j] == s[j] + k * o[j]
    ensures SumFrom(r, x, from) == SumFrom(s, x, from) + k * SumFrom(o, x, from)
    decreases |s| - from
  {
    if from < |s| {
      SumFromCombine(r, s, o, k, x, from + 1);
      calc {
        r[from] * x[from - 1];
        (s[from] + k * o[from]) * x[from - 1];
        s[from] * x[from - 1] + k * (o[from] * x[from - 1]);
      }
    }
  }

  /** Soundness of substitution: under every assignment where the pivot
      equality `o = 0` holds, the substituted expression has the same
      value as the original. */
  lemma SubsSound(s: seq<real>, o: seq<real>, i: nat, x: seq<real>)
    requires |s| == |o| && 1 <= i < |o| && o[i] != 0.0
    requires |x| == |s| - 1
    requires Eval(o, x) == 0.0
    ensures Eval(SubsCoeffs(s, o, i), x) == Eval(s, x)
  {
    var r := SubsCoeffs(s, o, i);
    var k := (-1.0 / o[i]) * s[i];
    forall j | 0 <= j < |s| ensures r[j] == s[j] + k * o[j] {
      calc {
        r[j];
        s[j] + (-1.0 / o[i]) * o[j] * s[i];
        s[j] + k * o[j];
      }
    }
    SumFromCombine(r, s, o, k, x, 1);
    calc {
      Eval(r, x);
      r[0] + SumFrom(r, x, 1);
      s[0] + k * o[0] + SumFrom(s, x, 1) + k * SumFrom(o, x, 1);
      Eval(s, x) + k * Eval(o, x);
    }
  }

  /** Consequently the substituted relation holds exactly where the
      original does, whenever the pivot equality holds. */
  lemma SubsPreservesHolds(k: Constraint, s: seq<real>, o: seq<real>, i: nat, x: seq<real>)
    requires |s| == |o| && 1 <= i < |o| && o[i] != 0.0
    requires |x| == |s| - 1
    requires Holds(Eq, o, x)
    ensures Holds(k, SubsCoeffs(s, o, i), x) <==> Holds(k, s, x)
  {
    SubsSound(s, o, i, x);
  }

  /** The worked examples of the source's documentation and tests. */
  lemma SubsExamples()
    ensures SubsCoeffs([0.0, 3.0, 4.0, 0.0], [0.0, -3.0, 1.0, 2.0], 2) == [0.0, 15.0, 0.0, -8.0]
    ensures SubsCoeffs([0.0, 3.0, 4.0], [0.0, -3.0, 1.0], 2) == [0.0, 15.0, 0.0]
    ensures SubsCoeffs([-1.0, 3.0, 5.0], [7.0, -1.0, 1.0], 1) == [20.0, 0.0, 8.0]
  {
  }

  /** `subs`: eliminates `x_i` from `rel` using the equality `other`.
      Fails with `AssertionError` when `other` is not an equality and with
      `IndexOutOfBounds` when `i` is not a variable of `other`. The source
      divides by `other`'s coefficient on `x_i` and indexes `rel` with the
      same `i`, so both must be in order before the call. */
  method Subs(rel: LinRel, i: nat, other: LinRel) returns (res: Result<LinRel, LinExprError>)
    requires rel.lhs.Valid() && other.lhs.Valid()
    requires other.lhs.NVars() == rel.lhs.NVars()
    requires IsEquality(other) && 1 <= i <= other.lhs.NVars() ==> other.lhs.coeff[i] != 0.0
    ensures !IsEquality(other) ==> res == Err(AssertionError)
    ensures IsEquality(other) && !(1 <= i <= rel.lhs.NVars()) ==> res == Err(IndexOutOfBounds)
    ensures res.Ok? <==> IsSubsFor(other, i)
    ensures res.Ok? ==> res.value.constraint == rel.constraint && res.value.lhs.Valid()
    ensures res.Ok? ==> fresh(res.value.lhs)
    ensures res.Ok? ==> res.value.lhs.coeff == SubsCoeffs(rel.lhs.coeff, other.lhs.coeff, i)
  {
    if other.constraint != Eq {
      return Err(AssertionError);
    }
    var n := rel.lhs.NVars();
    var a := other.lhs.Coeff(i);
    if a.Err? {
      return Err(a.error);
    }
    var m := -1.0 / a.value;
    var seCoeff := rel.lhs.CoeffUnchecked(i);
    var newLhs := new LinExpr.NewZeros(n);
    for j := 1 to n + 1
      invariant |newLhs.coeff| == n + 1
      invariant forall k :: 1 <= k < j ==>
        newLhs.coeff[k] == rel.lhs.coeff[k] + m * other.lhs.coeff[k] * seCoeff
    {
      newLhs.SetCoeffUnchecked(j, rel.lhs.CoeffUnchecked(j) + m * other.lhs.CoeffUnchecked(j) * seCoeff);
    }
    newLhs.SetConst(rel.lhs.Const() + m * other.lhs.Const() * seCoeff);
    ghost var spec := SubsCoeffs(rel.lhs.coeff, other.lhs.coeff, i);
    assert forall k :: 0 <= k <= n ==> newLhs.coeff[k] == spec[k];
    res := Ok(LinRel(newLhs, rel.constraint));
  }

  /** The source's tests of `is_subs`, `is_subs_for` and `subs`, as a
      client of the contracts above. */
  method SubsApiExample()
  {
    var e := new LinExpr.Init([0.0, 1.0, 2.0, 0.0]);
    var eq1 := MkEq(e);
    assert eq1.lhs.NVars() == 3;
    assert IsSubs(eq1) == Some(1);
    assert IsSubsFor(eq1, 1) && IsSubsFor(eq1, 2) && !IsSubsFor(eq1, 3);

    var e1 := new LinExpr.Init([0.0, 3.0, 4.0, 0.0]);
    var e2 := new LinExpr.Init([0.0, -3.0, 1.0, 2.0]);
    var le, other := MkLe(e1), MkEq(e2);
    var res := Subs(le, 2, other);
    SubsExamples();
    assert res.Ok? && res.value.constraint == Le;
    assert res.value.lhs.coeff == [0.0, 15.0, 0.0, -8.0];
    assert !res.value.lhs.Supported(2);

    var bad := Subs(other, 2, le);
    assert bad == Err(AssertionError);
  }
}
