/** The prototype linear expressions and relations of the Fourier-Motzkin
    module (src/fme/expr.rs). Unlike `LinearExpr.LinExpr` there is no
    constant slot: every entry of `coeff`, index 0 included, is an
    ordinary coefficient. The source's `i64` coefficients are `int`; no
    arithmetic is done on them, so overflow cannot arise. */
module FmeExpr {
  import opened Wrappers

  /** `Vec::get`: the entry at `i`, or `None` past the end. */
  function Get(s: seq<int>, i: nat): (r: Option<int>)
    ensures r.Some? <==> i < |s|
    ensures r.Some? ==> r.value == s[i]
  {
    if i < |s| then Some(s[i]) else None
  }

  datatype LExpr = LExpr(coeff: seq<int>)
  {
    /** `LExpr::new` copies the slice verbatim. */
    static function New(coeffs: seq<int>): (e: LExpr)
      ensures e.coeff == coeffs && e.NVars() == |coeffs|
    {
      LExpr(coeffs)
    }

    /** The number of slots. */
    function NVars(): nat
    {
      |coeff|
    }

    /** Slot `index` exists and holds a strictly positive coefficient; an
        out-of-range index is unsupported, not an error, and a negative
        coefficient is unsupported too. */
    function Supported(index: nat): (r: bool)
      ensures r <==> index < NVars() && coeff[index] > 0
    {
      match Get(coeff, index)
      case Some(x) => x > 0
      case None => false
    }
  }

  /** `lhs = rhs` or `lhs <= rhs`; both sides are kept as given. */
  datatype LRel =
    | Eq(lhs: LExpr, rhs: LExpr)
    | LessEq(lhs: LExpr, rhs: LExpr)

  function MkEq(lhs: LExpr, rhs: LExpr): (r: LRel)
    ensures r.Eq? && r.lhs == lhs && r.rhs == rhs
  {
    Eq(lhs, rhs)
  }

  function MkLessEq(lhs: LExpr, rhs: LExpr): (r: LRel)
    ensures r.LessEq? && r.lhs == lhs && r.rhs == rhs
  {
    LessEq(lhs, rhs)
  }

  /** The source's test: `[1, 0, 1]` supports slots 0 and 2 but not slot
      1 nor the out-of-range slot 3; a negative coefficient is not
      supported. */
  lemma SupportExamples()
    ensures LExpr.New([1, 0, 1]).Supported(0)
    ensures !LExpr.New([1, 0, 1]).Supported(1)
    ensures LExpr.New([1, 0, 1]).Supported(2)
    ensures !LExpr.New([1, 0, 1]).Supported(3)
    ensures !LExpr.New([-1, 2]).Supported(0) && LExpr.New([-1, 2]).Supported(1)
  {
  }
}
