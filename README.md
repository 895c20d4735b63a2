# presburger — normalisation and linear-algebra core, in Dafny

This project models the core of `presburger`, a decision procedure for
Presburger arithmetic written in Rust. The model covers:

- **Formula tree** (`src/ast.rs`, module `Ast`): the immutable `Formula`,
  `Atom`, `Term` and `Var` trees, their smart constructors and the
  hand-written syntactic equality of each. Every equality is proved to
  coincide with structural equality.
- **Negation normal form** (`src/nnf.rs`, module `Nnf`):
  - `remove_impl` rewrites `==>` and `<==>` away, bottom-up.
  - `to_nnf` cancels double negations and applies De Morgan, top-down.
  - Proved: the output is in normal form and has no implications,
    `to_nnf` is idempotent, its rewrite laws hold, a normal form is a
    fixpoint, and termination is shown. Both passes are also proved to
    preserve meaning under a ghost semantics of formulas.
- **Affine linear expressions** (`src/lin_expr.rs`, module `LinearExpr`):
  - `LinExpr` is a class whose coefficient vector `coeff` is updated in
    place. Slot 0 holds the constant and slot `i` holds the coefficient of
    `x_i`.
  - Its operations are checked accessors and mutators with their error
    cases (`LinExprError`), the support test, and the zero-padding
    equality.
  - The padding equality is proved to be "same affine expression".
- **Linear relations** (`src/lin_rel.rs`, module `LinearRel`):
  - `lhs = 0` and `lhs <= 0`, pivot selection (`is_subs`, `is_subs_for`)
    and substitution (`subs`).
  - `subs` is a method with the source's loop. It is proved to build
    `SubsCoeffs`.
  - `SubsCoeffs` is proved sound: wherever the pivot equality holds, the
    substituted expression has the same value as the original.
- **Integer-tightening helpers** (`src/fme.rs`, module `FmeUtil`):
  `div_floor`, `symmod` and `symmod_alt` over exact rationals (`real`).
  Proved:
  - the floor contract of `div_floor`;
  - that the symmetric residue lies in `[-b/2, b/2)` and differs from `a`
    by a multiple of `b`;
  - that the two symmetric-modulo formulations agree for every `b > 0`.
- **Prototype expressions** (`src/fme/expr.rs`, module `FmeExpr`): the
  unwired `LExpr`/`LRel` prototype over integer coefficients.

The Rust rational type is modelled as Dafny `real` (exact rationals).
Coefficients are `real` everywhere except in the prototype `FmeExpr.LExpr`, which keeps the source's integer coefficients as `int`. `nnf.rs` calls the formula type
`Pred`; here it is `Ast.Formula`. Option and Result values live in module
`Wrappers`.

## Model

| member | source | states |
|---|---|---|
| Ast.NewVar | src/ast.rs:224-227 | the variable holds exactly the given name |
| Ast.FNot | src/ast.rs:41-44 | builds a `Not` node whose child is the argument |
| Ast.FAnd | src/ast.rs:46-48 | builds an `And` node with the two arguments in order |
| Ast.FOr | src/ast.rs:50-52 | builds an `Or` node with the two arguments in order |
| Ast.Implies | src/ast.rs:54-56 | builds an `Impl` node, premise first |
| Ast.FIff | src/ast.rs:58-60 | builds an `Iff` node with the two arguments in order |
| Ast.FExists | src/ast.rs:62-64 | builds an `Exists` node binding the given variable over the body |
| Ast.FForall | src/ast.rs:66-68 | builds a `Forall` node binding the given variable over the body |
| Ast.FormulaAtom | src/ast.rs:70-72 | wraps an atom as a formula, unchanged |
| Ast.Truth | src/ast.rs:123-125 | the truth-value atom carries the given boolean |
| Ast.AtomVar | src/ast.rs:127-129 | the logical-variable atom carries a variable of that name |
| Ast.AtomEquality | src/ast.rs:131-133 | `t1 = t2` keeps both terms in order |
| Ast.AtomLessEq | src/ast.rs:135-137 | `t1 <= t2` keeps both terms in order |
| Ast.TermNum | src/ast.rs:183-185 | the literal term carries the given rational |
| Ast.TermScalarVar | src/ast.rs:187-189 | `s * x` keeps the scale and a variable of that name |
| Ast.TermAdd | src/ast.rs:192-194 | `t1 + t2` keeps both summands in order |
| Ast.VarEq | src/ast.rs:219-221 | derived `Var` equality holds iff the two variables are identical (exact string equality) |
| Ast.TermEqIsIdentity | src/ast.rs:206-216 | the hand-written `Term` equality holds iff the two trees are identical |
| Ast.AtomEqIsIdentity | src/ast.rs:150-165 | the hand-written `Atom` equality holds iff the two atoms are identical |
| Ast.FormulaEqIsIdentity | src/ast.rs:89-104 | the hand-written `Formula` equality holds iff the two trees are identical, by induction on the trees |
| Ast.EqReflexive | src/ast.rs:256-316 | every term, atom and formula is equal to itself |
| Ast.DifferentConstructorsUnequal | src/ast.rs:89-104 | nodes with different constructors never compare equal (the `_ => false` arms) |
| Ast.VarEqExamples | src/ast.rs:239-254 | `x = x`, `x != y` and the comparison is case-sensitive: `x != X` |
| Ast.TermEqIsSyntactic | src/ast.rs:256-276 | `0 != 1`, `x != x + 1`, and `x + 0` differs from `x`: equality is syntactic, not semantic |
| Ast.SeparatelyBuiltEqual | src/ast.rs:278-316 | values built separately from equal parts compare equal: `a4 == a5`, `p2 == p2_` and `p4 == p4_` as concrete instances, and `~p`, `~p /\ p` for any two equal formulas `p`, `p'` |
| Nnf.RemoveImpl | src/nnf.rs:60-104 | the result has no `Impl`/`Iff`; `Impl` becomes an `Or`, `Iff` an `And`; other connectives, quantifiers and their bound variables are kept; atoms are returned as they are |
| Nnf.RemoveImplIdentity | src/nnf.rs:60-104 | on a formula without `Impl`/`Iff` the rewrite is the identity |
| Nnf.RemoveImplIdempotent | src/nnf.rs:60-104 | rewriting twice equals rewriting once |
| Nnf.ToNnf | src/nnf.rs:12-58 | the result is in negation normal form (no `Impl`/`Iff`, every `Not` directly on an atom or a quantifier); atoms are unchanged; quantifiers keep their variable; the recursion terminates and the panic arm is unreachable |
| Nnf.RemoveImplSound | src/nnf.rs:60-104 | under every assignment of the numerical and logical variables, the rewritten formula holds iff the original does |
| Nnf.ToNnfSound | src/nnf.rs:5-58 | under every assignment, the normal form holds iff the original formula does: the reduction is an equivalence |
| Nnf.ToNnfThroughRemoveImpl | src/nnf.rs:12-13 | `to_nnf` looks at its argument only through `remove_impl` |
| Nnf.DoubleNegation | src/nnf.rs:18-19 | `~~P` normalises exactly as `P` does |
| Nnf.DeMorganAnd | src/nnf.rs:20-21 | `~(P /\ Q)` normalises to `nnf(~P) \/ nnf(~Q)` |
| Nnf.DeMorganOr | src/nnf.rs:22-23 | `~(P \/ Q)` normalises to `nnf(~P) /\ nnf(~Q)` |
| Nnf.ImplicationElimination | src/nnf.rs:75-79 | `P ==> Q` normalises exactly as `~P \/ Q` does |
| Nnf.NnfIsImplFree | src/nnf.rs:5-11 | a formula in negation normal form has no `Impl`/`Iff` |
| Nnf.NnfFixpoint | src/nnf.rs:12-58 | a formula already in negation normal form is returned unchanged |
| Nnf.ToNnfIdempotent | src/nnf.rs:12-58 | the output has no `Impl`/`Iff` and normalising it again changes nothing |
| Nnf.DoubleNegationOfAtom | src/nnf.rs:112-121 | the unit test: `~~P` normalises to `P` |
| Nnf.NegationStopsAtQuantifier | src/nnf.rs:24 | a negated quantifier keeps its `Not`: `(exists A. F) ==> F` becomes `~(exists A. F) \/ F` |
| LinearExpr.PrefixPaddedIsSame | src/lin_expr.rs:95-99 | for the shorter vector, "longer one's tail is all zero and the common prefixes agree" holds iff both denote the same expression |
| LinearExpr.PaddedEqIsSameExpr | src/lin_expr.rs:88-101 | the source's padded comparison holds iff the two vectors agree at every index once padded with zeros |
| LinearExpr.PaddedEqSymmetric | src/lin_expr.rs:57-101 | the padded comparison is symmetric |
| LinearExpr.PaddedEqExamples | src/lin_expr.rs:66-85 | the documented cases: `[0,1,0] == [0,1]` both ways, `[0,1,2] != [0,1]`, `[0,1,2] != [0,1,0]`, `[-1,1,2] != [0,1,2]` |
| LinearExpr.LinExpr.Init | src/lin_expr.rs:145-147 | the struct literal: a valid expression holding the given non-empty vector verbatim |
| LinearExpr.LinExpr.New | src/lin_expr.rs:141-149 | fails with `CoeffInvalid` exactly on an empty vector; otherwise a fresh valid expression holding the coefficients verbatim |
| LinearExpr.LinExpr.NewZeros | src/lin_expr.rs:152-156 | the zero expression over `nvars` variables: `nvars` slots plus the constant, all zero |
| LinearExpr.LinExpr.AddVar | src/lin_expr.rs:160-167 | appends `x_{n+1}` with the given coefficient; every existing slot is kept and `nvars` grows by one |
| LinearExpr.LinExpr.Coeff | src/lin_expr.rs:170-176 | succeeds iff `1 <= i <= nvars`, then with the coefficient of `x_i`; otherwise `IndexOutOfBounds` |
| LinearExpr.LinExpr.SetCoeff | src/lin_expr.rs:183-190 | succeeds iff `1 <= i <= nvars` and then changes slot `i` only; on `IndexOutOfBounds` nothing changes |
| LinearExpr.LinExpr.SetCoeffUnchecked | src/lin_expr.rs:193-195 | changes slot `i` only |
| LinearExpr.LinExpr.Coeffs | src/lin_expr.rs:198-200 | the `nvars` variable coefficients, entry `i - 1` being that of `x_i` |
| LinearExpr.LinExpr.SetConst | src/lin_expr.rs:213-215 | changes the constant slot only |
| LinearExpr.LinExpr.Supported | src/lin_expr.rs:218-224 | true iff `coeff(i)` succeeds with a non-zero value; index 0 and indices past `nvars` are never supported |
| LinearExpr.LinExpr.Equals | src/lin_expr.rs:57-101 | the custom `PartialEq` holds iff the two expressions agree at every index after zero padding |
| LinearRel.IsEquality | src/lin_rel.rs:71-73 | true exactly for an `Eq` relation; `MkEq` builds relations where it holds and `MkLe` ones where it fails |
| LinearRel.MkEq | src/lin_rel.rs:41-46 | an equality relation over the given left-hand side |
| LinearRel.MkLe | src/lin_rel.rs:48-53 | an inequality relation over the given left-hand side |
| LinearRel.Position | src/lin_rel.rs:83-87 | `position(!is_zero)`: the first non-zero index, or none iff every entry is zero |
| LinearRel.IsSubs | src/lin_rel.rs:75-88 | `None` iff not an equality or every variable coefficient is zero; otherwise the smallest 1-based index with a non-zero coefficient |
| LinearRel.IsSubsFor | src/lin_rel.rs:90-102 | true iff the relation is an equality, `1 <= i <= nvars` and the coefficient of `x_i` is non-zero |
| LinearRel.IsSubsIsFirstSubsFor | src/lin_rel.rs:75-102 | the pivot `is_subs` returns is accepted by `is_subs_for` and is the smallest accepted index |
| LinearRel.SubsCoeffs | src/lin_rel.rs:136-152 | the substituted vector has the same length, a zero coefficient for the eliminated `x_i`, and unchanged slots wherever `other` is zero |
| LinearRel.SumFromCombine | src/lin_rel.rs:144-151 | a slot-wise combination `s + k o` evaluates to `eval(s) + k eval(o)` |
| LinearRel.SubsSound | src/lin_rel.rs:104-159 | under every assignment where the pivot equality holds, the substituted expression has the value of the original |
| LinearRel.SubsPreservesHolds | src/lin_rel.rs:104-159 | under every assignment where the pivot equality holds, the substituted relation holds iff the original does |
| LinearRel.SubsExamples | src/lin_rel.rs:110-124 | the three worked examples: `[0,15,0,-8]`, `[0,15,0]` and `[20,0,8]` |
| LinearRel.Subs | src/lin_rel.rs:125-159 | `AssertionError` iff `other` is not an equality, `IndexOutOfBounds` for an index outside `1..nvars`; on success the constraint is kept and the new left-hand side is a freshly allocated expression holding exactly `SubsCoeffs` |
| FmeUtil.Rem | src/fme.rs:39 | the truncated remainder `num % den`: it differs from `num` by an integer multiple of `den`, is smaller than `den` in absolute value and never has the opposite sign to `num`, which together determine it |
| FmeUtil.Trunc | src/fme.rs:39 | truncation toward zero: the integer between zero and `x` at distance below one |
| FmeUtil.DivFloorAsWritten | src/fme.rs:36-46 | as written the result is the exact quotient or one below it, never rounded to an integer; it equals the exact quotient (hence the floor) when the division is exact |
| FmeUtil.SymModAsWritten | src/fme.rs:15-21 | `symmod` on the as-written `div_floor` agrees with the corrected `SymMod` whenever `(2a + b) / 2b` is an integer |
| FmeUtil.AsWrittenCounterexamples | src/fme.rs:35-59 | as written `div_floor(7,2) = 7/2` and `div_floor(-7,2) = -9/2`, so `symmod(3,4) = -2` rather than `-1` |
| FmeUtil.DivFloor | src/fme.rs:35-47 | the result is an integer `d` with `d <= num/den < d + 1` |
| FmeUtil.DivFloorIsFloor | src/fme.rs:35-47 | the truncate-then-fix-up computation equals the floor of `num/den` for every sign combination |
| FmeUtil.DivFloorBounds | src/fme.rs:35-47 | `d * den <= num < (d + 1) * den` for `den > 0`, and the mirrored bounds for `den < 0` |
| FmeUtil.RemEuclid | src/fme.rs:27 | the Euclidean remainder lies in `[0, abs(b))` and differs from `a` by an integer multiple of `b`, which determines it |
| FmeUtil.RemainderBounds | src/fme.rs:27 | `a - m floor(a/m)` lies in `[0, m)` for `m > 0` |
| FmeUtil.ScaledDiff | src/fme.rs:23-33 | differences of integer multiples of `b` are integer multiples of `b` |
| FmeUtil.SymModAlt | src/fme.rs:23-33 | `a - symmod_alt(a,b)` is an integer multiple of `b`; for `b > 0` the result lies in `[-b/2, b/2)`, for `b < 0` in `[-b, -2b)` |
| FmeUtil.SymMod | src/fme.rs:11-21 | `a - symmod(a,b)` is an integer multiple of `b`; the result lies in `[-b/2, b/2)` for `b > 0` and in `(b/2, -b/2]` for `b < 0` |
| FmeUtil.MultipleShift | src/fme.rs:29-32 | a multiple of `b` plus `b` is a multiple of `b`: the `amb - b` branch stays congruent to `a` |
| FmeUtil.UniqueInWindow | src/fme.rs:11-33 | two values in `[-b/2, b/2)` that differ from `a` by multiples of `b` are equal |
| FmeUtil.SymModEquivalent | src/fme.rs:92-103 | for every `b > 0`, `symmod(a,b) == symmod_alt(a,b)` |
| FmeUtil.SymModExamples | src/fme.rs:53-89 | `symmod` and `symmod_alt` of `(3,4)`, `(1,4)`, `(0,4)` are `-1`, `1`, `0`; the regression inputs `(1687,1125)` and `(-190459345,190459346)` agree, at `562` and `1` |
| FmeUtil.SymModDifferForNegativeModulus | src/fme.rs:97-99 | for `b < 0` the two formulations differ (`(0,-4)` gives `0` and `4`) |
| FmeExpr.Get | src/fme/expr.rs:21 | `Vec::get`: `Some` iff the index is in range, then with that entry |
| FmeExpr.LExpr.New | src/fme/expr.rs:12-18 | stores the coefficients verbatim; `nvars` is their count, with no constant slot |
| FmeExpr.LExpr.NVars | src/fme/expr.rs:16-18 | the number of slots, with no constant slot; `LExpr.New` states it equals the length of the given slice |
| FmeExpr.LExpr.Supported | src/fme/expr.rs:20-22 | true iff the index is in range and its coefficient is strictly positive |
| FmeExpr.MkEq | src/fme/expr.rs:31-33 | an `Eq` holding both sides unchanged |
| FmeExpr.MkLessEq | src/fme/expr.rs:35-37 | a `LessEq` holding both sides unchanged |
| FmeExpr.SupportExamples | tests/test_fme_expr.rs:5-14 | `[1,0,1]` supports slots 0 and 2 but not 1 or the out-of-range 3; a negative coefficient is unsupported |

## Left out

- Display implementations of every type (`src/ast.rs`, `src/lin_expr.rs`, `src/lin_rel.rs`) are left out: they only pretty-print.
- `LinExpr::coeffs_mut` is not modelled, because a mutable borrow of a sub-slice has no counterpart here. A write to `coeffs_mut()[k]` is `SetCoeffUnchecked(k + 1, v)`.
- The `LinRel` accessors `nvars`, `coeffs`, `const_` and `lhs` are not modelled separately, because each only forwards to `LinExpr`. The contracts use `rel.lhs` directly.
- `LinearExpr.LinExpr.NVars` and `Const` carry no contract of their own. They are read inside the contracts of the other members.
- LinearExpr.LinExpr.CoeffUnchecked, LinearExpr.LinExpr.SetCoeffUnchecked: an index past the end is a panic in the source (src/lin_expr.rs:179, 194). The model requires `i < |coeff|` instead, so the panic is not modelled. `CoeffUnchecked` has no contract of its own; only the body of `LinearRel.Subs` reads it.
- LinearRel.Subs: taking ownership of `self` is not modelled; `rel` is only read.
- LinearRel.Subs: the contract requires that the pivot coefficient is non-zero and that both sides have the same number of variables. The source divides by that coefficient and only `debug_assert!`s the widths.
- Negation is not pushed through quantifiers: src/nnf.rs:24 keeps `~(exists x. P)` and `~(forall x. P)` as they are, and the model does the same (`Nnf.NegationStopsAtQuantifier`).
- The two symmetric-modulo formulations agree only for `b > 0`, the case the property test assumes (src/fme.rs:99). For `b < 0` they differ (`FmeUtil.SymModDifferForNegativeModulus`), and each contract states its own range for that case.
- FmeUtil.DivFloor, FmeUtil.DivFloorAsWritten, FmeUtil.Rem, FmeUtil.RemEuclid, FmeUtil.SymMod, FmeUtil.SymModAlt: each requires a non-zero divisor. The source panics on division by zero (src/fme.rs:16-19, 27, 37, 39), and that panic is not modelled.
- FmeUtil.DivFloor: the model uses the truncated integer quotient, not the exact rational quotient of the code; see Findings.
- The equality-substitution pass over a constraint set, Fourier–Motzkin elimination itself and the quantifier-elimination driver are not modelled. They are not part of the source, which stops at `subs` and the tightening helpers.
- `src/main.rs`, the parser grammar and its tests are left out: they are line-based I/O around a generated parser.
- The proptest input generators (`src/ast_strategy.rs` and their tests) are left out: they have no behaviour of their own.
- The `i64` coefficient type of `src/types.rs` becomes unbounded `int`/`real`. Overflow is not modelled; the prototype `LExpr` does no arithmetic.

## Findings

| source | as written | input that shows it | evidently intended | confidence | as-written member | corrected member |
|---|---|---|---|---|---|---|
| src/fme.rs:35-47 | `div_floor` takes `d = num / den` on rationals, the exact quotient, then applies the sign fix-up to it, so it returns a non-integer; `symmod` (src/fme.rs:15-21) inherits this | `div_floor(7, 2) = 7/2`, `div_floor(-7, 2) = -9/2`, hence `symmod(3, 4) = -2` where the test expects `-1` (`FmeUtil.AsWrittenCounterexamples`) | `d` is the truncated integer quotient, and the fix-up turns it into the floor (`FmeUtil.DivFloorIsFloor`) | not executed | FmeUtil.DivFloorAsWritten | FmeUtil.DivFloor |
