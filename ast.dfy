/** The syntax tree of Presburger formulas (src/ast.rs).
    Rust's boxed enums become Dafny datatypes; rationals become `real`. */
module Ast {

  /** A variable name, a newtype over a string. */
  datatype Var = Var(name: string)

  /** A numerical term: a literal, a scalar multiple of a variable, or a sum. */
  datatype Term =
    | Num(n: real)
    | ScalarVar(scale: real, x: Var)
    | Add(left: Term, right: Term)

  /** An atomic predicate with respect to the logical connectives. */
  datatype Atom =
    | TruthValue(b: bool)
    | LogicalVar(v: Var)
    | Equality(lhs: Term, rhs: Term)
    | LessEq(lhs: Term, rhs: Term)

  /** A formula: connectives, quantifiers and atoms. */
  datatype Formula =
    | Not(p: Formula)
    | And(p: Formula, q: Formula)
    | Or(p: Formula, q: Formula)
    | Impl(p: Formula, q: Formula)
    | Iff(p: Formula, q: Formula)
    | Exists(v: Var, p: Formula)
    | Forall(v: Var, p: Formula)
    | FAtom(a: Atom)

  // ---------------------------------------------------------------------
  // Smart constructors. Each wraps its arguments unchanged, so the
  // matching destructors give them back.

  function NewVar(name: string): (r: Var)
    ensures r.name == name
  {
    Var(name)
  }

  function FNot(p: Formula): (r: Formula)
    ensures r.Not? && r.p == p
  {
    Not(p)
  }

  function FAnd(p: Formula, q: Formula): (r: Formula)
    ensures r.And? && r.p == p && r.q == q
  {
    And(p, q)
  }

  function FOr(p: Formula, q: Formula): (r: Formula)
    ensures r.Or? && r.p == p && r.q == q
  {
    Or(p, q)
  }

  function Implies(p: Formula, q: Formula): (r: Formula)
    ensures r.Impl? && r.p == p && r.q == q
  {
    Impl(p, q)
  }

  function FIff(p: Formula, q: Formula): (r: Formula)
    ensures r.Iff? && r.p == p && r.q == q
  {
    Iff(p, q)
  }

  function FExists(v: Var, p: Formula): (r: Formula)
    ensures r.Exists? && r.v == v && r.p == p
  {
    Exists(v, p)
  }

  function FForall(v: Var, p: Formula): (r: Formula)
    ensures r.Forall? && r.v == v && r.p == p
  {
    Forall(v, p)
  }

  function FormulaAtom(a: Atom): (r: Formula)
    ensures r.FAtom? && r.a == a
  {
    FAtom(a)
  }

  function Truth(b: bool): (r: Atom)
    ensures r.TruthValue? && r.b == b
  {
    TruthValue(b)
  }

  /** `Atom::var(n)` is the logical variable named `n`. */
  function AtomVar(name: string): (r: Atom)
    ensures r.LogicalVar? && r.v.name == name
  {
    LogicalVar(NewVar(name))
  }

  function AtomEquality(t1: Term, t2: Term): (r: Atom)
    ensures r.Equality? && r.lhs == t1 && r.rhs == t2
  {
    Equality(t1, t2)
  }

  function AtomLessEq(t1: Term, t2: Term): (r: Atom)
    ensures r.LessEq? && r.lhs == t1 && r.rhs == t2
  {
    LessEq(t1, t2)
  }

  function TermNum(n: real): (r: Term)
    ensures r.Num? && r.n == n
  {
    Num(n)
  }

  function TermScalarVar(s: real, name: string): (r: Term)
    ensures r.ScalarVar? && r.scale == s && r.x.name == name
  {
    ScalarVar(s, NewVar(name))
  }

  function TermAdd(t1: Term, t2: Term): (r: Term)
    ensures r.Add? && r.left == t1 && r.right == t2
  {
    Add(t1, t2)
  }

  // ---------------------------------------------------------------------
  // Syntactic equality, written out as the source's `PartialEq` impls do
  // (a match on the pair of constructors, `false` for different ones).
  // Each is proved to coincide with Dafny's structural `==`.

  /** Derived equality on `Var`: exact, case-sensitive string equality. */
  function VarEq(v1: Var, v2: Var): (r: bool)
    ensures r <==> v1 == v2
  {
    v1.name == v2.name
  }

  function TermEq(t1: Term, t2: Term): bool
  {
    match (t1, t2)
    case (Num(x), Num(y)) => x == y
    case (ScalarVar(a, x), ScalarVar(b, y)) => a == b && VarEq(x, y)
    case (Add(a, b), Add(c, d)) => TermEq(a, c) && TermEq(b, d)
    case _ => false
  }

  function AtomEq(a1: Atom, a2: Atom): bool
  {
    match (a1, a2)
    case (TruthValue(b1), TruthValue(b2)) => b1 == b2
    case (LogicalVar(v1), LogicalVar(v2)) => VarEq(v1, v2)
    case (Equality(l1, r1), Equality(l2, r2)) => TermEq(l1, l2) && TermEq(r1, r2)
    case (LessEq(l1, r1), LessEq(l2, r2)) => TermEq(l1, l2) && TermEq(r1, r2)
    case _ => false
  }

  function FormulaEq(f1: Formula, f2: Formula): bool
  {
    match (f1, f2)
    case (Not(p1), Not(p2)) => FormulaEq(p1, p2)
    case (And(p1, q1), And(p2, q2)) => FormulaEq(p1, p2) && FormulaEq(q1, q2)
    case (Or(p1, q1), Or(p2, q2)) => FormulaEq(p1, p2) && FormulaEq(q1, q2)
    case (Impl(p1, q1), Impl(p2, q2)) => FormulaEq(p1, p2) && FormulaEq(q1, q2)
    case (Iff(p1, q1), Iff(p2, q2)) => FormulaEq(p1, p2) && FormulaEq(q1, q2)
    case (Exists(v1, p1), Exists(v2, p2)) => VarEq(v1, v2) && FormulaEq(p1, p2)
    case (Forall(v1, p1), Forall(v2, p2)) => VarEq(v1, v2) && FormulaEq(p1, p2)
    case (FAtom(a1), FAtom(a2)) => AtomEq(a1, a2)
    case _ => false
  }

  /** `TermEq` is exactly structural equality: reflexive, and it never
      identifies two different trees. */
  lemma {:induction false} TermEqIsIdentity(t1: Term, t2: Term)
    ensures TermEq(t1, t2) <==> t1 == t2
  {
    match (t1, t2)
    case (Add(a, b), Add(c, d)) =>
      TermEqIsIdentity(a, c);
      TermEqIsIdentity(b, d);
    case _ =>
  }

  lemma AtomEqIsIdentity(a1: Atom, a2: Atom)
    ensures AtomEq(a1, a2) <==> a1 == a2
  {
    match (a1, a2)
    case (Equality(l1, r1), Equality(l2, r2)) =>
      TermEqIsIdentity(l1, l2);
      TermEqIsIdentity(r1, r2);
    case (LessEq(l1, r1), LessEq(l2, r2)) =>
      TermEqIsIdentity(l1, l2);
      TermEqIsIdentity(r1, r2);
    case _ =>
  }

  lemma {:induction false} FormulaEqIsIdentity(f1: Formula, f2: Formula)
    ensures FormulaEq(f1, f2) <==> f1 == f2
  {
    match (f1, f2)
    case (Not(p1), Not(p2)) =>
      FormulaEqIsIdentity(p1, p2);
    case (And(p1, q1), And(p2, q2)) =>
      FormulaEqIsIdentity(p1, p2);
      FormulaEqIsIdentity(q1, q2);
    case (Or(p1, q1), Or(p2, q2)) =>
      FormulaEqIsIdentity(p1, p2);
      FormulaEqIsIdentity(q1, q2);
    case (Impl(p1, q1), Impl(p2, q2)) =>
      FormulaEqIsIdentity(p1, p2);
      FormulaEqIsIdentity(q1, q2);
    case (Iff(p1, q1), Iff(p2, q2)) =>
      FormulaEqIsIdentity(p1, p2);
      FormulaEqIsIdentity(q1, q2);
    case (Exists(_, p1), Exists(_, p2)) =>
      FormulaEqIsIdentity(p1, p2);
    case (Forall(_, p1), Forall(_, p2)) =>
      FormulaEqIsIdentity(p1, p2);
    case (FAtom(a1), FAtom(a2)) =>
      AtomEqIsIdentity(a1, a2);
    case _ =>
  }

  /** Equality is reflexive on all three trees. */
  lemma EqReflexive(t: Term, a: Atom, f: Formula)
    ensures TermEq(t, t) && AtomEq(a, a) && FormulaEq(f, f)
  {
    TermEqIsIdentity(t, t);
    AtomEqIsIdentity(a, a);
    FormulaEqIsIdentity(f, f);
  }

  /** The position of a formula's constructor in the declaration. */
  function FormulaTag(f: Formula): nat
  {
    match f
    case Not(_) => 0
    case And(_, _) => 1
    case Or(_, _) => 2
    case Impl(_, _) => 3
    case Iff(_, _) => 4
    case Exists(_, _) => 5
    case Forall(_, _) => 6
    case FAtom(_) => 7
  }

  function AtomTag(a: Atom): nat
  {
    match a
    case TruthValue(_) => 0
    case LogicalVar(_) => 1
    case Equality(_, _) => 2
    case LessEq(_, _) => 3
  }

  function TermTag(t: Term): nat
  {
    match t
    case Num(_) => 0
    case ScalarVar(_, _) => 1
    case Add(_, _) => 2
  }

  /** Nodes built with different constructors are never equal. */
  lemma DifferentConstructorsUnequal(t1: Term, t2: Term, a1: Atom, a2: Atom, f1: Formula, f2: Formula)
    ensures TermTag(t1) != TermTag(t2) ==> !TermEq(t1, t2)
    ensures AtomTag(a1) != AtomTag(a2) ==> !AtomEq(a1, a2)
    ensures FormulaTag(f1) != FormulaTag(f2) ==> !FormulaEq(f1, f2)
  {
  }

  /** Variable equality is exact and case-sensitive. */
  lemma VarEqExamples()
    ensures VarEq(NewVar("x"), NewVar("x"))
    ensures !VarEq(NewVar("x"), NewVar("y"))
    ensures !VarEq(NewVar("x"), NewVar("X"))
  {
    assert "x"[0] != "X"[0];
    assert "x"[0] != "y"[0];
  }

  /** Equality is syntactic, not semantic: `0 != 1`, `x != x + 1`, and
      `1 x + 0` is not `1 x` even though the two denote the same value. */
  lemma TermEqIsSyntactic()
    ensures !TermEq(TermNum(0.0), TermNum(1.0))
    ensures !TermEq(TermScalarVar(1.0, "x"), TermAdd(TermScalarVar(1.0, "x"), TermNum(1.0)))
    ensures !TermEq(TermAdd(TermScalarVar(1.0, "x"), TermNum(0.0)), TermScalarVar(1.0, "x"))
  {
  }

  /** Values built separately from equal parts compare equal: the
      source's `a4 == a5`, `p2 == p2_` and `p4 == p4_`, and in general any
      formula built the same way from equal parts. */
  lemma {:induction false} SeparatelyBuiltEqual(p: Formula, p': Formula)
    requires FormulaEq(p, p')
    ensures AtomEq(AtomEquality(TermNum(0.0), TermNum(0.0)), AtomEquality(TermNum(0.0), TermNum(0.0)))
    ensures FormulaEq(FormulaAtom(AtomVar("P")), FormulaAtom(AtomVar("P")))
    ensures FormulaEq(FNot(FormulaAtom(AtomVar("P"))), FNot(FormulaAtom(AtomVar("P"))))
    ensures FormulaEq(FNot(p), FNot(p'))
    ensures FormulaEq(FAnd(FNot(p), p), FAnd(FNot(p'), p'))
  {
    FormulaEqIsIdentity(FormulaAtom(AtomVar("P")), FormulaAtom(AtomVar("P")));
    FormulaEqIsIdentity(FNot(FormulaAtom(AtomVar("P"))), FNot(FormulaAtom(AtomVar("P"))));
    FormulaEqIsIdentity(p, p');
    FormulaEqIsIdentity(FAnd(FNot(p), p), FAnd(FNot(p'), p'));
  }
}
