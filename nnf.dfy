/** Reduction of formulas to negation normal form (src/nnf.rs).
    The source names the formula type `Pred`; it is `Ast.Formula` here. */
module Nnf {
  import opened Ast

  /** No `Impl` or `Iff` node anywhere in `f`. */
  predicate ImplFree(f: Formula)
  {
    match f
    case Not(p) => ImplFree(p)
    case And(p, q) => ImplFree(p) && ImplFree(q)
    case Or(p, q) => ImplFree(p) && ImplFree(q)
    case Impl(_, _) => false
    case Iff(_, _) => false
    case Exists(_, p) => ImplFree(p)
    case Forall(_, p) => ImplFree(p)
    case FAtom(_) => true
  }

  /** The normal form this rewrite produces: no `Impl`/`Iff`, and every
      `Not` sits directly on an atom or a quantifier (negation is not
      pushed through quantifiers). */
  predicate IsNnf(f: Formula)
  {
    match f
    case Not(p) => (p.FAtom? || p.Exists? || p.Forall?) && IsNnf(p)
    case And(p, q) => IsNnf(p) && IsNnf(q)
    case Or(p, q) => IsNnf(p) && IsNnf(q)
    case Impl(_, _) => false
    case Iff(_, _) => false
    case Exists(_, p) => IsNnf(p)
    case Forall(_, p) => IsNnf(p)
    case FAtom(_) => true
  }

  function Size(f: Formula): nat
  {
    match f
    case Not(p) => 1 + Size(p)
    case And(p, q) => 1 + Size(p) + Size(q)
    case Or(p, q) => 1 + Size(p) + Size(q)
    case Impl(p, q) => 1 + Size(p) + Size(q)
    case Iff(p, q) => 1 + Size(p) + Size(q)
    case Exists(_, p) => 1 + Size(p)
    case Forall(_, p) => 1 + Size(p)
    case FAtom(_) => 1
  }

  /** Bottom-up rewrite of `P ==> Q` to `~P \/ Q` and of `P <==> Q` to
      `(~P \/ Q) /\ (~Q \/ P)`. The top constructor of a negation,
      conjunction, disjunction, quantifier or atom is kept, atoms are
      returned as they are and bound variables are not touched. */
  function RemoveImpl(f: Formula): (r: Formula)
    ensures ImplFree(r)
    ensures f.Not? ==> r.Not?
    ensures f.And? ==> r.And?
    ensures f.Or? || f.Impl? ==> r.Or?
    ensures f.Iff? ==> r.And?
    ensures f.Exists? ==> r.Exists? && r.v == f.v
    ensures f.Forall? ==> r.Forall? && r.v == f.v
    ensures f.FAtom? ==> r == f
  {
    match f
    case Not(p) => Not(RemoveImpl(p))
    case And(p, q) => And(RemoveImpl(p), RemoveImpl(q))
    case Or(p, q) => Or(RemoveImpl(p), RemoveImpl(q))
    case Impl(p, q) => Or(Not(RemoveImpl(p)), RemoveImpl(q))
    case Iff(p, q) =>
      var p', q' := RemoveImpl(p), RemoveImpl(q);
      And(Or(Not(p'), q'), Or(Not(q'), p'))
    case Exists(v, p) => Exists(v, RemoveImpl(p))
    case Forall(v, p) => Forall(v, RemoveImpl(p))
    case FAtom(_) => f
  }

  /** `RemoveImpl` is the identity on formulas without `Impl`/`Iff`;
      `ToNnf` needs this to terminate. */
  lemma {:induction false} RemoveImplIdentity(f: Formula)
    requires ImplFree(f)
    ensures RemoveImpl(f) == f
  {
    match f
    case Not(p) => RemoveImplIdentity(p);
    case And(p, q) => RemoveImplIdentity(p); RemoveImplIdentity(q);
    case Or(p, q) => RemoveImplIdentity(p); RemoveImplIdentity(q);
    case Exists(_, p) => RemoveImplIdentity(p);
    case Forall(_, p) => RemoveImplIdentity(p);
    case FAtom(_) =>
  }

  /** `RemoveImpl` is idempotent. */
  lemma RemoveImplIdempotent(f: Formula)
    ensures RemoveImpl(RemoveImpl(f)) == RemoveImpl(f)
  {
    RemoveImplIdentity(RemoveImpl(f));
  }

  /** Top-down NNF conversion. Every call first runs `RemoveImpl`, so the
      `Impl`/`Iff` arm (a panic in the source) is unreachable. Double
      negations cancel and De Morgan is applied to negated conjunctions
      and disjunctions; a negated atom or quantifier keeps its `Not`. */
  function ToNnf(f: Formula): (r: Formula)
    ensures IsNnf(r)
    ensures f.FAtom? ==> r == f
    ensures f.Exists? ==> r.Exists? && r.v == f.v
    ensures f.Forall? ==> r.Forall? && r.v == f.v
    decreases Size(RemoveImpl(f))
  {
    var g := RemoveImpl(f);
    match g
    case Not(inner) =>
      (match inner
       case Not(q) =>
         RemoveImplIdentity(q);
         assert Size(g) == 2 + Size(q);
         ToNnf(q)
       case And(q1, q2) =>
         RemoveImplIdentity(Not(q1));
         RemoveImplIdentity(Not(q2));
         Or(ToNnf(Not(q1)), ToNnf(Not(q2)))
       case Or(q1, q2) =>
         RemoveImplIdentity(Not(q1));
         RemoveImplIdentity(Not(q2));
         And(ToNnf(Not(q1)), ToNnf(Not(q2)))
       case FAtom(_) =>
         Not(ToNnf(inner))
       case Exists(_, _) =>
         RemoveImplIdentity(inner);
         Not(ToNnf(inner))
       case Forall(_, _) =>
         RemoveImplIdentity(inner);
         Not(ToNnf(inner))
       case Impl(_, _) => assert false; g
       case Iff(_, _) => assert false; g)
    case And(p, q) =>
      RemoveImplIdentity(p);
      RemoveImplIdentity(q);
      And(ToNnf(p), ToNnf(q))
    case Or(p, q) =>
      RemoveImplIdentity(p);
      RemoveImplIdentity(q);
      Or(ToNnf(p), ToNnf(q))
    case Exists(v, p) =>
      RemoveImplIdentity(p);
      Exists(v, ToNnf(p))
    case Forall(v, p) =>
      RemoveImplIdentity(p);
      Forall(v, ToNnf(p))
    case FAtom(_) => g
    case Impl(_, _) => assert false; g
    case Iff(_, _) => assert false; g
  }

  /** `ToNnf` only looks at its argument through `RemoveImpl`. */
  lemma ToNnfThroughRemoveImpl(f: Formula)
    ensures ToNnf(RemoveImpl(f)) == ToNnf(f)
  {
    RemoveImplIdempotent(f);
  }

  /** Double negation cancels. */
  lemma DoubleNegation(p: Formula)
    ensures ToNnf(Not(Not(p))) == ToNnf(p)
  {
    var p' := RemoveImpl(p);
    assert RemoveImpl(Not(Not(p))) == Not(Not(p'));
    RemoveImplIdentity(p');
    assert ToNnf(Not(Not(p))) == ToNnf(p');
    ToNnfThroughRemoveImpl(p);
  }

  /** De Morgan for conjunction: `~(P /\ Q)` becomes `~P \/ ~Q`. */
  lemma DeMorganAnd(p: Formula, q: Formula)
    ensures ToNnf(Not(And(p, q))) == Or(ToNnf(Not(p)), ToNnf(Not(q)))
  {
    var p', q' := RemoveImpl(p), RemoveImpl(q);
    assert RemoveImpl(Not(And(p, q))) == Not(And(p', q'));
    assert ToNnf(Not(And(p, q))) == Or(ToNnf(Not(p')), ToNnf(Not(q')));
    ToNnfThroughRemoveImpl(Not(p));
    ToNnfThroughRemoveImpl(Not(q));
  }

  /** De Morgan for disjunction: `~(P \/ Q)` becomes `~P /\ ~Q`. */
  lemma DeMorganOr(p: Formula, q: Formula)
    ensures ToNnf(Not(Or(p, q))) == And(ToNnf(Not(p)), ToNnf(Not(q)))
  {
    var p', q' := RemoveImpl(p), RemoveImpl(q);
    assert RemoveImpl(Not(Or(p, q))) == Not(Or(p', q'));
    assert ToNnf(Not(Or(p, q))) == And(ToNnf(Not(p')), ToNnf(Not(q')));
    ToNnfThroughRemoveImpl(Not(p));
    ToNnfThroughRemoveImpl(Not(q));
  }

  /** Implication is eliminated as `~P \/ Q`. */
  lemma ImplicationElimination(p: Formula, q: Formula)
    ensures ToNnf(Impl(p, q)) == ToNnf(Or(Not(p), q))
  {
    assert RemoveImpl(Impl(p, q)) == RemoveImpl(Or(Not(p), q));
  }

  lemma {:induction false} NnfIsImplFree(f: Formula)
    requires IsNnf(f)
    ensures ImplFree(f)
  {
    match f
    case Not(p) => NnfIsImplFree(p);
    case And(p, q) => NnfIsImplFree(p); NnfIsImplFree(q);
    case Or(p, q) => NnfIsImplFree(p); NnfIsImplFree(q);
    case Exists(_, p) => NnfIsImplFree(p);
    case Forall(_, p) => NnfIsImplFree(p);
    case FAtom(_) =>
  }

  /** A formula already in normal form is left unchanged. */
  lemma {:induction false} NnfFixpoint(f: Formula)
    requires IsNnf(f)
    ensures ToNnf(f) == f
  {
    NnfIsImplFree(f);
    RemoveImplIdentity(f);
    match f
    case Not(p) => NnfFixpoint(p);
    case And(p, q) => NnfFixpoint(p); NnfFixpoint(q);
    case Or(p, q) => NnfFixpoint(p); NnfFixpoint(q);
    case Exists(_, p) => NnfFixpoint(p);
    case Forall(_, p) => NnfFixpoint(p);
    case FAtom(_) =>
  }

  /** The output has no `Impl`/`Iff`, and `ToNnf` is idempotent. */
  lemma ToNnfIdempotent(f: Formula)
    ensures ImplFree(ToNnf(f))
    ensures ToNnf(ToNnf(f)) == ToNnf(f)
  {
    NnfIsImplFree(ToNnf(f));
    NnfFixpoint(ToNnf(f));
  }

  // ---------------------------------------------------------------------
  // Meaning of a formula. Numerical variables range over the rationals and
  // logical variables over the booleans; a quantifier rebinds a numerical
  // variable.

  function Update(env: Var -> real, v: Var, r: real): Var -> real
  {
    y => if y == v then r else env(y)
  }

  ghost function TermValue(t: Term, env: Var -> real): real
  {
    match t
    case Num(n) => n
    case ScalarVar(s, x) => s * env(x)
    case Add(a, b) => TermValue(a, env) + TermValue(b, env)
  }

  ghost predicate AtomHolds(a: Atom, env: Var -> real, lenv: Var -> bool)
  {
    match a
    case TruthValue(b) => b
    case LogicalVar(v) => lenv(v)
    case Equality(l, r) => TermValue(l, env) == TermValue(r, env)
    case LessEq(l, r) => TermValue(l, env) <= TermValue(r, env)
  }

  ghost predicate Holds(f: Formula, env: Var -> real, lenv: Var -> bool)
  {
    match f
    case Not(p) => !Holds(p, env, lenv)
    case And(p, q) => Holds(p, env, lenv) && Holds(q, env, lenv)
    case Or(p, q) => Holds(p, env, lenv) || Holds(q, env, lenv)
    case Impl(p, q) => Holds(p, env, lenv) ==> Holds(q, env, lenv)
    case Iff(p, q) => Holds(p, env, lenv) <==> Holds(q, env, lenv)
    case Exists(v, p) => exists r: real :: Holds(p, Update(env, v, r), lenv)
    case Forall(v, p) => forall r: real :: Holds(p, Update(env, v, r), lenv)
    case FAtom(a) => AtomHolds(a, env, lenv)
  }

  /** `RemoveImpl` preserves meaning under every environment. */
  lemma {:induction false} RemoveImplSound(f: Formula, env: Var -> real, lenv: Var -> bool)
    ensures Holds(RemoveImpl(f), env, lenv) <==> Holds(f, env, lenv)
  {
    match f
    case Not(p) => RemoveImplSound(p, env, lenv);
    case And(p, q) => RemoveImplSound(p, env, lenv); RemoveImplSound(q, env, lenv);
    case Or(p, q) => RemoveImplSound(p, env, lenv); RemoveImplSound(q, env, lenv);
    case Impl(p, q) => RemoveImplSound(p, env, lenv); RemoveImplSound(q, env, lenv);
    case Iff(p, q) =>
      RemoveImplSound(p, env, lenv);
      RemoveImplSound(q, env, lenv);
      var p', q' := RemoveImpl(p), RemoveImpl(q);
      assert RemoveImpl(f) == And(Or(Not(p'), q'), Or(Not(q'), p'));
      assert Holds(Or(Not(p'), q'), env, lenv) <==> !Holds(p', env, lenv) || Holds(q', env, lenv);
      assert Holds(Or(Not(q'), p'), env, lenv) <==> !Holds(q', env, lenv) || Holds(p', env, lenv);
    case Exists(v, p) =>
      forall r: real
        ensures Holds(RemoveImpl(p), Update(env, v, r), lenv) <==> Holds(p, Update(env, v, r), lenv)
      {
        RemoveImplSound(p, Update(env, v, r), lenv);
      }
    case Forall(v, p) =>
      forall r: real
        ensures Holds(RemoveImpl(p), Update(env, v, r), lenv) <==> Holds(p, Update(env, v, r), lenv)
      {
        RemoveImplSound(p, Update(env, v, r), lenv);
      }
    case FAtom(_) =>
  }

  /** `ToNnf` preserves meaning under every environment: the normal form
      is logically equivalent to the input. */
  lemma {:induction false} ToNnfSound(f: Formula, env: Var -> real, lenv: Var -> bool)
    ensures Holds(ToNnf(f), env, lenv) <==> Holds(f, env, lenv)
    decreases Size(RemoveImpl(f))
  {
    RemoveImplSound(f, env, lenv);
    var g := RemoveImpl(f);
    match g
    case Not(inner) =>
      match inner {
        case Not(q) =>
          RemoveImplIdentity(q);
          assert Size(g) == 2 + Size(q);
          ToNnfSound(q, env, lenv);
        case And(q1, q2) =>
          RemoveImplIdentity(Not(q1));
          RemoveImplIdentity(Not(q2));
          ToNnfSound(Not(q1), env, lenv);
          ToNnfSound(Not(q2), env, lenv);
        case Or(q1, q2) =>
          RemoveImplIdentity(Not(q1));
          RemoveImplIdentity(Not(q2));
          ToNnfSound(Not(q1), env, lenv);
          ToNnfSound(Not(q2), env, lenv);
        case FAtom(_) =>
        case Exists(_, _) =>
          RemoveImplIdentity(inner);
          ToNnfSound(inner, env, lenv);
        case Forall(_, _) =>
          RemoveImplIdentity(inner);
          ToNnfSound(inner, env, lenv);
        case Impl(_, _) => assert false;
        case Iff(_, _) => assert false;
      }
    case And(p, q) =>
      RemoveImplIdentity(p);
      RemoveImplIdentity(q);
      ToNnfSound(p, env, lenv);
      ToNnfSound(q, env, lenv);
    case Or(p, q) =>
      RemoveImplIdentity(p);
      RemoveImplIdentity(q);
      ToNnfSound(p, env, lenv);
      ToNnfSound(q, env, lenv);
    case Exists(v, p) =>
      RemoveImplIdentity(p);
      forall r: real
        ensures Holds(ToNnf(p), Update(env, v, r), lenv) <==> Holds(p, Update(env, v, r), lenv)
      {
        ToNnfSound(p, Update(env, v, r), lenv);
      }
    case Forall(v, p) =>
      RemoveImplIdentity(p);
      forall r: real
        ensures Holds(ToNnf(p), Update(env, v, r), lenv) <==> Holds(p, Update(env, v, r), lenv)
      {
        ToNnfSound(p, Update(env, v, r), lenv);
      }
    case FAtom(_) =>
    case Impl(_, _) => assert false;
    case Iff(_, _) => assert false;
  }

  /** The unit test: `~~P` normalises to `P` for a logical variable `P`. */
  lemma DoubleNegationOfAtom()
    ensures ToNnf(Not(Not(FAtom(LogicalVar(Var("P")))))) == FAtom(LogicalVar(Var("P")))
  {
    DoubleNegation(FAtom(LogicalVar(Var("P"))));
  }

  /** Negation stops at a quantifier: `(exists A. F) ==> F` becomes
      `~(exists A. F) \/ F`, not `(forall A. ~F) \/ F`. */
  lemma NegationStopsAtQuantifier()
    ensures ToNnf(Impl(Exists(Var("A"), FAtom(TruthValue(false))), FAtom(TruthValue(false))))
         == Or(Not(Exists(Var("A"), FAtom(TruthValue(false)))), FAtom(TruthValue(false)))
  {
    var e := Exists(Var("A"), FAtom(TruthValue(false)));
    NnfFixpoint(Not(e));
  }
}
