/** The `is_eta_equiv` methods: structural comparison of two terms under a
    correspondence from the first term's bound names to the second's. */
module Equivalence {
  import opened Terms

  /** `a.is_eta_equiv(b, m)`. Two variables match when their names are
      equal, or when `m` maps the first name to the second. Two abstractions
      match when their bodies do, with `m` extended by a copy mapping the
      first parameter to the second whenever the two names differ. */
  function IsEtaEquiv(a: Term, b: Term, m: map<string, string>): (eq: bool)
    requires WellFormed(a)
    ensures eq ==> Skeleton(a) == Skeleton(b)
  {
    match a
    case Var(x) => b.Var? && (x == b.name || (x in m && m[x] == b.name))
    case App(l, r) => b.App? && IsEtaEquiv(l, b.left, m) && IsEtaEquiv(r, b.right, m)
    case Fun(x, body) =>
      b.Fun? && IsEtaEquiv(body, b.body, if x != b.arg then m[x := b.arg] else m)
  }

  /** The shape of a term with every name erased: equivalent terms have
      the same shape, so nodes of different kinds never match. */
  function Skeleton(t: Term): Term {
    match t
    case Var(_) => Var("")
    case App(l, r) => App(Skeleton(l), Skeleton(r))
    case Fun(_, b) => Fun("", Skeleton(b))
    case Empty => Empty
  }

  /** Every term is equivalent to itself, whatever the correspondence. */
  lemma {:induction false} EtaEquivReflexive(t: Term, m: map<string, string>)
    requires WellFormed(t)
    ensures IsEtaEquiv(t, t, m)
  {
    match t
    case Var(_) =>
    case App(l, r) =>
      EtaEquivReflexive(l, m);
      EtaEquivReflexive(r, m);
    case Fun(_, b) =>
      EtaEquivReflexive(b, m);
  }

  /** `m` is contained in `m2`. */
  predicate SubMap(m: map<string, string>, m2: map<string, string>) {
    forall k :: k in m ==> k in m2 && m2[k] == m[k]
  }

  /** Adding correspondences never turns an equivalence into a difference. */
  lemma {:induction false} EtaEquivMonotone(a: Term, b: Term, m: map<string, string>, m2: map<string, string>)
    requires WellFormed(a) && SubMap(m, m2) && IsEtaEquiv(a, b, m)
    ensures IsEtaEquiv(a, b, m2)
  {
    match a
    case Var(_) =>
    case App(l, r) =>
      EtaEquivMonotone(l, b.left, m, m2);
      EtaEquivMonotone(r, b.right, m, m2);
    case Fun(x, body) =>
      if x != b.arg {
        EtaEquivMonotone(body, b.body, m[x := b.arg], m2[x := b.arg]);
      } else {
        EtaEquivMonotone(body, b.body, m, m2);
      }
  }

  /** `λx.x` matches `λy.y` from an empty correspondence. */
  lemma EtaEquivRenamedIdentity()
    ensures IsEtaEquiv(Fun("x", Var("x")), Fun("y", Var("y")), map[])
  {
    assert IsEtaEquiv(Var("x"), Var("y"), map["x" := "y"]);
  }

  /** Equal names are accepted before the correspondence is consulted, so
      `λx.x` also matches `λy.x`. */
  lemma EtaEquivEqualNamesWin()
    ensures IsEtaEquiv(Fun("x", Var("x")), Fun("y", Var("x")), map[])
  {
  }

  /** An equal-named inner binder keeps the outer mapping, so `λx.λy.x`
      matches `λz.λz.z` while the comparison the other way round fails. */
  lemma EtaEquivNotSymmetric()
    ensures IsEtaEquiv(Fun("x", Fun("y", Var("x"))), Fun("z", Fun("z", Var("z"))), map[])
    ensures !IsEtaEquiv(Fun("z", Fun("z", Var("z"))), Fun("x", Fun("y", Var("x"))), map[])
  {
    assert IsEtaEquiv(Var("x"), Var("z"), map["x" := "z", "y" := "z"]);
    assert !IsEtaEquiv(Var("z"), Var("x"), map["z" := "y"]);
    assert map["z" := "x"]["z" := "y"] == map["z" := "y"];
  }
}
