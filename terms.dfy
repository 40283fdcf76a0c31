/** Lambda terms, free-variable search and substitution with prime-appending
    alpha-renaming (the `Variable`, `Application` and `Function` classes). */
module Terms {

  /** A node of the syntax tree. `Empty` is the missing expression that the
      parser leaves where nothing was written: the result of `()`, the body
      of `λx.` and the right side of `a ()`. The term operations below are
      only defined on trees without it. */
  datatype Term =
    | Var(name: string)
    | App(left: Term, right: Term)
    | Fun(arg: string, body: Term)
    | Empty

  /** The trees the term operations accept: no `Empty` anywhere. */
  predicate WellFormed(t: Term) {
    match t
    case Var(_) => true
    case App(l, r) => WellFormed(l) && WellFormed(r)
    case Fun(_, b) => WellFormed(b)
    case Empty => false
  }

  /** Number of nodes; the measure that substitution decreases. */
  function Size(t: Term): nat {
    match t
    case App(l, r) => 1 + Size(l) + Size(r)
    case Fun(_, b) => 1 + Size(b)
    case _ => 1
  }

  /** The free variables of a term, the textbook definition. */
  function FreeVars(t: Term): set<string> {
    match t
    case Var(x) => {x}
    case App(l, r) => FreeVars(l) + FreeVars(r)
    case Fun(x, b) => FreeVars(b) - {x}
    case Empty => {}
  }

  function Max(a: nat, b: nat): nat { if a < b then b else a }

  /** A bound on the length of every free name: a name longer than this
      cannot be free, which is why the renaming loop stops. */
  function NameBound(t: Term): (m: nat)
    ensures forall v :: v in FreeVars(t) ==> |v| <= m
  {
    match t
    case Var(x) => |x|
    case App(l, r) => Max(NameBound(l), NameBound(r))
    case Fun(_, b) => NameBound(b)
    case Empty => 0
  }

  /** `search`: does `v` occur free in `t`. */
  function Search(t: Term, v: string): (found: bool)
    requires WellFormed(t)
    ensures found <==> v in FreeVars(t)
  {
    match t
    case Var(x) => x == v
    case App(l, r) => Search(l, v) || Search(r, v)
    case Fun(x, b) => x != v && Search(b, v)
  }

  const Prime: char := '\''

  /** `name` followed by primes only. */
  predicate IsPrimed(name: string, f: string) {
    |name| <= |f| && f[..|name|] == name && forall i :: |name| <= i < |f| ==> f[i] == Prime
  }

  /** The name the renaming loop of `Function.substitute` settles on:
      `name` with as many primes appended as it takes for it not to be
      free in `r`. */
  function Fresh(name: string, r: Term): (f: string)
    requires WellFormed(r)
    ensures !Search(r, f)
    ensures IsPrimed(name, f)
    ensures f == name <==> !Search(r, name)
    decreases NameBound(r) + 1 - |name|
  {
    if Search(r, name) then Fresh(name + [Prime], r) else name
  }

  /** The renaming loop itself: append a prime while the candidate is free
      in `r`. */
  method FreshName(name: string, r: Term) returns (f: string)
    requires WellFormed(r)
    ensures f == Fresh(name, r)
  {
    f := name;
    while Search(r, f)
      invariant Fresh(f, r) == Fresh(name, r)
      decreases NameBound(r) + 1 - |f|
    {
      f := f + [Prime];
    }
  }

  /** `substitute`: `t[find := r]`. A binder that is free in `r` is renamed
      to `Fresh(binder, r)` before substituting under it; a binder equal to
      `find` shadows the substitution. Renaming a variable to a variable
      keeps the size, which is what makes the recursion on the renamed body
      terminate. */
  function Substitute(t: Term, find: string, r: Term): (s: Term)
    requires WellFormed(t) && WellFormed(r)
    ensures WellFormed(s)
    ensures r.Var? ==> Size(s) == Size(t)
    decreases Size(t)
  {
    match t
    case Var(x) => if x == find then r else t
    case App(left, right) => App(Substitute(left, find, r), Substitute(right, find, r))
    case Fun(x, body) =>
      if x == find then t
      else
        var y := Fresh(x, r);
        var renamed := if y != x then Substitute(body, x, Var(y)) else body;
        Fun(y, Substitute(renamed, find, r))
  }

  /** `x[x := R]` is `R` and `y[x := R]` is `y`. */
  lemma SubstituteVariable(x: string, y: string, r: Term)
    requires WellFormed(r)
    ensures Substitute(Var(x), x, r) == r
    ensures y != x ==> Substitute(Var(y), x, r) == Var(y)
  {
  }

  /** `(λx.M)[x := R]` is `λx.M`. */
  lemma SubstituteShadowed(x: string, body: Term, r: Term)
    requires WellFormed(body) && WellFormed(r)
    ensures Substitute(Fun(x, body), x, r) == Fun(x, body)
  {
  }

  /** Under a binder that does not shadow `find`, the result is again an
      abstraction whose parameter is `x` with primes appended and is not
      free in `r`; it stays `x` exactly when `x` was not free in `r`. */
  lemma SubstituteBinder(x: string, body: Term, find: string, r: Term)
    requires WellFormed(body) && WellFormed(r)
    requires x != find
    ensures Substitute(Fun(x, body), find, r).Fun?
    ensures !Search(r, Substitute(Fun(x, body), find, r).arg)
    ensures IsPrimed(x, Substitute(Fun(x, body), find, r).arg)
    ensures Substitute(Fun(x, body), find, r).arg == x <==> !Search(r, x)
  {
  }

  /** Substitution introduces no free variable other than those of `r`, and
      removes every free `find`. */
  lemma {:induction false} SubstituteFreeVars(t: Term, find: string, r: Term)
    requires WellFormed(t) && WellFormed(r)
    ensures FreeVars(Substitute(t, find, r)) <= (FreeVars(t) - {find}) + FreeVars(r)
    decreases Size(t)
  {
    match t
    case Var(x) =>
    case App(left, right) =>
      SubstituteFreeVars(left, find, r);
      SubstituteFreeVars(right, find, r);
    case Fun(x, body) =>
      if x != find {
        var y := Fresh(x, r);
        var renamed := if y != x then Substitute(body, x, Var(y)) else body;
        if y != x {
          SubstituteFreeVars(body, x, Var(y));
        }
        assert FreeVars(renamed) <= (FreeVars(body) - {x}) + {y};
        SubstituteFreeVars(renamed, find, r);
      }
  }

  /** Substituting a variable for itself changes nothing. */
  lemma {:induction false} SubstituteSelf(t: Term, x: string)
    requires WellFormed(t)
    ensures Substitute(t, x, Var(x)) == t
  {
    match t
    case Var(_) =>
    case App(l, r) =>
      SubstituteSelf(l, x);
      SubstituteSelf(r, x);
    case Fun(y, b) =>
      if y != x {
        assert Fresh(y, Var(x)) == y;
        SubstituteSelf(b, x);
      }
  }

  /** The fresh name is checked against `r` only, not against the body, so
      renaming can capture: `(λy. y' y)[x := y]` is `λy'. y' y'`, whose
      first `y'` was free before. */
  lemma RenamingCanCapture()
    ensures Substitute(Fun("y", App(Var("y'"), Var("y"))), "x", Var("y"))
         == Fun("y'", App(Var("y'"), Var("y'")))
  {
    assert Fresh("y", Var("y")) == "y'" by {
      assert Search(Var("y"), "y");
      assert "y" + [Prime] == "y'";
      assert !Search(Var("y"), "y'");
    }
    assert Substitute(App(Var("y'"), Var("y")), "y", Var("y'")) == App(Var("y'"), Var("y'"));
    assert Substitute(App(Var("y'"), Var("y'")), "x", Var("y")) == App(Var("y'"), Var("y'"));
  }

  /** Nor is the fresh name checked against `find`: in `(λy. y)[y' := y]`
      the binder becomes `y'` and the substitution then goes under it, so
      the identity function turns into the constant `λy'. y`. */
  lemma FreshNameCanBeFind()
    ensures Substitute(Fun("y", Var("y")), "y'", Var("y")) == Fun("y'", Var("y"))
  {
    assert Fresh("y", Var("y")) == "y'" by {
      assert Search(Var("y"), "y");
      assert "y" + [Prime] == "y'";
      assert !Search(Var("y"), "y'");
    }
    assert Substitute(Var("y"), "y", Var("y'")) == Var("y'");
    assert Substitute(Var("y'"), "y'", Var("y")) == Var("y");
  }
}
