/** The `unpack_saved` methods: replacing the names the user has saved with
    their stored terms before a term is run. */
module Environment {
  import opened Terms

  /** `t.unpack_saved(saved)`: a variable that is a saved name becomes its
      stored term; an abstraction whose parameter is a saved name is left
      as it is, body included. No renaming is done. */
  function UnpackSaved(t: Term, saved: map<string, Term>): (u: Term)
    requires WellFormed(t)
    ensures (forall k :: k in saved ==> WellFormed(saved[k])) ==> WellFormed(u)
  {
    match t
    case Var(x) => if x in saved then saved[x] else t
    case App(l, r) => App(UnpackSaved(l, saved), UnpackSaved(r, saved))
    case Fun(x, b) => if x in saved then t else Fun(x, UnpackSaved(b, saved))
  }

  /** A saved name is replaced by its term and other variables stay. */
  lemma UnpackSavedVariable(x: string, saved: map<string, Term>)
    ensures x in saved ==> UnpackSaved(Var(x), saved) == saved[x]
    ensures x !in saved ==> UnpackSaved(Var(x), saved) == Var(x)
  {
  }

  /** An abstraction over a saved name is returned unchanged. */
  lemma UnpackSavedShadowed(x: string, body: Term, saved: map<string, Term>)
    requires WellFormed(body) && x in saved
    ensures UnpackSaved(Fun(x, body), saved) == Fun(x, body)
  {
  }

  /** A term in which no saved name is free is left unchanged; in
      particular every term is left unchanged by an empty environment. */
  lemma {:induction false} UnpackSavedNoneFree(t: Term, saved: map<string, Term>)
    requires WellFormed(t)
    requires forall k :: k in saved ==> k !in FreeVars(t)
    ensures UnpackSaved(t, saved) == t
  {
    match t
    case Var(_) =>
    case App(l, r) =>
      UnpackSavedNoneFree(l, saved);
      UnpackSavedNoneFree(r, saved);
    case Fun(x, b) =>
      if x !in saved {
        UnpackSavedNoneFree(b, saved);
      }
  }

  /** With a single saved name whose term is closed, resolving it is the
      same as substituting that term for the name: no renaming can be
      triggered, and both stop at an abstraction over the name. */
  lemma {:induction false} UnpackSavedIsSubstitution(t: Term, x: string, v: Term)
    requires WellFormed(t) && WellFormed(v) && FreeVars(v) == {}
    ensures UnpackSaved(t, map[x := v]) == Substitute(t, x, v)
  {
    match t
    case Var(_) =>
    case App(l, r) =>
      UnpackSavedIsSubstitution(l, x, v);
      UnpackSavedIsSubstitution(r, x, v);
    case Fun(y, b) =>
      if y != x {
        assert Fresh(y, v) == y;
        UnpackSavedIsSubstitution(b, x, v);
      }
  }

  /** With `{x: a}`, `λx.x` is left alone and `x y` becomes `a y`; and the
      shadow check stops every replacement in the subtree, so with
      `{x: a, y: b}` the `y` in `λx.y` stays. */
  lemma UnpackSavedExamples()
    ensures UnpackSaved(Fun("x", Var("x")), map["x" := Var("a")]) == Fun("x", Var("x"))
    ensures UnpackSaved(App(Var("x"), Var("y")), map["x" := Var("a")]) == App(Var("a"), Var("y"))
    ensures UnpackSaved(Fun("x", Var("y")), map["x" := Var("a"), "y" := Var("b")]) == Fun("x", Var("y"))
  {
  }
}
