/** One normal-order beta step (the `step` methods), and a reference
    description of it: find the leftmost-outermost redex by its path from
    the root, then contract it there. */
module Reduction {
  import opened Terms

  datatype Option<T> = None | Some(value: T)

  /** `step`: one beta reduction, leftmost-outermost, with a flag that says
      whether anything was reduced. */
  function Step(t: Term): (res: (Term, bool))
    requires WellFormed(t)
    ensures WellFormed(res.0)
    ensures !res.1 ==> res.0 == t
  {
    match t
    case Var(_) => (t, false)
    case App(left, right) =>
      if left.Fun? then
        assert WellFormed(left);
        (Substitute(left.body, left.arg, right), true)
      else
        var (l, changedLeft) := Step(left);
        if changedLeft then (App(l, right), true)
        else
          var (r, changedRight) := Step(right);
          (App(l, r), changedRight)
    case Fun(x, body) =>
      var (b, changed) := Step(body);
      (Fun(x, b), changed)
    case Empty => (t, false)
  }

  /** A step into a node: its left or right child, or an abstraction's body. */
  datatype Dir = Left | Right | Into

  predicate IsRedex(t: Term) {
    t.App? && t.left.Fun?
  }

  /** The path `p` leads from the root of `t` to a redex. */
  predicate RedexAt(t: Term, p: seq<Dir>)
    decreases |p|
  {
    if p == [] then IsRedex(t)
    else
      match t
      case App(l, r) =>
        (p[0] == Left && RedexAt(l, p[1..])) || (p[0] == Right && RedexAt(r, p[1..]))
      case Fun(_, b) => p[0] == Into && RedexAt(b, p[1..])
      case _ => false
  }

  /** Normal order on positions: `p` is an ancestor of `q`, or lies to its
      left. */
  predicate NoLaterThan(p: seq<Dir>, q: seq<Dir>)
    decreases |p|
  {
    p == [] ||
    (q != [] &&
     ((p[0] == q[0] && NoLaterThan(p[1..], q[1..])) || (p[0] == Left && q[0] == Right)))
  }

  /** The position of the leftmost-outermost redex, if there is one. */
  function LeftmostRedex(t: Term): (p: Option<seq<Dir>>)
    ensures p.Some? ==> RedexAt(t, p.value)
  {
    if IsRedex(t) then Some([])
    else
      match t
      case App(l, r) =>
        var pl := LeftmostRedex(l);
        if pl.Some? then Some([Left] + pl.value)
        else
          var pr := LeftmostRedex(r);
          if pr.Some? then Some([Right] + pr.value) else None
      case Fun(_, b) =>
        var pb := LeftmostRedex(b);
        if pb.Some? then Some([Into] + pb.value) else None
      case _ => None
  }

  /** The position found is the first in normal order among all redex
      positions, and none is found only when there is no redex at all. */
  lemma {:induction false} LeftmostRedexIsFirst(t: Term, q: seq<Dir>)
    requires RedexAt(t, q)
    ensures LeftmostRedex(t).Some?
    ensures NoLaterThan(LeftmostRedex(t).value, q)
    decreases t
  {
    if !IsRedex(t) {
      match t
      case App(l, r) =>
        if q[0] == Left {
          LeftmostRedexIsFirst(l, q[1..]);
          assert ([Left] + LeftmostRedex(l).value)[1..] == LeftmostRedex(l).value;
        } else if LeftmostRedex(l).None? {
          LeftmostRedexIsFirst(r, q[1..]);
          assert ([Right] + LeftmostRedex(r).value)[1..] == LeftmostRedex(r).value;
        }
      case Fun(_, b) =>
        LeftmostRedexIsFirst(b, q[1..]);
        assert ([Into] + LeftmostRedex(b).value)[1..] == LeftmostRedex(b).value;
    }
  }

  /** Contracting the redex `(λx.M) N` gives `M[x := N]`. */
  function Contract(t: Term): (c: Term)
    requires WellFormed(t) && IsRedex(t)
    ensures WellFormed(c)
  {
    assert WellFormed(t.left);
    Substitute(t.left.body, t.left.arg, t.right)
  }

  /** `t` with the redex at `p` contracted and everything else as it was. */
  function ReduceAt(t: Term, p: seq<Dir>): (u: Term)
    requires WellFormed(t) && RedexAt(t, p)
    ensures WellFormed(u)
    decreases |p|
  {
    if p == [] then Contract(t)
    else
      match t
      case App(l, r) =>
        if p[0] == Left then App(ReduceAt(l, p[1..]), r) else App(l, ReduceAt(r, p[1..]))
      case Fun(x, b) => Fun(x, ReduceAt(b, p[1..]))
  }

  /** `step` contracts exactly the leftmost-outermost redex and reports
      `true`, or reports `false` and returns its input when there is none. */
  lemma {:induction false} StepIsNormalOrder(t: Term)
    requires WellFormed(t)
    ensures LeftmostRedex(t).None? ==> Step(t) == (t, false)
    ensures LeftmostRedex(t).Some? ==> Step(t) == (ReduceAt(t, LeftmostRedex(t).value), true)
  {
    if !IsRedex(t) {
      match t
      case Var(_) =>
      case App(l, r) =>
        StepIsNormalOrder(l);
        StepIsNormalOrder(r);
        var pl := LeftmostRedex(l);
        if pl.Some? {
          assert ([Left] + pl.value)[1..] == pl.value;
        } else if LeftmostRedex(r).Some? {
          assert ([Right] + LeftmostRedex(r).value)[1..] == LeftmostRedex(r).value;
        }
      case Fun(x, b) =>
        StepIsNormalOrder(b);
        if LeftmostRedex(b).Some? {
          assert ([Into] + LeftmostRedex(b).value)[1..] == LeftmostRedex(b).value;
        }
    }
  }

  /** `step` reports a change exactly on terms that contain a redex. */
  lemma StepChangedIffRedex(t: Term)
    requires WellFormed(t)
    ensures Step(t).1 ==> exists q :: RedexAt(t, q)
    ensures (exists q :: RedexAt(t, q)) ==> Step(t).1
  {
    StepIsNormalOrder(t);
    if LeftmostRedex(t).None? {
      forall q | RedexAt(t, q) ensures false {
        LeftmostRedexIsFirst(t, q);
      }
    } else {
      assert RedexAt(t, LeftmostRedex(t).value);
    }
  }

  /** A redex at the root is reduced first: `(λx.M) N` steps to `M[x := N]`;
      otherwise the left side is stepped first and the right side is left
      alone whenever the left side changed. */
  lemma StepApplication(l: Term, r: Term)
    requires WellFormed(l) && WellFormed(r)
    ensures l.Fun? ==> Step(App(l, r)) == (Substitute(l.body, l.arg, r), true)
    ensures !l.Fun? && Step(l).1 ==> Step(App(l, r)) == (App(Step(l).0, r), true)
    ensures !l.Fun? && !Step(l).1 ==> Step(App(l, r)) == (App(l, Step(r).0), Step(r).1)
  {
  }

  /** Stepping a term in normal form again changes nothing. */
  lemma StepNormalFormIdempotent(t: Term)
    requires WellFormed(t) && !Step(t).1
    ensures Step(Step(t).0) == Step(t)
  {
  }

  /** `(λx.x) a` steps to `a`, and in `((λx.x) a) ((λy.y) b)` the left
      redex goes first. */
  lemma StepExamples()
    ensures Step(App(Fun("x", Var("x")), Var("a"))) == (Var("a"), true)
    ensures Step(App(App(Fun("x", Var("x")), Var("a")), App(Fun("y", Var("y")), Var("b"))))
         == (App(Var("a"), App(Fun("y", Var("y")), Var("b"))), true)
  {
  }
}
