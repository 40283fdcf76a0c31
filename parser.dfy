/** The shift/reduce parser (`build_application`, `apply_stack`, `parse`):
    tokens are pushed on a stack that mixes raw markers with built terms,
    and a `)` or the end of the line collapses the stack back to the
    nearest `(`, building applications left to right and abstractions from
    `λ x y … .` groups. */
module Parser {
  import opened Terms
  import opened Lexer

  /** An element of the parse stack: a raw `(`, `λ` (or `\`), `.`, or a
      built term. A built term may be `Empty`, which is what `()` pushes. */
  datatype Entry = LParen | Lambda(marker: char) | Dot | Built(term: Term)

  /** The syntax errors `parse` reports, one per message of the source. */
  datatype SyntaxError =
    | NoParameters(marker: char)    // a `λ` directly followed by `.`
    | InvalidArgument(entry: Entry) // a non-variable between `λ` and `.`
    | UnexpectedLambda(marker: char)
    | UnexpectedDot
    | UnexpectedRParen
    | UnexpectedRun                 // reported for a misplaced `run` or `step`
    | UnexpectedEquals
    | UnmatchedLParen

  /** What `apply_stack` and `parse` return: a term (`Empty` when nothing
      was built) or an error. */
  datatype Outcome = Tree(term: Term) | Error(error: SyntaxError)

  /** The `LAMBDA_MODE_*` bit set. */
  type Mode = bv4

  const ModeNone: Mode := 0
  const ModeRun: Mode := 1
  const ModeSet: Mode := 2
  const ModeStep: Mode := 4
  const ModeErr: Mode := 8

  predicate AllBuilt(es: seq<Entry>) {
    forall k :: 0 <= k < |es| ==> es[k].Built?
  }

  /** What `build_application` builds from built entries: the left-nested
      application of their terms, where an `Empty` so far is replaced by
      the next term rather than applied. It is `Empty` exactly when every
      term is, in particular when there are none. */
  function Fold(es: seq<Entry>): (t: Term)
    requires AllBuilt(es)
    ensures t == Empty <==> forall k :: 0 <= k < |es| ==> es[k].term == Empty
    ensures |es| == 1 ==> t == es[0].term
  {
    if es == [] then Empty
    else
      var acc := Fold(es[..|es| - 1]);
      var e := es[|es| - 1].term;
      assert forall k :: 0 <= k < |es| - 1 ==> es[..|es| - 1][k] == es[k];
      if acc == Empty then e else App(acc, e)
  }

  /** The loop of `apply_stack`, from the top of the stack down: `i` entries
      are still to be examined, `built` is the term being wrapped in
      parameters and `checking` says whether the walk is between a `.` and
      its `λ`. While checking, the entry examined is always the top one;
      otherwise everything above position `i` is a built term and no term
      is being wrapped, so after the last entry the walk either reports a
      stray `.` or folds the whole stack: the final `return built` of
      `apply_stack` is never reached. The result pairs what `apply_stack`
      returns with the stack it leaves. */
  function Walk(stack: seq<Entry>, i: nat, built: Term, checking: bool): (r: (Outcome, seq<Entry>))
    requires i <= |stack|
    requires checking ==> |stack| == i
    requires !checking ==> AllBuilt(stack[i..]) && built == Empty
    ensures |r.1| <= |stack|
    ensures r.0.Tree? ==> r.1 == [] || r.1[|r.1| - 1] == LParen
    decreases i
  {
    if i == 0 then
      if checking then (Error(UnexpectedDot), stack)
      else (Tree(Fold(stack)), [])
    else
      var e := stack[i - 1];
      if checking then
        match e
        case Built(Var(x)) => Walk(stack[..i - 1], i - 1, Fun(x, built), true)
        case Lambda(mk) =>
          if !built.Fun? then (Error(NoParameters(mk)), stack)
          else
            var next := stack[..i - 1] + [Built(built)];
            assert next[i - 1..] == [Built(built)];
            Walk(next, i - 1, Empty, false)
        case _ => (Error(InvalidArgument(e)), stack)
      else
        match e
        case LParen => (Tree(Fold(stack[i..])), stack[..i])
        case Dot => Walk(stack[..i - 1], i - 1, Fold(stack[i..]), true)
        case Lambda(mk) => (Error(UnexpectedLambda(mk)), stack)
        case Built(_) =>
          assert stack[i - 1..] == [e] + stack[i..];
          Walk(stack, i - 1, built, false)
  }

  /** `apply_stack(stack)`: the result and the stack it leaves behind. */
  function Collapse(stack: seq<Entry>): (r: (Outcome, seq<Entry>))
    ensures |r.1| <= |stack|
    ensures r.0.Tree? ==> r.1 == [] || r.1[|r.1| - 1] == LParen
  {
    Walk(stack, |stack|, Empty, false)
  }

  /** The parse stack, updated in place. */
  class Stack {
    var entries: seq<Entry>

    constructor()
      ensures entries == []
    {
      entries := [];
    }

    /** `stack.append(e)`. */
    method Push(e: Entry)
      modifies this
      ensures entries == old(entries) + [e]
    {
      entries := entries + [e];
    }

    /** `stack.pop()`. */
    method Pop() returns (e: Entry)
      requires entries != []
      modifies this
      ensures e == old(entries)[|old(entries)| - 1]
      ensures entries == old(entries)[..|old(entries)| - 1]
    {
      e := entries[|entries| - 1];
      entries := entries[..|entries| - 1];
    }

    /** `build_application(stack, start)`: folds the entries from `start` on
        into one application, then deletes them. */
    method BuildApplication(start: nat) returns (built: Term)
      requires start <= |entries| && AllBuilt(entries[start..])
      modifies this
      ensures built == Fold(old(entries)[start..])
      ensures entries == old(entries)[..start]
    {
      built := Empty;
      for j := start to |entries|
        invariant AllBuilt(entries[start..j])
        invariant built == Fold(entries[start..j])
      {
        assert entries[start..][j - start] == entries[j];
        assert entries[start..j + 1][..j - start] == entries[start..j];
        var e := entries[j].term;
        if built == Empty {
          built := e;
        } else {
          built := App(built, e);
        }
      }
      assert entries[start..|entries|] == entries[start..];
      entries := entries[..start];
    }

    /** `apply_stack(stack)`: walks the stack from the top, collapsing
        `λ params . body` groups, and stops at the first `(`, whose
        contents become one application. */
    method ApplyStack() returns (result: Outcome)
      modifies this
      ensures (result, entries) == Collapse(old(entries))
    {
      var built := Empty;
      var checking := false;
      for i := |entries| downto 0
        invariant i <= |entries|
        invariant checking ==> |entries| == i
        invariant !checking ==> AllBuilt(entries[i..]) && built == Empty
        invariant Walk(entries, i, built, checking) == Collapse(old(entries))
      {
        var e := entries[i];
        ghost var before := entries;
        if checking {
          if e.Built? && e.term.Var? {
            var x := Pop();
            built := Fun(x.term.name, built);
          } else if e.Lambda? {
            if !built.Fun? {
              return Error(NoParameters(e.marker));
            }
            var _ := Pop();
            Push(Built(built));
            assert entries[i..] == [Built(built)];
            built := Empty;
            checking := false;
          } else {
            return Error(InvalidArgument(e));
          }
        } else if e.LParen? {
          built := BuildApplication(i + 1);
          return Tree(built);
        } else if e.Dot? {
          built := BuildApplication(i + 1);
          var _ := Pop();
          checking := true;
          assert entries == before[..i];
        } else if e.Lambda? {
          return Error(UnexpectedLambda(e.marker));
        } else {
          assert entries[i..] == [e] + entries[i + 1..];
        }
      }
      if checking {
        return Error(UnexpectedDot);
      }
      // The `built is None` test of the source always holds here.
      assert built == Empty;
      built := BuildApplication(0);
      return Tree(built);
    }
  }
  /** What one token does to the state of `parse`: it goes on with a new
      stack, mode and `var_name`, or it stops `parse` with a result. */
  datatype Action =
    | Continue(stack: seq<Entry>, mode: Mode, target: Term)
    | Stop(result: Outcome, mode: Mode)

  /** The body of the token loop of `parse`. Keywords are recognised
      before symbols; a misplaced `run`, `step` or `=` and an error while
      collapsing at `)` stop with the ERR mode. */
  function Advance(t: string, stack: seq<Entry>, mode: Mode, target: Term): (a: Action)
    ensures a.Stop? ==> a.result.Error? && a.mode == ModeErr
  {
    if t == "(" then Continue(stack + [LParen], mode, target)
    else if t == "\\" || t == "λ" then Continue(stack + [Lambda(t[0])], mode, target)
    else if t == "." then Continue(stack + [Dot], mode, target)
    else if t == ")" then Close(stack, mode, target)
    else if t == "run" then
      if stack == [] && mode & ModeStep == 0 then Continue(stack, mode | ModeRun, target)
      else Stop(Error(UnexpectedRun), ModeErr)
    else if t == "step" then
      if stack == [] && mode & ModeRun == 0 then Continue(stack, mode | ModeStep, target)
      else Stop(Error(UnexpectedRun), ModeErr)
    else if t == "=" then
      if |stack| == 1 && stack[0].Built? && stack[0].term.Var? then
        Continue([], mode | ModeSet, stack[0].term)
      else Stop(Error(UnexpectedEquals), ModeErr)
    else Continue(stack + [Built(Var(t))], mode, target)
  }

  /** A `)`: collapse the stack down to the nearest `(`, which is then
      replaced by what was built; with no `(` left it is unexpected. */
  function Close(stack: seq<Entry>, mode: Mode, target: Term): (a: Action)
    ensures a.Stop? ==> a.result.Error? && a.mode == ModeErr
    ensures a.Continue? ==> a.mode == mode && a.target == target && |a.stack| <= |stack|
  {
    var (built, left) := Collapse(stack);
    if built.Error? then Stop(built, ModeErr)
    else if left == [] then Stop(Error(UnexpectedRParen), ModeErr)
    else Continue(left[..|left| - 1] + [Built(built.term)], mode, target)
  }

  /** The token loop of `parse` from the current stack, mode bits and
      `var_name` (`target`, `Empty` while there is none). */
  function Run(tokens: seq<string>, stack: seq<Entry>, mode: Mode, target: Term): (r: (Outcome, Mode))
    ensures r.0.Error? ==> r.1 == ModeErr
    decreases |tokens|
  {
    if tokens == [] then Finish(stack, mode, target)
    else
      match Advance(tokens[0], stack, mode, target)
      case Stop(result, m) => (result, m)
      case Continue(next, m, name) => Run(tokens[1..], next, m, name)
  }

  /** The end of `parse`: collapse what is left; a `(` still on the stack
      is unmatched, and in SET mode the result is the saved name applied
      to the term, which must not be missing. */
  function Finish(stack: seq<Entry>, mode: Mode, target: Term): (r: (Outcome, Mode))
    ensures r.0.Error? ==> r.1 == ModeErr
  {
    var (built, left) := Collapse(stack);
    if |left| > 0 && !built.Error? then (Error(UnmatchedLParen), ModeErr)
    else if built.Error? then (built, ModeErr)
    else if mode & ModeSet != 0 then
      if built.term == Empty then (Error(UnexpectedEquals), ModeErr)
      else (Tree(App(target, built.term)), mode)
    else (built, mode)
  }

  /** `parse(string)`. */
  function ParseText(s: string): (r: (Outcome, Mode))
    ensures Reported(r)
  {
    RunModes(Tokenize(s), [], ModeNone, Empty);
    Run(Tokenize(s), [], ModeNone, Empty)
  }

  /** `parse`: lex the line, then shift each token onto the stack or act on
      it, and collapse the stack at the end. */
  method Parse(s: string) returns (result: Outcome, mode: Mode)
    ensures (result, mode) == ParseText(s)
    ensures Reported((result, mode))
  {
    RunModes(Tokenize(s), [], ModeNone, Empty);
    var tokens := Lex(s);
    var stack := new Stack();
    mode := ModeNone;
    var target := Empty;
    for k := 0 to |tokens|
      invariant Run(tokens[k..], stack.entries, mode, target) == ParseText(s)
    {
      assert tokens[k..][1..] == tokens[k + 1..];
      var stop;
      stop, result, mode, target := ReadToken(stack, tokens[k], mode, target);
      if stop {
        return;
      }
    }
    assert tokens[|tokens|..] == [];
    result, mode := Conclude(stack, mode, target);
  }

  /** The body of the token loop of `parse`: one token is pushed, acts on
      the stack or the mode, or stops `parse` with an error. */
  method ReadToken(stack: Stack, token: string, mode: Mode, target: Term)
    returns (stop: bool, result: Outcome, mode': Mode, target': Term)
    modifies stack
    ensures stop ==> Advance(token, old(stack.entries), mode, target) == Stop(result, mode')
    ensures !stop ==> Advance(token, old(stack.entries), mode, target) == Continue(stack.entries, mode', target')
  {
    stop, result, mode', target' := false, Tree(Empty), mode, target;
    if token == "(" {
      stack.Push(LParen);
    } else if token == "\\" || token == "λ" {
      stack.Push(Lambda(token[0]));
    } else if token == "." {
      stack.Push(Dot);
    } else if token == ")" {
      stop, result, mode' := CloseParen(stack, mode, target);
    } else if token == "run" {
      if |stack.entries| == 0 && mode & ModeStep == 0 {
        mode' := mode | ModeRun;
      } else {
        return true, Error(UnexpectedRun), ModeErr, target;
      }
    } else if token == "step" {
      if |stack.entries| == 0 && mode & ModeRun == 0 {
        mode' := mode | ModeStep;
      } else {
        return true, Error(UnexpectedRun), ModeErr, target;
      }
    } else if token == "=" {
      if |stack.entries| == 1 && stack.entries[0].Built? && stack.entries[0].term.Var? {
        mode' := mode | ModeSet;
        var name := stack.Pop();
        target' := name.term;
      } else {
        return true, Error(UnexpectedEquals), ModeErr, target;
      }
    } else {
      stack.Push(Built(Var(token)));
    }
  }

  /** The `)` branch of the token loop of `parse`. */
  method CloseParen(stack: Stack, mode: Mode, target: Term) returns (stop: bool, result: Outcome, mode': Mode)
    modifies stack
    ensures stop ==> Close(old(stack.entries), mode, target) == Stop(result, mode')
    ensures !stop ==> Close(old(stack.entries), mode, target) == Continue(stack.entries, mode', target)
  {
    var built := stack.ApplyStack();
    if built.Error? {
      return true, built, ModeErr;
    } else if |stack.entries| == 0 {
      return true, Error(UnexpectedRParen), ModeErr;
    } else {
      var _ := stack.Pop();
      stack.Push(Built(built.term));
      return false, built, mode;
    }
  }

  /** The end of `parse`: collapse the stack and check what is left. */
  method Conclude(stack: Stack, mode: Mode, target: Term) returns (result: Outcome, mode': Mode)
    modifies stack
    ensures (result, mode') == Finish(old(stack.entries), mode, target)
  {
    mode' := mode;
    result := stack.ApplyStack();
    if |stack.entries| > 0 && !result.Error? {
      return Error(UnmatchedLParen), ModeErr;
    } else if result.Error? {
      return result, ModeErr;
    } else if mode & ModeSet != 0 {
      if result.term == Empty {
        return Error(UnexpectedEquals), ModeErr;
      } else {
        return Tree(App(target, result.term)), mode;
      }
    }
  }

  /** The mode of a successful parse: no ERR bit, and never both RUN and
      STEP. */
  predicate GoodMode(m: Mode) {
    m & ModeErr == 0 && (m & ModeRun == 0 || m & ModeStep == 0)
  }

  /** The result of `name = term`: the saved name applied to a term that
      is not missing. */
  predicate IsSetting(t: Term) {
    t.App? && t.left.Var? && t.right != Empty
  }

  /** What `parse` promises of its result: an error comes with exactly the
      ERR mode and a success with a good mode; a SET success is the saved
      name applied to a term. */
  predicate Reported(r: (Outcome, Mode)) {
    (r.0.Error? <==> r.1 == ModeErr) &&
    (r.0.Tree? ==> GoodMode(r.1)) &&
    (r.0.Tree? && r.1 & ModeSet != 0 ==> IsSetting(r.0.term))
  }

  lemma FinishModes(stack: seq<Entry>, mode: Mode, target: Term)
    requires GoodMode(mode)
    requires mode & ModeSet != 0 ==> target.Var?
    ensures Reported(Finish(stack, mode, target))
  {
  }

  /** Setting a mode bit keeps the mode good unless RUN meets STEP. */
  lemma AddModeBit(mode: Mode, bit: Mode)
    requires GoodMode(mode)
    requires bit == ModeRun || bit == ModeStep || bit == ModeSet
    requires bit == ModeRun ==> mode & ModeStep == 0
    requires bit == ModeStep ==> mode & ModeRun == 0
    ensures GoodMode(mode | bit)
    ensures (mode | bit) & ModeSet != 0 <==> (mode & ModeSet != 0 || bit == ModeSet)
  {
  }

  /** A good state of `parse`: a good mode, and a saved name once SET is
      on. */
  predicate GoodState(mode: Mode, target: Term) {
    GoodMode(mode) && (mode & ModeSet != 0 ==> target.Var?)
  }

  /** One token leads from a good state to a good state, or stops with a
      result `parse` may report. */
  lemma AdvanceModes(t: string, stack: seq<Entry>, mode: Mode, target: Term)
    requires GoodState(mode, target)
    ensures Advance(t, stack, mode, target).Stop? ==> Reported((Advance(t, stack, mode, target).result, Advance(t, stack, mode, target).mode))
    ensures Advance(t, stack, mode, target).Continue? ==> GoodState(Advance(t, stack, mode, target).mode, Advance(t, stack, mode, target).target)
  {
    if t == "run" && stack == [] && mode & ModeStep == 0 {
      AddModeBit(mode, ModeRun);
    } else if t == "step" && stack == [] && mode & ModeRun == 0 {
      AddModeBit(mode, ModeStep);
    } else if t == "=" {
      AddModeBit(mode, ModeSet);
    }
  }

  /** A token that lets the loop go on leaves the rest of the line to be
      read from the new state. */
  lemma RunContinues(t: string, rest: seq<string>, stack: seq<Entry>, mode: Mode, target: Term)
    requires Advance(t, stack, mode, target).Continue?
    ensures Run([t] + rest, stack, mode, target)
         == Run(rest, Advance(t, stack, mode, target).stack, Advance(t, stack, mode, target).mode, Advance(t, stack, mode, target).target)
  {
    assert ([t] + rest)[1..] == rest;
  }

  /** Every run of the token loop from a good state ends in a result
      `parse` may report. */
  lemma {:induction false} RunModes(tokens: seq<string>, stack: seq<Entry>, mode: Mode, target: Term)
    requires GoodState(mode, target)
    ensures Reported(Run(tokens, stack, mode, target))
    decreases |tokens|
  {
    if tokens == [] {
      FinishModes(stack, mode, target);
    } else {
      AdvanceModes(tokens[0], stack, mode, target);
      var a := Advance(tokens[0], stack, mode, target);
      if a.Continue? {
        RunModes(tokens[1..], a.stack, a.mode, a.target);
      }
    }
  }

  /** Outside a lambda group the walk passes over built terms. */
  lemma {:induction false} WalkSkipsBuilt(stack: seq<Entry>, i: nat, j: nat)
    requires j <= i <= |stack| && AllBuilt(stack[j..])
    ensures Walk(stack, i, Empty, false) == Walk(stack, j, Empty, false)
    decreases i
  {
    if i > j {
      assert stack[i - 1] == stack[j..][i - 1 - j];
      var tail, rest := stack[i - 1..], stack[j..];
      forall k | 0 <= k < |tail|
        ensures tail[k].Built?
      {
        assert tail[k] == rest[k + i - 1 - j];
      }
      WalkSkipsBuilt(stack, i - 1, j);
    }
  }

  /** A stack of built terms only is folded into one application and
      emptied. */
  lemma CollapseBuilt(stack: seq<Entry>)
    requires AllBuilt(stack)
    ensures Collapse(stack) == (Tree(Fold(stack)), [])
  {
    assert stack[0..] == stack;
    WalkSkipsBuilt(stack, |stack|, 0);
  }

  /** A `)` builds the application of everything after the nearest `(`,
      and leaves the stack up to and including that `(`. */
  lemma CollapseParen(prefix: seq<Entry>, body: seq<Entry>)
    requires AllBuilt(body)
    ensures Collapse(prefix + [LParen] + body) == (Tree(Fold(body)), prefix + [LParen])
  {
    var stack := prefix + [LParen] + body;
    var n := |prefix| + 1;
    assert stack[n..] == body;
    WalkSkipsBuilt(stack, |stack|, n);
    assert stack[..n] == prefix + [LParen];
  }

  /** The parameters `x y …` of a lambda group as they sit on the stack. */
  function Params(xs: seq<string>): (ps: seq<Entry>)
    ensures |ps| == |xs|
  {
    if xs == [] then [] else Params(xs[..|xs| - 1]) + [Built(Var(xs[|xs| - 1]))]
  }

  /** `λx y … . body`: the abstractions built from the last parameter
      outwards. */
  function Curry(xs: seq<string>, body: Term): (t: Term)
    ensures xs != [] ==> t.Fun? && t.arg == xs[0]
  {
    if xs == [] then body else Curry(xs[..|xs| - 1], Fun(xs[|xs| - 1], body))
  }

  /** Between `.` and `λ`, each parameter wraps the term built so far. */
  lemma {:induction false} WalkParams(prefix: seq<Entry>, xs: seq<string>, built: Term)
    ensures Walk(prefix + Params(xs), |prefix| + |xs|, built, true)
         == Walk(prefix, |prefix|, Curry(xs, built), true)
    decreases |xs|
  {
    if xs == [] {
      assert prefix + Params(xs) == prefix;
    } else {
      var init, x := xs[..|xs| - 1], xs[|xs| - 1];
      assert prefix + Params(xs) == (prefix + Params(init)) + [Built(Var(x))];
      WalkParam(prefix + Params(init), x, built);
      WalkParams(prefix, init, Fun(x, built));
    }
  }

  /** One parameter between `.` and `λ`. */
  lemma WalkParam(below: seq<Entry>, x: string, built: Term)
    ensures Walk(below + [Built(Var(x))], |below| + 1, built, true) == Walk(below, |below|, Fun(x, built), true)
  {
    var stack := below + [Built(Var(x))];
    assert stack[|stack| - 1] == Built(Var(x));
    assert stack[..|stack| - 1] == below;
  }

  /** A complete lambda group `λ x y … . body` collapses to the curried
      abstraction, whose body extends over everything after the `.`. */
  lemma CollapseLambda(prefix: seq<Entry>, mk: char, xs: seq<string>, body: seq<Entry>)
    requires xs != [] && AllBuilt(body)
    ensures Collapse(prefix + [Lambda(mk)] + Params(xs) + [Dot] + body)
         == Collapse(prefix + [Built(Curry(xs, Fold(body)))])
  {
    var head := prefix + [Lambda(mk)];
    CollapseAtDot(head + Params(xs), body);
    WalkParams(head, xs, Fold(body));
    WalkLambda(prefix, mk, Curry(xs, Fold(body)));
  }

  /** The `.` nearest the top starts lambda-argument mode with the
      application of everything after it. */
  lemma CollapseAtDot(front: seq<Entry>, body: seq<Entry>)
    requires AllBuilt(body)
    ensures Collapse(front + [Dot] + body) == Walk(front, |front|, Fold(body), true)
  {
    var stack := front + [Dot] + body;
    var d := |front|;
    assert stack[d + 1..] == body;
    WalkSkipsBuilt(stack, |stack|, d + 1);
    assert stack[d] == Dot;
    assert stack[..d] == front;
  }

  /** The `λ` that closes a group turns the abstraction built so far into
      a built entry and goes on outside the group. */
  lemma WalkLambda(prefix: seq<Entry>, mk: char, f: Term)
    requires f.Fun?
    ensures Walk(prefix + [Lambda(mk)], |prefix| + 1, f, true) == Collapse(prefix + [Built(f)])
  {
    var head := prefix + [Lambda(mk)];
    assert head[..|prefix|] == prefix;
    var after := prefix + [Built(f)];
    assert after[|after| - 1..] == [Built(f)];
    assert Collapse(after) == Walk(after, |prefix|, Empty, false);
  }

  /** The sugar `λx y.M` and the nesting `λx.λy.M` build the same tree. */
  lemma CollapseSugar(prefix: seq<Entry>, mk: char, x: string, y: string, body: seq<Entry>)
    requires AllBuilt(body)
    ensures Collapse(prefix + [Lambda(mk)] + Params([x, y]) + [Dot] + body)
         == Collapse(prefix + [Lambda(mk)] + Params([x]) + [Dot, Lambda(mk)] + Params([y]) + [Dot] + body)
  {
    var m := Fold(body);
    CollapseLambda(prefix, mk, [x, y], body);
    assert Curry([x, y], m) == Fun(x, Fun(y, m)) by {
      assert [x, y][..1] == [x];
      assert Curry([x, y], m) == Curry([x], Fun(y, m));
      assert [x][..0] == [];
      assert Curry([x], Fun(y, m)) == Curry([], Fun(x, Fun(y, m)));
    }
    var outer := prefix + [Lambda(mk)] + Params([x]) + [Dot];
    assert prefix + [Lambda(mk)] + Params([x]) + [Dot, Lambda(mk)] + Params([y]) + [Dot] + body
        == outer + [Lambda(mk)] + Params([y]) + [Dot] + body;
    CollapseLambda(outer, mk, [y], body);
    var inner := [Built(Fun(y, m))];
    assert outer + [Built(Curry([y], m))] == prefix + [Lambda(mk)] + Params([x]) + [Dot] + inner;
    CollapseLambda(prefix, mk, [x], inner);
  }

  /** A `λ` with no `.` above it is stray, whatever built terms follow. */
  lemma CollapseStrayLambda(prefix: seq<Entry>, mk: char, body: seq<Entry>)
    requires AllBuilt(body)
    ensures Collapse(prefix + [Lambda(mk)] + body).0 == Error(UnexpectedLambda(mk))
  {
    var stack := prefix + [Lambda(mk)] + body;
    assert stack[|prefix| + 1..] == body;
    WalkSkipsBuilt(stack, |stack|, |prefix| + 1);
  }

  /** A `.` with only parameters below it has no `λ` to close its group, so
      it is stray: `.` alone, or `a . b`. */
  lemma CollapseStrayDot(xs: seq<string>, body: seq<Entry>)
    requires AllBuilt(body)
    ensures Collapse(Params(xs) + [Dot] + body).0 == Error(UnexpectedDot)
  {
    CollapseAtDot(Params(xs), body);
    assert [] + Params(xs) == Params(xs);
    WalkParams([], xs, Fold(body));
  }

  /** A `λ` directly followed by `.` has no parameters, unless what follows
      the `.` already is an abstraction (see `CollapseBareLambda`). */
  lemma CollapseNoParameters(prefix: seq<Entry>, mk: char, body: seq<Entry>)
    requires AllBuilt(body) && !Fold(body).Fun?
    ensures Collapse(prefix + [Lambda(mk), Dot] + body).0 == Error(NoParameters(mk))
  {
    var head := prefix + [Lambda(mk)];
    assert prefix + [Lambda(mk), Dot] + body == head + [Dot] + body;
    CollapseAtDot(head, body);
    assert head[|head| - 1] == Lambda(mk);
  }

  /** The parameter check only asks whether the term built so far is an
      abstraction, so `λ.` followed by an abstraction is accepted and
      stands for that abstraction: `λ.λy.y` is read as `λy.y`. */
  lemma CollapseBareLambda(prefix: seq<Entry>, mk: char, body: seq<Entry>)
    requires AllBuilt(body) && Fold(body).Fun?
    ensures Collapse(prefix + [Lambda(mk), Dot] + body) == Collapse(prefix + [Built(Fold(body))])
  {
    var stack := prefix + [Lambda(mk), Dot] + body;
    var d := |prefix| + 1;
    assert stack[d + 1..] == body;
    WalkSkipsBuilt(stack, |stack|, d + 1);
    assert stack[..d] == prefix + [Lambda(mk)];
    var after := prefix + [Built(Fold(body))];
    assert (prefix + [Lambda(mk)])[..|prefix|] == prefix;
    assert after[|after| - 1..] == [Built(Fold(body))];
    assert Collapse(after) == Walk(after, |prefix|, Empty, false);
  }

  /** A token that `parse` only pushes: anything but `)` and the three
      keywords. */
  predicate IsShifted(t: string) {
    t != ")" && t != "run" && t != "step" && t != "="
  }

  /** The entry a shifted token pushes. */
  function Shifted(t: string): Entry {
    if t == "(" then LParen
    else if t == "\\" || t == "λ" then Lambda(t[0])
    else if t == "." then Dot
    else Built(Var(t))
  }

  function ShiftedAll(tokens: seq<string>): (es: seq<Entry>)
    ensures |es| == |tokens|
  {
    if tokens == [] then [] else [Shifted(tokens[0])] + ShiftedAll(tokens[1..])
  }

  /** A shifted token is pushed as its entry. */
  lemma AdvanceShifted(t: string, stack: seq<Entry>, mode: Mode, target: Term)
    requires IsShifted(t)
    ensures Advance(t, stack, mode, target) == Continue(stack + [Shifted(t)], mode, target)
  {
  }

  /** Tokens that are only pushed leave the mode alone: the line is
      decided by collapsing the stack they build. */
  lemma {:induction false} RunShifts(tokens: seq<string>, stack: seq<Entry>, mode: Mode, target: Term)
    requires forall k :: 0 <= k < |tokens| ==> IsShifted(tokens[k])
    ensures Run(tokens, stack, mode, target) == Finish(stack + ShiftedAll(tokens), mode, target)
    decreases |tokens|
  {
    if tokens == [] {
      assert stack + [] == stack;
    } else {
      var t := tokens[0];
      AdvanceShifted(t, stack, mode, target);
      assert Run(tokens, stack, mode, target) == Run(tokens[1..], stack + [Shifted(t)], mode, target);
      RunShifts(tokens[1..], stack + [Shifted(t)], mode, target);
      assert stack + [Shifted(t)] + ShiftedAll(tokens[1..]) == stack + ShiftedAll(tokens);
    }
  }

  lemma {:induction false} ShiftedAllAppend(a: seq<string>, b: seq<string>)
    ensures ShiftedAll(a + b) == ShiftedAll(a) + ShiftedAll(b)
    decreases |a|
  {
    if a == [] {
      assert a + b == b;
    } else {
      assert (a + b)[1..] == a[1..] + b;
      ShiftedAllAppend(a[1..], b);
    }
  }

  /** A token that `parse` pushes as a variable. */
  predicate IsName(t: string) {
    IsShifted(t) && t != "(" && t != "\\" && t != "λ" && t != "."
  }

  /** A line of pushed tokens, read in three parts from an empty stack. */
  lemma RunLine(front: seq<string>, mid: seq<string>, back: seq<string>, mode: Mode, target: Term)
    requires forall k :: 0 <= k < |front| ==> IsShifted(front[k])
    requires forall k :: 0 <= k < |mid| ==> IsShifted(mid[k])
    requires forall k :: 0 <= k < |back| ==> IsShifted(back[k])
    ensures Run(front + mid + back, [], mode, target)
         == Finish(ShiftedAll(front) + ShiftedAll(mid) + ShiftedAll(back), mode, target)
  {
    var line := front + mid + back;
    assert forall k :: 0 <= k < |line| ==> IsShifted(line[k]) by {
      forall k | 0 <= k < |line|
        ensures IsShifted(line[k])
      {
        if k < |front| {
          assert line[k] == front[k];
        } else if k < |front| + |mid| {
          assert line[k] == mid[k - |front|];
        } else {
          assert line[k] == back[k - |front| - |mid|];
        }
      }
    }
    RunShifts(line, [], mode, target);
    ShiftedAllAppend(front + mid, back);
    ShiftedAllAppend(front, mid);
    assert [] + ShiftedAll(line) == ShiftedAll(line);
  }

  /** `=` after a single name takes that name as `var_name` and adds SET. */
  lemma AdvanceEquals(stack: seq<Entry>, mode: Mode, target: Term)
    requires |stack| == 1 && stack[0].Built? && stack[0].term.Var?
    ensures Advance("=", stack, mode, target) == Continue([], mode | ModeSet, stack[0].term)
  {
  }

  /** `x = …` on a fresh line: the name is taken as `var_name`, SET is
      added, and the rest of the line is parsed as usual. */
  lemma RunSetting(x: string, body: seq<string>)
    requires IsName(x)
    requires forall k :: 0 <= k < |body| ==> IsShifted(body[k])
    ensures Run([x, "="] + body, [], ModeNone, Empty) == Finish(ShiftedAll(body), ModeSet, Var(x))
  {
    RunNameEquals(x, body);
    RunShifts(body, [], ModeSet, Var(x));
    assert [] + ShiftedAll(body) == ShiftedAll(body);
  }

  lemma RunNameEquals(x: string, body: seq<string>)
    requires IsName(x)
    ensures Run([x, "="] + body, [], ModeNone, Empty) == Run(body, [], ModeSet, Var(x))
  {
    var named := [Built(Var(x))];
    assert Run([x, "="] + body, [], ModeNone, Empty) == Run(["="] + body, named, ModeNone, Empty) by {
      AdvanceShifted(x, [], ModeNone, Empty);
      assert [] + [Shifted(x)] == named;
      assert [x, "="] + body == [x] + (["="] + body);
      RunContinues(x, ["="] + body, [], ModeNone, Empty);
    }
    AdvanceEquals(named, ModeNone, Empty);
    assert ModeNone | ModeSet == ModeSet;
    RunContinues("=", body, named, ModeNone, Empty);
  }

  /** Names are pushed as built variables. */
  lemma NamesBuilt(names: seq<string>)
    requires forall k :: 0 <= k < |names| ==> IsName(names[k])
    ensures AllBuilt(ShiftedAll(names))
  {
    var es := ShiftedAll(names);
    forall k | 0 <= k < |es|
      ensures es[k].Built?
    {
      ShiftedAllAt(names, k);
    }
  }

  /** `λx y.` and `λx.λy.` mean the same wherever they stand in a line of
      pushed tokens, when the body after them is a run of names. */
  lemma ParseSugar(front: seq<string>, mk: string, x: string, y: string, body: seq<string>, mode: Mode, target: Term)
    requires mk == "\\" || mk == "λ"
    requires forall k :: 0 <= k < |front| ==> IsShifted(front[k])
    requires IsName(x) && IsName(y)
    requires forall k :: 0 <= k < |body| ==> IsName(body[k])
    ensures Run(front + [mk, x, y, "."] + body, [], mode, target)
         == Run(front + [mk, x, ".", mk, y, "."] + body, [], mode, target)
  {
    RunLine(front, [mk, x, y, "."], body, mode, target);
    RunLine(front, [mk, x, ".", mk, y, "."], body, mode, target);
    NamesBuilt(body);
    SugarStacks(ShiftedAll(front), mk, x, y, ShiftedAll(body));
  }

  lemma SugarStacks(pre: seq<Entry>, mk: string, x: string, y: string, es: seq<Entry>)
    requires mk == "\\" || mk == "λ"
    requires IsName(x) && IsName(y) && AllBuilt(es)
    ensures Collapse(pre + ShiftedAll([mk, x, y, "."]) + es)
         == Collapse(pre + ShiftedAll([mk, x, ".", mk, y, "."]) + es)
  {
    ShiftedSugar(mk, x, y);
    ShiftedNested(mk, x, y);
    var lam := Lambda(mk[0]);
    CollapseSugar(pre, mk[0], x, y, es);
    assert pre + ([lam] + Params([x, y]) + [Dot]) + es
        == pre + [lam] + Params([x, y]) + [Dot] + es;
    assert pre + ([lam] + Params([x]) + [Dot, lam] + Params([y]) + [Dot]) + es
        == pre + [lam] + Params([x]) + [Dot, lam] + Params([y]) + [Dot] + es;
  }

  lemma ShiftedSugar(mk: string, x: string, y: string)
    requires mk == "\\" || mk == "λ"
    requires IsName(x) && IsName(y)
    ensures ShiftedAll([mk, x, y, "."]) == [Lambda(mk[0])] + Params([x, y]) + [Dot]
  {
    assert Params([x, y]) == [Built(Var(x)), Built(Var(y))] by {
      assert [x, y][..1] == [x] && [x][..0] == [];
    }
    var ts := [mk, x, y, "."];
    assert ShiftedAll(ts[3..]) == [Dot] by {
      assert ts[3..][1..] == [];
    }
    assert ShiftedAll(ts[2..]) == [Built(Var(y)), Dot] by {
      assert ts[2..][1..] == ts[3..];
    }
    assert ShiftedAll(ts[1..]) == [Built(Var(x)), Built(Var(y)), Dot] by {
      assert ts[1..][1..] == ts[2..];
    }
    assert Shifted(mk) == Lambda(mk[0]);
  }

  lemma ShiftedBinder(mk: string, x: string)
    requires mk == "\\" || mk == "λ"
    requires IsName(x)
    ensures ShiftedAll([mk, x, "."]) == [Lambda(mk[0])] + Params([x]) + [Dot]
  {
    assert Params([x]) == [Built(Var(x))] by {
      assert [x][..0] == [];
    }
    var ts := [mk, x, "."];
    assert ShiftedAll(ts[2..]) == [Dot] by {
      assert ts[2..][1..] == [];
    }
    assert ShiftedAll(ts[1..]) == [Built(Var(x)), Dot] by {
      assert ts[1..][1..] == ts[2..];
    }
    assert Shifted(mk) == Lambda(mk[0]);
  }

  lemma ShiftedNested(mk: string, x: string, y: string)
    requires mk == "\\" || mk == "λ"
    requires IsName(x) && IsName(y)
    ensures ShiftedAll([mk, x, ".", mk, y, "."])
         == [Lambda(mk[0])] + Params([x]) + [Dot, Lambda(mk[0])] + Params([y]) + [Dot]
  {
    ShiftedBinder(mk, x);
    ShiftedBinder(mk, y);
    ShiftedAllAppend([mk, x, "."], [mk, y, "."]);
    assert [mk, x, ".", mk, y, "."] == [mk, x, "."] + [mk, y, "."];
  }

  lemma {:induction false} ShiftedAllAt(tokens: seq<string>, k: nat)
    requires k < |tokens|
    ensures ShiftedAll(tokens)[k] == Shifted(tokens[k])
    decreases k
  {
    if k > 0 {
      ShiftedAllAt(tokens[1..], k - 1);
    }
  }
}
