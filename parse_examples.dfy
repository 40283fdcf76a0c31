/** `parse` on concrete lines: the inputs it rejects, the multi-parameter
    sugar and the SET form. Each lemma takes its line as a parameter fixed
    by its precondition. */
module ParseExamples {
  import opened Terms
  import opened Lexer
  import opened Parser

  /** `)` alone has no `(` to close. */
  lemma RejectsLoneRParen(s: string)
    requires s == ")"
    ensures ParseText(s) == (Error(UnexpectedRParen), ModeErr)
  {
    assert Tokenize(s) == [")"] by {
      TokenizeAt(s, 0);
      assert s[0..] == s && s[1..] == [];
    }
    assert Run([")"], [], ModeNone, Empty) == (Error(UnexpectedRParen), ModeErr);
  }

  /** `(a` leaves its `(` unmatched. */
  lemma RejectsUnmatchedLParen(s: string)
    requires s == "(a"
    ensures ParseText(s) == (Error(UnmatchedLParen), ModeErr)
  {
    assert Tokenize(s) == ["(", "a"] by {
      TokenizeAt(s, 0);
      TokenizeAt(s, 1);
      assert s[0..] == s && s[2..] == [];
    }
    assert Run(["(", "a"], [], ModeNone, Empty) == (Error(UnmatchedLParen), ModeErr) by {
      CollapseParen([], [Built(Var("a"))]);
    }
  }

  /** `λ.x` is read one character at a time. */
  lemma TokenizeLambdaDot(s: string)
    requires s == "λ.x"
    ensures Tokenize(s) == ["λ", ".", "x"]
  {
    TokenizeAt(s, 0);
    TokenizeAt(s, 1);
    TokenizeAt(s, 2);
    assert s[0..] == s && s[3..] == [];
  }

  /** `λ.x`: a `λ` directly followed by `.`. */
  lemma RejectsMissingParameters(s: string)
    requires s == "λ.x"
    ensures ParseText(s) == (Error(NoParameters('λ')), ModeErr)
  {
    TokenizeLambdaDot(s);
    assert Run(["λ", ".", "x"], [], ModeNone, Empty) == (Error(NoParameters('λ')), ModeErr) by {
      CollapseNoParameters([], 'λ', [Built(Var("x"))]);
      assert [] + [Lambda('λ'), Dot] + [Built(Var("x"))] == [Lambda('λ'), Dot, Built(Var("x"))];
      assert [] + [Lambda('λ')] == [Lambda('λ')];
      assert Run(["λ", ".", "x"], [], ModeNone, Empty) == Run([".", "x"], [Lambda('λ')], ModeNone, Empty);
      assert [Lambda('λ')] + [Dot] == [Lambda('λ'), Dot];
      assert Run([".", "x"], [Lambda('λ')], ModeNone, Empty) == Run(["x"], [Lambda('λ'), Dot], ModeNone, Empty);
      assert [Lambda('λ'), Dot] + [Built(Var("x"))] == [Lambda('λ'), Dot, Built(Var("x"))];
      assert Run(["x"], [Lambda('λ'), Dot], ModeNone, Empty) == Finish([Lambda('λ'), Dot, Built(Var("x"))], ModeNone, Empty);
    }
  }

  /** `x =`: a SET with nothing to save. */
  lemma RejectsMissingValue(s: string)
    requires s == "x ="
    ensures ParseText(s) == (Error(UnexpectedEquals), ModeErr)
  {
    assert Tokenize(s) == ["x", "="] by {
      TokenizeAt(s, 0);
      TokenizeAt(s, 1);
      TokenizeAt(s, 2);
      assert s[0..] == s && s[3..] == [];
    }
    RunNameEquals("x", []);
    assert ["x", "="] + [] == ["x", "="];
    CollapseBuilt([]);
  }

  /** `run step` is read as two keywords. */
  lemma TokenizeRunStep(s: string)
    requires s == "run step"
    ensures Tokenize(s) == ["run", "step"]
  {
    var run, step := s[..3], s[4..];
    assert run == "run" && step == "step";
    assert s == run + ([' '] + step);
    TokenizeSymbol(step, "");
    assert step + "" == step;
    TokenizeSeparator(' ', step);
    TokenizeSymbol(run, [' '] + step);
  }

  /** `run step`: RUN and STEP exclude each other. */
  lemma RejectsRunStep(s: string)
    requires s == "run step"
    ensures ParseText(s) == (Error(UnexpectedRun), ModeErr)
  {
    TokenizeRunStep(s);
    assert Run(["run", "step"], [], ModeNone, Empty) == (Error(UnexpectedRun), ModeErr);
  }

  /** A stray `λ` and a stray `.`. */
  lemma RejectsStrayMarkers(s: string, t: string)
    requires s == "λ" && t == "."
    ensures ParseText(s) == (Error(UnexpectedLambda('λ')), ModeErr)
    ensures ParseText(t) == (Error(UnexpectedDot), ModeErr)
  {
    TokenizeAt(s, 0);
    assert s[0..] == s && s[1..] == [];
    CollapseStrayLambda([], 'λ', []);
    assert [] + [Lambda('λ')] + [] == [Lambda('λ')];
    assert Run(["λ"], [], ModeNone, Empty) == (Error(UnexpectedLambda('λ')), ModeErr);
    TokenizeAt(t, 0);
    assert t[0..] == t && t[1..] == [];
    CollapseStrayDot([], []);
    assert Params([]) + [Dot] + [] == [Dot];
    assert Run(["."], [], ModeNone, Empty) == (Error(UnexpectedDot), ModeErr);
  }

  /** `x y` as parameters on the stack. */
  lemma ParamsXY()
    ensures Params(["x"]) == [Built(Var("x"))]
    ensures Params(["y"]) == [Built(Var("y"))]
    ensures Params(["x", "y"]) == [Built(Var("x")), Built(Var("y"))]
  {
    assert ["x"][..0] == [] && ["y"][..0] == [];
    assert ["x", "y"][..1] == ["x"];
  }

  /** The stack that the tokens of `λx y.x` build collapses to
      `λx.λy.x`. */
  lemma CollapseTwoParameters()
    ensures Collapse([Lambda('λ'), Built(Var("x")), Built(Var("y")), Dot, Built(Var("x"))])
         == (Tree(Fun("x", Fun("y", Var("x")))), [])
  {
    var body := [Built(Var("x"))];
    ParamsXY();
    CollapseLambda([], 'λ', ["x", "y"], body);
    assert [] + [Lambda('λ')] + Params(["x", "y"]) + [Dot] + body
        == [Lambda('λ'), Built(Var("x")), Built(Var("y")), Dot, Built(Var("x"))];
    var f := Curry(["x", "y"], Var("x"));
    assert f == Fun("x", Fun("y", Var("x")));
    CollapseBuilt([] + [Built(f)]);
  }

  /** The tokens of `λx y.x` parse to `λx.λy.x`. */
  lemma SugarParses()
    ensures Run(["λ", "x", "y", ".", "x"], [], ModeNone, Empty) == (Tree(Fun("x", Fun("y", Var("x")))), ModeNone)
  {
    var sugar := ["λ", "x", "y", ".", "x"];
    RunShifts(sugar, [], ModeNone, Empty);
    assert [] + ShiftedAll(sugar) == [Lambda('λ'), Built(Var("x")), Built(Var("y")), Dot, Built(Var("x"))];
    CollapseTwoParameters();
  }

  /** `λx y.x` is read as `λ`, `x`, `y`, `.`, `x`. */
  lemma TokenizeSugar(s: string)
    requires s == "λx y.x"
    ensures Tokenize(s) == ["λ", "x", "y", ".", "x"]
  {
    TokenizeSingles(s);
    assert Singles(s[5..]) == ["x"] by {
      assert s[5..][1..] == [];
    }
    assert Singles(s[4..]) == [".", "x"] by {
      assert s[4..][1..] == s[5..];
    }
    assert Singles(s[3..]) == ["y", ".", "x"] by {
      assert s[3..][1..] == s[4..];
    }
    assert Singles(s[2..]) == ["y", ".", "x"] by {
      assert s[2..][1..] == s[3..];
    }
    assert Singles(s[1..]) == ["x", "y", ".", "x"] by {
      assert s[1..][1..] == s[2..];
    }
  }

  /** `λx.λy.x` is read one character at a time. */
  lemma TokenizeNested(s: string)
    requires s == "λx.λy.x"
    ensures Tokenize(s) == ["λ", "x", ".", "λ", "y", ".", "x"]
  {
    TokenizeSingles(s);
    SinglesNoBlank(s);
  }

  /** The lines `λx y.x` and `λx.λy.x` parse to the same tree, `λx.λy.x`. */
  lemma SugarParsesText(s: string, t: string)
    requires s == "λx y.x" && t == "λx.λy.x"
    ensures ParseText(s) == ParseText(t)
    ensures ParseText(s) == (Tree(Fun("x", Fun("y", Var("x")))), ModeNone)
  {
    TokenizeSugar(s);
    TokenizeNested(t);
    ParseSugar([], "λ", "x", "y", ["x"], ModeNone, Empty);
    assert [] + ["λ", "x", "y", "."] + ["x"] == ["λ", "x", "y", ".", "x"];
    assert [] + ["λ", "x", ".", "λ", "y", "."] + ["x"] == ["λ", "x", ".", "λ", "y", ".", "x"];
    SugarParses();
  }

  lemma TokenizeSetting(s: string)
    requires s == "x = y"
    ensures Tokenize(s) == ["x", "=", "y"]
  {
    TokenizeAt(s, 0);
    TokenizeAt(s, 1);
    TokenizeAt(s, 2);
    TokenizeAt(s, 3);
    TokenizeAt(s, 4);
    assert s[0..] == s && s[5..] == [];
  }

  /** `x = y` saves `y` under `x`: the result is `x` applied to `y`, with
      the SET mode. */
  lemma SetsName(s: string)
    requires s == "x = y"
    ensures ParseText(s) == (Tree(App(Var("x"), Var("y"))), ModeSet)
  {
    TokenizeSetting(s);
    var y := Built(Var("y"));
    RunSetting("x", ["y"]);
    assert ["x", "="] + ["y"] == ["x", "=", "y"];
    assert ShiftedAll(["y"]) == [y] by {
      assert ["y"][1..] == [];
    }
    CollapseBuilt([y]);
  }
}
