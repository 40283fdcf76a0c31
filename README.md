# An untyped lambda-calculus engine, modelled in Dafny

`lambda.py` is a small interpreter for the untyped lambda calculus. It has
two halves, and this project models both except the interactive loop.

**Terms.** Terms are built from three node classes: `Variable`,
`Application` and `Function` (an abstraction). Each class has five
recursive methods:
- `search`: is a name free in the term;
- `substitute`: substitution that renames a binder free in the
  replacement by appending primes (it can still capture, see below);
- `step`: one leftmost-outermost beta reduction, with a flag saying
  whether anything changed;
- `is_eta_equiv`: comparison under a correspondence between bound names;
- `unpack_saved`: replaces globally saved names with their terms.

**Parsing.** A line is read by a lexer (`lex`) and a shift/reduce parser:
- `build_application` and `apply_stack` work in place on a stack that
  mixes raw `(`, `λ`/`\` and `.` markers with built terms;
- `parse` recognises the `run`, `step` and `name = term` command forms and
  returns a term with a bit set of `LAMBDA_MODE_*` flags, or a syntax
  error with the ERR flag.

The Dafny modules follow that structure:

| module | file | what it holds |
|---|---|---|
| `Terms` | `terms.dfy` | The term datatype, `search`, the renaming loop and `substitute`. |
| `Reduction` | `reduction.dfy` | `step`, and a reference definition of normal order by redex positions. |
| `Equivalence` | `equivalence.dfy` | `is_eta_equiv`. |
| `Environment` | `environment.dfy` | `unpack_saved`. |
| `Lexer` | `lexer.dfy` | `lex`, as a method with its loop and as a specification function. |
| `Parser` | `parser.dfy` | The parse stack as a class with `build_application` and `apply_stack`, and `parse` as a method with a specification function. |
| `ParseExamples` | `parse_examples.dfy` | `parse` on concrete lines. |

**Form of the model.**
- The term operations are recursion that builds new objects, so they are
  Dafny functions.
- The renaming `while` loop of `Function.substitute` is also written as a
  method (`Terms.FreshName`), proved equal to the function `Terms.Fresh`
  that `Substitute` uses.
- `lex` is a method with a `for` loop, proved equal to `Lexer.Tokenize`.
- The parse stack is a class (`Parser.Stack`) whose `entries` field its
  methods reassign:
  - `BuildApplication` folds and truncates it;
  - `ApplyStack` walks it from the top, popping and pushing as the source
    does.
  - Both are proved against the specification functions `Fold` and
    `Collapse`.
- `Parse` runs the token loop over a `Stack`. It is proved equal to
  `ParseText`, and every property of `parse` is proved about that function.

**Python's `None`.** The constructor `Empty` is what the parser builds
where Python builds `None`:
- `()` builds it;
- `λx.` builds `Function(x, None)`;
- `a ()` builds `Application(a, None)`.

**Behaviours the model keeps as written.** Each but the last is stated by
a lemma; the last is a precondition of `Walk` and a loop invariant of
`ApplyStack`.
- **Renaming can still capture.** The primed name is checked only against
  the free names of the replacement, not against the body. It may even
  coincide with the name being replaced.
- **`is_eta_equiv` is not alpha-equivalence.** Equal names match before
  the correspondence is consulted. An equal-named inner binder keeps the
  outer correspondence. The relation is not symmetric.
- **`unpack_saved` stops at any binder that is a saved name.** It leaves
  that binder's whole body alone and never renames.
- **`λ.` is accepted when an abstraction follows.** `apply_stack` only asks
  whether the term built after a `λ` group is a `Function`, so `λ.λy.y`
  parses as `λy.y`.
- **A misplaced `step` reports the `'run'` error.** It gets the same
  message as a misplaced `run`.
- **`apply_stack` never reaches its final `return built`.** After the loop,
  `built` is `None` unless a `.` is still open, and that case has already
  returned the stray-dot error. `Walk` requires `built` to be `Empty`
  outside a lambda group, every recursive call and the loop of
  `ApplyStack` keep it so, and the model has no branch for that `return`.

## Model

| member | source | states |
|---|---|---|
| Terms.NameBound | lambda.py:124-127 | Every free name of the term is at most this long, so the renaming loop stops once the candidate is longer. |
| Terms.Search | lambda.py:112-114 | `search(v)` is true iff `v` is a free variable, so it is false under a binder of `v`. The variable and application cases (lines 11-13 and 50-52) are the same function. |
| Terms.Fresh | lambda.py:124-127 | The name the loop settles on is not free in the replacement. It is the parameter followed by primes. It equals the parameter iff the parameter was not free. |
| Terms.FreshName | lambda.py:125-127 | The `while` loop that appends primes terminates and returns `Fresh`. |
| Terms.Substitute | lambda.py:116-136 | The result has no missing node. Substituting a variable keeps the size, which is the measure for the recursion on the renamed body. |
| Terms.SubstituteVariable | lambda.py:15-21 | `x[x:=R]` is `R` and `y[x:=R]` is `y`. |
| Terms.SubstituteShadowed | lambda.py:116-119 | An abstraction over `find` is returned unchanged. |
| Terms.SubstituteBinder | lambda.py:121-136 | Under any other binder the result is an abstraction. Its parameter is not free in `R`, is the old parameter plus primes, and is unchanged iff the old parameter was not free in `R`. |
| Terms.SubstituteFreeVars | lambda.py:116-136 | The free variables of `t[find:=R]` are among those of `t` minus `find`, plus those of `R`. |
| Terms.SubstituteSelf | lambda.py:116-136 | Substituting a variable for itself changes nothing. |
| Terms.RenamingCanCapture | lambda.py:124-131 | `(λy. y' y)[x := y]` is `λy'. y' y'`: the renamed binder captures `y'`. |
| Terms.FreshNameCanBeFind | lambda.py:124-136 | `(λy.y)[y' := y]` is `λy'.y`: the fresh name equals `find`. |
| Reduction.Step | lambda.py:58-72 | The result has no missing node. Whenever the flag is false, the term is returned unchanged. |
| Reduction.LeftmostRedex | lambda.py:58-72 | The reference definition of normal order: the position found is a redex of the term. |
| Reduction.LeftmostRedexIsFirst | lambda.py:58-72 | When the term has any redex, the position found exists and comes no later in normal order than any redex. |
| Reduction.StepIsNormalOrder | lambda.py:58-72 | `step` contracts exactly the leftmost-outermost redex and reports true. With no redex it returns the term and false. |
| Reduction.StepChangedIffRedex | lambda.py:58-72 | The flag is true iff the term contains a redex, stated in both directions. |
| Reduction.StepApplication | lambda.py:61-72 | A left child that is an abstraction is beta-reduced with flag true. Otherwise the left child is stepped first; the right is stepped only when the left did not change. |
| Reduction.StepNormalFormIdempotent | lambda.py:66-72 | Stepping a term that did not change changes nothing again. |
| Reduction.StepExamples | lambda.py:58-72 | `(λx.x) a` steps to `a`. In `((λx.x) a) ((λy.y) b)` only the left redex is contracted. |
| Equivalence.IsEtaEquiv | lambda.py:143-155 | Equivalent terms have the same shape, so nodes of different kinds never match. |
| Equivalence.EtaEquivReflexive | lambda.py:143-155 | Every term matches itself under every correspondence. |
| Equivalence.EtaEquivMonotone | lambda.py:148-155 | Extending the correspondence never breaks a match. The caller's map is a value that is never changed. |
| Equivalence.EtaEquivRenamedIdentity | lambda.py:143-155 | `λx.x` matches `λy.y` from an empty correspondence. |
| Equivalence.EtaEquivEqualNamesWin | lambda.py:27-29 | `λx.x` matches `λy.x` because equal names win. |
| Equivalence.EtaEquivNotSymmetric | lambda.py:148-155 | `λx.λy.x` matches `λz.λz.z` but not the other way round. |
| Environment.UnpackSaved | lambda.py:104-110 | With saved terms that have no missing node, the result has none either. |
| Environment.UnpackSavedVariable | lambda.py:5-9 | A saved variable becomes its term, and any other variable stays. |
| Environment.UnpackSavedShadowed | lambda.py:104-107 | An abstraction whose parameter is saved is returned as it is. |
| Environment.UnpackSavedNoneFree | lambda.py:104-110 | A term with no saved name free is unchanged, in particular under an empty map. |
| Environment.UnpackSavedIsSubstitution | lambda.py:104-110 | With one saved closed term, unpacking is substitution of that term. |
| Environment.UnpackSavedExamples | lambda.py:104-110 | The shadow check stops all replacement in the subtree, so with `{x: a, y: b}` the `y` in `λx.y` stays. |
| Lexer.SymbolRun | lambda.py:191-193 | The symbol read at the start of a line is no longer than the line, and is non-empty when the line starts with a symbol character. |
| Lexer.SymbolRunIsLongest | lambda.py:191-193 | The symbol is the longest prefix made of symbol characters. |
| Lexer.LexSeparator | lambda.py:175-190 | A special character emits the pending symbol and then itself. A blank emits only the pending symbol. A `;` emits the pending symbol and ends the line. |
| Lexer.LexSymbol | lambda.py:191-193 | A symbol character extends the pending symbol. |
| Lexer.Tokenize | lambda.py:171-197 | The tokens `lex` yields, read one token at a time from the front of the line. There are never more tokens than characters. |
| Lexer.TokenizeSingles | lambda.py:174-193 | A line whose symbols are all one character long yields its non-blank characters, one token each. |
| Lexer.Lex | lambda.py:171-197 | The `lex` loop yields exactly `Tokenize`. |
| Lexer.TokensAreTokens | lambda.py:171-197 | No token is empty. A special character comes out alone. A symbol contains no special character, blank or `;`. |
| Lexer.TokensConcatenate | lambda.py:171-197 | The tokens joined together are the line up to its first `;`, with spaces and tabs removed. |
| Parser.Walk | lambda.py:220-259 | The loop of `apply_stack` from entry `i` down, with no term being wrapped outside a lambda group, so the final `return built` is never reached. The stack it leaves is never longer, and a success leaves it empty or ending at the `(` it stopped at. |
| Parser.Collapse | lambda.py:215-259 | `apply_stack` as a whole. A success leaves the stack empty, or ending at the nearest `(`, which the `)` branch and the end of `parse` then test for. |
| Parser.CollapseAtDot | lambda.py:244-248 | The topmost `.` starts lambda-argument mode with the application of everything after it. |
| Parser.WalkParam | lambda.py:225-226 | One parameter is popped and wraps the term built so far. |
| Parser.Advance | lambda.py:276-320 | One pass of the token loop. Whenever it ends `parse` early, the result is an error with exactly the ERR mode. |
| Parser.Close | lambda.py:284-297 | The `)` branch. It stops only with an error and ERR, and otherwise keeps the mode and `var_name` and never grows the stack. |
| Parser.Run | lambda.py:276-320 | The token loop over the rest of the line. Every error it reports comes with the ERR mode. |
| Parser.Finish | lambda.py:322-341 | The end of `parse`. Every error it reports comes with the ERR mode. |
| Parser.ParseText | lambda.py:270-341 | `parse(string)`. Its result is one `parse` may report: an error with exactly ERR, a success with no ERR bit and not both RUN and STEP, and a SET success that is a name applied to a present term. |
| Parser.RunContinues | lambda.py:276-320 | A token that lets the loop go on leaves the rest of the line to be read from the new state. |
| Parser.AdvanceEquals | lambda.py:310-314 | `=` after a single name takes it as `var_name`, adds SET and empties the stack. |
| Parser.RunNameEquals | lambda.py:310-316 | A line starting `x =` is the rest of the line read in SET mode with `var_name` set to `x`. |
| Parser.RunSetting | lambda.py:310-338 | `x = M`, with `M` made of pushed tokens, ends as the end of `parse` on the stack of `M` in SET mode with target `x`. |
| Parser.Fold | lambda.py:200-212 | The result is missing iff every entry is missing (in particular, for no entries). A single entry is returned as it is. |
| Parser.Stack.BuildApplication | lambda.py:200-212 | Returns the left-nested application of the entries from `start` and truncates the stack to its first `start` entries. |
| Parser.Stack.ApplyStack | lambda.py:215-259 | Returns the result of `Collapse` and leaves the stack as `Collapse` says. |
| Parser.WalkSkipsBuilt | lambda.py:220-251 | Outside a lambda group, built terms are passed over. |
| Parser.CollapseBuilt | lambda.py:253-258 | A stack of built terms folds into one application and is emptied. |
| Parser.CollapseParen | lambda.py:240-243 | At a `(`, the result is the application of what follows, and the stack keeps everything up to and including the `(`. |
| Parser.WalkParams | lambda.py:223-226 | Each parameter between `.` and `λ` wraps the term built so far. |
| Parser.WalkLambda | lambda.py:227-236 | The `λ` that closes a group pushes the abstraction and leaves lambda-argument mode. |
| Parser.CollapseLambda | lambda.py:244-248 | `λ x y … . body` collapses to the curried abstraction, and its body extends over everything after the `.`. |
| Parser.CollapseSugar | lambda.py:220-248 | `λx y.M` and `λx.λy.M` collapse to the same result. |
| Parser.CollapseStrayLambda | lambda.py:249-251 | A `λ` with only built terms above it is an unexpected `λ`, whatever lies below it. |
| Parser.CollapseStrayDot | lambda.py:253-256 | A `.` with only variables below it (`.` alone, or `a . b`) is an unexpected `.`, whatever built terms follow. |
| Parser.CollapseNoParameters | lambda.py:227-230 | `λ.` followed by a body that is not an abstraction is the error for `λ` followed by `.`. |
| Parser.CollapseBareLambda | lambda.py:227-236 | `λ.` before an abstraction is accepted and drops the `λ`. |
| Parser.AdvanceShifted | lambda.py:276-320 | `(`, `λ`, `\`, `.` and symbols are pushed, and the mode and `var_name` are left alone. |
| Parser.RunShifts | lambda.py:276-323 | A line of pushed tokens parses to what its whole stack collapses to. |
| Parser.ParseSugar | lambda.py:270-341 | `λx y.` and `λx.λy.` give the same parse wherever they stand in a line of pushed tokens followed by names. |
| Parser.AddModeBit | lambda.py:298-316 | Setting RUN without STEP, STEP without RUN, or SET keeps a good mode. The SET bit is set iff it was set before or SET was added. |
| Parser.AdvanceModes | lambda.py:276-320 | One token from a good state either continues in a good state or stops with an error and exactly the ERR mode. |
| Parser.FinishModes | lambda.py:322-341 | The end of `parse` reports an error with exactly ERR. A success has no ERR bit and not both RUN and STEP. A SET success is the name applied to a present term. |
| Parser.RunModes | lambda.py:270-341 | The same holds for every line, whatever its tokens. |
| Parser.Parse | lambda.py:270-341 | The method computes `ParseText` and its result satisfies those guarantees. |
| Parser.ReadToken | lambda.py:276-320 | One pass of the token loop does what `Advance` says, to the stack and the mode. |
| Parser.CloseParen | lambda.py:284-297 | A `)` collapses to the nearest `(` and replaces it with the built term. It reports the collapse's error, or an unexpected `)` when there is no `(`. |
| Parser.Conclude | lambda.py:322-341 | The end of `parse` does what `Finish` says. |
| ParseExamples.RejectsLoneRParen | lambda.py:284-293 | `)` is an unexpected `)` with ERR. |
| ParseExamples.RejectsUnmatchedLParen | lambda.py:325-328 | `(a` is an unmatched `(` with ERR. |
| ParseExamples.TokenizeLambdaDot | lambda.py:171-197 | `λ.x` is read as `λ`, `.`, `x`. |
| ParseExamples.RejectsMissingParameters | lambda.py:227-230 | `λ.x` is the error for `λ` followed by `.`, with ERR. |
| ParseExamples.RejectsMissingValue | lambda.py:332-335 | `x =` is an unexpected `=` with ERR. |
| ParseExamples.TokenizeRunStep | lambda.py:171-197 | `run step` is read as two keywords. |
| ParseExamples.RejectsRunStep | lambda.py:304-309 | `run step` is rejected with the `'run'` error and ERR. |
| ParseExamples.RejectsStrayMarkers | lambda.py:249-256 | A lone `λ` is an unexpected `λ` and a lone `.` an unexpected `.`, both with ERR. |
| ParseExamples.ParamsXY | lambda.py:223-226 | The parameters `x y` as they sit on the stack. |
| ParseExamples.CollapseTwoParameters | lambda.py:220-236 | The stack of `λx y.x` collapses to `λx.λy.x`. |
| ParseExamples.SugarParses | lambda.py:270-341 | The tokens of `λx y.x` parse to `λx.λy.x` with no mode bit. |
| ParseExamples.TokenizeSugar | lambda.py:171-197 | `λx y.x` is read as `λ`, `x`, `y`, `.`, `x`. |
| ParseExamples.TokenizeNested | lambda.py:171-197 | `λx.λy.x` is read one character at a time. |
| ParseExamples.SugarParsesText | lambda.py:270-341 | The lines `λx y.x` and `λx.λy.x` parse to the same result, `λx.λy.x` with no mode bit. |
| ParseExamples.TokenizeSetting | lambda.py:171-197 | `x = y` is read as `x`, `=`, `y`. |
| ParseExamples.SetsName | lambda.py:310-338 | `x = y` parses to `x` applied to `y` with the SET mode. |

## Left out

- Terms.Search: requires a term with no missing node. Python's `search`
  stops at the first occurrence, so on some trees that contain `None` it
  returns instead of raising `AttributeError`; those inputs are not
  modelled.
- Terms.Substitute: requires well-formed terms, so it also leaves out the
  cases where Python returns before reaching a `None`. Example:
  `Function(x, None)[x := R]` returns itself.
- Reduction.Step: requires a term with no missing node. Python raises
  `AttributeError` only when it steps or substitutes into a `None`, so it
  also answers on some trees that contain one, and those inputs are not
  modelled. Example: `(λx.y) None` steps to `(y, True)`, because the
  `None` is only the replacement, and the substitution never reaches it.
- Equivalence.IsEtaEquiv: requires the first term to have no missing node.
  The second may have any shape, as in Python, where `None` simply fails
  the `isinstance` test.
- Environment.UnpackSaved: requires a term with no missing node. Python
  raises `AttributeError` only when it reaches a `None`, so it also answers
  on some trees that contain one, and those inputs are not modelled.
  Example: `λx.None` with `x` saved is returned unchanged.
- The interactive loop:
  - console input and output;
  - the `setiter` and `populate` commands;
  - the iteration-bounded run loop;
  - its exception handling.
  These are I/O and host resources.
- `__repr__` of the three classes: display formatting only.
- The text of error messages: the Python repr of a stack entry embedded in
  a message is replaced by the `SyntaxError` datatype, with one
  constructor per message.
- `__hash__`: `saved` and the correspondence are Dafny maps keyed by name.
  `__eq__` is Dafny's structural equality on `Term`.
- `inside_lambda`: `parse` writes this flag and never reads it.
- The `token in '('` and `token in '\\λ.'` substring tests: modelled as
  equality, which agrees because `lex` never emits an empty token or a
  multi-character special token.
- `lex` being a generator: the model lexes the whole line before the token
  loop. Lexing has no effects, and the loop stops at the same token.
- The mode is a `bv4`, matching the four `LAMBDA_MODE_*` bits.
