/** The lexer (`lex`): splits a line into tokens. Each of `( ) . \ λ =` is a
    token of its own, spaces and tabs separate tokens, `;` ends the line,
    and every other run of characters is a symbol token. */
module Lexer {

  /** The characters that always form a token of their own. */
  predicate IsSpecial(c: char) {
    c == '(' || c == ')' || c == '.' || c == '\\' || c == 'λ' || c == '='
  }

  predicate IsBlank(c: char) {
    c == ' ' || c == '\t'
  }

  /** Starts a comment that runs to the end of the line. */
  const Comment: char := ';'

  predicate IsSymbolChar(c: char) {
    !IsSpecial(c) && !IsBlank(c) && c != Comment
  }

  /** The symbol characters at the start of `s`. */
  function SymbolRun(s: string): (run: string)
    ensures |run| <= |s|
    ensures s != [] && IsSymbolChar(s[0]) ==> |run| > 0
  {
    if s != [] && IsSymbolChar(s[0]) then [s[0]] + SymbolRun(s[1..]) else []
  }

  /** `SymbolRun(s)` is the longest prefix of `s` made of symbol characters. */
  lemma {:induction false} SymbolRunIsLongest(s: string)
    ensures SymbolRun(s) == s[..|SymbolRun(s)|]
    ensures forall i :: 0 <= i < |SymbolRun(s)| ==> IsSymbolChar(SymbolRun(s)[i])
    ensures |SymbolRun(s)| == |s| || !IsSymbolChar(s[|SymbolRun(s)|])
  {
    if s != [] && IsSymbolChar(s[0]) {
      SymbolRunIsLongest(s[1..]);
    }
  }

  /** The tokens of `s`, read one token at a time. */
  function Tokenize(s: string): (tokens: seq<string>)
    ensures |tokens| <= |s|
    decreases |s|
  {
    if s == [] || s[0] == Comment then []
    else if IsBlank(s[0]) then Tokenize(s[1..])
    else if IsSpecial(s[0]) then [[s[0]]] + Tokenize(s[1..])
    else
      var run := SymbolRun(s);
      [run] + Tokenize(s[|run|..])
  }

  /** The tokens still to come when the symbol `token` has been read
      partly and `rest` is what follows it. */
  function Pending(token: string, rest: string): seq<string> {
    if token == [] then Tokenize(rest)
    else
      var run := SymbolRun(rest);
      [token + run] + Tokenize(rest[|run|..])
  }

  /** The tokens that were pending before a special character, a blank or
      `;` is read: the symbol read so far, if any, then what follows. */
  lemma PendingAtSeparator(token: string, c: char, rest: string)
    requires !IsSymbolChar(c)
    ensures Pending(token, [c] + rest)
         == (if token == [] then [] else [token]) + Tokenize([c] + rest)
  {
    var s := [c] + rest;
    assert SymbolRun(s) == [];
    assert s[0..] == s;
    assert token + [] == token;
  }

  /** At the end of the line only the symbol read so far is pending. */
  lemma PendingAtEnd(token: string)
    ensures Pending(token, []) == (if token == [] then [] else [token])
  {
    assert SymbolRun([]) == [];
    assert token + [] == token;
  }

  /** A symbol character extends the symbol being read. */
  lemma PendingAtSymbol(token: string, c: char, rest: string)
    requires IsSymbolChar(c)
    ensures Pending(token, [c] + rest) == Pending(token + [c], rest)
  {
    var s := [c] + rest;
    var run := SymbolRun(rest);
    assert s[1..] == rest;
    assert SymbolRun(s) == [c] + run;
    assert s[|SymbolRun(s)|..] == rest[|run|..];
    if token == [] {
      assert token + [c] == [c];
      assert Tokenize(s) == [[c] + run] + Tokenize(rest[|run|..]);
    } else {
      assert token + SymbolRun(s) == (token + [c]) + run;
    }
  }

  /** `tokens` after the symbol read so far, if any, has been emitted. */
  function Emit(tokens: seq<string>, token: string): seq<string>
  {
    if token == [] then tokens else tokens + [token]
  }

  /** A separator character read by `lex` emits the pending symbol. */
  lemma LexFlush(s: string, i: nat, tokens: seq<string>, token: string)
    requires i < |s| && !IsSymbolChar(s[i])
    ensures tokens + Pending(token, s[i..]) == Emit(tokens, token) + Tokenize(s[i..])
  {
    var c, rest := s[i], s[i + 1..];
    assert s[i..] == [c] + rest;
    PendingAtSeparator(token, c, rest);
    if token == [] {
      assert tokens + Pending(token, s[i..]) == tokens + Tokenize(s[i..]);
    } else {
      assert Pending(token, s[i..]) == [token] + Tokenize(s[i..]);
      assert tokens + ([token] + Tokenize(s[i..])) == (tokens + [token]) + Tokenize(s[i..]);
    }
  }

  /** One separator character read by `lex`: the pending symbol is emitted,
      then a special character becomes a token, a blank is dropped and `;`
      ends the line. */
  lemma LexSeparator(s: string, i: nat, tokens: seq<string>, token: string)
    requires i < |s| && !IsSymbolChar(s[i])
    requires tokens + Pending(token, s[i..]) == Tokenize(s)
    ensures IsSpecial(s[i]) ==> Emit(tokens, token) + [[s[i]]] + Pending([], s[i + 1..]) == Tokenize(s)
    ensures IsBlank(s[i]) ==> Emit(tokens, token) + Pending([], s[i + 1..]) == Tokenize(s)
    ensures s[i] == Comment ==> Emit(tokens, token) == Tokenize(s)
  {
    LexFlush(s, i, tokens, token);
    var emitted := Emit(tokens, token);
    assert s[i..][1..] == s[i + 1..];
    if IsSpecial(s[i]) {
      assert Tokenize(s[i..]) == [[s[i]]] + Tokenize(s[i + 1..]);
      assert emitted + ([[s[i]]] + Tokenize(s[i + 1..])) == emitted + [[s[i]]] + Tokenize(s[i + 1..]);
    } else if IsBlank(s[i]) {
      assert Tokenize(s[i..]) == Tokenize(s[i + 1..]);
    } else {
      assert Tokenize(s[i..]) == [];
    }
  }

  /** One symbol character read by `lex`: it extends the pending symbol. */
  lemma LexSymbol(s: string, i: nat, tokens: seq<string>, token: string)
    requires i < |s| && IsSymbolChar(s[i])
    requires tokens + Pending(token, s[i..]) == Tokenize(s)
    ensures tokens + Pending(token + [s[i]], s[i + 1..]) == Tokenize(s)
  {
    assert s[i..] == [s[i]] + s[i + 1..];
    PendingAtSymbol(token, s[i], s[i + 1..]);
  }

  /** `lex`: one pass over the characters, growing the current symbol and
      emitting it when a special character, a blank, `;` or the end comes. */
  method Lex(s: string) returns (tokens: seq<string>)
    ensures tokens == Tokenize(s)
  {
    tokens := [];
    var token := "";
    for i := 0 to |s|
      invariant tokens + Pending(token, s[i..]) == Tokenize(s)
    {
      var c := s[i];
      if IsSpecial(c) {
        LexSeparator(s, i, tokens, token);
        if token != "" {
          tokens := tokens + [token];
          token := "";
        }
        tokens := tokens + [[c]];
      } else if IsBlank(c) {
        LexSeparator(s, i, tokens, token);
        if token != "" {
          tokens := tokens + [token];
          token := "";
        }
      } else if c == Comment {
        LexSeparator(s, i, tokens, token);
        if token != "" {
          tokens := tokens + [token];
        }
        return;
      } else {
        LexSymbol(s, i, tokens, token);
        token := token + [c];
      }
    }
    assert s[|s|..] == [];
    PendingAtEnd(token);
    if token != "" {
      tokens := tokens + [token];
    }
  }

  /** `Tokenize` on a line that starts with a special character or a
      blank. */
  lemma TokenizeSeparator(c: char, rest: string)
    requires IsSpecial(c) || IsBlank(c)
    ensures IsSpecial(c) ==> Tokenize([c] + rest) == [[c]] + Tokenize(rest)
    ensures IsBlank(c) ==> Tokenize([c] + rest) == Tokenize(rest)
  {
    assert ([c] + rest)[1..] == rest;
  }

  /** `Tokenize` on a line that starts with a whole symbol `w`. */
  lemma {:induction false} TokenizeSymbol(w: string, rest: string)
    requires w != [] && forall i :: 0 <= i < |w| ==> IsSymbolChar(w[i])
    requires rest == [] || !IsSymbolChar(rest[0])
    ensures Tokenize(w + rest) == [w] + Tokenize(rest)
  {
    SymbolRunOf(w, rest);
    assert (w + rest)[|w|..] == rest;
  }

  /** `Tokenize` from position `i` of `s`, where a one-character token or
      a blank stands. */
  lemma TokenizeAt(s: string, i: nat)
    requires i < |s|
    requires IsSpecial(s[i]) || IsBlank(s[i]) || (IsSymbolChar(s[i]) && (i + 1 == |s| || !IsSymbolChar(s[i + 1])))
    ensures !IsBlank(s[i]) ==> Tokenize(s[i..]) == [[s[i]]] + Tokenize(s[i + 1..])
    ensures IsBlank(s[i]) ==> Tokenize(s[i..]) == Tokenize(s[i + 1..])
  {
    assert s[i..] == [s[i]] + s[i + 1..];
    if IsSpecial(s[i]) || IsBlank(s[i]) {
      TokenizeSeparator(s[i], s[i + 1..]);
    } else {
      TokenizeSymbol([s[i]], s[i + 1..]);
    }
  }

  /** The non-blank characters of `s`, each as a token of its own. */
  function Singles(s: string): (tokens: seq<string>)
    ensures |tokens| <= |s|
  {
    if s == [] then []
    else if IsBlank(s[0]) then Singles(s[1..])
    else [[s[0]]] + Singles(s[1..])
  }

  /** Without blanks, every character is a token of its own, in order. */
  lemma {:induction false} SinglesNoBlank(s: string)
    requires forall i :: 0 <= i < |s| ==> !IsBlank(s[i])
    ensures |Singles(s)| == |s|
    ensures forall i :: 0 <= i < |s| ==> Singles(s)[i] == [s[i]]
    decreases |s|
  {
    if s != [] {
      var rest := s[1..];
      assert forall i :: 0 <= i < |rest| ==> rest[i] == s[i + 1];
      SinglesNoBlank(rest);
    }
  }

  /** A line without `;` whose symbols are all one character long is read
      one character at a time, blanks skipped. */
  lemma {:induction false} TokenizeSingles(s: string)
    requires forall i :: 0 <= i < |s| ==> IsSpecial(s[i]) || IsBlank(s[i]) || IsSymbolChar(s[i])
    requires forall i :: 0 <= i < |s| - 1 ==> !(IsSymbolChar(s[i]) && IsSymbolChar(s[i + 1]))
    ensures Tokenize(s) == Singles(s)
    decreases |s|
  {
    if s != [] {
      TokenizeAt(s, 0);
      assert s[0..] == s;
      var rest := s[1..];
      assert forall i :: 0 <= i < |rest| ==> rest[i] == s[i + 1];
      TokenizeSingles(rest);
    }
  }

  lemma {:induction false} SymbolRunOf(w: string, rest: string)
    requires forall i :: 0 <= i < |w| ==> IsSymbolChar(w[i])
    requires rest == [] || !IsSymbolChar(rest[0])
    ensures SymbolRun(w + rest) == w
    decreases |w|
  {
    if w == [] {
      assert w + rest == rest;
    } else {
      assert (w + rest)[1..] == w[1..] + rest;
      SymbolRunOf(w[1..], rest);
    }
  }

  /** A token is a single special character, or a non-empty symbol. */
  predicate IsToken(token: string) {
    (|token| == 1 && IsSpecial(token[0])) ||
    (|token| > 0 && forall i :: 0 <= i < |token| ==> IsSymbolChar(token[i]))
  }

  /** No token is empty; special characters come out alone, and symbols
      contain no special character, blank or `;`. */
  lemma {:induction false} TokensAreTokens(s: string)
    ensures forall k :: 0 <= k < |Tokenize(s)| ==> IsToken(Tokenize(s)[k])
    decreases |s|
  {
    if s == [] || s[0] == Comment {
    } else if IsBlank(s[0]) || IsSpecial(s[0]) {
      TokensAreTokens(s[1..]);
    } else {
      SymbolRunIsLongest(s);
      TokensAreTokens(s[|SymbolRun(s)|..]);
    }
  }

  /** `s` up to its first `;`, with spaces and tabs removed. */
  function Visible(s: string): string {
    if s == [] || s[0] == Comment then []
    else if IsBlank(s[0]) then Visible(s[1..])
    else [s[0]] + Visible(s[1..])
  }

  function Concat(tokens: seq<string>): string {
    if tokens == [] then [] else tokens[0] + Concat(tokens[1..])
  }

  lemma {:induction false} VisibleSplitsAtRun(s: string)
    ensures Visible(s) == SymbolRun(s) + Visible(s[|SymbolRun(s)|..])
  {
    if s != [] && IsSymbolChar(s[0]) {
      VisibleSplitsAtRun(s[1..]);
      assert s[1..][|SymbolRun(s[1..])|..] == s[|SymbolRun(s)|..];
    }
  }

  /** The tokens put back together give the visible text: nothing is lost
      or invented but blanks and the comment. */
  lemma {:induction false} TokensConcatenate(s: string)
    ensures Concat(Tokenize(s)) == Visible(s)
    decreases |s|
  {
    if s == [] || s[0] == Comment {
    } else if IsBlank(s[0]) {
      TokensConcatenate(s[1..]);
    } else if IsSpecial(s[0]) {
      TokensConcatenate(s[1..]);
      assert ([[s[0]]] + Tokenize(s[1..]))[1..] == Tokenize(s[1..]);
    } else {
      var run := SymbolRun(s);
      TokensConcatenate(s[|run|..]);
      VisibleSplitsAtRun(s);
      assert ([run] + Tokenize(s[|run|..]))[1..] == Tokenize(s[|run|..]);
    }
  }
}
