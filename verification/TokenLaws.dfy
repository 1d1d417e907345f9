/** What the fingerprint's lexer makes of each kind of text, wherever it stands (src/graph/fingerprint.rs). */
module TokenLaws {
  import opened Prelude
  import opened Text
  import opened Lexer

  /** A blank vanishes. */
  lemma BlankIsNothing(u: Letters, c: char, rest: string)
    requires LettersOk(u) && IsWhitespace(c)
    ensures Tokens(u, [c] + rest) == Tokens(u, rest)
  {
    hide Tokens, IsWhitespace;
    TokensStep(u, [c] + rest);
    assert ([c] + rest)[1..] == rest;
  }

  lemma {:induction false} LineRunIs(line: string, rest: string)
    requires '\n' !in line
    ensures LineRun(line + ['\n'] + rest) == |line|
  {
    var s := line + ['\n'] + rest;
    if line != "" {
      assert line[0] in line && line == [line[0]] + line[1..];
      LineRunIs(line[1..], rest);
      assert s[1..] == line[1..] + ['\n'] + rest;
    }
  }

  /** So does the rest of a line behind two slashes. */
  lemma LineCommentIsNothing(u: Letters, line: string, rest: string)
    requires LettersOk(u) && '\n' !in line
    ensures Tokens(u, "//" + line + ['\n'] + rest) == Tokens(u, rest)
  {
    LineVanishes(u, "//" + line, rest);
  }

  /** And behind a hash that begins no attribute and no interpreter line. */
  lemma HashCommentIsNothing(u: Letters, line: string, rest: string)
    requires LettersOk(u) && '\n' !in line && (line != "" ==> line[0] != '[' && line[0] != '!')
    ensures Tokens(u, "#" + line + ['\n'] + rest) == Tokens(u, rest)
  {
    LineVanishes(u, "#" + line, rest);
  }

  lemma LineVanishes(u: Letters, line: string, rest: string)
    requires LettersOk(u) && '\n' !in line && line != ""
    requires (|line| > 1 && line[..2] == "//") || (line[0] == '#' && (|line| > 1 ==> line[1] != '[' && line[1] != '!'))
    ensures Tokens(u, line + ['\n'] + rest) == Tokens(u, rest)
  {
    assert IsWhitespace('\n') && !IsWhitespace('/') && !IsWhitespace('#');
    LineRunIs(line, rest);
    var s := line + ['\n'] + rest;
    assert s[0] == line[0] && s[1] == if |line| > 1 then line[1] else '\n';
    assert |line| > 1 && line[..2] == "//" ==> line[0] == "//"[0] && line[1] == "//"[1];
    hide Tokens, LineRun, BlockRun, StringRun, NumberRun, WordRun, IsWhitespace;
    TokensStep(u, s);
    assert s[|line|..] == ['\n'] + rest;
    BlankIsNothing(u, '\n', rest);
  }

  lemma {:induction false} BlockRunIs(body: string, rest: string)
    requires forall i :: 0 <= i < |body| - 1 ==> !(body[i] == '*' && body[i + 1] == '/')
    ensures BlockRun(body + "*/" + rest) == |body|
  {
    var s := body + "*/" + rest;
    if body != "" {
      BlockRunIs(body[1..], rest);
      assert s[1..] == body[1..] + "*/" + rest;
      assert s[1] == if |body| > 1 then body[1] else '*';
    }
  }

  /** So does everything from a slash and a star to the first star and slash behind them. */
  lemma BlockCommentIsNothing(u: Letters, body: string, rest: string)
    requires LettersOk(u) && forall i :: 0 <= i < |body| - 1 ==> !(body[i] == '*' && body[i + 1] == '/')
    ensures Tokens(u, "/*" + body + "*/" + rest) == Tokens(u, rest)
  {
    assert !IsWhitespace('/');
    BlockRunIs(body, rest);
    var s := "/*" + body + "*/" + rest;
    assert s[2..] == body + "*/" + rest;
    hide Tokens, LineRun, BlockRun, StringRun, NumberRun, WordRun, IsWhitespace;
    TokensStep(u, s);
    assert s[2 + |body| + 2..] == rest;
  }

  /** No quote `q` ends the text early: each stands behind a backslash, which takes the next character. */
  predicate Quotable(body: string, q: char) {
    body == "" || (body[0] != q && if body[0] == '\\' then |body| > 1 && Quotable(body[2..], q) else Quotable(body[1..], q))
  }

  lemma {:induction false} StringRunIs(body: string, q: char, rest: string)
    requires Quotable(body, q) && q != '\\'
    ensures StringRun(body + [q] + rest, q) == |body|
    decreases |body|
  {
    var s := body + [q] + rest;
    if body != "" {
      if body[0] == '\\' {
        StringRunIs(body[2..], q, rest);
        assert s[2..] == body[2..] + [q] + rest;
      } else {
        StringRunIs(body[1..], q, rest);
        assert s[1..] == body[1..] + [q] + rest;
      }
    }
  }

  /** A quoted text is one token, the same for all of them. */
  lemma StringIsOneToken(u: Letters, q: char, body: string, rest: string)
    requires LettersOk(u) && q in {'"', '\'', '`'} && Quotable(body, q)
    ensures Tokens(u, [q] + body + [q] + rest) == ["STR"] + Tokens(u, rest)
  {
    assert !IsWhitespace(q);
    StringRunIs(body, q, rest);
    var s := [q] + body + [q] + rest;
    assert s[1..] == body + [q] + rest;
    hide Tokens, LineRun, BlockRun, StringRun, NumberRun, WordRun, IsWhitespace;
    TokensStep(u, s);
    assert s[1 + |body| + 1..] == rest;
  }

  /** A number is one token, the same for all of them. */
  lemma NumberIsOneToken(u: Letters, w: string, rest: string)
    requires LettersOk(u) && w != "" && IsDigit(w[0]) && forall i :: 0 <= i < |w| ==> NumberPart(u, w[i])
    requires rest != "" ==> !NumberPart(u, rest[0])
    ensures Tokens(u, w + rest) == ["NUM"] + Tokens(u, rest)
  {
    hide Tokens;
    NumberTakes(u, w, rest);
    NumberRunIs(u, rest, 0);
  }

  /** A word is one token: a keyword is itself, any other the same for all of them. */
  lemma WordIsOneToken(u: Letters, w: string, rest: string)
    requires LettersOk(u) && w != "" && WordStart(u, w[0]) && forall i :: 0 <= i < |w| ==> WordPart(u, w[i])
    requires rest != "" ==> !WordPart(u, rest[0])
    ensures Tokens(u, w + rest) == [if IsKeyword(w) then w else "ID"] + Tokens(u, rest)
  {
    hide Tokens, IsKeyword;
    TokensOfWord(u, w, rest);
  }

  /** Any other character is its own token. */
  lemma SignIsItself(u: Letters, c: char, rest: string)
    requires LettersOk(u) && !IsWhitespace(c) && c !in {'"', '\'', '`'} && !IsDigit(c) && !WordStart(u, c)
    requires c == '/' ==> rest == "" || (rest[0] != '/' && rest[0] != '*')
    requires c == '#' ==> rest != "" && (rest[0] == '[' || rest[0] == '!')
    ensures Tokens(u, [c] + rest) == [[c]] + Tokens(u, rest)
  {
    hide Tokens, IsWhitespace, IsDigit;
    TokensStep(u, [c] + rest);
    assert ([c] + rest)[1..] == rest;
  }

  /** Words that open declarations in the languages that are indexed are keywords. */
  lemma KeywordsOfLanguages()
    ensures forall w :: w in {"fn", "struct", "impl", "function", "class", "interface", "def", "lambda", "return"} ==> IsKeyword(w)
    ensures !IsKeyword("")
  {
  }

  /** A keyword is two to ten characters long and begins with a letter. */
  lemma KeywordsAreWords(w: string)
    requires IsKeyword(w)
    ensures 2 <= |w| <= 10
    ensures 'a' <= w[0] <= 'z' || 'A' <= w[0] <= 'Z'
  {
  }
}
