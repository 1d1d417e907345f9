/** Normalised tokens of a declaration body (`normalized_tokens`, src/graph/fingerprint.rs). */
module Lexer {
  import opened Prelude
  import opened Text

  /** Unicode letter classes, as far as the lexer relies on them. */
  datatype Letters = Letters(alphabetic: char -> bool, alphanumeric: char -> bool)

  ghost predicate LettersOk(u: Letters) {
    && (forall c :: IsDigit(c) ==> u.alphanumeric(c))
    && (forall c :: u.alphabetic(c) ==> u.alphanumeric(c) && !IsDigit(c))
    && (forall c :: u.alphanumeric(c) ==> !IsWhitespace(c) && !IsQuote(c) && c !in {'/', '#', '*', '.', '_', '$', '[', '!'})
  }

  predicate IsKeyword(w: string) {
    w in {
      "fn", "let", "mut", "pub", "impl", "struct", "enum", "trait", "match", "if", "else", "for",
      "while", "loop", "return", "break", "continue", "use", "mod", "self", "Self", "super", "crate",
      "async", "await", "move", "ref", "where", "dyn", "const", "static", "unsafe", "in", "as",
      "function", "var", "class", "extends", "implements", "interface", "new", "this", "export",
      "import", "from", "default", "try", "catch", "finally", "throw", "typeof", "instanceof",
      "def", "lambda", "yield", "with", "pass", "raise", "except", "elif", "not", "and", "or",
      "is", "None", "True", "False", "null", "undefined", "true", "false", "void", "public",
      "private"}
  }

  predicate IsQuote(c: char) { c == '"' || c == '\'' || c == '`' }

  predicate WordStart(u: Letters, c: char) { u.alphabetic(c) || c == '_' || c == '$' }

  predicate WordPart(u: Letters, c: char) { u.alphanumeric(c) || c == '_' || c == '$' }

  predicate NumberPart(u: Letters, c: char) { u.alphanumeric(c) || c == '.' || c == '_' }

  /** Length of the leading run of characters that are not a line break. */
  function LineRun(s: string): (n: nat)
    ensures n <= |s|
  {
    if s == "" || s[0] == '\n' then 0 else 1 + LineRun(s[1..])
  }

  function WordRun(u: Letters, s: string): (n: nat)
    ensures n <= |s|
    ensures forall i :: 0 <= i < n ==> WordPart(u, s[i])
    ensures n < |s| ==> !WordPart(u, s[n])
  {
    if s != "" && WordPart(u, s[0]) then 1 + WordRun(u, s[1..]) else 0
  }

  function NumberRun(u: Letters, s: string): (n: nat)
    ensures n <= |s|
    ensures forall i :: 0 <= i < n ==> NumberPart(u, s[i])
    ensures n < |s| ==> !NumberPart(u, s[n])
  {
    if s != "" && NumberPart(u, s[0]) then 1 + NumberRun(u, s[1..]) else 0
  }

  /** Characters up to a comment's end; an unterminated one ends one before the last character. */
  function BlockRun(s: string): (n: nat)
    ensures n <= |s|
  {
    if |s| < 2 || (s[0] == '*' && s[1] == '/') then 0 else 1 + BlockRun(s[1..])
  }

  /** Characters up to the closing quote, a backslash taking the next character with it. */
  function StringRun(s: string, q: char): nat {
    if s == "" || s[0] == q then 0
    else if s[0] == '\\' then 2 + StringRun(s[Min(2, |s|)..], q)
    else 1 + StringRun(s[1..], q)
  }

  function WordToken(w: string): string { if IsKeyword(w) then w else "ID" }

  /** The tokens of the first lexeme and the number of characters it takes (perhaps past the end). */
  function Lexeme(u: Letters, s: string): (r: (seq<string>, nat))
    requires s != ""
  {
    var c := s[0];
    if IsWhitespace(c) then ([], 1)
    else if c == '/' && |s| > 1 && s[1] == '/' then ([], LineRun(s))
    else if c == '/' && |s| > 1 && s[1] == '*' then ([], 2 + BlockRun(s[2..]) + 2)
    else if c == '#' && !(|s| > 1 && (s[1] == '[' || s[1] == '!')) then ([], LineRun(s))
    else if IsQuote(c) then (["STR"], 1 + StringRun(s[1..], c) + 1)
    else if IsDigit(c) then (["NUM"], NumberRun(u, s))
    else if WordStart(u, c) then ([WordToken(s[..WordRun(u, s)])], WordRun(u, s))
    else ([[c]], 1)
  }

  lemma LexemeAdvances(u: Letters, s: string)
    requires LettersOk(u) && s != ""
    ensures Lexeme(u, s).1 >= 1
  {
  }

  /** The token stream; a lexeme that does not advance (none does) would end it. */
  function Tokens(u: Letters, s: string): seq<string>
    decreases |s|
  {
    if s == "" then []
    else
      var (tokens, n) := Lexeme(u, s);
      if n == 0 then tokens else tokens + Tokens(u, s[Min(n, |s|)..])
  }

  /** The lexing loop over an index. */
  method NormalizedTokens(u: Letters, body: string) returns (out: seq<string>)
    requires LettersOk(u)
    ensures out == Tokens(u, body)
  {
    hide Lexeme, Tokens;
    out := [];
    var i := 0;
    assert body[0..] == body;
    while i < |body|
      invariant 0 <= i
      invariant Tokens(u, body) == out + if i <= |body| then Tokens(u, body[i..]) else []
    {
      ghost var rest := body[i..];
      LexemeAdvances(u, rest);
      TokensStep(u, rest);
      var tokens, next := NextLexeme(u, body, i);
      assert next <= |body| ==> rest[next - i..] == body[next..];
      i := next;
      out := out + tokens;
    }
    NoTokens(u);
    assert i <= |body| ==> body[i..] == "";
  }

  lemma NoTokens(u: Letters)
    ensures Tokens(u, "") == []
  {
  }

  /** The lexeme at index `i`: its tokens and the index behind it. */
  method NextLexeme(u: Letters, body: string, i: nat) returns (tokens: seq<string>, next: nat)
    requires i < |body|
    ensures (tokens, next - i) == Lexeme(u, body[i..])
  {
    hide LineRun, BlockRun, StringRun, NumberRun, WordRun, IsWhitespace, IsKeyword;
    ghost var rest := body[i..];
    tokens := [];
    var c := body[i];
    assert rest[0] == c && (i + 1 < |body| ==> rest[1] == body[i + 1]);
    if IsWhitespace(c) {
      next := i + 1;
    } else if c == '/' && i + 1 < |body| && body[i + 1] == '/' {
      next := SkipLine(body, i);
    } else if c == '/' && i + 1 < |body| && body[i + 1] == '*' {
      assert body[i + 2..] == rest[2..];
      next := SkipBlock(body, i + 2);
    } else if c == '#' && !(i + 1 < |body| && (body[i + 1] == '[' || body[i + 1] == '!')) {
      next := SkipLine(body, i);
    } else if IsQuote(c) {
      assert body[i + 1..] == rest[1..];
      next := SkipString(body, i + 1, c);
      tokens := ["STR"];
    } else if IsDigit(c) {
      next := SkipNumber(u, body, i);
      tokens := ["NUM"];
    } else if WordStart(u, c) {
      next := SkipWord(u, body, i);
      var word := body[i..next];
      assert word == rest[..WordRun(u, rest)];
      tokens := [if IsKeyword(word) then word else "ID"];
    } else {
      tokens := [[c]];
      next := i + 1;
    }
  }

  lemma TokensStep(u: Letters, s: string)
    requires LettersOk(u) && s != ""
    ensures var (tokens, n) := Lexeme(u, s); Tokens(u, s) == tokens + Tokens(u, s[Min(n, |s|)..])
    ensures Tokens(u, s[|s|..]) == []
  {
    LexemeAdvances(u, s);
  }

  method SkipLine(body: string, from: nat) returns (i: nat)
    requires from <= |body|
    ensures i == from + LineRun(body[from..])
  {
    i := from;
    while i < |body| && body[i] != '\n'
      invariant from <= i <= |body|
      invariant from + LineRun(body[from..]) == i + LineRun(body[i..])
    {
      assert body[i..][1..] == body[i + 1..];
      i := i + 1;
    }
  }

  method SkipBlock(body: string, from: nat) returns (i: nat)
    requires from <= |body|
    ensures i == from + BlockRun(body[from..]) + 2
  {
    i := from;
    while i + 1 < |body| && !(body[i] == '*' && body[i + 1] == '/')
      invariant from <= i <= |body|
      invariant from + BlockRun(body[from..]) == i + BlockRun(body[i..])
    {
      assert body[i..][1..] == body[i + 1..];
      i := i + 1;
    }
    i := i + 2;
  }

  method SkipString(body: string, from: nat, q: char) returns (i: nat)
    requires from <= |body|
    ensures i == from + StringRun(body[from..], q) + 1
  {
    i := from;
    while i < |body| && body[i] != q
      invariant from <= i
      invariant from + StringRun(body[from..], q) == i + if i <= |body| then StringRun(body[i..], q) else 0
    {
      ghost var rest := body[i..];
      assert rest[0] == body[i];
      if body[i] == '\\' {
        i := i + 1;
        if i + 1 <= |body| {
          assert rest[Min(2, |rest|)..] == body[i + 1..];
        } else {
          assert rest[Min(2, |rest|)..] == "";
        }
      } else {
        assert rest[1..] == body[i + 1..];
      }
      i := i + 1;
    }
    i := i + 1;
  }

  method SkipNumber(u: Letters, body: string, from: nat) returns (i: nat)
    requires from <= |body|
    ensures i == from + NumberRun(u, body[from..])
  {
    i := from;
    while i < |body| && NumberPart(u, body[i])
      invariant from <= i <= |body|
      invariant from + NumberRun(u, body[from..]) == i + NumberRun(u, body[i..])
    {
      assert body[i..][1..] == body[i + 1..];
      i := i + 1;
    }
  }

  method SkipWord(u: Letters, body: string, from: nat) returns (i: nat)
    requires from <= |body|
    ensures i == from + WordRun(u, body[from..])
  {
    i := from;
    while i < |body| && WordPart(u, body[i])
      invariant from <= i <= |body|
      invariant from + WordRun(u, body[from..]) == i + WordRun(u, body[i..])
    {
      assert body[i..][1..] == body[i + 1..];
      i := i + 1;
    }
  }

  // ----- Respelling -----

  /** A word that lexes as an identifier. */
  ghost predicate Identifier(u: Letters, w: string) {
    w != "" && WordStart(u, w[0]) && (forall i :: 0 <= i < |w| ==> WordPart(u, w[i])) && !IsKeyword(w)
  }

  /** A renaming takes identifiers to identifiers. */
  ghost predicate Renames(u: Letters, rename: string -> string) {
    forall w :: Identifier(u, w) ==> Identifier(u, rename(w))
  }

  /** Characters of the first lexeme that are there. */
  function HeadLength(u: Letters, s: string): (n: nat)
    requires s != ""
    ensures n <= |s|
  {
    Min(Lexeme(u, s).1, |s|)
  }

  /** The body with every identifier respelled; all else, strings and comments included, is copied. */
  function Respell(u: Letters, rename: string -> string, s: string): string
    decreases |s|
  {
    if s == "" || HeadLength(u, s) == 0 then s
    else
      var head := s[..HeadLength(u, s)];
      (if WordStart(u, s[0]) && !IsKeyword(head) then rename(head) else head)
      + Respell(u, rename, s[HeadLength(u, s)..])
  }

  /** The body begins with a number that an identifier follows at once; its first letter is a `$`. */
  predicate NumberMeetsDollar(u: Letters, s: string) {
    s != "" && IsDigit(s[0]) && HeadLength(u, s) < |s| && s[HeadLength(u, s)] == '$'
  }

  /** Nowhere does a `$` stand right behind a number. */
  predicate NoDollarBehindNumber(u: Letters, s: string)
    decreases |s|
  {
    s != "" && HeadLength(u, s) > 0 ==>
      !NumberMeetsDollar(u, s) && NoDollarBehindNumber(u, s[HeadLength(u, s)..])
  }

  function FirstWord(u: Letters, s: string): string { s[..WordRun(u, s)] }

  /** Every identifier right behind a number still has a `$` in it when respelled. */
  predicate DollarsStay(u: Letters, rename: string -> string, s: string)
    decreases |s|
  {
    s != "" && HeadLength(u, s) > 0 ==>
      && (NumberMeetsDollar(u, s) ==> '$' in rename(FirstWord(u, s[HeadLength(u, s)..])))
      && DollarsStay(u, rename, s[HeadLength(u, s)..])
  }

  lemma WordRunIs(u: Letters, s: string, n: nat)
    requires n <= |s| && (n < |s| ==> !WordPart(u, s[n]))
    requires forall i :: 0 <= i < n ==> WordPart(u, s[i])
    ensures WordRun(u, s) == n
  {
  }

  lemma WordRunOf(u: Letters, w: string, rest: string)
    requires forall i :: 0 <= i < |w| ==> WordPart(u, w[i])
    requires rest != "" ==> !WordPart(u, rest[0])
    ensures WordRun(u, w + rest) == |w| && (w + rest)[..|w|] == w && (w + rest)[|w|..] == rest
  {
    WordRunIs(u, w + rest, |w|);
  }

  lemma NumberRunIs(u: Letters, s: string, n: nat)
    requires n <= |s| && (n < |s| ==> !NumberPart(u, s[n]))
    requires forall i :: 0 <= i < n ==> NumberPart(u, s[i])
    ensures NumberRun(u, s) == n
  {
  }

  /** A word in front of a character that cannot continue it is one lexeme. */
  lemma TokensOfWord(u: Letters, w: string, rest: string)
    requires LettersOk(u) && w != "" && WordStart(u, w[0]) && forall i :: 0 <= i < |w| ==> WordPart(u, w[i])
    requires rest != "" ==> !WordPart(u, rest[0])
    ensures Tokens(u, w + rest) == [WordToken(w)] + Tokens(u, rest)
    ensures HeadLength(u, w + rest) == |w| && FirstWord(u, w + rest) == w
  {
    hide WordToken, Tokens, LineRun, BlockRun, StringRun, NumberRun;
    var s := w + rest;
    WordRunOf(u, w, rest);
    assert s[0] == w[0];
    assert Lexeme(u, s) == ([WordToken(w)], |w|);
    TokensStep(u, s);
  }

  // ----- Lexemes in front of other text -----

  /** `tail` begins as `rest` does, up to one word start for another. */
  ghost predicate Follows(u: Letters, tail: string, rest: string) {
    if rest == "" then tail == ""
    else tail != "" && (tail[0] == rest[0] || (WordStart(u, tail[0]) && WordStart(u, rest[0])))
  }

  lemma {:induction false} LineRunOf(s: string, tail: string)
    requires LineRun(s) < |s| ==> tail != "" && tail[0] == '\n'
    requires LineRun(s) == |s| ==> tail == ""
    ensures LineRun(s) < |s| ==> s[LineRun(s)] == '\n'
    ensures LineRun(s[..LineRun(s)] + tail) == LineRun(s)
  {
    if s == "" || s[0] == '\n' {
      assert s[..LineRun(s)] + tail == tail;
    } else {
      LineRunOf(s[1..], tail);
      assert (s[..LineRun(s)] + tail)[1..] == s[1..][..LineRun(s[1..])] + tail;
    }
  }

  lemma {:induction false} LineRunEnds(s: string)
    ensures LineRun(s) < |s| ==> s[LineRun(s)] == '\n'
  {
    if s != "" && s[0] != '\n' {
      LineRunEnds(s[1..]);
    }
  }

  /** A closed comment ends where it ends, whatever stands behind it; an open one takes everything. */
  lemma {:induction false} BlockRunOf(s: string, tail: string)
    ensures var n := BlockRun(s) + 2;
            if n <= |s| then BlockRun(s[..n] + tail) + 2 == n else n > |s|
  {
    if |s| >= 2 && !(s[0] == '*' && s[1] == '/') {
      BlockRunOf(s[1..], tail);
      var n := BlockRun(s) + 2;
      if n <= |s| {
        assert (s[..n] + tail)[1..] == s[1..][..n - 1] + tail;
      }
    }
  }

  /** Likewise for a string. */
  lemma {:induction false} StringRunOf(s: string, q: char, tail: string)
    requires StringRun(s, q) < |s|
    ensures StringRun(s[..StringRun(s, q) + 1] + tail, q) == StringRun(s, q)
    decreases |s|
  {
    var n := StringRun(s, q) + 1;
    var r := s[..n] + tail;
    if s[0] == q {
      assert r[0] == q;
    } else if s[0] == '\\' {
      StringRunOf(s[2..], q, tail);
      assert r[0] == s[0] && r[2..] == s[2..][..n - 2] + tail;
    } else {
      StringRunOf(s[1..], q, tail);
      assert r[0] == s[0] && r[1..] == s[1..][..n - 1] + tail;
    }
  }

  /** A lexeme that is neither a word nor a number stays what it is in front of text that begins alike. */
  lemma LexemeKept(u: Letters, s: string, tail: string)
    requires LettersOk(u) && s != "" && !IsDigit(s[0]) && !WordStart(u, s[0])
    requires Follows(u, tail, s[HeadLength(u, s)..])
    ensures var n := HeadLength(u, s);
            n > 0 && Tokens(u, s[..n] + tail) == Lexeme(u, s).0 + Tokens(u, tail)
  {
    assert IsWhitespace('\n');
    assert !WordStart(u, '\n');
    assert !IsDigit('\n');
    hide IsWhitespace, LineRun, BlockRun, StringRun, NumberRun, WordRun, WordToken, Tokens, WordStart, IsDigit, IsKeyword;
    var n := HeadLength(u, s);
    var r := s[..n] + tail;
    LexemeAdvances(u, s);
    if IsWhitespace(s[0]) {
    } else if (s[0] == '/' && |s| > 1 && s[1] == '/') || (s[0] == '#' && !(|s| > 1 && (s[1] == '[' || s[1] == '!'))) {
      LineRunEnds(s);
      LineLexeme(s, tail);
    } else if s[0] == '/' && |s| > 1 && s[1] == '*' {
      BlockLexeme(s, tail);
    } else if IsQuote(s[0]) {
      StringLexeme(s, tail);
    }
    assert r[0] == s[0];
    assert Lexeme(u, r).0 == Lexeme(u, s).0 && HeadLength(u, r) == n;
    assert r[n..] == tail;
    TokensStep(u, r);
  }

  lemma BlockLexeme(s: string, tail: string)
    requires |s| > 1
    ensures var n := Min(2 + BlockRun(s[2..]) + 2, |s|);
            if n < |s| then 2 + BlockRun((s[..n] + tail)[2..]) + 2 == n && (s[..n] + tail)[1] == s[1]
            else tail == "" ==> s[..n] + tail == s
  {
    var n := Min(2 + BlockRun(s[2..]) + 2, |s|);
    BlockRunOf(s[2..], tail);
    if n < |s| {
      assert (s[..n] + tail)[2..] == s[2..][..n - 2] + tail;
    }
  }

  lemma StringLexeme(s: string, tail: string)
    requires s != ""
    ensures var n := Min(1 + StringRun(s[1..], s[0]) + 1, |s|);
            if n < |s| then 1 + StringRun((s[..n] + tail)[1..], s[0]) + 1 == n
            else tail == "" ==> s[..n] + tail == s
  {
    var n := Min(1 + StringRun(s[1..], s[0]) + 1, |s|);
    if n < |s| {
      StringRunOf(s[1..], s[0], tail);
      assert (s[..n] + tail)[1..] == s[1..][..n - 1] + tail;
    }
  }

  lemma LineLexeme(s: string, tail: string)
    requires s != "" && s[0] != '\n'
    requires if LineRun(s) < |s| then tail != "" && tail[0] == '\n' else tail == ""
    ensures var r := s[..LineRun(s)] + tail;
            && r != "" && r[0] == s[0] && LineRun(r) == LineRun(s)
            && (|r| > 1 <==> |s| > 1) && (|s| > 1 ==> LineRun(s) > 1 ==> r[1] == s[1])
            && (|s| > 1 && LineRun(s) == 1 ==> r[1] == '\n')
  {
    LineRunOf(s, tail);
  }

  // ----- Numbers and what stands behind them -----

  /** What a number standing in front of `r` leaves of it. */
  function BehindNumber(u: Letters, r: string): string { r[NumberRun(u, r)..] }

  lemma {:induction false} NumberRunGoesOn(u: Letters, w: string, r: string)
    requires forall i :: 0 <= i < |w| ==> NumberPart(u, w[i])
    ensures NumberRun(u, w + r) == |w| + NumberRun(u, r)
    decreases |w|
  {
    if w == "" {
      assert w + r == r;
    } else {
      NumberRunGoesOn(u, w[1..], r);
      assert (w + r)[1..] == w[1..] + r;
    }
  }

  /** A number takes into itself what it can of the text behind it. */
  lemma NumberTakes(u: Letters, w: string, r: string)
    requires LettersOk(u) && w != "" && IsDigit(w[0]) && forall i :: 0 <= i < |w| ==> NumberPart(u, w[i])
    ensures Tokens(u, w + r) == ["NUM"] + Tokens(u, BehindNumber(u, r))
  {
    hide Tokens, NumberRun, WordRun, LineRun, BlockRun, StringRun;
    NumberRunGoesOn(u, w, r);
    var s := w + r;
    assert s[0] == w[0];
    assert Lexeme(u, s) == (["NUM"], |w| + NumberRun(u, r));
    TokensStep(u, s);
    assert s[|w| + NumberRun(u, r)..] == r[NumberRun(u, r)..];
  }

  /** A number in front stops inside a word with a `$`, and leaves a word behind it. */
  lemma WordWithDollarStays(u: Letters, w: string, rest: string)
    requires LettersOk(u) && (forall i :: 0 <= i < |w| ==> WordPart(u, w[i])) && '$' in w
    requires rest != "" ==> !WordPart(u, rest[0])
    ensures Tokens(u, BehindNumber(u, w + rest)) == ["ID"] + Tokens(u, rest)
  {
    hide Tokens, IsKeyword, LineRun, BlockRun, StringRun, WordRun, Lexeme, WordToken;
    var k: nat :| k < |w| && w[k] == '$' && forall i :: 0 <= i < k ==> w[i] != '$' by { FirstDollar(w); }
    var v := w[k..];
    assert v[0] == '$' && forall i :: 0 <= i < |v| ==> v[i] == w[k + i];
    StopsAtDollar(u, w, rest, k);
    TokensOfWord(u, v, rest);
    NoDollarKeyword(v);
    WordIsId(v);
  }

  lemma WordIsId(w: string)
    requires !IsKeyword(w)
    ensures WordToken(w) == "ID"
  {
  }

  lemma StopsAtDollar(u: Letters, w: string, rest: string, k: nat)
    requires LettersOk(u) && k < |w| && w[k] == '$' && forall i :: 0 <= i < k ==> WordPart(u, w[i]) && w[i] != '$'
    ensures BehindNumber(u, w + rest) == w[k..] + rest
  {
    hide IsWhitespace, IsKeyword;
    NumberRunIs(u, w + rest, k);
  }

  lemma {:induction false} FirstDollar(w: string)
    requires '$' in w
    ensures exists k: nat :: k < |w| && w[k] == '$' && forall i :: 0 <= i < k ==> w[i] != '$'
  {
    if w[0] == '$' {
    } else {
      FirstDollar(w[1..]);
      var k: nat :| k < |w[1..]| && w[1..][k] == '$' && forall i :: 0 <= i < k ==> w[1..][i] != '$';
      assert w[k + 1] == '$';
      forall i | 0 <= i < k + 1 ensures w[i] != '$' {
        if i > 0 {
          assert w[1..][i - 1] == w[i];
        }
      }
    }
  }

  lemma NoDollarKeyword(w: string)
    requires w != "" && w[0] == '$'
    ensures !IsKeyword(w)
  {
    assert forall k: string :: IsKeyword(k) ==> k != "" && k[0] != '$';
  }

  /** A number in front never adds a token to what stands behind it. */
  lemma {:induction false} NumberNeverAdds(u: Letters, r: string)
    requires LettersOk(u)
    ensures |Tokens(u, BehindNumber(u, r))| <= |Tokens(u, r)|
    decreases |r|
  {
    if r != "" && NumberPart(u, r[0]) {
      if IsDigit(r[0]) {
        DropsNumber(u, r);
      } else if WordStart(u, r[0]) {
        var w := FirstWord(u, r);
        if '$' in w {
          KeepsWord(u, r);
        } else {
          NumberNeverAdds(u, r[|w|..]);
          DropsWord(u, r);
        }
      } else {
        NumberNeverAdds(u, r[1..]);
        DropsOne(u, r);
      }
    } else {
      assert BehindNumber(u, r) == r;
    }
  }

  lemma DropsNumber(u: Letters, r: string)
    requires LettersOk(u) && r != "" && IsDigit(r[0])
    ensures |Tokens(u, r)| == 1 + |Tokens(u, BehindNumber(u, r))|
  {
    hide Tokens, LineRun, BlockRun, StringRun, WordRun;
    TokensStep(u, r);
  }

  lemma DropsOne(u: Letters, r: string)
    requires LettersOk(u) && r != "" && NumberPart(u, r[0]) && !IsDigit(r[0]) && !WordStart(u, r[0])
    ensures |Tokens(u, r)| == 1 + |Tokens(u, r[1..])| && BehindNumber(u, r) == BehindNumber(u, r[1..])
  {
    hide Tokens, LineRun, BlockRun, StringRun, WordRun;
    TokensStep(u, r);
    assert !IsWhitespace('.') && !IsQuote('.');
    assert r[1 + NumberRun(u, r[1..])..] == r[1..][NumberRun(u, r[1..])..];
  }

  lemma KeepsWord(u: Letters, r: string)
    requires LettersOk(u) && r != "" && WordStart(u, r[0]) && '$' in FirstWord(u, r)
    ensures |Tokens(u, BehindNumber(u, r))| == |Tokens(u, r)|
  {
    hide Tokens, LineRun, BlockRun, StringRun, NumberRun, IsKeyword;
    var w := FirstWord(u, r);
    var rest := r[|w|..];
    assert r == w + rest && w[0] == r[0];
    WordWithDollarStays(u, w, rest);
    TokensOfWord(u, w, rest);
  }

  lemma DropsWord(u: Letters, r: string)
    requires LettersOk(u) && r != "" && WordStart(u, r[0]) && '$' !in FirstWord(u, r)
    ensures var n := WordRun(u, r);
            n > 0 && |Tokens(u, r)| == 1 + |Tokens(u, r[n..])| && BehindNumber(u, r) == BehindNumber(u, r[n..])
  {
    hide Tokens, Lexeme, WordToken, BehindNumber, HeadLength;
    var w := FirstWord(u, r);
    var rest := r[|w|..];
    assert r == w + rest && w[0] == r[0];
    TokensOfWord(u, w, rest);
    TakesWord(u, w, rest);
  }

  lemma TakesWord(u: Letters, w: string, rest: string)
    requires '$' !in w && forall i :: 0 <= i < |w| ==> WordPart(u, w[i])
    ensures BehindNumber(u, w + rest) == BehindNumber(u, rest)
  {
    hide NumberRun;
    assert forall i :: 0 <= i < |w| ==> w[i] in w;
    NumberRunGoesOn(u, w, rest);
    assert (w + rest)[|w| + NumberRun(u, rest)..] == rest[NumberRun(u, rest)..];
  }

  // ----- When respelling keeps the tokens -----

  lemma RespellNothing(u: Letters, rename: string -> string)
    ensures Respell(u, rename, "") == ""
  {
  }

  /** Respelled text begins as the text does. */
  lemma RespelledFollows(u: Letters, rename: string -> string, s: string)
    requires LettersOk(u) && Renames(u, rename)
    ensures Follows(u, Respell(u, rename, s), s)
  {
    hide IsKeyword, LineRun, BlockRun, StringRun, NumberRun;
    if s != "" {
      LexemeAdvances(u, s);
      var head := s[..HeadLength(u, s)];
      assert head[0] == s[0];
      if WordStart(u, s[0]) && !IsKeyword(head) {
        assert head == FirstWord(u, s);
        assert Identifier(u, head);
      }
    }
  }

  /** The first lexeme of a word, its tokens, and those of its respelling. */
  lemma RespellWord(u: Letters, rename: string -> string, s: string)
    requires LettersOk(u) && Renames(u, rename) && s != "" && WordStart(u, s[0])
    ensures var n := HeadLength(u, s);
            && n > 0 && s[..n] == FirstWord(u, s)
            && Tokens(u, Respell(u, rename, s)) == [WordToken(s[..n])] + Tokens(u, Respell(u, rename, s[n..]))
            && Tokens(u, s) == [WordToken(s[..n])] + Tokens(u, s[n..])
  {
    hide IsKeyword, Tokens;
    var n := WordRun(u, s);
    var w, rest := s[..n], s[n..];
    var w' := if IsKeyword(w) then w else rename(w);
    assert s == w + rest && w[0] == s[0];
    TokensOfWord(u, w, rest);
    assert !IsKeyword(w) ==> Identifier(u, w);
    RespelledFollows(u, rename, rest);
    assert Respell(u, rename, s) == w' + Respell(u, rename, rest);
    hide Respell, Lexeme, HeadLength, WordRun;
    TokensOfWord(u, w', Respell(u, rename, rest));
  }

  lemma RespellNumber(u: Letters, rename: string -> string, s: string)
    requires LettersOk(u) && s != "" && IsDigit(s[0])
    ensures var n := HeadLength(u, s);
            && n > 0
            && Tokens(u, Respell(u, rename, s)) == ["NUM"] + Tokens(u, BehindNumber(u, Respell(u, rename, s[n..])))
            && Tokens(u, s) == ["NUM"] + Tokens(u, s[n..])
  {
    hide Tokens, LineRun, BlockRun, StringRun, WordRun, IsKeyword;
    TokensStep(u, s);
    var n := HeadLength(u, s);
    var tail := Respell(u, rename, s[n..]);
    assert n == NumberRun(u, s) && !WordStart(u, s[0]);
    assert Respell(u, rename, s) == s[..n] + tail;
    NumberTakes(u, s[..n], tail);
  }

  /** Behind a number nothing is taken from text that begins with no identifier. */
  lemma NothingTaken(u: Letters, rename: string -> string, rest: string)
    requires LettersOk(u) && Renames(u, rename)
    requires rest != "" ==> !NumberPart(u, rest[0]) && rest[0] != '$'
    ensures BehindNumber(u, Respell(u, rename, rest)) == Respell(u, rename, rest)
  {
    RespelledFollows(u, rename, rest);
    hide Respell;
    var tail := Respell(u, rename, rest);
    assert NumberRun(u, tail) == 0;
    assert tail[0..] == tail;
  }

  /** An identifier behind a number: it survives exactly when its respelling has a `$`. */
  lemma IdentifierBehindNumber(u: Letters, rename: string -> string, rest: string)
    requires LettersOk(u) && Renames(u, rename) && rest != "" && rest[0] == '$'
    ensures var v, r := rename(FirstWord(u, rest)), Respell(u, rename, rest);
            if '$' in v then Tokens(u, BehindNumber(u, r)) == Tokens(u, r)
            else |Tokens(u, BehindNumber(u, r))| < |Tokens(u, r)|
  {
    var w := FirstWord(u, rest);
    NoDollarKeyword(w);
    hide IsKeyword, Tokens;
    RespellWord(u, rename, rest);
    var n := WordRun(u, rest);
    var v, tail := rename(w), Respell(u, rename, rest[n..]);
    var r := Respell(u, rename, rest);
    assert Identifier(u, w) && Identifier(u, v);
    assert r == v + tail;
    RespelledFollows(u, rename, rest[n..]);
    assert tail != "" ==> !WordPart(u, tail[0]);
    hide Respell, Lexeme, HeadLength, WordRun, BehindNumber;
    TokensOfWord(u, v, tail);
    if '$' in v {
      WordWithDollarStays(u, v, tail);
    } else {
      TakesWord(u, v, tail);
      NumberNeverAdds(u, tail);
    }
  }

  /**
   Respelling never adds a token, and it keeps the token stream exactly when every identifier right
   behind a number keeps a `$`; otherwise tokens are lost.
   */
  lemma {:induction false} RespellingKeepsTokens(u: Letters, rename: string -> string, s: string)
    requires LettersOk(u) && Renames(u, rename)
    ensures Tokens(u, Respell(u, rename, s)) == Tokens(u, s) <==> DollarsStay(u, rename, s)
    ensures !DollarsStay(u, rename, s) ==> |Tokens(u, Respell(u, rename, s))| < |Tokens(u, s)|
    decreases |s|
  {
    hide IsKeyword, Tokens, Lexeme, Respell, WordToken, BehindNumber;
    if s == "" {
      RespellNothing(u, rename);
    } else {
      var n := HeadLength(u, s);
      if IsDigit(s[0]) {
        RespellNumber(u, rename, s);
        RespellingKeepsTokens(u, rename, s[n..]);
        DigitHead(u, s);
        if NumberMeetsDollar(u, s) {
          IdentifierBehindNumber(u, rename, s[n..]);
        } else {
          NothingTaken(u, rename, s[n..]);
        }
      } else if WordStart(u, s[0]) {
        RespellWord(u, rename, s);
        RespellingKeepsTokens(u, rename, s[n..]);
      } else {
        RespellOther(u, rename, s);
        RespellingKeepsTokens(u, rename, s[n..]);
      }
    }
  }

  lemma DigitHead(u: Letters, s: string)
    requires LettersOk(u) && s != "" && IsDigit(s[0])
    ensures var n := HeadLength(u, s); n > 0 && (n < |s| ==> !NumberPart(u, s[n]))
  {
    hide LineRun, BlockRun, StringRun, WordRun, IsKeyword;
  }

  lemma RespellOther(u: Letters, rename: string -> string, s: string)
    requires LettersOk(u) && Renames(u, rename) && s != "" && !IsDigit(s[0]) && !WordStart(u, s[0])
    ensures var n := HeadLength(u, s);
            && n > 0
            && Tokens(u, Respell(u, rename, s)) == Lexeme(u, s).0 + Tokens(u, Respell(u, rename, s[n..]))
            && Tokens(u, s) == Lexeme(u, s).0 + Tokens(u, s[n..])
  {
    hide Tokens, Lexeme, IsKeyword;
    var n := HeadLength(u, s);
    LexemeAdvances(u, s);
    assert Respell(u, rename, s) == s[..n] + Respell(u, rename, s[n..]);
    RespelledFollows(u, rename, s[n..]);
    hide Respell;
    LexemeKept(u, s, Respell(u, rename, s[n..]));
    TokensStep(u, s);
  }

  /** Bodies without a `$` behind a number keep their tokens under every respelling, and no others do. */
  lemma EveryRespellingKeepsTokens(u: Letters, s: string)
    requires LettersOk(u)
    ensures NoDollarBehindNumber(u, s) <==>
            forall rename | Renames(u, rename) :: Tokens(u, Respell(u, rename, s)) == Tokens(u, s)
  {
    hide Tokens, Respell, Lexeme, IsKeyword;
    if NoDollarBehindNumber(u, s) {
      forall rename | Renames(u, rename) ensures Tokens(u, Respell(u, rename, s)) == Tokens(u, s) {
        DollarsStayWhereNone(u, rename, s);
        RespellingKeepsTokens(u, rename, s);
      }
    } else {
      var rename := (w: string) => "_";
      UnderscoreIsIdentifier(u);
      assert Renames(u, rename);
      DollarGoes(u, rename, s);
      RespellingKeepsTokens(u, rename, s);
    }
  }

  lemma UnderscoreIsIdentifier(u: Letters)
    ensures Identifier(u, "_")
  {
    assert forall w: string :: IsKeyword(w) ==> w != "" && w[0] != '_';
    assert "_"[0] == '_';
  }

  lemma {:induction false} DollarsStayWhereNone(u: Letters, rename: string -> string, s: string)
    requires NoDollarBehindNumber(u, s)
    ensures DollarsStay(u, rename, s)
    decreases |s|
  {
    hide Lexeme, NumberMeetsDollar;
    if s != "" && HeadLength(u, s) > 0 {
      DollarsStayWhereNone(u, rename, s[HeadLength(u, s)..]);
    }
  }

  lemma {:induction false} DollarGoes(u: Letters, rename: string -> string, s: string)
    requires !NoDollarBehindNumber(u, s) && forall w :: '$' !in rename(w)
    ensures !DollarsStay(u, rename, s)
    decreases |s|
  {
    hide Lexeme, NumberMeetsDollar;
    if !NumberMeetsDollar(u, s) {
      DollarGoes(u, rename, s[HeadLength(u, s)..]);
    }
  }

  /** The shortest such body: renaming `$` to `_` turns the number and the identifier of `1$` into one number. */
  lemma DollarBehindNumber(u: Letters)
    requires LettersOk(u)
    ensures var rename := (w: string) => if w == "$" then "_" else w;
            && Renames(u, rename) && Respell(u, rename, "1$") == "1_"
            && Tokens(u, "1$") == ["NUM", "ID"] && Tokens(u, "1_") == ["NUM"]
  {
    hide Tokens, Respell, NumberRun, Lexeme, WordToken, Identifier;
    var rename := (w: string) => if w == "$" then "_" else w;
    UnderscoreIsIdentifier(u);
    assert Renames(u, rename);
    assert "1" + "$" == "1$" && "1" + "_" == "1_" && "$" + "" == "$" && "_" + "" == "_";
    NumberTakes(u, "1", "$");
    NumberTakes(u, "1", "_");
    NothingIsLeft(u);
    DollarWord(u);
    DollarRespelled(u, rename);
  }

  lemma NothingIsLeft(u: Letters)
    ensures Tokens(u, BehindNumber(u, "_")) == []
  {
    NumberRunIs(u, "_", 1);
  }

  lemma DollarWord(u: Letters)
    requires LettersOk(u)
    ensures Tokens(u, BehindNumber(u, "$")) == ["ID"]
  {
    hide WordRun, Lexeme, IsKeyword;
    NumberRunIs(u, "$", 0);
    assert "$"[0..] == "$" && "$" + "" == "$";
    TokensOfWord(u, "$", "");
    NoDollarKeyword("$");
  }

  lemma DollarRespelled(u: Letters, rename: string -> string)
    requires LettersOk(u) && rename("$") == "_"
    ensures Respell(u, rename, "1$") == "1_"
  {
    var s, w := "1$", "$";
    TokensOfWord(u, w, "");
    NoDollarKeyword(w);
    NumberRunIs(u, s, 1);
    assert w + "" == w && w[..1] == w && w[1..] == "" && s[..1] == "1" && s[1..] == w;
    hide IsKeyword, Tokens, LineRun, BlockRun, StringRun, WordRun, NumberRun;
    RespellNothing(u, rename);
    assert Respell(u, rename, w) == "_" + "";
    assert HeadLength(u, s) == 1 && !WordStart(u, '1');
  }
}
