/** The body text that `compute_body_hash` hashes (src/graph/fingerprint.rs). */
module BodyText {
  import opened Text

  /** One blank for each run of whitespace; `open` says a run is already under way. */
  function Collapse(s: string, open: bool): string {
    if s == "" then ""
    else if IsWhitespace(s[0]) then (if open then "" else " ") + Collapse(s[1..], true)
    else [s[0]] + Collapse(s[1..], false)
  }

  function TrimEnd(s: string): string {
    if s != "" && IsWhitespace(s[|s| - 1]) then TrimEnd(s[..|s| - 1]) else s
  }

  function Trim(s: string): string { TrimEnd(TrimStart(s)) }

  /** The whitespace-separated words of a text; `word` is the one being read. */
  function WordsFrom(s: string, word: string): seq<string> {
    if s == "" then (if word == "" then [] else [word])
    else if IsWhitespace(s[0]) then (if word == "" then [] else [word]) + WordsFrom(s[1..], "")
    else WordsFrom(s[1..], word + [s[0]])
  }

  function Words(s: string): seq<string> { WordsFrom(s, "") }

  /** Words with one blank between neighbours. */
  function JoinBlank(words: seq<string>): string { JoinWith(words, " ") }

  /** The loop that collapses whitespace, then the trim. */
  method NormalizeBody(body: string) returns (trimmed: string)
    ensures trimmed == JoinBlank(Words(body))
  {
    hide Trim, Words, JoinBlank, IsWhitespace;
    var normalized := "";
    var inWhitespace := false;
    assert body[0..] == body;
    for i := 0 to |body|
      invariant normalized + Collapse(body[i..], inWhitespace) == Collapse(body, false)
    {
      var c := body[i];
      assert body[i..][1..] == body[i + 1..];
      if IsWhitespace(c) {
        if !inWhitespace {
          normalized := normalized + " ";
          inWhitespace := true;
        }
      } else {
        normalized := normalized + [c];
        inWhitespace := false;
      }
    }
    assert body[|body|..] == "" && normalized + "" == normalized;
    trimmed := Trim(normalized);
    TrimmedIsWords(body);
  }

  predicate Blankless(w: string) { forall i :: 0 <= i < |w| ==> !IsWhitespace(w[i]) }

  /** A blank when the text ends in whitespace. */
  function Tail(s: string): string { if s != "" && IsWhitespace(s[|s| - 1]) then " " else "" }

  /** A word under way is never lost. */
  lemma {:induction false} WordUnderWay(s: string, word: string)
    requires word != ""
    ensures WordsFrom(s, word) != []
    decreases |s|
  {
    if s != "" && !IsWhitespace(s[0]) {
      WordUnderWay(s[1..], word + [s[0]]);
    }
  }

  lemma {:induction false} BlankOnly(s: string)
    ensures WordsFrom(s, "") == [] ==> (s == "" || Tail(s) == " ") && Collapse(s, true) == ""
  {
    if s != "" {
      if IsWhitespace(s[0]) {
        BlankOnly(s[1..]);
      } else {
        WordUnderWay(s[1..], "" + [s[0]]);
      }
    }
  }

  lemma TailOfBlank(s: string)
    requires s != "" && IsWhitespace(s[0])
    ensures Tail(s) == if WordsFrom(s[1..], "") == [] then " " else Tail(s[1..])
  {
    BlankOnly(s[1..]);
    if |s| > 1 {
      assert s[1..][|s| - 2] == s[|s| - 1];
    }
  }

  lemma TailOfWord(s: string)
    requires s != "" && !IsWhitespace(s[0])
    ensures Tail(s) == Tail(s[1..])
  {
    if |s| > 1 {
      assert s[1..][|s| - 2] == s[|s| - 1];
    }
  }

  /** What is left to write behind a word under way: the joined words, and a blank at the end. */
  function Rest(s: string, word: string): string {
    JoinBlank(WordsFrom(s, word)) + (if WordsFrom(s, word) == [] then "" else Tail(s))
  }

  lemma RestAfterBlank(s: string, word: string)
    requires s != "" && IsWhitespace(s[0]) && word != ""
    ensures Rest(s, word) == word + " " + Rest(s[1..], "")
  {
    hide IsWhitespace;
    var rest := WordsFrom(s[1..], "");
    TailOfBlank(s);
    assert WordsFrom(s, word) == [word] + rest;
    if rest == [] {
      assert JoinBlank([word]) == word;
      assert "" + "" == "" && word + " " + "" == word + " ";
    } else {
      assert ([word] + rest)[1..] == rest;
      assert JoinBlank([word] + rest) == word + " " + JoinBlank(rest);
      assert word + " " + JoinBlank(rest) + Tail(s) == word + " " + (JoinBlank(rest) + Tail(s));
    }
  }

  lemma RestSkipsBlank(s: string)
    requires s != "" && IsWhitespace(s[0])
    ensures Rest(s, "") == Rest(s[1..], "")
  {
    hide IsWhitespace, JoinBlank;
    TailOfBlank(s);
    assert WordsFrom(s, "") == WordsFrom(s[1..], "");
  }

  lemma RestReads(s: string, word: string)
    requires s != "" && !IsWhitespace(s[0])
    ensures Rest(s, word) == Rest(s[1..], word + [s[0]])
  {
    hide IsWhitespace, JoinBlank;
    TailOfWord(s);
  }

  /** Collapsing the rest of a text behind a word under way writes exactly what is left. */
  lemma {:induction false} CollapseIsWords(s: string, word: string)
    ensures word + Collapse(s, word == "") == Rest(s, word)
    decreases |s|
  {
    hide IsWhitespace, JoinBlank, JoinWith, Rest, WordsFrom;
    if s == "" {
      RestOfNothing(word);
      Regroup(word, "", "");
    } else if IsWhitespace(s[0]) {
      CollapseIsWords(s[1..], "");
      Regroup("", Collapse(s[1..], true), "");
      if word == "" {
        RestSkipsBlank(s);
      } else {
        RestAfterBlank(s, word);
        Regroup(word, " ", Collapse(s[1..], true));
      }
    } else {
      CollapseIsWords(s[1..], word + [s[0]]);
      RestReads(s, word);
      Regroup(word, [s[0]], Collapse(s[1..], false));
    }
  }

  lemma Regroup(a: string, b: string, c: string)
    ensures a + (b + c) == a + b + c && a + "" == a && "" + b == b
  {
  }

  lemma RestOfNothing(word: string)
    ensures Rest("", word) == word
  {
    if word != "" {
      assert JoinBlank([word]) == word;
    }
  }

  lemma {:induction false} JoinEnds(words: seq<string>)
    requires words != [] && forall i :: 0 <= i < |words| ==> words[i] != "" && Blankless(words[i])
    ensures var j := JoinBlank(words); j != "" && !IsWhitespace(j[0]) && !IsWhitespace(j[|j| - 1])
  {
    if |words| > 1 {
      JoinEnds(words[1..]);
    }
  }

  lemma {:induction false} WordsAreBlankless(s: string, word: string)
    requires Blankless(word)
    ensures forall i :: 0 <= i < |WordsFrom(s, word)| ==> WordsFrom(s, word)[i] != "" && Blankless(WordsFrom(s, word)[i])
    decreases |s|
  {
    if s != "" {
      if IsWhitespace(s[0]) {
        WordsAreBlankless(s[1..], "");
      } else {
        WordsAreBlankless(s[1..], word + [s[0]]);
      }
    }
  }

  /** Trimming the collapsed text leaves exactly the words joined by single blanks. */
  lemma TrimmedIsWords(s: string)
    ensures Trim(Collapse(s, false)) == JoinBlank(Words(s))
  {
    var words := Words(s);
    var j := JoinBlank(words);
    CollapseIsWords(s, "");
    WordsAreBlankless(s, "");
    BlankOnly(s);
    var lead := if s != "" && IsWhitespace(s[0]) then " " else "";
    assert Collapse(s, false) == lead + Collapse(s, true);
    assert Collapse(s, true) == "" + Collapse(s, true) == Rest(s, "");
    if words == [] {
      assert Collapse(s, false) == lead;
      assert TrimStart("") == "" && TrimEnd("") == "";
      if lead == " " {
        assert " " == " " + "";
        TrimBlank("");
      }
    } else {
      JoinEnds(words);
      var body := j + Tail(s);
      assert body[0] == j[0];
      assert TrimStart(body) == body;
      assert "" + body == body;
      TrimBlank(body);
      TrimEndTail(j, Tail(s));
    }
  }

  lemma TrimEndTail(j: string, tail: string)
    requires j != "" && !IsWhitespace(j[|j| - 1]) && (tail == "" || tail == " ")
    ensures TrimEnd(j + tail) == j
  {
    if tail == " " {
      assert (j + tail)[..|j + tail| - 1] == j;
    } else {
      assert j + tail == j;
    }
  }

  /** Normalising is idempotent: the words of the joined words are the words. */
  lemma {:induction false} WordsOfJoin(words: seq<string>)
    requires forall i :: 0 <= i < |words| ==> words[i] != "" && Blankless(words[i])
    ensures Words(JoinBlank(words)) == words
  {
    if words == [] {
    } else if |words| == 1 {
      ReadWord(words[0], "", "");
      assert words[0] + "" == words[0] && "" + words[0] == words[0];
    } else {
      WordsOfJoin(words[1..]);
      var rest := JoinBlank(words[1..]);
      ReadWord(words[0], " " + rest, "");
      assert words[0] + " " + rest == words[0] + (" " + rest);
      assert (" " + rest)[1..] == rest;
      assert "" + words[0] == words[0] && words == [words[0]] + words[1..];
    }
  }

  /** Reading a word without whitespace only lengthens the word under way. */
  lemma {:induction false} ReadWord(w: string, rest: string, word: string)
    requires Blankless(w)
    ensures WordsFrom(w + rest, word) == WordsFrom(rest, word + w)
    decreases |w|
  {
    if w == "" {
      assert w + rest == rest && word + w == word;
    } else {
      ReadWord(w[1..], rest, word + [w[0]]);
      assert (w + rest)[1..] == w[1..] + rest;
      assert word + [w[0]] + w[1..] == word + w;
    }
  }

  /** Two bodies normalise alike exactly when they have the same words. */
  lemma SameTextIffSameWords(a: string, b: string)
    ensures JoinBlank(Words(a)) == JoinBlank(Words(b)) <==> Words(a) == Words(b)
  {
    WordsAreBlankless(a, "");
    WordsAreBlankless(b, "");
    WordsOfJoin(Words(a));
    WordsOfJoin(Words(b));
  }
}
