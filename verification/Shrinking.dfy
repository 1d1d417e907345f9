/** Shrinking one source record to what fits (`fit_source`, src/graph/agent.rs). */
module Shrinking {
  import opened Prelude
  import opened Text
  import opened SourceRanges
  import opened Estimate
  import opened Budget

  function StripReturn(line: string): string {
    if line != "" && line[|line| - 1] == '\r' then line[..|line| - 1] else line
  }

  /** Lines of the joined content as `str::lines` yields them: no empty last line, `\r\n` endings stripped. */
  function LinesOf(lines: seq<string>): (r: seq<string>)
    ensures |r| <= |lines|
  {
    if lines == [] then []
    else if |lines| == 1 then (if lines[0] == "" then [] else lines)
    else [StripReturn(lines[0])] + LinesOf(lines[1..])
  }

  /** `r` cut to its first `count` lines. */
  function Prefix(r: SourceRange, count: nat): SourceRange
    requires count <= |LinesOf(r.lines)|
  {
    r.(lines := if count == 0 then [""] else LinesOf(r.lines)[..count], end := r.start + count - 1, truncated := true)
  }

  function WithRanges(rec: Record, ranges: seq<SourceRange>): Record { rec.(ranges := ranges) }

  predicate RangesFit(rec: Record, room: nat, count: nat) {
    1 <= count <= |rec.ranges| && EstimateTokens(WithRanges(rec, rec.ranges[..count])) <= room
  }

  predicate PrefixFits(rec: Record, room: nat, count: nat) {
    rec.ranges != [] && count <= |LinesOf(rec.ranges[0].lines)|
    && EstimateTokens(WithRanges(rec, [Prefix(rec.ranges[0], count)])) <= room
  }

  lemma PrefixCharsMonotone(r: SourceRange, a: nat, b: nat)
    requires 1 <= r.start && a <= b <= |LinesOf(r.lines)|
    ensures RangeChars(Prefix(r, a)) <= RangeChars(Prefix(r, b))
  {
    hide JsonChars, Join, LinesOf, Digits, RangeChars, IdsChars;
    PrefixContent(LinesOf(r.lines), a, b);
    DigitsMonotone(r.start + a - 1, r.start + b - 1);
    CheaperRange(Prefix(r, a), Prefix(r, b), 0);
  }

  lemma PrefixContent(lines: seq<string>, a: nat, b: nat)
    requires a <= b <= |lines|
    ensures JsonChars(Join(if a == 0 then [""] else lines[..a])) <= JsonChars(Join(if b == 0 then [""] else lines[..b]))
  {
    hide JsonChars, Join;
    if a == 0 {
      JoinChars([""]);
      EmptyLineChars();
    } else {
      NestedWindowChars(lines, 0, a, 0, b);
      assert lines[0..a] == lines[..a] && lines[0..b] == lines[..b];
    }
  }

  lemma EmptyLineChars()
    ensures LinesChars([""]) == 2
  {
    assert [""][1..] == [];
  }

  /** An excerpt whose content takes fewer characters and whose numbers no more takes fewer itself. */
  lemma CheaperRange(cut: SourceRange, r: SourceRange, gain: nat)
    requires cut.truncated && 0 <= cut.start == r.start && cut.nodeIds == r.nodeIds && cut.reason == r.reason
    requires 0 <= cut.end && 0 <= r.end && |Digits(cut.end)| <= |Digits(r.end)|
    requires JsonChars(Join(cut.lines)) + gain <= JsonChars(Join(r.lines))
    ensures RangeChars(cut) + gain <= RangeChars(r)
  {
    hide JsonChars, Join, IdsChars, ReasonText, Digits;
  }

  /** Longer prefixes cost at least as many tokens. */
  lemma PrefixFitsDown(rec: Record, room: nat, a: nat, b: nat)
    requires rec.ranges != [] && 1 <= rec.ranges[0].start && a <= b && PrefixFits(rec, room, b)
    ensures PrefixFits(rec, room, a)
  {
    hide RangeChars, RecordChars, JsonChars, Prefix, LinesOf;
    var r := rec.ranges[0];
    PrefixCharsMonotone(r, a, b);
    OneRangeChars(WithRanges(rec, [Prefix(r, a)]), Prefix(r, a));
    OneRangeChars(WithRanges(rec, [Prefix(r, b)]), Prefix(r, b));
    EstimateMonotone(WithRanges(rec, [Prefix(r, a)]), WithRanges(rec, [Prefix(r, b)]));
  }

  /**
   The shrunk record: all ranges if they fit; else the longest fitting sequence of leading ranges;
   else the longest fitting whole-line prefix of the first; else none.
   */
  ghost predicate Shrunk(rec: Record, room: nat, fit: Option<Record>) {
    if EstimateTokens(rec) <= room then fit == Some(rec)
    else if exists k: nat :: RangesFit(rec, room, k) then
      exists k: nat :: && RangesFit(rec, room, k) && fit == Some(WithRanges(rec, rec.ranges[..k]))
                       && forall j :: k < j ==> !RangesFit(rec, room, j)
    else if exists c: nat :: c >= 1 && PrefixFits(rec, room, c) then
      exists c: nat :: && c >= 1 && PrefixFits(rec, room, c) && fit == Some(WithRanges(rec, [Prefix(rec.ranges[0], c)]))
                       && forall d :: c < d ==> !PrefixFits(rec, room, d)
    else fit == None
  }

  predicate EndsInReturn(line: string) { line != "" && line[|line| - 1] == '\r' }

  lemma {:induction false} LinesOfAt(lines: seq<string>, i: nat)
    requires i < |lines| && forall k :: 0 <= k < |lines| ==> lines[k] != ""
    ensures |LinesOf(lines)| == |lines|
    ensures LinesOf(lines)[i] == if i == |lines| - 1 then lines[i] else StripReturn(lines[i])
  {
    if |lines| > 1 {
      LinesOfAt(lines[1..], if i == 0 then 0 else i - 1);
    }
  }

  /** A stripped numbered line numbers the stripped text. */
  lemma StrippedShows(n: nat, width: nat, text: string)
    ensures ShowsLine(StripReturn(Numbered(n, width, text)), n, text) <==> !EndsInReturn(text)
  {
    var pad := PadLeft(Decimal(n), width) + ": ";
    assert Numbered(n, width, text) == pad + text;
    assert EndsInReturn(text) ==> StripReturn(pad + text) == pad + StripReturn(text) == Numbered(n, width, StripReturn(text));
    assert !EndsInReturn(text) ==> StripReturn(pad + text) == pad + text;
    if EndsInReturn(text) && ShowsLine(StripReturn(Numbered(n, width, text)), n, text) {
      var other: nat :| StripReturn(Numbered(n, width, text)) == Numbered(n, other, text);
      StripUndoesNumbering(n, width, StripReturn(text));
      StripUndoesNumbering(n, other, text);
      assert false;
    }
  }

  /** A prefix shows the file's text iff it has no line in carriage return, the excerpt's last one aside. */
  lemma PrefixShows(r: SourceRange, count: nat, file: seq<string>)
    requires Shows(r, file) && 1 <= count <= |r.lines|
    ensures |LinesOf(r.lines)| == |r.lines|
    ensures Shows(Prefix(r, count), file) <==>
            forall n :: r.start <= n + 1 < r.start + count && n + 1 < r.end ==> !EndsInReturn(file[n])
  {
    hide LinesOf, StripReturn, EndsInReturn, Numbered;
    forall k | 0 <= k < |r.lines|
      ensures r.lines[k] != "" && |LinesOf(r.lines)| == |r.lines|
      ensures ShowsLine(LinesOf(r.lines)[k], r.start + k, file[r.start + k - 1]) <==>
              k == |r.lines| - 1 || !EndsInReturn(file[r.start + k - 1])
    {
      PrefixLineShows(r, k, file);
    }
    assert |LinesOf(r.lines)| == |r.lines| by { assert r.lines[0] != ""; }
    var p := Prefix(r, count);
    forall k | 0 <= k < count
      ensures ShowsLine(p.lines[k], p.start + k, file[p.start + k - 1]) <==>
              k == |r.lines| - 1 || !EndsInReturn(file[r.start + k - 1])
    {
      assert p.lines[k] == LinesOf(r.lines)[k];
    }
    if Shows(p, file) {
      forall n | r.start <= n + 1 < r.start + count && n + 1 < r.end
        ensures !EndsInReturn(file[n])
      {
        assert ShowsLine(p.lines[n + 1 - r.start], p.start + (n + 1 - r.start), file[n]);
      }
    }
  }

  lemma PrefixLineShows(r: SourceRange, k: nat, file: seq<string>)
    requires Shows(r, file) && k < |r.lines|
    ensures r.lines[k] != "" && |LinesOf(r.lines)| == |r.lines|
    ensures ShowsLine(LinesOf(r.lines)[k], r.start + k, file[r.start + k - 1]) <==>
            k == |r.lines| - 1 || !EndsInReturn(file[r.start + k - 1])
  {
    hide LinesOf, StripReturn, EndsInReturn;
    forall i | 0 <= i < |r.lines|
      ensures r.lines[i] != ""
    {
      assert ShowsLine(r.lines[i], r.start + i, file[r.start + i - 1]);
    }
    LinesOfAt(r.lines, k);
    var width: nat :| r.lines[k] == Numbered(r.start + k, width, file[r.start + k - 1]);
    StrippedShows(r.start + k, width, file[r.start + k - 1]);
  }

  // ----- When every shrunk form shows the file's text -----

  /** No line of `r` ends in a carriage return, its last one aside. */
  predicate ReturnFree(r: SourceRange, file: seq<string>) {
    forall n :: 0 <= n < |file| && r.start <= n + 1 < r.end ==> !EndsInReturn(file[n])
  }

  lemma {:induction false} JsonCharsAtLeast(s: string)
    ensures JsonChars(s) >= |s|
  {
    if s != "" {
      JsonCharsAtLeast(s[1..]);
    }
  }

  lemma StrippedChars(line: string)
    ensures JsonChars(StripReturn(line)) <= JsonChars(line)
  {
    if EndsInReturn(line) {
      var n := |line| - 1;
      JsonCharsAppend(line[..n], line[n..]);
      assert line == line[..n] + line[n..];
    }
  }

  lemma {:induction false} LinesOfChars(lines: seq<string>)
    ensures LinesChars(LinesOf(lines)) <= LinesChars(lines)
  {
    hide JsonChars, StripReturn;
    if |lines| > 1 {
      LinesOfChars(lines[1..]);
      StrippedChars(lines[0]);
      LinesCharsAppend([StripReturn(lines[0])], LinesOf(lines[1..]));
      LinesCharsOne(StripReturn(lines[0]));
    }
  }

  lemma LinesCharsOne(line: string)
    ensures LinesChars([line]) == JsonChars(line) + 2
  {
    hide JsonChars;
    assert LinesChars([line][1..]) == 0;
  }

  /** Leaving out the last of some lines saves at least four characters. */
  lemma ShorterContent(lines: seq<string>, count: nat)
    requires 1 <= count < |lines| == |LinesOf(lines)|
    requires LinesOf(lines)[|lines| - 1] == lines[|lines| - 1] && |lines[|lines| - 1]| >= 2
    ensures JsonChars(Join(LinesOf(lines)[..count])) + 4 <= JsonChars(Join(lines))
  {
    hide JsonChars, LinesOf;
    var stripped, n := LinesOf(lines), |lines| - 1;
    JoinChars(stripped[..count]);
    JoinChars(lines);
    LinesOfChars(lines);
    assert stripped == stripped[..count] + stripped[count..n] + [lines[n]];
    LinesCharsAppend(stripped[..count] + stripped[count..n], [lines[n]]);
    LinesCharsAppend(stripped[..count], stripped[count..n]);
    LinesCharsOne(lines[n]);
    JsonCharsAtLeast(lines[n]);
  }

  /** A proper prefix costs at least one token less than the whole excerpt. */
  lemma PrefixIsCheaper(rec: Record, k: nat, count: nat, file: seq<string>)
    requires 1 <= k <= |rec.ranges| && Shows(rec.ranges[0], file) && 1 <= count < |rec.ranges[0].lines|
    ensures |LinesOf(rec.ranges[0].lines)| == |rec.ranges[0].lines|
    ensures EstimateTokens(WithRanges(rec, [Prefix(rec.ranges[0], count)])) < EstimateTokens(WithRanges(rec, rec.ranges[..k]))
  {
    hide RecordChars, RangeChars, Shows, Prefix;
    var r := rec.ranges[0];
    PrefixChars(r, count, file);
    var cut, leading := WithRanges(rec, [Prefix(r, count)]), WithRanges(rec, rec.ranges[..k]);
    OneRangeChars(cut, Prefix(r, count));
    LeadingChars(leading, r);
  }

  lemma LeadingChars(rec: Record, r: SourceRange)
    requires rec.ranges != [] && rec.ranges[0] == r
    ensures RecordChars(rec) >= RECORD_FRAME + JsonChars(rec.file) + rec.extra + RangeChars(r)
  {
    hide JsonChars, RangeChars;
  }

  lemma PrefixChars(r: SourceRange, count: nat, file: seq<string>)
    requires Shows(r, file) && 1 <= count < |r.lines|
    ensures |LinesOf(r.lines)| == |r.lines|
    ensures RangeChars(Prefix(r, count)) + 4 <= RangeChars(r)
  {
    hide JsonChars, Join, IdsChars, LinesOf, Digits, RangeChars, LinesChars, Shows, StripReturn;
    NumberedLines(r, file);
    LinesOfAt(r.lines, |r.lines| - 1);
    ShorterContent(r.lines, count);
    DigitsMonotone(r.start + count - 1, r.end);
    CheaperRange(Prefix(r, count), r, 4);
  }

  lemma NumberedLines(r: SourceRange, file: seq<string>)
    requires Shows(r, file)
    ensures 1 <= r.start <= r.end && |r.lines| == r.end - r.start + 1
    ensures forall i :: 0 <= i < |r.lines| ==> |r.lines[i]| >= 2
  {
    forall i | 0 <= i < |r.lines|
      ensures |r.lines[i]| >= 2
    {
      assert ShowsLine(r.lines[i], r.start + i, file[r.start + i - 1]);
    }
  }

  /** In every room, whatever is left of the record shows the file's text. */
  ghost predicate AlwaysShows(rec: Record, file: seq<string>) {
    forall room: nat, fit: Option<Record> :: Shrunk(rec, room, fit) && fit.Some? ==> AllShow(fit.value.ranges, file)
  }

  lemma FreeShows(rec: Record, room: nat, fit: Option<Record>, file: seq<string>)
    requires Shrunk(rec, room, fit) && fit.Some? && AllShow(rec.ranges, file)
    requires rec.ranges != [] && ReturnFree(rec.ranges[0], file)
    ensures AllShow(fit.value.ranges, file)
  {
    hide EstimateTokens, Prefix, LinesOf, EndsInReturn;
    if c: nat :| c >= 1 && PrefixFits(rec, room, c) && fit == Some(WithRanges(rec, [Prefix(rec.ranges[0], c)])) {
      PrefixShows(rec.ranges[0], c, file);
    }
  }

  /** In the room that just takes the prefix up to a line that ends in a carriage return, that text is lost. */
  lemma ReturnIsLost(rec: Record, file: seq<string>, n: nat) returns (room: nat, fit: Option<Record>)
    requires rec.ranges != [] && AllShow(rec.ranges, file)
    requires n < |file| && rec.ranges[0].start <= n + 1 < rec.ranges[0].end && EndsInReturn(file[n])
    ensures Shrunk(rec, room, fit) && fit.Some? && !AllShow(fit.value.ranges, file)
  {
    hide EstimateTokens, Prefix, LinesOf, EndsInReturn;
    var r := rec.ranges[0];
    var count := n + 2 - r.start;
    PrefixIsCheaper(rec, 1, count, file);
    room := EstimateTokens(WithRanges(rec, [Prefix(r, count)]));
    forall k: nat
      ensures !RangesFit(rec, room, k)
    {
      if 1 <= k <= |rec.ranges| {
        PrefixIsCheaper(rec, k, count, file);
      }
    }
    assert rec.ranges[..|rec.ranges|] == rec.ranges && WithRanges(rec, rec.ranges) == rec;
    assert !RangesFit(rec, room, |rec.ranges|);
    assert PrefixFits(rec, room, count);
    var longest := LongestFit(rec, room, count);
    fit := Some(WithRanges(rec, [Prefix(r, longest)]));
    PrefixShows(r, longest, file);
  }

  lemma LongestFit(rec: Record, room: nat, count: nat) returns (longest: nat)
    requires PrefixFits(rec, room, count)
    ensures count <= longest && PrefixFits(rec, room, longest)
    ensures forall d: nat :: longest < d ==> !PrefixFits(rec, room, d)
    decreases |LinesOf(rec.ranges[0].lines)| - count
  {
    hide EstimateTokens, Prefix;
    if d: nat :| count < d && PrefixFits(rec, room, d) {
      longest := LongestFit(rec, room, d);
    } else {
      longest := count;
    }
  }

  /**
   Whatever is left of a record shows its file's text, in every room, exactly when no line of its
   first excerpt but the last ends in a carriage return.
   */
  lemma ShrunkShows(rec: Record, file: seq<string>)
    requires AllShow(rec.ranges, file)
    ensures AlwaysShows(rec, file) <==> (rec.ranges != [] ==> ReturnFree(rec.ranges[0], file))
  {
    hide Shows, EndsInReturn;
    if rec.ranges == [] {
      NothingToShow(rec, file);
    } else if ReturnFree(rec.ranges[0], file) {
      forall room: nat, fit: Option<Record> | Shrunk(rec, room, fit) && fit.Some?
        ensures AllShow(fit.value.ranges, file)
      {
        FreeShows(rec, room, fit, file);
      }
    } else {
      var n: nat :| n < |file| && rec.ranges[0].start <= n + 1 < rec.ranges[0].end && EndsInReturn(file[n]);
      var room, fit := ReturnIsLost(rec, file, n);
    }
  }

  lemma NothingToShow(rec: Record, file: seq<string>)
    requires rec.ranges == []
    ensures AlwaysShows(rec, file)
  {
    hide EstimateTokens;
  }

  /**
   A first line that ends in CR CR LF has one carriage return left when it is read, and loses it when
   the record is shrunk to it.
   */
  lemma DoubledReturnIsLost()
    ensures var file := ["a\r", "b"];
            var r := SourceRange(1, 2, [], ["1: a\r", "2: b"], false, TextOnly);
            var cut := SourceRange(1, 1, [], ["1: a"], true, TextOnly);
            && Shows(r, file) && !Shows(cut, file)
            && Shrunk(Record("f", 0, [r]), 35, Some(Record("f", 0, [cut])))
  {
    var file := ["a\r", "b"];
    var r := SourceRange(1, 2, [], ["1: a\r", "2: b"], false, TextOnly);
    var cut := SourceRange(1, 1, [], ["1: a"], true, TextOnly);
    var both := SourceRange(1, 2, [], ["1: a", "2: b"], true, TextOnly);
    var rec := Record("f", 0, [r]);
    SmallFileShown(r, file);
    hide Shows, EstimateTokens, Prefix, LinesOf, EndsInReturn, Shrunk;
    SmallPrefixes(r, cut, both);
    PrefixShows(r, 1, file);
    assert EndsInReturn(file[0]) by { LastIsReturn(); }
    SmallRecords(r, cut, both);
    assert WithRanges(rec, [cut]) == Record("f", 0, [cut]) && WithRanges(rec, [both]) == Record("f", 0, [both]);
    OneLineFits(rec, 35);
  }

  lemma LastIsReturn()
    ensures EndsInReturn("a\r")
  {
  }

  lemma SmallPrefixes(r: SourceRange, cut: SourceRange, both: SourceRange)
    requires r == SourceRange(1, 2, [], ["1: a\r", "2: b"], false, TextOnly)
    requires cut == SourceRange(1, 1, [], ["1: a"], true, TextOnly)
    requires both == SourceRange(1, 2, [], ["1: a", "2: b"], true, TextOnly)
    ensures |LinesOf(r.lines)| == 2 && Prefix(r, 1) == cut && Prefix(r, 2) == both
  {
    SmallLines(r.lines);
    hide LinesOf;
    assert both.lines[..1] == cut.lines && both.lines[..2] == both.lines;
  }

  /** A record of one excerpt of two lines of which only the first fits. */
  lemma OneLineFits(rec: Record, room: nat)
    requires |rec.ranges| == 1 && |LinesOf(rec.ranges[0].lines)| == 2
    requires EstimateTokens(rec) > room && PrefixFits(rec, room, 1) && !PrefixFits(rec, room, 2)
    ensures Shrunk(rec, room, Some(WithRanges(rec, [Prefix(rec.ranges[0], 1)])))
  {
    hide EstimateTokens, LinesOf, Prefix;
    assert WithRanges(rec, rec.ranges[..1]) == rec;
    assert forall k: nat :: RangesFit(rec, room, k) ==> k == 1;
    assert forall d: nat :: 1 < d && PrefixFits(rec, room, d) ==> d == 2;
  }

  lemma SmallLines(lines: seq<string>)
    requires lines == ["1: a\r", "2: b"]
    ensures LinesOf(lines) == ["1: a", "2: b"]
  {
    assert lines[1..] == ["2: b"] && LinesOf(["2: b"]) == ["2: b"];
    assert "1: a\r"[..4] == "1: a" && StripReturn(lines[0]) == "1: a";
  }

  lemma SmallFileShown(r: SourceRange, file: seq<string>)
    requires file == ["a\r", "b"] && r == SourceRange(1, 2, [], ["1: a\r", "2: b"], false, TextOnly)
    ensures Shows(r, file)
  {
    var one, two := Decimal(1), Decimal(2);
    assert one == "1" && two == "2" && PadLeft(one, 0) == one && PadLeft(two, 0) == two;
    assert Numbered(1, 0, "a\r") == "1: a\r" && Numbered(2, 0, "b") == "2: b";
    hide Numbered;
    assert ShowsLine(r.lines[0], 1, file[0]) && ShowsLine(r.lines[1], 2, file[1]);
  }

  lemma SmallRecords(r: SourceRange, cut: SourceRange, both: SourceRange)
    requires r == SourceRange(1, 2, [], ["1: a\r", "2: b"], false, TextOnly)
    requires cut == SourceRange(1, 1, [], ["1: a"], true, TextOnly)
    requires both == SourceRange(1, 2, [], ["1: a", "2: b"], true, TextOnly)
    ensures EstimateTokens(Record("f", 0, [r])) == 37
    ensures EstimateTokens(Record("f", 0, [both])) == 37
    ensures EstimateTokens(Record("f", 0, [cut])) == 35
  {
    SmallContent();
    assert JsonChars("f") == 1 && IdsChars([]) == 0 && |Decimal(1)| == 1 && |Decimal(2)| == 1 && |ReasonText(TextOnly)| == 9;
    hide JsonChars, Join, Digits, ReasonText, IdsChars;
    OneRangeChars(Record("f", 0, [r]), r);
    OneRangeChars(Record("f", 0, [both]), both);
    OneRangeChars(Record("f", 0, [cut]), cut);
    assert RangeChars(r) == 76 + 2 + 12 + 5 + 9;
    assert RangeChars(both) == 76 + 2 + 10 + 4 + 9;
    assert RangeChars(cut) == 76 + 2 + 4 + 4 + 9;
  }

  lemma SmallContent()
    ensures JsonChars(Join(["1: a\r", "2: b"])) == 12
    ensures JsonChars(Join(["1: a", "2: b"])) == 10
    ensures JsonChars(Join(["1: a"])) == 4
  {
    FourChars("1: a");
    FourChars("2: b");
    JsonCharsAppend("1: a", "\r");
    assert "1: a" + "\r" == "1: a\r" && JsonChars("\r") == 2 + JsonChars("\r"[1..]);
    TwoLines("1: a\r", "2: b");
    TwoLines("1: a", "2: b");
    hide JsonChars, Join;
    JoinChars(["1: a"]);
    LinesCharsOne("1: a");
  }

  lemma TwoLines(a: string, b: string)
    ensures JsonChars(Join([a, b])) == JsonChars(a) + 2 + JsonChars(b)
  {
    hide JsonChars, Join, LinesChars;
    JoinChars([a, b]);
    LinesCharsOne(a);
    LinesCharsOne(b);
    LinesCharsAppend([a], [b]);
    assert [a] + [b] == [a, b];
  }

  lemma FourChars(s: string)
    requires s == "1: a" || s == "2: b"
    ensures JsonChars(s) == 4
  {
    assert JsonChars(s[3..]) == 1;
    assert JsonChars(s[2..]) == 2 by { assert s[2..][1..] == s[3..]; }
    assert JsonChars(s[1..]) == 3 by { assert s[1..][1..] == s[2..]; }
  }

  /** Drops trailing ranges, then searches for the longest fitting prefix of what is left. */
  method FitSource(rec: Record, available: nat) returns (fit: Option<Record>)
    requires forall i :: 0 <= i < |rec.ranges| ==> 1 <= rec.ranges[i].start
    ensures Shrunk(rec, available, fit)
  {
    hide EstimateTokens, Prefix, LinesOf;
    if EstimateTokens(rec) <= available {
      return Some(rec);
    }
    var kept := |rec.ranges|;
    while kept > 1 && EstimateTokens(WithRanges(rec, rec.ranges[..kept])) > available
      invariant rec.ranges == [] ==> kept == 0
      invariant rec.ranges != [] ==> 1 <= kept <= |rec.ranges|
      invariant forall j :: kept < j ==> !RangesFit(rec, available, j)
    {
      kept := kept - 1;
    }
    if rec.ranges == [] {
      assert WithRanges(rec, rec.ranges[..kept]) == rec;
      return None;
    }
    if EstimateTokens(WithRanges(rec, rec.ranges[..kept])) <= available {
      assert RangesFit(rec, available, kept);
      return Some(WithRanges(rec, rec.ranges[..kept]));
    }
    assert forall j :: 1 <= j ==> !RangesFit(rec, available, j);
    var count := LongestPrefix(rec, available);
    if count == 0 {
      return None;
    }
    assert PrefixFits(rec, available, count);
    fit := Some(WithRanges(rec, [Prefix(rec.ranges[0], count)]));
  }

  /** Binary search for the longest fitting prefix; zero when no non-empty one fits. */
  method LongestPrefix(rec: Record, available: nat) returns (count: nat)
    requires rec.ranges != [] && 1 <= rec.ranges[0].start
    ensures count > 0 ==> PrefixFits(rec, available, count)
    ensures forall d :: count < d ==> !PrefixFits(rec, available, d)
  {
    hide EstimateTokens, Prefix, LinesOf;
    var last := rec.ranges[0];
    var lo, hi := 0, |LinesOf(last.lines)|;
    while lo < hi
      invariant 0 <= lo <= hi <= |LinesOf(last.lines)|
      invariant lo > 0 ==> PrefixFits(rec, available, lo)
      invariant forall d :: hi < d ==> !PrefixFits(rec, available, d)
    {
      var mid := (lo + hi + 1) / 2;
      if EstimateTokens(WithRanges(rec, [Prefix(last, mid)])) <= available {
        lo := mid;
      } else {
        forall d | mid <= d
          ensures !PrefixFits(rec, available, d)
        {
          if PrefixFits(rec, available, d) {
            PrefixFitsDown(rec, available, mid, d);
          }
        }
        hi := mid - 1;
      }
    }
    count := lo;
  }
}
