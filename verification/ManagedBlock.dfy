/** The managed-block editor (src/managed_block.rs): one owned block inside a file a user wrote. */
module ManagedBlock {
  import opened Prelude

  /** What is on disk: a character stands for a byte of the UTF-8 text. */
  datatype File = Absent | NotText | Text(content: string)

  datatype Action = Create | Migrate | Update | Noop | Conflict

  datatype Reason = NoFile | Legacy | Append | Replace | Exact | TooLarge | MalformedMarkers | InvalidEncoding

  /** The bounded preview: the block before, and the block to be installed. */
  datatype Change = Change(before: Option<string>, after: string)

  datatype Edit = Edit(action: Action, reason: Reason, desired: Option<string>, change: Option<Change>)

  /** `legacy` and `pointing` answer for the known-hash list and the caller's own test. */
  datatype Spec = Spec(
    start: string,
    end: string,
    render: string -> string,
    maxBlockBytes: nat,
    legacy: string -> bool,
    pointing: string -> bool)

  const LF := "\n"
  const CRLF := "\r\n"

  // ----- searching -----

  predicate Occurs(content: string, needle: string, i: int) {
    0 <= i && i + |needle| <= |content| && content[i..i + |needle|] == needle
  }

  /** The greedy search: matches from the left that do not overlap. */
  function MatchIndices(content: string, needle: string, from: nat): seq<nat>
    decreases |content| + 1 - from
  {
    if from + |needle| > |content| then []
    else if Occurs(content, needle, from) then [from] + MatchIndices(content, needle, from + Max(1, |needle|))
    else MatchIndices(content, needle, from + 1)
  }

  /** What the search finds: occurrences, from the left, without overlap. */
  lemma {:induction false} FoundOccur(content: string, needle: string, from: nat)
    ensures var found := MatchIndices(content, needle, from);
            && (forall k: nat :: k < |found| ==> from <= found[k] && Occurs(content, needle, found[k]))
            && (forall j: nat, k: nat :: j < k < |found| ==> found[j] + Max(1, |needle|) <= found[k])
    decreases |content| + 1 - from
  {
    hide Occurs, MatchIndices;
    MatchStep(content, needle, from);
    if from + |needle| <= |content| {
      if Occurs(content, needle, from) {
        FoundOccur(content, needle, from + Max(1, |needle|));
      } else {
        FoundOccur(content, needle, from + 1);
      }
    }
  }

  lemma MatchStep(content: string, needle: string, from: nat)
    ensures MatchIndices(content, needle, from) ==
            if from + |needle| > |content| then []
            else if Occurs(content, needle, from) then [from] + MatchIndices(content, needle, from + Max(1, |needle|))
            else MatchIndices(content, needle, from + 1)
  {
    hide Occurs;
  }

  /** Every occurrence is found, or begins inside a match that is. */
  lemma {:induction false} OccursIsFound(content: string, needle: string, from: nat, i: nat) returns (k: nat)
    requires from <= i && Occurs(content, needle, i)
    ensures var found := MatchIndices(content, needle, from);
            k < |found| && found[k] <= i < found[k] + Max(1, |needle|)
    decreases |content| + 1 - from
  {
    hide Occurs;
    OccursStartsAtNat(content, needle, i);
    if Occurs(content, needle, from) {
      if i < from + Max(1, |needle|) {
        k := 0;
      } else {
        k := OccursIsFound(content, needle, from + Max(1, |needle|), i);
        k := k + 1;
      }
    } else {
      k := OccursIsFound(content, needle, from + 1, i);
    }
  }

  ghost predicate Only(content: string, needle: string, p: int) {
    forall i: int :: Occurs(content, needle, i) <==> i == p
  }

  ghost predicate Present(content: string, needle: string) {
    exists i: int :: Occurs(content, needle, i)
  }

  lemma OnlyIsFound(content: string, needle: string, p: nat)
    requires Only(content, needle, p)
    ensures MatchIndices(content, needle, 0) == [p]
  {
    hide Occurs, MatchIndices;
    var found := MatchIndices(content, needle, 0);
    FoundOccur(content, needle, 0);
    var k := OccursIsFound(content, needle, 0, p);
    assert found[0] == p;
    assert found[|found| - 1] == p;
  }

  lemma AbsentIsNotFound(content: string, needle: string)
    ensures MatchIndices(content, needle, 0) == [] <==> !Present(content, needle)
  {
    hide Occurs, MatchIndices;
    FoundOccur(content, needle, 0);
    if i: int :| Occurs(content, needle, i) {
      OccursStartsAtNat(content, needle, i);
      var k := OccursIsFound(content, needle, 0, i);
    }
    var found := MatchIndices(content, needle, 0);
    if found != [] {
      assert Occurs(content, needle, found[0]);
    }
  }

  lemma OccursStartsAtNat(content: string, needle: string, i: int)
    ensures Occurs(content, needle, i) ==> 0 <= i && i + |needle| <= |content|
  {
  }

  /** Whether a marker has its line to itself. */
  predicate Standalone(content: string, index: nat, marker: string) {
    var after := index + |marker|;
    && after <= |content|
    && (index == 0 || content[index - 1] == '\n')
    && (|| after == |content|
        || content[after] == '\n'
        || (content[after] == '\r' && after + 1 < |content| && content[after + 1] == '\n'))
  }

  predicate NewlineFree(s: string) { forall i :: 0 <= i < |s| ==> s[i] != '\n' && s[i] != '\r' }

  predicate IsNewline(c: char) { c == '\n' || c == '\r' }

  /** A match that covers a line-break position would hold a line break. */
  lemma NoBreakInside(content: string, needle: string, i: int, at: nat)
    requires NewlineFree(needle) && at < |content| && IsNewline(content[at])
    ensures Occurs(content, needle, i) ==> at < i || i + |needle| <= at
  {
    if 0 <= i <= at < i + |needle| <= |content| {
      assert content[i..i + |needle|][at - i] == content[at];
    }
  }

  /** A single greedy match that stands alone is the only occurrence, overlapping ones included. */
  lemma FoundAloneIsOnly(content: string, needle: string, p: nat)
    requires needle != "" && NewlineFree(needle)
    requires MatchIndices(content, needle, 0) == [p]
    requires Standalone(content, p, needle)
    ensures Only(content, needle, p)
  {
    hide Occurs, MatchIndices, NewlineFree;
    FoundOccur(content, needle, 0);
    assert MatchIndices(content, needle, 0)[0] == p;
    forall i: int ensures Occurs(content, needle, i) <==> i == p {
      OccursStartsAtNat(content, needle, i);
      if Occurs(content, needle, i) {
        var k := OccursIsFound(content, needle, 0, i);
        if p + |needle| < |content| {
          NoBreakInside(content, needle, i, p + |needle|);
        }
      }
    }
  }

  // ----- line endings -----

  ghost predicate HasCrLf(s: string) { Present(s, CRLF) }

  /** CRLF when the text uses it anywhere. */
  function DetectEol(content: string): (eol: string)
    ensures eol == CRLF <==> HasCrLf(content)
    ensures eol == LF || eol == CRLF
  {
    AbsentIsNotFound(content, CRLF);
    if MatchIndices(content, CRLF, 0) != [] then CRLF else LF
  }

  lemma CrLfAt(s: string, i: int)
    ensures Occurs(s, CRLF, i) <==> 0 <= i < |s| - 1 && s[i] == '\r' && s[i + 1] == '\n'
  {
    if 0 <= i < |s| - 1 {
      assert s[i..i + 2] == [s[i], s[i + 1]];
    }
  }

  /** A CRLF of a concatenation lies in one part or is made at the seam. */
  lemma CrLfOfConcat(a: string, b: string)
    ensures HasCrLf(a + b) <==>
            HasCrLf(a) || HasCrLf(b) || (a != "" && b != "" && a[|a| - 1] == '\r' && b[0] == '\n')
  {
    var s := a + b;
    forall i: int ensures Occurs(s, CRLF, i) <==>
      Occurs(a, CRLF, i) || Occurs(b, CRLF, i - |a|)
      || (i == |a| - 1 && a != "" && b != "" && a[|a| - 1] == '\r' && b[0] == '\n')
    {
      CrLfAt(s, i);
      CrLfAt(a, i);
      CrLfAt(b, i - |a|);
    }
    if HasCrLf(a) {
      var i :| Occurs(a, CRLF, i);
      assert Occurs(s, CRLF, i);
    }
    if HasCrLf(b) {
      var i :| Occurs(b, CRLF, i);
      assert Occurs(s, CRLF, (i + |a|) - 0);
    }
    if a != "" && b != "" && a[|a| - 1] == '\r' && b[0] == '\n' {
      assert Occurs(s, CRLF, |a| - 1);
    }
  }

  // ----- planning -----

  function Conflicted(reason: Reason): Edit { Edit(Conflict, reason, None, None) }

  /** What goes between the old text and an appended block. */
  function Separator(content: string, eol: string): string {
    if content == "" then ""
    else if content[|content| - 1] == '\n' then eol
    else eol + eol
  }

  /** The edit, computed without writing. */
  function PlanBlockEdit(spec: Spec, current: File): (edit: Edit)
    ensures edit.desired.None? <==> edit.action == Noop || edit.action == Conflict
  {
    match current
    case Absent =>
      var after := spec.render(LF);
      Edit(Create, NoFile, Some(after + LF), Some(Change(None, after)))
    case NotText => Conflicted(InvalidEncoding)
    case Text(content) =>
      var starts := MatchIndices(content, spec.start, 0);
      var ends := MatchIndices(content, spec.end, 0);
      var eol := DetectEol(content);
      FoundOccur(content, spec.start, 0);
      FoundOccur(content, spec.end, 0);
      if starts == [] && ends == [] then
        if spec.legacy(content) then
          var after := spec.render(eol);
          Edit(Migrate, Legacy, Some(after + eol), Some(Change(None, after)))
        else if spec.pointing(content) then Edit(Noop, Exact, None, None)
        else
          var after := spec.render(eol);
          Edit(Update, Append, Some(content + Separator(content, eol) + after + eol), Some(Change(None, after)))
      else if |starts| != 1 || |ends| != 1 || starts[0] >= ends[0]
              || !Standalone(content, starts[0], spec.start) || !Standalone(content, ends[0], spec.end) then
        Conflicted(MalformedMarkers)
      else
        var blockEnd := ends[0] + |spec.end|;
        var before := content[starts[0]..blockEnd];
        if |before| > spec.maxBlockBytes then Conflicted(TooLarge)
        else
          var after := spec.render(eol);
          var desired := content[..starts[0]] + after + content[blockEnd..];
          if desired == content then Edit(Noop, Exact, None, None)
          else Edit(Update, Replace, Some(desired), Some(Change(Some(before), after)))
  }

  /** The file after the planned edit is carried out. */
  function Applied(spec: Spec, current: File): File {
    var edit := PlanBlockEdit(spec, current);
    if edit.desired.Some? then Text(edit.desired.value) else current
  }

  // ----- what the plan does, said over occurrences -----

  predicate MarkersOk(spec: Spec) {
    && spec.start != "" && NewlineFree(spec.start)
    && spec.end != "" && NewlineFree(spec.end)
  }

  /** One block: each marker occurs once, alone on its line, the start marker first. */
  ghost predicate OneBlock(spec: Spec, content: string, p: nat, e: nat) {
    && Only(content, spec.start, p) && Only(content, spec.end, e) && p < e
    && Occurs(content, spec.start, p) && Occurs(content, spec.end, e)
    && Standalone(content, p, spec.start) && Standalone(content, e, spec.end)
  }

  ghost predicate Unmarked(spec: Spec, content: string) {
    !Present(content, spec.start) && !Present(content, spec.end)
  }

  /** Only the block's own bytes are replaced, and only when that changes the file. */
  lemma BlockIsReplaced(spec: Spec, content: string, p: nat, e: nat)
    requires OneBlock(spec, content, p, e)
    ensures var q := e + |spec.end|;
            var edit := PlanBlockEdit(spec, Text(content));
            var after := spec.render(DetectEol(content));
            && p < q <= |content|
            && (q - p > spec.maxBlockBytes ==> edit == Conflicted(TooLarge))
            && (q - p <= spec.maxBlockBytes ==>
                  && Applied(spec, Text(content)) == Text(content[..p] + after + content[q..])
                  && (edit.action == Noop <==> content[p..q] == after)
                  && (edit.action != Noop ==>
                        edit.action == Update && edit.reason == Replace
                        && edit.change == Some(Change(Some(content[p..q]), after))))
  {
    hide MatchIndices, Only, Standalone, DetectEol;
    OnlyIsFound(content, spec.start, p);
    OnlyIsFound(content, spec.end, e);
    var q := e + |spec.end|;
    var after := spec.render(DetectEol(content));
    var desired := content[..p] + after + content[q..];
    assert content == content[..p] + content[p..q] + content[q..];
    if desired == content {
      assert |after| == q - p;
      assert after == desired[p..q];
    }
  }

  /** A file without markers keeps its whole text in front of an appended block. */
  lemma UnmarkedIsAppended(spec: Spec, content: string)
    requires Unmarked(spec, content)
    ensures var edit := PlanBlockEdit(spec, Text(content));
            var eol := DetectEol(content);
            && (edit.reason == Append <==> !spec.legacy(content) && !spec.pointing(content))
            && (edit.reason == Append ==>
                  && content <= edit.desired.value
                  && edit.desired.value[|content|..] == Separator(content, eol) + spec.render(eol) + eol)
            && (spec.legacy(content) ==> edit.desired == Some(spec.render(eol) + eol) && edit.reason == Legacy)
            && (!spec.legacy(content) && spec.pointing(content) ==> edit.action == Noop)
  {
    hide MatchIndices, Present, Separator, DetectEol;
    AbsentIsNotFound(content, spec.start);
    AbsentIsNotFound(content, spec.end);
    var eol := DetectEol(content);
    assert content + Separator(content, eol) + spec.render(eol) + eol
        == content + (Separator(content, eol) + spec.render(eol) + eol);
  }

  /** When an edit is refused, in terms of what the file holds. */
  lemma ConflictsExactly(spec: Spec, current: File)
    requires MarkersOk(spec)
    ensures PlanBlockEdit(spec, current).action == Conflict <==>
            || current.NotText?
            || (current.Text? && !Unmarked(spec, current.content)
                && !(exists p: nat, e: nat :: OneBlock(spec, current.content, p, e)
                                              && e + |spec.end| - p <= spec.maxBlockBytes))
  {
    hide MatchIndices, OneBlock, Present, Only, Occurs, DetectEol, NewlineFree;
    if current.Text? {
      var content := current.content;
      AbsentIsNotFound(content, spec.start);
      AbsentIsNotFound(content, spec.end);
      var starts := MatchIndices(content, spec.start, 0);
      var ends := MatchIndices(content, spec.end, 0);
      if p: nat, e: nat :| OneBlock(spec, content, p, e) {
        BlockIsReplaced(spec, content, p, e);
        forall p': nat, e': nat | OneBlock(spec, content, p', e') ensures p' == p && e' == e {
          OneBlockIsUnique(spec, content, p, e, p', e');
        }
        assert Occurs(content, spec.start, p) by { OneBlockStarts(spec, content, p, e); }
        PresentAt(content, spec.start, p);
      } else if |starts| == 1 && |ends| == 1 && starts[0] < ends[0]
                && Standalone(content, starts[0], spec.start) && Standalone(content, ends[0], spec.end) {
        BlockFound(spec, content, starts[0], ends[0]);
      }
    }
  }

  lemma PresentAt(content: string, needle: string, p: nat)
    requires Occurs(content, needle, p)
    ensures Present(content, needle)
  {
  }

  lemma OneBlockStarts(spec: Spec, content: string, p: nat, e: nat)
    requires OneBlock(spec, content, p, e)
    ensures Occurs(content, spec.start, p)
  {
  }

  lemma OneBlockIsUnique(spec: Spec, content: string, p: nat, e: nat, p': nat, e': nat)
    requires OneBlock(spec, content, p, e) && OneBlock(spec, content, p', e')
    ensures p == p' && e == e'
  {
  }

  lemma BlockFound(spec: Spec, content: string, p: nat, e: nat)
    requires MarkersOk(spec) && p < e
    requires MatchIndices(content, spec.start, 0) == [p] && Standalone(content, p, spec.start)
    requires MatchIndices(content, spec.end, 0) == [e] && Standalone(content, e, spec.end)
    ensures OneBlock(spec, content, p, e)
  {
    hide MatchIndices, Occurs, NewlineFree, Standalone;
    FoundAloneIsOnly(content, spec.start, p);
    FoundAloneIsOnly(content, spec.end, e);
  }

  // ----- planning again -----

  /** A rendered block begins with its start marker, ends with its end marker, and holds each once. */
  ghost predicate BlockOk(spec: Spec, r: string) {
    && |spec.end| <= |r|
    && OneBlock(spec, r, 0, |r| - |spec.end|)
    && |r| <= spec.maxBlockBytes
  }

  /** What every caller's block satisfies: several lines, rendered with the line ending asked for. */
  ghost predicate SpecOk(spec: Spec) {
    && MarkersOk(spec)
    && BlockOk(spec, spec.render(LF)) && !HasCrLf(spec.render(LF))
    && BlockOk(spec, spec.render(CRLF)) && HasCrLf(spec.render(CRLF))
  }

  predicate EndsLine(s: string) { s == "" || s[|s| - 1] == '\n' }

  predicate StartsLine(s: string) {
    || s == ""
    || s[0] == '\n'
    || (s[0] == '\r' && |s| > 1 && s[1] == '\n')
  }

  /** In text framed by line breaks a newline-free needle lies in one of the three parts. */
  lemma OccursInFrame(pre: string, r: string, post: string, needle: string, i: int)
    requires needle != "" && NewlineFree(needle) && EndsLine(pre) && StartsLine(post)
    ensures Occurs(pre + r + post, needle, i) <==>
            Occurs(pre, needle, i) || Occurs(r, needle, i - |pre|) || Occurs(post, needle, i - |pre| - |r|)
  {
    hide NewlineFree;
    var s := pre + r + post;
    if pre != "" {
      NoBreakInside(s, needle, i, |pre| - 1);
    }
    if post != "" {
      NoBreakInside(s, needle, i, |pre| + |r|);
    }
    OccursInPart(s, needle, i, 0, pre);
    OccursInPart(s, needle, i, |pre|, r);
    OccursInPart(s, needle, i, |pre| + |r|, post);
  }

  /** Inside one part the text and the part have the same occurrences. */
  lemma OccursInPart(s: string, needle: string, i: int, at: nat, part: string)
    requires at + |part| <= |s| && s[at..at + |part|] == part
    ensures at <= i && i + |needle| <= at + |part| ==> (Occurs(s, needle, i) <==> Occurs(part, needle, i - at))
  {
    if at <= i && i + |needle| <= at + |part| {
      assert forall k: nat :: k < |part| ==> part[k] == s[at..at + |part|][k] == s[at + k];
      assert part[i - at..i - at + |needle|] == s[i..i + |needle|];
    }
  }

  /** A block put between two unmarked texts, on lines of its own, is the one block of the result. */
  lemma PlantedIsOneBlock(spec: Spec, pre: string, r: string, post: string)
    requires MarkersOk(spec) && |spec.end| <= |r| && OneBlock(spec, r, 0, |r| - |spec.end|)
    requires Unmarked(spec, pre) && Unmarked(spec, post) && EndsLine(pre) && StartsLine(post)
    ensures OneBlock(spec, pre + r + post, |pre|, |pre| + |r| - |spec.end|)
  {
    hide NewlineFree, Occurs, StartsLine;
    var s := pre + r + post;
    forall i: int ensures Occurs(s, spec.start, i) <==> i == |pre| {
      OccursInFrame(pre, r, post, spec.start, i);
    }
    forall i: int ensures Occurs(s, spec.end, i) <==> i == |pre| + |r| - |spec.end| {
      OccursInFrame(pre, r, post, spec.end, i);
    }
    StandsInFrame(spec, pre, r, post);
  }

  lemma StandsInFrame(spec: Spec, pre: string, r: string, post: string)
    requires MarkersOk(spec) && |spec.end| <= |r| && OneBlock(spec, r, 0, |r| - |spec.end|)
    requires EndsLine(pre) && StartsLine(post)
    ensures var s := pre + r + post;
            Standalone(s, |pre|, spec.start) && Standalone(s, |pre| + |r| - |spec.end|, spec.end)
  {
    hide Only, Occurs, Present, NewlineFree;
    var e := |r| - |spec.end|;
    NoBreakInside(r, spec.start, 0, e - 1);
    var s := pre + r + post;
    assert forall i :: 0 <= i < |r| ==> s[|pre| + i] == r[i];
    assert post != "" ==> s[|pre| + |r|] == post[0];
    assert |post| > 1 ==> s[|pre| + |r| + 1] == post[1];
  }

  /** The text around the one block holds no marker and breaks its lines at the block. */
  lemma AroundIsUnmarked(spec: Spec, content: string, p: nat, e: nat)
    requires MarkersOk(spec) && OneBlock(spec, content, p, e)
    ensures var q := e + |spec.end|;
            q <= |content| && p < q && Unmarked(spec, content[..p]) && Unmarked(spec, content[q..])
            && EndsLine(content[..p]) && StartsLine(content[q..])
  {
    var q := e + |spec.end|;
    NoneAround(content, spec.start, p, p, q);
    NoneAround(content, spec.end, e, p, q);
  }

  lemma NoneAround(content: string, needle: string, at: nat, p: nat, q: nat)
    requires Only(content, needle, at) && needle != "" && p <= at < q <= |content|
    ensures !Present(content[..p], needle) && !Present(content[q..], needle)
  {
    hide Occurs;
    forall i: int ensures !Occurs(content[..p], needle, i) && !Occurs(content[q..], needle, i) {
      OccursStartsAtNat(content[..p], needle, i);
      OccursStartsAtNat(content[q..], needle, i);
      assert content[0..0 + |content[..p]|] == content[..p];
      OccursInPart(content, needle, i, 0, content[..p]);
      OccursInPart(content, needle, i + q, q, content[q..]);
    }
  }

  /** Planning over a planted block of the right size keeps everything around it. */
  lemma PlantedPlan(spec: Spec, pre: string, r: string, post: string)
    requires MarkersOk(spec) && BlockOk(spec, r)
    requires Unmarked(spec, pre) && Unmarked(spec, post) && EndsLine(pre) && StartsLine(post)
    ensures var s := pre + r + post;
            var after := spec.render(DetectEol(s));
            && Applied(spec, Text(s)) == Text(pre + after + post)
            && (PlanBlockEdit(spec, Text(s)).desired.None? <==> r == after)
  {
    hide OneBlock, Unmarked, EndsLine, StartsLine, DetectEol, Applied, PlanBlockEdit;
    PlantedIsOneBlock(spec, pre, r, post);
    var s := pre + r + post;
    BlockIsReplaced(spec, s, |pre|, |pre| + |r| - |spec.end|);
    assert s[..|pre|] == pre && s[|pre|..|pre| + |r|] == r && s[|pre| + |r|..] == post;
  }

  /** The reason an edit gives away which file it was planned for. */
  lemma WritesKnown(spec: Spec, content: string)
    requires MarkersOk(spec) && PlanBlockEdit(spec, Text(content)).desired.Some?
    ensures PlanBlockEdit(spec, Text(content)).reason == Replace
            ==> exists p: nat, e: nat :: OneBlock(spec, content, p, e) && e + |spec.end| - p <= spec.maxBlockBytes
    ensures PlanBlockEdit(spec, Text(content)).reason != Replace ==> Unmarked(spec, content)
  {
    hide OneBlock, MatchIndices, DetectEol;
    ConflictsExactly(spec, Text(content));
    AbsentIsNotFound(content, spec.start);
    AbsentIsNotFound(content, spec.end);
  }

  /** Text made of line breaks holds no newline-free needle. */
  lemma BreaksHoldNothing(breaks: string, needle: string)
    requires needle != "" && NewlineFree(needle)
    requires forall i :: 0 <= i < |breaks| ==> IsNewline(breaks[i])
    ensures !Present(breaks, needle)
  {
    forall i: int ensures !Occurs(breaks, needle, i) {
      if 0 <= i < |breaks| {
        NoBreakInside(breaks, needle, i, i);
      }
    }
  }

  /** Text with line breaks behind it holds a needle only where the text does. */
  lemma BreaksBehind(content: string, breaks: string, needle: string)
    requires needle != "" && NewlineFree(needle) && StartsLine(breaks)
    requires forall i :: 0 <= i < |breaks| ==> IsNewline(breaks[i])
    ensures Present(content + breaks, needle) <==> Present(content, needle)
  {
    hide Occurs, NewlineFree, StartsLine, IsNewline;
    BreaksHoldNothing(breaks, needle);
    assert "" + content + breaks == content + breaks;
    forall i: int ensures Occurs(content + breaks, needle, i) <==> Occurs(content, needle, i) {
      OccursInFrame("", content, breaks, needle, i);
      OccursStartsAtNat("", needle, i);
      assert Occurs("" + content + breaks, needle, i) == Occurs(content + breaks, needle, i);
    }
  }

  /** Which texts an edit writes a fresh block between, and the line ending it uses. */
  datatype Frame = Frame(pre: string, post: string, eol: string)

  function FrameOf(spec: Spec, current: File): Frame
    requires current.Text? ==> PlanBlockEdit(spec, current).reason != Replace
  {
    match current
    case Text(content) =>
      var eol := DetectEol(content);
      if PlanBlockEdit(spec, current).reason == Append then Frame(content + Separator(content, eol), eol, eol)
      else Frame("", eol, eol)
    case _ => Frame("", LF, LF)
  }

  predicate IsEol(eol: string) { eol == LF || eol == CRLF }

  lemma SeparatorBreaks(content: string, eol: string)
    requires IsEol(eol)
    ensures var sep := Separator(content, eol);
            && StartsLine(sep) && EndsLine(content + sep)
            && (forall i :: 0 <= i < |sep| ==> IsNewline(sep[i]))
            && (eol == LF ==> (HasCrLf(content + sep) <==> HasCrLf(content)
                                                           || (content != "" && content[|content| - 1] == '\r')))
  {
    hide Present;
    var sep := Separator(content, eol);
    CrLfOfConcat(content, sep);
    if eol == LF {
      NoCrInBreaks(sep);
    }
  }

  lemma NoCrInBreaks(s: string)
    requires forall i :: 0 <= i < |s| ==> s[i] == '\n'
    ensures !HasCrLf(s)
  {
    forall i: int ensures !Occurs(s, CRLF, i) {
      CrLfAt(s, i);
    }
  }

  /** A fresh block is written between unmarked texts on lines of its own. */
  lemma FreshIsFramed(spec: Spec, current: File)
    requires MarkersOk(spec) && PlanBlockEdit(spec, current).desired.Some?
    requires PlanBlockEdit(spec, current).reason != Replace
    ensures var f := FrameOf(spec, current);
            && PlanBlockEdit(spec, current).desired == Some(f.pre + spec.render(f.eol) + f.post)
            && Unmarked(spec, f.pre) && Unmarked(spec, f.post) && EndsLine(f.pre) && StartsLine(f.post)
            && IsEol(f.eol) && f.post == f.eol
            && (f.eol == LF ==> (HasCrLf(f.pre) <==> EndsInBareCr(spec, current)))
  {
    var f := FrameOf(spec, current);
    FreshIsDesired(spec, current);
    hide MatchIndices, Present, NewlineFree, DetectEol, Separator;
    BreaksHoldNothing(f.eol, spec.start);
    BreaksHoldNothing(f.eol, spec.end);
    BreaksHoldNothing("", spec.start);
    BreaksHoldNothing("", spec.end);
    NoCrInBreaks("");
    if current.Text? {
      WritesKnown(spec, current.content);
      AppendsExactly(spec, current.content);
      hide PlanBlockEdit, StartsLine;
      SeparatorBreaks(current.content, f.eol);
      var separator := Separator(current.content, f.eol);
      BreaksBehind(current.content, separator, spec.start);
      BreaksBehind(current.content, separator, spec.end);
    }
  }

  lemma FreshIsDesired(spec: Spec, current: File)
    requires PlanBlockEdit(spec, current).desired.Some? && PlanBlockEdit(spec, current).reason != Replace
    ensures var f := FrameOf(spec, current);
            PlanBlockEdit(spec, current).desired == Some(f.pre + spec.render(f.eol) + f.post)
  {
    hide MatchIndices, DetectEol;
    var f := FrameOf(spec, current);
    assert "" + spec.render(f.eol) == spec.render(f.eol);
  }

  /** The one family of files the editor does not settle at once. */
  ghost predicate EndsInBareCr(spec: Spec, current: File) {
    && current.Text?
    && Unmarked(spec, current.content) && !spec.legacy(current.content) && !spec.pointing(current.content)
    && DetectEol(current.content) == LF
    && current.content != "" && current.content[|current.content| - 1] == '\r'
  }

  /** A block is appended to exactly the unmarked files that are neither legacy nor pointing. */
  lemma AppendsExactly(spec: Spec, content: string)
    ensures PlanBlockEdit(spec, Text(content)).reason == Append
            <==> Unmarked(spec, content) && !spec.legacy(content) && !spec.pointing(content)
  {
    hide MatchIndices, Present, DetectEol;
    AbsentIsNotFound(content, spec.start);
    AbsentIsNotFound(content, spec.end);
  }

  /** Around a block the line breaks make no new CRLF. */
  lemma CrLfInFrame(spec: Spec, pre: string, r: string, post: string)
    requires MarkersOk(spec) && BlockOk(spec, r) && EndsLine(pre)
    ensures HasCrLf(pre + r + post) <==> HasCrLf(pre) || HasCrLf(r) || HasCrLf(post)
  {
    hide Only, Standalone, Present;
    assert spec.end[|spec.end| - 1] == r[|r| - |spec.end|..][|spec.end| - 1] == r[|r| - 1];
    CrLfOfConcat(pre, r);
    CrLfOfConcat(pre + r, post);
  }

  lemma PartsHaveNoCrLf(content: string, p: nat, q: nat)
    requires p <= q <= |content| && !HasCrLf(content)
    ensures !HasCrLf(content[..p]) && !HasCrLf(content[q..])
  {
    hide HasCrLf;
    CrLfOfConcat(content[..p], content[p..]);
    CrLfOfConcat(content[..q], content[q..]);
    assert content[..p] + content[p..] == content && content[..q] + content[q..] == content;
  }

  /** What an edit writes: a rendered block between two unmarked texts on lines of its own. */
  lemma WrittenIsPlanted(spec: Spec, current: File) returns (f: Frame)
    requires SpecOk(spec) && PlanBlockEdit(spec, current).desired.Some?
    ensures Applied(spec, current) == Text(f.pre + spec.render(f.eol) + f.post)
    ensures Unmarked(spec, f.pre) && Unmarked(spec, f.post) && EndsLine(f.pre) && StartsLine(f.post)
    ensures IsEol(f.eol)
    ensures f.eol == LF ==> (HasCrLf(f.pre) || HasCrLf(f.post) <==> EndsInBareCr(spec, current))
    ensures f.eol == CRLF ==> !EndsInBareCr(spec, current)
  {
    hide MatchIndices, Present, NewlineFree, OneBlock, EndsLine, StartsLine, Unmarked, DetectEol;
    if PlanBlockEdit(spec, current).reason == Replace {
      WritesKnown(spec, current.content);
      var content := current.content;
      var p: nat, e: nat :| OneBlock(spec, content, p, e) && e + |spec.end| - p <= spec.maxBlockBytes;
      var q := e + |spec.end|;
      AppendsExactly(spec, content);
      BlockIsReplaced(spec, content, p, e);
      AroundIsUnmarked(spec, content, p, e);
      f := Frame(content[..p], content[q..], DetectEol(content));
      if f.eol == LF {
        PartsHaveNoCrLf(content, p, q);
      }
    } else {
      FreshIsFramed(spec, current);
      f := FrameOf(spec, current);
      NoCrInBreaks(LF);
    }
  }

  /** Blocks rendered for a line ending carry it. */
  lemma RenderedEol(spec: Spec, eol: string)
    requires SpecOk(spec) && IsEol(eol)
    ensures BlockOk(spec, spec.render(eol)) && (HasCrLf(spec.render(eol)) <==> eol == CRLF)
  {
  }

  /**
   Planning again over the written file changes nothing, except exactly when the block was appended
   to LF text ending in a bare CR: that CR and the separator become a CRLF, and the block is
   rendered once more with CRLF. A third planning never changes anything.
   */
  lemma ReplanSettles(spec: Spec, current: File)
    requires SpecOk(spec)
    ensures var once := Applied(spec, current);
            var twice := Applied(spec, once);
            && (PlanBlockEdit(spec, once).desired.None? <==> !EndsInBareCr(spec, current))
            && PlanBlockEdit(spec, twice).desired.None?
            && Applied(spec, twice) == twice
  {
    hide MatchIndices, Present, NewlineFree, OneBlock, EndsLine, StartsLine, Unmarked, BlockOk, PlanBlockEdit, MarkersOk;
    if PlanBlockEdit(spec, current).desired.Some? {
      var f := WrittenIsPlanted(spec, current);
      RenderedEol(spec, f.eol);
      CrLfInFrame(spec, f.pre, spec.render(f.eol), f.post);
      PlantedPlan(spec, f.pre, spec.render(f.eol), f.post);
      RenderedEol(spec, CRLF);
      RenderedEol(spec, LF);
      CrLfInFrame(spec, f.pre, spec.render(CRLF), f.post);
      PlantedPlan(spec, f.pre, spec.render(CRLF), f.post);
    } else {
      NoEditNoCr(spec, current);
    }
  }

  lemma NoEditNoCr(spec: Spec, current: File)
    requires PlanBlockEdit(spec, current).desired.None?
    ensures !EndsInBareCr(spec, current)
  {
    hide MatchIndices, DetectEol;
    if current.Text? {
      AppendsExactly(spec, current.content);
    }
  }

  lemma OneCharNoCrLf(c: char)
    ensures DetectEol([c]) == LF
  {
    hide MatchIndices;
    forall i: int ensures !Occurs([c], CRLF, i) {
      CrLfAt([c], i);
    }
  }

  /** The shortest such file: a lone CR. */
  lemma BareCrIsRewritten(spec: Spec)
    requires SpecOk(spec) && !spec.legacy("\r") && !spec.pointing("\r")
    ensures Applied(spec, Text("\r")) == Text("\r\n\n" + spec.render(LF) + LF)
    ensures PlanBlockEdit(spec, Applied(spec, Text("\r"))).desired.Some?
  {
    hide MatchIndices, Present, NewlineFree, BlockOk, DetectEol;
    BreaksHoldNothing("\r", spec.start);
    BreaksHoldNothing("\r", spec.end);
    OneCharNoCrLf('\r');
    AbsentIsNotFound("\r", spec.start);
    AbsentIsNotFound("\r", spec.end);
    assert Separator("\r", LF) == "\n\n" && "\r" + "\n\n" == "\r\n\n";
    ReplanSettles(spec, Text("\r"));
  }

  // ----- many versions of the block -----

  function AppliedAll(specs: seq<Spec>, current: File): File {
    if specs == [] then current else AppliedAll(specs[1..], Applied(specs[0], current))
  }

  /** One edit of a file that holds a block. */
  lemma EditKeepsOutside(spec: Spec, content: string, p: nat, e: nat) returns (r: string)
    requires SpecOk(spec) && OneBlock(spec, content, p, e)
    ensures e + |spec.end| <= |content| && p < e + |spec.end|
    ensures var after := content[..p] + r + content[e + |spec.end|..];
            && Applied(spec, Text(content)) == Text(after)
            && |spec.end| <= |r| && p + |r| - |spec.end| >= 0
            && OneBlock(spec, after, p, p + |r| - |spec.end|)
    ensures r == content[p..e + |spec.end|] || (exists eol :: IsEol(eol) && r == spec.render(eol))
  {
    hide OneBlock, MatchIndices, Present, NewlineFree, EndsLine, StartsLine, Unmarked, PlanBlockEdit, Only, Standalone, DetectEol;
    var q := e + |spec.end|;
    AroundIsUnmarked(spec, content, p, e);
    BlockIsReplaced(spec, content, p, e);
    hide Applied;
    if q - p <= spec.maxBlockBytes {
      r := spec.render(DetectEol(content));
      assert IsEol(DetectEol(content));
      RenderedEol(spec, DetectEol(content));
      PlantedIsOneBlock(spec, content[..p], r, content[q..]);
    } else {
      r := content[p..q];
      assert content == content[..p] + r + content[q..];
    }
  }

  /**
   Over any run of edits with the same markers, whatever each version renders and whatever stands
   between the markers now, every byte before and after the block survives.
   */
  lemma {:induction false} OutsideSurvives(specs: seq<Spec>, content: string, p: nat, e: nat)
    returns (block: string)
    requires specs != [] && forall i :: 0 <= i < |specs| ==> SpecOk(specs[i])
    requires forall i :: 0 <= i < |specs| ==> specs[i].start == specs[0].start && specs[i].end == specs[0].end
    requires OneBlock(specs[0], content, p, e) && p <= e + |specs[0].end| <= |content|
    ensures AppliedAll(specs, Text(content)) == Text(content[..p] + block + content[e + |specs[0].end|..])
    ensures block == content[p..e + |specs[0].end|]
            || exists i, eol :: 0 <= i < |specs| && IsEol(eol) && block == specs[i].render(eol)
    decreases |specs|
  {
    hide Applied, SpecOk, OneBlock;
    var spec := specs[0];
    var q := e + |spec.end|;
    var r := EditKeepsOutside(spec, content, p, e);
    var pre, post := content[..p], content[q..];
    var after := pre + r + post;
    if |specs| == 1 {
      block := r;
      assert specs[1..] == [];
    } else {
      var e' := p + |r| - |spec.end|;
      SameMarkersSameBlock(spec, specs[1], after, p, e');
      assert after[..p] == pre && after[e' + |spec.end|..] == post && after[p..e' + |spec.end|] == r;
      block := OutsideSurvives(specs[1..], after, p, e');
      if block != r {
        var i, eol :| 0 <= i < |specs[1..]| && IsEol(eol) && block == specs[1..][i].render(eol);
        assert block == specs[i + 1].render(eol);
      }
    }
  }

  lemma SameMarkersSameBlock(a: Spec, b: Spec, content: string, p: nat, e: nat)
    requires a.start == b.start && a.end == b.end && OneBlock(a, content, p, e)
    ensures OneBlock(b, content, p, e)
  {
  }

  // ----- the blocks the callers render -----

  /** Lines, each with its line ending. */
  function Lines(lines: seq<string>, eol: string): string {
    if lines == [] then "" else lines[0] + eol + Lines(lines[1..], eol)
  }

  /** Marker, body lines, marker, joined by the line ending. */
  function RenderLines(start: string, body: seq<string>, end: string, eol: string): string {
    start + (eol + Lines(body, eol)) + end
  }

  /** A line without breaks and without either marker. */
  ghost predicate PlainLine(spec: Spec, line: string) { NewlineFree(line) && Unmarked(spec, line) }

  lemma {:induction false} LinesArePlain(spec: Spec, lines: seq<string>, eol: string)
    requires MarkersOk(spec) && IsEol(eol)
    requires forall i :: 0 <= i < |lines| ==> PlainLine(spec, lines[i])
    ensures Unmarked(spec, Lines(lines, eol)) && EndsLine(Lines(lines, eol))
    ensures eol == LF ==> !HasCrLf(Lines(lines, eol))
  {
    hide NewlineFree, Occurs;
    if lines == [] {
      BreaksHoldNothing("", spec.start);
      BreaksHoldNothing("", spec.end);
      NoCrInBreaks("");
    } else {
      LinesArePlain(spec, lines[1..], eol);
      BreaksBehind(lines[0], eol, spec.start);
      BreaksBehind(lines[0], eol, spec.end);
      var pre, rest := lines[0] + eol, Lines(lines[1..], eol);
      assert pre + rest + "" == pre + rest;
      forall i: int ensures !Occurs(pre + rest, spec.start, i) && !Occurs(pre + rest, spec.end, i) {
        OccursInFrame(pre, rest, "", spec.start, i);
        OccursInFrame(pre, rest, "", spec.end, i);
        OccursStartsAtNat("", spec.start, i - |pre| - |rest|);
        OccursStartsAtNat("", spec.end, i - |pre| - |rest|);
      }
      LineEnding(lines[0], rest);
    }
  }

  lemma LineEnding(line: string, rest: string)
    requires NewlineFree(line)
    ensures HasCrLf(line + LF + rest) <==> HasCrLf(rest)
  {
    NoCrInBreaks(LF);
    forall i: int ensures !Occurs(line, CRLF, i) {
      CrLfAt(line, i);
    }
    CrLfOfConcat(line, LF);
    CrLfOfConcat(line + LF, rest);
  }

  lemma LineHoldsItself(line: string)
    ensures Only(line, line, 0)
  {
    assert line[0..|line|] == line;
  }

  /** Every block made of plain lines between the markers is one the editor settles on. */
  lemma RenderedLinesOk(spec: Spec, body: seq<string>, eol: string)
    requires MarkersOk(spec) && IsEol(eol)
    requires !Present(spec.start, spec.end) && !Present(spec.end, spec.start)
    requires forall i :: 0 <= i < |body| ==> PlainLine(spec, body[i])
    requires |RenderLines(spec.start, body, spec.end, eol)| <= spec.maxBlockBytes
    ensures BlockOk(spec, RenderLines(spec.start, body, spec.end, eol))
    ensures HasCrLf(RenderLines(spec.start, body, spec.end, eol)) <==> eol == CRLF
  {
    hide NewlineFree, Occurs, Lines;
    var rest := eol + Lines(body, eol);
    var pre := spec.start + rest;
    var r := pre + spec.end;
    LinesArePlain(spec, body, eol);
    RestIsUnmarked(spec, body, eol);
    LineHoldsItself(spec.start);
    LineHoldsItself(spec.end);
    assert "" + spec.start + rest == pre && pre + spec.end + "" == r;
    forall i: int ensures Occurs(r, spec.start, i) <==> i == 0 {
      OccursTwice(spec.start, rest, spec.end, spec.start, i);
    }
    forall i: int ensures Occurs(r, spec.end, i) <==> i == |r| - |spec.end| {
      OccursTwice(spec.start, rest, spec.end, spec.end, i);
    }
    RenderedStands(spec.start, rest, spec.end);
    RenderedCrLf(spec, body, eol);
  }

  lemma OccursTwice(start: string, rest: string, end: string, needle: string, i: int)
    requires needle != "" && NewlineFree(needle) && rest != "" && StartsLine(rest) && EndsLine(rest)
    ensures Occurs(start + rest + end, needle, i) <==>
            Occurs(start, needle, i) || Occurs(rest, needle, i - |start|) || Occurs(end, needle, i - |start| - |rest|)
  {
    hide NewlineFree, Occurs;
    var pre := start + rest;
    assert "" + start + rest == pre && pre + end + "" == pre + end;
    OccursInFrame(pre, end, "", needle, i);
    OccursInFrame("", start, rest, needle, i);
    OccursStartsAtNat("", needle, i);
    OccursStartsAtNat("", needle, i - |pre| - |end|);
  }

  lemma RenderedStands(start: string, rest: string, end: string)
    requires rest != "" && StartsLine(rest) && EndsLine(rest)
    ensures var r := start + rest + end;
            Standalone(r, 0, start) && Standalone(r, |r| - |end|, end)
  {
    var r := start + rest + end;
    assert r[|start|] == rest[0] && r[|start| + |rest| - 1] == rest[|rest| - 1];
    assert |rest| > 1 ==> r[|start| + 1] == rest[1];
  }

  lemma RestIsUnmarked(spec: Spec, body: seq<string>, eol: string)
    requires MarkersOk(spec) && IsEol(eol)
    requires forall i :: 0 <= i < |body| ==> PlainLine(spec, body[i])
    ensures var rest := eol + Lines(body, eol);
            Unmarked(spec, rest) && StartsLine(rest) && EndsLine(rest)
  {
    LinesArePlain(spec, [""] + body, eol) by {
      BreaksHoldNothing("", spec.start);
      BreaksHoldNothing("", spec.end);
    }
    assert ([""] + body)[1..] == body;
    assert "" + eol == eol;
  }

  lemma RenderedCrLf(spec: Spec, body: seq<string>, eol: string)
    requires MarkersOk(spec) && IsEol(eol)
    requires forall i :: 0 <= i < |body| ==> PlainLine(spec, body[i])
    ensures HasCrLf(RenderLines(spec.start, body, spec.end, eol)) <==> eol == CRLF
  {
    var lines := Lines(body, eol);
    var r := RenderLines(spec.start, body, spec.end, eol);
    if eol == LF {
      LinesArePlain(spec, body, eol);
      LineEnding(spec.start, lines);
      assert spec.start + (LF + lines) == spec.start + LF + lines;
      forall i: int ensures !Occurs(spec.end, CRLF, i) {
        CrLfAt(spec.end, i);
      }
      CrLfOfConcat(spec.start + LF + lines, spec.end);
    } else {
      CrLfAt(r, |spec.start|);
      assert Occurs(r, CRLF, |spec.start|);
    }
  }

  /** Marker, plain lines and marker joined by the line ending: what both callers render. */
  lemma JoinedLinesSettle(spec: Spec, body: seq<string>)
    requires MarkersOk(spec) && !Present(spec.start, spec.end) && !Present(spec.end, spec.start)
    requires forall i :: 0 <= i < |body| ==> PlainLine(spec, body[i])
    requires forall eol :: IsEol(eol) ==>
               && spec.render(eol) == RenderLines(spec.start, body, spec.end, eol)
               && |spec.render(eol)| <= spec.maxBlockBytes
    ensures SpecOk(spec)
  {
    hide BlockOk, RenderLines, PlainLine, Present, MarkersOk;
    assert IsEol(LF) && IsEol(CRLF);
    RenderedLinesOk(spec, body, LF);
    RenderedLinesOk(spec, body, CRLF);
  }
}
