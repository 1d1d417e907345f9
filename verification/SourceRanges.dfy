/**
 Numbered source excerpts and the interval operations of the scope planner
 (src/graph/agent.rs). An excerpt's content string is kept as its sequence of lines;
 `Text.SplitJoin` and `Text.JoinSplit` show the two forms carry the same information.
 */
module SourceRanges {
  import opened Prelude
  import opened Text
  import opened Sorting

  type NodeId = string

  datatype Reason = WholeFile | CompleteSymbol | QueryHit | Callsite | Signature | TextOnly

  datatype SourceRange = SourceRange(
    start: int,
    end: int,
    nodeIds: seq<NodeId>,
    lines: seq<string>,
    truncated: bool,
    reason: Reason)

  datatype Node = Node(id: NodeId, filePath: string, start: int, end: int)

  type Nodes = map<NodeId, Node>

  /** A declaration of more lines is never offered whole. */
  const COMPLETE_DECLARATION_LINES := 160

  const SOURCE_DECLARATION_ANCHOR_LINES := 6

  // ----- Line numbers -----

  /** One numbered line: the number right-aligned in `width` columns, a colon, a blank, the text. */
  function Numbered(n: int, width: nat, text: string): string {
    PadLeft(Decimal(n), width) + ": " + text
  }

  /** The text after a leading decimal number, a colon and one optional blank. */
  function AfterNumber(t: string): Option<string> {
    var digits := DigitRun(t);
    if digits > 0 && digits < |t| && t[digits] == ':' then
      var rest := t[digits + 1..];
      Some(if rest != [] && rest[0] == ' ' then rest[1..] else rest)
    else
      None
  }

  function StripLineNumber(line: string): string {
    match AfterNumber(TrimStart(line))
    case Some(text) => text
    case None => line
  }

  lemma AfterDigits(d: string, text: string)
    requires d != [] && forall i :: 0 <= i < |d| ==> IsDigit(d[i])
    ensures AfterNumber(d + ": " + text) == Some(text)
    ensures !IsWhitespace((d + ": " + text)[0])
  {
    var t := d + ": " + text;
    assert t[0] == d[0];
    assert forall i :: 0 <= i < |d| ==> t[i] == d[i];
    assert t[|d|] == ':';
    DigitRunIs(t, |d|);
    assert t[|d| + 1..] == " " + text;
    assert (" " + text)[1..] == text;
  }

  lemma PaddedLine(d: string, width: nat, text: string, pad: nat)
    requires pad == if |d| >= width then 0 else width - |d|
    ensures PadLeft(d, width) + ": " + text == Spaces(pad) + (d + ": " + text)
  {
  }

  /** Stripping undoes numbering, whatever the text and the column width. */
  lemma StripUndoesNumbering(n: nat, width: nat, text: string)
    ensures StripLineNumber(Numbered(n, width, text)) == text
  {
    hide AfterNumber, TrimStart, PadLeft, Spaces, Digits;
    var d := Digits(n);
    var t := d + ": " + text;
    AfterDigits(d, text);
    var pad := if |d| >= width then 0 else width - |d|;
    PaddedLine(d, width, text, pad);
    TrimSpaces(pad, t);
  }

  /** The number stands at the right of its column, behind blanks. */
  lemma NumberIsAligned(n: nat, width: nat, text: string)
    ensures var line, d := Numbered(n, width, text), Digits(n);
            var pad := if |d| >= width then 0 else width - |d|;
            && |line| == pad + |d| + 2 + |text|
            && line == line[..pad] + d + ": " + text
            && (forall i :: 0 <= i < pad ==> line[i] == ' ')
  {
    hide Digits;
    var d := Digits(n);
    var pad := if |d| >= width then 0 else width - |d|;
    PaddedLine(d, width, text, pad);
    AllBlank(pad);
    assert PadLeft(d, width) == Spaces(pad) + d;
    var line := Numbered(n, width, text);
    assert line == Spaces(pad) + d + ": " + text;
    assert line[..pad] == Spaces(pad);
  }

  lemma {:induction false} AllBlank(n: nat)
    ensures forall i :: 0 <= i < n ==> Spaces(n)[i] == ' '
  {
    if n > 0 {
      AllBlank(n - 1);
    }
  }

  /** `line` is the numbered rendering of line `n` with text `text`, in some column width. */
  ghost predicate ShowsLine(line: string, n: int, text: string) {
    exists width: nat :: line == Numbered(n, width, text)
  }

  /** Every line of `r` is a numbered rendering of the line of `file` it stands for. */
  ghost predicate Shows(r: SourceRange, file: seq<string>) {
    && 1 <= r.start <= r.end <= |file|
    && |r.lines| == r.end - r.start + 1
    && forall i :: 0 <= i < |r.lines| ==> ShowsLine(r.lines[i], r.start + i, file[r.start + i - 1])
  }

  // ----- Coverage -----

  predicate Within(r: SourceRange, l: int) { r.start <= l <= r.end }

  ghost predicate Covers(rs: seq<SourceRange>, l: int) {
    exists i :: 0 <= i < |rs| && Within(rs[i], l)
  }

  lemma CoversAppend(a: seq<SourceRange>, b: seq<SourceRange>, l: int)
    ensures Covers(a + b, l) <==> Covers(a, l) || Covers(b, l)
  {
    if Covers(a, l) {
      var i :| 0 <= i < |a| && Within(a[i], l);
      assert (a + b)[i] == a[i];
    }
    if Covers(b, l) {
      var i :| 0 <= i < |b| && Within(b[i], l);
      assert (a + b)[|a| + i] == b[i];
    }
  }

  lemma CoversOne(r: SourceRange, l: int)
    ensures Covers([r], l) <==> Within(r, l)
  {
    if Within(r, l) {
      assert Within([r][0], l);
    }
  }

  ghost predicate AllShow(rs: seq<SourceRange>, file: seq<string>) {
    forall i :: 0 <= i < |rs| ==> Shows(rs[i], file)
  }

  /** Ascending, pairwise disjoint, and with at least one uncovered line between neighbours. */
  ghost predicate Separated(rs: seq<SourceRange>) {
    forall i, j :: 0 <= i < j < |rs| ==> rs[i].end + 1 < rs[j].start
  }

  // ----- Slicing -----

  /** Content lines `offset .. offset + count`; an empty slice renders as one empty line. */
  function SkipTake(lines: seq<string>, offset: nat, count: nat): seq<string> {
    var from := Min(offset, |lines|);
    var got := lines[from..Min(from + count, |lines|)];
    if got == [] then [""] else got
  }

  function SliceRange(r: SourceRange, start: int, end: int, nodeIds: seq<NodeId>): SourceRange {
    SourceRange(start, end, nodeIds,
                SkipTake(r.lines, Max(start - r.start, 0), Max(end - start + 1, 0)),
                r.truncated, r.reason)
  }

  lemma SliceShows(r: SourceRange, start: int, end: int, ids: seq<NodeId>, file: seq<string>)
    requires Shows(r, file) && r.start <= start <= end <= r.end
    ensures Shows(SliceRange(r, start, end, ids), file)
  {
    var s := SliceRange(r, start, end, ids);
    assert s.lines == r.lines[start - r.start..end - r.start + 1];
    forall i | 0 <= i < |s.lines|
      ensures ShowsLine(s.lines[i], s.start + i, file[s.start + i - 1])
    {
      var j := start - r.start + i;
      assert ShowsLine(r.lines[j], r.start + j, file[r.start + j - 1]);
    }
  }

  // ----- Declarations -----

  /** The declaration's first lines inside `r`. */
  function DeclarationAnchor(r: SourceRange, node: Node, maxLines: int): Option<SourceRange> {
    var start := Max(r.start, node.start);
    var end := Min(Min(r.end, node.end), start + Max(maxLines, 1) - 1);
    if end < start then
      None
    else
      var a := SliceRange(r, start, end, [node.id]);
      Some(a.(reason := if end >= node.end then CompleteSymbol else Signature,
              truncated := r.truncated || end < node.end))
  }

  /** The whole declaration, when `r` carries all of it and it is short enough. */
  function CompleteDeclarationRange(r: SourceRange, node: Node): Option<SourceRange> {
    var len := node.end - node.start + 1;
    if len > COMPLETE_DECLARATION_LINES || r.start > node.start || r.end < node.end then
      None
    else
      var c := SliceRange(r, node.start, node.end, [node.id]);
      Some(c.(reason := CompleteSymbol, truncated := false))
  }

  /**
   An anchor exists exactly when excerpt and declaration share a line; it starts on their first
   shared line and has as many shared lines as are allowed, keeps the file's text, is credited with the
   declaration alone, and is labelled complete exactly when it reaches the declaration's last line.
   */
  lemma DeclarationAnchorIsHeader(r: SourceRange, node: Node, maxLines: int, file: seq<string>)
    requires Shows(r, file)
    ensures DeclarationAnchor(r, node, maxLines).Some?
            <==> exists l: int :: Within(r, l) && node.start <= l <= node.end
    ensures var a := DeclarationAnchor(r, node, maxLines);
            a.Some? ==>
              && Shows(a.value, file)
              && (forall l :: Within(a.value, l) ==> Within(r, l) && node.start <= l <= node.end)
              && (forall l :: Within(r, l) && node.start <= l <= node.end ==> a.value.start <= l)
              && (forall l :: Within(a.value, l) <==>
                    Within(r, l) && node.start <= l <= node.end && l - a.value.start < Max(maxLines, 1))
              && a.value.nodeIds == [node.id]
              && a.value.reason == (if a.value.end == node.end then CompleteSymbol else Signature)
              && (a.value.truncated <==> r.truncated || a.value.end < node.end)
  {
    var a := DeclarationAnchor(r, node, maxLines);
    AnchorSpans(r, node, maxLines);
    hide SkipTake;
    if a.Some? {
      SliceShows(r, a.value.start, a.value.end, [node.id], file);
      hide ShowsLine;
      assert Within(r, a.value.start) && node.start <= a.value.start <= node.end;
    }
  }

  lemma AnchorSpans(r: SourceRange, node: Node, maxLines: int)
    ensures var a := DeclarationAnchor(r, node, maxLines);
            var start := Max(r.start, node.start);
            && (a.Some? <==> start <= r.end && start <= node.end)
            && (a.Some? ==> a.value.start == start && a.value.end == Min(Min(r.end, node.end), start + Max(maxLines, 1) - 1))
  {
    hide SkipTake;
  }

  /**
   A complete answer shows exactly the declaration. A declaration whose end precedes its start
   can yield an excerpt that stands for no lines and has one empty line as its text.
   */
  lemma CompleteDeclarationIsExact(r: SourceRange, node: Node, file: seq<string>)
    requires Shows(r, file)
    ensures node.start <= node.end ==>
              (CompleteDeclarationRange(r, node).Some?
               <==> node.end - node.start < COMPLETE_DECLARATION_LINES
                    && forall l :: node.start <= l <= node.end ==> Within(r, l))
    ensures var c := CompleteDeclarationRange(r, node);
            c.Some? ==>
              && (forall l :: Within(c.value, l) <==> node.start <= l <= node.end)
              && (node.start <= node.end ==> Shows(c.value, file))
              && (node.start > node.end ==> c.value.lines == [""])
              && c.value.nodeIds == [node.id] && c.value.reason == CompleteSymbol && !c.value.truncated
  {
    var c := CompleteDeclarationRange(r, node);
    if node.start > node.end {
      return;
    }
    if c.Some? {
      SliceShows(r, node.start, node.end, [node.id], file);
    } else if node.end - node.start < COMPLETE_DECLARATION_LINES {
      assert !Within(r, node.start) || !Within(r, node.end);
    }
  }

  // ----- Subtraction -----

  datatype Interval = Interval(s: int, e: int)

  predicate In(iv: Interval, l: int) { iv.s <= l <= iv.e }

  ghost predicate Cut(ivs: seq<Interval>, l: int) {
    exists i :: 0 <= i < |ivs| && In(ivs[i], l)
  }

  function OverlappingIds(ids: seq<NodeId>, start: int, end: int, nodes: Nodes): (r: seq<NodeId>)
    ensures forall id :: id in r <==>
              id in ids && (id !in nodes || (nodes[id].start <= end && nodes[id].end >= start))
  {
    if ids == [] then []
    else
      var rest := OverlappingIds(ids[1..], start, end, nodes);
      assert ids == [ids[0]] + ids[1..];
      if ids[0] !in nodes || (nodes[ids[0]].start <= end && nodes[ids[0]].end >= start)
      then [ids[0]] + rest else rest
  }

  function SourceInterval(r: SourceRange, start: int, end: int, nodes: Nodes): SourceRange {
    SliceRange(r, start, end, OverlappingIds(r.nodeIds, start, end, nodes)).(truncated := true)
  }

  function IntervalKey(iv: Interval): Key { Key(iv.s, iv.e, 0) }

  /** The intervals clipped to `r`, empty ones dropped. */
  method ClipIntervals(r: SourceRange, intervals: seq<Interval>) returns (clipped: seq<Interval>)
    ensures Inside(r, clipped)
    ensures forall l :: Cut(clipped, l) <==> Within(r, l) && Cut(intervals, l)
  {
    clipped := [];
    for k := 0 to |intervals|
      invariant Inside(r, clipped)
      invariant forall l :: Cut(clipped, l) <==> Within(r, l) && Cut(intervals[..k], l)
    {
      var c := Interval(Max(r.start, intervals[k].s), Min(r.end, intervals[k].e));
      ghost var before := clipped;
      if c.e >= c.s {
        clipped := clipped + [c];
      }
      forall l
        ensures Cut(clipped, l) <==> Within(r, l) && Cut(intervals[..k + 1], l)
      {
        CutSnoc(intervals[..k], intervals[k], l);
        assert intervals[..k] + [intervals[k]] == intervals[..k + 1];
        if c.e >= c.s {
          CutSnoc(before, c, l);
        }
      }
    }
    assert intervals[..|intervals|] == intervals;
  }

  lemma CutSnoc(ivs: seq<Interval>, iv: Interval, l: int)
    ensures Cut(ivs + [iv], l) <==> Cut(ivs, l) || In(iv, l)
  {
    if Cut(ivs, l) {
      var i :| 0 <= i < |ivs| && In(ivs[i], l);
      assert (ivs + [iv])[i] == ivs[i];
    }
    if In(iv, l) {
      assert (ivs + [iv])[|ivs|] == iv;
    }
  }

  lemma CutSame(a: seq<Interval>, b: seq<Interval>, l: int)
    requires multiset(a) == multiset(b)
    ensures Cut(a, l) <==> Cut(b, l)
  {
    SameMembers(a, b);
    if Cut(a, l) {
      var i :| 0 <= i < |a| && In(a[i], l);
      assert a[i] in b;
    }
    if Cut(b, l) {
      var i :| 0 <= i < |b| && In(b[i], l);
      assert b[i] in a;
    }
  }

  /** Ascending intervals, touching ones already merged. */
  ghost predicate Gapped(ivs: seq<Interval>) {
    forall i, j :: 0 <= i < j < |ivs| ==> ivs[i].e + 1 < ivs[j].s
  }

  ghost predicate Inside(r: SourceRange, ivs: seq<Interval>) {
    forall i :: 0 <= i < |ivs| ==> r.start <= ivs[i].s <= ivs[i].e <= r.end
  }

  ghost predicate SameCut(a: seq<Interval>, b: seq<Interval>) {
    forall l :: Cut(a, l) <==> Cut(b, l)
  }

  /** Folding an interval that starts no earlier into the last merged one cuts the same lines. */
  lemma MergeLast(ivs: seq<Interval>, p: Interval, c: Interval)
    requires p.s <= c.s <= p.e + 1
    ensures SameCut(ivs + [p, c], ivs + [p.(e := Max(p.e, c.e))])
  {
    forall l
      ensures Cut(ivs + [p, c], l) <==> Cut(ivs + [p.(e := Max(p.e, c.e))], l)
    {
      assert ivs + [p, c] == (ivs + [p]) + [c];
      CutSnoc(ivs + [p], c, l);
      CutSnoc(ivs, p, l);
      CutSnoc(ivs, p.(e := Max(p.e, c.e)), l);
    }
  }

  lemma SameCutSnoc(a: seq<Interval>, b: seq<Interval>, c: Interval)
    requires SameCut(a, b)
    ensures SameCut(a + [c], b + [c])
  {
    forall l
      ensures Cut(a + [c], l) <==> Cut(b + [c], l)
    {
      CutSnoc(a, c, l);
      CutSnoc(b, c, l);
    }
  }

  function MergeInto(merged: seq<Interval>, c: Interval): seq<Interval> {
    if merged != [] && c.s <= merged[|merged| - 1].e + 1 then
      var p := merged[|merged| - 1];
      merged[..|merged| - 1] + [p.(e := Max(p.e, c.e))]
    else
      merged + [c]
  }

  lemma MergeIntoCuts(merged: seq<Interval>, c: Interval)
    requires merged != [] ==> merged[|merged| - 1].s <= c.s
    ensures SameCut(merged + [c], MergeInto(merged, c))
  {
    if merged != [] && c.s <= merged[|merged| - 1].e + 1 {
      var p := merged[|merged| - 1];
      var front := merged[..|merged| - 1];
      MergeLast(front, p, c);
      assert merged + [c] == front + [p, c];
    }
  }

  lemma MergeIntoShape(r: SourceRange, merged: seq<Interval>, c: Interval)
    requires Inside(r, merged) && Gapped(merged) && r.start <= c.s <= c.e <= r.end
    requires merged != [] ==> merged[|merged| - 1].s <= c.s
    ensures Inside(r, MergeInto(merged, c)) && Gapped(MergeInto(merged, c))
    ensures var m := MergeInto(merged, c); m != [] && m[|m| - 1].s <= c.s
  {
    if merged != [] {
      InsideAt(r, merged, |merged| - 1);
    }
    hide Inside, Gapped;
    if merged != [] && c.s <= merged[|merged| - 1].e + 1 {
      var n := |merged| - 1;
      assert merged == merged[..n] + [merged[n]];
      WidenLast(r, merged[..n], merged[n], Max(merged[n].e, c.e));
    } else {
      AppendLast(r, merged, c);
    }
  }

  lemma InsideAt(r: SourceRange, ivs: seq<Interval>, k: nat)
    requires Inside(r, ivs) && k < |ivs|
    ensures r.start <= ivs[k].s <= ivs[k].e <= r.end
  {
  }

  lemma AppendLast(r: SourceRange, ivs: seq<Interval>, c: Interval)
    requires Inside(r, ivs) && Gapped(ivs) && r.start <= c.s <= c.e <= r.end
    requires ivs != [] ==> ivs[|ivs| - 1].e + 1 < c.s
    ensures Inside(r, ivs + [c]) && Gapped(ivs + [c])
  {
    forall i | 0 <= i < |ivs|
      ensures ivs[i].e + 1 < c.s
    {
      InsideAt(r, ivs, i);
      InsideAt(r, ivs, |ivs| - 1);
      assert i < |ivs| - 1 ==> ivs[i].e + 1 < ivs[|ivs| - 1].s;
    }
  }

  lemma WidenLast(r: SourceRange, front: seq<Interval>, p: Interval, e: int)
    requires Inside(r, front + [p]) && Gapped(front + [p]) && p.e <= e <= r.end
    ensures Inside(r, front + [p.(e := e)]) && Gapped(front + [p.(e := e)])
  {
    var was, now := front + [p], front + [p.(e := e)];
    forall i | 0 <= i < |now|
      ensures r.start <= now[i].s <= now[i].e <= r.end
    {
      assert was[i].s == now[i].s;
    }
    forall i, j | 0 <= i < j < |now|
      ensures now[i].e + 1 < now[j].s
    {
      assert was[i] == now[i] && was[j].s == now[j].s;
    }
  }

  method SortIntervals(r: SourceRange, clipped: seq<Interval>) returns (sorted: seq<Interval>)
    requires Inside(r, clipped)
    ensures Inside(r, sorted) && SameCut(sorted, clipped)
    ensures forall k :: 0 < k < |sorted| ==> sorted[k - 1].s <= sorted[k].s
  {
    sorted := Sort(IntervalKey, clipped);
    SortSorts(IntervalKey, clipped);
    SameMembers(sorted, clipped);
    assert forall i :: 0 <= i < |sorted| ==> sorted[i] in clipped;
    forall k | 0 < k < |sorted|
      ensures sorted[k - 1].s <= sorted[k].s
    {
      assert Le(IntervalKey(sorted[k - 1]), IntervalKey(sorted[k]));
    }
    forall l
      ensures Cut(sorted, l) <==> Cut(clipped, l)
    {
      CutSame(sorted, clipped, l);
    }
  }

  method MergeIntervals(r: SourceRange, clipped: seq<Interval>) returns (merged: seq<Interval>)
    requires Inside(r, clipped)
    ensures Inside(r, merged) && Gapped(merged) && SameCut(merged, clipped)
  {
    var sorted := SortIntervals(r, clipped);
    NothingMerged(r, sorted);
    hide Inside, Gapped, SameCut;
    merged := [];
    for k := 0 to |sorted|
      invariant Inside(r, merged) && Gapped(merged)
      invariant k == 0 <==> merged == []
      invariant k > 0 ==> merged[|merged| - 1].s <= sorted[k - 1].s
      invariant SameCut(merged, sorted[..k])
    {
      var c := sorted[k];
      InsideAt(r, sorted, k);
      MergeIntoCuts(merged, c);
      MergeIntoShape(r, merged, c);
      SameCutSnoc(merged, sorted[..k], c);
      SameCutChain(MergeInto(merged, c), merged + [c], sorted[..k] + [c]);
      TakeSnoc(sorted, k);
      if merged != [] && c.s <= merged[|merged| - 1].e + 1 {
        var p := merged[|merged| - 1];
        merged := merged[..|merged| - 1] + [p.(e := Max(p.e, c.e))];
      } else {
        merged := merged + [c];
      }
    }
    TakeAll(sorted);
    SameCutChain(merged, sorted, clipped);
  }

  lemma NothingMerged(r: SourceRange, sorted: seq<Interval>)
    ensures Inside(r, []) && Gapped([]) && SameCut([], sorted[..0])
  {
    assert sorted[..0] == [];
  }

  lemma SameCutChain(a: seq<Interval>, b: seq<Interval>, c: seq<Interval>)
    requires (SameCut(a, b) || SameCut(b, a)) && (SameCut(b, c) || SameCut(c, b))
    ensures SameCut(a, c)
  {
    hide Cut;
  }

  /** A piece of `r`: its bounds inside `r`, its ids those whose declaration meets it. */
  ghost predicate IsPiece(p: SourceRange, r: SourceRange, nodes: Nodes) {
    && r.start <= p.start <= p.end <= r.end
    && p.reason == r.reason
    && (p == r || (p.truncated && p.nodeIds == OverlappingIds(r.nodeIds, p.start, p.end, nodes)))
  }

  ghost predicate ArePieces(ps: seq<SourceRange>, r: SourceRange, nodes: Nodes) {
    forall i :: 0 <= i < |ps| ==> IsPiece(ps[i], r, nodes)
  }

  ghost predicate GoodPieces(ps: seq<SourceRange>, r: SourceRange, nodes: Nodes, file: seq<string>) {
    AllShow(ps, file) && Separated(ps) && ArePieces(ps, r, nodes)
  }

  /** Cutting one more piece behind all earlier ones. */
  lemma GoodPiecesSnoc(ps: seq<SourceRange>, r: SourceRange, nodes: Nodes, file: seq<string>, start: int, end: int)
    requires GoodPieces(ps, r, nodes, file) && Shows(r, file)
    requires r.start <= start <= end <= r.end
    requires forall i :: 0 <= i < |ps| ==> ps[i].end + 1 < start
    ensures GoodPieces(ps + [SourceInterval(r, start, end, nodes)], r, nodes, file)
  {
    SliceShows(r, start, end, OverlappingIds(r.nodeIds, start, end, nodes), file);
    var p := SourceInterval(r, start, end, nodes);
    assert Shows(p, file) && IsPiece(p, r, nodes);
  }

  /** The sweep's state: pieces hold what precedes `cursor` and no interval so far cuts. */
  ghost predicate Swept(ps: seq<SourceRange>, r: SourceRange, cuts: seq<Interval>, cursor: int) {
    && (forall l :: Covers(ps, l) <==> r.start <= l < cursor && !Cut(cuts, l))
    && (forall l :: Cut(cuts, l) ==> l < cursor)
    && (forall i :: 0 <= i < |ps| ==> ps[i].end + 1 < cursor)
  }

  lemma SweptPiece(ps: seq<SourceRange>, r: SourceRange, cuts: seq<Interval>, cursor: int, p: SourceRange, iv: Interval)
    requires Swept(ps, r, cuts, cursor) && r.start <= cursor
    requires p.start == cursor < iv.s <= iv.e && p.end == iv.s - 1
    ensures Swept(ps + [p], r, cuts + [iv], iv.e + 1)
  {
    forall l
      ensures Covers(ps + [p], l) <==> r.start <= l < iv.e + 1 && !Cut(cuts + [iv], l)
      ensures Cut(cuts + [iv], l) ==> l < iv.e + 1
    {
      CutSnoc(cuts, iv, l);
      CoversAppend(ps, [p], l);
      CoversOne(p, l);
    }
  }

  lemma SweptCut(ps: seq<SourceRange>, r: SourceRange, cuts: seq<Interval>, cursor: int, iv: Interval)
    requires Swept(ps, r, cuts, cursor) && cursor == iv.s <= iv.e
    ensures Swept(ps, r, cuts + [iv], iv.e + 1)
  {
    forall l
      ensures Covers(ps, l) <==> r.start <= l < iv.e + 1 && !Cut(cuts + [iv], l)
      ensures Cut(cuts + [iv], l) ==> l < iv.e + 1
    {
      CutSnoc(cuts, iv, l);
    }
  }

  lemma CutInterval(r: SourceRange, start: int, end: int, nodes: Nodes)
    ensures SourceInterval(r, start, end, nodes).start == start && SourceInterval(r, start, end, nodes).end == end
  {
  }

  method Sweep(r: SourceRange, merged: seq<Interval>, nodes: Nodes, ghost file: seq<string>)
    returns (pieces: seq<SourceRange>, cursor: int)
    requires Shows(r, file) && Inside(r, merged) && Gapped(merged)
    ensures r.start <= cursor <= r.end + 1
    ensures GoodPieces(pieces, r, nodes, file)
    ensures Swept(pieces, r, merged, cursor)
  {
    hide Shows, OverlappingIds, GoodPieces, Swept, SourceInterval, Inside, Gapped;
    ShownBounds(r, file);
    NothingSwept(r, merged, nodes, file);
    pieces := [];
    cursor := r.start;
    for k := 0 to |merged|
      invariant r.start <= cursor <= r.end + 1
      invariant k < |merged| ==> cursor <= merged[k].s
      invariant GoodPieces(pieces, r, nodes, file)
      invariant Swept(pieces, r, merged[..k], cursor)
    {
      var iv := merged[k];
      InsideAt(r, merged, k);
      GappedAt(merged, k);
      TakeSnoc(merged, k);
      if cursor < iv.s {
        var piece := SourceInterval(r, cursor, iv.s - 1, nodes);
        CutInterval(r, cursor, iv.s - 1, nodes);
        SweptBehind(pieces, r, merged[..k], cursor);
        GoodPiecesSnoc(pieces, r, nodes, file, cursor, iv.s - 1);
        SweptPiece(pieces, r, merged[..k], cursor, piece, iv);
        pieces := pieces + [piece];
      } else {
        SweptCut(pieces, r, merged[..k], cursor, iv);
      }
      cursor := Max(cursor, iv.e + 1);
    }
    TakeAll(merged);
  }

  lemma ShownBounds(r: SourceRange, file: seq<string>)
    requires Shows(r, file)
    ensures 1 <= r.start <= r.end <= |file|
  {
  }

  lemma NothingSwept(r: SourceRange, merged: seq<Interval>, nodes: Nodes, file: seq<string>)
    requires Inside(r, merged) && r.start <= r.end
    ensures GoodPieces([], r, nodes, file) && Swept([], r, merged[..0], r.start)
    ensures merged != [] ==> r.start <= merged[0].s
  {
  }

  lemma GappedAt(ivs: seq<Interval>, k: nat)
    requires Gapped(ivs) && k < |ivs|
    ensures k + 1 < |ivs| ==> ivs[k].e + 1 < ivs[k + 1].s
  {
  }

  lemma SweptBehind(ps: seq<SourceRange>, r: SourceRange, cuts: seq<Interval>, cursor: int)
    requires Swept(ps, r, cuts, cursor)
    ensures forall i :: 0 <= i < |ps| ==> ps[i].end + 1 < cursor
  {
  }

  /** `r` minus `intervals`, as the remaining pieces. */
  method SubtractIntervals(r: SourceRange, intervals: seq<Interval>, nodes: Nodes, ghost file: seq<string>)
    returns (pieces: seq<SourceRange>)
    requires Shows(r, file)
    ensures forall l :: Covers(pieces, l) <==> Within(r, l) && !Cut(intervals, l)
    ensures AllShow(pieces, file) && Separated(pieces) && ArePieces(pieces, r, nodes)
    ensures (forall l :: Within(r, l) ==> !Cut(intervals, l)) ==> pieces == [r]
  {
    var clipped := ClipIntervals(r, intervals);
    if clipped == [] {
      pieces := [r];
      forall l
        ensures Covers(pieces, l) <==> Within(r, l) && !Cut(intervals, l)
      {
        CoversOne(r, l);
        assert !Cut(clipped, l);
      }
      return;
    }
    assert In(clipped[0], clipped[0].s) && Cut(clipped, clipped[0].s);
    var merged := MergeIntervals(r, clipped);
    var cursor;
    pieces, cursor := Sweep(r, merged, nodes, file);
    ghost var before := pieces;
    if cursor <= r.end {
      var piece := SourceInterval(r, cursor, r.end, nodes);
      GoodPiecesSnoc(pieces, r, nodes, file, cursor, r.end);
      pieces := pieces + [piece];
    }
    forall l
      ensures Covers(pieces, l) <==> Within(r, l) && !Cut(intervals, l)
    {
      if cursor <= r.end {
        var piece := SourceInterval(r, cursor, r.end, nodes);
        CoversAppend(before, [piece], l);
        CoversOne(piece, l);
      }
    }
  }

  // ----- Merging -----

  /** `a` followed by the members of `b` it lacks, each once. */
  function UnionIds(a: seq<NodeId>, b: seq<NodeId>): (r: seq<NodeId>)
    ensures forall id :: id in r <==> id in a || id in b
    ensures a <= r
    decreases b
  {
    if b == [] then a
    else
      assert b == [b[0]] + b[1..];
      UnionIds(if b[0] in a then a else a + [b[0]], b[1..])
  }

  predicate SameSpan(a: SourceRange, b: SourceRange) { a.start == b.start && a.end == b.end }

  /** An excerpt with the same bounds absorbs the ids; otherwise the incoming one is added. */
  function MergeAdmissionRange(ranges: seq<SourceRange>, incoming: SourceRange): (out: seq<SourceRange>)
    ensures out != []
  {
    if ranges == [] then [incoming]
    else if SameSpan(ranges[0], incoming) then
      [ranges[0].(nodeIds := UnionIds(ranges[0].nodeIds, incoming.nodeIds))] + ranges[1..]
    else [ranges[0]] + MergeAdmissionRange(ranges[1..], incoming)
  }

  lemma {:induction false} MergeAdmissionConserves(ranges: seq<SourceRange>, incoming: SourceRange, file: seq<string>)
    requires AllShow(ranges, file) && Shows(incoming, file)
    ensures AllShow(MergeAdmissionRange(ranges, incoming), file)
    ensures forall l :: Covers(MergeAdmissionRange(ranges, incoming), l) <==> Covers(ranges, l) || Within(incoming, l)
  {
    if ranges == [] {
      forall l { CoversOne(incoming, l); }
    } else {
      var r := ranges[0];
      assert ranges == [r] + ranges[1..];
      if SameSpan(r, incoming) {
        var r' := r.(nodeIds := UnionIds(r.nodeIds, incoming.nodeIds));
        assert Shows(r', file);
        forall l
          ensures Covers([r'] + ranges[1..], l) <==> Covers(ranges, l) || Within(incoming, l)
        {
          CoversAppend([r'], ranges[1..], l);
          CoversAppend([r], ranges[1..], l);
          CoversOne(r, l);
          CoversOne(r', l);
        }
      } else {
        var rest := MergeAdmissionRange(ranges[1..], incoming);
        MergeAdmissionConserves(ranges[1..], incoming, file);
        forall l
          ensures Covers([r] + rest, l) <==> Covers(ranges, l) || Within(incoming, l)
        {
          CoversAppend([r], rest, l);
          CoversAppend([r], ranges[1..], l);
        }
      }
    }
  }

  /** Some excerpt with these bounds is credited with `id`. */
  predicate Credits(rs: seq<SourceRange>, start: int, end: int, id: NodeId) {
    exists i :: 0 <= i < |rs| && CreditedAs(rs[i], start, end, id)
  }

  predicate CreditedAs(r: SourceRange, start: int, end: int, id: NodeId) {
    r.start == start && r.end == end && id in r.nodeIds
  }

  predicate HasSpan(rs: seq<SourceRange>, r: SourceRange) { exists i :: 0 <= i < |rs| && SameSpan(rs[i], r) }

  lemma CreditsCons(r: SourceRange, rest: seq<SourceRange>, start: int, end: int, id: NodeId)
    ensures Credits([r] + rest, start, end, id) <==> CreditedAs(r, start, end, id) || Credits(rest, start, end, id)
  {
    hide CreditedAs;
    var all := [r] + rest;
    assert all[0] == r;
    if Credits(rest, start, end, id) {
      var i :| 0 <= i < |rest| && CreditedAs(rest[i], start, end, id);
      assert all[i + 1] == rest[i];
    }
  }

  lemma HasSpanCons(r: SourceRange, rest: seq<SourceRange>, q: SourceRange)
    ensures HasSpan([r] + rest, q) <==> SameSpan(r, q) || HasSpan(rest, q)
  {
    hide SameSpan;
    var all := [r] + rest;
    assert all[0] == r;
    if HasSpan(rest, q) {
      var i :| 0 <= i < |rest| && SameSpan(rest[i], q);
      assert all[i + 1] == rest[i];
    }
  }

  /** Merging credits exactly the incoming ids to the incoming bounds, and never repeats bounds. */
  lemma {:induction false} MergeAdmissionCredits(ranges: seq<SourceRange>, incoming: SourceRange, start: int, end: int, id: NodeId)
    ensures var out := MergeAdmissionRange(ranges, incoming);
            && (Credits(out, start, end, id) <==> Credits(ranges, start, end, id) || CreditedAs(incoming, start, end, id))
            && |out| == |ranges| + (if HasSpan(ranges, incoming) then 0 else 1)
  {
    if ranges == [] {
      CreditsCons(incoming, [], start, end, id);
      assert [incoming] + [] == [incoming];
    } else {
      var r, rest := ranges[0], ranges[1..];
      assert ranges == [r] + rest;
      CreditsCons(r, rest, start, end, id);
      HasSpanCons(r, rest, incoming);
      if SameSpan(r, incoming) {
        CreditsCons(r.(nodeIds := UnionIds(r.nodeIds, incoming.nodeIds)), rest, start, end, id);
      } else {
        MergeAdmissionCredits(rest, incoming, start, end, id);
        CreditsCons(r, MergeAdmissionRange(rest, incoming), start, end, id);
      }
    }
  }

  predicate CarriesDeclarationLine(r: SourceRange, node: Node) {
    node.id in r.nodeIds && r.start <= node.start <= r.end
  }

  /** Starting on the declaration line first, then smallest, then earliest. */
  predicate BetterCarrier(ranges: seq<SourceRange>, node: Node, i: nat, j: nat)
    requires i < |ranges| && j < |ranges|
  {
    var a, b := ranges[i], ranges[j];
    var (startA, startB) := (if a.start != node.start then 1 else 0, if b.start != node.start then 1 else 0);
    Le(Key(startA, a.end - a.start, i), Key(startB, b.end - b.start, j))
  }

  /** The planned excerpt carrying `node`'s declaration line. */
  function BestDeclarationRangeIndex(ranges: seq<SourceRange>, node: Node): (best: Option<nat>)
    ensures best.None? <==> forall i :: 0 <= i < |ranges| ==> !CarriesDeclarationLine(ranges[i], node)
    ensures best.Some? ==>
              && best.value < |ranges| && CarriesDeclarationLine(ranges[best.value], node)
              && forall i :: 0 <= i < |ranges| && CarriesDeclarationLine(ranges[i], node)
                   ==> BetterCarrier(ranges, node, best.value, i)
  {
    BestAmong(ranges, node, |ranges|)
  }

  function BestAmong(ranges: seq<SourceRange>, node: Node, n: nat): (best: Option<nat>)
    requires n <= |ranges|
    ensures best.None? <==> forall i :: 0 <= i < n ==> !CarriesDeclarationLine(ranges[i], node)
    ensures best.Some? ==>
              && best.value < n && CarriesDeclarationLine(ranges[best.value], node)
              && forall i :: 0 <= i < n && CarriesDeclarationLine(ranges[i], node)
                   ==> BetterCarrier(ranges, node, best.value, i)
  {
    if n == 0 then None
    else
      var best := BestAmong(ranges, node, n - 1);
      if !CarriesDeclarationLine(ranges[n - 1], node) then best
      else if best.Some? && BetterCarrier(ranges, node, best.value, n - 1) then best
      else Some(n - 1)
  }

  /** The choice, told outright: on the declaration's line first, then shortest, then earliest. */
  lemma BestIsFirstChoice(ranges: seq<SourceRange>, node: Node, i: nat)
    requires BestDeclarationRangeIndex(ranges, node).Some? && i < |ranges|
    requires node.id in ranges[i].nodeIds && ranges[i].start <= node.start <= ranges[i].end
    ensures var best := BestDeclarationRangeIndex(ranges, node).value;
            var b, r := ranges[best], ranges[i];
            && node.id in b.nodeIds && b.start <= node.start <= b.end
            && (r.start == node.start ==> b.start == node.start)
            && ((r.start == node.start <==> b.start == node.start) ==> b.end - b.start <= r.end - r.start)
            && ((r.start == node.start <==> b.start == node.start) && b.end - b.start == r.end - r.start ==> best <= i)
  {
    assert CarriesDeclarationLine(ranges[i], node);
    assert BetterCarrier(ranges, node, BestDeclarationRangeIndex(ranges, node).value, i);
  }

  predicate RangesOverlap(a: SourceRange, b: SourceRange) {
    a.start <= b.end && b.start <= a.end
  }

  predicate Contains(a: SourceRange, b: SourceRange) { a.start <= b.start && a.end >= b.end }

  predicate HasLine(r: SourceRange, l: int) { 0 <= l - r.start < |r.lines| }

  /** The unnumbered text of line `l`: the first excerpt's when it has the line, else the second's. */
  function CombinedText(a: SourceRange, b: SourceRange, l: int): string {
    if HasLine(a, l) then StripLineNumber(a.lines[l - a.start])
    else if HasLine(b, l) then StripLineNumber(b.lines[l - b.start])
    else ""
  }

  function CombineRanges(a: SourceRange, b: SourceRange): SourceRange {
    var start, end := Min(a.start, b.start), Max(a.end, b.end);
    var width := |Decimal(end)|;
    var aContains, bContains := Contains(a, b), Contains(b, a);
    SourceRange(
      start, end,
      UnionIds(a.nodeIds, b.nodeIds),
      // Joining no lines at all gives the empty string, which is one empty line.
      if end < start then [""] else
        seq(end - start + 1, (i: nat) => Numbered(start + i, width, CombinedText(a, b, start + i))),
      if aContains then a.truncated else if bContains then b.truncated else a.truncated || b.truncated,
      if bContains && !aContains then b.reason else a.reason)
  }

  /**
   The combined excerpt is credited with both sides' ids, `a`'s first. When one side holds the other
   it speaks for both; else anything either side lacks is lacking.
   */
  lemma CombineKeepsCredits(a: SourceRange, b: SourceRange)
    requires RangesOverlap(a, b)
    ensures var c := CombineRanges(a, b);
            && a.nodeIds <= c.nodeIds
            && (forall id :: id in c.nodeIds <==> id in a.nodeIds || id in b.nodeIds)
            && (Contains(a, b) ==> SameSpan(c, a) && c.truncated == a.truncated && c.reason == a.reason)
            && (Contains(b, a) && !Contains(a, b) ==> SameSpan(c, b) && c.truncated == b.truncated && c.reason == b.reason)
            && (!Contains(a, b) && !Contains(b, a) ==> c.reason == a.reason && (c.truncated <==> a.truncated || b.truncated))
  {
    hide UnionIds;
    assert a.nodeIds <= UnionIds(a.nodeIds, b.nodeIds);
  }

  lemma StripShown(line: string, n: nat, text: string)
    requires ShowsLine(line, n, text)
    ensures StripLineNumber(line) == text
  {
    var width: nat :| line == Numbered(n, width, text);
    StripUndoesNumbering(n, width, text);
  }

  lemma CombinedTextIsFileText(a: SourceRange, b: SourceRange, file: seq<string>, l: int)
    requires Shows(a, file) && Shows(b, file) && (Within(a, l) || Within(b, l))
    ensures CombinedText(a, b, l) == file[l - 1]
  {
    hide StripLineNumber, Numbered;
    if HasLine(a, l) {
      assert ShowsLine(a.lines[l - a.start], a.start + (l - a.start), file[l - 1]);
      StripShown(a.lines[l - a.start], l, file[l - 1]);
    } else {
      assert ShowsLine(b.lines[l - b.start], b.start + (l - b.start), file[l - 1]);
      StripShown(b.lines[l - b.start], l, file[l - 1]);
    }
  }

  /** Combining overlapping excerpts keeps every line's file text and covers exactly both. */
  lemma CombineShows(a: SourceRange, b: SourceRange, file: seq<string>)
    requires Shows(a, file) && Shows(b, file) && RangesOverlap(a, b)
    ensures Shows(CombineRanges(a, b), file)
    ensures forall l :: Within(CombineRanges(a, b), l) <==> Within(a, l) || Within(b, l)
  {
    hide StripLineNumber, Numbered, CombinedText, Decimal;
    var c := CombineRanges(a, b);
    var width := |Decimal(c.end)|;
    forall i | 0 <= i < |c.lines|
      ensures ShowsLine(c.lines[i], c.start + i, file[c.start + i - 1])
    {
      CombinedTextIsFileText(a, b, file, c.start + i);
      assert c.lines[i] == Numbered(c.start + i, width, file[c.start + i - 1]);
    }
  }

  /** Every line of a combination is the file's, its number in a column as wide as the last one. */
  lemma CombinedLine(a: SourceRange, b: SourceRange, file: seq<string>, l: int)
    requires Shows(a, file) && Shows(b, file) && (Within(a, l) || Within(b, l))
    ensures var c := CombineRanges(a, b);
            c.start <= l < c.start + |c.lines| && l <= |file|
            && c.lines[l - c.start] == Numbered(l, |Decimal(c.end)|, file[l - 1])
  {
    hide StripLineNumber, Numbered, CombinedText, Decimal, ShowsLine;
    CombinedTextIsFileText(a, b, file, l);
  }

  // ----- Coverage test -----

  function SpanKey(r: SourceRange): Key { Key(r.start, r.end, 0) }

  method SortSpans(emitted: seq<SourceRange>) returns (sorted: seq<SourceRange>)
    ensures forall l :: Covers(sorted, l) <==> Covers(emitted, l)
    ensures forall i, j :: 0 <= i < j < |sorted| ==> sorted[i].start <= sorted[j].start
  {
    sorted := Sort(SpanKey, emitted);
    SortSorts(SpanKey, emitted);
    SameMembers(sorted, emitted);
    forall i, j | 0 <= i < j < |sorted|
      ensures sorted[i].start <= sorted[j].start
    {
      assert Le(SpanKey(sorted[i]), SpanKey(sorted[j]));
    }
    forall l
      ensures Covers(sorted, l) <==> Covers(emitted, l)
    {
      CoversMembers(sorted, emitted, l);
      CoversMembers(emitted, sorted, l);
    }
  }

  lemma CoversMembers(a: seq<SourceRange>, b: seq<SourceRange>, l: int)
    requires forall r :: r in a ==> r in b
    ensures Covers(a, l) ==> Covers(b, l)
  {
    if Covers(a, l) {
      var i :| 0 <= i < |a| && Within(a[i], l);
      assert a[i] in b;
    }
  }

  /** True exactly when every line of the non-empty wanted excerpt lies in an emitted one. */
  method SourceRangesCover(emitted: seq<SourceRange>, wanted: SourceRange) returns (covered: bool)
    ensures wanted.start <= wanted.end ==>
              (covered <==> forall l :: Within(wanted, l) ==> Covers(emitted, l))
  {
    var sorted := SortSpans(emitted);
    var cursor := wanted.start;
    for k := 0 to |sorted|
      invariant wanted.start <= cursor
      invariant wanted.start <= wanted.end ==> cursor <= wanted.end
      invariant forall l :: wanted.start <= l < cursor ==> Covers(sorted, l)
      invariant forall j :: 0 <= j < k ==> sorted[j].end < cursor
    {
      var r := sorted[k];
      if r.end < cursor {
        continue;
      }
      if r.start > cursor {
        assert !Covers(sorted, cursor);
        assert wanted.start <= wanted.end ==> Within(wanted, cursor);
        return false;
      }
      forall l | cursor <= l <= r.end
        ensures Covers(sorted, l)
      {
        assert Within(sorted[k], l);
      }
      cursor := Max(cursor, r.end + 1);
      if cursor > wanted.end {
        return true;
      }
    }
    assert !Covers(sorted, cursor);
    assert wanted.start <= wanted.end ==> Within(wanted, cursor);
    return false;
  }
}
