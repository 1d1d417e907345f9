/** Overlapping source windows for the full-text index (src/graph/chunks.rs). */
module Chunks {
  import opened Prelude
  import opened Text

  const CHUNK_WINDOW := 80
  const CHUNK_STRIDE := 60

  datatype ChunkRow = ChunkRow(startLine: int, endLine: int, pathTerms: string, identifierTerms: string, commentTerms: string)

  /** How text is indexed: the joined terms of a text, and which lines are comments. */
  datatype Indexing = Indexing(terms: string -> string, isComment: string -> bool)

  function CommentsOf(ix: Indexing, lines: seq<string>): seq<string> {
    if lines == [] then []
    else (if ix.isComment(lines[0]) then [lines[0]] else []) + CommentsOf(ix, lines[1..])
  }

  /** The comments of a text are those of its parts, in order. */
  lemma {:induction false} CommentsOfParts(ix: Indexing, a: seq<string>, b: seq<string>)
    ensures CommentsOf(ix, a + b) == CommentsOf(ix, a) + CommentsOf(ix, b)
  {
    if a == [] {
      assert a + b == b;
    } else {
      CommentsOfParts(ix, a[1..], b);
      assert a + b == [a[0]] + (a[1..] + b) && a == [a[0]] + a[1..];
      CommentsCons(ix, a[0], a[1..] + b);
      CommentsCons(ix, a[0], a[1..]);
    }
  }

  lemma CommentsCons(ix: Indexing, line: string, rest: seq<string>)
    ensures CommentsOf(ix, [line] + rest) == (if ix.isComment(line) then [line] else []) + CommentsOf(ix, rest)
  {
    assert ([line] + rest)[1..] == rest;
  }

  /** Exactly the comment lines of a text are among its comments. */
  lemma {:induction false} CommentsAreComments(ix: Indexing, lines: seq<string>, line: string)
    ensures line in CommentsOf(ix, lines) <==> line in lines && ix.isComment(line)
  {
    if lines != [] {
      assert lines == [lines[0]] + lines[1..];
      CommentsAreComments(ix, lines[1..], line);
    }
  }

  /** The rows have the window's own lines behind their line numbers. */
  predicate Indexes(ix: Indexing, path: string, lines: seq<string>, row: ChunkRow) {
    && 1 <= row.startLine && row.startLine - 1 <= |lines|
    && row.startLine - 1 <= Min(row.endLine, |lines|)
    && var window := lines[row.startLine - 1..Min(row.endLine, |lines|)];
       && row.pathTerms == ix.terms(path)
       && row.identifierTerms == ix.terms(JoinWith(window, "\n"))
       && row.commentTerms == ix.terms(JoinWith(CommentsOf(ix, window), " "))
  }

  /** One window for up to 80 lines, then one more for every 60 lines begun. */
  function WindowCount(n: nat): nat { Max(1, (n - 20 + CHUNK_STRIDE - 1) / CHUNK_STRIDE) }

  /** Line numbers of the k-th window of n lines; an empty file gets the window of its absent line 1. */
  predicate WindowAt(row: ChunkRow, k: nat, n: nat) {
    && row.startLine == CHUNK_STRIDE * k + 1
    && row.endLine == Max(Min(CHUNK_STRIDE * k + CHUNK_WINDOW, n), CHUNK_STRIDE * k + 1)
  }

  /** The row of the k-th window, which begins inside the file or is the first. */
  lemma NextWindow(ix: Indexing, path: string, lines: seq<string>, k: nat)
    requires k == 0 || CHUNK_STRIDE * k < |lines|
    ensures var n, offset := |lines|, CHUNK_STRIDE * k;
            var end := Min(offset + CHUNK_WINDOW, n);
            && Min(offset, n) <= end
            && var window := lines[Min(offset, n)..end];
               var row := ChunkRow(offset + 1, Max(end, offset + 1), ix.terms(path),
                                   ix.terms(JoinWith(window, "\n")), ix.terms(JoinWith(CommentsOf(ix, window), " ")));
               WindowAt(row, k, n) && Indexes(ix, path, lines, row)
  {
    hide CommentsOf;
    var n, offset := |lines|, CHUNK_STRIDE * k;
    var end := Min(offset + CHUNK_WINDOW, n);
    var endLine := Max(end, offset + 1);
    assert lines[Min(offset, n)..end] == lines[offset + 1 - 1..Min(endLine, n)];
  }

  method ChunkSource(ix: Indexing, path: string, lines: seq<string>) returns (out: seq<ChunkRow>)
    ensures |out| == WindowCount(|lines|)
    ensures forall k: nat :: k < |out| ==> WindowAt(out[k], k, |lines|) && Indexes(ix, path, lines, out[k])
  {
    hide WindowAt, Indexes, CommentsOf;
    var n := |lines|;
    var pathTerms := ix.terms(path);
    out := [];
    var offset := 0;
    while true
      invariant offset == CHUNK_STRIDE * |out|
      invariant out != [] ==> offset + (CHUNK_WINDOW - CHUNK_STRIDE) < n
      invariant forall k: nat :: k < |out| ==> WindowAt(out[k], k, n) && Indexes(ix, path, lines, out[k])
      decreases n - offset
    {
      var end := Min(offset + CHUNK_WINDOW, n);
      if offset >= end && out != [] {
        // This exit is never taken: a later window begins at least twenty lines before the end.
        assert false;
      }
      NextWindow(ix, path, lines, |out|);
      var window := lines[Min(offset, n)..end];
      out := out + [ChunkRow(offset + 1, Max(end, offset + 1), pathTerms,
                             ix.terms(JoinWith(window, "\n")),
                             ix.terms(JoinWith(CommentsOf(ix, window), " ")))];
      if end >= n {
        break;
      }
      offset := offset + CHUNK_STRIDE;
    }
  }

  ghost predicate WindowsOf(rows: seq<ChunkRow>, n: nat) {
    |rows| == WindowCount(n) && forall k: nat :: k < |rows| ==> WindowAt(rows[k], k, n)
  }

  /** Windows go up, meet without a gap, and the last one ends at the last line. */
  lemma WindowsAscendAndMeet(rows: seq<ChunkRow>, n: nat)
    requires WindowsOf(rows, n)
    ensures rows[0].startLine == 1 && rows[|rows| - 1].endLine == Max(n, 1)
    ensures forall k: nat :: k + 1 < |rows| ==>
              && rows[k].startLine < rows[k + 1].startLine <= rows[k].endLine + 1
              && rows[k].endLine < rows[k + 1].endLine
  {
    var last := |rows| - 1;
    assert WindowAt(rows[last], last, n);
    forall k: nat | k + 1 < |rows|
      ensures rows[k].startLine < rows[k + 1].startLine <= rows[k].endLine + 1
      ensures rows[k].endLine < rows[k + 1].endLine
    {
      assert WindowAt(rows[k], k, n) && WindowAt(rows[k + 1], k + 1, n);
    }
  }

  predicate Holds(row: ChunkRow, first: int, last: int) { row.startLine <= first && last <= row.endLine }

  /** Up to 21 lines in a row always lie inside one window. */
  lemma ShortSpansAreWhole(rows: seq<ChunkRow>, n: nat, first: int, last: int) returns (k: nat)
    requires WindowsOf(rows, n) && 1 <= first <= last <= n && last - first + 1 <= CHUNK_WINDOW - CHUNK_STRIDE + 1
    ensures k < |rows| && Holds(rows[k], first, last)
  {
    k := Min((first - 1) / CHUNK_STRIDE, |rows| - 1);
    assert WindowAt(rows[k], k, n);
  }

  /** 22 lines are too many as soon as there is a second window: lines 60 to 81 are in none whole. */
  lemma LongerSpansAreCut(rows: seq<ChunkRow>, n: nat)
    requires WindowsOf(rows, n) && n > CHUNK_WINDOW
    ensures forall k: nat :: k < |rows| ==> !Holds(rows[k], CHUNK_STRIDE, CHUNK_STRIDE + 21)
  {
    forall k: nat | k < |rows| ensures !Holds(rows[k], CHUNK_STRIDE, CHUNK_STRIDE + 21) {
      assert WindowAt(rows[k], k, n);
    }
  }

  /** No line is indexed more than twice. */
  lemma AtMostTwice(rows: seq<ChunkRow>, n: nat, line: int, i: nat, j: nat)
    requires WindowsOf(rows, n) && i < j < |rows| && Holds(rows[i], line, line) && Holds(rows[j], line, line)
    ensures j == i + 1
  {
    assert WindowAt(rows[i], i, n) && WindowAt(rows[j], j, n);
  }
}
