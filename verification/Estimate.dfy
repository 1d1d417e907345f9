/** The size of a source record as compact JSON, and the token estimate made from it (src/graph/protocol.rs). */
module Estimate {
  import opened Text
  import opened SourceRanges

  const CHARS_PER_TOKEN := 4

  /** Characters of one character inside a JSON string. */
  function EscapedChars(c: char): (n: nat)
    ensures n >= 1
  {
    var code := c as int;
    if c == '"' || c == '\\' || code == 8 || code == 9 || code == 10 || code == 12 || code == 13 then 2
    else if code < 0x20 then 6
    else 1
  }

  /** Characters of a string's JSON escape, without the quotes. */
  function JsonChars(s: string): nat {
    if s == "" then 0 else EscapedChars(s[0]) + JsonChars(s[1..])
  }

  function DecimalChars(n: int): nat { |Decimal(n)| }

  function IdsChars(ids: seq<NodeId>): nat {
    if ids == [] then 0 else JsonChars(ids[0]) + 2 + (if |ids| > 1 then 1 else 0) + IdsChars(ids[1..])
  }

  function ReasonText(r: Reason): string {
    match r
    case WholeFile => "whole-file"
    case CompleteSymbol => "complete-symbol"
    case QueryHit => "query-hit"
    case Callsite => "callsite"
    case Signature => "signature"
    case TextOnly => "text-only"
  }

  /** Characters that a range's keys, colons, commas, braces, brackets and quotes take. */
  const RANGE_FRAME := 2 + 5 + 12 + 10 + (10 + 2) + (10 + 2) + 12 + (9 + 2)

  function RangeChars(r: SourceRange): nat {
    RANGE_FRAME + DecimalChars(r.start) + DecimalChars(r.end) + IdsChars(r.nodeIds)
    + JsonChars(Join(r.lines)) + (if r.truncated then 4 else 5) + |ReasonText(r.reason)|
  }

  function RangesChars(rs: seq<SourceRange>): nat {
    if rs == [] then 0 else RangeChars(rs[0]) + (if |rs| > 1 then 1 else 0) + RangesChars(rs[1..])
  }

  /** A source record; `extra` counts the characters of its other fields (evidence, stale). */
  datatype Record = Record(file: string, extra: nat, ranges: seq<SourceRange>)

  /** Braces, the type field, and the keys of the path and the ranges. */
  const RECORD_FRAME := 2 + 15 + 1 + (11 + 2) + 1 + (9 + 2)

  function RecordChars(rec: Record): nat {
    RECORD_FRAME + JsonChars(rec.file) + rec.extra + RangesChars(rec.ranges)
  }

  /** The token estimate: serialized length over four, rounded up. */
  function EstimateTokens(rec: Record): (t: nat)
    ensures t >= 1
    ensures RecordChars(rec) <= CHARS_PER_TOKEN * t < RecordChars(rec) + CHARS_PER_TOKEN
  {
    (RecordChars(rec) + CHARS_PER_TOKEN - 1) / CHARS_PER_TOKEN
  }

  lemma EstimateMonotone(a: Record, b: Record)
    requires RecordChars(a) <= RecordChars(b)
    ensures EstimateTokens(a) <= EstimateTokens(b)
  {
    hide RecordChars;
  }

  // ----- How content grows with its lines -----

  /** Characters of the lines' escapes, each with its line break. */
  function LinesChars(lines: seq<string>): nat {
    if lines == [] then 0 else JsonChars(lines[0]) + 2 + LinesChars(lines[1..])
  }

  lemma {:induction false} JsonCharsAppend(a: string, b: string)
    ensures JsonChars(a + b) == JsonChars(a) + JsonChars(b)
  {
    if a == "" {
      assert a + b == b;
    } else {
      JsonCharsAppend(a[1..], b);
      assert (a + b)[1..] == a[1..] + b;
    }
  }

  /** The joined content takes what its lines take, less the break after the last one. */
  lemma {:induction false} JoinChars(lines: seq<string>)
    requires lines != []
    ensures JsonChars(Join(lines)) + 2 == LinesChars(lines)
  {
    if |lines| > 1 {
      JoinChars(lines[1..]);
      JsonCharsAppend(lines[0] + [NEWLINE], Join(lines[1..]));
      JsonCharsAppend(lines[0], [NEWLINE]);
      assert JsonChars([NEWLINE]) == 2 + JsonChars([NEWLINE][1..]);
    } else {
      assert LinesChars(lines[1..]) == 0;
    }
  }

  lemma {:induction false} LinesCharsAppend(a: seq<string>, b: seq<string>)
    ensures LinesChars(a + b) == LinesChars(a) + LinesChars(b)
  {
    if a == [] {
      assert a + b == b;
    } else {
      LinesCharsAppend(a[1..], b);
      assert (a + b)[1..] == a[1..] + b;
    }
  }

  lemma {:induction false} LinesCharsAtLeast(a: seq<string>)
    ensures LinesChars(a) >= 2 * |a|
  {
    if a != [] {
      LinesCharsAtLeast(a[1..]);
    }
  }

  /** A window inside a larger one is smaller by at least two characters for each line it lacks. */
  lemma NestedWindowChars(lines: seq<string>, from: nat, to: nat, from': nat, to': nat)
    requires from' <= from < to <= to' <= |lines|
    ensures JsonChars(Join(lines[from..to])) + 2 * ((to' - from') - (to - from)) <= JsonChars(Join(lines[from'..to']))
  {
    JoinChars(lines[from..to]);
    JoinChars(lines[from'..to']);
    var left, mid, right := lines[from'..from], lines[from..to], lines[to..to'];
    assert lines[from'..to'] == left + mid + right;
    LinesCharsAppend(left + mid, right);
    LinesCharsAppend(left, mid);
    LinesCharsAtLeast(left);
    LinesCharsAtLeast(right);
  }
}
