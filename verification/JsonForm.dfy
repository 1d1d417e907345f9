/** The compact JSON of a source record, and that its length is what the estimate counts (src/graph/protocol.rs). */
module JsonForm {
  import opened Text
  import opened SourceRanges
  import opened Admissions
  import opened Estimate
  import opened Budget

  function Hex(d: nat): char
    requires d < 16
  {
    if d < 10 then Digit(d) else ('a' as int + d - 10) as char
  }

  function Escape(c: char): string {
    var code := c as int;
    if c == '"' then "\\\""
    else if c == '\\' then "\\\\"
    else if code == 8 then "\\b"
    else if code == 9 then "\\t"
    else if code == 10 then "\\n"
    else if code == 12 then "\\f"
    else if code == 13 then "\\r"
    else if code < 0x20 then "\\u00" + [Hex(code / 16), Hex(code % 16)]
    else [c]
  }

  function Escaped(s: string): string { if s == "" then "" else Escape(s[0]) + Escaped(s[1..]) }

  function Quoted(s: string): string { "\"" + Escaped(s) + "\"" }

  lemma {:induction false} EscapedLength(s: string)
    ensures |Escaped(s)| == JsonChars(s)
  {
    if s != "" {
      EscapedLength(s[1..]);
    }
  }

  function IdsText(ids: seq<NodeId>): string {
    if ids == [] then "" else Quoted(ids[0]) + (if |ids| > 1 then "," else "") + IdsText(ids[1..])
  }

  lemma {:induction false} IdsLength(ids: seq<NodeId>)
    ensures |IdsText(ids)| == IdsChars(ids)
  {
    hide Escaped, JsonChars;
    if ids != [] {
      EscapedLength(ids[0]);
      IdsLength(ids[1..]);
    }
  }

  function RangeText(r: SourceRange): string {
    "{\"content\":" + Quoted(Join(r.lines)) + ",\"endLine\":" + Decimal(r.end) + ",\"nodeIds\":[" + IdsText(r.nodeIds)
    + "],\"reason\":\"" + ReasonText(r.reason) + "\",\"startLine\":" + Decimal(r.start)
    + ",\"truncated\":" + (if r.truncated then "true" else "false") + "}"
  }

  lemma RangeLength(r: SourceRange)
    ensures |RangeText(r)| == RangeChars(r)
  {
    hide Escaped, JsonChars, Decimal, IdsText, IdsChars, ReasonText, Join;
    EscapedLength(Join(r.lines));
    IdsLength(r.nodeIds);
  }

  function RangesText(rs: seq<SourceRange>): string {
    if rs == [] then "" else RangeText(rs[0]) + (if |rs| > 1 then "," else "") + RangesText(rs[1..])
  }

  lemma {:induction false} RangesLength(rs: seq<SourceRange>)
    ensures |RangesText(rs)| == RangesChars(rs)
  {
    hide RangeText, RangeChars;
    if rs != [] {
      RangeLength(rs[0]);
      RangesLength(rs[1..]);
    }
  }

  /** The record a plan makes of some of its ranges. */
  function RecordText(plan: SourcePlan, ranges: seq<SourceRange>): string {
    "{\"evidence\":" + Quoted(plan.evidence) + ",\"filePath\":" + Quoted(plan.file) + ",\"ranges\":[" + RangesText(ranges)
    + "]" + (if plan.stale then ",\"stale\":true" else "") + ",\"type\":\"source\"}"
  }

  /** The estimate counts the characters of the record's JSON, four to a token, rounded up. */
  lemma EstimateCountsJson(plan: SourcePlan, ranges: seq<SourceRange>)
    ensures var text := RecordText(plan, ranges);
            && RecordChars(RecordOf(plan, ranges)) == |text|
            && 4 * EstimateTokens(RecordOf(plan, ranges)) - 4 < |text| <= 4 * EstimateTokens(RecordOf(plan, ranges))
  {
    hide Escaped, JsonChars, RangesText, RangesChars, EstimateTokens;
    EscapedLength(plan.evidence);
    EscapedLength(plan.file);
    RangesLength(ranges);
  }
}
