/** Fitting planned source into a token budget (src/graph/agent.rs, src/graph/protocol.rs). */
module Budget {
  import opened Prelude
  import opened Text
  import opened SourceRanges
  import opened Admissions
  import opened Estimate

  /** A range whose lines are numbered from `start` to `end`. */
  predicate Sized(r: SourceRange) { 1 <= r.start <= r.end && |r.lines| == r.end - r.start + 1 }

  function PlanExtra(plan: SourcePlan): nat {
    12 + 2 + JsonChars(plan.evidence) + (if plan.stale then 13 else 0)
  }

  function RecordOf(plan: SourcePlan, ranges: seq<SourceRange>): Record { Record(plan.file, PlanExtra(plan), ranges) }

  // ----- Windows of one range -----

  predicate Centered(reason: Reason) { reason.QueryHit? || reason.Callsite? || reason.TextOnly? }

  function Offset(r: SourceRange, count: nat): nat
    requires count <= |r.lines|
  {
    if Centered(r.reason) then (|r.lines| - count) / 2 else 0
  }

  /** The whole-line part of `r` with `count` lines: centred for query windows, else a prefix. */
  function Window(r: SourceRange, count: nat): SourceRange
    requires 1 <= count <= |r.lines|
  {
    var offset := Offset(r, count);
    SourceRange(r.start + offset, Min(r.end, r.start + offset + count - 1), r.nodeIds,
                r.lines[offset..offset + count], count < |r.lines| || r.truncated, r.reason)
  }

  /** Windows of growing size are nested, and a window shorter than the range ends before it. */
  lemma WindowsNest(r: SourceRange, a: nat, b: nat)
    requires Sized(r) && 1 <= a <= b <= |r.lines|
    ensures Sized(Window(r, a)) && Sized(Window(r, b))
    ensures Contains(Window(r, b), Window(r, a)) && Contains(r, Window(r, b))
    ensures a < |r.lines| <==> Window(r, a).end < r.end
  {
  }

  /** Where a window lies: at the start, or in the middle of what a query, a call or plain text found. */
  lemma WindowIsPlaced(r: SourceRange, count: nat)
    requires Sized(r) && 1 <= count <= |r.lines|
    ensures var w := Window(r, count);
            var front, back := w.start - r.start, r.end - w.end;
            && w.end - w.start + 1 == count && |w.lines| == count
            && w.lines == r.lines[front..front + count]
            && (if r.reason == QueryHit || r.reason == Callsite || r.reason == TextOnly
                then front <= back <= front + 1 else front == 0)
            && w.nodeIds == r.nodeIds && w.reason == r.reason
            && (w.truncated <==> r.truncated || count < |r.lines|)
  {
  }

  lemma OffsetFits(r: SourceRange, count: nat)
    requires count <= |r.lines|
    ensures Offset(r, count) + count <= |r.lines|
  {
  }

  /** A window keeps the file text of the range it is cut from. */
  lemma WindowShows(r: SourceRange, count: nat, file: seq<string>)
    requires Shows(r, file) && 1 <= count <= |r.lines|
    ensures Shows(Window(r, count), file)
  {
    ShowsSized(r, file);
    WindowSpans(r, count);
    hide Window, Shows, IsPart;
    PartShows(r, Window(r, count), file);
  }

  lemma ShowsSized(r: SourceRange, file: seq<string>)
    requires Shows(r, file)
    ensures Sized(r)
  {
    hide ShowsLine;
  }

  lemma ShownAt(r: SourceRange, file: seq<string>, j: nat)
    requires Shows(r, file) && j < |r.lines|
    ensures 1 <= r.start + j <= |file| && ShowsLine(r.lines[j], r.start + j, file[r.start + j - 1])
  {
    hide ShowsLine;
  }

  /** Some neighbouring lines of `r`, under their numbers. */
  predicate IsPart(w: SourceRange, r: SourceRange) {
    && r.start <= w.start <= w.end <= r.end && |r.lines| == r.end - r.start + 1
    && w.lines == r.lines[w.start - r.start..w.end - r.start + 1]
  }

  lemma PartShows(r: SourceRange, w: SourceRange, file: seq<string>)
    requires Shows(r, file) && IsPart(w, r)
    ensures Shows(w, file)
  {
    hide ShowsLine;
    forall i | 0 <= i < |w.lines|
      ensures w.start + i <= |file| && ShowsLine(w.lines[i], w.start + i, file[w.start + i - 1])
    {
      ShownAt(r, file, w.start - r.start + i);
    }
  }

  lemma WindowSpans(r: SourceRange, count: nat)
    requires 1 <= count <= |r.lines| == r.end - r.start + 1
    ensures IsPart(Window(r, count), r)
  {
    OffsetFits(r, count);
    hide Offset, Centered;
  }

  lemma WindowCharsMonotone(r: SourceRange, a: nat, b: nat)
    requires Sized(r) && 1 <= a <= b <= |r.lines|
    ensures RangeChars(Window(r, a)) <= RangeChars(Window(r, b))
  {
    hide RangeChars, JsonChars, Join, Digits;
    var wa, wb := Window(r, a), Window(r, b);
    var oa, ob := Offset(r, a), Offset(r, b);
    NestedWindowChars(r.lines, oa, oa + a, ob, ob + b);
    DigitsGrowSlowly(wb.start, oa - ob);
    DigitsMonotone(wa.end, wb.end);
    RangeCharsGrow(wa, wb, oa - ob, b - a);
  }

  /** Larger windows cost at least as many tokens: each line gained outweighs the digits lost. */
  lemma WindowCostMonotone(plan: SourcePlan, r: SourceRange, a: nat, b: nat)
    requires Sized(r) && 1 <= a <= b <= |r.lines|
    ensures EstimateTokens(RecordOf(plan, [Window(r, a)])) <= EstimateTokens(RecordOf(plan, [Window(r, b)]))
  {
    hide RangeChars, RecordChars, JsonChars, Window, PlanExtra;
    var wa, wb := Window(r, a), Window(r, b);
    WindowCharsMonotone(r, a, b);
    OneRangeChars(RecordOf(plan, [wa]), wa);
    OneRangeChars(RecordOf(plan, [wb]), wb);
    EstimateMonotone(RecordOf(plan, [wa]), RecordOf(plan, [wb]));
  }

  lemma RangeCharsGrow(wa: SourceRange, wb: SourceRange, shift: nat, gain: nat)
    requires Sized(wa) && Sized(wb) && wa.nodeIds == wb.nodeIds && wa.reason == wb.reason
    requires shift <= gain && |Digits(wa.start)| <= |Digits(wb.start)| + shift && |Digits(wa.end)| <= |Digits(wb.end)|
    requires JsonChars(Join(wa.lines)) + 2 * gain <= JsonChars(Join(wb.lines))
    requires wb.truncated ==> wa.truncated
    ensures RangeChars(wa) <= RangeChars(wb)
  {
    hide JsonChars, Join, IdsChars, ReasonText;
  }

  lemma OneRangeChars(rec: Record, r: SourceRange)
    requires rec.ranges == [r]
    ensures RecordChars(rec) == RECORD_FRAME + JsonChars(rec.file) + rec.extra + RangeChars(r)
  {
    hide JsonChars, RangeChars;
    assert RangesChars([r]) == RangeChars(r) + RangesChars([r][1..]);
  }

  // ----- The ledger -----

  function SaturatingSub(a: nat, b: nat): nat { if a >= b then a - b else 0 }

  class BudgetLedger {
    var used: nat
    const max: nat
    const reserve: nat
    var dropped: bool

    constructor (maxOutputTokens: nat, reserve: nat)
      ensures used == 0 && max == maxOutputTokens && this.reserve == reserve && !dropped
    {
      used := 0;
      max := maxOutputTokens;
      this.reserve := reserve;
      dropped := false;
    }

    function Limit(): nat { SaturatingSub(max, reserve) }

    predicate Fits(tokens: nat)
      reads this
    {
      used + tokens <= Limit()
    }

    function Available(): (n: nat)
      reads this
      ensures forall t: nat :: t >= 1 ==> (Fits(t) <==> t <= n)
    {
      SaturatingSub(Limit(), used)
    }

    method TryAdd(tokens: nat) returns (ok: bool)
      modifies this
      ensures ok == old(Fits(tokens))
      ensures used == old(used) + (if ok then tokens else 0)
      ensures dropped == (old(dropped) || !ok)
    {
      ok := Fits(tokens);
      if ok {
        used := used + tokens;
      } else {
        dropped := true;
      }
    }
  }

  // ----- Searching for the largest fitting window -----

  /** Token cost of the record that sends the window of `count` lines. */
  function WindowTokens(plan: SourcePlan, r: SourceRange, count: nat): nat
    requires 1 <= count <= |r.lines|
  {
    EstimateTokens(RecordOf(plan, [Window(r, count)]))
  }

  predicate WindowFits(plan: SourcePlan, r: SourceRange, room: nat, count: nat) {
    1 <= count <= |r.lines| && WindowTokens(plan, r, count) <= room
  }

  /** The largest number up to `n` that satisfies `p`. */
  function Largest(p: nat -> bool, n: nat): (best: Option<nat>)
    ensures best.None? <==> forall c :: 0 <= c <= n ==> !p(c)
    ensures best.Some? ==> best.value <= n && p(best.value) && forall c :: best.value < c <= n ==> !p(c)
  {
    if p(n) then Some(n) else if n == 0 then None else Largest(p, n - 1)
  }

  function FitTest(plan: SourcePlan, r: SourceRange, room: nat): nat -> bool {
    (count: nat) => WindowFits(plan, r, room, count)
  }

  /** The line count of the largest window of `r` that costs at most `room`. */
  function LargestFit(plan: SourcePlan, r: SourceRange, room: nat): Option<nat> {
    Largest(FitTest(plan, r, room), |r.lines|)
  }

  lemma WindowFitsDown(plan: SourcePlan, r: SourceRange, room: nat, a: nat, b: nat)
    requires Sized(r) && 1 <= a <= b && WindowFits(plan, r, room, b)
    ensures WindowFits(plan, r, room, a)
  {
    WindowCostMonotone(plan, r, a, b);
    hide EstimateTokens, Window;
  }

  /** A fitting count with no fitting larger one is the answer; so is none when no count fits. */
  lemma LargestFitIs(plan: SourcePlan, r: SourceRange, room: nat, c: nat)
    requires c <= |r.lines|
    requires c > 0 ==> WindowFits(plan, r, room, c)
    requires forall d :: c < d <= |r.lines| ==> !WindowFits(plan, r, room, d)
    ensures LargestFit(plan, r, room) == if c == 0 then None else Some(c)
  {
    hide WindowTokens;
    var p := FitTest(plan, r, room);
    assert forall d: nat :: p(d) <==> WindowFits(plan, r, room, d);
    assert p(c) <==> c > 0;
  }

  /** The binary search finds the largest window that fits both the share and the ledger. */
  method FitSourceRange(plan: SourcePlan, r: SourceRange, available: nat, ledger: BudgetLedger)
    returns (best: Option<(Record, SourceRange)>)
    requires Sized(r)
    ensures var fit := LargestFit(plan, r, Min(available, ledger.Available()));
            && (best.Some? <==> fit.Some?)
            && (best.Some? ==>
                  && 1 <= fit.value <= |r.lines|
                  && best.value == (RecordOf(plan, [Window(r, fit.value)]), Window(r, fit.value)))
  {
    hide EstimateTokens, Window, LargestFit, RecordOf, WindowFits, WindowTokens;
    ghost var room: nat := Min(available, ledger.Available());
    best := None;
    if available == 0 {
      NothingFitsZero(plan, r);
      return;
    }
    var lo, hi := 1, |r.lines|;
    while lo <= hi
      invariant 1 <= lo <= hi + 1 <= |r.lines| + 1
      invariant lo > 1 ==> WindowFits(plan, r, room, lo - 1)
      invariant forall c :: hi < c <= |r.lines| ==> !WindowFits(plan, r, room, c)
      invariant best == if lo == 1 then None
                        else Some((RecordOf(plan, [Window(r, lo - 1)]), Window(r, lo - 1)))
    {
      var count := (lo + hi) / 2;
      var cut := Window(r, count);
      var rec := RecordOf(plan, [cut]);
      var tokens := EstimateTokens(rec);
      FitsRoom(plan, r, available, ledger.Available(), count);
      if tokens <= available && ledger.Fits(tokens) {
        best := Some((rec, cut));
        lo := count + 1;
      } else {
        NoLargerFits(plan, r, room, count);
        hi := count - 1;
      }
    }
    LargestFitIs(plan, r, room, lo - 1);
  }

  /** A window fits the smaller of two rooms iff it fits both. */
  lemma FitsRoom(plan: SourcePlan, r: SourceRange, available: nat, left: nat, count: nat)
    requires 1 <= count <= |r.lines|
    ensures var tokens := EstimateTokens(RecordOf(plan, [Window(r, count)]));
            tokens >= 1 && (WindowFits(plan, r, Min(available, left), count) <==> tokens <= available && tokens <= left)
  {
    hide EstimateTokens, Window, RecordOf;
  }

  lemma NothingFitsZero(plan: SourcePlan, r: SourceRange)
    ensures LargestFit(plan, r, 0) == None
  {
    forall d | 0 < d <= |r.lines|
      ensures !WindowFits(plan, r, 0, d)
    {
      WindowCostsSomething(plan, r, d);
    }
    hide WindowTokens;
    LargestFitIs(plan, r, 0, 0);
  }

  lemma WindowCostsSomething(plan: SourcePlan, r: SourceRange, count: nat)
    requires 1 <= count <= |r.lines|
    ensures WindowTokens(plan, r, count) >= 1
  {
    hide RecordChars, Window;
  }

  lemma NoLargerFits(plan: SourcePlan, r: SourceRange, room: nat, count: nat)
    requires Sized(r) && 1 <= count && !WindowFits(plan, r, room, count)
    ensures forall c :: count <= c <= |r.lines| ==> !WindowFits(plan, r, room, c)
  {
    hide WindowTokens;
    forall c | count <= c <= |r.lines|
      ensures !WindowFits(plan, r, room, c)
    {
      if WindowFits(plan, r, room, c) {
        WindowFitsDown(plan, r, room, count, c);
      }
    }
  }

  // ----- Admission -----

  /** What becomes of one requested range. */
  datatype Fate = Whole | Trimmed(cut: SourceRange) | Deferred

  datatype Admitted = Admitted(records: seq<Record>, deferred: seq<SourceRange>, tokens: nat, trimmed: bool)

  /** Complete declarations wait for the spill pass; they are never cut. */
  predicate WaitsWhole(r: SourceRange) {
    r.reason == CompleteSymbol && !r.truncated && r.end - r.start < COMPLETE_DECLARATION_LINES
  }

  function SingleTokens(plan: SourcePlan, r: SourceRange): (t: nat)
    ensures t >= 1
  {
    EstimateTokens(RecordOf(plan, [r]))
  }

  function FateOf(plan: SourcePlan, r: SourceRange, room: nat): Fate {
    if SingleTokens(plan, r) <= room then Whole
    else if WaitsWhole(r) then Deferred
    else
      match LargestFit(plan, r, room)
      case Some(count) => if 1 <= count <= |r.lines| then Trimmed(Window(r, count)) else Deferred
      case None => Deferred
  }

  function FateRecords(plan: SourcePlan, r: SourceRange, fate: Fate): seq<Record> {
    match fate
    case Whole => [RecordOf(plan, [r])]
    case Trimmed(cut) => [RecordOf(plan, [cut])]
    case Deferred => []
  }

  function FateTokens(plan: SourcePlan, r: SourceRange, fate: Fate): nat {
    match fate
    case Whole => SingleTokens(plan, r)
    case Trimmed(cut) => SingleTokens(plan, cut)
    case Deferred => 0
  }

  /** A fate as the outcome of admitting one range. */
  function Outcome(plan: SourcePlan, r: SourceRange, fate: Fate): Admitted {
    Admitted(FateRecords(plan, r, fate), if fate.Deferred? then [r] else [], FateTokens(plan, r, fate),
             fate.Trimmed? && (fate.cut.end < r.end || r.truncated))
  }

  function Plus(a: Admitted, b: Admitted): Admitted {
    Admitted(a.records + b.records, a.deferred + b.deferred, a.tokens + b.tokens, a.trimmed || b.trimmed)
  }

  const NOTHING := Admitted([], [], 0, false)

  /** Ranges tried one by one, each in the room the earlier ones leave. */
  function OneByOne(plan: SourcePlan, ranges: seq<SourceRange>, room: nat): Admitted {
    if ranges == [] then NOTHING
    else
      var first := Outcome(plan, ranges[0], FateOf(plan, ranges[0], room));
      Plus(first, OneByOne(plan, ranges[1..], SaturatingSub(room, first.tokens)))
  }

  function AdmitSpec(plan: SourcePlan, ranges: seq<SourceRange>, room: nat, atomic: bool): Admitted {
    var full := RecordOf(plan, ranges);
    if EstimateTokens(full) <= room then Admitted([full], [], EstimateTokens(full), false)
    else if atomic then Admitted([], ranges, 0, false)
    else OneByOne(plan, ranges, room)
  }

  lemma FateWithinRoom(plan: SourcePlan, r: SourceRange, room: nat)
    requires Sized(r)
    ensures FateTokens(plan, r, FateOf(plan, r, room)) <= room
    ensures var fate := FateOf(plan, r, room);
            fate.Trimmed? ==> exists count :: 1 <= count < |r.lines| && fate.cut == Window(r, count)
                                && forall c :: count < c <= |r.lines| ==> !WindowFits(plan, r, room, c)
  {
    var best := LargestFit(plan, r, room);
    if best.Some? {
      assert FitTest(plan, r, room)(best.value);
      WholeWindow(r);
      assert best.value == |r.lines| ==> WindowTokens(plan, r, best.value) == SingleTokens(plan, r);
      forall c | best.value < c <= |r.lines|
        ensures !WindowFits(plan, r, room, c)
      {
        assert !FitTest(plan, r, room)(c);
      }
    }
    hide EstimateTokens, Window, LargestFit;
  }

  /** When a range goes whole, waits or is given up: a complete declaration is never cut. */
  lemma FateIs(plan: SourcePlan, r: SourceRange, room: nat)
    requires Sized(r)
    ensures var fate := FateOf(plan, r, room);
            var declaration := r.reason == CompleteSymbol && !r.truncated && r.end - r.start < 160;
            && (fate.Whole? <==> EstimateTokens(RecordOf(plan, [r])) <= room)
            && (declaration ==> !fate.Trimmed?)
            && (!declaration && fate.Deferred? ==> forall c :: 1 <= c <= |r.lines| ==> WindowTokens(plan, r, c) > room)
  {
    hide EstimateTokens, Window, RecordOf, WindowTokens;
    var best := LargestFit(plan, r, room);
    var p := FitTest(plan, r, room);
    assert best.Some? ==> p(best.value);
    forall c | 1 <= c <= |r.lines| && best.None?
      ensures WindowTokens(plan, r, c) > room
    {
      assert p(c) <==> WindowFits(plan, r, room, c);
      assert !p(c);
    }
  }

  lemma WholeWindow(r: SourceRange)
    requires Sized(r)
    ensures Window(r, |r.lines|) == r
  {
  }

  lemma PlusAssociative(a: Admitted, b: Admitted, c: Admitted)
    ensures Plus(Plus(a, b), c) == Plus(a, Plus(b, c)) && Plus(a, NOTHING) == a && Plus(NOTHING, a) == a
  {
  }

  /**
   Tries the ranges one by one. The ghost `rest` is what the specification still expects of the
   untried ones.
   */
  method AdmitOneByOne(ledger: BudgetLedger, plan: SourcePlan, ranges: seq<SourceRange>, available: nat)
    returns (out: Admitted)
    requires forall i :: 0 <= i < |ranges| ==> Sized(ranges[i])
    modifies ledger
    ensures out == OneByOne(plan, ranges, Min(available, old(ledger.Available())))
    ensures ledger.used == old(ledger.used) + out.tokens
    ensures ledger.dropped == old(ledger.dropped)
  {
    hide EstimateTokens, Window, LargestFit, SingleTokens, FateOf, RecordOf, WaitsWhole;
    ghost var goal := OneByOne(plan, ranges, Min(available, ledger.Available()));
    out := NOTHING;
    var remaining := available;
    PlusAssociative(goal, goal, goal);
    assert ranges[0..] == ranges;
    for k := 0 to |ranges|
      invariant goal == Plus(out, OneByOne(plan, ranges[k..], Min(remaining, ledger.Available())))
      invariant ledger.used == old(ledger.used) + out.tokens
      invariant ledger.dropped == old(ledger.dropped)
    {
      var r := ranges[k];
      ghost var room: nat := Min(remaining, ledger.Available());
      ghost var before := out;
      var fate := AdmitOne(ledger, plan, r, remaining);
      remaining := SaturatingSub(remaining, FateTokens(plan, r, fate));
      out := Plus(out, Outcome(plan, r, fate));
      OneByOneStep(plan, ranges, k, room);
      PlusAssociative(before, Outcome(plan, r, fate), OneByOne(plan, ranges[k + 1..], SaturatingSub(room, FateTokens(plan, r, fate))));
    }
    PlusAssociative(out, out, out);
    assert ranges[|ranges|..] == [];
  }

  lemma OneByOneStep(plan: SourcePlan, ranges: seq<SourceRange>, k: nat, room: nat)
    requires k < |ranges|
    ensures var first := Outcome(plan, ranges[k], FateOf(plan, ranges[k], room));
            OneByOne(plan, ranges[k..], room) == Plus(first, OneByOne(plan, ranges[k + 1..], SaturatingSub(room, first.tokens)))
  {
    hide FateOf, Outcome;
    assert ranges[k..][0] == ranges[k] && ranges[k..][1..] == ranges[k + 1..];
  }

  /** Admits, trims or defers one range. */
  method AdmitOne(ledger: BudgetLedger, plan: SourcePlan, r: SourceRange, remaining: nat) returns (fate: Fate)
    requires Sized(r)
    modifies ledger
    ensures fate == FateOf(plan, r, Min(remaining, old(ledger.Available())))
    ensures ledger.used == old(ledger.used) + FateTokens(plan, r, fate)
    ensures ledger.dropped == old(ledger.dropped)
    ensures Min(SaturatingSub(remaining, FateTokens(plan, r, fate)), ledger.Available())
            == SaturatingSub(Min(remaining, old(ledger.Available())), FateTokens(plan, r, fate))
  {
    hide EstimateTokens, Window, LargestFit, RecordOf;
    ghost var room: nat := Min(remaining, ledger.Available());
    FateWithinRoom(plan, r, room);
    var tokens := SingleTokens(plan, r);
    if tokens <= remaining && ledger.Fits(tokens) {
      var _ := ledger.TryAdd(tokens);
      return Whole;
    }
    if WaitsWhole(r) {
      return Deferred;
    }
    var best := FitSourceRange(plan, r, remaining, ledger);
    if best.None? {
      return Deferred;
    }
    var cut := best.value.1;
    var _ := ledger.TryAdd(SingleTokens(plan, cut));
    fate := Trimmed(cut);
  }

  /**
   Admits `ranges` within `available` tokens and the ledger: together when they fit, all or
   nothing when atomic, else one by one.
   */
  method AdmitSourceWithinShare(ledger: BudgetLedger, plan: SourcePlan, ranges: seq<SourceRange>, available: nat, atomic: bool)
    returns (out: Admitted)
    requires forall i :: 0 <= i < |ranges| ==> Sized(ranges[i])
    modifies ledger
    ensures out == AdmitSpec(plan, ranges, Min(available, old(ledger.Available())), atomic)
    ensures ledger.used == old(ledger.used) + out.tokens
    ensures var full := EstimateTokens(RecordOf(plan, ranges));
            ledger.dropped == (old(ledger.dropped) || (full <= available && !old(ledger.Fits(full))))
  {
    var full := RecordOf(plan, ranges);
    var tokens := EstimateTokens(full);
    hide EstimateTokens, RecordOf, OneByOne;
    if tokens <= available {
      var ok := ledger.TryAdd(tokens);
      if ok {
        return Admitted([full], [], tokens, false);
      }
    }
    if atomic {
      return Admitted([], ranges, 0, false);
    }
    out := AdmitOneByOne(ledger, plan, ranges, available);
  }

  // ----- What an admission guarantees -----

  function SumTokens(records: seq<Record>): nat {
    if records == [] then 0 else EstimateTokens(records[0]) + SumTokens(records[1..])
  }

  lemma {:induction false} SumTokensAppend(a: seq<Record>, b: seq<Record>)
    ensures SumTokens(a + b) == SumTokens(a) + SumTokens(b)
  {
    hide EstimateTokens, RecordChars;
    if a == [] {
      assert a + b == b;
    } else {
      SumTokensAppend(a[1..], b);
      SumTokensCons(a[0], a[1..] + b);
      assert a + b == [a[0]] + (a[1..] + b);
    }
  }

  lemma SumTokensCons(rec: Record, rest: seq<Record>)
    ensures SumTokens([rec] + rest) == EstimateTokens(rec) + SumTokens(rest)
  {
    hide EstimateTokens, RecordChars;
    assert ([rec] + rest)[1..] == rest;
  }

  /** Some admitted record carries line `l`. */
  ghost predicate Recorded(records: seq<Record>, l: int) {
    exists i :: 0 <= i < |records| && Covers(records[i].ranges, l)
  }

  lemma RecordedAppend(a: seq<Record>, b: seq<Record>, l: int)
    ensures Recorded(a + b, l) <==> Recorded(a, l) || Recorded(b, l)
  {
    if Recorded(a, l) {
      var i :| 0 <= i < |a| && Covers(a[i].ranges, l);
      assert (a + b)[i] == a[i];
    }
    if Recorded(b, l) {
      var i :| 0 <= i < |b| && Covers(b[i].ranges, l);
      assert (a + b)[|a| + i] == b[i];
    }
  }

  /** Lines in and out of an admission agree, and the flag tells whether any were dropped. */
  ghost predicate Accounts(out: Admitted, ranges: seq<SourceRange>) {
    && (forall l :: Recorded(out.records, l) || Covers(out.deferred, l) ==> Covers(ranges, l))
    && (!out.trimmed ==> forall l :: Covers(ranges, l) ==> Recorded(out.records, l) || Covers(out.deferred, l))
  }

  lemma RecordedOne(rec: Record, l: int)
    ensures Recorded([rec], l) <==> Covers(rec.ranges, l)
  {
    if Covers(rec.ranges, l) {
      assert Covers([rec][0].ranges, l);
    }
  }

  lemma OutcomeAccounts(plan: SourcePlan, r: SourceRange, room: nat)
    requires Sized(r)
    ensures Accounts(Outcome(plan, r, FateOf(plan, r, room)), [r])
    ensures var out := Outcome(plan, r, FateOf(plan, r, room)); SumTokens(out.records) == out.tokens <= room
  {
    hide EstimateTokens, Window, FateOf, Covers, Recorded, RecordOf, SumTokens, LargestFit;
    var fate := FateOf(plan, r, room);
    FateWithinRoom(plan, r, room);
    forall l { CoversOne(r, l); }
    forall l { NothingCovers(l); }
    SumOfNone();
    match fate {
      case Whole =>
        SumOfOne(RecordOf(plan, [r]));
        RecordOfRanges(plan, [r]);
        forall l { RecordedOne(RecordOf(plan, [r]), l); }
      case Trimmed(cut) =>
        var count :| 1 <= count < |r.lines| && cut == Window(r, count);
        WindowsNest(r, count, count);
        SumOfOne(RecordOf(plan, [cut]));
        RecordOfRanges(plan, [cut]);
        forall l { RecordedOne(RecordOf(plan, [cut]), l); }
        forall l { CoversOne(cut, l); }
      case Deferred =>
    }
  }

  lemma NothingCovers(l: int)
    ensures !Covers([], l) && !Recorded([], l)
  {
  }

  lemma SumOfNone()
    ensures SumTokens([]) == 0
  {
  }

  lemma SumOfOne(rec: Record)
    ensures SumTokens([rec]) == EstimateTokens(rec)
  {
    hide EstimateTokens;
    assert [rec][1..] == [];
  }

  lemma RecordOfRanges(plan: SourcePlan, ranges: seq<SourceRange>)
    ensures RecordOf(plan, ranges).ranges == ranges
  {
  }

  /** Admission one by one stays within its room and accounts for every line. */
  lemma {:induction false} OneByOneGuarantees(plan: SourcePlan, ranges: seq<SourceRange>, room: nat)
    requires forall i :: 0 <= i < |ranges| ==> Sized(ranges[i])
    ensures Accounts(OneByOne(plan, ranges, room), ranges)
    ensures var out := OneByOne(plan, ranges, room); SumTokens(out.records) == out.tokens <= room
  {
    hide EstimateTokens, FateOf, Outcome;
    if ranges != [] {
      var first := Outcome(plan, ranges[0], FateOf(plan, ranges[0], room));
      var rest := OneByOne(plan, ranges[1..], SaturatingSub(room, first.tokens));
      OutcomeAccounts(plan, ranges[0], room);
      OneByOneGuarantees(plan, ranges[1..], SaturatingSub(room, first.tokens));
      SumTokensAppend(first.records, rest.records);
      assert ranges == [ranges[0]] + ranges[1..];
      forall l
        ensures Recorded(first.records + rest.records, l) <==> Recorded(first.records, l) || Recorded(rest.records, l)
        ensures Covers(first.deferred + rest.deferred, l) <==> Covers(first.deferred, l) || Covers(rest.deferred, l)
        ensures Covers(ranges, l) <==> Covers([ranges[0]], l) || Covers(ranges[1..], l)
      {
        RecordedAppend(first.records, rest.records, l);
        CoversAppend(first.deferred, rest.deferred, l);
        CoversAppend([ranges[0]], ranges[1..], l);
      }
    }
  }

  /**
   An admission never costs more than its room, its token count is that of its records, an atomic
   one is all or nothing, and unless the trimmed flag is set every requested line is either
   recorded or deferred.
   */
  lemma AdmitGuarantees(plan: SourcePlan, ranges: seq<SourceRange>, room: nat, atomic: bool)
    requires forall i :: 0 <= i < |ranges| ==> Sized(ranges[i])
    ensures var out := AdmitSpec(plan, ranges, room, atomic);
            && SumTokens(out.records) == out.tokens <= room
            && Accounts(out, ranges)
            && (atomic ==> (out.records == [RecordOf(plan, ranges)] && out.deferred == [])
                           || (out.records == [] && out.deferred == ranges))
  {
    OneByOneGuarantees(plan, ranges, room);
    var full := RecordOf(plan, ranges);
    assert SumTokens([full]) == EstimateTokens(full) + SumTokens([full][1..]);
    forall l { RecordedOne(full, l); }
    hide EstimateTokens, OneByOne, RecordOf;
  }
}
