/**
 What each attempt to send an admission makes of the room it has, and the room each pass of
 `graph scope` gives it (src/graph/agent.rs).
 */
module Rooms {
  import opened Prelude
  import opened SourceRanges
  import opened Admissions
  import opened Estimate
  import opened Budget

  // ----- One attempt -----

  /** The tokens of the record that sends the whole admission. */
  function WholeTokens(a: Admission, plans: seq<SourcePlan>): (t: nat)
    requires a.plan < |plans|
    ensures t >= 1
  {
    EstimateTokens(RecordOf(plans[a.plan], a.ranges))
  }

  /** Complete answers are sent whole or not at all, and get tries of their own. */
  predicate Complete(a: Admission) { a.phase == Answer && a.atomic }

  predicate NeverCut(a: Admission) { a.atomic || (a.ranges != [] && WaitsWhole(a.ranges[0])) }

  /** A window of `count` lines of the admission's range, the largest one that costs at most `room`. */
  ghost predicate LargestWindow(rec: Record, a: Admission, plans: seq<SourcePlan>, room: nat, count: nat)
    requires a.plan < |plans| && |a.ranges| == 1
  {
    var plan, r := plans[a.plan], a.ranges[0];
    && 1 <= count < |r.lines| && rec == RecordOf(plan, [Window(r, count)])
    && forall c :: count < c <= |r.lines| ==> WindowTokens(plan, r, c) > room
  }

  /** The record fits the room; it is the whole admission, or the largest window of it when that may be cut. */
  ghost predicate AsLarge(rec: Record, a: Admission, plans: seq<SourcePlan>, room: nat) {
    && a.plan < |plans| && |a.ranges| == 1 && EstimateTokens(rec) <= room
    && (|| rec == RecordOf(plans[a.plan], a.ranges)
        || (!NeverCut(a) && exists count :: LargestWindow(rec, a, plans, room, count)))
  }

  /** The whole admission does not fit the room, nor does a single line of one that may be cut. */
  ghost predicate TooLarge(a: Admission, plans: seq<SourcePlan>, room: nat) {
    && a.plan < |plans| && |a.ranges| == 1 && WholeTokens(a, plans) > room
    && (!NeverCut(a) ==> a.ranges[0].lines != [] && WindowTokens(plans[a.plan], a.ranges[0], 1) > room)
  }

  ghost predicate Tells(out: Admitted, a: Admission, plans: seq<SourcePlan>, room: nat) {
    if out.records == [] then TooLarge(a, plans, room)
    else |out.records| == 1 && AsLarge(out.records[0], a, plans, room)
  }

  /** An attempt sends as much as the room allows, and nothing exactly when nothing fits. */
  lemma AttemptTells(a: Admission, plans: seq<SourcePlan>, texts: Texts, room: nat)
    requires AdmissionOk(a, plans, texts) && |a.ranges| == 1
    ensures Tells(AdmitSpec(plans[a.plan], a.ranges, room, a.atomic), a, plans, room)
  {
    hide EstimateTokens, RecordOf, WaitsWhole, LargestFit, Window, WindowTokens, Shows;
    var plan, r := plans[a.plan], a.ranges[0];
    assert a.ranges == [r];
    if WholeTokens(a, plans) > room && !a.atomic {
      AttemptOne(plan, r, room);
      assert Sized(r) by { OneIsSized(a, plans, texts); }
      FateTells(a, plans, room);
    }
  }

  lemma OneIsSized(a: Admission, plans: seq<SourcePlan>, texts: Texts)
    requires AdmissionOk(a, plans, texts) && |a.ranges| == 1
    ensures Sized(a.ranges[0])
  {
  }

  lemma AttemptOne(plan: SourcePlan, r: SourceRange, room: nat)
    ensures OneByOne(plan, [r], room) == Outcome(plan, r, FateOf(plan, r, room))
  {
    hide FateOf, Outcome;
    var first := Outcome(plan, r, FateOf(plan, r, room));
    assert [r][1..] == [];
    PlusAssociative(first, first, first);
  }

  lemma FateTells(a: Admission, plans: seq<SourcePlan>, room: nat)
    requires a.plan < |plans| && |a.ranges| == 1 && Sized(a.ranges[0]) && !a.atomic
    requires WholeTokens(a, plans) > room
    ensures Tells(Outcome(plans[a.plan], a.ranges[0], FateOf(plans[a.plan], a.ranges[0], room)), a, plans, room)
  {
    hide EstimateTokens, RecordOf, WaitsWhole, Window, LargestFit, WindowTokens;
    var plan, r := plans[a.plan], a.ranges[0];
    assert a.ranges == [r];
    var fate := FateOf(plan, r, room);
    FateWithinRoom(plan, r, room);
    NoneFits(plan, r, room);
    match fate {
      case Whole =>
      case Trimmed(cut) =>
        var count :| 1 <= count < |r.lines| && cut == Window(r, count)
                     && forall c :: count < c <= |r.lines| ==> !WindowFits(plan, r, room, c);
        assert forall c :: count < c <= |r.lines| ==> (WindowFits(plan, r, room, c) <==> WindowTokens(plan, r, c) <= room);
        assert LargestWindow(RecordOf(plan, [cut]), a, plans, room, count);
      case Deferred =>
        assert !WaitsWhole(r) ==> WindowTokens(plan, r, 1) > room;
    }
  }

  /** When the search finds nothing not even one line fits. */
  lemma NoneFits(plan: SourcePlan, r: SourceRange, room: nat)
    requires Sized(r)
    ensures LargestFit(plan, r, room).None? ==> WindowTokens(plan, r, 1) > room
    ensures LargestFit(plan, r, room).Some? ==> 1 <= LargestFit(plan, r, room).value <= |r.lines|
  {
    hide WindowTokens;
    var p := FitTest(plan, r, room);
    assert p(1) <==> WindowFits(plan, r, room, 1);
    var best := LargestFit(plan, r, room);
    assert best.Some? ==> p(best.value);
    assert best.Some? ==> WindowFits(plan, r, room, best.value);
  }

  /** What does not fit a room does not fit a smaller one. */
  lemma TooLargeLater(a: Admission, plans: seq<SourcePlan>, room: nat, less: nat)
    requires TooLarge(a, plans, room) && less <= room
    ensures TooLarge(a, plans, less)
  {
    hide WindowTokens, EstimateTokens;
  }

  /** No record costs more than its whole admission. */
  lemma NoLargerThanWhole(rec: Record, a: Admission, plans: seq<SourcePlan>, room: nat)
    requires AsLarge(rec, a, plans, room) && Sized(a.ranges[0])
    ensures EstimateTokens(rec) <= WholeTokens(a, plans)
    ensures WholeTokens(a, plans) <= room ==> rec == RecordOf(plans[a.plan], a.ranges)
  {
    hide EstimateTokens, Window, RecordOf;
    var plan, r := plans[a.plan], a.ranges[0];
    assert a.ranges == [r];
    if rec != RecordOf(plan, a.ranges) {
      var count :| LargestWindow(rec, a, plans, room, count);
      WholeWindow(r);
      assert WindowTokens(plan, r, |r.lines|) > room;
    }
  }

  // ----- The room of each pass -----

  /** The source share, what is kept for flows, and what the ledger has left at the start. */
  datatype Terms = Terms(share: nat, reserve: nat, room: nat)

  datatype Pass = First | Again | Last

  /**
   The room an admission has when records of `spent` tokens are out: at first what is left of the
   share and the ledger, for complete answers or what is left of the ledger above the flow reserve;
   in the answers' second try the latter; at last all that the flow records leave.
   */
  function Room(t: Terms, pass: Pass, a: Admission, spent: nat, flows: nat): nat {
    var left := SaturatingSub(t.room, spent);
    var shared := Min(SaturatingSub(t.share, spent), left);
    match pass
    case First => if Complete(a) then Max(shared, SaturatingSub(left, t.reserve)) else shared
    case Again => SaturatingSub(left, t.reserve)
    case Last => SaturatingSub(left, flows)
  }

  /** Everything a pass is about: its terms, the tokens of the flow records, and the admissions. */
  datatype Job = Job(t: Terms, flows: nat, admissions: seq<Admission>, plans: seq<SourcePlan>)

  function RoomAt(job: Job, pass: Pass, n: nat, records: seq<Record>, k: nat): nat
    requires n < |job.admissions| && k <= |records|
  {
    Room(job.t, pass, job.admissions[n], SumTokens(records[..k]), job.flows)
  }

  /** Record `k` is as large as its pass allows. */
  ghost predicate SentAt(job: Job, pass: Pass, records: seq<Record>, whose: seq<nat>, k: nat) {
    && k < |whose| == |records| && whose[k] < |job.admissions|
    && AsLarge(records[k], job.admissions[whose[k]], job.plans, RoomAt(job, pass, whose[k], records, k))
  }

  /** The records from `from` to `until` are those of one pass: in the order of the admissions, each as large as its room allows. */
  ghost predicate RunOf(job: Job, pass: Pass, records: seq<Record>, whose: seq<nat>, from: nat, until: nat) {
    && from <= until <= |whose| == |records|
    && (forall k :: from <= k < until ==> SentAt(job, pass, records, whose, k))
    && (forall j, k :: from <= j < k < until ==> whose[j] < whose[k])
  }

  /** Admission `n` was tried when `m` records were out, in its turn, and did not fit. */
  ghost predicate MissedAt(job: Job, pass: Pass, records: seq<Record>, whose: seq<nat>, from: nat, until: nat, n: nat, m: nat) {
    && from <= m <= until <= |whose| == |records| && n < |job.admissions|
    && (forall k :: from <= k < m ==> whose[k] < n)
    && (forall k :: m <= k < until ==> n < whose[k])
    && TooLarge(job.admissions[n], job.plans, RoomAt(job, pass, n, records, m))
  }

  ghost predicate Missed(job: Job, pass: Pass, records: seq<Record>, whose: seq<nat>, from: nat, until: nat, n: nat) {
    exists m: nat :: MissedAt(job, pass, records, whose, from, until, n, m)
  }

  // ----- Runs grow -----

  lemma SamePrefix(a: seq<Record>, b: seq<Record>, k: nat)
    requires a <= b && k <= |a|
    ensures a[..k] == b[..k]
  {
  }

  /** What a pass did stays as later passes append records. */
  lemma RunStays(job: Job, pass: Pass, records: seq<Record>, whose: seq<nat>, from: nat, until: nat,
                 records': seq<Record>, whose': seq<nat>)
    requires RunOf(job, pass, records, whose, from, until)
    requires records <= records' && whose <= whose' && |records'| == |whose'|
    ensures RunOf(job, pass, records', whose', from, until)
  {
    hide AsLarge, Room, SumTokens;
    forall k | from <= k < until
      ensures SentAt(job, pass, records', whose', k)
    {
      assert SentAt(job, pass, records, whose, k);
      SamePrefix(records, records', k);
    }
  }

  lemma MissedStays(job: Job, pass: Pass, records: seq<Record>, whose: seq<nat>, from: nat, until: nat, n: nat,
                    records': seq<Record>, whose': seq<nat>)
    requires Missed(job, pass, records, whose, from, until, n)
    requires records <= records' && whose <= whose' && |records'| == |whose'|
    ensures Missed(job, pass, records', whose', from, until, n)
  {
    hide TooLarge, Room, SumTokens;
    var m: nat :| MissedAt(job, pass, records, whose, from, until, n, m);
    SamePrefix(records, records', m);
    assert MissedAt(job, pass, records', whose', from, until, n, m);
  }

  /** One more record of the pass. */
  lemma RunSends(job: Job, pass: Pass, records: seq<Record>, whose: seq<nat>, from: nat, rec: Record, n: nat)
    requires RunOf(job, pass, records, whose, from, |whose|) && n < |job.admissions|
    requires forall k :: from <= k < |whose| ==> whose[k] < n
    requires AsLarge(rec, job.admissions[n], job.plans, RoomAt(job, pass, n, records, |records|))
    ensures RunOf(job, pass, records + [rec], whose + [n], from, |whose| + 1)
  {
    hide AsLarge, Room, SumTokens;
    RunStays(job, pass, records, whose, from, |whose|, records + [rec], whose + [n]);
    SamePrefix(records, records + [rec], |records|);
    assert SentAt(job, pass, records + [rec], whose + [n], |whose|);
  }

  /** An admission missed before stays missed when one behind it is sent. */
  lemma MissedSends(job: Job, pass: Pass, records: seq<Record>, whose: seq<nat>, from: nat, n: nat, rec: Record, next: nat)
    requires Missed(job, pass, records, whose, from, |whose|, n) && n < next
    ensures Missed(job, pass, records + [rec], whose + [next], from, |whose| + 1, n)
  {
    hide TooLarge, Room, SumTokens;
    var m: nat :| MissedAt(job, pass, records, whose, from, |whose|, n, m);
    SamePrefix(records, records + [rec], m);
    assert MissedAt(job, pass, records + [rec], whose + [next], from, |whose| + 1, n, m);
  }

  /** An admission that does not fit now is missed. */
  lemma MissesNow(job: Job, pass: Pass, records: seq<Record>, whose: seq<nat>, from: nat, n: nat)
    requires from <= |whose| == |records| && n < |job.admissions|
    requires forall k :: from <= k < |whose| ==> whose[k] < n
    requires TooLarge(job.admissions[n], job.plans, RoomAt(job, pass, n, records, |records|))
    ensures Missed(job, pass, records, whose, from, |whose|, n)
  {
    assert MissedAt(job, pass, records, whose, from, |whose|, n, |whose|);
  }

  // ----- Whole admissions -----

  /** The tokens of all admissions sent whole. */
  function SumWhole(admissions: seq<Admission>, plans: seq<SourcePlan>): nat
    requires forall i :: 0 <= i < |admissions| ==> admissions[i].plan < |plans|
  {
    if admissions == [] then 0
    else SumWhole(admissions[..|admissions| - 1], plans) + WholeTokens(admissions[|admissions| - 1], plans)
  }

  lemma SumWholeSnoc(admissions: seq<Admission>, plans: seq<SourcePlan>, i: nat)
    requires forall k :: 0 <= k < |admissions| ==> admissions[k].plan < |plans|
    requires i < |admissions|
    ensures SumWhole(admissions[..i + 1], plans) == SumWhole(admissions[..i], plans) + WholeTokens(admissions[i], plans)
  {
    assert admissions[..i + 1][..i] == admissions[..i];
  }

  lemma {:induction false} SumWholeGrows(admissions: seq<Admission>, plans: seq<SourcePlan>, i: nat, k: nat)
    requires forall k :: 0 <= k < |admissions| ==> admissions[k].plan < |plans|
    requires i <= k <= |admissions|
    ensures SumWhole(admissions[..i], plans) <= SumWhole(admissions[..k], plans)
  {
    if i < k {
      SumWholeGrows(admissions, plans, i, k - 1);
      SumWholeSnoc(admissions, plans, k - 1);
    }
  }
}
