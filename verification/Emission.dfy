/** The source passes of `graph scope`: emitting the planned admissions within the budget (src/graph/agent.rs). */
module Emission {
  import opened Prelude
  import opened SourceRanges
  import opened Admissions
  import opened Estimate
  import opened Budget
  import opened Rooms
  import opened PassRuns

  /** Coalesced admissions carry one range each. */
  ghost predicate Ready(admissions: seq<Admission>, plans: seq<SourcePlan>, texts: Texts) {
    && AdmissionsOk(admissions, plans, texts)
    && (forall i :: 0 <= i < |admissions| ==> |admissions[i].ranges| == 1)
  }

  // ----- One attempt -----

  /** The record sends a part of the admission's one range, with the file's text and all its ids. */
  ghost predicate PartOf(rec: Record, a: Admission, plans: seq<SourcePlan>, texts: Texts) {
    && a.plan < |plans| && plans[a.plan].file in texts
    && |a.ranges| == 1 && |rec.ranges| == 1
    && rec == RecordOf(plans[a.plan], rec.ranges)
    && Contains(a.ranges[0], rec.ranges[0]) && rec.ranges[0].nodeIds == a.ranges[0].nodeIds
    && AllShow(rec.ranges, texts[plans[a.plan].file])
  }

  /** The record sends every line of the admission's one range. */
  predicate WholeOf(rec: Record, a: Admission) {
    |a.ranges| == 1 && |rec.ranges| == 1 && Contains(rec.ranges[0], a.ranges[0])
  }

  /** An attempt on one range ends in one record or leaves the range as it was. */
  ghost predicate Attempted(out: Admitted, a: Admission, plans: seq<SourcePlan>, texts: Texts) {
    if out.records == [] then out.deferred == a.ranges && !out.trimmed && out.tokens == 0
    else
      && out.deferred == [] && |out.records| == 1 && PartOf(out.records[0], a, plans, texts)
      && (!out.trimmed <==> WholeOf(out.records[0], a))
      && out.tokens == EstimateTokens(out.records[0])
  }

  lemma OneRangeAttempted(a: Admission, plans: seq<SourcePlan>, texts: Texts, room: nat, atomic: bool)
    requires AdmissionOk(a, plans, texts) && |a.ranges| == 1
    ensures Sized(a.ranges[0])
    ensures var out := AdmitSpec(plans[a.plan], a.ranges, room, atomic);
            Attempted(out, a, plans, texts) && out.tokens <= room
  {
    hide EstimateTokens, Window, LargestFit, RecordOf, Shows, WaitsWhole;
    var plan, r := plans[a.plan], a.ranges[0];
    assert a.ranges == [r];
    assert Sized(r) by { ShowsIsSized(r, texts[plan.file]); }
    var full := RecordOf(plan, a.ranges);
    RecordOfRanges(plan, a.ranges);
    if EstimateTokens(full) > room && !atomic {
      OneByOneOfOne(plan, r, room);
      FateAttempted(a, plans, texts, room);
    }
  }

  lemma ShowsIsSized(r: SourceRange, file: seq<string>)
    requires Shows(r, file)
    ensures Sized(r)
  {
  }

  lemma OneByOneOfOne(plan: SourcePlan, r: SourceRange, room: nat)
    ensures OneByOne(plan, [r], room) == Outcome(plan, r, FateOf(plan, r, room))
  {
    hide FateOf, Outcome;
    var first := Outcome(plan, r, FateOf(plan, r, room));
    assert [r][1..] == [];
    PlusAssociative(first, first, first);
  }

  lemma FateAttempted(a: Admission, plans: seq<SourcePlan>, texts: Texts, room: nat)
    requires AdmissionOk(a, plans, texts) && |a.ranges| == 1
    ensures var out := Outcome(plans[a.plan], a.ranges[0], FateOf(plans[a.plan], a.ranges[0], room));
            Attempted(out, a, plans, texts) && out.tokens <= room
  {
    hide EstimateTokens, LargestFit, Window, WaitsWhole;
    var plan, r := plans[a.plan], a.ranges[0];
    var fate := FateOf(plan, r, room);
    FateWithinRoom(plan, r, room);
    if fate.Trimmed? {
      var count :| 1 <= count < |r.lines| && fate.cut == Window(r, count);
      WindowsNest(r, count, count);
      WindowShows(r, count, texts[plan.file]);
      WindowIds(r, count);
    }
  }

  /** A trimmed excerpt keeps every id of the whole one. */
  lemma WindowIds(r: SourceRange, count: nat)
    requires 1 <= count <= |r.lines|
    ensures Window(r, count).nodeIds == r.nodeIds
  {
  }

  /** One attempt, in the smaller of the tokens on offer and what the ledger has left. */
  method Attempt(ledger: BudgetLedger, plans: seq<SourcePlan>, a: Admission, available: nat, ghost texts: Texts)
    returns (out: Admitted)
    requires AdmissionOk(a, plans, texts) && |a.ranges| == 1
    modifies ledger
    ensures Attempted(out, a, plans, texts) && Tells(out, a, plans, Min(available, old(ledger.Available())))
    ensures out.tokens <= available && out.tokens <= old(ledger.Available())
    ensures ledger.used == old(ledger.used) + out.tokens
    ensures ledger.Available() == old(ledger.Available()) - out.tokens
  {
    hide AdmissionOk, Attempted, AdmitSpec, Tells;
    OneRangeAttempted(a, plans, texts, Min(available, ledger.Available()), a.atomic);
    AttemptTells(a, plans, texts, Min(available, ledger.Available()));
    assert a.plan < |plans| by { PlanExists(a, plans, texts); }
    out := AdmitSourceWithinShare(ledger, plans[a.plan], a.ranges, available, a.atomic);
  }

  lemma PlanExists(a: Admission, plans: seq<SourcePlan>, texts: Texts)
    requires AdmissionOk(a, plans, texts)
    ensures a.plan < |plans|
  {
  }

  // ----- What has been sent and what waits -----

  /** `whose[k]` names the admission record `k` was made for; no admission is named twice. */
  ghost predicate Logged(records: seq<Record>, whose: seq<nat>, admissions: seq<Admission>, plans: seq<SourcePlan>, texts: Texts) {
    && |whose| == |records|
    && (forall k: nat :: k < |whose| ==> whose[k] < |admissions| && PartOf(records[k], admissions[whose[k]], plans, texts))
    && (forall j: nat, k: nat :: j < k < |whose| ==> whose[j] != whose[k])
  }

  ghost predicate AllWhole(records: seq<Record>, whose: seq<nat>, admissions: seq<Admission>) {
    |whose| == |records| && forall k: nat :: k < |whose| ==> whose[k] < |admissions| && WholeOf(records[k], admissions[whose[k]])
  }

  /** Some record sends only a part of its admission. */
  ghost predicate SomeCut(records: seq<Record>, whose: seq<nat>, admissions: seq<Admission>) {
    |whose| == |records| && exists k: nat :: k < |whose| && IsCut(records[k], whose[k], admissions)
  }

  ghost predicate IsCut(rec: Record, n: nat, admissions: seq<Admission>) { n < |admissions| && !WholeOf(rec, admissions[n]) }

  lemma CutGrows(records: seq<Record>, whose: seq<nat>, rec: Record, n: nat, admissions: seq<Admission>)
    requires |whose| == |records|
    ensures SomeCut(records, whose, admissions) || IsCut(rec, n, admissions) ==> SomeCut(records + [rec], whose + [n], admissions)
  {
    hide IsCut;
    var rs, ns := records + [rec], whose + [n];
    if SomeCut(records, whose, admissions) {
      var k: nat :| k < |whose| && IsCut(records[k], whose[k], admissions);
      assert rs[k] == records[k] && ns[k] == whose[k];
    }
    assert rs[|whose|] == rec && ns[|whose|] == n;
  }

  /** The waiting admissions in plan order; `waits` names them. */
  ghost predicate Waiting(deferred: seq<Admission>, waits: seq<nat>, admissions: seq<Admission>) {
    && |waits| == |deferred|
    && (forall j: nat :: j < |waits| ==> waits[j] < |admissions| && deferred[j] == admissions[waits[j]])
    && (forall j: nat, k: nat :: j < k < |waits| ==> waits[j] < waits[k])
  }

  ghost predicate IsAnswer(n: nat, admissions: seq<Admission>) { n < |admissions| && admissions[n].phase == Answer }

  /** No record of a lower phase has been sent. */
  ghost predicate OnlyAnswers(whose: seq<nat>, admissions: seq<Admission>) {
    forall k: nat :: k < |whose| ==> IsAnswer(whose[k], admissions)
  }

  /** Records of answers come before records of lower phases. */
  ghost predicate AnswersFirst(whose: seq<nat>, admissions: seq<Admission>) {
    forall j: nat, k: nat :: j < k < |whose| && IsAnswer(whose[k], admissions) ==> IsAnswer(whose[j], admissions)
  }

  /** Some answer still waits at position `from` or later. */
  ghost predicate AnswerWaits(waits: seq<nat>, admissions: seq<Admission>, from: nat) {
    exists m: nat :: from <= m < |waits| && IsAnswer(waits[m], admissions)
  }

  /** One more record for an admission that has none. */
  lemma LogOne(records: seq<Record>, whose: seq<nat>, rec: Record, n: nat, admissions: seq<Admission>, plans: seq<SourcePlan>, texts: Texts)
    requires Logged(records, whose, admissions, plans, texts)
    requires n < |admissions| && n !in whose && PartOf(rec, admissions[n], plans, texts)
    ensures Logged(records + [rec], whose + [n], admissions, plans, texts)
    ensures AllWhole(records, whose, admissions) && WholeOf(rec, admissions[n]) ==> AllWhole(records + [rec], whose + [n], admissions)
  {
    hide PartOf, WholeOf;
  }

  /** An answer may follow answers only; anything may follow when no answer is left. */
  lemma OrderOne(whose: seq<nat>, n: nat, admissions: seq<Admission>)
    requires AnswersFirst(whose, admissions) && (IsAnswer(n, admissions) ==> OnlyAnswers(whose, admissions))
    ensures AnswersFirst(whose + [n], admissions)
    ensures IsAnswer(n, admissions) ==> OnlyAnswers(whose + [n], admissions)
  {
    hide IsAnswer;
  }

  lemma WaitOne(deferred: seq<Admission>, waits: seq<nat>, n: nat, admissions: seq<Admission>)
    requires Waiting(deferred, waits, admissions) && n < |admissions|
    requires forall j: nat :: j < |waits| ==> waits[j] < n
    ensures Waiting(deferred + [admissions[n]], waits + [n], admissions)
    ensures AnswerWaits(waits + [n], admissions, 0) <==> AnswerWaits(waits, admissions, 0) || IsAnswer(n, admissions)
  {
    var all := waits + [n];
    if AnswerWaits(waits, admissions, 0) {
      var m: nat :| m < |waits| && IsAnswer(waits[m], admissions);
      assert IsAnswer(all[m], admissions);
    }
    if IsAnswer(n, admissions) {
      assert IsAnswer(all[|waits|], admissions);
    }
  }

  // ----- The passes -----

  /** Everything a pass keeps, with `truncated` telling whether lines were given up. */
  ghost predicate Kept(records: seq<Record>, whose: seq<nat>, truncated: bool, admissions: seq<Admission>,
                       plans: seq<SourcePlan>, texts: Texts) {
    && Logged(records, whose, admissions, plans, texts)
    && AnswersFirst(whose, admissions)
    && (!truncated ==> AllWhole(records, whose, admissions))
  }

  /** The admissions before `i` are sent or wait. */
  ghost predicate Placed(whose: seq<nat>, waits: seq<nat>, i: nat) {
    && (forall n: nat :: n in whose || n in waits ==> n < i)
    && (forall n: nat :: n < i ==> n in whose || n in waits)
    && (forall n: nat :: n in whose ==> n !in waits)
  }

  /** The room of the two first tries together. */
  function TwoRooms(a: Admission, share: nat, left: nat, flowReserve: nat): nat {
    if Complete(a) then Max(Min(share, left), SaturatingSub(left, flowReserve)) else Min(share, left)
  }

  /** A first try within the source share; a complete answer gets a second one in the whole ledger. */
  method TryNow(ledger: BudgetLedger, plans: seq<SourcePlan>, a: Admission, share: nat, flowReserve: nat, ghost texts: Texts)
    returns (out: Admitted)
    requires AdmissionOk(a, plans, texts) && |a.ranges| == 1
    modifies ledger
    ensures Attempted(out, a, plans, texts)
    ensures Tells(out, a, plans, TwoRooms(a, share, old(ledger.Available()), flowReserve))
    ensures ledger.used == old(ledger.used) + out.tokens
    ensures out.tokens <= old(ledger.Available())
    ensures ledger.Available() == old(ledger.Available()) - out.tokens
    ensures old(ledger.used) <= ledger.Limit() ==> ledger.used <= ledger.Limit()
    ensures out.tokens <= share || ledger.Available() >= flowReserve
  {
    hide Attempted, AdmissionOk, Tells;
    ghost var left := ledger.Available();
    out := Attempt(ledger, plans, a, share, texts);
    assert out.records == [] ==> out.tokens == 0 by { NoRecordNoTokens(out, a, plans, texts); }
    if a.phase == Answer && a.atomic && out.deferred != [] {
      assert out.tokens == 0 by { DeferredIsUnsent(out, a, plans, texts); }
      ghost var first := out;
      out := Attempt(ledger, plans, a, SaturatingSub(ledger.Available(), flowReserve), texts);
      assert first.records == [] by { DeferredIsUnsent(first, a, plans, texts); }
      TriedTwice(first, out, a, plans, Min(share, left), SaturatingSub(left, flowReserve));
    } else {
      assert Complete(a) ==> out.records != [] by { SentIsUndeferred(out, a, plans, texts); }
      TriedOnce(out, a, plans, Min(share, left), TwoRooms(a, share, left, flowReserve));
    }
  }

  /** Two tries of a complete answer are one in the larger room. */
  lemma TriedTwice(first: Admitted, out: Admitted, a: Admission, plans: seq<SourcePlan>, room: nat, other: nat)
    requires Tells(first, a, plans, room) && Tells(out, a, plans, other) && first.records == [] && a.atomic
    ensures Tells(out, a, plans, Max(room, other))
  {
    hide EstimateTokens, Window;
  }

  /** What was sent in a room is what is sent in a larger one, when it is sent whole or not at all. */
  lemma TriedOnce(out: Admitted, a: Admission, plans: seq<SourcePlan>, room: nat, larger: nat)
    requires Tells(out, a, plans, room) && room <= larger && (larger == room || (a.atomic && out.records != []))
    ensures Tells(out, a, plans, larger)
  {
    hide EstimateTokens, Window;
  }

  lemma SentIsUndeferred(out: Admitted, a: Admission, plans: seq<SourcePlan>, texts: Texts)
    requires Attempted(out, a, plans, texts) && |a.ranges| == 1
    ensures out.records != [] <==> out.deferred == []
  {
  }

  lemma NoRecordNoTokens(out: Admitted, a: Admission, plans: seq<SourcePlan>, texts: Texts)
    requires Attempted(out, a, plans, texts)
    ensures out.records == [] ==> out.tokens == 0
  {
  }

  lemma DeferredIsUnsent(out: Admitted, a: Admission, plans: seq<SourcePlan>, texts: Texts)
    requires Attempted(out, a, plans, texts)
    ensures out.deferred != [] ==> out.records == [] && out.tokens == 0 && out.deferred == a.ranges
  {
  }

  /** The first pass after `i` admissions: answers that wait hold every lower phase back. */
  ghost predicate FirstInv(records: seq<Record>, whose: seq<nat>, deferred: seq<Admission>, waits: seq<nat>,
                           truncated: bool, deferLower: bool, i: nat,
                           admissions: seq<Admission>, plans: seq<SourcePlan>, texts: Texts)
  {
    && Kept(records, whose, truncated, admissions, plans, texts)
    && Waiting(deferred, waits, admissions)
    && Placed(whose, waits, i)
    && (deferLower <==> AnswerWaits(waits, admissions, 0))
    && (deferLower ==> OnlyAnswers(whose, admissions))
  }

  lemma EarlierAreAnswers(whose: seq<nat>, i: nat, admissions: seq<Admission>)
    requires PhaseSorted(admissions) && IsAnswer(i, admissions)
    requires forall n: nat :: n in whose ==> n < i
    ensures OnlyAnswers(whose, admissions)
  {
    forall k: nat | k < |whose| ensures IsAnswer(whose[k], admissions) {
      assert whose[k] in whose;
      assert Rank(admissions[whose[k]].phase) <= Rank(admissions[i].phase);
    }
  }

  lemma SendFirst(records: seq<Record>, whose: seq<nat>, deferred: seq<Admission>, waits: seq<nat>,
                  truncated: bool, deferLower: bool, i: nat, rec: Record, trimmed: bool,
                  admissions: seq<Admission>, plans: seq<SourcePlan>, texts: Texts)
    requires PhaseSorted(admissions) && i < |admissions|
    requires FirstInv(records, whose, deferred, waits, truncated, deferLower, i, admissions, plans, texts)
    requires PartOf(rec, admissions[i], plans, texts) && (!trimmed ==> WholeOf(rec, admissions[i]))
    requires deferLower ==> IsAnswer(i, admissions)
    ensures FirstInv(records + [rec], whose + [i], deferred, waits, truncated || trimmed, deferLower, i + 1,
                     admissions, plans, texts)
  {
    hide PartOf, WholeOf, Waiting, Logged, AllWhole, AnswersFirst, OnlyAnswers, AnswerWaits, IsAnswer, PhaseSorted;
    LogOne(records, whose, rec, i, admissions, plans, texts);
    if IsAnswer(i, admissions) {
      EarlierAreAnswers(whose, i, admissions);
    }
    OrderOne(whose, i, admissions);
  }

  lemma DeferFirst(records: seq<Record>, whose: seq<nat>, deferred: seq<Admission>, waits: seq<nat>,
                   truncated: bool, deferLower: bool, i: nat,
                   admissions: seq<Admission>, plans: seq<SourcePlan>, texts: Texts)
    requires PhaseSorted(admissions) && i < |admissions|
    requires FirstInv(records, whose, deferred, waits, truncated, deferLower, i, admissions, plans, texts)
    ensures FirstInv(records, whose, deferred + [admissions[i]], waits + [i], truncated,
                     deferLower || IsAnswer(i, admissions), i + 1, admissions, plans, texts)
  {
    hide Kept, Waiting, OnlyAnswers, AnswerWaits, IsAnswer, PhaseSorted;
    assert forall j: nat :: j < |waits| ==> waits[j] in waits;
    WaitOne(deferred, waits, i, admissions);
    if IsAnswer(i, admissions) {
      EarlierAreAnswers(whose, i, admissions);
    }
  }

  /** Everything the first pass keeps. */
  ghost predicate FirstState(job: Job, records: seq<Record>, whose: seq<nat>, deferred: seq<Admission>, waits: seq<nat>,
                             truncated: bool, deferLower: bool, i: nat, texts: Texts)
  {
    && FirstInv(records, whose, deferred, waits, truncated, deferLower, i, job.admissions, job.plans, texts)
    && FirstTold(job, records, whose, i) && |whose| == |records|
    && (truncated ==> SomeCut(records, whose, job.admissions))
    && AllKnown(job.admissions, job.plans) && i <= |job.admissions|
    && SumTokens(records) <= SumWhole(job.admissions[..i], job.plans)
    && (FitsWhole(job) ==> waits == [] && !truncated && !deferLower)
  }

  lemma StateStarts(job: Job, texts: Texts)
    requires Ready(job.admissions, job.plans, texts)
    ensures FirstState(job, [], [], [], [], false, false, 0, texts)
  {
    NothingYet(job.admissions, job.plans, texts);
    FirstStarts(job);
    AreKnown(job.admissions, job.plans, texts);
    SumOfNone();
  }

  /** What the attempt on admission `i` in the room of the first pass tells. */
  ghost predicate TriedFirst(job: Job, records: seq<Record>, i: nat, out: Admitted, texts: Texts)
    requires i < |job.admissions|
  {
    var a := job.admissions[i];
    && AdmissionOk(a, job.plans, texts) && |a.ranges| == 1 && Attempted(out, a, job.plans, texts)
    && Tells(out, a, job.plans, TwoRooms(a, SaturatingSub(job.t.share, SumTokens(records)),
                                         SaturatingSub(job.t.room, SumTokens(records)), job.t.reserve))
  }

  lemma StateSends(job: Job, records: seq<Record>, whose: seq<nat>, deferred: seq<Admission>, waits: seq<nat>,
                   truncated: bool, deferLower: bool, i: nat, out: Admitted, texts: Texts)
    requires PhaseSorted(job.admissions) && i < |job.admissions|
    requires FirstState(job, records, whose, deferred, waits, truncated, deferLower, i, texts)
    requires TriedFirst(job, records, i, out, texts) && out.records != []
    requires deferLower ==> IsAnswer(i, job.admissions)
    ensures FirstState(job, records + out.records, whose + [i], deferred, waits, truncated || out.trimmed, deferLower, i + 1, texts)
    ensures SumTokens(records + out.records) == SumTokens(records) + out.tokens
  {
    hide FirstInv, FirstTold, SomeCut, PhaseSorted, IsAnswer, SumTokens, SumWhole, FitsWhole, TriedFirst, PartOf, WholeOf;
    var a, rec := job.admissions[i], out.records[0];
    AttemptGives(job, records, i, out, texts);
    FirstToldNext(job, records, whose, i, out, texts);
    FitsSent(job, records, i, out, texts);
    CutGrows(records, whose, rec, i, job.admissions);
    SendFirst(records, whose, deferred, waits, truncated, deferLower, i, rec, out.trimmed, job.admissions, job.plans, texts);
    LogTokens(records, rec);
    SumWholeSnoc(job.admissions, job.plans, i);
  }

  lemma AttemptGives(job: Job, records: seq<Record>, i: nat, out: Admitted, texts: Texts)
    requires i < |job.admissions| && TriedFirst(job, records, i, out, texts)
    ensures var a := job.admissions[i];
            && (out.records == [] ==> out.deferred == a.ranges && out.deferred != [] && !out.trimmed && out.tokens == 0
                                      && a.(ranges := out.deferred) == a)
            && (out.records != [] ==> out.deferred == [] && out.records == [out.records[0]]
                                      && PartOf(out.records[0], a, job.plans, texts)
                                      && (!out.trimmed <==> WholeOf(out.records[0], a))
                                      && out.tokens == EstimateTokens(out.records[0]))
  {
    hide Tells;
    AttemptCases(out, job.admissions[i], job.plans, texts);
  }

  lemma StateMisses(job: Job, records: seq<Record>, whose: seq<nat>, deferred: seq<Admission>, waits: seq<nat>,
                    truncated: bool, deferLower: bool, i: nat, out: Admitted, texts: Texts)
    requires PhaseSorted(job.admissions) && i < |job.admissions|
    requires FirstState(job, records, whose, deferred, waits, truncated, deferLower, i, texts)
    requires TriedFirst(job, records, i, out, texts) && out.records == []
    ensures FirstState(job, records, whose, deferred + [job.admissions[i]], waits + [i], truncated,
                       deferLower || IsAnswer(i, job.admissions), i + 1, texts)
  {
    hide FirstInv, FirstTold, SomeCut, PhaseSorted, IsAnswer, SumTokens, SumWhole, FitsWhole, TriedFirst;
    FirstToldNext(job, records, whose, i, out, texts);
    FitsSent(job, records, i, out, texts);
    DeferFirst(records, whose, deferred, waits, truncated, deferLower, i, job.admissions, job.plans, texts);
    SumWholeSnoc(job.admissions, job.plans, i);
  }

  lemma StateHolds(job: Job, records: seq<Record>, whose: seq<nat>, deferred: seq<Admission>, waits: seq<nat>,
                   truncated: bool, i: nat, texts: Texts)
    requires PhaseSorted(job.admissions) && i < |job.admissions| && job.admissions[i].phase != Answer
    requires FirstState(job, records, whose, deferred, waits, truncated, true, i, texts)
    ensures FirstState(job, records, whose, deferred + [job.admissions[i]], waits + [i], truncated, true, i + 1, texts)
  {
    hide FirstTold, SomeCut, PhaseSorted, SumTokens, SumWhole, FitsWhole, HeldBack, FirstInv;
    IsHeldBack(records, whose, deferred, waits, truncated, i, job.admissions, job.plans, texts);
    FirstHolds(job, records, whose, i);
    DeferFirst(records, whose, deferred, waits, truncated, true, i, job.admissions, job.plans, texts);
    SumWholeSnoc(job.admissions, job.plans, i);
  }

  lemma StateIs(job: Job, records: seq<Record>, whose: seq<nat>, deferred: seq<Admission>, waits: seq<nat>,
                truncated: bool, deferLower: bool, texts: Texts)
    requires FirstState(job, records, whose, deferred, waits, truncated, deferLower, |job.admissions|, texts)
    ensures FirstTold(job, records, whose, |job.admissions|)
    ensures truncated ==> SomeCut(records, whose, job.admissions)
    ensures AllKnown(job.admissions, job.plans) && SumTokens(records) <= SumWhole(job.admissions, job.plans)
    ensures FitsWhole(job) ==> waits == [] && !truncated
    ensures Kept(records, whose, truncated, job.admissions, job.plans, texts)
    ensures Waiting(deferred, waits, job.admissions) && Placed(whose, waits, |job.admissions|)
    ensures AnswerWaits(waits, job.admissions, 0) ==> OnlyAnswers(whose, job.admissions)
  {
    hide FirstTold, SomeCut, SumTokens, SumWhole, FitsWhole, Kept, Waiting, Placed, AnswerWaits, OnlyAnswers;
    assert job.admissions[..|job.admissions|] == job.admissions;
  }

  lemma NothingSpent(room: nat)
    ensures SaturatingSub(room, 0) == room
  {
  }

  /** Spending from the share, or above the flow reserve, keeps the reserve. */
  lemma Spend(t: Terms, spent: nat, tokens: nat, left: nat)
    requires left == SaturatingSub(t.room, spent) && tokens <= left
    ensures left - tokens == SaturatingSub(t.room, spent + tokens)
    ensures (t.reserve + t.share <= t.room && t.reserve <= left
             && (tokens <= SaturatingSub(t.share, spent) || left - tokens >= t.reserve)) ==> t.reserve <= left - tokens
  {
  }

  /** Admissions in plan order within the source share; what cannot go now waits. */
  method FirstPass(ledger: BudgetLedger, plans: seq<SourcePlan>, admissions: seq<Admission>, sourceShare: nat,
                   flowReserve: nat, ghost job: Job, ghost texts: Texts)
    returns (records: seq<Record>, ghost whose: seq<nat>, deferred: seq<Admission>, ghost waits: seq<nat>, truncated: bool)
    requires Ready(admissions, plans, texts) && PhaseSorted(admissions)
    requires job == Job(Terms(sourceShare, flowReserve, ledger.Available()), job.flows, admissions, plans)
    modifies ledger
    ensures FirstTold(job, records, whose, |admissions|)
    ensures truncated ==> SomeCut(records, whose, admissions)
    ensures AllKnown(admissions, plans) && SumTokens(records) <= SumWhole(admissions, plans)
    ensures FitsWhole(job) ==> waits == [] && !truncated
    ensures Kept(records, whose, truncated, admissions, plans, texts)
    ensures Waiting(deferred, waits, admissions) && Placed(whose, waits, |admissions|)
    ensures AnswerWaits(waits, admissions, 0) ==> OnlyAnswers(whose, admissions)
    ensures ledger.used == old(ledger.used) + SumTokens(records)
    ensures old(ledger.used) <= ledger.Limit() ==> ledger.used <= ledger.Limit()
    ensures flowReserve + sourceShare <= old(ledger.Available()) ==> flowReserve <= ledger.Available()
    ensures ledger.Available() == SaturatingSub(job.t.room, SumTokens(records))
  {
    hide PartOf, WholeOf, Attempted, AdmissionOk, FirstState, Tells, Kept, Waiting, Placed, OnlyAnswers, AnswerWaits;
    hide PhaseSorted, EstimateTokens, SumTokens, SumWhole, FirstTold, SomeCut, FitsWhole, TwoRooms, AllKnown, SaturatingSub;
    records, whose, deferred, waits, truncated := [], [], [], [], false;
    NothingSpent(ledger.Available());
    var sourceTokens := 0;
    var deferLower := false;
    StateStarts(job, texts);
    SumOfNone();
    for i := 0 to |admissions|
      invariant FirstState(job, records, whose, deferred, waits, truncated, deferLower, i, texts)
      invariant sourceTokens == SumTokens(records) && ledger.used == old(ledger.used) + sourceTokens
      invariant old(ledger.used) <= ledger.Limit() ==> ledger.used <= ledger.Limit()
      invariant flowReserve + sourceShare <= old(ledger.Available()) ==> flowReserve <= ledger.Available()
      invariant ledger.Available() == SaturatingSub(job.t.room, sourceTokens)
    {
      var a := admissions[i];
      if deferLower && a.phase != Answer {
        StateHolds(job, records, whose, deferred, waits, truncated, i, texts);
        deferred, waits := deferred + [a], waits + [i];
      } else {
        ghost var left := ledger.Available();
        var out := TryNow(ledger, plans, a, SaturatingSub(sourceShare, sourceTokens), flowReserve, texts);
        Spend(job.t, sourceTokens, out.tokens, left);
        AttemptCases(out, a, plans, texts);
        assert TriedFirst(job, records, i, out, texts);
        if out.records != [] {
          StateSends(job, records, whose, deferred, waits, truncated, deferLower, i, out, texts);
          whose := whose + [i];
        } else {
          StateMisses(job, records, whose, deferred, waits, truncated, deferLower, i, out, texts);
          assert records + [] == records;
          waits := waits + [i];
        }
        records := records + out.records;
        sourceTokens := sourceTokens + out.tokens;
        truncated := truncated || out.trimmed;
        if a.phase == Answer && out.deferred != [] {
          deferLower := true;
        }
        if out.deferred != [] {
          deferred := deferred + [a.(ranges := out.deferred)];
        }
      }
    }
    StateIs(job, records, whose, deferred, waits, truncated, deferLower, texts);
  }

  ghost predicate AllKnown(admissions: seq<Admission>, plans: seq<SourcePlan>) {
    forall i :: 0 <= i < |admissions| ==> admissions[i].plan < |plans|
  }

  lemma AreKnown(admissions: seq<Admission>, plans: seq<SourcePlan>, texts: Texts)
    requires Ready(admissions, plans, texts)
    ensures AllKnown(admissions, plans) && SumWhole(admissions[..0], plans) == 0
    ensures admissions[..|admissions|] == admissions
  {
    forall i | 0 <= i < |admissions|
      ensures admissions[i].plan < |plans|
    {
      assert AdmissionOk(admissions[i], plans, texts);
    }
  }

  /** All admissions, sent whole, fit the source share and the ledger. */
  ghost predicate FitsWhole(job: Job) {
    && AllKnown(job.admissions, job.plans)
    && SumWhole(job.admissions, job.plans) <= job.t.share && SumWhole(job.admissions, job.plans) <= job.t.room
  }

  lemma IsHeldBack(records: seq<Record>, whose: seq<nat>, deferred: seq<Admission>, waits: seq<nat>, truncated: bool,
                   i: nat, admissions: seq<Admission>, plans: seq<SourcePlan>, texts: Texts)
    requires FirstInv(records, whose, deferred, waits, truncated, true, i, admissions, plans, texts)
    requires i < |admissions| && admissions[i].phase != Answer
    ensures HeldBack(whose, i, admissions)
  {
    hide Kept, Waiting, OnlyAnswers;
    var m: nat :| m < |waits| && IsAnswer(waits[m], admissions);
    assert waits[m] in waits && AnswerAt(waits[m], admissions);
  }

  lemma FirstToldNext(job: Job, records: seq<Record>, whose: seq<nat>, i: nat, out: Admitted, texts: Texts)
    requires FirstTold(job, records, whose, i) && i < |job.admissions| && TriedFirst(job, records, i, out, texts)
    ensures if out.records == [] then FirstTold(job, records, whose, i + 1)
            else FirstTold(job, records + [out.records[0]], whose + [i], i + 1)
  {
    hide AsLarge, TooLarge, SumTokens, FirstTold, Attempted, AdmissionOk;
    if out.records == [] {
      FirstMisses(job, records, whose, i);
    } else {
      FirstSends(job, records, whose, i, out.records[0]);
    }
  }

  /** When everything fits, the next admission fits what the ones before it leave. */
  lemma WholeFits(job: Job, spent: nat, i: nat)
    requires i < |job.admissions| && AllKnown(job.admissions, job.plans) && FitsWhole(job)
    requires spent <= SumWhole(job.admissions[..i], job.plans)
    ensures WholeTokens(job.admissions[i], job.plans) <= Room(job.t, First, job.admissions[i], spent, job.flows)
  {
    hide SumWhole, WholeTokens;
    SumWholeSnoc(job.admissions, job.plans, i);
    SumWholeGrows(job.admissions, job.plans, i + 1, |job.admissions|);
    assert job.admissions[..|job.admissions|] == job.admissions;
  }

  /** No record is larger than its admission, and when everything fits the admission is sent whole. */
  lemma FitsSent(job: Job, records: seq<Record>, i: nat, out: Admitted, texts: Texts)
    requires i < |job.admissions| && TriedFirst(job, records, i, out, texts)
    requires AllKnown(job.admissions, job.plans) && SumTokens(records) <= SumWhole(job.admissions[..i], job.plans)
    ensures out.tokens <= WholeTokens(job.admissions[i], job.plans)
    ensures FitsWhole(job) ==> out.records != [] && !out.trimmed
  {
    hide EstimateTokens, SumTokens, Window, LargestWindow, SumWhole, PartOf, Shows, FitsWhole, WholeTokens;
    var a := job.admissions[i];
    assert Sized(a.ranges[0]) by { OneIsSized(a, job.plans, texts); }
    var room := Room(job.t, First, a, SumTokens(records), job.flows);
    if FitsWhole(job) {
      WholeFits(job, SumTokens(records), i);
    }
    if out.records != [] {
      NoLargerThanWhole(out.records[0], a, job.plans, room);
      RecordOfRanges(job.plans[a.plan], a.ranges);
    }
  }

  lemma NothingYet(admissions: seq<Admission>, plans: seq<SourcePlan>, texts: Texts)
    ensures FirstInv([], [], [], [], false, false, 0, admissions, plans, texts)
  {
  }

  lemma LogTokens(records: seq<Record>, rec: Record)
    ensures SumTokens(records + [rec]) == SumTokens(records) + EstimateTokens(rec)
  {
    hide EstimateTokens;
    SumTokensAppend(records, [rec]);
    SumTokensCons(rec, []);
    assert [rec] + [] == [rec];
  }

  lemma AttemptCases(out: Admitted, a: Admission, plans: seq<SourcePlan>, texts: Texts)
    requires Attempted(out, a, plans, texts) && |a.ranges| == 1
    ensures out.records == [] ==> out.deferred == a.ranges && out.deferred != [] && !out.trimmed && out.tokens == 0
                                  && a.(ranges := out.deferred) == a
    ensures out.records != [] ==>
              && out.deferred == [] && out.records == [out.records[0]] && PartOf(out.records[0], a, plans, texts)
              && (!out.trimmed <==> WholeOf(out.records[0], a)) && out.tokens == EstimateTokens(out.records[0])
  {
  }

  /**
   A later pass, with the first `j` of the waiting admissions tried and some of them kept for the
   pass after it; an admission neither sent nor waiting is one given up as truncated.
   */
  ghost predicate LateInv(records: seq<Record>, whose: seq<nat>, waits: seq<nat>, j: nat,
                          kept: seq<Admission>, keptWaits: seq<nat>, truncated: bool,
                          admissions: seq<Admission>, plans: seq<SourcePlan>, texts: Texts)
  {
    && Kept(records, whose, truncated, admissions, plans, texts)
    && Waiting(kept, keptWaits, admissions)
    && Apart(whose, waits, j, keptWaits)
    && (!truncated ==> forall n: nat :: n < |admissions| ==> n in whose || n in keptWaits || WaitsFrom(waits, j, n))
    && (AnswerWaits(keptWaits, admissions, 0) || AnswerWaits(waits, admissions, j) ==> OnlyAnswers(whose, admissions))
  }

  ghost predicate WaitsFrom(waits: seq<nat>, j: nat, n: nat) { exists m: nat :: j <= m < |waits| && waits[m] == n }

  /** Sent, kept and still waiting admissions are different ones, and the kept come before the waiting. */
  ghost predicate Apart(whose: seq<nat>, waits: seq<nat>, j: nat, keptWaits: seq<nat>) {
    && j <= |waits|
    && (forall m: nat :: j <= m < |waits| ==> waits[m] !in whose)
    && (forall m: nat :: m < |keptWaits| ==> keptWaits[m] !in whose)
    && (forall l: nat, m: nat :: l < |keptWaits| && j <= m < |waits| ==> keptWaits[l] < waits[m])
  }

  lemma MovesOn(waits: seq<nat>, j: nat, admissions: seq<Admission>)
    requires j < |waits|
    ensures forall n: nat :: WaitsFrom(waits, j, n) <==> n == waits[j] || WaitsFrom(waits, j + 1, n)
    ensures AnswerWaits(waits, admissions, j) <==> IsAnswer(waits[j], admissions) || AnswerWaits(waits, admissions, j + 1)
  {
    hide IsAnswer;
    forall n: nat ensures WaitsFrom(waits, j, n) <==> n == waits[j] || WaitsFrom(waits, j + 1, n) {
      if WaitsFrom(waits, j, n) {
        var m: nat :| j <= m < |waits| && waits[m] == n;
      }
    }
    if AnswerWaits(waits, admissions, j) {
      var m: nat :| j <= m < |waits| && IsAnswer(waits[m], admissions);
    }
  }

  /** Plan order: once a lower phase is reached no answer is left. */
  lemma NoAnswerLeft(deferred: seq<Admission>, waits: seq<nat>, j: nat, admissions: seq<Admission>)
    requires PhaseSorted(admissions) && Waiting(deferred, waits, admissions) && j < |waits| && !IsAnswer(waits[j], admissions)
    ensures !AnswerWaits(waits, admissions, j)
  {
    forall m: nat | j <= m < |waits| ensures !IsAnswer(waits[m], admissions) {
      assert waits[j] <= waits[m];
      assert Rank(admissions[waits[j]].phase) <= Rank(admissions[waits[m]].phase);
    }
  }

  lemma SendApart(whose: seq<nat>, deferred: seq<Admission>, waits: seq<nat>, j: nat, keptWaits: seq<nat>,
                  admissions: seq<Admission>)
    requires Waiting(deferred, waits, admissions) && j < |waits| && Apart(whose, waits, j, keptWaits)
    ensures waits[j] !in whose && Apart(whose + [waits[j]], waits, j + 1, keptWaits)
  {
  }

  lemma SendLate(records: seq<Record>, whose: seq<nat>, deferred: seq<Admission>, waits: seq<nat>, j: nat,
                 kept: seq<Admission>, keptWaits: seq<nat>, truncated: bool, rec: Record, trimmed: bool,
                 admissions: seq<Admission>, plans: seq<SourcePlan>, texts: Texts)
    requires PhaseSorted(admissions) && Waiting(deferred, waits, admissions) && j < |waits|
    requires LateInv(records, whose, waits, j, kept, keptWaits, truncated, admissions, plans, texts)
    requires PartOf(rec, deferred[j], plans, texts) && (!trimmed ==> WholeOf(rec, deferred[j]))
    requires IsAnswer(waits[j], admissions) || keptWaits == []
    ensures LateInv(records + [rec], whose + [waits[j]], waits, j + 1, kept, keptWaits, truncated || trimmed,
                    admissions, plans, texts)
  {
    var n := waits[j];
    assert n < |admissions| && deferred[j] == admissions[n];
    SendApart(whose, deferred, waits, j, keptWaits, admissions);
    hide PartOf, WholeOf, Waiting, Logged, AllWhole, AnswersFirst, OnlyAnswers, AnswerWaits, IsAnswer, PhaseSorted, WaitsFrom, Apart;
    MovesOn(waits, j, admissions);
    LogOne(records, whose, rec, n, admissions, plans, texts);
    OrderOne(whose, n, admissions);
    if !IsAnswer(n, admissions) {
      NoAnswerLeft(deferred, waits, j, admissions);
      NoAnswerWaits(admissions);
    }
  }

  lemma NoAnswerWaits(admissions: seq<Admission>)
    ensures !AnswerWaits([], admissions, 0)
  {
  }

  lemma GiveUp(records: seq<Record>, whose: seq<nat>, waits: seq<nat>, j: nat,
               kept: seq<Admission>, keptWaits: seq<nat>, truncated: bool,
               admissions: seq<Admission>, plans: seq<SourcePlan>, texts: Texts)
    requires j < |waits|
    requires LateInv(records, whose, waits, j, kept, keptWaits, truncated, admissions, plans, texts)
    ensures LateInv(records, whose, waits, j + 1, kept, keptWaits, true, admissions, plans, texts)
  {
    hide Logged, AllWhole, AnswersFirst, OnlyAnswers, AnswerWaits, WaitsFrom;
    MovesOn(waits, j, admissions);
  }

  lemma KeepLate(records: seq<Record>, whose: seq<nat>, deferred: seq<Admission>, waits: seq<nat>, j: nat,
                 kept: seq<Admission>, keptWaits: seq<nat>, truncated: bool,
                 admissions: seq<Admission>, plans: seq<SourcePlan>, texts: Texts)
    requires Waiting(deferred, waits, admissions) && j < |waits|
    requires LateInv(records, whose, waits, j, kept, keptWaits, truncated, admissions, plans, texts)
    ensures LateInv(records, whose, waits, j + 1, kept + [deferred[j]], keptWaits + [waits[j]], truncated,
                    admissions, plans, texts)
  {
    assert waits[j] < |admissions| && deferred[j] == admissions[waits[j]];
    assert forall m: nat :: j < m < |waits| ==> waits[j] < waits[m];
    hide Kept, OnlyAnswers, AnswerWaits, WaitsFrom, IsAnswer, Waiting;
    MovesOn(waits, j, admissions);
    WaitOne(kept, keptWaits, waits[j], admissions);
  }

  /** An admission that is neither sent nor waits any more. */
  ghost predicate GivenUp(whose: seq<nat>, waits: seq<nat>, j: nat, keptWaits: seq<nat>, admissions: seq<Admission>) {
    exists n: nat :: n < |admissions| && n !in whose && n !in keptWaits && !WaitsFrom(waits, j, n)
  }

  /** What `truncated` is for: something else, a record that was cut, or an admission given up. */
  ghost predicate Because(other: bool, records: seq<Record>, whose: seq<nat>, waits: seq<nat>, j: nat,
                          keptWaits: seq<nat>, admissions: seq<Admission>) {
    other || SomeCut(records, whose, admissions) || GivenUp(whose, waits, j, keptWaits, admissions)
  }

  lemma BecauseSends(other: bool, records: seq<Record>, whose: seq<nat>, waits: seq<nat>, j: nat, keptWaits: seq<nat>,
                     rec: Record, admissions: seq<Admission>)
    requires j < |waits| && |whose| == |records|
    ensures Because(other, records, whose, waits, j, keptWaits, admissions) || IsCut(rec, waits[j], admissions)
            ==> Because(other, records + [rec], whose + [waits[j]], waits, j + 1, keptWaits, admissions)
  {
    hide SomeCut, WaitsFrom, IsCut;
    CutGrows(records, whose, rec, waits[j], admissions);
    MovesOn(waits, j, admissions);
  }

  lemma BecauseKeeps(other: bool, records: seq<Record>, whose: seq<nat>, waits: seq<nat>, j: nat, keptWaits: seq<nat>,
                     admissions: seq<Admission>)
    requires j < |waits|
    ensures Because(other, records, whose, waits, j, keptWaits, admissions)
            ==> Because(other, records, whose, waits, j + 1, keptWaits + [waits[j]], admissions)
  {
    hide SomeCut, WaitsFrom;
    MovesOn(waits, j, admissions);
  }

  lemma BecauseGivesUp(other: bool, records: seq<Record>, whose: seq<nat>, deferred: seq<Admission>, waits: seq<nat>, j: nat,
                       keptWaits: seq<nat>, admissions: seq<Admission>)
    requires j < |waits| && Waiting(deferred, waits, admissions) && Apart(whose, waits, j, keptWaits)
    ensures Because(other, records, whose, waits, j + 1, keptWaits, admissions)
  {
    hide SomeCut;
    var n := waits[j];
    assert n !in keptWaits;
    assert !WaitsFrom(waits, j + 1, n);
    assert GivenUp(whose, waits, j + 1, keptWaits, admissions);
  }

  lemma LateIsApart(records: seq<Record>, whose: seq<nat>, waits: seq<nat>, j: nat, kept: seq<Admission>, keptWaits: seq<nat>,
                    truncated: bool, admissions: seq<Admission>, plans: seq<SourcePlan>, texts: Texts)
    requires LateInv(records, whose, waits, j, kept, keptWaits, truncated, admissions, plans, texts)
    ensures Apart(whose, waits, j, keptWaits) && |whose| == |records|
    ensures j < |waits| ==> waits[j] !in whose
  {
    hide AnswersFirst, AllWhole, PartOf, AnswerWaits, OnlyAnswers, WaitsFrom;
  }

  lemma WaitingInTurn(deferred: seq<Admission>, waits: seq<nat>, admissions: seq<Admission>)
    requires Waiting(deferred, waits, admissions)
    ensures InTurn(waits, |admissions|)
  {
  }

  /** What the attempt in the room of a later pass says about the admission whose turn it is. */
  lemma LateToldNext(job: Job, pass: Pass, from: nat, records: seq<Record>, whose: seq<nat>, deferred: seq<Admission>,
                     waits: seq<nat>, j: nat, keptWaits: seq<nat>, out: Admitted, room: nat)
    requires LateTold(job, pass, from, records, whose, waits, j, keptWaits) && Waiting(deferred, waits, job.admissions)
    requires j < |waits| && Turn(job, pass, waits[j]) && Tells(out, deferred[j], job.plans, room)
    requires room == Room(job.t, pass, deferred[j], SumTokens(records), job.flows)
    ensures if out.records == [] then LateTold(job, pass, from, records, whose, waits, j + 1, keptWaits)
            else LateTold(job, pass, from, records + [out.records[0]], whose + [waits[j]], waits, j + 1, keptWaits)
  {
    hide AsLarge, TooLarge, LateTold, SumTokens, Room, Turn;
    WaitingInTurn(deferred, waits, job.admissions);
    assert deferred[j] == job.admissions[waits[j]];
    if out.records == [] {
      LateMisses(job, pass, from, records, whose, waits, j, keptWaits);
    } else {
      LateSends(job, pass, from, records, whose, waits, j, keptWaits, out.records[0]);
    }
  }

  /** What waits is an admission with one range. */
  lemma WaitingIsReady(deferred: seq<Admission>, waits: seq<nat>, j: nat, admissions: seq<Admission>,
                       plans: seq<SourcePlan>, texts: Texts)
    requires Ready(admissions, plans, texts) && Waiting(deferred, waits, admissions) && j < |deferred|
    ensures j < |waits| && waits[j] < |admissions| && deferred[j] == admissions[waits[j]]
    ensures AdmissionOk(deferred[j], plans, texts) && |deferred[j].ranges| == 1
  {
  }

  /** Everything a later pass keeps. */
  ghost predicate LateState(job: Job, pass: Pass, other: bool, from: nat, records: seq<Record>, whose: seq<nat>,
                            waits: seq<nat>, j: nat, kept: seq<Admission>, keptWaits: seq<nat>, truncated: bool, texts: Texts)
  {
    && LateInv(records, whose, waits, j, kept, keptWaits, truncated, job.admissions, job.plans, texts)
    && (truncated ==> Because(other, records, whose, waits, j, keptWaits, job.admissions))
    && LateTold(job, pass, from, records, whose, waits, j, keptWaits)
  }

  lemma StateKeeps(job: Job, pass: Pass, other: bool, from: nat, records: seq<Record>, whose: seq<nat>, deferred: seq<Admission>,
                   waits: seq<nat>, j: nat, kept: seq<Admission>, keptWaits: seq<nat>, truncated: bool, texts: Texts)
    requires LateState(job, pass, other, from, records, whose, waits, j, kept, keptWaits, truncated, texts)
    requires Waiting(deferred, waits, job.admissions) && j < |waits| && !Turn(job, pass, waits[j])
    ensures j < |deferred|
    ensures LateState(job, pass, other, from, records, whose, waits, j + 1, kept + [deferred[j]], keptWaits + [waits[j]], truncated, texts)
  {
    WaitingParallel(deferred, waits, job.admissions);
    hide LateInv, Because, LateTold, Waiting, Turn;
    KeepLate(records, whose, deferred, waits, j, kept, keptWaits, truncated, job.admissions, job.plans, texts);
    LateKeeps(job, pass, from, records, whose, waits, j, keptWaits);
    BecauseKeeps(other, records, whose, waits, j, keptWaits, job.admissions);
  }

  /** What an attempt in the room of a later pass makes of the state. */
  lemma StateTries(job: Job, pass: Pass, other: bool, from: nat, records: seq<Record>, whose: seq<nat>, deferred: seq<Admission>,
                   waits: seq<nat>, j: nat, kept: seq<Admission>, keptWaits: seq<nat>, truncated: bool, out: Admitted, room: nat, texts: Texts)
    requires LateState(job, pass, other, from, records, whose, waits, j, kept, keptWaits, truncated, texts)
    requires PhaseSorted(job.admissions) && Waiting(deferred, waits, job.admissions) && j < |waits| && j < |deferred|
    requires Turn(job, pass, waits[j]) && (IsAnswer(waits[j], job.admissions) || keptWaits == [])
    requires |deferred[j].ranges| == 1 && Attempted(out, deferred[j], job.plans, texts) && Tells(out, deferred[j], job.plans, room)
    requires room == Room(job.t, pass, deferred[j], SumTokens(records), job.flows)
    ensures LateState(job, pass, other, from, records + out.records, if out.records == [] then whose else whose + [waits[j]],
                      waits, j + 1, kept, keptWaits, truncated || out.trimmed || out.deferred != [], texts)
    ensures SumTokens(records + out.records) == SumTokens(records) + out.tokens
  {
    hide LateInv, Because, LateTold, Waiting, Turn, Tells, PhaseSorted, IsAnswer, Room, SumTokens, Apart, PartOf, WholeOf, Attempted;
    AttemptCases(out, deferred[j], job.plans, texts);
    LateIsApart(records, whose, waits, j, kept, keptWaits, truncated, job.admissions, job.plans, texts);
    LateToldNext(job, pass, from, records, whose, deferred, waits, j, keptWaits, out, room);
    if out.records != [] {
      assert IsCut(out.records[0], waits[j], job.admissions) <== out.trimmed by { WaitingIs(deferred, waits, j, job.admissions); }
      SendLate(records, whose, deferred, waits, j, kept, keptWaits, truncated, out.records[0], out.trimmed,
               job.admissions, job.plans, texts);
      BecauseSends(other, records, whose, waits, j, keptWaits, out.records[0], job.admissions);
      LogTokens(records, out.records[0]);
    } else {
      GiveUp(records, whose, waits, j, kept, keptWaits, truncated, job.admissions, job.plans, texts);
      BecauseGivesUp(other, records, whose, deferred, waits, j, keptWaits, job.admissions);
      assert records + [] == records;
    }
  }

  lemma WaitingIs(deferred: seq<Admission>, waits: seq<nat>, j: nat, admissions: seq<Admission>)
    requires Waiting(deferred, waits, admissions) && j < |waits| && j < |deferred|
    ensures waits[j] < |admissions| && deferred[j] == admissions[waits[j]]
  {
  }

  /** Complete answers once more, keeping the flow reserve; the rest waits for the last pass. */
  method AnswerPass(ledger: BudgetLedger, plans: seq<SourcePlan>, deferred: seq<Admission>, flowReserve: nat,
                    before: seq<Record>, ghost whoseBefore: seq<nat>, ghost waits: seq<nat>, truncatedBefore: bool,
                    ghost job: Job, ghost other: bool, ghost texts: Texts)
    returns (records: seq<Record>, ghost whose: seq<nat>, ordinary: seq<Admission>, ghost keptWaits: seq<nat>, truncated: bool)
    requires Ready(job.admissions, plans, texts) && PhaseSorted(job.admissions) && Waiting(deferred, waits, job.admissions)
    requires LateInv(before, whoseBefore, waits, 0, [], [], truncatedBefore, job.admissions, plans, texts)
    requires job.plans == plans && job.t.reserve == flowReserve
    requires ledger.Available() == SaturatingSub(job.t.room, SumTokens(before))
    requires truncatedBefore ==> Because(other, before, whoseBefore, waits, 0, [], job.admissions)
    modifies ledger
    ensures LateInv(records, whose, waits, |waits|, ordinary, keptWaits, truncated, job.admissions, plans, texts)
    ensures truncatedBefore ==> truncated
    ensures truncated ==> Because(other, records, whose, waits, |waits|, keptWaits, job.admissions)
    ensures before <= records && whoseBefore <= whose && |before| == |whoseBefore|
    ensures LateTold(job, Again, |whoseBefore|, records, whose, waits, |waits|, keptWaits)
    ensures waits == [] ==> records == before && whose == whoseBefore && keptWaits == [] && truncated == truncatedBefore
    ensures ledger.used - SumTokens(records) == old(ledger.used) - SumTokens(before)
    ensures old(ledger.used) <= ledger.Limit() ==> ledger.used <= ledger.Limit()
    ensures flowReserve <= old(ledger.Available()) ==> flowReserve <= ledger.Available()
    ensures ledger.Available() == SaturatingSub(job.t.room, SumTokens(records))
  {
    hide PartOf, WholeOf, Attempted, AdmissionOk, Waiting, LateState, LateInv, PhaseSorted, Ready, Because, LateTold, Tells, Turn, SumTokens, Apart;
    records, whose, ordinary, keptWaits, truncated := before, whoseBefore, [], [], truncatedBefore;
    StateBegins(job, Again, other, before, whoseBefore, waits, truncatedBefore, texts);
    WaitingParallel(deferred, waits, job.admissions);
    for j := 0 to |deferred|
      invariant LateState(job, Again, other, |whoseBefore|, records, whose, waits, j, ordinary, keptWaits, truncated, texts)
      invariant truncatedBefore ==> truncated
      invariant before <= records && whoseBefore <= whose
      invariant j == 0 ==> records == before && whose == whoseBefore && keptWaits == [] && truncated == truncatedBefore
      invariant ledger.used - SumTokens(records) == old(ledger.used) - SumTokens(before)
      invariant old(ledger.used) <= ledger.Limit() ==> ledger.used <= ledger.Limit()
      invariant flowReserve <= old(ledger.Available()) ==> flowReserve <= ledger.Available()
      invariant ledger.Available() == SaturatingSub(job.t.room, SumTokens(records))
    {
      var a := deferred[j];
      WaitingIsReady(deferred, waits, j, job.admissions, plans, texts);
      TurnIs(job, waits[j]);
      if !a.atomic || a.phase != Answer {
        StateKeeps(job, Again, other, |whoseBefore|, records, whose, deferred, waits, j, ordinary, keptWaits, truncated, texts);
        ordinary, keptWaits := ordinary + [a], keptWaits + [waits[j]];
      } else {
        ghost var room := SaturatingSub(ledger.Available(), flowReserve);
        var out := Attempt(ledger, plans, a, SaturatingSub(ledger.Available(), flowReserve), texts);
        StateTries(job, Again, other, |whoseBefore|, records, whose, deferred, waits, j, ordinary, keptWaits, truncated, out, room, texts);
        whose := if out.records == [] then whose else whose + [waits[j]];
        if out.trimmed || out.deferred != [] {
          truncated := true;
        }
        records := records + out.records;
      }
    }
    StateTells(job, Again, other, |whoseBefore|, records, whose, waits, ordinary, keptWaits, truncated, texts);
  }

  lemma StateBegins(job: Job, pass: Pass, other: bool, records: seq<Record>, whose: seq<nat>, waits: seq<nat>, truncated: bool, texts: Texts)
    requires LateInv(records, whose, waits, 0, [], [], truncated, job.admissions, job.plans, texts)
    requires truncated ==> Because(other, records, whose, waits, 0, [], job.admissions)
    ensures LateState(job, pass, other, |whose|, records, whose, waits, 0, [], [], truncated, texts) && |whose| == |records|
  {
    hide LateInv, Because, LateTold;
    LateIsApart(records, whose, waits, 0, [], [], truncated, job.admissions, job.plans, texts);
    LateStarts(job, pass, records, whose, waits);
  }

  lemma StateTells(job: Job, pass: Pass, other: bool, from: nat, records: seq<Record>, whose: seq<nat>,
                   waits: seq<nat>, kept: seq<Admission>, keptWaits: seq<nat>, truncated: bool, texts: Texts)
    requires LateState(job, pass, other, from, records, whose, waits, |waits|, kept, keptWaits, truncated, texts)
    ensures LateInv(records, whose, waits, |waits|, kept, keptWaits, truncated, job.admissions, job.plans, texts)
    ensures truncated ==> Because(other, records, whose, waits, |waits|, keptWaits, job.admissions)
    ensures LateTold(job, pass, from, records, whose, waits, |waits|, keptWaits)
  {
    hide LateInv, Because, LateTold;
  }

  lemma TurnIs(job: Job, n: nat)
    ensures Turn(job, Again, n) <==> n < |job.admissions| && Complete(job.admissions[n])
    ensures Turn(job, Last, n) <==> n < |job.admissions|
  {
  }

  lemma WaitingParallel(deferred: seq<Admission>, waits: seq<nat>, admissions: seq<Admission>)
    requires Waiting(deferred, waits, admissions)
    ensures |waits| == |deferred|
  {
  }

  /** Everything that still waits, in whatever room is left. */
  method OrdinaryPass(ledger: BudgetLedger, plans: seq<SourcePlan>, ordinary: seq<Admission>,
                      before: seq<Record>, ghost whoseBefore: seq<nat>, ghost waits: seq<nat>, truncatedBefore: bool,
                      ghost job: Job, ghost other: bool, ghost texts: Texts)
    returns (records: seq<Record>, ghost whose: seq<nat>, truncated: bool)
    requires Ready(job.admissions, plans, texts) && PhaseSorted(job.admissions) && Waiting(ordinary, waits, job.admissions)
    requires LateInv(before, whoseBefore, waits, 0, [], [], truncatedBefore, job.admissions, plans, texts)
    requires job.plans == plans
    requires ledger.Available() == SaturatingSub(SaturatingSub(job.t.room, SumTokens(before)), job.flows)
    requires truncatedBefore ==> Because(other, before, whoseBefore, waits, 0, [], job.admissions)
    modifies ledger
    ensures LateInv(records, whose, waits, |waits|, [], [], truncated, job.admissions, plans, texts)
    ensures truncatedBefore ==> truncated
    ensures truncated ==> Because(other, records, whose, waits, |waits|, [], job.admissions)
    ensures before <= records && whoseBefore <= whose && |before| == |whoseBefore|
    ensures LateTold(job, Last, |whoseBefore|, records, whose, waits, |waits|, [])
    ensures waits == [] ==> truncated == truncatedBefore
    ensures ledger.used - SumTokens(records) == old(ledger.used) - SumTokens(before)
    ensures old(ledger.used) <= ledger.Limit() ==> ledger.used <= ledger.Limit()
    ensures ledger.Available() == SaturatingSub(SaturatingSub(job.t.room, SumTokens(records)), job.flows)
  {
    hide PartOf, WholeOf, Attempted, AdmissionOk, Waiting, LateState, LateInv, PhaseSorted, Ready, Because, LateTold, Tells, Turn, SumTokens, Apart;
    records, whose, truncated := before, whoseBefore, truncatedBefore;
    StateBegins(job, Last, other, before, whoseBefore, waits, truncatedBefore, texts);
    WaitingParallel(ordinary, waits, job.admissions);
    for j := 0 to |ordinary|
      invariant LateState(job, Last, other, |whoseBefore|, records, whose, waits, j, [], [], truncated, texts)
      invariant truncatedBefore ==> truncated
      invariant before <= records && whoseBefore <= whose
      invariant j == 0 ==> truncated == truncatedBefore
      invariant ledger.used - SumTokens(records) == old(ledger.used) - SumTokens(before)
      invariant old(ledger.used) <= ledger.Limit() ==> ledger.used <= ledger.Limit()
      invariant ledger.Available() == SaturatingSub(SaturatingSub(job.t.room, SumTokens(records)), job.flows)
    {
      var a := ordinary[j];
      WaitingIsReady(ordinary, waits, j, job.admissions, plans, texts);
      TurnIs(job, waits[j]);
      ghost var room := ledger.Available();
      var out := Attempt(ledger, plans, a, ledger.Available(), texts);
      StateTries(job, Last, other, |whoseBefore|, records, whose, ordinary, waits, j, [], [], truncated, out, room, texts);
      whose := if out.records == [] then whose else whose + [waits[j]];
      if out.trimmed || out.deferred != [] {
        truncated := true;
      }
      records := records + out.records;
    }
    StateTells(job, Last, other, |whoseBefore|, records, whose, waits, [], [], truncated, texts);
  }

  lemma StartLate(records: seq<Record>, whose: seq<nat>, deferred: seq<Admission>, waits: seq<nat>, truncated: bool,
                  admissions: seq<Admission>, plans: seq<SourcePlan>, texts: Texts)
    requires Kept(records, whose, truncated, admissions, plans, texts)
    requires Waiting(deferred, waits, admissions) && Placed(whose, waits, |admissions|)
    requires AnswerWaits(waits, admissions, 0) ==> OnlyAnswers(whose, admissions)
    ensures LateInv(records, whose, waits, 0, [], [], truncated, admissions, plans, texts)
  {
    hide Kept, OnlyAnswers, AnswerWaits, IsAnswer;
    NoAnswerWaits(admissions);
    forall n: nat | n in waits ensures WaitsFrom(waits, 0, n) {
      var m: nat :| m < |waits| && waits[m] == n;
    }
    assert forall m: nat :: m < |waits| ==> waits[m] in waits;
  }

  lemma NextLate(records: seq<Record>, whose: seq<nat>, waits: seq<nat>, kept: seq<Admission>, keptWaits: seq<nat>,
                 truncated: bool, now: bool, admissions: seq<Admission>, plans: seq<SourcePlan>, texts: Texts)
    requires LateInv(records, whose, waits, |waits|, kept, keptWaits, truncated, admissions, plans, texts)
    requires truncated ==> now
    ensures LateInv(records, whose, keptWaits, 0, [], [], now, admissions, plans, texts)
    ensures Waiting(kept, keptWaits, admissions)
  {
    hide Logged, AllWhole, AnswersFirst, OnlyAnswers, AnswerWaits, IsAnswer;
    NoAnswerWaits(admissions);
    forall n: nat | n in keptWaits ensures WaitsFrom(keptWaits, 0, n) {
      var m: nat :| m < |keptWaits| && keptWaits[m] == n;
    }
  }

  // ----- Flows -----

  function Sum(ts: seq<nat>): nat { if ts == [] then 0 else Sum(ts[..|ts| - 1]) + ts[|ts| - 1] }

  lemma SumSnoc(ts: seq<nat>, i: nat)
    requires i < |ts|
    ensures Sum(ts[..i + 1]) == Sum(ts[..i]) + ts[i]
  {
    assert ts[..i + 1][..i] == ts[..i];
  }

  lemma {:induction false} SumGrows(ts: seq<nat>, i: nat, k: nat)
    requires i <= k <= |ts|
    ensures Sum(ts[..i]) <= Sum(ts[..k])
  {
    if i < k {
      SumGrows(ts, i, k - 1);
      SumSnoc(ts, k - 1);
    }
  }

  /** The longest run of `k` leading flow records within the share, and the first one in any case. */
  predicate Leading(flowTokens: seq<nat>, flowShare: nat, k: nat) {
    && k <= |flowTokens| && (flowTokens != [] ==> k >= 1)
    && (k > 1 ==> Sum(flowTokens[..k]) <= flowShare)
    && (0 < k < |flowTokens| ==> Sum(flowTokens[..k + 1]) > flowShare)
  }

  /** Leading flow records that fit their share; the first one always counts. */
  method ReserveFlows(flowTokens: seq<nat>, flowShare: nat) returns (reserve: nat, ghost k: nat)
    ensures Leading(flowTokens, flowShare, k) && reserve == Sum(flowTokens[..k])
  {
    reserve, k := 0, 0;
    for i := 0 to |flowTokens|
      invariant k == i && reserve == Sum(flowTokens[..i])
      invariant i > 1 ==> reserve <= flowShare
    {
      SumSnoc(flowTokens, i);
      if i > 0 && reserve + flowTokens[i] > flowShare {
        return;
      }
      reserve, k := reserve + flowTokens[i], k + 1;
    }
  }

  function TakenTokens(flowTokens: seq<nat>, taken: seq<bool>): nat
    requires |taken| <= |flowTokens|
  {
    if taken == [] then 0
    else TakenTokens(flowTokens, taken[..|taken| - 1]) + (if taken[|taken| - 1] then flowTokens[|taken| - 1] else 0)
  }

  /** Each flow record is taken exactly when it fits what the ones taken before it leave of the room. */
  ghost predicate FlowsFit(flowTokens: seq<nat>, taken: seq<bool>, room: nat) {
    && |taken| <= |flowTokens|
    && forall i :: 0 <= i < |taken| ==> FlowFits(flowTokens, taken, room, i)
  }

  ghost predicate FlowFits(flowTokens: seq<nat>, taken: seq<bool>, room: nat, i: nat)
    requires i < |taken| <= |flowTokens|
  {
    taken[i] <==> flowTokens[i] <= SaturatingSub(room, TakenTokens(flowTokens, taken[..i]))
  }

  lemma FlowsFitNext(flowTokens: seq<nat>, taken: seq<bool>, room: nat, ok: bool)
    requires FlowsFit(flowTokens, taken, room) && |taken| < |flowTokens|
    requires ok <==> flowTokens[|taken|] <= SaturatingSub(room, TakenTokens(flowTokens, taken))
    ensures FlowsFit(flowTokens, taken + [ok], room)
  {
    hide TakenTokens;
    var all := taken + [ok];
    forall i | 0 <= i < |all|
      ensures FlowFits(flowTokens, all, room, i)
    {
      if i < |taken| {
        assert all[..i] == taken[..i];
        assert FlowFits(flowTokens, taken, room, i);
      } else {
        assert all[..i] == taken;
      }
    }
  }

  /** Leading flow records that fit together are all taken. */
  lemma {:induction false} LeadingFlowsFit(flowTokens: seq<nat>, taken: seq<bool>, room: nat, k: nat, i: nat)
    requires FlowsFit(flowTokens, taken, room) && i <= k <= |taken| == |flowTokens| && Sum(flowTokens[..k]) <= room
    ensures TakenTokens(flowTokens, taken[..i]) == Sum(flowTokens[..i])
    ensures forall m :: 0 <= m < i ==> taken[m]
  {
    if i > 0 {
      LeadingFlowsFit(flowTokens, taken, room, k, i - 1);
      SumSnoc(flowTokens, i - 1);
      SumGrows(flowTokens, i, k);
      assert FlowFits(flowTokens, taken, room, i - 1);
      assert taken[..i][..i - 1] == taken[..i - 1];
    }
  }

  /** The flow records, in their order. */
  method FlowPass(ledger: BudgetLedger, flowTokens: seq<nat>, truncatedBefore: bool)
    returns (taken: seq<bool>, truncated: bool)
    requires forall i :: 0 <= i < |flowTokens| ==> flowTokens[i] >= 1
    modifies ledger
    ensures |taken| == |flowTokens|
    ensures truncated <==> truncatedBefore || FlowMissing(taken)
    ensures ledger.used == old(ledger.used) + TakenTokens(flowTokens, taken)
    ensures old(ledger.used) <= ledger.Limit() ==> ledger.used <= ledger.Limit()
    ensures FlowsFit(flowTokens, taken, old(ledger.Available()))
    ensures ledger.Available() == SaturatingSub(old(ledger.Available()), TakenTokens(flowTokens, taken))
  {
    hide FlowsFit;
    taken, truncated := [], truncatedBefore;
    NoFlowsYet(flowTokens, ledger.Available());
    for i := 0 to |flowTokens|
      invariant |taken| == i
      invariant truncated <==> truncatedBefore || FlowMissing(taken)
      invariant ledger.used == old(ledger.used) + TakenTokens(flowTokens, taken)
      invariant old(ledger.used) <= ledger.Limit() ==> ledger.used <= ledger.Limit()
      invariant FlowsFit(flowTokens, taken, old(ledger.Available()))
      invariant ledger.Available() == SaturatingSub(old(ledger.Available()), TakenTokens(flowTokens, taken))
    {
      ghost var before := taken;
      var ok := ledger.TryAdd(flowTokens[i]);
      FlowsFitNext(flowTokens, taken, old(ledger.Available()), ok);
      if !ok {
        truncated := true;
      }
      taken := taken + [ok];
      assert taken[..i] == before && taken[i] == ok;
    }
  }

  predicate FlowMissing(taken: seq<bool>) { exists i :: 0 <= i < |taken| && !taken[i] }

  lemma NoFlowsYet(flowTokens: seq<nat>, room: nat)
    ensures FlowsFit(flowTokens, [], room)
  {
  }

  // ----- The whole emission -----

  ghost predicate RecordsLine(records: seq<Record>, file: string, l: int) {
    exists k: nat :: k < |records| && HasLineOf(records[k], file, l)
  }

  ghost predicate HasLineOf(rec: Record, file: string, l: int) { rec.file == file && Covers(rec.ranges, l) }

  /** No line of a file is in two records. */
  ghost predicate RecordedOnce(records: seq<Record>) {
    forall j: nat, k: nat, file, l :: j < k < |records| && HasLineOf(records[j], file, l) ==> !HasLineOf(records[k], file, l)
  }

  /** Records show the text of their file. */
  ghost predicate RecordsShow(records: seq<Record>, texts: Texts) {
    forall k: nat :: k < |records| ==> records[k].file in texts && AllShow(records[k].ranges, texts[records[k].file])
  }

  lemma PartCarries(rec: Record, a: Admission, plans: seq<SourcePlan>, texts: Texts, file: string, l: int)
    requires PartOf(rec, a, plans, texts)
    ensures HasLineOf(rec, file, l) ==> Carries(a, plans, file, a.phase, l)
    ensures WholeOf(rec, a) ==> (HasLineOf(rec, file, l) <==> Carries(a, plans, file, a.phase, l))
    ensures rec.file in texts && AllShow(rec.ranges, texts[rec.file])
  {
    hide Shows;
    assert rec.ranges == [rec.ranges[0]] && a.ranges == [a.ranges[0]];
    CoversOne(rec.ranges[0], l);
    CoversOne(a.ranges[0], l);
  }

  lemma OnceRecorded(records: seq<Record>, whose: seq<nat>, admissions: seq<Admission>, plans: seq<SourcePlan>, texts: Texts)
    requires Logged(records, whose, admissions, plans, texts) && SentOnce(admissions, plans)
    ensures RecordedOnce(records) && RecordsShow(records, texts)
    ensures forall file, l :: RecordsLine(records, file, l) ==> SendsAny(admissions, plans, file, l)
  {
    hide PartOf, HasLineOf, Carries, AllShow;
    forall j: nat, k: nat, file, l | j < k < |records| && HasLineOf(records[j], file, l)
      ensures !HasLineOf(records[k], file, l)
    {
      var a, b := admissions[whose[j]], admissions[whose[k]];
      PartCarries(records[j], a, plans, texts, file, l);
      PartCarries(records[k], b, plans, texts, file, l);
      assert whose[j] < whose[k] ==> Carries(a, plans, file, a.phase, l) ==> !Carries(b, plans, file, b.phase, l);
      assert whose[k] < whose[j] ==> Carries(b, plans, file, b.phase, l) ==> !Carries(a, plans, file, a.phase, l);
    }
    forall k: nat | k < |records| ensures records[k].file in texts && AllShow(records[k].ranges, texts[records[k].file]) {
      PartCarries(records[k], admissions[whose[k]], plans, texts, "", 0);
    }
    forall file, l | RecordsLine(records, file, l) ensures SendsAny(admissions, plans, file, l) {
      var k: nat :| k < |records| && HasLineOf(records[k], file, l);
      var a := admissions[whose[k]];
      PartCarries(records[k], a, plans, texts, file, l);
      assert Sends(admissions, plans, file, a.phase, l);
    }
  }

  lemma AllRecorded(records: seq<Record>, whose: seq<nat>, admissions: seq<Admission>, plans: seq<SourcePlan>, texts: Texts)
    requires Logged(records, whose, admissions, plans, texts) && AllWhole(records, whose, admissions)
    requires forall n: nat :: n < |admissions| ==> n in whose
    ensures forall file, l :: SendsAny(admissions, plans, file, l) ==> RecordsLine(records, file, l)
  {
    hide PartOf, HasLineOf, Carries, WholeOf;
    forall file, l | SendsAny(admissions, plans, file, l) ensures RecordsLine(records, file, l) {
      var ph :| Sends(admissions, plans, file, ph, l);
      var n: nat :| n < |admissions| && Carries(admissions[n], plans, file, ph, l);
      assert admissions[n].phase == ph by { CarriesPhase(admissions[n], plans, file, ph, l); }
      assert n in whose;
      var k: nat :| k < |whose| && whose[k] == n;
      PartCarries(records[k], admissions[n], plans, texts, file, l);
    }
  }

  lemma CarriesPhase(a: Admission, plans: seq<SourcePlan>, file: string, ph: Phase, l: int)
    requires Carries(a, plans, file, ph, l)
    ensures a.phase == ph
  {
  }

  /** Some admitted line is in no record. */
  ghost predicate LineMissing(records: seq<Record>, admissions: seq<Admission>, plans: seq<SourcePlan>) {
    exists file, l :: LineMissed(records, admissions, plans, file, l)
  }

  ghost predicate LineMissed(records: seq<Record>, admissions: seq<Admission>, plans: seq<SourcePlan>, file: string, l: int) {
    SendsAny(admissions, plans, file, l) && !RecordsLine(records, file, l)
  }

  lemma OneCarrier(admissions: seq<Admission>, plans: seq<SourcePlan>, x: nat, y: nat, file: string, ph: Phase, ph': Phase, l: int)
    requires SentOnce(admissions, plans) && x < |admissions| && y < |admissions|
    ensures Carries(admissions[x], plans, file, ph, l) && Carries(admissions[y], plans, file, ph', l) ==> x == y
  {
    hide Carries;
  }

  lemma NamedOnce(records: seq<Record>, whose: seq<nat>, admissions: seq<Admission>, plans: seq<SourcePlan>, texts: Texts,
                  j: nat, k: nat)
    requires Logged(records, whose, admissions, plans, texts) && j < |whose| && k < |whose|
    ensures whose[j] == whose[k] ==> j == k
  {
    hide PartOf;
  }

  /** A line of an admission is in no record but the admission's own. */
  lemma OwnRecord(records: seq<Record>, whose: seq<nat>, admissions: seq<Admission>, plans: seq<SourcePlan>, texts: Texts,
                  n: nat, file: string, ph: Phase, l: int)
    requires Logged(records, whose, admissions, plans, texts) && SentOnce(admissions, plans)
    requires n < |admissions| && Carries(admissions[n], plans, file, ph, l)
    ensures |whose| == |records| && forall k: nat :: k < |records| && HasLineOf(records[k], file, l) ==> whose[k] == n
  {
    hide PartOf, HasLineOf, Carries;
    forall k: nat | k < |records| && HasLineOf(records[k], file, l)
      ensures whose[k] == n
    {
      var a := admissions[whose[k]];
      PartCarries(records[k], a, plans, texts, file, l);
      OneCarrier(admissions, plans, whose[k], n, file, a.phase, ph, l);
    }
  }

  /** An admission without a record leaves a line out. */
  lemma MissingLine(records: seq<Record>, whose: seq<nat>, admissions: seq<Admission>, plans: seq<SourcePlan>, texts: Texts, n: nat)
    requires Logged(records, whose, admissions, plans, texts) && SentOnce(admissions, plans) && Ready(admissions, plans, texts)
    requires n < |admissions| && n !in whose
    ensures LineMissing(records, admissions, plans)
  {
    hide Logged, SentOnce, SendsAny, LineMissing;
    var a := admissions[n];
    assert AdmissionOk(a, plans, texts) && |a.ranges| == 1;
    assert a.ranges == [a.ranges[0]];
    RangeIsThere(a, plans, texts);
    CoversOne(a.ranges[0], a.ranges[0].start);
    LineUnsent(records, whose, admissions, plans, texts, n, plans[a.plan].file, a.ranges[0].start);
  }

  /** So does one of which a part was cut. */
  lemma CutMissesLine(records: seq<Record>, whose: seq<nat>, admissions: seq<Admission>, plans: seq<SourcePlan>, texts: Texts)
    requires Logged(records, whose, admissions, plans, texts) && SentOnce(admissions, plans) && Ready(admissions, plans, texts)
    requires SomeCut(records, whose, admissions)
    ensures LineMissing(records, admissions, plans)
  {
    var k: nat :| k < |whose| && IsCut(records[k], whose[k], admissions);
    var n := whose[k];
    var a := admissions[n];
    assert AdmissionOk(a, plans, texts) && |a.ranges| == 1;
    assert a.ranges == [a.ranges[0]];
    var l := CutLine(records[k], a, plans, texts, k, records, whose, admissions);
    CoversOne(a.ranges[0], l);
    hide SentOnce, LineMissing, WholeOf, PartOf, Shows, Covers, Ready;
    forall j: nat | j < |whose| && whose[j] == n
      ensures j == k
    {
      NamedOnce(records, whose, admissions, plans, texts, j, k);
    }
    LineUnsent(records, whose, admissions, plans, texts, n, plans[a.plan].file, l);
  }

  lemma RangeIsThere(a: Admission, plans: seq<SourcePlan>, texts: Texts)
    requires AdmissionOk(a, plans, texts) && |a.ranges| == 1
    ensures a.ranges[0].start <= a.ranges[0].end
  {
    hide ShowsLine;
  }

  lemma CutLine(rec: Record, a: Admission, plans: seq<SourcePlan>, texts: Texts, k: nat, records: seq<Record>,
                whose: seq<nat>, admissions: seq<Admission>) returns (l: int)
    requires Logged(records, whose, admissions, plans, texts) && k < |whose| && whose[k] < |admissions|
    requires a == admissions[whose[k]] && rec == records[k] && |a.ranges| == 1 && !WholeOf(rec, a)
    ensures Within(a.ranges[0], l) && !Covers(rec.ranges, l)
  {
    assert PartOf(rec, a, plans, texts);
    var r, x := a.ranges[0], rec.ranges[0];
    assert rec.ranges == [x];
    assert Shows(x, texts[plans[a.plan].file]);
    l := if r.start < x.start then r.start else r.end;
    CoversOne(x, l);
  }

  lemma LineUnsent(records: seq<Record>, whose: seq<nat>, admissions: seq<Admission>, plans: seq<SourcePlan>, texts: Texts,
                   n: nat, file: string, l: int)
    requires Logged(records, whose, admissions, plans, texts) && SentOnce(admissions, plans) && n < |admissions|
    requires admissions[n].plan < |plans| && plans[admissions[n].plan].file == file && Covers(admissions[n].ranges, l)
    requires forall k: nat :: k < |whose| && whose[k] == n ==> k < |records| && !Covers(records[k].ranges, l)
    ensures LineMissing(records, admissions, plans)
  {
    OwnRecord(records, whose, admissions, plans, texts, n, file, admissions[n].phase, l);
    hide Logged, SentOnce;
    assert Carries(admissions[n], plans, file, admissions[n].phase, l);
    assert Sends(admissions, plans, file, admissions[n].phase, l);
    assert LineMissed(records, admissions, plans, file, l);
  }

  /** What one run of the passes is about: its shares, its flow records and its admissions. */
  ghost function JobOf(admissions: seq<Admission>, plans: seq<SourcePlan>, payload: nat, flowTokens: seq<nat>,
                       reserved: nat, flows: nat, room: nat): Job
    requires reserved <= |flowTokens|
  {
    Job(Terms(payload * 3 / 4, Sum(flowTokens[..reserved]), room), flows, admissions, plans)
  }

  /** An admission without a record costs more, whole, than the room it was last refused for. */
  ghost predicate RightlyMissing(records: seq<Record>, whose: seq<nat>, job: Job, left: nat) {
    forall n: nat :: n < |job.admissions| && n !in whose ==>
      if Complete(job.admissions[n]) then exists m: nat :: MissedAbove(job, records, whose, job.admissions[n], m)
      else TooLarge(job.admissions[n], job.plans, left)
  }

  /**
   All passes: no line goes out twice, every record shows its file's text, the tokens counted are
   those of the records, and answers go out before anything else. Every record is as large as its
   room allows; an admission without one costs more than was left for it: at the end, or for a complete
   answer above the flow reserve at its last try, when only answers were out. The result says it is
   truncated exactly when an admitted line or a flow is missing, which is not so when the whole
   admissions fit the source share and, with the flows, the ledger.
   */
  method EmitSource(ledger: BudgetLedger, plans: seq<SourcePlan>, admissions: seq<Admission>, payload: nat,
                    flowTokens: seq<nat>, ghost texts: Texts)
    returns (records: seq<Record>, ghost whose: seq<nat>, taken: seq<bool>, ghost reserved: nat,
             ghost first: nat, ghost second: nat, truncated: bool)
    requires Ready(admissions, plans, texts) && PhaseSorted(admissions) && SentOnce(admissions, plans)
    requires forall i :: 0 <= i < |flowTokens| ==> flowTokens[i] >= 1
    modifies ledger
    ensures RecordedOnce(records) && RecordsShow(records, texts)
    ensures forall file, l :: RecordsLine(records, file, l) ==> SendsAny(admissions, plans, file, l)
    ensures |taken| == |flowTokens|
    ensures truncated <==> LineMissing(records, admissions, plans) || FlowMissing(taken)
    ensures ledger.used == old(ledger.used) + SumTokens(records) + TakenTokens(flowTokens, taken)
    ensures old(ledger.used) <= ledger.Limit() ==> ledger.used <= ledger.Limit()
    ensures Logged(records, whose, admissions, plans, texts) && AnswersFirst(whose, admissions)
    ensures Leading(flowTokens, payload * 15 / 100, reserved) && reserved <= |flowTokens| && second <= |records|
    ensures var job := JobOf(admissions, plans, payload, flowTokens, reserved, TakenTokens(flowTokens, taken), old(ledger.Available()));
            && Emitted(job, records, whose, first, second)
            && RightlyMissing(records, whose, job, ledger.Available())
            && FlowsFit(flowTokens, taken, SaturatingSub(old(ledger.Available()), SumTokens(records[..second])))
    ensures AllKnown(admissions, plans)
    ensures (SumWhole(admissions, plans) <= payload * 3 / 4
             && SumWhole(admissions, plans) + Sum(flowTokens) <= old(ledger.Available())) ==> !truncated
    ensures Sum(flowTokens[..reserved]) + payload * 3 / 4 <= old(ledger.Available())
            ==> forall i :: 0 <= i < reserved ==> taken[i]
  {
    hide Ready, PhaseSorted, SentOnce, Logged, LateInv, Waiting, AnswersFirst, Because, LateTold, FirstTold, Emitted, RightlyMissing;
    hide SumTokens, SumWhole, FlowsFit, FlowMissing, LineMissing, FitsWhole, AllKnown, Kept, Placed, SomeCut;
    var flowReserve;
    flowReserve, reserved := ReserveFlows(flowTokens, payload * 15 / 100);
    ghost var room := ledger.Available();
    ghost var job := JobOf(admissions, plans, payload, flowTokens, reserved, 0, room);
    var deferred, ordinary;
    ghost var waits, keptWaits;
    records, whose, deferred, waits, truncated := FirstPass(ledger, plans, admissions, payload * 3 / 4, flowReserve, job, texts);
    ghost var rs1, ws1 := records, whose;
    first := |whose|;
    StartLate(records, whose, deferred, waits, truncated, admissions, plans, texts);
    BecauseStarts(records, whose, waits, admissions);
    records, whose, ordinary, keptWaits, truncated :=
      AnswerPass(ledger, plans, deferred, flowReserve, records, whose, waits, truncated, job, false, texts);
    ghost var rs2, ws2 := records, whose;
    second := |whose|;
    ghost var atFlows := ledger.Available();
    var now;
    taken, now := FlowPass(ledger, flowTokens, truncated);
    NextLate(records, whose, waits, ordinary, keptWaits, truncated, now, admissions, plans, texts);
    BecauseNext(FlowMissing(taken), records, whose, waits, keptWaits, admissions);
    ghost var job' := job.(flows := TakenTokens(flowTokens, taken));
    records, whose, truncated :=
      OrdinaryPass(ledger, plans, ordinary, records, whose, keptWaits, now, job', FlowMissing(taken), texts);
    Finish(records, whose, keptWaits, truncated, admissions, plans, texts);
    PassesEmitted(job, job', rs1, ws1, rs2, ws2, records, whose, deferred, waits, keptWaits);
    AllRightlyMissing(job', records, whose, first, second);
    SamePrefix(rs2, records, second);
    assert rs2[..second] == rs2;
    if truncated {
      TruncatedTells(FlowMissing(taken), records, whose, keptWaits, admissions, plans, texts);
    } else {
      NothingMissing(records, admissions, plans);
    }
    FlowsTell(flowTokens, taken, atFlows, reserved);
    AllFit(job);
  }

  lemma AllFit(job: Job)
    requires AllKnown(job.admissions, job.plans)
    ensures SumWhole(job.admissions, job.plans) <= job.t.share && SumWhole(job.admissions, job.plans) <= job.t.room
            ==> FitsWhole(job)
  {
  }

  lemma FlowsTell(flowTokens: seq<nat>, taken: seq<bool>, room: nat, k: nat)
    requires FlowsFit(flowTokens, taken, room) && k <= |taken| == |flowTokens|
    ensures Sum(flowTokens[..k]) <= room ==> forall i :: 0 <= i < k ==> taken[i]
    ensures Sum(flowTokens) <= room ==> !FlowMissing(taken)
  {
    if Sum(flowTokens[..k]) <= room {
      LeadingFlowsFit(flowTokens, taken, room, k, k);
    }
    if Sum(flowTokens) <= room {
      assert flowTokens[..|flowTokens|] == flowTokens;
      LeadingFlowsFit(flowTokens, taken, room, |flowTokens|, |flowTokens|);
    }
  }

  lemma BecauseStarts(records: seq<Record>, whose: seq<nat>, waits: seq<nat>, admissions: seq<Admission>)
    ensures SomeCut(records, whose, admissions) ==> Because(false, records, whose, waits, 0, [], admissions)
  {
  }

  lemma BecauseNext(other: bool, records: seq<Record>, whose: seq<nat>, waits: seq<nat>, keptWaits: seq<nat>, admissions: seq<Admission>)
    ensures Because(false, records, whose, waits, |waits|, keptWaits, admissions) || other ==>
              Because(other, records, whose, keptWaits, 0, [], admissions)
  {
    hide SomeCut;
  }

  /** What makes the result truncated leaves a line or a flow out. */
  lemma TruncatedTells(other: bool, records: seq<Record>, whose: seq<nat>, waits: seq<nat>, admissions: seq<Admission>,
                       plans: seq<SourcePlan>, texts: Texts)
    requires Because(other, records, whose, waits, |waits|, [], admissions)
    requires Logged(records, whose, admissions, plans, texts) && SentOnce(admissions, plans) && Ready(admissions, plans, texts)
    ensures other || LineMissing(records, admissions, plans)
  {
    hide Logged, SentOnce, Ready, LineMissing, SomeCut;
    if SomeCut(records, whose, admissions) {
      CutMissesLine(records, whose, admissions, plans, texts);
    } else if GivenUp(whose, waits, |waits|, [], admissions) {
      var n: nat :| n < |admissions| && n !in whose && !WaitsFrom(waits, |waits|, n);
      MissingLine(records, whose, admissions, plans, texts, n);
    }
  }

  lemma NothingMissing(records: seq<Record>, admissions: seq<Admission>, plans: seq<SourcePlan>)
    ensures (forall file, l :: SendsAny(admissions, plans, file, l) ==> RecordsLine(records, file, l))
            ==> !LineMissing(records, admissions, plans)
  {
    hide SendsAny, RecordsLine;
  }

  lemma AllRightlyMissing(job: Job, records: seq<Record>, whose: seq<nat>, first: nat, second: nat)
    requires Emitted(job, records, whose, first, second)
    ensures RightlyMissing(records, whose, job, LeftOver(job, records))
  {
    hide Emitted, TooLarge, MissedAbove, LeftOver;
    forall n: nat | n < |job.admissions| && n !in whose
      ensures if Complete(job.admissions[n]) then exists m: nat :: MissedAbove(job, records, whose, job.admissions[n], m)
              else TooLarge(job.admissions[n], job.plans, LeftOver(job, records))
    {
      if Complete(job.admissions[n]) {
        var m := MissingAnswer(job, records, whose, first, second, n);
      } else {
        MissingIsTooLarge(job, records, whose, first, second, n);
      }
    }
  }

  /** The passes together. */
  lemma PassesEmitted(job: Job, job': Job, rs1: seq<Record>, ws1: seq<nat>, rs2: seq<Record>, ws2: seq<nat>,
                      records: seq<Record>, whose: seq<nat>, deferred: seq<Admission>, waits: seq<nat>, keptWaits: seq<nat>)
    requires job' == job.(flows := job'.flows)
    requires FirstTold(job, rs1, ws1, |job.admissions|) && Placed(ws1, waits, |job.admissions|)
    requires AnswerWaits(waits, job.admissions, 0) ==> OnlyAnswers(ws1, job.admissions)
    requires LateTold(job, Again, |ws1|, rs2, ws2, waits, |waits|, keptWaits)
    requires LateTold(job', Last, |ws2|, records, whose, keptWaits, |keptWaits|, [])
    requires rs1 <= rs2 <= records && ws1 <= ws2 <= whose
    ensures Emitted(job', records, whose, |ws1|, |ws2|)
  {
    FirstRunStays(job, job', rs1, ws1, records, whose);
    LateRunStays(job, job', |ws1|, rs2, ws2, waits, keptWaits, records, whose);
    PassTurns(job, job', rs1, ws1, rs2, ws2, records, whose, waits, keptWaits);
    hide RunOf, Missed, HeldBack, TurnsKept, AnswerWaits, OnlyAnswers;
    assert whose[..|ws1|] == ws1 && forall n :: n in ws1 ==> n in whose;
    assert forall n :: n in ws2 ==> n in whose;
    assert waits[..|waits|] == waits && keptWaits[..|keptWaits|] == keptWaits;
    forall n: nat | n < |job.admissions| && n !in whose
      ensures if Complete(job.admissions[n]) then Missed(job', Again, records, whose, |ws1|, |ws2|, n)
              else Missed(job', Last, records, whose, |ws2|, |whose|, n)
    {
      var m :| 0 <= m < |waits| && waits[m] == n;
      if !Complete(job.admissions[n]) {
        assert n in keptWaits;
        var l :| 0 <= l < |keptWaits| && keptWaits[l] == n;
      }
    }
  }

  lemma FirstRunStays(job: Job, job': Job, rs1: seq<Record>, ws1: seq<nat>, records: seq<Record>, whose: seq<nat>)
    requires FirstTold(job, rs1, ws1, |job.admissions|) && job' == job.(flows := job'.flows)
    requires rs1 <= records && ws1 <= whose && |records| == |whose|
    ensures RunOf(job', First, records, whose, 0, |ws1|)
    ensures forall n: nat :: n < |job.admissions| && n !in ws1 ==>
              HeldBack(ws1, n, job.admissions) || Missed(job', First, records, whose, 0, |ws1|, n)
  {
    hide RunOf, Missed, HeldBack;
    RunStays(job, First, rs1, ws1, 0, |ws1|, records, whose);
    SameFlows(job, job'.flows, First, records, whose, 0, |ws1|);
    forall n: nat | n < |job.admissions| && n !in ws1 && !HeldBack(ws1, n, job.admissions)
      ensures Missed(job', First, records, whose, 0, |ws1|, n)
    {
      MissedStays(job, First, rs1, ws1, 0, |ws1|, n, records, whose);
    }
  }

  lemma LateRunStays(job: Job, job': Job, from: nat, rs: seq<Record>, ws: seq<nat>, waits: seq<nat>, keptWaits: seq<nat>,
                     records: seq<Record>, whose: seq<nat>)
    requires LateTold(job, Again, from, rs, ws, waits, |waits|, keptWaits) && job' == job.(flows := job'.flows)
    requires rs <= records && ws <= whose && |records| == |whose|
    ensures RunOf(job', Again, records, whose, from, |ws|)
    ensures forall m :: 0 <= m < |waits| && Turn(job, Again, waits[m]) && waits[m] !in ws ==>
              Missed(job', Again, records, whose, from, |ws|, waits[m])
  {
    hide RunOf, Missed, Turn;
    RunStays(job, Again, rs, ws, from, |ws|, records, whose);
    SameFlows(job, job'.flows, Again, records, whose, from, |ws|);
    forall m | 0 <= m < |waits| && Turn(job, Again, waits[m]) && waits[m] !in ws
      ensures Missed(job', Again, records, whose, from, |ws|, waits[m])
    {
      MissedStays(job, Again, rs, ws, from, |ws|, waits[m], records, whose);
    }
  }

  lemma PassTurns(job: Job, job': Job, rs1: seq<Record>, ws1: seq<nat>, rs2: seq<Record>, ws2: seq<nat>,
                  records: seq<Record>, whose: seq<nat>, waits: seq<nat>, keptWaits: seq<nat>)
    requires job' == job.(flows := job'.flows)
    requires Placed(ws1, waits, |job.admissions|)
    requires AnswerWaits(waits, job.admissions, 0) ==> OnlyAnswers(ws1, job.admissions)
    requires LateTold(job, Again, |ws1|, rs2, ws2, waits, |waits|, keptWaits)
    requires LateTold(job', Last, |ws2|, records, whose, keptWaits, |keptWaits|, [])
    requires ws1 <= ws2 <= whose
    ensures TurnsKept(job', whose, |ws1|, |ws2|)
  {
    hide RunOf, Missed;
    assert waits[..|waits|] == waits && keptWaits[..|keptWaits|] == keptWaits;
    assert whose[..|ws1|] == ws1;
    forall k | |ws2| <= k < |whose|
      ensures whose[k] < |job.admissions| && !Complete(job.admissions[whose[k]])
    {
      assert whose[k] in keptWaits[..|keptWaits|];
    }
    forall k | |ws1| <= k < |ws2|
      ensures whose[k] < |job.admissions| && Complete(job.admissions[whose[k]])
    {
      assert whose[k] == ws2[k];
    }
    forall n: nat, k | AnswerAt(n, job.admissions) && n !in ws1 && 0 <= k < |ws1|
      ensures AnswerAt(whose[k], job.admissions)
    {
      var m: nat :| m < |waits| && waits[m] == n;
      assert IsAnswer(waits[m], job.admissions) && whose[k] == ws1[k];
      assert IsAnswer(ws1[k], job.admissions);
    }
  }

  lemma Finish(records: seq<Record>, whose: seq<nat>, waits: seq<nat>, truncated: bool,
               admissions: seq<Admission>, plans: seq<SourcePlan>, texts: Texts)
    requires LateInv(records, whose, waits, |waits|, [], [], truncated, admissions, plans, texts)
    requires SentOnce(admissions, plans)
    ensures RecordedOnce(records) && RecordsShow(records, texts)
    ensures forall file, l :: RecordsLine(records, file, l) ==> SendsAny(admissions, plans, file, l)
    ensures !truncated ==> forall file, l :: SendsAny(admissions, plans, file, l) ==> RecordsLine(records, file, l)
    ensures Logged(records, whose, admissions, plans, texts) && AnswersFirst(whose, admissions)
  {
    hide Logged, AllWhole, AnswersFirst, OnlyAnswers, AnswerWaits, RecordedOnce, RecordsShow, SendsAny, RecordsLine, SentOnce;
    OnceRecorded(records, whose, admissions, plans, texts);
    if !truncated {
      AllRecorded(records, whose, admissions, plans, texts);
    }
  }
}
