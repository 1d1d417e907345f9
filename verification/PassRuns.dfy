/** What the passes of `graph scope` leave, pass by pass (src/graph/agent.rs). */
module PassRuns {
  import opened Prelude
  import opened SourceRanges
  import opened Admissions
  import opened Estimate
  import opened Budget
  import opened Rooms

  // ----- The first pass -----

  ghost predicate AnswerAt(n: nat, admissions: seq<Admission>) { n < |admissions| && admissions[n].phase == Answer }

  /** An admission of a lower phase waits because an answer does. */
  ghost predicate HeldBack(whose: seq<nat>, n: nat, admissions: seq<Admission>) {
    n < |admissions| && admissions[n].phase != Answer && exists a: nat :: a < n && AnswerAt(a, admissions) && a !in whose
  }

  /** After the first `i` admissions: each is sent, held back, or was missed in its turn. */
  ghost predicate FirstTold(job: Job, records: seq<Record>, whose: seq<nat>, i: nat) {
    && i <= |job.admissions| && RunOf(job, First, records, whose, 0, |whose|)
    && (forall k :: 0 <= k < |whose| ==> whose[k] < i)
    && (forall n: nat :: n < i && n !in whose ==>
          HeldBack(whose, n, job.admissions) || Missed(job, First, records, whose, 0, |whose|, n))
  }

  lemma RoomNow(job: Job, pass: Pass, n: nat, records: seq<Record>)
    requires n < |job.admissions|
    ensures RoomAt(job, pass, n, records, |records|) == Room(job.t, pass, job.admissions[n], SumTokens(records), job.flows)
  {
    hide Room, SumTokens;
    assert records[..|records|] == records;
  }

  lemma FirstSends(job: Job, records: seq<Record>, whose: seq<nat>, i: nat, rec: Record)
    requires FirstTold(job, records, whose, i) && i < |job.admissions|
    requires AsLarge(rec, job.admissions[i], job.plans, Room(job.t, First, job.admissions[i], SumTokens(records), job.flows))
    ensures FirstTold(job, records + [rec], whose + [i], i + 1)
  {
    hide AsLarge, RunOf, Missed, Room, SumTokens, RoomAt;
    RoomNow(job, First, i, records);
    RunSends(job, First, records, whose, 0, rec, i) by { RunParallel(job, First, records, whose, 0); }
    forall n: nat | n < i && n !in whose
      ensures HeldBack(whose + [i], n, job.admissions) || Missed(job, First, records + [rec], whose + [i], 0, |whose| + 1, n)
    {
      if HeldBack(whose, n, job.admissions) {
        var a: nat :| a < n && AnswerAt(a, job.admissions) && a !in whose;
        assert a !in whose + [i];
      } else {
        MissedSends(job, First, records, whose, 0, n, rec, i);
      }
    }
  }

  lemma RunParallel(job: Job, pass: Pass, records: seq<Record>, whose: seq<nat>, from: nat)
    requires RunOf(job, pass, records, whose, from, |whose|)
    ensures from <= |whose| == |records|
  {
  }

  lemma FirstMisses(job: Job, records: seq<Record>, whose: seq<nat>, i: nat)
    requires FirstTold(job, records, whose, i) && i < |job.admissions|
    requires TooLarge(job.admissions[i], job.plans, Room(job.t, First, job.admissions[i], SumTokens(records), job.flows))
    ensures FirstTold(job, records, whose, i + 1)
  {
    hide TooLarge, RunOf, Missed, Room, SumTokens, RoomAt;
    RoomNow(job, First, i, records);
    RunParallel(job, First, records, whose, 0);
    MissesNow(job, First, records, whose, 0, i);
  }

  lemma FirstHolds(job: Job, records: seq<Record>, whose: seq<nat>, i: nat)
    requires FirstTold(job, records, whose, i) && HeldBack(whose, i, job.admissions)
    ensures FirstTold(job, records, whose, i + 1)
  {
    hide RunOf, Missed, HeldBack;
    assert i < |job.admissions| by { HeldIsOne(whose, i, job.admissions); }
  }

  lemma HeldIsOne(whose: seq<nat>, n: nat, admissions: seq<Admission>)
    requires HeldBack(whose, n, admissions)
    ensures n < |admissions|
  {
  }

  lemma FirstStarts(job: Job)
    ensures FirstTold(job, [], [], 0)
  {
  }

  // ----- The later passes -----

  /** The second try is for complete answers, the last one for what still waits. */
  predicate Turn(job: Job, pass: Pass, n: nat) { n < |job.admissions| && (pass == Again ==> Complete(job.admissions[n])) }

  /** The waiting admissions come in the order of the plan. */
  ghost predicate InTurn(waits: seq<nat>, n: nat) {
    && (forall m :: 0 <= m < |waits| ==> waits[m] < n)
    && (forall l, m :: 0 <= l < m < |waits| ==> waits[l] < waits[m])
  }

  /** After the first `j` waiting ones: each whose turn it was is sent or was missed, the others are kept. */
  ghost predicate LateTold(job: Job, pass: Pass, from: nat, records: seq<Record>, whose: seq<nat>,
                           waits: seq<nat>, j: nat, keptWaits: seq<nat>) {
    && j <= |waits| && RunOf(job, pass, records, whose, from, |whose|)
    && (forall k :: from <= k < |whose| ==> whose[k] in waits[..j] && Turn(job, pass, whose[k]))
    && (forall m :: 0 <= m < j && Turn(job, pass, waits[m]) && waits[m] !in whose ==>
          Missed(job, pass, records, whose, from, |whose|, waits[m]))
    && (forall n: nat :: n in keptWaits <==> n in waits[..j] && !Turn(job, pass, n))
  }

  lemma LateSends(job: Job, pass: Pass, from: nat, records: seq<Record>, whose: seq<nat>,
                  waits: seq<nat>, j: nat, keptWaits: seq<nat>, rec: Record)
    requires LateTold(job, pass, from, records, whose, waits, j, keptWaits)
    requires InTurn(waits, |job.admissions|) && j < |waits| && Turn(job, pass, waits[j])
    requires var a := job.admissions[waits[j]]; AsLarge(rec, a, job.plans, Room(job.t, pass, a, SumTokens(records), job.flows))
    ensures LateTold(job, pass, from, records + [rec], whose + [waits[j]], waits, j + 1, keptWaits)
  {
    hide AsLarge, RunOf, Missed, Room, SumTokens, RoomAt, Turn;
    var n := waits[j];
    RunParallel(job, pass, records, whose, from);
    RoomNow(job, pass, n, records);
    TakeSnoc(waits, j);
    RunSends(job, pass, records, whose, from, rec, n) by { SentAreEarlier(whose, from, waits, j); }
    forall m | 0 <= m < j && Turn(job, pass, waits[m]) && waits[m] !in whose
      ensures Missed(job, pass, records + [rec], whose + [n], from, |whose| + 1, waits[m])
    {
      MissedSends(job, pass, records, whose, from, waits[m], rec, n);
    }
  }

  lemma SentAreEarlier(whose: seq<nat>, from: nat, waits: seq<nat>, j: nat)
    requires j < |waits| && forall l, m :: 0 <= l < m < |waits| ==> waits[l] < waits[m]
    requires forall k :: from <= k < |whose| ==> whose[k] in waits[..j]
    ensures forall k :: from <= k < |whose| ==> whose[k] < waits[j]
  {
    forall k | from <= k < |whose|
      ensures whose[k] < waits[j]
    {
      var m :| 0 <= m < j && waits[..j][m] == whose[k];
      assert waits[m] < waits[j];
    }
  }

  lemma LateMisses(job: Job, pass: Pass, from: nat, records: seq<Record>, whose: seq<nat>,
                   waits: seq<nat>, j: nat, keptWaits: seq<nat>)
    requires LateTold(job, pass, from, records, whose, waits, j, keptWaits)
    requires InTurn(waits, |job.admissions|) && j < |waits| && Turn(job, pass, waits[j])
    requires var a := job.admissions[waits[j]]; TooLarge(a, job.plans, Room(job.t, pass, a, SumTokens(records), job.flows))
    ensures LateTold(job, pass, from, records, whose, waits, j + 1, keptWaits)
  {
    hide TooLarge, RunOf, Missed, Room, SumTokens, RoomAt, Turn;
    RunParallel(job, pass, records, whose, from);
    RoomNow(job, pass, waits[j], records);
    TakeSnoc(waits, j);
    SentAreEarlier(whose, from, waits, j);
    MissesNow(job, pass, records, whose, from, waits[j]);
  }

  lemma LateKeeps(job: Job, pass: Pass, from: nat, records: seq<Record>, whose: seq<nat>,
                  waits: seq<nat>, j: nat, keptWaits: seq<nat>)
    requires LateTold(job, pass, from, records, whose, waits, j, keptWaits)
    requires j < |waits| && !Turn(job, pass, waits[j])
    ensures LateTold(job, pass, from, records, whose, waits, j + 1, keptWaits + [waits[j]])
  {
    hide RunOf, Missed, Turn;
    TakeSnoc(waits, j);
  }

  lemma LateStarts(job: Job, pass: Pass, records: seq<Record>, whose: seq<nat>, waits: seq<nat>)
    requires |whose| == |records|
    ensures LateTold(job, pass, |whose|, records, whose, waits, 0, [])
  {
  }

  // ----- All passes -----

  /**
   The records up to `first` are those of the first pass, those up to `second` those of the answers'
   second try, the others those of the last pass. An admission without a record was missed by its last
   pass; one not sent by the first pass was missed there, or held back by an answer that was missed.
   */
  ghost predicate Emitted(job: Job, records: seq<Record>, whose: seq<nat>, first: nat, second: nat) {
    && first <= second <= |whose| == |records|
    && RunOf(job, First, records, whose, 0, first)
    && RunOf(job, Again, records, whose, first, second)
    && RunOf(job, Last, records, whose, second, |whose|)
    && TurnsKept(job, whose, first, second)
    && (forall n: nat :: n < |job.admissions| && n !in whose[..first] ==>
          HeldBack(whose[..first], n, job.admissions) || Missed(job, First, records, whose, 0, first, n))
    && (forall n: nat :: n < |job.admissions| && n !in whose ==>
          if Complete(job.admissions[n]) then Missed(job, Again, records, whose, first, second, n)
          else Missed(job, Last, records, whose, second, |whose|, n))
  }

  /** Only complete answers have a second try, and no last one; while an answer waits only answers are sent. */
  ghost predicate TurnsKept(job: Job, whose: seq<nat>, first: nat, second: nat)
    requires first <= second <= |whose|
  {
    && (forall k :: first <= k < second ==> whose[k] < |job.admissions| && Complete(job.admissions[whose[k]]))
    && (forall k :: second <= k < |whose| ==> whose[k] < |job.admissions| && !Complete(job.admissions[whose[k]]))
    && (forall n: nat, k :: AnswerAt(n, job.admissions) && n !in whose[..first] && 0 <= k < first ==> AnswerAt(whose[k], job.admissions))
  }

  lemma SameFlows(job: Job, flows: nat, pass: Pass, records: seq<Record>, whose: seq<nat>, from: nat, until: nat)
    requires pass != Last
    ensures RunOf(job, pass, records, whose, from, until) ==> RunOf(job.(flows := flows), pass, records, whose, from, until)
    ensures forall n: nat :: Missed(job, pass, records, whose, from, until, n)
              ==> Missed(job.(flows := flows), pass, records, whose, from, until, n)
  {
    hide AsLarge, TooLarge, SumTokens;
    var job' := job.(flows := flows);
    assert forall a, spent :: Room(job.t, pass, a, spent, flows) == Room(job.t, pass, a, spent, job.flows);
    if RunOf(job, pass, records, whose, from, until) {
      forall k | from <= k < until
        ensures SentAt(job', pass, records, whose, k)
      {
        assert SentAt(job, pass, records, whose, k);
      }
    }
    forall n: nat | Missed(job, pass, records, whose, from, until, n)
      ensures Missed(job', pass, records, whose, from, until, n)
    {
      var m: nat :| MissedAt(job, pass, records, whose, from, until, n, m);
      assert MissedAt(job', pass, records, whose, from, until, n, m);
    }
  }

  // ----- What follows for what is missing -----

  lemma PrefixTokens(records: seq<Record>, m: nat)
    requires m <= |records|
    ensures SumTokens(records[..m]) <= SumTokens(records)
  {
    hide SumTokens;
    assert records == records[..m] + records[m..];
    SumTokensAppend(records[..m], records[m..]);
  }

  /** What is left in the end. */
  function LeftOver(job: Job, records: seq<Record>): nat {
    SaturatingSub(SaturatingSub(job.t.room, SumTokens(records)), job.flows)
  }

  /** An admission without a record that is no complete answer costs more than what is left in the end. */
  lemma MissingIsTooLarge(job: Job, records: seq<Record>, whose: seq<nat>, first: nat, second: nat, n: nat)
    requires Emitted(job, records, whose, first, second)
    requires n < |job.admissions| && n !in whose && !Complete(job.admissions[n])
    ensures TooLarge(job.admissions[n], job.plans, LeftOver(job, records))
  {
    hide TooLarge, RunOf, SumTokens, HeldBack, TurnsKept;
    var m: nat :| MissedAt(job, Last, records, whose, second, |whose|, n, m);
    PrefixTokens(records, m);
    TooLargeLater(job.admissions[n], job.plans, RoomAt(job, Last, n, records, m), LeftOver(job, records));
  }

  /** When `m` records were out, all of them answers, `a` cost more than was left above the flow reserve. */
  ghost predicate MissedAbove(job: Job, records: seq<Record>, whose: seq<nat>, a: Admission, m: nat) {
    && m <= |whose| == |records|
    && (forall k :: 0 <= k < m ==> AnswerAt(whose[k], job.admissions))
    && TooLarge(a, job.plans, SaturatingSub(SaturatingSub(job.t.room, SumTokens(records[..m])), job.t.reserve))
  }

  lemma MissingAnswer(job: Job, records: seq<Record>, whose: seq<nat>, first: nat, second: nat, n: nat) returns (m: nat)
    requires Emitted(job, records, whose, first, second)
    requires n < |job.admissions| && n !in whose && Complete(job.admissions[n])
    ensures MissedAbove(job, records, whose, job.admissions[n], m)
  {
    hide TooLarge, RunOf, SumTokens, HeldBack;
    m :| m >= 0 && MissedAt(job, Again, records, whose, first, second, n, m);
    assert AnswerAt(n, job.admissions) && n !in whose[..first];
    forall k | 0 <= k < m
      ensures AnswerAt(whose[k], job.admissions)
    {
    }
  }
}
