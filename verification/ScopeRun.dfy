/** The whole source half of `graph scope`: planned, coalesced and emitted (src/graph/agent.rs). */
module ScopeRun {
  import opened SourceRanges
  import opened Admissions
  import opened FilePlans
  import opened FilePlanning
  import opened PutForward
  import opened PlannedIds
  import opened Estimate
  import opened Budget
  import opened Entries
  import opened Grouping
  import opened RangeCuts
  import opened KeptPieces
  import opened Accounting
  import opened SendOrder
  import opened Rooms
  import opened PassRuns
  import opened Emission
  import Prioritize
  import Coalesce
  import ScopePlan

  /** The lines of the records that `ordered` asks for as answers are ahead of all other lines. */
  ghost predicate AnswerLinesFirst(records: seq<Record>, ordered: seq<Admission>, plans: seq<SourcePlan>) {
    forall j: nat, k: nat, file, l, file', l' ::
      && j < k < |records| && HasLineOf(records[j], file, l)
      && HasLineOf(records[k], file', l') && Sends(ordered, plans, file', Answer, l')
      ==> Sends(ordered, plans, file, Answer, l)
  }

  /** A line belongs to an answer's record iff it was asked for as an answer. */
  lemma AnswerLine(records: seq<Record>, whose: seq<nat>, admissions: seq<Admission>, ordered: seq<Admission>,
                   plans: seq<SourcePlan>, texts: Texts, j: nat, file: string, l: int)
    requires Logged(records, whose, admissions, plans, texts)
    requires Coalesce.Coalesced(admissions, ordered, plans, texts) && PhaseSorted(ordered)
    requires j < |records| && HasLineOf(records[j], file, l)
    ensures IsAnswer(whose[j], admissions) <==> Sends(ordered, plans, file, Answer, l)
  {
    hide PartOf, HasLineOf, Carries, AdmissionsOk, SentOnce;
    var a := admissions[whose[j]];
    PartCarries(records[j], a, plans, texts, file, l);
    assert Sends(admissions, plans, file, a.phase, l);
    assert Sends(ordered, plans, file, Answer, l) ==> Rank(a.phase) <= Rank(Answer);
  }

  lemma AnswersAhead(records: seq<Record>, whose: seq<nat>, admissions: seq<Admission>, ordered: seq<Admission>,
                     plans: seq<SourcePlan>, texts: Texts)
    requires Logged(records, whose, admissions, plans, texts) && AnswersFirst(whose, admissions)
    requires Coalesce.Coalesced(admissions, ordered, plans, texts) && PhaseSorted(ordered)
    ensures AnswerLinesFirst(records, ordered, plans)
  {
    hide HasLineOf, PhaseSorted, Coalesce.Coalesced;
    forall j: nat, k: nat, file, l, file', l' | j < k < |records| && HasLineOf(records[j], file, l)
                                                && HasLineOf(records[k], file', l')
                                                && Sends(ordered, plans, file', Answer, l')
      ensures Sends(ordered, plans, file, Answer, l)
    {
      AnswerLine(records, whose, admissions, ordered, plans, texts, j, file, l);
      AnswerLine(records, whose, admissions, ordered, plans, texts, k, file', l');
    }
  }

  // ----- The ids of the records -----

  /** Record `rec` shows lines of a piece of request `j` and carries exactly the ids of the whole piece. */
  ghost predicate ShowsPiece(rec: Record, rs: seq<Entry>, plans: seq<SourcePlan>, nodes: Nodes, j: nat, start: int, end: int) {
    && |rec.ranges| == 1 && Piece(rs, plans, j, start, end) && rec.file == plans[rs[j].adm.plan].file
    && start <= rec.ranges[0].start && rec.ranges[0].end <= end
    && forall id :: id in rec.ranges[0].nodeIds <==> CreditedTo(id, rs, plans, nodes, j, start, end, |rs|)
  }

  ghost predicate ShowsSome(rec: Record, rs: seq<Entry>, plans: seq<SourcePlan>, nodes: Nodes) {
    exists j: nat, start, end :: ShowsPiece(rec, rs, plans, nodes, j, start, end)
  }

  ghost predicate RecordsShowPieces(records: seq<Record>, rs: seq<Entry>, plans: seq<SourcePlan>, nodes: Nodes) {
    forall k: nat :: k < |records| ==> ShowsSome(records[k], rs, plans, nodes)
  }

  lemma RecordsOfPieces(records: seq<Record>, whose: seq<nat>, admissions: seq<Admission>, rs: seq<Entry>,
                        plans: seq<SourcePlan>, nodes: Nodes, texts: Texts)
    requires Logged(records, whose, admissions, plans, texts) && SendsPieces(admissions, rs, plans, nodes)
    ensures RecordsShowPieces(records, rs, plans, nodes)
  {
    hide SentBy, Piece, CreditedTo, AllShow;
    forall k: nat | k < |records|
      ensures ShowsSome(records[k], rs, plans, nodes)
    {
      var a := admissions[whose[k]];
      assert PartOf(records[k], a, plans, texts);
      var x := a.ranges[0];
      assert a in admissions && x in a.ranges && SendsSome(a, x, rs, plans, nodes);
      var j: nat :| SendsPiece(a, x, rs, plans, nodes, j);
      assert ShowsPiece(records[k], rs, plans, nodes, j, x.start, x.end);
    }
  }

  /**
   When requests have a line of what they ask for, a record carries an id without a line of its
   declaration exactly when the whole piece is credited with the id and the record was trimmed of
   all its declared lines.
   */
  lemma UnshownIds(rec: Record, rs: seq<Entry>, plans: seq<SourcePlan>, nodes: Nodes, j: nat, start: int, end: int, id: NodeId)
    requires ShowsPiece(rec, rs, plans, nodes, j, start, end) && AsksWhatItMeets(rs, nodes)
    ensures var x := rec.ranges[0];
            id in x.nodeIds && !Meets(id, x.start, x.end, nodes) <==>
            && CreditedTo(id, rs, plans, nodes, j, start, end, |rs|)
            && Meets(id, start, end, nodes) && !Meets(id, x.start, x.end, nodes)
            && (x.start > start || x.end < end)
  {
    hide CreditedTo;
    if id in rec.ranges[0].nodeIds {
      CreditMeets(id, rs, plans, nodes, j, start, end);
    }
  }

  // ----- The whole run -----

  /**
   What happens on the way: the admissions and whose piece each is, the admission each record is made
   for, how many flow records are reserved, and where the passes end.
   */
  datatype Way = Way(admissions: seq<Admission>, from: seq<nat>, whose: seq<nat>, reserved: nat, first: nat, second: nat)

  /** The admissions are the requests' pieces, by priority; each carries lines nobody else has. */
  ghost predicate PlannedWay(way: Way, ordered: seq<Admission>, requests: seq<Entry>, plans: seq<SourcePlan>, nodes: Nodes, texts: Texts) {
    && Coalesce.Coalesced(way.admissions, ordered, plans, texts)
    && SentInOrder(way.admissions, way.from, requests, plans, nodes)
    && SentByPriority(way.admissions, requests, ordered, plans)
  }

  /** The records are those the passes send, in the room that `room` tokens of ledger give them, of which `left` are left. */
  ghost predicate EmittedWay(way: Way, records: seq<Record>, taken: seq<bool>, plans: seq<SourcePlan>, payload: nat,
                             flowTokens: seq<nat>, room: nat, left: nat, texts: Texts)
  {
    && |taken| == |flowTokens| && way.reserved <= |flowTokens| && Leading(flowTokens, payload * 15 / 100, way.reserved)
    && Logged(records, way.whose, way.admissions, plans, texts) && way.second <= |records|
    && FlowsFit(flowTokens, taken, SaturatingSub(room, SumTokens(records[..way.second])))
    && var job := JobOf(way.admissions, plans, payload, flowTokens, way.reserved, TakenTokens(flowTokens, taken), room);
       Emitted(job, records, way.whose, way.first, way.second) && RightlyMissing(records, way.whose, job, left)
  }

  /** Some planned line is in no record. */
  ghost predicate PlannedMissing(records: seq<Record>, plans: seq<SourcePlan>) {
    exists file, l :: ScopePlan.Planned(plans, file, l) && !RecordsLine(records, file, l)
  }

  lemma MissingIsPlanned(records: seq<Record>, admissions: seq<Admission>, plans: seq<SourcePlan>)
    requires forall file, l :: SendsAny(admissions, plans, file, l) <==> ScopePlan.Planned(plans, file, l)
    ensures LineMissing(records, admissions, plans) <==> PlannedMissing(records, plans)
  {
    hide SendsAny, RecordsLine, ScopePlan.Planned;
    if LineMissing(records, admissions, plans) {
      var file, l :| LineMissed(records, admissions, plans, file, l);
      assert ScopePlan.Planned(plans, file, l);
    }
    if PlannedMissing(records, plans) {
      var file, l :| ScopePlan.Planned(plans, file, l) && !RecordsLine(records, file, l);
      assert LineMissed(records, admissions, plans, file, l);
    }
  }

  /**
   The whole command's source: from the planned ranges to the records in the response. `ordered` is
   what the files asked for, by priority; reserved declarations are among its answers. `requests` are
   those merged where they overlap; each record carries the ids of one piece of them. The answer says
   it is truncated exactly when a planned line or a flow is missing, and never when the pieces, sent
   whole, fit the source share and, with the flows, the ledger.
   */
  method ScopeSource(ledger: BudgetLedger, plans: seq<SourcePlan>, sel: Selection, nodes: Nodes, payload: nat,
                     flowTokens: seq<nat>, ghost texts: Texts)
    returns (records: seq<Record>, taken: seq<bool>, truncated: bool,
             ghost ordered: seq<Admission>, ghost fps: seq<FilePlan>, ghost slots: seq<Prioritize.Slot>,
             ghost requests: seq<Entry>, ghost way: Way)
    requires PlansOk(plans, texts) && NodesOk(nodes)
    requires forall i :: 0 <= i < |flowTokens| ==> flowTokens[i] >= 1
    modifies ledger
    ensures RecordedOnce(records) && RecordsShow(records, texts)
    ensures forall file, l :: RecordsLine(records, file, l) ==> ScopePlan.Planned(plans, file, l)
    ensures |taken| == |flowTokens| && (truncated <==> PlannedMissing(records, plans) || FlowMissing(taken))
    ensures ledger.used == old(ledger.used) + SumTokens(records) + TakenTokens(flowTokens, taken)
    ensures old(ledger.used) <= ledger.Limit() ==> ledger.used <= ledger.Limit()
    ensures FilePlansOk(fps, plans, sel, nodes, texts) && Prioritize.Prioritized(ordered, slots, fps, sel.globalOrder)
    ensures Merged(requests, FlatOf(ordered), plans) && EntriesOk(requests, plans, texts)
    ensures RecordsShowPieces(records, requests, plans, nodes)
    ensures AsksStill(ordered, plans, sel, nodes)
    ensures (forall k :: 0 <= k < |plans| ==> IdsMeet(plans[k].ranges, nodes)) ==> AsksWhatItMeets(requests, nodes)
    ensures AnswerLinesFirst(records, ordered, plans) && ScopePlan.ReservedAnswered(ordered, plans, sel, nodes)
    ensures PlannedWay(way, ordered, requests, plans, nodes, texts)
    ensures EmittedWay(way, records, taken, plans, payload, flowTokens, old(ledger.Available()), ledger.Available(), texts)
    ensures AllKnown(way.admissions, plans)
    ensures (SumWhole(way.admissions, plans) <= payload * 3 / 4
             && SumWhole(way.admissions, plans) + Sum(flowTokens) <= old(ledger.Available())) ==> !truncated
  {
    hide RecordedOnce, RecordsShow, RecordsLine, SendsAny, ScopePlan.Planned, SentOnce, PhaseSorted, PlansOk, NodesOk, AdmissionsOk;
    hide Logged, AnswersFirst, AnswerLinesFirst, Coalesce.Coalesced, Accounted, Merged, EntriesOk, SendsPieces, RecordsShowPieces, AsksStill, AsksWhatItMeets, IdsMeet, FilePlansOk, Prioritize.Prioritized, ScopePlan.ReservedAnswered;
    hide SentInOrder, SentByPriority, Emitted, RightlyMissing, FlowsFit, PlannedMissing, LineMissing, FlowMissing, Leading, SumTokens, SumWhole, AllKnown;
    var admissions;
    ghost var from;
    admissions, ordered, fps, slots, requests, from := ScopePlan.PlanAdmissions(plans, sel, nodes, texts);
    ghost var whose, reserved, first, second;
    records, whose, taken, reserved, first, second, truncated := EmitSource(ledger, plans, admissions, payload, flowTokens, texts);
    way := Way(admissions, from, whose, reserved, first, second);
    MissingIsPlanned(records, admissions, plans);
    AnswersAhead(records, whose, admissions, ordered, plans, texts);
    RecordsOfPieces(records, whose, admissions, requests, plans, nodes, texts);
  }
}
