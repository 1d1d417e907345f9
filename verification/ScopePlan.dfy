/** The planned source of `graph scope`: prioritised, then coalesced (src/graph/agent.rs). */
module ScopePlan {
  import opened SourceRanges
  import opened Admissions
  import opened FilePlans
  import opened FilePlanning
  import opened PutForward
  import opened PlannedIds
  import opened Prioritize
  import opened Entries
  import opened Grouping
  import opened Accounting
  import opened Coalesce
  import opened SendOrder

  /** Some planned range of `file` has line `l`. */
  ghost predicate Planned(plans: seq<SourcePlan>, file: string, l: int) {
    exists k :: 0 <= k < |plans| && plans[k].file == file && Covers(plans[k].ranges, l)
  }

  lemma ValidSlotShows(s: Slot, fps: seq<FilePlan>, plans: seq<SourcePlan>, sel: Selection, nodes: Nodes, texts: Texts)
    requires FilePlansOk(fps, plans, sel, nodes, texts) && Valid(s, fps)
    ensures AdmissionOk(AdmissionOf(s, fps), plans, texts)
    ensures forall l :: Covers(AdmissionOf(s, fps).ranges, l) ==> Asks(fps[s.fp], l)
  {
    hide Shows, PlannedBy, IdsBy, LanesMeet, AnswersReserved, PutsFor, IdsMeet;
    assert FilePlanOk(fps[s.fp], plans, sel, nodes, texts);
    forall l | Covers(AdmissionOf(s, fps).ranges, l)
      ensures Asks(fps[s.fp], l)
    {
      match s {
        case AnswerSlot(f, i) => CoversOne(fps[f].answers[i], l); assert Covers(fps[f].answers, l);
        case DirectSlot(f, i) => CoversOne(fps[f].direct[i], l); assert Covers(fps[f].direct, l);
        case AnchorSlot(f, i) => CoversOne(fps[f].anchors[i], l); assert Covers(fps[f].anchors, l);
        case OptionalSlot(f) =>
      }
    }
  }

  /** Every line a file plan asks for has a slot that carries it. */
  lemma AskedHasSlot(f: nat, fps: seq<FilePlan>, l: int) returns (s: Slot)
    requires f < |fps| && Asks(fps[f], l)
    ensures Valid(s, fps) && s.fp == f && Covers(AdmissionOf(s, fps).ranges, l)
    ensures Covers(fps[f].answers, l) ==> AdmissionOf(s, fps).phase == Answer
  {
    if Covers(fps[f].answers, l) {
      var i :| 0 <= i < |fps[f].answers| && Within(fps[f].answers[i], l);
      CoversOne(fps[f].answers[i], l);
      s := AnswerSlot(f, i);
    } else if Covers(fps[f].direct, l) {
      var i :| 0 <= i < |fps[f].direct| && Within(fps[f].direct[i], l);
      CoversOne(fps[f].direct[i], l);
      s := DirectSlot(f, i);
    } else if Covers(fps[f].anchors, l) {
      var i :| 0 <= i < |fps[f].anchors| && Within(fps[f].anchors[i], l);
      CoversOne(fps[f].anchors[i], l);
      s := AnchorSlot(f, i);
    } else {
      s := OptionalSlot(f);
    }
  }

  /** Emitting every slot sends exactly the planned lines. */
  lemma EmittedIsPlanned(ordered: seq<Admission>, slots: seq<Slot>, fps: seq<FilePlan>, plans: seq<SourcePlan>,
                         sel: Selection, nodes: Nodes, texts: Texts, file: string, l: int)
    requires FilePlansOk(fps, plans, sel, nodes, texts) && Prioritized(ordered, slots, fps, sel.globalOrder)
    ensures SendsAny(ordered, plans, file, l) <==> Planned(plans, file, l)
  {
    hide ReservedFirst, RestInStages, PhaseSorted, Shows, FilePlanOk, Prioritized, Carries;
    if SendsAny(ordered, plans, file, l) {
      var ph :| Sends(ordered, plans, file, ph, l);
      var k :| 0 <= k < |ordered| && Carries(ordered[k], plans, file, ph, l);
      CarriedIsPlanned(ordered, slots, fps, plans, sel, nodes, texts, file, ph, k, l);
    }
    if Planned(plans, file, l) {
      var k :| 0 <= k < |plans| && plans[k].file == file && Covers(plans[k].ranges, l);
      var f :| 0 <= f < |fps| && fps[f].plan == k;
      assert Asks(fps[f], l) by { PlannedIsAsked(fps[f], plans, sel, nodes, texts, l); }
      var s := AskedHasSlot(f, fps, l);
      SlotSends(ordered, slots, fps, plans, sel.globalOrder, s, file, l);
    }
  }

  lemma CarriedIsPlanned(ordered: seq<Admission>, slots: seq<Slot>, fps: seq<FilePlan>, plans: seq<SourcePlan>,
                         sel: Selection, nodes: Nodes, texts: Texts, file: string, ph: Phase, k: nat, l: int)
    requires FilePlansOk(fps, plans, sel, nodes, texts) && Prioritized(ordered, slots, fps, sel.globalOrder)
    requires k < |ordered| && Carries(ordered[k], plans, file, ph, l)
    ensures Planned(plans, file, l)
  {
    hide ReservedFirst, RestInStages, PhaseSorted, Shows;
    ValidSlotShows(slots[k], fps, plans, sel, nodes, texts);
    assert FilePlanOk(fps[slots[k].fp], plans, sel, nodes, texts);
    assert Covers(plans[ordered[k].plan].ranges, l);
  }

  lemma PlannedIsAsked(fp: FilePlan, plans: seq<SourcePlan>, sel: Selection, nodes: Nodes, texts: Texts, l: int)
    requires FilePlanOk(fp, plans, sel, nodes, texts)
    ensures Covers(plans[fp.plan].ranges, l) ==> Asks(fp, l)
  {
    hide Shows;
  }

  lemma SlotSends(ordered: seq<Admission>, slots: seq<Slot>, fps: seq<FilePlan>, plans: seq<SourcePlan>,
                  order: map<NodeId, nat>, s: Slot, file: string, l: int)
    requires Prioritized(ordered, slots, fps, order) && Valid(s, fps) && Covers(AdmissionOf(s, fps).ranges, l)
    requires fps[s.fp].plan < |plans| && plans[fps[s.fp].plan].file == file
    ensures Sends(ordered, plans, file, AdmissionOf(s, fps).phase, l)
    ensures SendsAny(ordered, plans, file, l)
  {
    hide ReservedFirst, RestInStages, PhaseSorted;
    var j :| 0 <= j < |slots| && slots[j] == s;
    assert Carries(ordered[j], plans, file, AdmissionOf(s, fps).phase, l);
  }

  /** The declaration line of a reserved declaration is asked for as an answer. */
  lemma ReservedIsAnswered(ordered: seq<Admission>, slots: seq<Slot>, fps: seq<FilePlan>, plans: seq<SourcePlan>,
                           sel: Selection, nodes: Nodes, texts: Texts, k: nat, id: NodeId)
    requires FilePlansOk(fps, plans, sel, nodes, texts) && Prioritized(ordered, slots, fps, sel.globalOrder)
    requires k < |plans| && id in sel.primaryOrder && id in sel.reservedPrimary && InFile(id, plans[k].file, nodes)
    requires Carried(id, plans[k].ranges, nodes)
    ensures Sends(ordered, plans, plans[k].file, Answer, nodes[id].start)
  {
    hide ReservedFirst, RestInStages, PhaseSorted, Shows;
    var f :| 0 <= f < |fps| && fps[f].plan == k;
    assert FilePlanOk(fps[f], plans, sel, nodes, texts);
    var s := AskedHasSlot(f, fps, nodes[id].start);
    SlotSends(ordered, slots, fps, plans, sel.globalOrder, s, plans[k].file, nodes[id].start);
  }

  method PrioritizeSourceAdmissions(plans: seq<SourcePlan>, sel: Selection, nodes: Nodes, ghost texts: Texts)
    returns (ordered: seq<Admission>, ghost fps: seq<FilePlan>, ghost slots: seq<Slot>)
    requires PlansOk(plans, texts) && NodesOk(nodes)
    ensures FilePlansOk(fps, plans, sel, nodes, texts)
    ensures Prioritized(ordered, slots, fps, sel.globalOrder)
    ensures AdmissionsOk(ordered, plans, texts) && PhaseSorted(ordered)
    ensures forall file, l :: SendsAny(ordered, plans, file, l) <==> Planned(plans, file, l)
  {
    var filePlans := PlanFiles(plans, sel, nodes, texts);
    ordered, slots := EmitAll(filePlans, sel.globalOrder);
    fps := filePlans;
    forall k | 0 <= k < |ordered|
      ensures AdmissionOk(ordered[k], plans, texts)
    {
      ValidSlotShows(slots[k], fps, plans, sel, nodes, texts);
    }
    forall file, l
      ensures SendsAny(ordered, plans, file, l) <==> Planned(plans, file, l)
    {
      EmittedIsPlanned(ordered, slots, fps, plans, sel, nodes, texts, file, l);
    }
  }

  /** A file's first anchor is emitted ahead of any file's second one. */
  lemma FirstAnchorsFirst(ordered: seq<Admission>, slots: seq<Slot>, fps: seq<FilePlan>, order: map<NodeId, nat>,
                          a: nat, b: nat)
    requires Prioritized(ordered, slots, fps, order) && a < |slots| && b < |slots|
    requires slots[a].AnchorSlot? && slots[a].i == 0 && slots[b].AnchorSlot? && slots[b].i > 0
    ensures a < b
  {
    hide ReservedFirst, RestInStages;
    SlotPhase(slots[a], fps);
    SlotPhase(slots[b], fps);
    assert Rank(ordered[a].phase) < Rank(ordered[b].phase);
  }

  /** The declaration line of every reserved declaration that a range carries is among the answers. */
  ghost predicate ReservedAnswered(admissions: seq<Admission>, plans: seq<SourcePlan>, sel: Selection, nodes: Nodes) {
    forall k, id :: 0 <= k < |plans| && id in sel.primaryOrder && id in sel.reservedPrimary
                    && InFile(id, plans[k].file, nodes) && Carried(id, plans[k].ranges, nodes)
      ==> Sends(admissions, plans, plans[k].file, Answer, nodes[id].start)
  }

  /**
   The whole plan: every planned line of every file is sent exactly once with its file text, the
   admissions come in phase order, in each phase by priority, and a reserved declaration's line goes
   out among the answers. `ordered` is what the files asked for, by priority; the node ids it asks for stay accounted for.
   */
  method PlanAdmissions(plans: seq<SourcePlan>, sel: Selection, nodes: Nodes, ghost texts: Texts)
    returns (out: seq<Admission>, ghost ordered: seq<Admission>, ghost fps: seq<FilePlan>, ghost slots: seq<Slot>,
             ghost requests: seq<Entry>, ghost from: seq<nat>)
    requires PlansOk(plans, texts) && NodesOk(nodes)
    ensures FilePlansOk(fps, plans, sel, nodes, texts) && Prioritized(ordered, slots, fps, sel.globalOrder)
    ensures PhaseSorted(ordered) && Coalesced(out, ordered, plans, texts) && Accounted(out, ordered, plans, nodes)
    ensures Merged(requests, FlatOf(ordered), plans) && EntriesOk(requests, plans, texts)
    ensures SendsPieces(out, requests, plans, nodes)
    ensures SentInOrder(out, from, requests, plans, nodes) && SentByPriority(out, requests, ordered, plans)
    ensures AsksStill(ordered, plans, sel, nodes)
    ensures (forall k :: 0 <= k < |plans| ==> IdsMeet(plans[k].ranges, nodes)) ==> AsksWhatItMeets(requests, nodes)
    ensures AdmissionsOk(out, plans, texts) && SentOnce(out, plans) && PhaseSorted(out)
    ensures forall i :: 0 <= i < |out| ==> |out[i].ranges| == 1
    ensures forall file, l :: SendsAny(out, plans, file, l) <==> Planned(plans, file, l)
    ensures ReservedAnswered(ordered, plans, sel, nodes) && ReservedAnswered(out, plans, sel, nodes)
  {
    var asked;
    asked, fps, slots := PrioritizeSourceAdmissions(plans, sel, nodes, texts);
    ordered := asked;
    hide Accounted, Prioritized, FilePlansOk, Merged, SendsPieces, SentInOrder, SentByPriority, AsksStill, AsksWhatItMeets, IdsMeet;
    AllAskedIds(ordered, slots, fps, plans, sel, nodes, texts);
    out, requests, from := CoalesceSourceAdmissions(asked, plans, nodes, texts);
    PriorityKept(out, from, requests, ordered, plans, nodes);
    if forall k :: 0 <= k < |plans| ==> IdsMeet(plans[k].ranges, nodes) {
      RequestsMeet(requests, ordered, slots, fps, plans, sel, nodes, texts);
    }
    forall k, id | 0 <= k < |plans| && id in sel.primaryOrder && id in sel.reservedPrimary
                     && InFile(id, plans[k].file, nodes) && Carried(id, plans[k].ranges, nodes)
      ensures Sends(ordered, plans, plans[k].file, Answer, nodes[id].start)
      ensures Sends(out, plans, plans[k].file, Answer, nodes[id].start)
    {
      ReservedIsAnswered(ordered, slots, fps, plans, sel, nodes, texts, k, id);
      SentAsAnswer(out, ordered, plans, texts, plans[k].file, nodes[id].start);
    }
  }

  /** A line some answer asks for is sent as an answer. */
  lemma SentAsAnswer(out: seq<Admission>, ordered: seq<Admission>, plans: seq<SourcePlan>, texts: Texts, file: string, l: int)
    requires Coalesced(out, ordered, plans, texts) && PhaseSorted(ordered) && Sends(ordered, plans, file, Answer, l)
    ensures Sends(out, plans, file, Answer, l)
  {
    hide SentOnce, AdmissionsOk;
    assert SendsAny(ordered, plans, file, l);
    var ph :| Sends(out, plans, file, ph, l);
    assert Rank(ph) <= Rank(Answer);
  }
}
