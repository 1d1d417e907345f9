/** Which node ids prioritising asks for, and which it drops (src/graph/agent.rs). */
module PlannedIds {
  import opened SourceRanges
  import opened LaneOrder
  import opened Admissions
  import opened Entries
  import opened Grouping
  import opened Merging
  import opened RangeCuts
  import opened Accounting
  import opened FilePlans
  import opened PutForward
  import opened FilePlanning
  import opened Prioritize

  /**
   An answer, direct answer or anchor sends the excerpt at its place in the lane, as the lane lists what
   was put there; so a file's fairness excerpt is the first one put among its anchors.
   */
  lemma LanesInOrder(ordered: seq<Admission>, slots: seq<Slot>, fps: seq<FilePlan>, plans: seq<SourcePlan>,
                     sel: Selection, nodes: Nodes, texts: Texts, j: nat)
    requires FilePlansOk(fps, plans, sel, nodes, texts) && Prioritized(ordered, slots, fps, sel.globalOrder)
    requires j < |ordered| && !slots[j].OptionalSlot?
    ensures ordered[j].plan < |plans| && plans[ordered[j].plan].ranges != [] && ordered[j].ranges != []
    ensures var lane := match slots[j] case AnswerSlot(_, _) => Answers case DirectSlot(_, _) => Direct case _ => Anchors;
            var all := ExcerptsIn(PutsFor(ordered[j].plan, plans[ordered[j].plan], sel, nodes), lane);
            && slots[j].i < |Joined([], all)|
            && ordered[j].ranges == [ordered[j].ranges[0]]
            && Outline(ordered[j].ranges[0]) == Joined([], all)[slots[j].i]
            && all != [] && (slots[j].i == 0 ==> Outline(ordered[j].ranges[0]) == Outline(all[0]))
  {
    hide ReservedFirst, RestInStages, PhaseSorted, Conserves, AnswersReserved, LanesMeet, IdsMeet, IdsBy, OptionalBy, PutsFor;
    var s := slots[j];
    var fp := fps[s.fp];
    assert FilePlanOk(fp, plans, sel, nodes, texts);
    var puts := PutsFor(fp.plan, plans[fp.plan], sel, nodes);
    match s {
      case AnswerSlot(_, i) =>
        FirstIsFirst(fp.answers, ExcerptsIn(puts, Answers));
        assert Outlines(fp.answers)[i] == Outline(fp.answers[i]);
      case DirectSlot(_, i) =>
        FirstIsFirst(fp.direct, ExcerptsIn(puts, Direct));
        assert Outlines(fp.direct)[i] == Outline(fp.direct[i]);
      case AnchorSlot(_, i) =>
        FirstIsFirst(fp.anchors, ExcerptsIn(puts, Anchors));
        assert Outlines(fp.anchors)[i] == Outline(fp.anchors[i]);
      case OptionalSlot(_) =>
    }
  }

  /** Some admission made from plan `k` asks for `id`. */
  ghost predicate AsksPlan(ordered: seq<Admission>, k: nat, id: NodeId) {
    exists a, r :: a in ordered && r in a.ranges && a.plan == k && id in r.nodeIds
  }

  /** An id of a plan is put forward, or a run that is left of a range stands for it. */
  ghost predicate StillAsked(plan: SourcePlan, k: nat, sel: Selection, nodes: Nodes, id: NodeId)
    requires plan.ranges != []
  {
    Forwarded(PutsFor(k, plan, sel, nodes), id) || LeftFor(id, plan.ranges, PutsFor(k, plan, sel, nodes), nodes)
  }

  lemma SlotAsks(s: Slot, fps: seq<FilePlan>, r: SourceRange, id: NodeId)
    requires Valid(s, fps) && r in AdmissionOf(s, fps).ranges && id in r.nodeIds
    ensures AsksId(fps[s.fp], id) && AdmissionOf(s, fps).plan == fps[s.fp].plan
  {
    match s {
      case AnswerSlot(f, i) => assert id in fps[f].answers[i].nodeIds;
      case DirectSlot(f, i) => assert id in fps[f].direct[i].nodeIds;
      case AnchorSlot(f, i) => assert id in fps[f].anchors[i].nodeIds;
      case OptionalSlot(f) =>
        var i :| 0 <= i < |fps[f].optional| && fps[f].optional[i] == r;
    }
  }

  lemma AskedHasIdSlot(f: nat, fps: seq<FilePlan>, id: NodeId) returns (s: Slot, r: SourceRange)
    requires f < |fps| && AsksId(fps[f], id)
    ensures Valid(s, fps) && s.fp == f && r in AdmissionOf(s, fps).ranges && id in r.nodeIds
    ensures AdmissionOf(s, fps).plan == fps[f].plan
  {
    var fp := fps[f];
    if HasId(fp.answers, id) {
      var i :| 0 <= i < |fp.answers| && id in fp.answers[i].nodeIds;
      s, r := AnswerSlot(f, i), fp.answers[i];
    } else if HasId(fp.direct, id) {
      var i :| 0 <= i < |fp.direct| && id in fp.direct[i].nodeIds;
      s, r := DirectSlot(f, i), fp.direct[i];
    } else if HasId(fp.anchors, id) {
      var i :| 0 <= i < |fp.anchors| && id in fp.anchors[i].nodeIds;
      s, r := AnchorSlot(f, i), fp.anchors[i];
    } else {
      var i :| 0 <= i < |fp.optional| && id in fp.optional[i].nodeIds;
      s, r := OptionalSlot(f), fp.optional[i];
    }
  }

  /** Prioritising asks for exactly the ids put forward and those that what is left stands for. */
  lemma AskedIds(ordered: seq<Admission>, slots: seq<Slot>, fps: seq<FilePlan>, plans: seq<SourcePlan>,
                 sel: Selection, nodes: Nodes, texts: Texts, k: nat, id: NodeId)
    requires FilePlansOk(fps, plans, sel, nodes, texts) && Prioritized(ordered, slots, fps, sel.globalOrder)
    requires k < |plans| && plans[k].ranges != []
    ensures AsksPlan(ordered, k, id) <==> StillAsked(plans[k], k, sel, nodes, id)
  {
    hide ReservedFirst, RestInStages, PhaseSorted, Conserves, AnswersReserved, PlannedBy, LanesMeet, IdsMeet, Forwarded, LeftFor;
    var f :| 0 <= f < |fps| && fps[f].plan == k;
    assert FilePlanOk(fps[f], plans, sel, nodes, texts);
    if AsksPlan(ordered, k, id) {
      var a, r :| a in ordered && r in a.ranges && a.plan == k && id in r.nodeIds;
      var j :| 0 <= j < |ordered| && ordered[j] == a;
      SlotAsks(slots[j], fps, r, id);
      assert FilePlanOk(fps[slots[j].fp], plans, sel, nodes, texts);
    }
    if AsksId(fps[f], id) {
      var s, r := AskedHasIdSlot(f, fps, id);
      var j :| 0 <= j < |slots| && slots[j] == s;
      assert ordered[j] in ordered;
    }
  }

  /** Of every plan prioritising asks for exactly the ids put forward and those that what is left stands for. */
  ghost predicate AsksStill(ordered: seq<Admission>, plans: seq<SourcePlan>, sel: Selection, nodes: Nodes) {
    forall k: nat, id :: k < |plans| && plans[k].ranges != [] ==>
      (AsksPlan(ordered, k, id) <==> StillAsked(plans[k], k, sel, nodes, id))
  }

  lemma AllAskedIds(ordered: seq<Admission>, slots: seq<Slot>, fps: seq<FilePlan>, plans: seq<SourcePlan>,
                    sel: Selection, nodes: Nodes, texts: Texts)
    requires FilePlansOk(fps, plans, sel, nodes, texts) && Prioritized(ordered, slots, fps, sel.globalOrder)
    ensures AsksStill(ordered, plans, sel, nodes)
  {
    hide FilePlansOk, Prioritized, StillAsked, AsksPlan;
    forall k: nat, id | k < |plans| && plans[k].ranges != []
      ensures AsksPlan(ordered, k, id) <==> StillAsked(plans[k], k, sel, nodes, id)
    {
      AskedIds(ordered, slots, fps, plans, sel, nodes, texts, k, id);
    }
  }

  /**
   When prioritising drops an id of a plan: no excerpt put forward carries it, and of every range that
   does, something was put forward and so was every declared line of the id.
   */
  lemma DroppedIds(ordered: seq<Admission>, slots: seq<Slot>, fps: seq<FilePlan>, plans: seq<SourcePlan>,
                   sel: Selection, nodes: Nodes, texts: Texts, k: nat, id: NodeId)
    requires FilePlansOk(fps, plans, sel, nodes, texts) && Prioritized(ordered, slots, fps, sel.globalOrder)
    requires PlansOk(plans, texts) && NodesOk(nodes) && k < |plans| && plans[k].ranges != []
    ensures var puts := PutsFor(k, plans[k], sel, nodes);
            !AsksPlan(ordered, k, id) <==>
            && !Forwarded(puts, id)
            && forall i :: 0 <= i < |plans[k].ranges| && id in plans[k].ranges[i].nodeIds ==>
                 Dropped(id, plans[k].ranges[i], CutBy(puts, i), nodes)
  {
    AskedIds(ordered, slots, fps, plans, sel, nodes, texts, k, id);
    hide FilePlansOk, Prioritized, PutsFor, Forwarded, AsksPlan, NodesOk, CutBy, RunStands, Dropped;
    var puts, ranges := PutsFor(k, plans[k], sel, nodes), plans[k].ranges;
    forall i: nat | i < |ranges|
      ensures id in ranges[i].nodeIds ==> (RunStands(id, ranges[i], CutBy(puts, i), nodes) <==> !Dropped(id, ranges[i], CutBy(puts, i), nodes))
      ensures id !in ranges[i].nodeIds ==> !RunStands(id, ranges[i], CutBy(puts, i), nodes)
    {
      RangeDrops(id, ranges[i], CutBy(puts, i), plans[k].file, nodes, texts, plans, k, i);
    }
  }

  /** Something of the range was put forward, and every declared line of the id in it. */
  ghost predicate Dropped(id: NodeId, r: SourceRange, taken: iset<int>, nodes: Nodes) {
    && (exists l :: Within(r, l) && l in taken)
    && (forall l :: Within(r, l) && Meets(id, l, l, nodes) ==> l in taken)
  }

  lemma RangeDrops(id: NodeId, r: SourceRange, taken: iset<int>, file: string, nodes: Nodes, texts: Texts,
                   plans: seq<SourcePlan>, k: nat, i: nat)
    requires PlansOk(plans, texts) && NodesOk(nodes) && k < |plans| && i < |plans[k].ranges| && r == plans[k].ranges[i]
    ensures id in r.nodeIds ==> (RunStands(id, r, taken, nodes) <==> !Dropped(id, r, taken, nodes))
    ensures id !in r.nodeIds ==> !RunStands(id, r, taken, nodes)
  {
    assert Shows(plans[k].ranges[i], texts[plans[k].file]);
    if id in r.nodeIds {
      DropsWhen(id, r, taken, nodes);
    }
  }

  /** When planned ranges have a line of every id they carry, so do the merged requests made from them. */
  lemma RequestsMeet(requests: seq<Entry>, ordered: seq<Admission>, slots: seq<Slot>, fps: seq<FilePlan>,
                     plans: seq<SourcePlan>, sel: Selection, nodes: Nodes, texts: Texts)
    requires FilePlansOk(fps, plans, sel, nodes, texts) && Prioritized(ordered, slots, fps, sel.globalOrder)
    requires Merged(requests, FlatOf(ordered), plans) && NodesOk(nodes)
    requires forall k :: 0 <= k < |plans| ==> IdsMeet(plans[k].ranges, nodes)
    ensures AsksWhatItMeets(requests, nodes)
  {
    forall a, r | a in ordered && r in a.ranges
      ensures IdsMeet([r], nodes)
    {
      AdmissionMeets(a, r, ordered, slots, fps, plans, sel, nodes, texts);
    }
    FlatListed(ordered);
    var flat := FlatOf(ordered);
    forall k, id | 0 <= k < |requests| && id in requests[k].range.nodeIds
      ensures Meets(id, requests[k].range.start, requests[k].range.end, nodes)
    {
      MadeFrom(id, requests, k, flat, plans);
      var f :| f in flat && Belongs(f, requests[k], plans) && id in f.range.nodeIds;
      assert f.adm in ordered && f.range in f.adm.ranges;
      assert id in [f.range][0].nodeIds;
    }
  }

  lemma AdmissionMeets(a: Admission, r: SourceRange, ordered: seq<Admission>, slots: seq<Slot>, fps: seq<FilePlan>,
                       plans: seq<SourcePlan>, sel: Selection, nodes: Nodes, texts: Texts)
    requires FilePlansOk(fps, plans, sel, nodes, texts) && Prioritized(ordered, slots, fps, sel.globalOrder)
    requires forall k :: 0 <= k < |plans| ==> IdsMeet(plans[k].ranges, nodes)
    requires a in ordered && r in a.ranges
    ensures IdsMeet([r], nodes)
  {
    hide ReservedFirst, RestInStages, PhaseSorted, Conserves, AnswersReserved, IdsBy, PlannedBy, Meets, LanesMeet, IdsMeet, PutsFor;
    var j :| 0 <= j < |ordered| && ordered[j] == a;
    assert FilePlanOk(fps[slots[j].fp], plans, sel, nodes, texts);
    SlotMeets(slots[j], fps, r, nodes);
  }

  lemma SlotMeets(s: Slot, fps: seq<FilePlan>, r: SourceRange, nodes: Nodes)
    requires Valid(s, fps) && LanesMeet(fps[s.fp], nodes) && r in AdmissionOf(s, fps).ranges
    ensures IdsMeet([r], nodes)
  {
    hide Meets;
    match s {
      case AnswerSlot(f, i) => assert r == fps[f].answers[i];
      case DirectSlot(f, i) => assert r == fps[f].direct[i];
      case AnchorSlot(f, i) => assert r == fps[f].anchors[i];
      case OptionalSlot(f) => var i :| 0 <= i < |fps[f].optional| && fps[f].optional[i] == r;
    }
  }
}
