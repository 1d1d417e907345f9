/**
 Which node ids a file plan asks for: the excerpts put forward for the selected declarations, and
 what is left of the ranges beside them (`prioritize_source_admissions`, src/graph/agent.rs).
 */
module PutForward {
  import opened Prelude
  import opened SourceRanges
  import opened LaneOrder
  import opened Admissions
  import opened RangeCuts
  import opened Crediting
  import opened FilePlans

  /** An excerpt put forward into a lane, cut from one of the file's ranges. */
  datatype Put = Put(range: nat, excerpt: SourceRange, lane: Lane)

  /** The excerpts put into one lane, in the order they were put forward. */
  ghost function ExcerptsIn(puts: seq<Put>, lane: Lane): seq<SourceRange> {
    if puts == [] then []
    else
      var last := puts[|puts| - 1];
      ExcerptsIn(puts[..|puts| - 1], lane) + if last.lane == lane then [last.excerpt] else []
  }

  /** Each lane lists the excerpts put there: in primary order, each span once. */
  ghost predicate LanesBy(fp: FilePlan, puts: seq<Put>) {
    && Lists(fp.anchors, ExcerptsIn(puts, Anchors))
    && Lists(fp.answers, ExcerptsIn(puts, Answers))
    && Lists(fp.direct, ExcerptsIn(puts, Direct))
  }

  ghost function FlowIds(sel: Selection, file: string, nodes: Nodes): set<NodeId> {
    set i | 0 <= i < |sel.primaryOrder| && ChosenAsFlow(sel, file, nodes, i) :: sel.primaryOrder[i]
  }

  /** Selected declarations answered whole: the reserved ones that can be, and the first stand-in. */
  ghost function DirectIds(selected: seq<NodeId>, sel: Selection, asFlow: set<NodeId>, ranges: seq<SourceRange>, nodes: Nodes): set<NodeId> {
    (set id | id in selected && id in sel.reservedPrimary && Completes(id, ranges, nodes))
    + set k | 0 <= k < |selected| && FirstFallback(selected, k, sel, asFlow, ranges, nodes) :: selected[k]
  }

  /**
   The lane of a declaration: reserved ones answer; one shown whole is a direct answer, save that the
   strongest file answers with its stand-in; any other is an anchor.
   */
  ghost function LaneFor(index: nat, reserved: bool, flowWhole: bool, directWhole: bool): Lane {
    if reserved then Answers
    else if flowWhole then Direct
    else if directWhole then (if index == 0 then Answers else Direct)
    else Anchors
  }

  /** What is put forward for a declaration: all of it, or the range looked up exactly, or its header. */
  ghost function PutOf(index: nat, id: NodeId, isFlow: bool, isDirect: bool, sel: Selection,
                       ranges: seq<SourceRange>, nodes: Nodes): Put
    requires Carried(id, ranges, nodes)
  {
    var best := BestDeclarationRangeIndex(ranges, nodes[id]).value;
    var range, whole := ranges[best], CompleteDeclarationRange(ranges[best], nodes[id]);
    var exact := id in sel.exactOrder;
    var flowWhole, directWhole := whole.Some? && isFlow && !exact, whole.Some? && isDirect;
    Put(best, if flowWhole || directWhole then whole.value
              else if exact then range else HeaderOr(range, Some(nodes[id])),
        LaneFor(index, id in sel.reservedPrimary, flowWhole, directWhole))
  }

  /** One excerpt for each selected declaration that a range carries. */
  ghost function PutsOf(index: nat, selected: seq<NodeId>, asFlow: set<NodeId>, direct: set<NodeId>, sel: Selection,
                        ranges: seq<SourceRange>, nodes: Nodes): seq<Put>
  {
    if selected == [] then []
    else
      var front, id := selected[..|selected| - 1], selected[|selected| - 1];
      PutsOf(index, front, asFlow, direct, sel, ranges, nodes)
      + if Carried(id, ranges, nodes) then [PutOf(index, id, id in asFlow, id in direct, sel, ranges, nodes)] else []
  }

  /** A range carries the declaration, and its excerpt goes into this lane. */
  ghost predicate GoesInto(lane: Lane, index: nat, id: NodeId, asFlow: set<NodeId>, direct: set<NodeId>, sel: Selection,
                           ranges: seq<SourceRange>, nodes: Nodes)
  {
    Carried(id, ranges, nodes) && PutOf(index, id, id in asFlow, id in direct, sel, ranges, nodes).lane == lane
  }

  /** The first excerpt put into a lane is that of the first declaration that goes there. */
  lemma {:induction false} FirstPutIsStrongest(lane: Lane, index: nat, selected: seq<NodeId>, k: nat, asFlow: set<NodeId>,
                                               direct: set<NodeId>, sel: Selection, ranges: seq<SourceRange>, nodes: Nodes)
    requires k < |selected| && GoesInto(lane, index, selected[k], asFlow, direct, sel, ranges, nodes)
    requires forall j :: 0 <= j < k ==> !GoesInto(lane, index, selected[j], asFlow, direct, sel, ranges, nodes)
    ensures var put := PutOf(index, selected[k], selected[k] in asFlow, selected[k] in direct, sel, ranges, nodes);
            [put.excerpt] <= ExcerptsIn(PutsOf(index, selected, asFlow, direct, sel, ranges, nodes), lane)
  {
    var n := |selected| - 1;
    var front, id := selected[..n], selected[n];
    LaneSnoc(lane, index, front, id, asFlow, direct, sel, ranges, nodes);
    assert selected == front + [id];
    hide GoesInto, PutOf, PutsOf, ExcerptsIn;
    if k < n {
      FirstPutIsStrongest(lane, index, front, k, asFlow, direct, sel, ranges, nodes);
    } else {
      NothingPutInto(lane, index, front, asFlow, direct, sel, ranges, nodes);
    }
  }

  /** A lane gains the excerpt of a further declaration iff it goes there. */
  lemma LaneSnoc(lane: Lane, index: nat, front: seq<NodeId>, id: NodeId, asFlow: set<NodeId>, direct: set<NodeId>,
                 sel: Selection, ranges: seq<SourceRange>, nodes: Nodes)
    ensures var before := ExcerptsIn(PutsOf(index, front, asFlow, direct, sel, ranges, nodes), lane);
            ExcerptsIn(PutsOf(index, front + [id], asFlow, direct, sel, ranges, nodes), lane) ==
            if GoesInto(lane, index, id, asFlow, direct, sel, ranges, nodes)
            then before + [PutOf(index, id, id in asFlow, id in direct, sel, ranges, nodes).excerpt] else before
  {
    hide PutOf, Carried;
    var puts := PutsOf(index, front, asFlow, direct, sel, ranges, nodes);
    assert (front + [id])[..|front|] == front;
    if Carried(id, ranges, nodes) {
      ExcerptsSnoc(puts, PutOf(index, id, id in asFlow, id in direct, sel, ranges, nodes), lane);
    } else {
      assert puts + [] == puts;
    }
  }

  lemma {:induction false} NothingPutInto(lane: Lane, index: nat, selected: seq<NodeId>, asFlow: set<NodeId>, direct: set<NodeId>,
                                          sel: Selection, ranges: seq<SourceRange>, nodes: Nodes)
    requires forall j :: 0 <= j < |selected| ==> !GoesInto(lane, index, selected[j], asFlow, direct, sel, ranges, nodes)
    ensures ExcerptsIn(PutsOf(index, selected, asFlow, direct, sel, ranges, nodes), lane) == []
  {
    if selected != [] {
      var n := |selected| - 1;
      LaneSnoc(lane, index, selected[..n], selected[n], asFlow, direct, sel, ranges, nodes);
      assert selected == selected[..n] + [selected[n]];
      assert !GoesInto(lane, index, selected[n], asFlow, direct, sel, ranges, nodes);
      NothingPutInto(lane, index, selected[..n], asFlow, direct, sel, ranges, nodes);
    }
  }

  /** A file without any such declaration puts an excerpt of its first range forward. */
  ghost function FallbackPut(index: nat, ranges: seq<SourceRange>, nodes: Nodes): Put
    requires ranges != []
  {
    var node := FirstKnown(ranges[0].nodeIds, nodes);
    var whole := if index == 0 && node.Some? then CompleteDeclarationRange(ranges[0], node.value) else None;
    Put(0, if whole.Some? then whole.value else HeaderOr(ranges[0], node), if whole.Some? then Direct else Anchors)
  }

  ghost function PutsOfRanges(index: nat, plan: SourcePlan, sel: Selection, nodes: Nodes): seq<Put>
    requires plan.ranges != []
  {
    var selected, asFlow := ChosenIds(sel, plan.file, nodes, |sel.primaryOrder|), FlowIds(sel, plan.file, nodes);
    var direct := DirectIds(selected, sel, asFlow, plan.ranges, nodes);
    var puts := PutsOf(index, selected, asFlow, direct, sel, plan.ranges, nodes);
    if puts == [] then [FallbackPut(index, plan.ranges, nodes)] else puts
  }

  /** A file planned whole puts all of itself forward, or the header of its strongest declaration. */
  ghost function PutsOfWhole(index: nat, plan: SourcePlan, sel: Selection, nodes: Nodes): seq<Put>
    requires plan.ranges != []
  {
    var r := plan.ranges[0];
    if index == 0 || AnyIn(r.nodeIds, sel.reservedPrimary) then [Put(0, r, Answers)]
    else if AnyIn(r.nodeIds, sel.flowAnswerIds) then [Put(0, r, Direct)]
    else [Put(0, HeaderOr(r, NodeOf(Compact(r, plan.file, sel.primaryOrder, nodes), nodes)), Anchors)]
  }

  predicate PlannedWhole(plan: SourcePlan) {
    && |plan.ranges| == 1 && plan.ranges[0].reason == WholeFile
    && plan.ranges[0].end - plan.ranges[0].start < WHOLE_FILE_LINES
  }

  ghost function PutsFor(index: nat, plan: SourcePlan, sel: Selection, nodes: Nodes): seq<Put>
    requires plan.ranges != []
  {
    if PlannedWhole(plan) then PutsOfWhole(index, plan, sel, nodes) else PutsOfRanges(index, plan, sel, nodes)
  }

  // ----- The ids asked for -----

  ghost predicate HasId(rs: seq<SourceRange>, id: NodeId) { exists i :: 0 <= i < |rs| && id in rs[i].nodeIds }

  ghost predicate AsksId(fp: FilePlan, id: NodeId) {
    HasId(fp.anchors, id) || HasId(fp.answers, id) || HasId(fp.direct, id) || HasId(fp.optional, id)
  }

  /** An excerpt put forward carries the id. */
  ghost predicate Forwarded(puts: seq<Put>, id: NodeId) { exists q :: q in puts && id in q.excerpt.nodeIds }

  /** The lines of range `i` that the excerpts put forward take. */
  ghost function CutBy(puts: seq<Put>, i: nat): iset<int> { iset l | Takes(puts, i, l) }

  ghost predicate Takes(puts: seq<Put>, i: nat, l: int) {
    exists q :: q in puts && q.range == i && Within(q.excerpt, l)
  }

  /** A run of lines that is left of range `i` stands for the id. */
  ghost predicate RunStands(id: NodeId, r: SourceRange, taken: iset<int>, nodes: Nodes) {
    exists start, end :: Gap(r, taken, start, end) && StandsFor(id, r, start, end, nodes)
  }

  ghost predicate LeftFor(id: NodeId, ranges: seq<SourceRange>, puts: seq<Put>, nodes: Nodes) {
    exists i: nat :: i < |ranges| && RunStands(id, ranges[i], CutBy(puts, i), nodes)
  }

  /** The file plan asks for exactly the ids put forward and those that what is left stands for. */
  ghost predicate IdsBy(fp: FilePlan, puts: seq<Put>, ranges: seq<SourceRange>, nodes: Nodes) {
    forall id :: AsksId(fp, id) <==> Forwarded(puts, id) || LeftFor(id, ranges, puts, nodes)
  }

  /** What the excerpts put forward take of each range. */
  ghost function CutsOf(puts: seq<Put>, n: nat): seq<iset<int>> { seq(n, i requires 0 <= i < n => CutBy(puts, i)) }

  /** Range by range, in order, what is left beside the cuts. */
  ghost predicate LeftInOrder(optional: seq<SourceRange>, ranges: seq<SourceRange>, cuts: seq<iset<int>>, n: nat, nodes: Nodes)
    requires n <= |ranges| && |cuts| == |ranges|
    decreases n, 1
  {
    if n == 0 then optional == []
    else exists m: nat :: LeftFrom(optional, m, ranges, cuts, n, nodes)
  }

  ghost predicate LeftFrom(optional: seq<SourceRange>, m: nat, ranges: seq<SourceRange>, cuts: seq<iset<int>>, n: nat, nodes: Nodes)
    requires 0 < n <= |ranges| && |cuts| == |ranges|
    decreases n, 0
  {
    && m <= |optional|
    && LeftInOrder(optional[..m], ranges, cuts, n - 1, nodes)
    && Left(optional[m..], ranges[n - 1], cuts[n - 1], nodes)
  }

  lemma LeftNext(optional: seq<SourceRange>, pieces: seq<SourceRange>, ranges: seq<SourceRange>, cuts: seq<iset<int>>,
                 n: nat, nodes: Nodes)
    requires n < |ranges| && |cuts| == |ranges| && LeftInOrder(optional, ranges, cuts, n, nodes)
    requires Left(pieces, ranges[n], cuts[n], nodes)
    ensures LeftInOrder(optional + pieces, ranges, cuts, n + 1, nodes)
  {
    hide Left;
    assert (optional + pieces)[..|optional|] == optional && (optional + pieces)[|optional|..] == pieces;
    assert LeftFrom(optional + pieces, |optional|, ranges, cuts, n + 1, nodes);
  }

  /** The optional excerpts are what the excerpts put forward leave of the ranges, in their order. */
  ghost predicate OptionalBy(fp: FilePlan, puts: seq<Put>, ranges: seq<SourceRange>, nodes: Nodes) {
    LeftInOrder(fp.optional, ranges, CutsOf(puts, |ranges|), |ranges|, nodes)
  }

  /** The lanes and what is left beside them, as the excerpts put forward decide. */
  ghost predicate PlannedBy(fp: FilePlan, puts: seq<Put>, ranges: seq<SourceRange>, nodes: Nodes) {
    LanesBy(fp, puts) && OptionalBy(fp, puts, ranges, nodes)
  }

  /** Every id of the excerpts has a declared line in its excerpt. */
  ghost predicate IdsMeet(rs: seq<SourceRange>, nodes: Nodes) {
    forall i, id :: 0 <= i < |rs| && id in rs[i].nodeIds ==> Meets(id, rs[i].start, rs[i].end, nodes)
  }

  ghost predicate LanesMeet(fp: FilePlan, nodes: Nodes) {
    IdsMeet(fp.anchors, nodes) && IdsMeet(fp.answers, nodes) && IdsMeet(fp.direct, nodes) && IdsMeet(fp.optional, nodes)
  }

  /** When a range drops an id: something of it was put forward, and every declared line of the id in it. */
  lemma DropsWhen(id: NodeId, r: SourceRange, taken: iset<int>, nodes: Nodes)
    requires r.start <= r.end && id in r.nodeIds && (id in nodes ==> nodes[id].start <= nodes[id].end)
    ensures !RunStands(id, r, taken, nodes) <==>
            && (exists l :: Within(r, l) && l in taken)
            && (forall l :: Within(r, l) && Meets(id, l, l, nodes) ==> l in taken)
  {
    if forall l :: Within(r, l) ==> l !in taken {
      assert Gap(r, taken, r.start, r.end);
    }
    forall l | Within(r, l) && Meets(id, l, l, nodes) && l !in taken
      ensures RunStands(id, r, taken, nodes)
    {
      var start, end := GapAround(r, taken, l);
    }
    if RunStands(id, r, taken, nodes) {
      var start, end :| Gap(r, taken, start, end) && StandsFor(id, r, start, end, nodes);
      if !(start == r.start && end == r.end) {
        var l := if id in nodes then Max(start, nodes[id].start) else start;
        assert Within(r, l) && Meets(id, l, l, nodes) && l !in taken;
      }
    }
  }

  // ----- Placing -----

  lemma HasIdAppend(a: seq<SourceRange>, b: seq<SourceRange>, id: NodeId)
    ensures HasId(a + b, id) <==> HasId(a, id) || HasId(b, id)
  {
    if HasId(a, id) {
      var i :| 0 <= i < |a| && id in a[i].nodeIds;
      assert id in (a + b)[i].nodeIds;
    }
    if HasId(b, id) {
      var i :| 0 <= i < |b| && id in b[i].nodeIds;
      assert id in (a + b)[|a| + i].nodeIds;
    }
  }

  lemma HasIdOne(r: SourceRange, id: NodeId)
    ensures HasId([r], id) <==> id in r.nodeIds
  {
    assert id in r.nodeIds ==> id in [r][0].nodeIds;
  }

  lemma HasIdCredits(rs: seq<SourceRange>, id: NodeId)
    ensures HasId(rs, id) <==> exists start, end :: Credits(rs, start, end, id)
  {
    if HasId(rs, id) {
      var i :| 0 <= i < |rs| && id in rs[i].nodeIds;
      assert CreditedAs(rs[i], rs[i].start, rs[i].end, id);
      assert Credits(rs, rs[i].start, rs[i].end, id);
    }
  }

  lemma GainsIds(rs: seq<SourceRange>, before: seq<SourceRange>, added: seq<SourceRange>, id: NodeId)
    requires Gains(rs, before, added)
    ensures HasId(rs, id) <==> HasId(before, id) || HasId(added, id)
  {
    HasIdCredits(rs, id);
    HasIdCredits(before, id);
    HasIdCredits(added, id);
    hide Credits, HasId;
    if start, end :| Credits(before, start, end, id) {
      assert Credits(rs, start, end, id);
    }
    if start, end :| Credits(added, start, end, id) {
      assert Credits(rs, start, end, id);
    }
  }

  lemma IdsMeetCredits(rs: seq<SourceRange>, nodes: Nodes)
    ensures IdsMeet(rs, nodes) <==> forall start, end, id :: Credits(rs, start, end, id) ==> Meets(id, start, end, nodes)
  {
    forall i, id | 0 <= i < |rs| && id in rs[i].nodeIds
      ensures Credits(rs, rs[i].start, rs[i].end, id)
    {
      assert CreditedAs(rs[i], rs[i].start, rs[i].end, id);
    }
  }

  lemma GainsMeet(rs: seq<SourceRange>, before: seq<SourceRange>, added: seq<SourceRange>, nodes: Nodes)
    requires Gains(rs, before, added) && IdsMeet(before, nodes) && IdsMeet(added, nodes)
    ensures IdsMeet(rs, nodes)
  {
    IdsMeetCredits(rs, nodes);
    IdsMeetCredits(before, nodes);
    IdsMeetCredits(added, nodes);
    hide Credits, IdsMeet, Meets;
  }

  ghost predicate PlacedHas(p: Placement, id: NodeId) { HasId(p.anchors, id) || HasId(p.answers, id) || HasId(p.direct, id) }

  ghost predicate PlacedMeet(p: Placement, nodes: Nodes) {
    IdsMeet(p.anchors, nodes) && IdsMeet(p.answers, nodes) && IdsMeet(p.direct, nodes)
  }

  ghost predicate CutsLine(p: Placement, i: nat, l: int) { Cut(CutsAt(p, i), l) }

  /** What a placement holds of the excerpts put forward. */
  ghost predicate Holds(p: Placement, puts: seq<Put>) { HoldsPuts(p, puts) && LanesHold(p, puts) }

  ghost predicate HoldsPuts(p: Placement, puts: seq<Put>) {
    && (puts == [] <==> p.cuts == map[]) && (puts == [] ==> p == Placement([], [], [], map[]))
    && (forall id :: PlacedHas(p, id) <==> Forwarded(puts, id))
    && (forall i, l :: 0 <= i ==> (CutsLine(p, i, l) <==> Takes(puts, i, l)))
  }

  ghost predicate LanesHold(p: Placement, puts: seq<Put>) {
    && Lists(p.anchors, ExcerptsIn(puts, Anchors))
    && Lists(p.answers, ExcerptsIn(puts, Answers))
    && Lists(p.direct, ExcerptsIn(puts, Direct))
  }

  lemma ExcerptsSnoc(puts: seq<Put>, put: Put, lane: Lane)
    ensures ExcerptsIn(puts + [put], lane) == ExcerptsIn(puts, lane) + if put.lane == lane then [put.excerpt] else []
  {
    assert (puts + [put])[..|puts|] == puts;
  }

  /** A lane that gains one excerpt, put there once or twice, or none. */
  lemma LaneGains(rs: seq<SourceRange>, before: seq<SourceRange>, added: seq<SourceRange>, puts: seq<Put>, put: Put, lane: Lane)
    requires Gains(rs, before, added) && Lists(before, ExcerptsIn(puts, lane))
    requires if put.lane == lane then added == [put.excerpt] || added == [put.excerpt, put.excerpt] else added == []
    ensures Lists(rs, ExcerptsIn(puts + [put], lane))
  {
    var all, more := ExcerptsIn(puts, lane), ExcerptsIn(puts + [put], lane);
    ExcerptsSnoc(puts, put, lane);
    hide ExcerptsIn, Lists;
    assert more == if put.lane == lane then all + [put.excerpt] else all + [];
    ListsMore(rs, before, added, all, put.excerpt);
  }

  lemma ListsMore(rs: seq<SourceRange>, before: seq<SourceRange>, added: seq<SourceRange>, all: seq<SourceRange>, r: SourceRange)
    requires Outlines(rs) == Joined(Outlines(before), added) && Lists(before, all)
    ensures added == [] ==> Lists(rs, all + [])
    ensures added == [r] || added == [r, r] ==> Lists(rs, all + [r])
  {
    hide Outlines, HasSpan;
    var front := Joined([], all);
    assert all + [] == all;
    JoinedTwice(front, r);
    JoinedConcat([], all, [r]);
  }

  lemma LaneStays(rs: seq<SourceRange>, puts: seq<Put>, put: Put, lane: Lane)
    requires Lists(rs, ExcerptsIn(puts, lane)) && put.lane != lane
    ensures Lists(rs, ExcerptsIn(puts + [put], lane))
  {
    ExcerptsSnoc(puts, put, lane);
    assert ExcerptsIn(puts + [put], lane) == ExcerptsIn(puts, lane);
  }

  /** Each lane lists one more excerpt, or stays. */
  lemma LanesGain(q: Placement, p: Placement, puts: seq<Put>, put: Put, index: nat, reserved: bool, anchor: SourceRange,
                  completeAnswer: Option<SourceRange>, completeDirect: Option<SourceRange>)
    requires LanesHold(p, puts) && ExcerptsPlaced(q, p, index, put.range, reserved, anchor, completeAnswer, completeDirect)
    requires completeAnswer.Some? ==> completeAnswer.value == put.excerpt
    requires completeDirect.Some? ==> completeDirect.value == put.excerpt
    requires completeAnswer.None? && completeDirect.None? ==> anchor == put.excerpt
    requires put.lane == LaneFor(index, reserved, completeAnswer.Some?, completeDirect.Some?)
    requires reserved || completeAnswer.None? || completeDirect.None?
    ensures LanesHold(q, puts + [put])
  {
    hide Gains, Lists, ExcerptsIn;
    var whole := AsSeq(completeAnswer) + AsSeq(completeDirect);
    if reserved {
      LaneGains(q.answers, p.answers, if whole == [] then [anchor] else whole, puts, put, Answers);
      LaneStays(q.anchors, puts, put, Anchors);
      LaneStays(q.direct, puts, put, Direct);
    } else if whole == [] {
      LaneGains(q.anchors, p.anchors, [anchor], puts, put, Anchors);
      LaneStays(q.answers, puts, put, Answers);
      LaneStays(q.direct, puts, put, Direct);
    } else {
      LaneGains(q.direct, p.direct, if index == 0 then AsSeq(completeAnswer) else whole, puts, put, Direct);
      LaneGains(q.answers, p.answers, if index == 0 then AsSeq(completeDirect) else [], puts, put, Answers);
      LaneStays(q.anchors, puts, put, Anchors);
    }
  }

  lemma ForwardedSnoc(puts: seq<Put>, q: Put)
    ensures forall id :: Forwarded(puts + [q], id) <==> Forwarded(puts, id) || id in q.excerpt.nodeIds
    ensures forall i, l :: 0 <= i ==> (Takes(puts + [q], i, l) <==> Takes(puts, i, l) || (q.range == i && Within(q.excerpt, l)))
  {
    assert q in puts + [q] && forall x :: x in puts ==> x in puts + [q];
  }

  /** The excerpt is in its lane, the lanes gain its ids, and its lines are cut from its range. */
  lemma PlacedHolds(q: Placement, p: Placement, puts: seq<Put>, put: Put, index: nat, reserved: bool, anchor: SourceRange,
                    completeAnswer: Option<SourceRange>, completeDirect: Option<SourceRange>)
    requires Holds(p, puts) && ExcerptsPlaced(q, p, index, put.range, reserved, anchor, completeAnswer, completeDirect)
    requires completeAnswer.Some? ==> completeAnswer.value == put.excerpt
    requires completeDirect.Some? ==> completeDirect.value == put.excerpt
    requires completeAnswer.None? && completeDirect.None? ==> anchor == put.excerpt
    requires put.lane == LaneFor(index, reserved, completeAnswer.Some?, completeDirect.Some?)
    requires reserved || completeAnswer.None? || completeDirect.None?
    ensures Holds(q, puts + [put])
  {
    hide HoldsPuts, LanesHold, ExcerptsPlaced;
    LanesGain(q, p, puts, put, index, reserved, anchor, completeAnswer, completeDirect);
    PlacedHoldsPuts(q, p, puts, put, index, reserved, anchor, completeAnswer, completeDirect);
  }

  lemma PlacedHoldsPuts(q: Placement, p: Placement, puts: seq<Put>, put: Put, index: nat, reserved: bool, anchor: SourceRange,
                        completeAnswer: Option<SourceRange>, completeDirect: Option<SourceRange>)
    requires HoldsPuts(p, puts) && ExcerptsPlaced(q, p, index, put.range, reserved, anchor, completeAnswer, completeDirect)
    requires completeAnswer.Some? ==> completeAnswer.value == put.excerpt
    requires completeDirect.Some? ==> completeDirect.value == put.excerpt
    requires completeAnswer.None? && completeDirect.None? ==> anchor == put.excerpt
    ensures HoldsPuts(q, puts + [put])
  {
    var whole := AsSeq(completeAnswer) + AsSeq(completeDirect);
    assert (whole + [anchor])[0] == put.excerpt;
    ForwardedSnoc(puts, put);
    forall id
      ensures PlacedHas(q, id) <==> PlacedHas(p, id) || id in put.excerpt.nodeIds
    {
      PlacedGains(q, p, index, put.range, reserved, anchor, completeAnswer, completeDirect, put.excerpt, id);
    }
    hide ExcerptsPlaced, PlacedHas, Forwarded, Takes;
    assert q.cuts == CutAt(p, put.range, put.excerpt).cuts by {
      CutsPlaced(q, p, index, put.range, reserved, anchor, completeAnswer, completeDirect);
    }
    CutsGain(q, p, put.range, put.excerpt);
    hide CutsLine;
    assert put.range in q.cuts && puts + [put] != [];
  }

  lemma CutsPlaced(q: Placement, p: Placement, index: nat, ri: nat, reserved: bool, anchor: SourceRange,
                   completeAnswer: Option<SourceRange>, completeDirect: Option<SourceRange>)
    requires ExcerptsPlaced(q, p, index, ri, reserved, anchor, completeAnswer, completeDirect)
    ensures q.cuts == CutAt(p, ri, (AsSeq(completeAnswer) + AsSeq(completeDirect) + [anchor])[0]).cuts
  {
    hide Gains;
  }

  lemma CutsGain(q: Placement, p: Placement, ri: nat, excerpt: SourceRange)
    requires q.cuts == CutAt(p, ri, excerpt).cuts
    ensures forall i, l :: 0 <= i ==> (CutsLine(q, i, l) <==> CutsLine(p, i, l) || (ri == i && Within(excerpt, l)))
  {
    forall i, l | 0 <= i
      ensures CutsLine(q, i, l) <==> CutsLine(p, i, l) || (ri == i && Within(excerpt, l))
    {
      CutSnoc(CutsAt(p, ri), Interval(excerpt.start, excerpt.end), l);
    }
  }

  lemma PlacedGains(q: Placement, p: Placement, index: nat, ri: nat, reserved: bool, anchor: SourceRange,
                    completeAnswer: Option<SourceRange>, completeDirect: Option<SourceRange>, excerpt: SourceRange, id: NodeId)
    requires ExcerptsPlaced(q, p, index, ri, reserved, anchor, completeAnswer, completeDirect)
    requires completeAnswer.Some? ==> completeAnswer.value == excerpt
    requires completeDirect.Some? ==> completeDirect.value == excerpt
    requires completeAnswer.None? && completeDirect.None? ==> anchor == excerpt
    ensures PlacedHas(q, id) <==> PlacedHas(p, id) || id in excerpt.nodeIds
  {
    hide Gains, HasId;
    var whole := AsSeq(completeAnswer) + AsSeq(completeDirect);
    HasIdAppend(AsSeq(completeAnswer), AsSeq(completeDirect), id);
    HasIdAsSeq(completeAnswer, id);
    HasIdAsSeq(completeDirect, id);
    HasIdOne(anchor, id);
    HasIdAsSeq(None, id);
    if reserved {
      GainsIds(q.answers, p.answers, if whole == [] then [anchor] else whole, id);
    } else if whole == [] {
      GainsIds(q.anchors, p.anchors, [anchor], id);
    } else {
      GainsIds(q.direct, p.direct, if index == 0 then AsSeq(completeAnswer) else whole, id);
      GainsIds(q.answers, p.answers, if index == 0 then AsSeq(completeDirect) else [], id);
    }
  }

  lemma HasIdAsSeq(r: Option<SourceRange>, id: NodeId)
    ensures HasId(AsSeq(r), id) <==> r.Some? && id in r.value.nodeIds
  {
    if r.Some? {
      HasIdOne(r.value, id);
    }
  }

  /** The lanes still meet their ids. */
  lemma PlacedMeets(q: Placement, p: Placement, index: nat, ri: nat, reserved: bool, anchor: SourceRange,
                    completeAnswer: Option<SourceRange>, completeDirect: Option<SourceRange>, nodes: Nodes)
    requires ExcerptsPlaced(q, p, index, ri, reserved, anchor, completeAnswer, completeDirect) && PlacedMeet(p, nodes)
    requires IdsMeet([anchor] + AsSeq(completeAnswer) + AsSeq(completeDirect), nodes)
    ensures PlacedMeet(q, nodes)
  {
    var whole := AsSeq(completeAnswer) + AsSeq(completeDirect);
    IdsMeetParts([anchor], AsSeq(completeAnswer), AsSeq(completeDirect), nodes);
    hide Gains, IdsMeet;
    if reserved {
      GainsMeet(q.answers, p.answers, if whole == [] then [anchor] else whole, nodes);
    } else if whole == [] {
      GainsMeet(q.anchors, p.anchors, [anchor], nodes);
    } else {
      GainsMeet(q.direct, p.direct, if index == 0 then AsSeq(completeAnswer) else whole, nodes);
      GainsMeet(q.answers, p.answers, if index == 0 then AsSeq(completeDirect) else [], nodes);
    }
  }

  lemma IdsMeetParts(a: seq<SourceRange>, b: seq<SourceRange>, c: seq<SourceRange>, nodes: Nodes)
    requires IdsMeet(a + b + c, nodes)
    ensures IdsMeet(a, nodes) && IdsMeet(b, nodes) && IdsMeet(c, nodes) && IdsMeet(b + c, nodes) && IdsMeet([], nodes)
  {
    var all := a + b + c;
    assert forall i :: 0 <= i < |a| ==> all[i] == a[i];
    assert forall i :: 0 <= i < |b| ==> all[|a| + i] == b[i];
    assert forall i :: 0 <= i < |c| ==> all[|a| + |b| + i] == c[i];
    assert forall i :: 0 <= i < |b + c| ==> all[|a| + i] == (b + c)[i];
  }

  /** Headers, whole declarations and ranges that meet their ids are excerpts that do. */
  lemma ExcerptMeets(r: SourceRange, node: Node, nodes: Nodes, file: seq<string>)
    requires Shows(r, file) && NodesOk(nodes) && node.id in nodes && nodes[node.id] == node
    ensures var a := DeclarationAnchor(r, node, SOURCE_DECLARATION_ANCHOR_LINES);
            a.Some? ==> IdsMeet([a.value], nodes)
    ensures var c := CompleteDeclarationRange(r, node); IdsMeet(AsSeq(c), nodes)
  {
    DeclarationAnchorIsHeader(r, node, SOURCE_DECLARATION_ANCHOR_LINES, file);
    CompleteDeclarationIsExact(r, node, file);
    var a := DeclarationAnchor(r, node, SOURCE_DECLARATION_ANCHOR_LINES);
    if a.Some? {
      assert Within(a.value, a.value.start);
    }
  }
}
