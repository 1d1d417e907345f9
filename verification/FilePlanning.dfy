/** The plan of each file: what is put forward and what remains (`prioritize_source_admissions`, src/graph/agent.rs). */
module FilePlanning {
  import opened Prelude
  import opened SourceRanges
  import opened LaneOrder
  import opened Admissions
  import opened RangeCuts
  import opened Crediting
  import opened FilePlans
  import opened PutForward

  /** A file short enough to be planned whole. */
  method PlanWholeFile(index: nat, plan: SourcePlan, sel: Selection, nodes: Nodes, ghost file: seq<string>)
    returns (fp: FilePlan)
    requires |plan.ranges| == 1 && Shows(plan.ranges[0], file)
    ensures fp.plan == index && Conserves(fp, plan.ranges, file)
    ensures var r := plan.ranges[0];
            var primary := index == 0 || AnyIn(r.nodeIds, sel.reservedPrimary);
            if primary then fp == FilePlan(index, [], [r], [], [])
            else if AnyIn(r.nodeIds, sel.flowAnswerIds) then fp == FilePlan(index, [], [], [r], [])
            else fp.answers == [] && fp.direct == []
                 && fp.anchors == [HeaderOr(r, NodeOf(Compact(r, plan.file, sel.primaryOrder, nodes), nodes))]
    ensures IdsBy(fp, PutsOfWhole(index, plan, sel, nodes), plan.ranges, nodes)
    ensures PlannedBy(fp, PutsOfWhole(index, plan, sel, nodes), plan.ranges, nodes)
    ensures NodesOk(nodes) && IdsMeet(plan.ranges, nodes) ==> LanesMeet(fp, nodes)
  {
    hide HeaderOr, Compact, IdsBy, LanesMeet, PlannedBy, IdsMeet, Left, DeclarationAnchor;
    var r := plan.ranges[0];
    assert plan.ranges == [r];
    var primary := index == 0 || AnyIn(r.nodeIds, sel.reservedPrimary);
    var direct := !primary && AnyIn(r.nodeIds, sel.flowAnswerIds);
    forall l { CoversOne(r, l); }
    if primary {
      fp := FilePlan(index, [], [r], [], []);
      WholeIds(fp, r, Answers, nodes);
      return;
    }
    if direct {
      fp := FilePlan(index, [], [], [r], []);
      WholeIds(fp, r, Direct, nodes);
      return;
    }
    var id := CompactId(r, plan.file, sel.primaryOrder, nodes);
    var header := HeaderOr(r, NodeOf(id, nodes));
    HeaderShows(r, NodeOf(id, nodes), file);
    hide Shows;
    if id.Some? && id.value in nodes {
      var compact := DeclarationAnchor(r, nodes[id.value], SOURCE_DECLARATION_ANCHOR_LINES);
      HeaderIs(r, id, nodes);
      if compact.Some? {
        var a := compact.value;
        var rest := SubtractIntervals(r, [Interval(a.start, a.end)], nodes, file);
        fp := FilePlan(index, [a], [], [], rest);
        BesideHeader(fp, r, a, nodes[id.value], nodes, file);
        return;
      }
    } else {
      HeaderIs(r, id, nodes);
    }
    fp := FilePlan(index, [r], [], [], []);
    WholeIds(fp, r, Anchors, nodes);
  }

  lemma HeaderIs(r: SourceRange, id: Option<NodeId>, nodes: Nodes)
    ensures HeaderOr(r, NodeOf(id, nodes)) ==
            if id.Some? && id.value in nodes && DeclarationAnchor(r, nodes[id.value], SOURCE_DECLARATION_ANCHOR_LINES).Some?
            then DeclarationAnchor(r, nodes[id.value], SOURCE_DECLARATION_ANCHOR_LINES).value else r
  {
    hide DeclarationAnchor;
  }

  /** A file plan of one excerpt asks for the ids of that excerpt. */
  lemma WholeIds(fp: FilePlan, r: SourceRange, lane: Lane, nodes: Nodes)
    requires fp == FilePlan(fp.plan, if lane == Anchors then [r] else [], if lane == Answers then [r] else [],
                            if lane == Direct then [r] else [], [])
    ensures IdsBy(fp, [Put(0, r, lane)], [r], nodes)
    ensures PlannedBy(fp, [Put(0, r, lane)], [r], nodes)
    ensures IdsMeet([r], nodes) ==> LanesMeet(fp, nodes)
  {
    var put := Put(0, r, lane);
    forall id
      ensures AsksId(fp, id) <==> Forwarded([put], id) || LeftFor(id, [r], [put], nodes)
    {
      HasIdOne(r, id);
      OnePut(put, id);
      if i: nat, start, end :| i < |[r]| && Gap([r][i], CutBy([put], i), start, end)
                               && StandsFor(id, [r][i], start, end, nodes) {
        assert Takes([put], 0, start);
      }
    }
    OneLane(put, fp);
    OnePut(put, "");
    forall l
      ensures l in CutBy([put], 0) <==> Within(r, l)
    {
      assert Takes([put], 0, l) <==> Within(r, l);
    }
    NothingLeft([put], r, nodes);
  }

  lemma NothingLeft(puts: seq<Put>, r: SourceRange, nodes: Nodes)
    requires forall l :: Within(r, l) ==> l in CutBy(puts, 0)
    ensures LeftInOrder([], [r], CutsOf(puts, 1), 1, nodes)
  {
    hide CutBy, Left, LeftInOrder;
    var none: seq<SourceRange> := [];
    NoneLeft(r, CutBy(puts, 0), nodes);
    NoneYet([r], CutsOf(puts, 1), nodes);
    LeftNext(none, none, [r], CutsOf(puts, 1), 0, nodes);
    assert none + none == none;
  }

  lemma NoneLeft(r: SourceRange, taken: iset<int>, nodes: Nodes)
    requires forall l :: Within(r, l) ==> l in taken
    ensures Left([], r, taken, nodes)
  {
  }

  lemma NoneYet(ranges: seq<SourceRange>, cuts: seq<iset<int>>, nodes: Nodes)
    requires |cuts| == |ranges|
    ensures LeftInOrder([], ranges, cuts, 0, nodes)
  {
  }

  /** A file plan of one excerpt lists it in its lane. */
  lemma OneLane(put: Put, fp: FilePlan)
    requires fp.anchors == (if put.lane == Anchors then [put.excerpt] else [])
    requires fp.answers == (if put.lane == Answers then [put.excerpt] else [])
    requires fp.direct == (if put.lane == Direct then [put.excerpt] else [])
    ensures LanesBy(fp, [put])
  {
    OneListed(put, Anchors);
    OneListed(put, Answers);
    OneListed(put, Direct);
    hide Lists, ExcerptsIn;
  }

  lemma OneListed(put: Put, lane: Lane)
    ensures Lists(if put.lane == lane then [put.excerpt] else [], ExcerptsIn([put], lane))
  {
    assert [] + [put] == [put];
    ExcerptsSnoc([], put, lane);
    JoinedOne([], put.excerpt);
    assert Outlines([put.excerpt]) == [Outline(put.excerpt)];
    var none: seq<SourceRange> := [];
    assert Outlines(none) == none && none + [put.excerpt] == [put.excerpt];
    assert ExcerptsIn([put], lane) == if put.lane == lane then [put.excerpt] else [];
  }

  lemma OnePut(put: Put, id: NodeId)
    ensures Forwarded([put], id) <==> id in put.excerpt.nodeIds
    ensures forall i, l :: 0 <= i ==> (Takes([put], i, l) <==> put.range == i && Within(put.excerpt, l))
  {
    assert put in [put];
  }

  /** What is left of one excerpt beside its header. */
  lemma BesideHeader(fp: FilePlan, r: SourceRange, a: SourceRange, node: Node, nodes: Nodes, file: seq<string>)
    requires Shows(r, file) && DeclarationAnchor(r, node, SOURCE_DECLARATION_ANCHOR_LINES) == Some(a)
    requires fp.anchors == [a] && fp.answers == [] && fp.direct == []
    requires AllShow(fp.optional, file) && Separated(fp.optional) && ArePieces(fp.optional, r, nodes)
    requires forall l :: Covers(fp.optional, l) <==> Within(r, l) && !Cut([Interval(a.start, a.end)], l)
    requires (forall l :: Within(r, l) ==> !Cut([Interval(a.start, a.end)], l)) ==> fp.optional == [r]
    ensures Conserves(fp, [r], file)
    ensures IdsBy(fp, [Put(0, a, Anchors)], [r], nodes)
    ensures PlannedBy(fp, [Put(0, a, Anchors)], [r], nodes)
    ensures NodesOk(nodes) && node.id in nodes && nodes[node.id] == node && IdsMeet([r], nodes) ==> LanesMeet(fp, nodes)
  {
    BesideHeaderLines(fp, r, a, node, file);
    OneLane(Put(0, a, Anchors), fp);
    hide DeclarationAnchor, Shows, IdsBy, LanesBy, OptionalBy, LanesMeet, Left, CutLines, Conserves;
    SubtractIsLeft(fp.optional, r, [Interval(a.start, a.end)], nodes, file);
    HeaderIds(fp, r, a, nodes);
    if NodesOk(nodes) && node.id in nodes && nodes[node.id] == node && IdsMeet([r], nodes) {
      BesideHeaderMeets(fp, r, a, node, nodes, file);
    }
  }

  lemma BesideHeaderMeets(fp: FilePlan, r: SourceRange, a: SourceRange, node: Node, nodes: Nodes, file: seq<string>)
    requires Shows(r, file) && DeclarationAnchor(r, node, SOURCE_DECLARATION_ANCHOR_LINES) == Some(a)
    requires fp.anchors == [a] && fp.answers == [] && fp.direct == []
    requires Left(fp.optional, r, CutLines([Interval(a.start, a.end)]), nodes)
    requires NodesOk(nodes) && node.id in nodes && nodes[node.id] == node && IdsMeet([r], nodes)
    ensures LanesMeet(fp, nodes)
  {
    ExcerptMeets(r, node, nodes, file);
    hide DeclarationAnchor, Shows, Left, CutLines, Meets;
    LeftMeets(fp.optional, r, CutLines([Interval(a.start, a.end)]), nodes);
  }

  lemma BesideHeaderLines(fp: FilePlan, r: SourceRange, a: SourceRange, node: Node, file: seq<string>)
    requires Shows(r, file) && DeclarationAnchor(r, node, SOURCE_DECLARATION_ANCHOR_LINES) == Some(a)
    requires fp.anchors == [a] && fp.answers == [] && fp.direct == [] && AllShow(fp.optional, file)
    requires forall l :: Covers(fp.optional, l) <==> Within(r, l) && !Cut([Interval(a.start, a.end)], l)
    ensures Conserves(fp, [r], file)
  {
    DeclarationAnchorIsHeader(r, node, SOURCE_DECLARATION_ANCHOR_LINES, file);
    hide DeclarationAnchor, Shows;
    forall l
      ensures Asks(fp, l) <==> Covers([r], l)
    {
      CutOneInterval(a.start, a.end, l);
      CoversOne(a, l);
      CoversOne(r, l);
    }
  }

  lemma HeaderIds(fp: FilePlan, r: SourceRange, a: SourceRange, nodes: Nodes)
    requires fp.anchors == [a] && fp.answers == [] && fp.direct == []
    requires Left(fp.optional, r, CutLines([Interval(a.start, a.end)]), nodes)
    ensures IdsBy(fp, [Put(0, a, Anchors)], [r], nodes)
    ensures OptionalBy(fp, [Put(0, a, Anchors)], [r], nodes)
  {
    var put := Put(0, a, Anchors);
    var puts := [put];
    OnePut(put, "");
    forall l
      ensures l in CutBy(puts, 0) <==> l in CutLines([Interval(a.start, a.end)])
    {
      CutOneInterval(a.start, a.end, l);
      assert Takes(puts, 0, l) <==> Within(a, l);
    }
    assert CutBy(puts, 0) == CutLines([Interval(a.start, a.end)]);
    hide CutBy, CutLines, Left, RunStands;
    LeftNext([], fp.optional, [r], CutsOf(puts, 1), 0, nodes);
    assert [] + fp.optional == fp.optional;
    forall id
      ensures AsksId(fp, id) <==> Forwarded(puts, id) || LeftFor(id, [r], puts, nodes)
    {
      OnePut(put, id);
      HasIdOne(a, id);
      LeftIds(fp.optional, r, CutBy(puts, 0), nodes, id);
      assert [r][0] == r;
    }
  }

  ghost function CutLines(ivs: seq<Interval>): iset<int> { iset l | Cut(ivs, l) }

  /** The pieces subtraction leaves, each with the ids it stands for. */
  lemma SubtractIsLeft(pieces: seq<SourceRange>, r: SourceRange, ivs: seq<Interval>, nodes: Nodes, file: seq<string>)
    requires Shows(r, file) && Separated(pieces) && ArePieces(pieces, r, nodes)
    requires forall l :: Covers(pieces, l) <==> Within(r, l) && !Cut(ivs, l)
    requires (forall l :: Within(r, l) ==> !Cut(ivs, l)) ==> pieces == [r]
    ensures Left(pieces, r, CutLines(ivs), nodes)
  {
    ShownBounds(r, file);
    forall i | 0 <= i < |pieces|
      ensures Part(pieces[i], r, nodes)
    {
      assert IsPiece(pieces[i], r, nodes);
      if SameSpan(pieces[i], r) {
        forall l | Within(r, l)
          ensures !Cut(ivs, l)
        {
          assert Within(pieces[i], l) && Covers(pieces, l);
        }
      }
    }
  }

  lemma LeftIds(pieces: seq<SourceRange>, r: SourceRange, taken: iset<int>, nodes: Nodes, id: NodeId)
    requires Left(pieces, r, taken, nodes)
    ensures HasId(pieces, id) <==> RunStands(id, r, taken, nodes)
  {
    if HasId(pieces, id) {
      var i :| 0 <= i < |pieces| && id in pieces[i].nodeIds;
      LeftIsGap(pieces, r, taken, nodes, i);
      assert Part(pieces[i], r, nodes);
    }
    if RunStands(id, r, taken, nodes) {
      var start, end :| Gap(r, taken, start, end) && StandsFor(id, r, start, end, nodes);
      var k := GapIsLeft(pieces, r, taken, nodes, start, end);
      assert Part(pieces[k], r, nodes);
    }
  }

  lemma LeftMeets(pieces: seq<SourceRange>, r: SourceRange, taken: iset<int>, nodes: Nodes)
    requires Left(pieces, r, taken, nodes) && IdsMeet([r], nodes)
    ensures IdsMeet(pieces, nodes)
  {
    assert [r][0] == r;
    forall i, id | 0 <= i < |pieces| && id in pieces[i].nodeIds
      ensures Meets(id, pieces[i].start, pieces[i].end, nodes)
    {
      assert Part(pieces[i], r, nodes);
    }
  }

  /** A run left of one of the first `n` ranges beside the cuts stands for the id. */
  ghost predicate RemainsFor(id: NodeId, p: Placement, ranges: seq<SourceRange>, n: nat, nodes: Nodes)
    requires n <= |ranges|
  {
    exists i: nat :: i < n && RunStands(id, ranges[i], CutLines(CutsAt(p, i)), nodes)
  }

  lemma RemainsNext(before: seq<SourceRange>, pieces: seq<SourceRange>, p: Placement, ranges: seq<SourceRange>, i: nat, nodes: Nodes)
    requires i < |ranges| && Left(pieces, ranges[i], CutLines(CutsAt(p, i)), nodes)
    requires forall id :: HasId(before, id) <==> RemainsFor(id, p, ranges, i, nodes)
    ensures forall id :: HasId(before + pieces, id) <==> RemainsFor(id, p, ranges, i + 1, nodes)
    ensures IdsMeet(ranges, nodes) && IdsMeet(before, nodes) ==> IdsMeet(before + pieces, nodes)
  {
    hide RunStands, HasId, CutLines;
    forall id
      ensures HasId(before + pieces, id) <==> RemainsFor(id, p, ranges, i + 1, nodes)
    {
      HasIdAppend(before, pieces, id);
      LeftIds(pieces, ranges[i], CutLines(CutsAt(p, i)), nodes, id);
    }
    if IdsMeet(ranges, nodes) {
      assert IdsMeet([ranges[i]], nodes);
      LeftMeets(pieces, ranges[i], CutLines(CutsAt(p, i)), nodes);
    }
  }

  /** What the placed excerpts cut out of each range. */
  ghost function PlacedCuts(p: Placement, n: nat): seq<iset<int>> {
    seq(n, i requires 0 <= i < n => CutLines(CutsAt(p, i)))
  }

  lemma NothingRemains(p: Placement, ranges: seq<SourceRange>, nodes: Nodes)
    ensures IdsMeet([], nodes) && LeftInOrder([], ranges, PlacedCuts(p, |ranges|), 0, nodes)
  {
  }

  /** Everything of the ranges that was not cut out for a placed excerpt. */
  method Remainders(p: Placement, ranges: seq<SourceRange>, nodes: Nodes, ghost file: seq<string>)
    returns (optional: seq<SourceRange>)
    requires PlacementOk(p, ranges, file) && AllShow(ranges, file)
    ensures AllShow(optional, file)
    ensures forall l :: Placed(p, l) || Covers(optional, l) <==> Covers(ranges, l)
    ensures forall id :: HasId(optional, id) <==> RemainsFor(id, p, ranges, |ranges|, nodes)
    ensures IdsMeet(ranges, nodes) ==> IdsMeet(optional, nodes)
    ensures LeftInOrder(optional, ranges, PlacedCuts(p, |ranges|), |ranges|, nodes)
  {
    hide IdsMeet, LeftInOrder;
    optional := [];
    NothingRemains(p, ranges, nodes);
    for i := 0 to |ranges|
      invariant AllShow(optional, file)
      invariant forall l :: Covers(optional, l) ==> Covers(ranges[..i], l)
      invariant forall l :: Covers(ranges[..i], l) ==> Placed(p, l) || Covers(optional, l)
      invariant forall id :: HasId(optional, id) <==> RemainsFor(id, p, ranges, i, nodes)
      invariant IdsMeet(ranges, nodes) ==> IdsMeet(optional, nodes)
      invariant LeftInOrder(optional, ranges, PlacedCuts(p, |ranges|), i, nodes)
    {
      ghost var before := optional;
      var pieces := SubtractIntervals(ranges[i], CutsAt(p, i), nodes, file);
      optional := optional + pieces;
      SubtractIsLeft(pieces, ranges[i], CutsAt(p, i), nodes, file);
      RemainsNext(before, pieces, p, ranges, i, nodes);
      LeftNext(before, pieces, ranges, PlacedCuts(p, |ranges|), i, nodes);
      TakeSnoc(ranges, i);
      forall l
        ensures Covers(optional, l) ==> Covers(ranges[..i + 1], l)
        ensures Covers(ranges[..i + 1], l) ==> Placed(p, l) || Covers(optional, l)
      {
        CoversAppend(before, pieces, l);
        CoversAppend(ranges[..i], [ranges[i]], l);
        CoversOne(ranges[i], l);
        if Cut(CutsAt(p, i), l) {
          assert i in p.cuts;
        }
      }
    }
    TakeAll(ranges);
  }

  method PlanRanges(index: nat, plan: SourcePlan, sel: Selection, nodes: Nodes, ghost file: seq<string>)
    returns (fp: FilePlan)
    requires plan.ranges != [] && AllShow(plan.ranges, file) && NodesOk(nodes)
    ensures fp.plan == index && Conserves(fp, plan.ranges, file)
    ensures AnswersReserved(fp, plan, sel, nodes)
    ensures IdsBy(fp, PutsOfRanges(index, plan, sel, nodes), plan.ranges, nodes)
    ensures PlannedBy(fp, PutsOfRanges(index, plan, sel, nodes), plan.ranges, nodes)
    ensures IdsMeet(plan.ranges, nodes) ==> LanesMeet(fp, nodes)
  {
    hide ExcerptsPlaced, Holds, PlacedMeet, IdsMeet, IdsBy, PlannedBy, LeftInOrder, LanesMeet, RemainsFor, Shows, PutsOf, Chosen, ChosenAsFlow;
    hide Completes, FirstFallback, CompleteDeclarationRange, HeaderOr, BestDeclarationRangeIndex, PlacementOk;
    var ranges := plan.ranges;
    var selected, asFlow := SelectIds(plan.file, sel, nodes);
    var directIds := DirectAnswerIds(selected, sel, asFlow, ranges, nodes);
    SelectionIs(selected, asFlow, directIds, plan.file, sel, ranges, nodes);
    var p := Placement([], [], [], map[]);
    NothingPlaced(ranges, nodes, file);
    NothingPut(index, selected, asFlow, directIds, sel, ranges, nodes);
    for k := 0 to |selected|
      invariant PlacementOk(p, ranges, file)
      invariant Holds(p, PutsOf(index, selected[..k], asFlow, directIds, sel, ranges, nodes))
      invariant IdsMeet(ranges, nodes) ==> PlacedMeet(p, nodes)
      invariant forall i :: 0 <= i < k && selected[i] in sel.reservedPrimary && Carried(selected[i], ranges, nodes)
                  ==> Covers(p.answers, nodes[selected[i]].start)
    {
      ghost var before := p;
      p := PlaceDeclaration(p, index, selected[k], selected[k] in asFlow, selected[k] in directIds, sel, ranges, nodes, file);
      DeclarationPut(p, before, selected[..k], selected[k], index, asFlow, directIds, sel, ranges, nodes, file);
      TakeSnoc(selected, k);
    }
    TakeAll(selected);
    ghost var puts := PutsOf(index, selected, asFlow, directIds, sel, ranges, nodes);
    PlacedIffPut(p, puts, ranges, file);
    if p.anchors == [] && p.answers == [] && p.direct == [] {
      p := PlaceFallback(index, ranges, nodes, file);
      puts := [FallbackPut(index, ranges, nodes)];
      FallbackHolds(p, index, ranges, nodes, file);
    }
    var optional := Remainders(p, ranges, nodes, file);
    fp := FilePlan(index, p.anchors, p.answers, p.direct, optional);
    PlanIds(fp, p, puts, ranges, nodes);
    PlanConserves(fp, p, ranges, file);
  }

  lemma PlanConserves(fp: FilePlan, p: Placement, ranges: seq<SourceRange>, file: seq<string>)
    requires fp.anchors == p.anchors && fp.answers == p.answers && fp.direct == p.direct && PlacementOk(p, ranges, file)
    requires AllShow(fp.optional, file) && (fp.anchors != [] || fp.answers != [] || fp.direct != [])
    requires forall l :: Placed(p, l) || Covers(fp.optional, l) <==> Covers(ranges, l)
    ensures Conserves(fp, ranges, file)
  {
    hide Shows, Covers;
    forall l
      ensures Asks(fp, l) <==> Covers(ranges, l)
    {
      assert Asks(fp, l) <==> Placed(p, l) || Covers(fp.optional, l);
    }
  }

  lemma SelectionIs(selected: seq<NodeId>, asFlow: set<NodeId>, direct: set<NodeId>, file: string, sel: Selection,
                    ranges: seq<SourceRange>, nodes: Nodes)
    requires selected == ChosenIds(sel, file, nodes, |sel.primaryOrder|)
    requires forall id :: id in asFlow <==>
               exists i: nat :: i < |sel.primaryOrder| && sel.primaryOrder[i] == id && ChosenAsFlow(sel, file, nodes, i)
    requires forall id :: id in direct ==> id in selected && Completes(id, ranges, nodes)
    requires forall id :: id in selected && id in sel.reservedPrimary ==> (id in direct <==> Completes(id, ranges, nodes))
    requires forall id :: id in direct && id !in sel.reservedPrimary <==>
               exists k :: 0 <= k < |selected| && selected[k] == id && FirstFallback(selected, k, sel, asFlow, ranges, nodes)
    ensures asFlow == FlowIds(sel, file, nodes) && direct == DirectIds(selected, sel, asFlow, ranges, nodes)
    ensures forall id :: id in direct && id in asFlow ==> id in sel.reservedPrimary
  {
    hide ChosenAsFlow, Completes, ChosenIds;
    forall id
      ensures id in direct <==> id in DirectIds(selected, sel, asFlow, ranges, nodes)
    {
      if k :| 0 <= k < |selected| && selected[k] == id && FirstFallback(selected, k, sel, asFlow, ranges, nodes) {
        assert id !in sel.reservedPrimary;
      }
    }
  }

  lemma NothingPlaced(ranges: seq<SourceRange>, nodes: Nodes, file: seq<string>)
    ensures PlacementOk(Placement([], [], [], map[]), ranges, file)
    ensures Holds(Placement([], [], [], map[]), []) && PlacedMeet(Placement([], [], [], map[]), nodes)
  {
    assert forall l :: !Cut([], l);
  }

  lemma NothingPut(index: nat, selected: seq<NodeId>, asFlow: set<NodeId>, direct: set<NodeId>, sel: Selection,
                   ranges: seq<SourceRange>, nodes: Nodes)
    ensures PutsOf(index, selected[..0], asFlow, direct, sel, ranges, nodes) == []
  {
  }

  /** Placing one more selected declaration puts its excerpt forward, if a range carries it. */
  lemma DeclarationPut(q: Placement, p: Placement, done: seq<NodeId>, id: NodeId, index: nat, asFlow: set<NodeId>,
                       direct: set<NodeId>, sel: Selection, ranges: seq<SourceRange>, nodes: Nodes, file: seq<string>)
    requires AllShow(ranges, file) && NodesOk(nodes) && Holds(p, PutsOf(index, done, asFlow, direct, sel, ranges, nodes))
    requires id in direct && id in asFlow ==> id in sel.reservedPrimary
    requires !Carried(id, ranges, nodes) ==> q == p
    requires Carried(id, ranges, nodes) ==>
               var best := BestDeclarationRangeIndex(ranges, nodes[id]);
               && best.Some? && best.value < |ranges|
               && var range := ranges[best.value];
               var exact := id in sel.exactOrder;
               var whole := CompleteDeclarationRange(range, nodes[id]);
               ExcerptsPlaced(q, p, index, best.value, id in sel.reservedPrimary,
                              if exact then range else HeaderOr(range, Some(nodes[id])),
                              if id in asFlow && !exact then whole else None, if id in direct then whole else None)
    ensures Holds(q, PutsOf(index, done + [id], asFlow, direct, sel, ranges, nodes))
    ensures IdsMeet(ranges, nodes) && PlacedMeet(p, nodes) ==> PlacedMeet(q, nodes)
  {
    PutsSnoc(index, done, id, asFlow, direct, sel, ranges, nodes);
    assert Carried(id, ranges, nodes) ==> id in nodes;
    hide Holds, ExcerptsPlaced, HeaderOr, CompleteDeclarationRange, BestDeclarationRangeIndex, PlacedMeet, PutsOf, Carried, IdsMeet;
    var puts := PutsOf(index, done, asFlow, direct, sel, ranges, nodes);
    if Carried(id, ranges, nodes) {
      var put := PutOf(index, id, id in asFlow, id in direct, sel, ranges, nodes);
      var range, exact := ranges[put.range], id in sel.exactOrder;
      var whole := CompleteDeclarationRange(range, nodes[id]);
      var anchor := if exact then range else HeaderOr(range, Some(nodes[id]));
      var ca, cd := if id in asFlow && !exact then whole else None, if id in direct then whole else None;
      PlacedHolds(q, p, puts, put, index, id in sel.reservedPrimary, anchor, ca, cd);
      if IdsMeet(ranges, nodes) && PlacedMeet(p, nodes) {
        DeclarationMeets(range, nodes[id], exact, ca, cd, ranges, nodes, file);
        PlacedMeets(q, p, index, put.range, id in sel.reservedPrimary, anchor, ca, cd, nodes);
      }
    }
  }

  lemma PutsSnoc(index: nat, done: seq<NodeId>, id: NodeId, asFlow: set<NodeId>, direct: set<NodeId>, sel: Selection,
                 ranges: seq<SourceRange>, nodes: Nodes)
    ensures !Carried(id, ranges, nodes) ==>
              PutsOf(index, done + [id], asFlow, direct, sel, ranges, nodes) == PutsOf(index, done, asFlow, direct, sel, ranges, nodes)
    ensures Carried(id, ranges, nodes) ==>
              PutsOf(index, done + [id], asFlow, direct, sel, ranges, nodes)
              == PutsOf(index, done, asFlow, direct, sel, ranges, nodes)
                 + [PutOf(index, id, id in asFlow, id in direct, sel, ranges, nodes)]
  {
    hide Carried, PutOf;
    assert (done + [id])[..|done|] == done;
  }

  lemma DeclarationMeets(range: SourceRange, node: Node, exact: bool, ca: Option<SourceRange>, cd: Option<SourceRange>,
                         ranges: seq<SourceRange>, nodes: Nodes, file: seq<string>)
    requires IdsMeet(ranges, nodes) && range in ranges && Shows(range, file) && NodesOk(nodes)
    requires node.id in nodes && nodes[node.id] == node
    requires ca == None || ca == CompleteDeclarationRange(range, node)
    requires cd == None || cd == CompleteDeclarationRange(range, node)
    ensures IdsMeet([if exact then range else HeaderOr(range, Some(node))] + AsSeq(ca) + AsSeq(cd), nodes)
  {
    ExcerptMeets(range, node, nodes, file);
    hide CompleteDeclarationRange, DeclarationAnchor, Shows, Meets;
    assert IdsMeet([range], nodes);
    var anchor := if exact then range else HeaderOr(range, Some(node));
    assert IdsMeet([anchor], nodes);
    assert [anchor][0] == anchor;
    assert ca.Some? ==> AsSeq(ca)[0] == ca.value;
    assert cd.Some? ==> AsSeq(cd)[0] == cd.value;
  }

  /** Something is placed exactly when something is put forward. */
  lemma PlacedIffPut(p: Placement, puts: seq<Put>, ranges: seq<SourceRange>, file: seq<string>)
    requires Holds(p, puts) && PlacementOk(p, ranges, file)
    ensures p.anchors == [] && p.answers == [] && p.direct == [] <==> puts == []
  {
    hide PlacedHas, Forwarded, CutsLine, Takes;
  }

  lemma FallbackHolds(p: Placement, index: nat, ranges: seq<SourceRange>, nodes: Nodes, file: seq<string>)
    requires ranges != [] && AllShow(ranges, file) && NodesOk(nodes)
    requires var node := FirstKnown(ranges[0].nodeIds, nodes);
             var whole := if index == 0 && node.Some? then CompleteDeclarationRange(ranges[0], node.value) else None;
             var excerpt := if whole.Some? then whole.value else HeaderOr(ranges[0], node);
             var cuts: map<nat, seq<Interval>> := map[0 := [Interval(excerpt.start, excerpt.end)]];
             p == if whole.Some? then Placement([], [], [excerpt], cuts) else Placement([excerpt], [], [], cuts)
    ensures Holds(p, [FallbackPut(index, ranges, nodes)])
    ensures IdsMeet(ranges, nodes) ==> PlacedMeet(p, nodes)
  {
    var put := FallbackPut(index, ranges, nodes);
    hide CompleteDeclarationRange, HeaderOr, FirstKnown, IdsMeet;
    OneHolds(p, put);
    if IdsMeet(ranges, nodes) {
      FallbackMeets(index, ranges, nodes, file);
      NothingMeets(nodes);
    }
  }

  lemma NothingMeets(nodes: Nodes)
    ensures IdsMeet([], nodes)
  {
  }

  /** A placement of one excerpt holds it. */
  lemma OneHolds(p: Placement, put: Put)
    requires put.range == 0 && put.lane != Answers
    requires p == Placement(if put.lane == Anchors then [put.excerpt] else [], [], if put.lane == Direct then [put.excerpt] else [],
                            map[0 := [Interval(put.excerpt.start, put.excerpt.end)]])
    ensures Holds(p, [put])
  {
    OneHoldsPut(p, put);
    OneLane(put, FilePlan(0, p.anchors, p.answers, p.direct, []));
    hide HoldsPuts, Lists;
  }

  lemma OneHoldsPut(p: Placement, put: Put)
    requires put.range == 0 && put.lane != Answers
    requires p == Placement(if put.lane == Anchors then [put.excerpt] else [], [], if put.lane == Direct then [put.excerpt] else [],
                            map[0 := [Interval(put.excerpt.start, put.excerpt.end)]])
    ensures HoldsPuts(p, [put])
  {
    forall id
      ensures PlacedHas(p, id) <==> Forwarded([put], id)
    {
      HasIdOne(put.excerpt, id);
      OnePut(put, id);
    }
    hide Forwarded, PlacedHas;
    forall i, l | 0 <= i
      ensures CutsLine(p, i, l) <==> Takes([put], i, l)
    {
      OnePut(put, "");
      CutOneInterval(put.excerpt.start, put.excerpt.end, l);
    }
    assert 0 in p.cuts;
  }

  lemma FallbackMeets(index: nat, ranges: seq<SourceRange>, nodes: Nodes, file: seq<string>)
    requires ranges != [] && AllShow(ranges, file) && NodesOk(nodes) && IdsMeet(ranges, nodes)
    ensures IdsMeet([FallbackPut(index, ranges, nodes).excerpt], nodes)
  {
    var node := FirstKnown(ranges[0].nodeIds, nodes);
    assert IdsMeet([ranges[0]], nodes);
    if node.Some? {
      FirstKnownIs(ranges[0].nodeIds, nodes);
      ExcerptMeets(ranges[0], node.value, nodes, file);
      hide CompleteDeclarationRange, DeclarationAnchor;
      var c := CompleteDeclarationRange(ranges[0], node.value);
      assert c.Some? ==> AsSeq(c) == [c.value];
    }
  }

  lemma {:induction false} FirstKnownIs(ids: seq<NodeId>, nodes: Nodes)
    requires NodesOk(nodes)
    ensures var node := FirstKnown(ids, nodes); node.Some? ==> node.value.id in nodes && nodes[node.value.id] == node.value
  {
    if ids != [] && ids[0] !in nodes {
      FirstKnownIs(ids[1..], nodes);
    }
  }

  lemma PlanIds(fp: FilePlan, p: Placement, puts: seq<Put>, ranges: seq<SourceRange>, nodes: Nodes)
    requires fp.anchors == p.anchors && fp.answers == p.answers && fp.direct == p.direct && Holds(p, puts)
    requires forall id :: HasId(fp.optional, id) <==> RemainsFor(id, p, ranges, |ranges|, nodes)
    requires LeftInOrder(fp.optional, ranges, PlacedCuts(p, |ranges|), |ranges|, nodes)
    ensures IdsBy(fp, puts, ranges, nodes) && PlannedBy(fp, puts, ranges, nodes)
    ensures PlacedMeet(p, nodes) && IdsMeet(fp.optional, nodes) ==> LanesMeet(fp, nodes)
  {
    hide HasId, Forwarded, RunStands, IdsMeet, Lists, LeftInOrder;
    forall i: nat
      ensures CutLines(CutsAt(p, i)) == CutBy(puts, i)
    {
      SameCuts(p, puts, i);
    }
    assert PlacedCuts(p, |ranges|) == CutsOf(puts, |ranges|);
    forall id
      ensures AsksId(fp, id) <==> Forwarded(puts, id) || LeftFor(id, ranges, puts, nodes)
    {
      assert AsksId(fp, id) <==> PlacedHas(p, id) || HasId(fp.optional, id);
      assert RemainsFor(id, p, ranges, |ranges|, nodes) <==> LeftFor(id, ranges, puts, nodes);
    }
  }

  lemma SameCuts(p: Placement, puts: seq<Put>, i: nat)
    requires Holds(p, puts)
    ensures CutLines(CutsAt(p, i)) == CutBy(puts, i)
  {
    hide PlacedHas, Forwarded;
    assert forall l :: CutsLine(p, i, l) <==> Takes(puts, i, l);
  }

  /** The declaration line of every reserved declaration of the file is in one of its answers. */
  ghost predicate AnswersReserved(fp: FilePlan, plan: SourcePlan, sel: Selection, nodes: Nodes) {
    forall id :: id in sel.primaryOrder && InFile(id, plan.file, nodes) && id in sel.reservedPrimary
                   && Carried(id, plan.ranges, nodes)
      ==> Covers(fp.answers, nodes[id].start)
  }

  method PlanFile(index: nat, plan: SourcePlan, sel: Selection, nodes: Nodes, ghost file: seq<string>)
    returns (fp: FilePlan)
    requires plan.ranges != [] && AllShow(plan.ranges, file) && NodesOk(nodes)
    ensures fp.plan == index && Conserves(fp, plan.ranges, file)
    ensures AnswersReserved(fp, plan, sel, nodes)
    ensures IdsBy(fp, PutsFor(index, plan, sel, nodes), plan.ranges, nodes)
    ensures PlannedBy(fp, PutsFor(index, plan, sel, nodes), plan.ranges, nodes)
    ensures IdsMeet(plan.ranges, nodes) ==> LanesMeet(fp, nodes)
  {
    hide IdsBy, PlannedBy, LanesMeet, IdsMeet;
    var r := plan.ranges[0];
    if |plan.ranges| == 1 && r.reason == WholeFile && r.end - r.start < WHOLE_FILE_LINES {
      fp := PlanWholeFile(index, plan, sel, nodes, file);
      assert plan.ranges == [r];
      forall id | id in sel.reservedPrimary && Carried(id, plan.ranges, nodes)
        ensures Covers(fp.answers, nodes[id].start)
      {
        var i :| 0 <= i < |plan.ranges| && CarriesDeclarationLine(plan.ranges[i], nodes[id]);
        var k :| 0 <= k < |r.nodeIds| && r.nodeIds[k] == id;
        assert Within(plan.ranges[i], nodes[id].start);
      }
    } else {
      fp := PlanRanges(index, plan, sel, nodes, file);
    }
  }

  ghost predicate PlansOk(plans: seq<SourcePlan>, texts: Texts) {
    forall i :: 0 <= i < |plans| ==> plans[i].file in texts && AllShow(plans[i].ranges, texts[plans[i].file])
  }

  /** One plan per file with ranges, in record order, each conserving its file's lines. */
  ghost predicate FilePlansOk(fps: seq<FilePlan>, plans: seq<SourcePlan>, sel: Selection, nodes: Nodes, texts: Texts) {
    && (forall i :: 0 <= i < |fps| ==> FilePlanOk(fps[i], plans, sel, nodes, texts))
    && (forall i, j :: 0 <= i < j < |fps| ==> fps[i].plan < fps[j].plan)
    && (forall k :: 0 <= k < |plans| && plans[k].ranges != [] ==> exists i :: 0 <= i < |fps| && fps[i].plan == k)
  }

  ghost predicate FilePlanOk(fp: FilePlan, plans: seq<SourcePlan>, sel: Selection, nodes: Nodes, texts: Texts) {
    && fp.plan < |plans| && plans[fp.plan].file in texts
    && Conserves(fp, plans[fp.plan].ranges, texts[plans[fp.plan].file])
    && AnswersReserved(fp, plans[fp.plan], sel, nodes)
    && plans[fp.plan].ranges != []
    && IdsBy(fp, PutsFor(fp.plan, plans[fp.plan], sel, nodes), plans[fp.plan].ranges, nodes)
    && PlannedBy(fp, PutsFor(fp.plan, plans[fp.plan], sel, nodes), plans[fp.plan].ranges, nodes)
    && (IdsMeet(plans[fp.plan].ranges, nodes) ==> LanesMeet(fp, nodes))
  }

  method PlanFiles(plans: seq<SourcePlan>, sel: Selection, nodes: Nodes, ghost texts: Texts)
    returns (fps: seq<FilePlan>)
    requires PlansOk(plans, texts) && NodesOk(nodes)
    ensures FilePlansOk(fps, plans, sel, nodes, texts)
  {
    hide Conserves, AnswersReserved, IdsBy, PlannedBy, LanesMeet, IdsMeet, PutsFor;
    fps := [];
    for k := 0 to |plans|
      invariant forall i :: 0 <= i < |fps| ==> fps[i].plan < k && FilePlanOk(fps[i], plans, sel, nodes, texts)
      invariant forall i, j :: 0 <= i < j < |fps| ==> fps[i].plan < fps[j].plan
      invariant forall m :: 0 <= m < k && plans[m].ranges != [] ==> exists i :: 0 <= i < |fps| && fps[i].plan == m
    {
      if plans[k].ranges != [] {
        ghost var before := fps;
        var fp := PlanFile(k, plans[k], sel, nodes, texts[plans[k].file]);
        fps := fps + [fp];
        assert fps[|before|].plan == k;
        forall m | 0 <= m < k && plans[m].ranges != []
          ensures exists i :: 0 <= i < |fps| && fps[i].plan == m
        {
          var i :| 0 <= i < |before| && before[i].plan == m;
          assert fps[i].plan == m;
        }
      }
    }
  }
}
