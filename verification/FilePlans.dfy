/**
 The per-file half of prioritising planned source: which excerpts of a file are anchors, reserved
 answers, direct answers and optional remainders (`prioritize_source_admissions`,
 src/graph/agent.rs).
 */
module FilePlans {
  import opened Prelude
  import opened SourceRanges
  import opened LaneOrder

  const PRIMARY_DECLARATION_ANCHORS_PER_FILE := 3
  const PRIMARY_FLOW_ANCHORS_PER_FILE := 3
  const WHOLE_FILE_LINES := 200

  datatype FilePlan = FilePlan(
    plan: nat,
    anchors: seq<SourceRange>,
    answers: seq<SourceRange>,
    direct: seq<SourceRange>,
    optional: seq<SourceRange>)

  /** What the scope selection knows about declarations. */
  datatype Selection = Selection(
    primaryOrder: seq<NodeId>,
    exactOrder: map<NodeId, nat>,
    flowAnswerIds: set<NodeId>,
    reservedPrimary: set<NodeId>,
    globalOrder: map<NodeId, nat>)

  /** Nodes are kept under their own ids and end no earlier than they start. */
  ghost predicate NodesOk(nodes: Nodes) {
    forall id :: id in nodes ==> nodes[id].id == id && nodes[id].start <= nodes[id].end
  }

  /** Lines the file plan will ask for, in whatever phase. */
  ghost predicate Asks(fp: FilePlan, l: int) {
    Covers(fp.anchors, l) || Covers(fp.answers, l) || Covers(fp.direct, l) || Covers(fp.optional, l)
  }

  /**
   The file plan asks for exactly the planned lines, in excerpts that show the file's text, and
   every planned file has at least one excerpt ahead of the optional bodies.
   */
  ghost predicate Conserves(fp: FilePlan, ranges: seq<SourceRange>, file: seq<string>) {
    && AllShow(fp.anchors, file) && AllShow(fp.answers, file) && AllShow(fp.direct, file) && AllShow(fp.optional, file)
    && (forall l :: Asks(fp, l) <==> Covers(ranges, l))
    && (fp.anchors != [] || fp.answers != [] || fp.direct != [])
  }

  predicate AnyIn(ids: seq<NodeId>, s: set<NodeId>) { exists i :: 0 <= i < |ids| && ids[i] in s }

  predicate InFile(id: NodeId, file: string, nodes: Nodes) { id in nodes && nodes[id].filePath == file }

  predicate Strong(id: NodeId, r: SourceRange, file: string, nodes: Nodes) { id in r.nodeIds && InFile(id, file, nodes) }

  /** The first declaration of the order that is the file's and that the excerpt carries. */
  function Strongest(r: SourceRange, file: string, order: seq<NodeId>, nodes: Nodes): Option<NodeId> {
    if order == [] then None
    else if Strong(order[0], r, file, nodes) then Some(order[0])
    else Strongest(r, file, order[1..], nodes)
  }

  /** The strongest declaration of the file the excerpt carries, else its first one. */
  function Compact(r: SourceRange, file: string, order: seq<NodeId>, nodes: Nodes): Option<NodeId> {
    var strongest := Strongest(r, file, order, nodes);
    if strongest.Some? then strongest else if r.nodeIds == [] then None else Some(r.nodeIds[0])
  }

  method CompactId(r: SourceRange, file: string, order: seq<NodeId>, nodes: Nodes) returns (id: Option<NodeId>)
    ensures id == Compact(r, file, order, nodes)
  {
    assert order[0..] == order;
    for i := 0 to |order|
      invariant Strongest(r, file, order, nodes) == Strongest(r, file, order[i..], nodes)
    {
      assert order[i..][1..] == order[i + 1..];
      if order[i] in r.nodeIds && InFile(order[i], file, nodes) {
        return Some(order[i]);
      }
    }
    return if r.nodeIds == [] then None else Some(r.nodeIds[0]);
  }

  /** The strongest declaration is the first of the order that the excerpt carries. */
  lemma {:induction false} StrongestIsFirst(r: SourceRange, file: string, order: seq<NodeId>, nodes: Nodes)
    ensures var id := Strongest(r, file, order, nodes);
            if id.None? then forall j :: 0 <= j < |order| ==> !Strong(order[j], r, file, nodes)
            else exists i :: 0 <= i < |order| && order[i] == id.value && Strong(order[i], r, file, nodes)
                             && forall j :: 0 <= j < i ==> !Strong(order[j], r, file, nodes)
  {
    if order != [] && !Strong(order[0], r, file, nodes) {
      var rest := order[1..];
      StrongestIsFirst(r, file, rest, nodes);
      assert forall j :: 0 <= j < |rest| ==> rest[j] == order[j + 1];
      var id := Strongest(r, file, rest, nodes);
      if id.Some? {
        var i :| 0 <= i < |rest| && rest[i] == id.value && Strong(rest[i], r, file, nodes)
                 && forall j :: 0 <= j < i ==> !Strong(rest[j], r, file, nodes);
        assert order[i + 1] == id.value;
        assert forall j :: 1 <= j < i + 1 ==> order[j] == rest[j - 1];
      }
    }
  }

  /** The header of a known declaration, else the whole excerpt. */
  function HeaderOr(r: SourceRange, node: Option<Node>): SourceRange {
    if node.None? then r
    else
      match DeclarationAnchor(r, node.value, SOURCE_DECLARATION_ANCHOR_LINES)
      case Some(anchor) => anchor
      case None => r
  }

  function NodeOf(id: Option<NodeId>, nodes: Nodes): Option<Node> {
    if id.Some? && id.value in nodes then Some(nodes[id.value]) else None
  }

  lemma CutOneInterval(s: int, e: int, l: int)
    ensures Cut([Interval(s, e)], l) <==> s <= l <= e
  {
    CutSnoc([], Interval(s, e), l);
    assert [] + [Interval(s, e)] == [Interval(s, e)];
  }

  // ----- Choosing the declarations of a file -----

  /** Position `i` names a declaration of the file that competes for the flow (or the other) places. */
  predicate Competes(sel: Selection, file: string, nodes: Nodes, i: nat, flow: bool) {
    && i < |sel.primaryOrder| && InFile(sel.primaryOrder[i], file, nodes)
    && sel.primaryOrder[i] !in sel.reservedPrimary && (sel.primaryOrder[i] in sel.flowAnswerIds <==> flow)
  }

  /** Competitors ahead of position `k`. */
  function Ahead(sel: Selection, file: string, nodes: Nodes, k: nat, flow: bool): nat {
    if k == 0 then 0
    else Ahead(sel, file, nodes, k - 1, flow) + (if Competes(sel, file, nodes, k - 1, flow) then 1 else 0)
  }

  predicate ChosenAsFlow(sel: Selection, file: string, nodes: Nodes, i: nat) {
    Competes(sel, file, nodes, i, true) && Ahead(sel, file, nodes, i, true) < PRIMARY_FLOW_ANCHORS_PER_FILE
  }

  /** The file's declaration at position `i` is reserved, or among the first three of its kind. */
  predicate Chosen(sel: Selection, file: string, nodes: Nodes, i: nat) {
    || (i < |sel.primaryOrder| && InFile(sel.primaryOrder[i], file, nodes) && sel.primaryOrder[i] in sel.reservedPrimary)
    || ChosenAsFlow(sel, file, nodes, i)
    || (Competes(sel, file, nodes, i, false)
        && Ahead(sel, file, nodes, i, false) < PRIMARY_DECLARATION_ANCHORS_PER_FILE)
  }

  /** The chosen declarations among the first `k`, in primary order. */
  function ChosenIds(sel: Selection, file: string, nodes: Nodes, k: nat): seq<NodeId>
    requires k <= |sel.primaryOrder|
  {
    if k == 0 then []
    else ChosenIds(sel, file, nodes, k - 1) + (if Chosen(sel, file, nodes, k - 1) then [sel.primaryOrder[k - 1]] else [])
  }

  /**
   The file's declarations in primary order: every reserved one, the first three flow answers and
   the first three others.
   */
  method SelectIds(file: string, sel: Selection, nodes: Nodes)
    returns (selected: seq<NodeId>, asFlow: set<NodeId>)
    ensures selected == ChosenIds(sel, file, nodes, |sel.primaryOrder|)
    ensures forall id :: id in selected <==>
              exists i: nat :: i < |sel.primaryOrder| && sel.primaryOrder[i] == id && Chosen(sel, file, nodes, i)
    ensures forall id :: id in asFlow <==>
              exists i: nat :: i < |sel.primaryOrder| && sel.primaryOrder[i] == id && ChosenAsFlow(sel, file, nodes, i)
    ensures forall id :: id in sel.primaryOrder && InFile(id, file, nodes) && id in sel.reservedPrimary ==> id in selected
  {
    selected, asFlow := [], {};
    var directAnchors, flowAnchors := 0, 0;
    for k := 0 to |sel.primaryOrder|
      invariant selected == ChosenIds(sel, file, nodes, k)
      invariant directAnchors == Ahead(sel, file, nodes, k, false) && flowAnchors == Ahead(sel, file, nodes, k, true)
      invariant forall id :: id in selected <==>
                  exists i: nat :: i < k && sel.primaryOrder[i] == id && Chosen(sel, file, nodes, i)
      invariant forall id :: id in asFlow <==>
                  exists i: nat :: i < k && sel.primaryOrder[i] == id && ChosenAsFlow(sel, file, nodes, i)
    {
      var id := sel.primaryOrder[k];
      if !InFile(id, file, nodes) {
        continue;
      }
      if id in sel.reservedPrimary {
        selected := selected + [id];
      } else if id in sel.flowAnswerIds {
        flowAnchors := flowAnchors + 1;
        if flowAnchors <= PRIMARY_FLOW_ANCHORS_PER_FILE {
          asFlow := asFlow + {id};
          selected := selected + [id];
        }
      } else {
        directAnchors := directAnchors + 1;
        if directAnchors <= PRIMARY_DECLARATION_ANCHORS_PER_FILE {
          selected := selected + [id];
        }
      }
    }
    forall id | id in sel.primaryOrder && InFile(id, file, nodes) && id in sel.reservedPrimary ensures id in selected {
      var i: nat :| i < |sel.primaryOrder| && sel.primaryOrder[i] == id;
      assert Chosen(sel, file, nodes, i);
    }
  }

  predicate Completes(id: NodeId, ranges: seq<SourceRange>, nodes: Nodes) {
    id in nodes &&
    var best := BestDeclarationRangeIndex(ranges, nodes[id]);
    best.Some? && CompleteDeclarationRange(ranges[best.value], nodes[id]).Some?
  }

  predicate IsFallback(id: NodeId, sel: Selection, asFlow: set<NodeId>, ranges: seq<SourceRange>, nodes: Nodes) {
    id !in sel.reservedPrimary && id !in sel.exactOrder && id !in asFlow && Completes(id, ranges, nodes)
  }

  /** Reserved declarations that can be answered whole, and the first other one that can. */
  method DirectAnswerIds(selected: seq<NodeId>, sel: Selection, asFlow: set<NodeId>, ranges: seq<SourceRange>, nodes: Nodes)
    returns (ids: set<NodeId>)
    ensures forall id :: id in ids ==> id in selected && Completes(id, ranges, nodes)
    ensures forall id :: id in selected && id in sel.reservedPrimary ==> (id in ids <==> Completes(id, ranges, nodes))
    ensures forall id :: id in ids && id !in sel.reservedPrimary <==>
              exists k :: 0 <= k < |selected| && selected[k] == id && FirstFallback(selected, k, sel, asFlow, ranges, nodes)
  {
    ids := set id | id in selected && id in sel.reservedPrimary && Completes(id, ranges, nodes);
    for k := 0 to |selected|
      invariant ids == set id | id in selected && id in sel.reservedPrimary && Completes(id, ranges, nodes)
      invariant forall j :: 0 <= j < k ==> !IsFallback(selected[j], sel, asFlow, ranges, nodes)
    {
      if IsFallback(selected[k], sel, asFlow, ranges, nodes) {
        ids := ids + {selected[k]};
        assert FirstFallback(selected, k, sel, asFlow, ranges, nodes);
        return;
      }
    }
  }

  /** The first selected declaration that can stand in as a direct answer. */
  predicate FirstFallback(selected: seq<NodeId>, k: int, sel: Selection, asFlow: set<NodeId>,
                          ranges: seq<SourceRange>, nodes: Nodes)
  {
    && 0 <= k < |selected| && IsFallback(selected[k], sel, asFlow, ranges, nodes)
    && forall j :: 0 <= j < k ==> !IsFallback(selected[j], sel, asFlow, ranges, nodes)
  }

  // ----- Placing one declaration -----

  datatype Placement = Placement(
    anchors: seq<SourceRange>,
    answers: seq<SourceRange>,
    direct: seq<SourceRange>,
    cuts: map<nat, seq<Interval>>)

  function CutsAt(p: Placement, i: nat): seq<Interval> { if i in p.cuts then p.cuts[i] else [] }

  ghost predicate Placed(p: Placement, l: int) { Covers(p.anchors, l) || Covers(p.answers, l) || Covers(p.direct, l) }

  /** Placed excerpts come from the ranges; cut lines are placed; nothing is cut before something is placed. */
  ghost predicate PlacementOk(p: Placement, ranges: seq<SourceRange>, file: seq<string>) {
    && AllShow(p.anchors, file) && AllShow(p.answers, file) && AllShow(p.direct, file)
    && (forall l :: Placed(p, l) ==> Covers(ranges, l))
    && (forall i, l :: i in p.cuts && Cut(p.cuts[i], l) ==> Placed(p, l))
    && (p.anchors == [] && p.answers == [] && p.direct == [] ==> p.cuts == map[])
  }

  datatype Lane = Anchors | Answers | Direct

  function AddTo(p: Placement, lane: Lane, r: SourceRange): Placement {
    match lane
    case Anchors => p.(anchors := MergeAdmissionRange(p.anchors, r))
    case Answers => p.(answers := MergeAdmissionRange(p.answers, r))
    case Direct => p.(direct := MergeAdmissionRange(p.direct, r))
  }

  function LaneOf(p: Placement, lane: Lane): seq<SourceRange> {
    match lane
    case Anchors => p.anchors
    case Answers => p.answers
    case Direct => p.direct
  }

  function CutAt(p: Placement, i: nat, r: SourceRange): Placement {
    p.(cuts := p.cuts[i := CutsAt(p, i) + [Interval(r.start, r.end)]])
  }

  lemma AddToKeeps(p: Placement, lane: Lane, r: SourceRange, ranges: seq<SourceRange>, file: seq<string>)
    requires PlacementOk(p, ranges, file) && Shows(r, file)
    requires forall l :: Within(r, l) ==> Covers(ranges, l)
    ensures PlacementOk(AddTo(p, lane, r), ranges, file)
    ensures forall l :: Placed(AddTo(p, lane, r), l) <==> Placed(p, l) || Within(r, l)
    ensures var q := AddTo(p, lane, r); q.anchors != [] || q.answers != [] || q.direct != []
    ensures forall l :: Covers(LaneOf(AddTo(p, lane, r), lane), l) <==> Covers(LaneOf(p, lane), l) || Within(r, l)
  {
    var q := AddTo(p, lane, r);
    match lane {
      case Anchors => MergeAdmissionConserves(p.anchors, r, file);
      case Answers => MergeAdmissionConserves(p.answers, r, file);
      case Direct => MergeAdmissionConserves(p.direct, r, file);
    }
    assert forall l :: Placed(q, l) <==> Placed(p, l) || Within(r, l);
    forall i, l | i in q.cuts && Cut(q.cuts[i], l)
      ensures Placed(q, l)
    {
      assert Placed(p, l);
    }
  }

  lemma CutAtKeeps(p: Placement, i: nat, r: SourceRange, ranges: seq<SourceRange>, file: seq<string>)
    requires PlacementOk(p, ranges, file)
    requires p.anchors != [] || p.answers != [] || p.direct != []
    requires forall l :: Within(r, l) ==> Placed(p, l)
    ensures PlacementOk(CutAt(p, i, r), ranges, file)
  {
    var q := CutAt(p, i, r);
    forall j, l | j in q.cuts && Cut(q.cuts[j], l)
      ensures Placed(q, l)
    {
      if j == i {
        CutSnoc(CutsAt(p, i), Interval(r.start, r.end), l);
        if !(r.start <= l <= r.end) {
          assert i in p.cuts && Cut(p.cuts[i], l);
        }
      }
      assert Placed(p, l);
    }
  }

  /** An excerpt that shows lines of the ranges. */
  ghost predicate IsExcerpt(r: SourceRange, ranges: seq<SourceRange>, file: seq<string>) {
    Shows(r, file) && forall l :: Within(r, l) ==> Covers(ranges, l)
  }

  /**
   `rs` carries exactly the lines of `before` and of `added`, credits exactly their ids to their bounds,
   and lists what is new behind what was there.
   */
  ghost predicate Gains(rs: seq<SourceRange>, before: seq<SourceRange>, added: seq<SourceRange>) {
    && Outlines(rs) == Joined(Outlines(before), added)
    && (forall l :: Covers(rs, l) <==> Covers(before, l) || Covers(added, l))
    && (forall start, end, id :: Credits(rs, start, end, id) <==>
          Credits(before, start, end, id) || Credits(added, start, end, id))
  }

  lemma GainsNone(rs: seq<SourceRange>)
    ensures Gains(rs, rs, [])
  {
  }

  lemma GainsOne(rs: seq<SourceRange>, r: SourceRange, file: seq<string>)
    requires AllShow(rs, file) && Shows(r, file)
    ensures Gains(MergeAdmissionRange(rs, r), rs, [r])
  {
    hide Shows, MergeAdmissionRange, Credits, CreditedAs;
    MergeKeepsPlaces(rs, r);
    OutlinesSpan(rs, r);
    JoinedOne(Outlines(rs), r);
    hide Outlines, Joined, HasSpan;
    MergeAdmissionConserves(rs, r, file);
    forall l { CoversOne(r, l); }
    forall start, end, id
      ensures Credits(MergeAdmissionRange(rs, r), start, end, id) <==>
                Credits(rs, start, end, id) || Credits([r], start, end, id)
    {
      MergeAdmissionCredits(rs, r, start, end, id);
      CreditsCons(r, [], start, end, id);
      assert [r] + [] == [r];
      NoCredits(start, end, id);
    }
  }

  lemma NoCredits(start: int, end: int, id: NodeId)
    ensures !Credits([], start, end, id)
  {
  }

  lemma GainsBoth(rs: seq<SourceRange>, mid: seq<SourceRange>, before: seq<SourceRange>, a: seq<SourceRange>, r: SourceRange)
    requires Gains(mid, before, a) && Gains(rs, mid, [r])
    ensures Gains(rs, before, a + [r])
  {
    hide Credits, Outlines;
    JoinedConcat(Outlines(before), a, [r]);
    hide Joined;
    forall l { CoversAppend(a, [r], l); }
    forall start, end, id
      ensures Credits(a + [r], start, end, id) <==> Credits(a, start, end, id) || Credits([r], start, end, id)
    {
      CreditsAppend(a, r, start, end, id);
    }
  }

  lemma CreditsAppend(a: seq<SourceRange>, r: SourceRange, start: int, end: int, id: NodeId)
    ensures Credits(a + [r], start, end, id) <==> Credits(a, start, end, id) || Credits([r], start, end, id)
  {
    if Credits(a, start, end, id) {
      var i :| 0 <= i < |a| && CreditedAs(a[i], start, end, id);
      assert (a + [r])[i] == a[i];
    }
    if Credits([r], start, end, id) {
      assert CreditedAs((a + [r])[|a|], start, end, id);
    }
    if Credits(a + [r], start, end, id) {
      var i :| 0 <= i < |a| + 1 && CreditedAs((a + [r])[i], start, end, id);
      assert i < |a| || CreditedAs([r][0], start, end, id);
    }
  }

  /** Some planned range carries the declaration line of `id`. */
  predicate Carried(id: NodeId, ranges: seq<SourceRange>, nodes: Nodes) {
    id in nodes && exists i :: 0 <= i < |ranges| && CarriesDeclarationLine(ranges[i], nodes[id])
  }

  ghost predicate CoversDeclaration(rs: seq<SourceRange>, node: Node) {
    forall l :: node.start <= l <= node.end ==> Covers(rs, l)
  }

  function AsSeq(r: Option<SourceRange>): seq<SourceRange> { if r.Some? then [r.value] else [] }

  /**
   The excerpts of one declaration are in their lanes and nothing else is: of a reserved one the
   complete excerpts, or else its anchor, among the answers; the complete excerpts of any other
   among the direct answers, save that the strongest file answers with the complete direct one; or
   else its anchor among the anchors. The excerpt put forward is cut from range `ri`.
   */
  ghost predicate ExcerptsPlaced(q: Placement, p: Placement, index: nat, ri: nat, reserved: bool, anchor: SourceRange,
                                 completeAnswer: Option<SourceRange>, completeDirect: Option<SourceRange>)
  {
    var whole := AsSeq(completeAnswer) + AsSeq(completeDirect);
    && q.cuts == CutAt(p, ri, (whole + [anchor])[0]).cuts
    && (if reserved then
          q.anchors == p.anchors && q.direct == p.direct && Gains(q.answers, p.answers, if whole == [] then [anchor] else whole)
        else if whole == [] then
          q.answers == p.answers && q.direct == p.direct && Gains(q.anchors, p.anchors, [anchor])
        else
          && q.anchors == p.anchors
          && Gains(q.direct, p.direct, if index == 0 then AsSeq(completeAnswer) else whole)
          && Gains(q.answers, p.answers, if index == 0 then AsSeq(completeDirect) else []))
  }

  /**
   Places one selected declaration; one that no range carries changes nothing. A reserved one
   becomes an answer, whole when possible; a flow or fallback declaration that can be shown whole
   becomes a direct answer (an answer, for the fallback of the strongest file); any other is an
   anchor: the whole range when it was looked up exactly, else its header.
   */
  method PlaceDeclaration(p: Placement, index: nat, id: NodeId, isFlow: bool, isDirect: bool, sel: Selection,
                          ranges: seq<SourceRange>, nodes: Nodes, ghost file: seq<string>)
    returns (q: Placement)
    requires PlacementOk(p, ranges, file) && AllShow(ranges, file) && NodesOk(nodes)
    ensures PlacementOk(q, ranges, file)
    ensures !Carried(id, ranges, nodes) ==> q == p
    ensures Carried(id, ranges, nodes) ==>
              var best := BestDeclarationRangeIndex(ranges, nodes[id]);
              && best.Some? && best.value < |ranges|
              && var range := ranges[best.value];
              var exact := id in sel.exactOrder;
              var whole := CompleteDeclarationRange(range, nodes[id]);
              ExcerptsPlaced(q, p, index, best.value, id in sel.reservedPrimary,
                             if exact then range else HeaderOr(range, Some(nodes[id])),
                             if isFlow && !exact then whole else None, if isDirect then whole else None)
    ensures forall l :: Covers(p.answers, l) ==> Covers(q.answers, l)
    ensures id in sel.reservedPrimary && Carried(id, ranges, nodes) ==> Covers(q.answers, nodes[id].start)
    ensures Completes(id, ranges, nodes) ==>
              if id in sel.reservedPrimary then
                isDirect || (isFlow && id !in sel.exactOrder) ==> CoversDeclaration(q.answers, nodes[id])
              else
                && (isFlow && id !in sel.exactOrder ==> CoversDeclaration(q.direct, nodes[id]))
                && (isDirect ==> CoversDeclaration(if index == 0 then q.answers else q.direct, nodes[id]))
  {
    if id !in nodes {
      return p;
    }
    var node := nodes[id];
    var best := BestDeclarationRangeIndex(ranges, node);
    if best.None? {
      return p;
    }
    var ri := best.value;
    var range := ranges[ri];
    assert Shows(range, file);
    var exact := id in sel.exactOrder;
    DeclarationAnchorIsHeader(range, node, SOURCE_DECLARATION_ANCHOR_LINES, file);
    CompleteDeclarationIsExact(range, node, file);
    var anchor := if exact then Some(range) else DeclarationAnchor(range, node, SOURCE_DECLARATION_ANCHOR_LINES);
    if anchor.None? {
      return p;
    }
    var completeAnswer := if !exact && isFlow then CompleteDeclarationRange(range, node) else None;
    var completeDirect := if isDirect then CompleteDeclarationRange(range, node) else None;
    assert forall l :: Within(range, l) ==> Within(ranges[ri], l);
    assert anchor.value == if exact then range else HeaderOr(range, Some(node));
    hide DeclarationAnchor, CompleteDeclarationRange, Shows, BestDeclarationRangeIndex, PlacementOk, HeaderOr;
    q := PlaceExcerpts(p, index, ri, id, anchor.value, completeAnswer, completeDirect, sel, ranges, file);
    PlacedKeeps(q, p, index, ri, id in sel.reservedPrimary, anchor.value, completeAnswer, completeDirect, node.start);
    WholeShown(q, p, index, ri, id in sel.reservedPrimary, anchor.value, completeAnswer, completeDirect, node);
  }

  lemma WholeShown(q: Placement, p: Placement, index: nat, ri: nat, reserved: bool, anchor: SourceRange,
                   completeAnswer: Option<SourceRange>, completeDirect: Option<SourceRange>, node: Node)
    requires ExcerptsPlaced(q, p, index, ri, reserved, anchor, completeAnswer, completeDirect)
    requires completeAnswer.Some? ==> forall l :: node.start <= l <= node.end ==> Within(completeAnswer.value, l)
    requires completeDirect.Some? ==> forall l :: node.start <= l <= node.end ==> Within(completeDirect.value, l)
    ensures completeAnswer.Some? ==> CoversDeclaration(if reserved then q.answers else q.direct, node)
    ensures completeDirect.Some? ==> CoversDeclaration(if reserved || index == 0 then q.answers else q.direct, node)
  {
    var whole := AsSeq(completeAnswer) + AsSeq(completeDirect);
    forall l | node.start <= l <= node.end
      ensures completeAnswer.Some? ==> Covers(AsSeq(completeAnswer), l) && Covers(whole, l)
      ensures completeDirect.Some? ==> Covers(AsSeq(completeDirect), l) && Covers(whole, l)
    {
      if completeAnswer.Some? {
        CoversOne(completeAnswer.value, l);
      }
      if completeDirect.Some? {
        CoversOne(completeDirect.value, l);
      }
      CoversAppend(AsSeq(completeAnswer), AsSeq(completeDirect), l);
    }
  }

  lemma PlacedKeeps(q: Placement, p: Placement, index: nat, ri: nat, reserved: bool, anchor: SourceRange,
                    completeAnswer: Option<SourceRange>, completeDirect: Option<SourceRange>, l: int)
    requires ExcerptsPlaced(q, p, index, ri, reserved, anchor, completeAnswer, completeDirect)
    requires Within(anchor, l)
    requires completeAnswer.Some? ==> Within(completeAnswer.value, l)
    requires completeDirect.Some? ==> Within(completeDirect.value, l)
    ensures forall x :: Covers(p.answers, x) ==> Covers(q.answers, x)
    ensures reserved ==> Covers(q.answers, l)
  {
    var whole := AsSeq(completeAnswer) + AsSeq(completeDirect);
    var added := if whole == [] then [anchor] else whole;
    assert Within(added[0], l);
    assert Covers(added, l);
  }

  /** Puts the excerpts of one declaration into their lanes and cuts the consumed lines. */
  method PlaceExcerpts(p: Placement, index: nat, ri: nat, id: NodeId, anchor: SourceRange,
                       completeAnswer: Option<SourceRange>, completeDirect: Option<SourceRange>,
                       sel: Selection, ghost ranges: seq<SourceRange>, ghost file: seq<string>)
    returns (q: Placement)
    requires PlacementOk(p, ranges, file)
    requires IsExcerpt(anchor, ranges, file)
    requires completeAnswer.Some? ==> IsExcerpt(completeAnswer.value, ranges, file)
    requires completeDirect.Some? ==> IsExcerpt(completeDirect.value, ranges, file)
    ensures PlacementOk(q, ranges, file)
    ensures ExcerptsPlaced(q, p, index, ri, id in sel.reservedPrimary, anchor, completeAnswer, completeDirect)
  {
    hide Shows, PlacementOk, Covers, Gains;
    assert forall x: Placement :: LaneOf(x, Anchors) == x.anchors && LaneOf(x, Answers) == x.answers && LaneOf(x, Direct) == x.direct;
    GainsNone(p.answers);
    GainsNone(p.direct);
    var consumed: SourceRange;
    if completeAnswer.None? && completeDirect.None? {
      consumed := anchor;
      q := PutInto(p, if id in sel.reservedPrimary then Answers else Anchors, anchor, ranges, file);
    } else {
      q := p;
      if completeAnswer.Some? {
        q := PutInto(q, if id in sel.reservedPrimary then Answers else Direct, completeAnswer.value, ranges, file);
      }
      ghost var mid := q;
      if completeDirect.Some? {
        var lane := if id in sel.reservedPrimary || index == 0 then Answers else Direct;
        q := PutInto(q, lane, completeDirect.value, ranges, file);
        if lane == Answers {
          GainsBoth(q.answers, mid.answers, p.answers, if id in sel.reservedPrimary then AsSeq(completeAnswer) else [], completeDirect.value);
        } else {
          GainsBoth(q.direct, mid.direct, p.direct, AsSeq(completeAnswer), completeDirect.value);
        }
      }
      consumed := if completeAnswer.Some? then completeAnswer.value else completeDirect.value;
    }
    assert AsSeq(completeAnswer) + [] == AsSeq(completeAnswer) && [] + AsSeq(completeDirect) == AsSeq(completeDirect);
    CutAtKeeps(q, ri, consumed, ranges, file);
    q := CutAt(q, ri, consumed);
  }

  /** Adds an excerpt to one lane; the other lanes and the cuts stay. */
  method PutInto(p: Placement, lane: Lane, r: SourceRange, ghost ranges: seq<SourceRange>, ghost file: seq<string>)
    returns (q: Placement)
    requires PlacementOk(p, ranges, file) && IsExcerpt(r, ranges, file)
    ensures PlacementOk(q, ranges, file)
    ensures Gains(LaneOf(q, lane), LaneOf(p, lane), [r])
    ensures forall other :: other != lane ==> LaneOf(q, other) == LaneOf(p, other)
    ensures q.cuts == p.cuts
    ensures q.anchors != [] || q.answers != [] || q.direct != []
    ensures forall l :: Placed(q, l) <==> Placed(p, l) || Within(r, l)
  {
    AddToKeeps(p, lane, r, ranges, file);
    GainsOne(LaneOf(p, lane), r, file);
    hide MergeAdmissionRange, Gains;
    q := AddTo(p, lane, r);
  }

  /** A file without any selected declaration still puts its first excerpt forward. */
  method PlaceFallback(index: nat, ranges: seq<SourceRange>, nodes: Nodes, ghost file: seq<string>)
    returns (q: Placement)
    requires ranges != [] && AllShow(ranges, file) && NodesOk(nodes)
    ensures PlacementOk(q, ranges, file) && (q.anchors != [] || q.answers != [] || q.direct != [])
    ensures var node := FirstKnown(ranges[0].nodeIds, nodes);
            var whole := if index == 0 && node.Some? then CompleteDeclarationRange(ranges[0], node.value) else None;
            var excerpt := if whole.Some? then whole.value else HeaderOr(ranges[0], node);
            var cuts: map<nat, seq<Interval>> := map[0 := [Interval(excerpt.start, excerpt.end)]];
            q == if whole.Some? then Placement([], [], [excerpt], cuts) else Placement([excerpt], [], [], cuts)
  {
    var range := ranges[0];
    assert Shows(range, file);
    hide DeclarationAnchor, CompleteDeclarationRange, Shows, HeaderOr, PlacementOk;
    var node: Option<Node> := None;
    assert range.nodeIds[0..] == range.nodeIds;
    for k := 0 to |range.nodeIds|
      invariant node.None? && FirstKnown(range.nodeIds, nodes) == FirstKnown(range.nodeIds[k..], nodes)
    {
      assert range.nodeIds[k..][1..] == range.nodeIds[k + 1..];
      if range.nodeIds[k] in nodes {
        node := Some(nodes[range.nodeIds[k]]);
        break;
      }
    }
    assert node == FirstKnown(range.nodeIds, nodes);
    hide FirstKnown;
    var complete := None;
    var fallback := HeaderOr(range, node);
    HeaderShows(range, node, file);
    if node.Some? && index == 0 {
      complete := CompleteDeclarationRange(range, node.value);
      if complete.Some? {
        assert node.value.start <= node.value.end by { FirstKnownOk(range.nodeIds, nodes); }
        CompleteDeclarationIsExact(range, node.value, file);
      }
    }
    var consumed := if complete.Some? then complete.value else fallback;
    FallbackOk(consumed, complete.Some?, ranges, file);
    var cuts: map<nat, seq<Interval>> := map[0 := [Interval(consumed.start, consumed.end)]];
    q := if complete.Some? then Placement([], [], [consumed], cuts) else Placement([consumed], [], [], cuts);
  }

  /** The header of a declaration, or the excerpt in its place, lies inside the excerpt and shows the file. */
  lemma HeaderShows(r: SourceRange, node: Option<Node>, file: seq<string>)
    requires Shows(r, file)
    ensures Shows(HeaderOr(r, node), file) && Contains(r, HeaderOr(r, node))
  {
    hide DeclarationAnchor;
    if node.Some? {
      DeclarationAnchorIsHeader(r, node.value, SOURCE_DECLARATION_ANCHOR_LINES, file);
      var a := DeclarationAnchor(r, node.value, SOURCE_DECLARATION_ANCHOR_LINES);
      if a.Some? {
        assert Within(a.value, a.value.start) && Within(a.value, a.value.end);
      }
    }
  }

  lemma {:induction false} FirstKnownOk(ids: seq<NodeId>, nodes: Nodes)
    requires NodesOk(nodes)
    ensures var node := FirstKnown(ids, nodes); node.Some? ==> node.value.start <= node.value.end
  {
    if ids != [] && ids[0] !in nodes {
      FirstKnownOk(ids[1..], nodes);
    }
  }

  lemma FallbackOk(consumed: SourceRange, whole: bool, ranges: seq<SourceRange>, file: seq<string>)
    requires ranges != [] && Shows(consumed, file) && Contains(ranges[0], consumed)
    ensures var cuts: map<nat, seq<Interval>> := map[0 := [Interval(consumed.start, consumed.end)]];
            PlacementOk(if whole then Placement([], [], [consumed], cuts) else Placement([consumed], [], [], cuts), ranges, file)
  {
    hide Shows;
    forall l
      ensures Covers([consumed], l) <==> Within(consumed, l)
      ensures Within(consumed, l) ==> Within(ranges[0], l)
      ensures Cut([Interval(consumed.start, consumed.end)], l) <==> Within(consumed, l)
    {
      CoversOne(consumed, l);
      CutOneInterval(consumed.start, consumed.end, l);
    }
  }

  function FirstKnown(ids: seq<NodeId>, nodes: Nodes): Option<Node> {
    if ids == [] then None else if ids[0] in nodes then Some(nodes[ids[0]]) else FirstKnown(ids[1..], nodes)
  }
}
