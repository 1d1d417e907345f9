/** Cutting excerpts by what earlier ones carry, which are credited with what they cover (src/graph/agent.rs). */
module RangeCuts {
  import opened Prelude
  import opened SourceRanges

  /** The declaration of `id` has a line among `start .. end`; an unknown id is taken to have one anywhere. */
  predicate Meets(id: NodeId, start: int, end: int, nodes: Nodes) {
    id in nodes ==> nodes[id].start <= end && nodes[id].end >= start
  }

  /** The lines `start .. end` of `r` stand for `id`: they are all of `r`, or the declaration has one of them. */
  predicate StandsFor(id: NodeId, r: SourceRange, start: int, end: int, nodes: Nodes) {
    id in r.nodeIds && ((start == r.start && end == r.end) || Meets(id, start, end, nodes))
  }

  /** A piece keeps why its range was planned, and says that it is cut when it is. */
  predicate Labelled(p: SourceRange, r: SourceRange) {
    p.reason == r.reason && (p.truncated <==> r.truncated || !SameSpan(p, r))
  }

  /** `p` is a piece of `r`: `r` itself, or what is left of it with the ids whose declarations it meets. */
  ghost predicate Part(p: SourceRange, r: SourceRange, nodes: Nodes) {
    && r.start <= p.start <= p.end <= r.end && Labelled(p, r)
    && forall id :: id in p.nodeIds <==> StandsFor(id, r, p.start, p.end, nodes)
  }

  ghost predicate AreParts(ps: seq<SourceRange>, r: SourceRange, nodes: Nodes) {
    forall i :: 0 <= i < |ps| ==> Part(ps[i], r, nodes)
  }

  lemma PartOfPart(p: SourceRange, q: SourceRange, r: SourceRange, nodes: Nodes)
    requires Part(p, q, nodes) && Part(q, r, nodes)
    ensures Part(p, r, nodes)
  {
  }

  predicate DeclaredInside(id: NodeId, prior: SourceRange, nodes: Nodes) {
    id in nodes && prior.start <= nodes[id].start && prior.end >= nodes[id].end
  }

  /** The ids of `r` whose declaration lies inside `prior`. */
  function CoveredIds(ids: seq<NodeId>, prior: SourceRange, nodes: Nodes): (r: seq<NodeId>)
    ensures forall id :: id in r <==> id in ids && DeclaredInside(id, prior, nodes)
  {
    if ids == [] then []
    else
      assert ids == [ids[0]] + ids[1..];
      var rest := CoveredIds(ids[1..], prior, nodes);
      if DeclaredInside(ids[0], prior, nodes) then [ids[0]] + rest else rest
  }

  /** `prior` is credited with `id`: `r` carries the id and `prior` carries all of `r` or all of its declaration. */
  predicate Credited(id: NodeId, r: SourceRange, prior: SourceRange, nodes: Nodes) {
    id in r.nodeIds && RangesOverlap(prior, r) && (Contains(prior, r) || DeclaredInside(id, prior, nodes))
  }

  predicate SameButIds(a: SourceRange, b: SourceRange) { a == b.(nodeIds := a.nodeIds) }

  /** What remains of `r` beside `prior`, and `prior` with its new credits. */
  method CutOne(r: SourceRange, prior: SourceRange, nodes: Nodes, ghost file: seq<string>)
    returns (pieces: seq<SourceRange>, prior': SourceRange)
    requires Shows(r, file) && prior.start <= prior.end
    ensures AllShow(pieces, file) && Separated(pieces) && AreParts(pieces, r, nodes)
    ensures forall i :: 0 <= i < |pieces| ==> r.start <= pieces[i].start <= pieces[i].end <= r.end
    ensures forall l :: Covers(pieces, l) <==> Within(r, l) && !Within(prior, l)
    ensures SameButIds(prior', prior)
    ensures forall id :: id in prior'.nodeIds <==> id in prior.nodeIds || Credited(id, r, prior, nodes)
  {
    prior' := prior;
    if !RangesOverlap(prior, r) {
      pieces := [r];
      forall l { CoversOne(r, l); }
    } else if Contains(prior, r) {
      prior' := prior.(nodeIds := UnionIds(prior.nodeIds, r.nodeIds));
      pieces := [];
    } else {
      prior' := prior.(nodeIds := UnionIds(prior.nodeIds, CoveredIds(r.nodeIds, prior, nodes)));
      pieces := SubtractIntervals(r, [Interval(prior.start, prior.end)], nodes, file);
      forall l
        ensures Cut([Interval(prior.start, prior.end)], l) <==> Within(prior, l)
      {
        CutSnoc([], Interval(prior.start, prior.end), l);
        assert [] + [Interval(prior.start, prior.end)] == [Interval(prior.start, prior.end)];
      }
      var shared := Max(r.start, prior.start);
      forall i | 0 <= i < |pieces|
        ensures Part(pieces[i], r, nodes)
      {
        assert IsPiece(pieces[i], r, nodes);
        assert Within(prior, shared) && !Covers(pieces, shared);
      }
    }
  }

  ghost predicate CreditedByAny(id: NodeId, rs: seq<SourceRange>, prior: SourceRange, nodes: Nodes) {
    exists k :: 0 <= k < |rs| && Credited(id, rs[k], prior, nodes)
  }

  lemma CreditedSnoc(id: NodeId, rs: seq<SourceRange>, r: SourceRange, prior: SourceRange, nodes: Nodes)
    ensures CreditedByAny(id, rs + [r], prior, nodes) <==> CreditedByAny(id, rs, prior, nodes) || Credited(id, r, prior, nodes)
  {
    if CreditedByAny(id, rs, prior, nodes) {
      var k :| 0 <= k < |rs| && Credited(id, rs[k], prior, nodes);
      assert (rs + [r])[k] == rs[k];
    }
    if Credited(id, r, prior, nodes) {
      assert (rs + [r])[|rs|] == r;
    }
  }

  /** All pending pieces cut by one earlier excerpt of the same file. */
  method CutByPrior(pending: seq<SourceRange>, prior: SourceRange, nodes: Nodes, ghost whole: SourceRange, ghost file: seq<string>)
    returns (next: seq<SourceRange>, prior': SourceRange)
    requires AllShow(pending, file) && Separated(pending) && AreParts(pending, whole, nodes)
    requires prior.start <= prior.end
    ensures AllShow(next, file) && Separated(next) && AreParts(next, whole, nodes)
    ensures forall l :: Covers(next, l) <==> Covers(pending, l) && !Within(prior, l)
    ensures SameButIds(prior', prior)
    ensures forall id :: id in prior'.nodeIds <==> id in prior.nodeIds || CreditedByAny(id, pending, prior, nodes)
  {
    assert forall i :: 0 <= i < |pending| ==> pending[i].start <= pending[i].end;
    hide Part, Shows;
    next := [];
    prior' := prior;
    for k := 0 to |pending|
      invariant AllShow(next, file) && Separated(next) && AreParts(next, whole, nodes)
      invariant k == 0 ==> next == []
      invariant forall i :: 0 <= i < |next| ==> next[i].end <= pending[k - 1].end
      invariant forall l :: Covers(next, l) <==> Covers(pending[..k], l) && !Within(prior, l)
      invariant SameButIds(prior', prior)
      invariant forall id :: id in prior'.nodeIds <==> id in prior.nodeIds || CreditedByAny(id, pending[..k], prior, nodes)
    {
      var r := pending[k];
      ghost var before, credit := next, prior'.nodeIds;
      var pieces;
      pieces, prior' := CutOne(r, prior', nodes, file);
      forall i | 0 <= i < |pieces|
        ensures Part(pieces[i], whole, nodes)
      {
        PartOfPart(pieces[i], r, whole, nodes);
      }
      next := next + pieces;
      TakeSnoc(pending, k);
      forall l
        ensures Covers(next, l) <==> Covers(pending[..k + 1], l) && !Within(prior, l)
      {
        CoversAppend(before, pieces, l);
        CoversAppend(pending[..k], [r], l);
        CoversOne(r, l);
      }
      forall id
        ensures id in prior'.nodeIds <==> id in prior.nodeIds || CreditedByAny(id, pending[..k + 1], prior, nodes)
      {
        CreditedSnoc(id, pending[..k], r, prior, nodes);
      }
    }
    TakeAll(pending);
  }
}
