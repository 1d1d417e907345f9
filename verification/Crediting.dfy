/**
 Which excerpt is credited with which node id when later requests lose the lines that earlier ones
 already carry (src/graph/agent.rs).
 */
module Crediting {
  import opened Prelude
  import opened SourceRanges
  import opened Admissions
  import opened Entries
  import opened RangeCuts

  /** `start .. end` is a longest run of lines of `r` that are not taken. */
  ghost predicate Gap(r: SourceRange, taken: iset<int>, start: int, end: int) {
    && r.start <= start <= end <= r.end
    && (forall l :: start <= l <= end ==> l !in taken)
    && (start == r.start || start - 1 in taken)
    && (end == r.end || end + 1 in taken)
  }

  /**
   `prior` is credited with `id` when it cuts `r` of which some lines are taken: of a run that still
   stands for the id, `prior` carries the whole, or it meets the run and carries the declaration.
   */
  ghost predicate Earns(id: NodeId, r: SourceRange, taken: iset<int>, prior: SourceRange, nodes: Nodes) {
    exists start, end :: Gap(r, taken, start, end) && EarnsBy(id, r, start, end, prior, nodes)
  }

  ghost predicate EarnsBy(id: NodeId, r: SourceRange, start: int, end: int, prior: SourceRange, nodes: Nodes) {
    && StandsFor(id, r, start, end, nodes)
    && prior.start <= end && start <= prior.end
    && ((prior.start <= start && end <= prior.end) || DeclaredInside(id, prior, nodes))
  }

  /** `pending` is what is left of `r` beside the taken lines. */
  ghost predicate Left(pending: seq<SourceRange>, r: SourceRange, taken: iset<int>, nodes: Nodes) {
    && Separated(pending) && AreParts(pending, r, nodes)
    && forall l :: Covers(pending, l) <==> Within(r, l) && l !in taken
  }

  lemma LeftIsGap(pending: seq<SourceRange>, r: SourceRange, taken: iset<int>, nodes: Nodes, k: nat)
    requires Left(pending, r, taken, nodes) && k < |pending|
    ensures Gap(r, taken, pending[k].start, pending[k].end)
  {
    var p := pending[k];
    assert Part(p, r, nodes);
    forall l | p.start <= l <= p.end
      ensures l !in taken
    {
      assert Within(pending[k], l);
      assert Covers(pending, l);
    }
    assert !Covers(pending, p.start - 1) && !Covers(pending, p.end + 1);
  }

  lemma GapIsLeft(pending: seq<SourceRange>, r: SourceRange, taken: iset<int>, nodes: Nodes, start: int, end: int)
    returns (k: nat)
    requires Left(pending, r, taken, nodes) && Gap(r, taken, start, end)
    ensures k < |pending| && pending[k].start == start && pending[k].end == end
  {
    assert Covers(pending, start);
    k :| 0 <= k < |pending| && Within(pending[k], start);
    LeftIsGap(pending, r, taken, nodes, k);
  }

  lemma EarnsIsCredited(pending: seq<SourceRange>, r: SourceRange, taken: iset<int>, prior: SourceRange, nodes: Nodes, id: NodeId)
    requires Left(pending, r, taken, nodes)
    ensures CreditedByAny(id, pending, prior, nodes) <==> Earns(id, r, taken, prior, nodes)
  {
    hide Separated;
    if CreditedByAny(id, pending, prior, nodes) {
      var k :| 0 <= k < |pending| && Credited(id, pending[k], prior, nodes);
      LeftIsGap(pending, r, taken, nodes, k);
      assert Part(pending[k], r, nodes);
      assert EarnsBy(id, r, pending[k].start, pending[k].end, prior, nodes);
    }
    if Earns(id, r, taken, prior, nodes) {
      var start, end :| Gap(r, taken, start, end) && EarnsBy(id, r, start, end, prior, nodes);
      var k := GapIsLeft(pending, r, taken, nodes, start, end);
      assert Part(pending[k], r, nodes);
      assert Credited(id, pending[k], prior, nodes);
    }
  }

  /** Once nothing is left nobody is credited any more. */
  lemma NothingLeft(r: SourceRange, taken: iset<int>, more: iset<int>, prior: SourceRange, nodes: Nodes, id: NodeId)
    requires Left([], r, taken, nodes) && taken <= more
    ensures !Earns(id, r, more, prior, nodes)
  {
    forall start, end
      ensures !Gap(r, more, start, end)
    {
      assert !Covers([], start);
    }
  }

  lemma TakenGrows(out: seq<Entry>, j: nat, i: nat, plans: seq<SourcePlan>, file: string)
    requires j <= i <= |out|
    ensures TakenLines(out[..j], plans, file) <= TakenLines(out[..i], plans, file)
  {
    forall l
      ensures Taken(out[..j], plans, file, l) ==> Taken(out[..i], plans, file, l)
    {
      TakenMembers(out[..j], out[..i], plans, file, l);
    }
  }

  /** Entry `i` of `out` after `e` was cut: as before, and credited with exactly the ids it earned. */
  ghost predicate RecreditedAt(x: Entry, out: seq<Entry>, i: nat, e: Entry, plans: seq<SourcePlan>, nodes: Nodes)
    requires i < |out| && e.adm.plan < |plans| && out[i].adm.plan < |plans|
  {
    var file := plans[e.adm.plan].file;
    && x.adm == out[i].adm && x.order == out[i].order && SameButIds(x.range, out[i].range)
    && forall id :: id in x.range.nodeIds <==>
         || id in out[i].range.nodeIds
         || (plans[out[i].adm.plan].file == file && Earns(id, e.range, TakenLines(out[..i], plans, file), out[i].range, nodes))
  }

  /** The same entries up to the ids their excerpts are credited with, which only grow. */
  ghost predicate Recredited(out': seq<Entry>, out: seq<Entry>, e: Entry, plans: seq<SourcePlan>, nodes: Nodes) {
    && |out'| == |out| && e.adm.plan < |plans|
    && forall i :: 0 <= i < |out| ==> out[i].adm.plan < |plans| && RecreditedAt(out'[i], out, i, e, plans, nodes)
  }

  ghost predicate PlansKnown(es: seq<Entry>, plans: seq<SourcePlan>) {
    forall i :: 0 <= i < |es| ==> es[i].adm.plan < |plans|
  }

  /** `e` is cut by the first `j` entries of `out`. */
  ghost predicate CutSoFar(pending: seq<SourceRange>, out': seq<Entry>, e: Entry, out: seq<Entry>, j: nat,
                           plans: seq<SourcePlan>, nodes: Nodes) {
    && e.adm.plan < |plans| && PlansKnown(out, plans) && j <= |out| == |out'|
    && Left(pending, e.range, TakenLines(out[..j], plans, plans[e.adm.plan].file), nodes)
    && (forall i :: 0 <= i < j ==> RecreditedAt(out'[i], out, i, e, plans, nodes))
    && (forall i :: j <= i < |out| ==> out'[i] == out[i])
  }

  lemma NothingCut(e: Entry, out: seq<Entry>, plans: seq<SourcePlan>, nodes: Nodes)
    requires e.adm.plan < |plans| && PlansKnown(out, plans) && e.range.start <= e.range.end
    ensures CutSoFar([e.range], out, e, out, 0, plans, nodes)
  {
    forall l { CoversOne(e.range, l); }
    assert out[..0] == [];
  }

  /** An entry of another file cuts nothing and earns nothing. */
  lemma OtherFile(pending: seq<SourceRange>, out': seq<Entry>, e: Entry, out: seq<Entry>, j: nat,
                  plans: seq<SourcePlan>, nodes: Nodes)
    requires CutSoFar(pending, out', e, out, j, plans, nodes) && j < |out|
    requires plans[out[j].adm.plan].file != plans[e.adm.plan].file
    ensures CutSoFar(pending, out', e, out, j + 1, plans, nodes)
  {
    hide Earns, Part, Separated;
    TakeSnoc(out, j);
    forall l
      ensures Taken(out[..j + 1], plans, plans[e.adm.plan].file, l) <==> Taken(out[..j], plans, plans[e.adm.plan].file, l)
    {
      TakenSnoc(out[..j], out[j], plans, plans[e.adm.plan].file, l);
    }
  }

  lemma CutOnce(pending: seq<SourceRange>, out': seq<Entry>, e: Entry, out: seq<Entry>, j: nat,
                next: seq<SourceRange>, prior': SourceRange, plans: seq<SourcePlan>, nodes: Nodes)
    requires CutSoFar(pending, out', e, out, j, plans, nodes) && j < |out|
    requires plans[out[j].adm.plan].file == plans[e.adm.plan].file
    requires Separated(next) && AreParts(next, e.range, nodes) && SameButIds(prior', out[j].range)
    requires forall l :: Covers(next, l) <==> Covers(pending, l) && !Within(out[j].range, l)
    requires forall id :: id in prior'.nodeIds <==>
               id in out[j].range.nodeIds || CreditedByAny(id, pending, out[j].range, nodes)
    ensures CutSoFar(next, out'[j := out'[j].(range := prior')], e, out, j + 1, plans, nodes)
  {
    var file := plans[e.adm.plan].file;
    hide Earns, Part, Separated;
    TakeSnoc(out, j);
    forall l
      ensures Covers(next, l) <==> Within(e.range, l) && !Taken(out[..j + 1], plans, file, l)
    {
      TakenSnoc(out[..j], out[j], plans, file, l);
    }
    var x := out'[j].(range := prior');
    forall id
      ensures id in prior'.nodeIds <==>
                id in out[j].range.nodeIds || Earns(id, e.range, TakenLines(out[..j], plans, file), out[j].range, nodes)
    {
      EarnsIsCredited(pending, e.range, TakenLines(out[..j], plans, file), out[j].range, nodes, id);
    }
    assert RecreditedAt(x, out, j, e, plans, nodes);
  }

  lemma CutThrough(out': seq<Entry>, e: Entry, out: seq<Entry>, j: nat, plans: seq<SourcePlan>, nodes: Nodes)
    requires CutSoFar([], out', e, out, j, plans, nodes)
    ensures CutSoFar([], out', e, out, |out|, plans, nodes)
  {
    var file := plans[e.adm.plan].file;
    forall i | j <= i < |out|
      ensures RecreditedAt(out'[i], out, i, e, plans, nodes)
    {
      TakenGrows(out, j, i, plans, file);
      forall id
        ensures !Earns(id, e.range, TakenLines(out[..i], plans, file), out[i].range, nodes)
      {
        NothingLeft(e.range, TakenLines(out[..j], plans, file), TakenLines(out[..i], plans, file), out[i].range, nodes, id);
      }
    }
    TakeAll(out);
    forall l | Within(e.range, l)
      ensures Taken(out, plans, file, l)
    {
      assert !Covers([], l);
      TakenMembers(out[..j], out, plans, file, l);
    }
  }

  lemma CutAll(pending: seq<SourceRange>, out': seq<Entry>, e: Entry, out: seq<Entry>, plans: seq<SourcePlan>, nodes: Nodes)
    requires CutSoFar(pending, out', e, out, |out|, plans, nodes)
    ensures Recredited(out', out, e, plans, nodes)
    ensures Left(pending, e.range, TakenLines(out, plans, plans[e.adm.plan].file), nodes)
  {
    TakeAll(out);
  }

  lemma GapStart(r: SourceRange, taken: iset<int>, l: int) returns (start: int)
    requires Within(r, l) && l !in taken
    ensures r.start <= start <= l && forall x :: start <= x <= l ==> x !in taken
    ensures start == r.start || start - 1 in taken
    decreases l - r.start
  {
    if l == r.start || l - 1 in taken {
      start := l;
    } else {
      start := GapStart(r, taken, l - 1);
    }
  }

  lemma GapEnd(r: SourceRange, taken: iset<int>, l: int) returns (end: int)
    requires Within(r, l) && l !in taken
    ensures l <= end <= r.end && forall x :: l <= x <= end ==> x !in taken
    ensures end == r.end || end + 1 in taken
    decreases r.end - l
  {
    if l == r.end || l + 1 in taken {
      end := l;
    } else {
      end := GapEnd(r, taken, l + 1);
    }
  }

  /** A line that is not taken lies in a gap. */
  lemma GapAround(r: SourceRange, taken: iset<int>, l: int) returns (start: int, end: int)
    requires Within(r, l) && l !in taken
    ensures Gap(r, taken, start, end) && start <= l <= end
  {
    start := GapStart(r, taken, l);
    end := GapEnd(r, taken, l);
  }
}
