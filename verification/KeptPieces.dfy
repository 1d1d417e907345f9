/**
 What is kept of each request and the ids it is credited with, told from the requests alone
 (src/graph/agent.rs).
 */
module KeptPieces {
  import opened Prelude
  import opened SourceRanges
  import opened Admissions
  import opened Entries
  import opened RangeCuts
  import opened Crediting

  /** The lines of its file that the requests before request `j` ask for. */
  ghost function TakenBefore(rs: seq<Entry>, plans: seq<SourcePlan>, j: nat): iset<int>
    requires j < |rs| && PlansKnown(rs, plans)
  {
    TakenLines(rs[..j], plans, plans[rs[j].adm.plan].file)
  }

  /** `start .. end` is a piece of request `j`: a longest run of lines no request before it asks for. */
  ghost predicate Piece(rs: seq<Entry>, plans: seq<SourcePlan>, j: nat, start: int, end: int) {
    j < |rs| && PlansKnown(rs, plans) && Gap(rs[j].range, TakenBefore(rs, plans, j), start, end)
  }

  /** The lines of its file that are kept ahead of the piece of request `j` that begins at `start`. */
  ghost function KeptAhead(rs: seq<Entry>, plans: seq<SourcePlan>, j: nat, start: int): iset<int>
    requires j < |rs| && PlansKnown(rs, plans)
  {
    TakenBefore(rs, plans, j) + iset l | Within(rs[j].range, l) && l < start
  }

  /** The later request `k` credits the piece with `id`. */
  ghost predicate EarnsFrom(id: NodeId, rs: seq<Entry>, plans: seq<SourcePlan>, nodes: Nodes,
                            j: nat, start: int, end: int, k: nat) {
    && j < k < |rs| && PlansKnown(rs, plans) && SameFile(rs[k], rs[j], plans)
    && Earns(id, rs[k].range, KeptAhead(rs, plans, j, start), rs[j].range.(start := start, end := end), nodes)
  }

  /** The piece stands for `id`, or one of the first `n` requests credits it. */
  ghost predicate CreditedTo(id: NodeId, rs: seq<Entry>, plans: seq<SourcePlan>, nodes: Nodes,
                             j: nat, start: int, end: int, n: nat) {
    && j < |rs|
    && (StandsFor(id, rs[j].range, start, end, nodes)
        || exists k: nat :: k < n && EarnsFrom(id, rs, plans, nodes, j, start, end, k))
  }

  /** `o` carries a piece of request `j`, and is atomic when the request is and nothing of it was cut. */
  ghost predicate IsPieceOf(o: Entry, rs: seq<Entry>, plans: seq<SourcePlan>, j: nat) {
    && Piece(rs, plans, j, o.range.start, o.range.end)
    && o.adm.plan == rs[j].adm.plan && o.adm.phase == rs[j].adm.phase && o.order == rs[j].order
    && (o.adm.atomic <==> rs[j].adm.atomic && SameSpan(o.range, rs[j].range)) && Labelled(o.range, rs[j].range)
  }

  /** The ids of `o` are those the first `n` requests credit its piece with. */
  ghost predicate HasCredits(o: Entry, rs: seq<Entry>, plans: seq<SourcePlan>, nodes: Nodes, j: nat, n: nat) {
    forall id :: id in o.range.nodeIds <==> CreditedTo(id, rs, plans, nodes, j, o.range.start, o.range.end, n)
  }

  ghost predicate TracedAt(out: seq<Entry>, i: nat, j: nat, rs: seq<Entry>, n: nat, plans: seq<SourcePlan>, nodes: Nodes)
    requires i < |out| && n <= |rs| && PlansKnown(rs, plans)
  {
    && j < n && IsPieceOf(out[i], rs, plans, j) && HasCredits(out[i], rs, plans, nodes, j, n)
    && TakenLines(out[..i], plans, plans[rs[j].adm.plan].file) == KeptAhead(rs, plans, j, out[i].range.start)
  }

  ghost predicate KeptAs(out: seq<Entry>, from: seq<nat>, j: nat, start: int, end: int)
    requires |from| == |out|
  {
    exists i :: 0 <= i < |out| && from[i] == j && out[i].range.start == start && out[i].range.end == end
  }

  /** `out` holds the pieces of the first `n` requests, each with its credits; `from` tells whose they are. */
  ghost predicate Traced(out: seq<Entry>, from: seq<nat>, rs: seq<Entry>, n: nat, plans: seq<SourcePlan>, nodes: Nodes) {
    && n <= |rs| && PlansKnown(rs, plans) && |from| == |out|
    && (forall i :: 0 <= i < |out| ==> TracedAt(out, i, from[i], rs, n, plans, nodes))
    && (forall j: nat, start, end :: j < n && Piece(rs, plans, j, start, end) ==> KeptAs(out, from, j, start, end))
  }

  /** `es` are the pieces of `e` beside the taken lines, in order, each with the ids it stands for. */
  ghost predicate PiecesOf(es: seq<Entry>, e: Entry, taken: iset<int>, nodes: Nodes) {
    && (forall x :: 0 <= x < |es| ==> PieceOf(es[x], e, taken, nodes))
    && (forall x, y :: 0 <= x < y < |es| ==> es[x].range.end < es[y].range.start)
    && (forall start, end :: Gap(e.range, taken, start, end) ==> HasPiece(es, start, end))
  }

  ghost predicate PieceOf(o: Entry, e: Entry, taken: iset<int>, nodes: Nodes) {
    && Gap(e.range, taken, o.range.start, o.range.end) && Part(o.range, e.range, nodes)
    && o.adm.plan == e.adm.plan && o.adm.phase == e.adm.phase && o.order == e.order
    && (o.adm.atomic <==> e.adm.atomic && SameSpan(o.range, e.range))
  }

  ghost predicate HasPiece(es: seq<Entry>, start: int, end: int) {
    exists x :: 0 <= x < |es| && es[x].range.start == start && es[x].range.end == end
  }

  /** The entries ahead of a new piece hold what the earlier requests took and the lines of its own before it. */
  lemma AheadOfPiece(out: seq<Entry>, es: seq<Entry>, x: nat, rs: seq<Entry>, n: nat, plans: seq<SourcePlan>, nodes: Nodes)
    requires n < |rs| && PlansKnown(rs, plans) && x < |es|
    requires PiecesOf(es, rs[n], TakenBefore(rs, plans, n), nodes)
    requires TakenLines(out, plans, plans[rs[n].adm.plan].file) == TakenBefore(rs, plans, n)
    ensures TakenLines((out + es)[..|out| + x], plans, plans[rs[n].adm.plan].file) == KeptAhead(rs, plans, n, es[x].range.start)
  {
    var e, file, taken := rs[n], plans[rs[n].adm.plan].file, TakenBefore(rs, plans, n);
    assert (out + es)[..|out| + x] == out + es[..x];
    forall l
      ensures Taken(out + es[..x], plans, file, l) <==> l in KeptAhead(rs, plans, n, es[x].range.start)
    {
      TakenAppend(out, es[..x], plans, file, l);
      assert l in taken <==> Taken(out, plans, file, l);
      PiecesBefore(es, x, e, plans, taken, nodes, l);
    }
  }

  /** The pieces before another hold the free lines before it. */
  lemma PiecesBefore(es: seq<Entry>, x: nat, e: Entry, plans: seq<SourcePlan>, taken: iset<int>, nodes: Nodes, l: int)
    requires PiecesOf(es, e, taken, nodes) && x < |es| && e.adm.plan < |plans|
    ensures Taken(es[..x], plans, plans[e.adm.plan].file, l) ==> Within(e.range, l) && l < es[x].range.start
    ensures Within(e.range, l) && l < es[x].range.start && l !in taken ==> Taken(es[..x], plans, plans[e.adm.plan].file, l)
  {
    hide PiecesOf;
    if Taken(es[..x], plans, plans[e.adm.plan].file, l) {
      PieceBefore(es, x, e, plans, taken, nodes, l);
    }
    if Within(e.range, l) && l < es[x].range.start && l !in taken {
      FreeIsKept(es, x, e, plans, taken, nodes, l);
    }
  }

  lemma PieceBefore(es: seq<Entry>, x: nat, e: Entry, plans: seq<SourcePlan>, taken: iset<int>, nodes: Nodes, l: int)
    requires PiecesOf(es, e, taken, nodes) && x < |es| && e.adm.plan < |plans|
    requires Taken(es[..x], plans, plans[e.adm.plan].file, l)
    ensures Within(e.range, l) && l < es[x].range.start
  {
    hide PieceOf, HasPiece, Gap;
    var y :| 0 <= y < x && Takes(es[..x][y], plans, plans[e.adm.plan].file, l);
    assert PieceOf(es[y], e, taken, nodes) && es[y].range.end < es[x].range.start;
    PieceBounds(es[y], e, taken, nodes);
  }

  lemma FreeIsKept(es: seq<Entry>, x: nat, e: Entry, plans: seq<SourcePlan>, taken: iset<int>, nodes: Nodes, l: int)
    requires PiecesOf(es, e, taken, nodes) && x < |es| && e.adm.plan < |plans|
    requires Within(e.range, l) && l < es[x].range.start && l !in taken
    ensures Taken(es[..x], plans, plans[e.adm.plan].file, l)
  {
    hide PieceOf, Gap;
    var start, end := GapAround(e.range, taken, l);
    assert HasPiece(es, start, end);
    var y :| 0 <= y < |es| && es[y].range.start == start && es[y].range.end == end;
    hide HasPiece;
    assert PieceOf(es[y], e, taken, nodes) && PieceOf(es[x], e, taken, nodes);
    PieceBounds(es[x], e, taken, nodes);
    PieceBounds(es[y], e, taken, nodes);
    InOrder(es, x, y, e, taken, nodes);
    assert Takes(es[..x][y], plans, plans[e.adm.plan].file, l);
  }

  lemma InOrder(es: seq<Entry>, x: nat, y: nat, e: Entry, taken: iset<int>, nodes: Nodes)
    requires PiecesOf(es, e, taken, nodes) && x < |es| && y < |es|
    ensures x < y ==> es[x].range.end < es[y].range.start
  {
  }

  lemma PieceBounds(o: Entry, e: Entry, taken: iset<int>, nodes: Nodes)
    requires PieceOf(o, e, taken, nodes)
    ensures e.range.start <= o.range.start <= o.range.end <= e.range.end && o.adm.plan == e.adm.plan
  {
  }

  lemma EarnsBySpan(id: NodeId, r: SourceRange, taken: iset<int>, a: SourceRange, b: SourceRange, nodes: Nodes)
    requires SameSpan(a, b)
    ensures Earns(id, r, taken, a, nodes) <==> Earns(id, r, taken, b, nodes)
  {
    hide Gap;
    assert forall start, end :: EarnsBy(id, r, start, end, a, nodes) <==> EarnsBy(id, r, start, end, b, nodes);
  }

  /** An entry kept earlier gains what the next request credits it with. */
  lemma CreditsGrow(o: Entry, o': Entry, rs: seq<Entry>, j: nat, n: nat, plans: seq<SourcePlan>, nodes: Nodes)
    requires j < n < |rs| && PlansKnown(rs, plans) && IsPieceOf(o, rs, plans, j) && HasCredits(o, rs, plans, nodes, j, n)
    requires SameButIds(o'.range, o.range)
    requires forall id :: id in o'.range.nodeIds <==>
               || id in o.range.nodeIds
               || (SameFile(rs[n], rs[j], plans) && Earns(id, rs[n].range, KeptAhead(rs, plans, j, o.range.start), o.range, nodes))
    ensures HasCredits(o', rs, plans, nodes, j, n + 1)
  {
    hide Earns, Piece, KeptAhead, StandsFor;
    var start, end := o.range.start, o.range.end;
    forall id
      ensures id in o'.range.nodeIds <==> CreditedTo(id, rs, plans, nodes, j, start, end, n + 1)
    {
      EarnsBySpan(id, rs[n].range, KeptAhead(rs, plans, j, start), o.range, rs[j].range.(start := start, end := end), nodes);
      assert EarnsFrom(id, rs, plans, nodes, j, start, end, n) <==>
               SameFile(rs[n], rs[j], plans) && Earns(id, rs[n].range, KeptAhead(rs, plans, j, start), o.range, nodes);
      OneMore(id, rs, plans, nodes, j, start, end, n);
    }
  }

  lemma OneMore(id: NodeId, rs: seq<Entry>, plans: seq<SourcePlan>, nodes: Nodes, j: nat, start: int, end: int, n: nat)
    ensures CreditedTo(id, rs, plans, nodes, j, start, end, n + 1) <==>
            CreditedTo(id, rs, plans, nodes, j, start, end, n) || (j < |rs| && EarnsFrom(id, rs, plans, nodes, j, start, end, n))
  {
    hide EarnsFrom, StandsFor;
  }

  lemma OldTraced(out: seq<Entry>, out': seq<Entry>, es: seq<Entry>, i: nat, j: nat, rs: seq<Entry>, n: nat,
                  plans: seq<SourcePlan>, nodes: Nodes)
    requires n < |rs| && PlansKnown(rs, plans) && i < |out| && TracedAt(out, i, j, rs, n, plans, nodes)
    requires Recredited(out', out, rs[n], plans, nodes)
    ensures TracedAt(out' + es, i, j, rs, n + 1, plans, nodes)
  {
    var file := plans[rs[j].adm.plan].file;
    assert (out' + es)[..i] == out'[..i];
    SameLines(out', out, i, rs[n], plans, nodes, file);
    assert RecreditedAt(out'[i], out, i, rs[n], plans, nodes);
    hide Earns, KeptAhead, HasCredits, Piece;
    CreditsGrow(out[i], out'[i], rs, j, n, plans, nodes);
  }

  lemma SameLines(out': seq<Entry>, out: seq<Entry>, i: nat, e: Entry, plans: seq<SourcePlan>, nodes: Nodes, file: string)
    requires Recredited(out', out, e, plans, nodes) && i <= |out|
    ensures TakenLines(out'[..i], plans, file) == TakenLines(out[..i], plans, file)
  {
    hide Earns;
    forall k | 0 <= k < i
      ensures out'[k].adm == out[k].adm && SameButIds(out'[k].range, out[k].range)
    {
      assert RecreditedAt(out'[k], out, k, e, plans, nodes);
    }
    hide Recredited;
    forall l
      ensures Taken(out'[..i], plans, file, l) <==> Taken(out[..i], plans, file, l)
    {
      if Taken(out[..i], plans, file, l) {
        var k :| 0 <= k < i && Takes(out[..i][k], plans, file, l);
        assert Takes(out'[..i][k], plans, file, l);
      }
      if Taken(out'[..i], plans, file, l) {
        var k :| 0 <= k < i && Takes(out'[..i][k], plans, file, l);
        assert Takes(out[..i][k], plans, file, l);
      }
    }
  }

  lemma NewTraced(out: seq<Entry>, es: seq<Entry>, x: nat, rs: seq<Entry>, n: nat, plans: seq<SourcePlan>, nodes: Nodes)
    requires n < |rs| && PlansKnown(rs, plans) && x < |es|
    requires PiecesOf(es, rs[n], TakenBefore(rs, plans, n), nodes)
    requires TakenLines(out, plans, plans[rs[n].adm.plan].file) == TakenBefore(rs, plans, n)
    ensures TracedAt(out + es, |out| + x, n, rs, n + 1, plans, nodes)
  {
    AheadOfPiece(out, es, x, rs, n, plans, nodes);
    var o := es[x];
    assert (out + es)[|out| + x] == o;
    assert PieceOf(o, rs[n], TakenBefore(rs, plans, n), nodes);
    hide KeptAhead, TakenBefore, Gap, StandsFor, Earns;
    assert forall id, k: nat :: k < n + 1 ==> !EarnsFrom(id, rs, plans, nodes, n, o.range.start, o.range.end, k);
  }

  function Times(count: nat, n: nat): (r: seq<nat>)
    ensures |r| == count && forall i :: 0 <= i < count ==> r[i] == n
  {
    seq(count, _ => n)
  }

  /** Keeping the pieces of one more request. */
  lemma TraceStep(out: seq<Entry>, out': seq<Entry>, es: seq<Entry>, from: seq<nat>, rs: seq<Entry>, n: nat,
                  plans: seq<SourcePlan>, nodes: Nodes)
    requires Traced(out, from, rs, n, plans, nodes) && n < |rs|
    requires Recredited(out', out, rs[n], plans, nodes)
    requires PiecesOf(es, rs[n], TakenBefore(rs, plans, n), nodes)
    requires TakenLines(out, plans, plans[rs[n].adm.plan].file) == TakenBefore(rs, plans, n)
    ensures Traced(out' + es, from + Times(|es|, n), rs, n + 1, plans, nodes)
  {
    hide TakenBefore, PiecesOf, KeptAs, TracedAt, Piece, Recredited;
    var all, whose := out' + es, from + Times(|es|, n);
    SameLength(out', out, rs[n], plans, nodes);
    AllSameLines(out', out, rs[n], plans, nodes, plans[rs[n].adm.plan].file);
    OldStays(out, out', es, from, rs, n, plans, nodes);
    NewStands(out', es, rs, n, n + 1, plans, nodes);
    forall i | 0 <= i < |all|
      ensures TracedAt(all, i, whose[i], rs, n + 1, plans, nodes)
    {
      assert whose[i] == if i < |out| then from[i] else n;
    }
    forall j: nat, start, end | j < n + 1 && Piece(rs, plans, j, start, end)
      ensures KeptAs(all, whose, j, start, end)
    {
      AllKept(out, out', es, from, rs, n, plans, nodes, j, start, end);
    }
  }

  lemma SameLength(out': seq<Entry>, out: seq<Entry>, e: Entry, plans: seq<SourcePlan>, nodes: Nodes)
    requires Recredited(out', out, e, plans, nodes)
    ensures |out'| == |out|
  {
    hide RecreditedAt;
  }

  lemma OldStays(out: seq<Entry>, out': seq<Entry>, es: seq<Entry>, from: seq<nat>, rs: seq<Entry>, n: nat,
                 plans: seq<SourcePlan>, nodes: Nodes)
    requires Traced(out, from, rs, n, plans, nodes) && n < |rs| && Recredited(out', out, rs[n], plans, nodes)
    requires |out'| == |out|
    ensures forall i :: 0 <= i < |out| ==> TracedAt(out' + es, i, from[i], rs, n + 1, plans, nodes)
  {
    hide KeptAs, Piece, Recredited, TracedAt;
    forall i | 0 <= i < |out|
      ensures TracedAt(out' + es, i, from[i], rs, n + 1, plans, nodes)
    {
      OldTraced(out, out', es, i, from[i], rs, n, plans, nodes);
    }
  }

  lemma NewStands(out: seq<Entry>, es: seq<Entry>, rs: seq<Entry>, n: nat, next: nat,
                  plans: seq<SourcePlan>, nodes: Nodes)
    requires n + 1 == next <= |rs| && PlansKnown(rs, plans) && PiecesOf(es, rs[n], TakenBefore(rs, plans, n), nodes)
    requires TakenLines(out, plans, plans[rs[n].adm.plan].file) == TakenBefore(rs, plans, n)
    ensures forall i :: |out| <= i < |out| + |es| ==> TracedAt(out + es, i, n, rs, next, plans, nodes)
  {
    hide TakenBefore, PiecesOf, TracedAt;
    forall i | |out| <= i < |out| + |es|
      ensures TracedAt(out + es, i, n, rs, next, plans, nodes)
    {
      NewTraced(out, es, i - |out|, rs, n, plans, nodes);
    }
  }

  lemma AllSameLines(out': seq<Entry>, out: seq<Entry>, e: Entry, plans: seq<SourcePlan>, nodes: Nodes, file: string)
    requires Recredited(out', out, e, plans, nodes)
    ensures TakenLines(out', plans, file) == TakenLines(out, plans, file)
  {
    SameLines(out', out, |out|, e, plans, nodes, file);
    hide RecreditedAt;
    TakeAll(out);
    TakeAll(out');
  }

  lemma AllKept(out: seq<Entry>, out': seq<Entry>, es: seq<Entry>, from: seq<nat>, rs: seq<Entry>, n: nat,
                plans: seq<SourcePlan>, nodes: Nodes, j: nat, start: int, end: int)
    requires Traced(out, from, rs, n, plans, nodes) && n < |rs| && Recredited(out', out, rs[n], plans, nodes)
    requires PiecesOf(es, rs[n], TakenBefore(rs, plans, n), nodes)
    requires j < n + 1 && Piece(rs, plans, j, start, end)
    ensures KeptAs(out' + es, from + Times(|es|, n), j, start, end)
  {
    hide TakenBefore, Earns, TracedAt, Gap;
    var all, whose := out' + es, from + Times(|es|, n);
    if j < n {
      var i :| 0 <= i < |out| && from[i] == j && out[i].range.start == start && out[i].range.end == end;
      assert RecreditedAt(out'[i], out, i, rs[n], plans, nodes);
      assert whose[i] == j && all[i] == out'[i];
    } else {
      assert HasPiece(es, start, end);
      var x :| 0 <= x < |es| && es[x].range.start == start && es[x].range.end == end;
      assert whose[|out| + x] == n && all[|out| + x] == es[x];
    }
  }
}
