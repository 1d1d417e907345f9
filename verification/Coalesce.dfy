/**
 Coalescing admissions so that every source line is serialized at most once
 (`coalesce_source_admissions`, src/graph/agent.rs).
 */
module Coalesce {
  import opened Prelude
  import opened SourceRanges
  import opened Sorting
  import opened Admissions
  import opened Entries
  import opened Grouping
  import opened RangeCuts
  import opened Merging
  import opened Crediting
  import opened KeptPieces
  import opened Accounting

  // ----- Removing what an earlier admission already carries -----

  /**
   The part of `e` no earlier entry carries, and the earlier entries, each credited with exactly the
   ids it earned.
   */
  method CutByPriors(e: Entry, out: seq<Entry>, plans: seq<SourcePlan>, nodes: Nodes, ghost texts: Texts)
    returns (pending: seq<SourceRange>, out': seq<Entry>)
    requires EntryOk(e, plans, texts) && EntriesOk(out, plans, texts)
    ensures Recredited(out', out, e, plans, nodes)
    ensures Left(pending, e.range, TakenLines(out, plans, plans[e.adm.plan].file), nodes)
    ensures AllShow(pending, texts[plans[e.adm.plan].file])
  {
    var file := plans[e.adm.plan].file;
    hide Left, RecreditedAt;
    out' := out;
    pending := [e.range];
    NothingCut(e, out, plans, nodes);
    for j := 0 to |out|
      invariant CutSoFar(pending, out', e, out, j, plans, nodes)
      invariant AllShow(pending, texts[file])
    {
      ghost var before, was := pending, out';
      if plans[out[j].adm.plan].file == file {
        assert EntryOk(out[j], plans, texts);
        PendingParts(pending, out', e, out, j, plans, nodes);
        var prior';
        pending, prior' := CutByPrior(pending, out'[j].range, nodes, e.range, texts[file]);
        CutOnce(before, was, e, out, j, pending, prior', plans, nodes);
        out' := out'[j := out'[j].(range := prior')];
      } else {
        OtherFile(pending, out', e, out, j, plans, nodes);
      }
      if pending == [] {
        CutThrough(out', e, out, j + 1, plans, nodes);
        CutAll(pending, out', e, out, plans, nodes);
        return;
      }
    }
    CutAll(pending, out', e, out, plans, nodes);
  }

  lemma PendingParts(pending: seq<SourceRange>, out': seq<Entry>, e: Entry, out: seq<Entry>, j: nat,
                     plans: seq<SourcePlan>, nodes: Nodes)
    requires CutSoFar(pending, out', e, out, j, plans, nodes)
    ensures Separated(pending) && AreParts(pending, e.range, nodes)
  {
  }

  // ----- Processing the entries in order -----

  ghost predicate SameTaken(out: seq<Entry>, done: seq<Entry>, plans: seq<SourcePlan>) {
    forall file, l :: Taken(out, plans, file, l) <==> Taken(done, plans, file, l)
  }

  /** Whatever an output entry carries, some processed entry of the same phase asked for. */
  ghost predicate Sourced(out: seq<Entry>, done: seq<Entry>, plans: seq<SourcePlan>) {
    forall i, file, ph, l :: 0 <= i < |out| && Holds(out[i], plans, file, ph, l) ==> Has(done, plans, file, ph, l)
  }

  /** A line is carried at the first place that asked for it. */
  ghost predicate Earliest(out: seq<Entry>, done: seq<Entry>, plans: seq<SourcePlan>) {
    forall i, j, file, l :: 0 <= i < |out| && 0 <= j < |done| && Takes(out[i], plans, file, l) && Takes(done[j], plans, file, l)
      ==> out[i].order <= done[j].order
  }

  ghost predicate OutInv(out: seq<Entry>, done: seq<Entry>, plans: seq<SourcePlan>, texts: Texts, flat: seq<Entry>) {
    && EntriesOk(out, plans, texts) && AllRooted(out, flat)
    && OnceOnly(out, plans) && SameTaken(out, done, plans)
    && Sourced(out, done, plans) && Earliest(out, done, plans)
    && (forall i :: 0 <= i < |out| ==> done != [] && out[i].order <= done[|done| - 1].order)
  }

  /** The same entries up to the ids their excerpts are credited with. */
  ghost predicate SameUpToIds(out': seq<Entry>, out: seq<Entry>) {
    && |out'| == |out|
    && forall i :: 0 <= i < |out| ==>
         out'[i].adm == out[i].adm && out'[i].order == out[i].order && SameButIds(out'[i].range, out[i].range)
  }

  lemma RecreditedTaken(out': seq<Entry>, out: seq<Entry>, plans: seq<SourcePlan>)
    requires SameUpToIds(out', out)
    ensures forall file, l :: Taken(out', plans, file, l) <==> Taken(out, plans, file, l)
  {
    forall file, l
      ensures Taken(out', plans, file, l) <==> Taken(out, plans, file, l)
    {
      if Taken(out, plans, file, l) {
        var i :| 0 <= i < |out| && Takes(out[i], plans, file, l);
        assert Takes(out'[i], plans, file, l);
      }
      if Taken(out', plans, file, l) {
        var i :| 0 <= i < |out'| && Takes(out'[i], plans, file, l);
        assert Takes(out[i], plans, file, l);
      }
    }
  }

  lemma RecreditedSame(out': seq<Entry>, out: seq<Entry>, done: seq<Entry>, plans: seq<SourcePlan>, texts: Texts, flat: seq<Entry>)
    requires OutInv(out, done, plans, texts, flat) && SameUpToIds(out', out)
    ensures OutInv(out', done, plans, texts, flat)
  {
    hide Shows;
    forall i | 0 <= i < |out|
      ensures EntryOk(out'[i], plans, texts) && Rooted(out'[i], flat)
    {
      assert EntryOk(out[i], plans, texts) && Rooted(out[i], flat);
      SameTextUnderIds(out'[i].range, out[i].range, texts[plans[out[i].adm.plan].file]);
    }
    RecreditedTaken(out', out, plans);
    forall i, j, file, l | 0 <= i < j < |out'| && Takes(out'[i], plans, file, l)
      ensures !Takes(out'[j], plans, file, l)
    {
      OnceApart(out, plans, i, j, file, l);
    }
    forall i, file, ph, l | 0 <= i < |out'| && Holds(out'[i], plans, file, ph, l)
      ensures Has(done, plans, file, ph, l)
    {
      assert Holds(out[i], plans, file, ph, l);
    }
    forall i, j, file, l | 0 <= i < |out'| && 0 <= j < |done| && Takes(out'[i], plans, file, l) && Takes(done[j], plans, file, l)
      ensures out'[i].order <= done[j].order
    {
      assert Takes(out[i], plans, file, l);
    }
  }

  lemma SameTextUnderIds(a: SourceRange, b: SourceRange, file: seq<string>)
    requires SameButIds(a, b) && Shows(b, file)
    ensures Shows(a, file)
  {
  }

  /** `es` are the pieces of `e` that no entry of `out` carries. */
  ghost predicate Remainder(es: seq<Entry>, e: Entry, out: seq<Entry>, plans: seq<SourcePlan>, nodes: Nodes, texts: Texts) {
    && EntriesOk(es, plans, texts)
    && e.adm.plan < |plans| && PiecesOf(es, e, TakenLines(out, plans, plans[e.adm.plan].file), nodes)
    && OnceOnly(es, plans)
    && forall file, l :: Taken(es, plans, file, l) <==> Takes(e, plans, file, l) && !Taken(out, plans, file, l)
  }

  method PlacePieces(e: Entry, pending: seq<SourceRange>, ghost out: seq<Entry>, ghost plans: seq<SourcePlan>,
                     ghost nodes: Nodes, ghost texts: Texts)
    returns (es: seq<Entry>)
    requires EntryOk(e, plans, texts)
    requires AllShow(pending, texts[plans[e.adm.plan].file])
    requires Left(pending, e.range, TakenLines(out, plans, plans[e.adm.plan].file), nodes)
    ensures Remainder(es, e, out, plans, nodes, texts)
  {
    es := [];
    for k := 0 to |pending|
      invariant |es| == k
      invariant forall i :: 0 <= i < k ==>
        es[i] == Entry(e.adm.(atomic := e.adm.atomic && SameSpan(pending[i], e.range)), pending[i], e.order)
    {
      es := es + [Entry(e.adm.(atomic := e.adm.atomic && SameSpan(pending[k], e.range)), pending[k], e.order)];
    }
    ArePieces(es, e, pending, TakenLines(out, plans, plans[e.adm.plan].file), nodes);
    PiecesTake(es, e, pending, out, plans, nodes, texts);
  }

  lemma PiecesTake(es: seq<Entry>, e: Entry, pending: seq<SourceRange>, out: seq<Entry>, plans: seq<SourcePlan>,
                   nodes: Nodes, texts: Texts)
    requires EntryOk(e, plans, texts) && AllShow(pending, texts[plans[e.adm.plan].file])
    requires Left(pending, e.range, TakenLines(out, plans, plans[e.adm.plan].file), nodes) && |es| == |pending|
    requires forall i :: 0 <= i < |es| ==>
               es[i] == Entry(e.adm.(atomic := e.adm.atomic && SameSpan(pending[i], e.range)), pending[i], e.order)
    ensures EntriesOk(es, plans, texts) && OnceOnly(es, plans)
    ensures forall file, l :: Taken(es, plans, file, l) <==> Takes(e, plans, file, l) && !Taken(out, plans, file, l)
  {
    hide Shows, Part;
    forall file, l
      ensures Taken(es, plans, file, l) <==> Takes(e, plans, file, l) && !Taken(out, plans, file, l)
    {
      if Taken(es, plans, file, l) {
        var i :| 0 <= i < |es| && Takes(es[i], plans, file, l);
        assert Within(pending[i], l);
        assert Covers(pending, l);
      }
      if Takes(e, plans, file, l) && !Taken(out, plans, file, l) {
        assert Covers(pending, l);
        var i :| 0 <= i < |pending| && Within(pending[i], l);
        assert Takes(es[i], plans, file, l);
      }
    }
  }

  lemma ArePieces(es: seq<Entry>, e: Entry, pending: seq<SourceRange>, taken: iset<int>, nodes: Nodes)
    requires Left(pending, e.range, taken, nodes) && |es| == |pending|
    requires forall i :: 0 <= i < |es| ==>
               es[i] == Entry(e.adm.(atomic := e.adm.atomic && SameSpan(pending[i], e.range)), pending[i], e.order)
    ensures PiecesOf(es, e, taken, nodes)
  {
    forall x | 0 <= x < |es|
      ensures PieceOf(es[x], e, taken, nodes)
    {
      LeftIsGap(pending, e.range, taken, nodes, x);
    }
    forall start, end | Gap(e.range, taken, start, end)
      ensures HasPiece(es, start, end)
    {
      var k := GapIsLeft(pending, e.range, taken, nodes, start, end);
      assert es[k].range == pending[k];
    }
  }

  lemma RemainderPieces(es: seq<Entry>, e: Entry, out: seq<Entry>, plans: seq<SourcePlan>, nodes: Nodes, texts: Texts, i: nat, file: string, l: int)
    requires Remainder(es, e, out, plans, nodes, texts) && i < |es|
    ensures Takes(es[i], plans, file, l) ==> Takes(e, plans, file, l) && !Taken(out, plans, file, l)
  {
    if Takes(es[i], plans, file, l) {
      assert Taken(es, plans, file, l);
    }
  }

  lemma StepOnce(out: seq<Entry>, es: seq<Entry>, e: Entry, plans: seq<SourcePlan>, nodes: Nodes, texts: Texts)
    requires OnceOnly(out, plans) && Remainder(es, e, out, plans, nodes, texts)
    ensures OnceOnly(out + es, plans)
  {
    var all := out + es;
    forall i, j, file, l | 0 <= i < j < |all| && Takes(all[i], plans, file, l)
      ensures !Takes(all[j], plans, file, l)
    {
      if i < |out| <= j {
        assert Taken(out, plans, file, l);
        RemainderPieces(es, e, out, plans, nodes, texts, j - |out|, file, l);
      }
    }
  }

  lemma StepTaken(out: seq<Entry>, done: seq<Entry>, es: seq<Entry>, e: Entry, plans: seq<SourcePlan>, nodes: Nodes, texts: Texts)
    requires SameTaken(out, done, plans) && Remainder(es, e, out, plans, nodes, texts)
    ensures SameTaken(out + es, done + [e], plans)
  {
    forall file, l
      ensures Taken(out + es, plans, file, l) <==> Taken(done + [e], plans, file, l)
    {
      TakenAppend(out, es, plans, file, l);
      TakenSnoc(done, e, plans, file, l);
    }
  }

  lemma StepSourced(out: seq<Entry>, done: seq<Entry>, es: seq<Entry>, e: Entry, plans: seq<SourcePlan>, nodes: Nodes, texts: Texts)
    requires Sourced(out, done, plans) && Remainder(es, e, out, plans, nodes, texts)
    ensures Sourced(out + es, done + [e], plans)
  {
    var all := out + es;
    forall i, file, ph, l | 0 <= i < |all| && Holds(all[i], plans, file, ph, l)
      ensures Has(done + [e], plans, file, ph, l)
    {
      HasAppend(done, [e], plans, file, ph, l);
      if i >= |out| {
        assert Takes(es[i - |out|], plans, file, l);
        RemainderPieces(es, e, out, plans, nodes, texts, i - |out|, file, l);
        HasOne(e, plans, file, ph, l);
      }
    }
  }

  lemma StepEarliest(out: seq<Entry>, done: seq<Entry>, es: seq<Entry>, e: Entry, plans: seq<SourcePlan>, nodes: Nodes, texts: Texts)
    requires Earliest(out, done, plans) && SameTaken(out, done, plans) && Remainder(es, e, out, plans, nodes, texts)
    requires forall i :: 0 <= i < |out| ==> out[i].order <= e.order
    ensures Earliest(out + es, done + [e], plans)
  {
    var all, done' := out + es, done + [e];
    forall i, j, file, l | 0 <= i < |all| && 0 <= j < |done'| && Takes(all[i], plans, file, l) && Takes(done'[j], plans, file, l)
      ensures all[i].order <= done'[j].order
    {
      assert j < |done| ==> Taken(done, plans, file, l);
      if i >= |out| {
        RemainderPieces(es, e, out, plans, nodes, texts, i - |out|, file, l);
      }
    }
  }

  lemma StepKeeps(out: seq<Entry>, done: seq<Entry>, es: seq<Entry>, e: Entry, plans: seq<SourcePlan>, nodes: Nodes, texts: Texts, flat: seq<Entry>)
    requires OutInv(out, done, plans, texts, flat) && Remainder(es, e, out, plans, nodes, texts) && Rooted(e, flat)
    requires done != [] ==> done[|done| - 1].order <= e.order
    ensures OutInv(out + es, done + [e], plans, texts, flat)
  {
    StepOnce(out, es, e, plans, nodes, texts);
    StepTaken(out, done, es, e, plans, nodes, texts);
    StepSourced(out, done, es, e, plans, nodes, texts);
    StepEarliest(out, done, es, e, plans, nodes, texts);
    hide OnceOnly, SameTaken, Sourced, Earliest, Shows;
  }

  method SortEntries(es: seq<Entry>) returns (sorted: seq<Entry>)
    ensures forall e :: e in sorted <==> e in es
    ensures multiset(sorted) == multiset(es)
    ensures forall i, j :: 0 <= i < j < |sorted| ==> Le(OrderKey(sorted[i]), OrderKey(sorted[j]))
  {
    sorted := Sort(OrderKey, es);
    SortSorts(OrderKey, es);
    SameMembers(sorted, es);
  }

  /**
   Each entry, in order, keeps only what no earlier entry carries: `out` holds the pieces of the
   entries, `from` tells whose each is, and each is credited with exactly the ids told by `Traced`.
   */
  method KeepFirst(same: seq<Entry>, plans: seq<SourcePlan>, nodes: Nodes, ghost texts: Texts, ghost flat: seq<Entry>)
    returns (out: seq<Entry>, ghost from: seq<nat>)
    requires EntriesOk(same, plans, texts) && AllRooted(same, flat)
    requires forall i, j :: 0 <= i < j < |same| ==> Le(OrderKey(same[i]), OrderKey(same[j]))
    ensures OutInv(out, same, plans, texts, flat)
    ensures Traced(out, from, same, |same|, plans, nodes)
  {
    out, from := [], [];
    NothingTraced(same, plans, nodes, texts);
    hide Traced, Recredited, Remainder;
    for k := 0 to |same|
      invariant OutInv(out, same[..k], plans, texts, flat)
      invariant Traced(out, from, same, k, plans, nodes)
    {
      var e := same[k];
      var pending, out' := CutByPriors(e, out, plans, nodes, texts);
      var es := PlacePieces(e, pending, out, plans, nodes, texts);
      assert k > 0 ==> Le(OrderKey(same[k - 1]), OrderKey(e));
      KeepStep(out, out', same[..k], es, e, plans, nodes, texts, flat);
      KeepTrace(out, out', es, from, same, k, plans, nodes, texts, flat);
      TakeSnoc(same, k);
      out, from := out' + es, from + Times(|es|, k);
    }
    TakeAll(same);
  }

  lemma NothingTraced(same: seq<Entry>, plans: seq<SourcePlan>, nodes: Nodes, texts: Texts)
    requires EntriesOk(same, plans, texts)
    ensures Traced([], [], same, 0, plans, nodes)
  {
    hide TracedAt, Piece;
    forall i | 0 <= i < |same|
      ensures same[i].adm.plan < |plans|
    {
      assert EntryOk(same[i], plans, texts);
    }
  }

  lemma KeepTrace(out: seq<Entry>, out': seq<Entry>, es: seq<Entry>, from: seq<nat>, same: seq<Entry>, k: nat,
                  plans: seq<SourcePlan>, nodes: Nodes, texts: Texts, flat: seq<Entry>)
    requires k < |same| && OutInv(out, same[..k], plans, texts, flat) && Traced(out, from, same, k, plans, nodes)
    requires Recredited(out', out, same[k], plans, nodes) && Remainder(es, same[k], out, plans, nodes, texts)
    ensures Traced(out' + es, from + Times(|es|, k), same, k + 1, plans, nodes)
  {
    var file := plans[same[k].adm.plan].file;
    assert TakenLines(out, plans, file) == TakenBefore(same, plans, k) by {
      assert forall l :: Taken(out, plans, file, l) <==> Taken(same[..k], plans, file, l);
    }
    hide TakenBefore, TakenLines, TracedAt, PiecesOf, Recredited, OutInv;
    TraceStep(out, out', es, from, same, k, plans, nodes);
  }

  lemma KeepStep(out: seq<Entry>, out': seq<Entry>, done: seq<Entry>, es: seq<Entry>, e: Entry,
                 plans: seq<SourcePlan>, nodes: Nodes, texts: Texts, flat: seq<Entry>)
    requires OutInv(out, done, plans, texts, flat)
    requires Recredited(out', out, e, plans, nodes) && Remainder(es, e, out, plans, nodes, texts)
    requires EntryOk(e, plans, texts) && Rooted(e, flat) && (done != [] ==> done[|done| - 1].order <= e.order)
    ensures OutInv(out' + es, done + [e], plans, texts, flat)
  {
    hide Earns;
    assert SameUpToIds(out', out) by {
      forall i | 0 <= i < |out|
        ensures out'[i].adm == out[i].adm && out'[i].order == out[i].order && SameButIds(out'[i].range, out[i].range)
      {
        assert RecreditedAt(out'[i], out, i, e, plans, nodes);
      }
    }
    hide Recredited;
    RecreditedSame(out', out, done, plans, texts, flat);
    RecreditedTaken(out', out, plans);
    RemainderBeside(es, e, out, out', plans, nodes, texts);
    StepKeeps(out', done, es, e, plans, nodes, texts, flat);
  }

  lemma RemainderBeside(es: seq<Entry>, e: Entry, out: seq<Entry>, out': seq<Entry>, plans: seq<SourcePlan>,
                        nodes: Nodes, texts: Texts)
    requires Remainder(es, e, out, plans, nodes, texts)
    requires forall file, l :: Taken(out', plans, file, l) <==> Taken(out, plans, file, l)
    ensures Remainder(es, e, out', plans, nodes, texts)
  {
    var file := plans[e.adm.plan].file;
    assert TakenLines(out', plans, file) == TakenLines(out, plans, file);
    hide PiecesOf, OnceOnly;
  }

  // ----- The whole pass -----

  /** Sorting does not bring two carriers of one line together. */
  lemma PermutedOnce(a: seq<Entry>, b: seq<Entry>, plans: seq<SourcePlan>, texts: Texts)
    requires multiset(a) == multiset(b) && OnceOnly(a, plans) && EntriesOk(a, plans, texts)
    ensures OnceOnly(b, plans)
  {
    forall i, j, file, l | 0 <= i < j < |b| && Takes(b[i], plans, file, l)
      ensures !Takes(b[j], plans, file, l)
    {
      if b[i] == b[j] {
        RepeatedMember(b, i, j);
        var x, y := TwoPlaces(a, b[i]);
        OnceApart(a, plans, x, y, file, l);
      } else {
        assert b[i] in multiset(a) && b[j] in multiset(a);
        var x :| 0 <= x < |a| && a[x] == b[i];
        var y :| 0 <= y < |a| && a[y] == b[j];
        OnceApart(a, plans, x, y, file, l);
      }
    }
  }

  lemma RepeatedMember(b: seq<Entry>, i: nat, j: nat)
    requires i < j < |b| && b[i] == b[j]
    ensures multiset(b)[b[i]] >= 2
  {
    assert b == b[..j] + b[j..];
    assert b[i] == b[..j][i] && b[i] in b[..j];
    assert b[j] == b[j..][0] && b[j] in b[j..];
  }

  lemma {:induction false} TwoPlaces(a: seq<Entry>, e: Entry) returns (x: nat, y: nat)
    requires multiset(a)[e] >= 2
    ensures x < y < |a| && a[x] == e && a[y] == e
  {
    assert a == [a[0]] + a[1..];
    if a[0] == e {
      assert e in multiset(a[1..]);
      var k :| 0 <= k < |a[1..]| && a[1..][k] == e;
      x, y := 0, k + 1;
    } else {
      x, y := TwoPlaces(a[1..], e);
      x, y := x + 1, y + 1;
    }
  }

  /** What the finished entries `out` owe to the flattened request `flat`. */
  ghost predicate Settled(out: seq<Entry>, flat: seq<Entry>, plans: seq<SourcePlan>, texts: Texts) {
    && EntriesOk(out, plans, texts) && AllRooted(out, flat) && OnceOnly(out, plans)
    && SameTaken(out, flat, plans) && Sourced(out, flat, plans)
    && (EntriesPhaseSorted(flat) ==>
          && FirstPhase(out, flat, plans)
          && (forall i, j :: 0 <= i < j < |out| ==> Rank(out[i].adm.phase) <= Rank(out[j].adm.phase)))
  }

  /** No entry is carried in a later phase than any request for one of its lines. */
  ghost predicate FirstPhase(out: seq<Entry>, flat: seq<Entry>, plans: seq<SourcePlan>) {
    forall i, file, ph, l :: 0 <= i < |out| && Takes(out[i], plans, file, l) && Has(flat, plans, file, ph, l)
      ==> Rank(out[i].adm.phase) <= Rank(ph)
  }

  lemma EarliestIsFirstPhase(out: seq<Entry>, same: seq<Entry>, flat: seq<Entry>, plans: seq<SourcePlan>)
    requires Earliest(out, same, plans) && SameHas(same, flat, plans)
    requires AllRooted(out, flat) && AllRooted(same, flat) && EntriesPhaseSorted(flat)
    ensures FirstPhase(out, flat, plans)
  {
    forall i, file, ph, l | 0 <= i < |out| && Takes(out[i], plans, file, l) && Has(flat, plans, file, ph, l)
      ensures Rank(out[i].adm.phase) <= Rank(ph)
    {
      assert Has(same, plans, file, ph, l);
      var j :| 0 <= j < |same| && Holds(same[j], plans, file, ph, l);
      assert Takes(same[j], plans, file, l);
      assert Rooted(out[i], flat) && Rooted(same[j], flat);
    }
  }

  /** Sorting the kept entries by order of request settles the request. */
  lemma SortedSettles(kept: seq<Entry>, out: seq<Entry>, same: seq<Entry>, flat: seq<Entry>, plans: seq<SourcePlan>, texts: Texts)
    requires OutInv(kept, same, plans, texts, flat) && SameHas(same, flat, plans) && AllRooted(same, flat)
    requires multiset(out) == multiset(kept) && (forall e :: e in out <==> e in kept)
    requires forall i, j :: 0 <= i < j < |out| ==> Le(OrderKey(out[i]), OrderKey(out[j]))
    ensures Settled(out, flat, plans, texts)
  {
    forall i | 0 <= i < |out|
      ensures EntryOk(out[i], plans, texts) && Rooted(out[i], flat)
    {
      assert out[i] in kept;
    }
    PermutedOnce(kept, out, plans, texts);
    forall file, l
      ensures Taken(out, plans, file, l) <==> Taken(flat, plans, file, l)
    {
      TakenMembers(out, kept, plans, file, l);
      TakenMembers(kept, out, plans, file, l);
      HasTaken(same, plans, file, l);
      HasTaken(flat, plans, file, l);
    }
    forall i, file, ph, l | 0 <= i < |out| && Holds(out[i], plans, file, ph, l)
      ensures Has(flat, plans, file, ph, l)
    {
      assert out[i] in kept;
      var k :| 0 <= k < |kept| && kept[k] == out[i];
      assert Holds(kept[k], plans, file, ph, l);
    }
    if EntriesPhaseSorted(flat) {
      EarliestIsFirstPhase(kept, same, flat, plans);
      forall i, file, ph, l | 0 <= i < |out| && Takes(out[i], plans, file, l) && Has(flat, plans, file, ph, l)
        ensures Rank(out[i].adm.phase) <= Rank(ph)
      {
        assert out[i] in kept;
        var k :| 0 <= k < |kept| && kept[k] == out[i];
        assert Takes(kept[k], plans, file, l);
      }
      forall i, j | 0 <= i < j < |out|
        ensures Rank(out[i].adm.phase) <= Rank(out[j].adm.phase)
      {
        assert Le(OrderKey(out[i]), OrderKey(out[j]));
        assert Rooted(out[i], flat) && Rooted(out[j], flat);
      }
    }
  }

  /** The contract of coalescing: see `CoalesceSourceAdmissions`. */
  ghost predicate Coalesced(out: seq<Admission>, admissions: seq<Admission>, plans: seq<SourcePlan>, texts: Texts) {
    && AdmissionsOk(out, plans, texts)
    && (forall i :: 0 <= i < |out| ==> |out[i].ranges| == 1)
    && SentOnce(out, plans)
    && (forall file, l :: SendsAny(out, plans, file, l) <==> SendsAny(admissions, plans, file, l))
    && (forall file, ph, l :: Sends(out, plans, file, ph, l) ==> Sends(admissions, plans, file, ph, l))
    && (PhaseSorted(admissions) ==> PhaseSorted(out) && SentInFirstPhase(out, admissions, plans))
  }

  ghost predicate SentInFirstPhase(out: seq<Admission>, admissions: seq<Admission>, plans: seq<SourcePlan>) {
    forall file, ph, ph', l :: Sends(out, plans, file, ph, l) && Sends(admissions, plans, file, ph', l)
      ==> Rank(ph) <= Rank(ph')
  }

  lemma WrittenSends(out: seq<Admission>, es: seq<Entry>, plans: seq<SourcePlan>)
    requires Written(out, es)
    ensures forall file, ph, l :: Sends(out, plans, file, ph, l) <==> Has(es, plans, file, ph, l)
    ensures forall file, l :: SendsAny(out, plans, file, l) <==> Taken(es, plans, file, l)
  {
    forall file, ph, l
      ensures Sends(out, plans, file, ph, l) <==> Has(es, plans, file, ph, l)
    {
      if Has(es, plans, file, ph, l) {
        var i :| 0 <= i < |es| && Holds(es[i], plans, file, ph, l);
        EmitsCarries(out[i], es[i], plans, file, ph, l);
      }
      if Sends(out, plans, file, ph, l) {
        var i :| 0 <= i < |out| && Carries(out[i], plans, file, ph, l);
        EmitsCarries(out[i], es[i], plans, file, ph, l);
      }
    }
    forall file, l
      ensures SendsAny(out, plans, file, l) <==> Taken(es, plans, file, l)
    {
      HasTaken(es, plans, file, l);
    }
  }

  lemma WrittenOnce(out: seq<Admission>, es: seq<Entry>, plans: seq<SourcePlan>, texts: Texts)
    requires Written(out, es) && OnceOnly(es, plans) && EntriesOk(es, plans, texts)
    ensures SentOnce(out, plans) && AdmissionsOk(out, plans, texts)
  {
    forall i, j, file, ph, ph', l | 0 <= i < j < |out| && Carries(out[i], plans, file, ph, l)
      ensures !Carries(out[j], plans, file, ph', l)
    {
      EmitsCarries(out[i], es[i], plans, file, ph, l);
      EmitsCarries(out[j], es[j], plans, file, ph', l);
      OnceApart(es, plans, i, j, file, l);
    }
    forall i | 0 <= i < |out|
      ensures AdmissionOk(out[i], plans, texts)
    {
      assert EntryOk(es[i], plans, texts);
    }
  }

  lemma WrittenFirst(out: seq<Admission>, es: seq<Entry>, flat: seq<Entry>, admissions: seq<Admission>, plans: seq<SourcePlan>)
    requires Written(out, es) && FirstPhase(es, flat, plans)
    requires forall file, ph, l :: Has(flat, plans, file, ph, l) <==> Sends(admissions, plans, file, ph, l)
    ensures SentInFirstPhase(out, admissions, plans)
  {
    WrittenSends(out, es, plans);
    forall file, ph, ph', l | Sends(out, plans, file, ph, l) && Sends(admissions, plans, file, ph', l)
      ensures Rank(ph) <= Rank(ph')
    {
      var i :| 0 <= i < |es| && Holds(es[i], plans, file, ph, l);
      assert Takes(es[i], plans, file, l) && Has(flat, plans, file, ph', l);
    }
  }

  lemma SettledCoalesces(out: seq<Admission>, es: seq<Entry>, flat: seq<Entry>, admissions: seq<Admission>,
                         plans: seq<SourcePlan>, texts: Texts)
    requires Settled(es, flat, plans, texts)
    requires forall file, ph, l :: Has(flat, plans, file, ph, l) <==> Sends(admissions, plans, file, ph, l)
    requires PhaseSorted(admissions) ==> EntriesPhaseSorted(flat)
    requires Written(out, es)
    ensures Coalesced(out, admissions, plans, texts)
  {
    WrittenSends(out, es, plans);
    WrittenOnce(out, es, plans, texts);
    forall file, l
      ensures SendsAny(admissions, plans, file, l) <==> Taken(flat, plans, file, l)
    {
      HasTaken(flat, plans, file, l);
      if ph :| Has(flat, plans, file, ph, l) {
        assert Sends(admissions, plans, file, ph, l);
      }
    }
    forall file, ph, l | Sends(out, plans, file, ph, l)
      ensures Sends(admissions, plans, file, ph, l)
    {
      var i :| 0 <= i < |es| && Holds(es[i], plans, file, ph, l);
      assert Has(flat, plans, file, ph, l);
    }
    if PhaseSorted(admissions) {
      WrittenFirst(out, es, flat, admissions, plans);
    }
  }

  /**
   Every source line is sent at most once. The output carries exactly the requested lines, each
   with its file text, no line of a file in two admissions, one excerpt per admission. When the
   requests come in phase order, so does the output, and each line goes out in the first phase
   that asked for it. `requests` are the admissions merged where they overlap inside a file and phase;
   the output sends exactly their pieces, each credited with exactly the ids told by `SendsPiece`, in
   the order of the requests; `from` tells whose piece each is.
   */
  method CoalesceSourceAdmissions(admissions: seq<Admission>, plans: seq<SourcePlan>, nodes: Nodes, ghost texts: Texts)
    returns (out: seq<Admission>, ghost requests: seq<Entry>, ghost from: seq<nat>)
    requires AdmissionsOk(admissions, plans, texts)
    ensures Coalesced(out, admissions, plans, texts)
    ensures Merged(requests, FlatOf(admissions), plans) && EntriesOk(requests, plans, texts)
    ensures SendsPieces(out, requests, plans, nodes)
    ensures SentInOrder(out, from, requests, plans, nodes)
    ensures Accounted(out, admissions, plans, nodes)
  {
    hide Merged, SendsPieces, SentInOrder, Traced, Listed, OutInv, Settled, Coalesced, Accounted, Grouped, Shows, Apart;
    var flat := Flatten(admissions, plans, texts);
    var groups := GroupEntries(flat, plans, texts);
    var merged := MergeGroups(groups, flat, plans, texts);
    var same := SortEntries(merged);
    MembersKeep(same, merged, plans, texts, flat);
    hide Has, SameHas, Absorbed, AllMade;
    requests := same;
    var kept;
    ghost var keptFrom;
    kept, keptFrom := KeepFirst(same, plans, nodes, texts, flat);
    var es := SortEntries(kept);
    SortedSettles(kept, es, same, flat, plans, texts);
    out := [];
    for i := 0 to |es|
      invariant |out| == i
      invariant forall k :: 0 <= k < i ==> Emits(out[k], es[k])
    {
      out := out + [es[i].adm.(ranges := [es[i].range])];
    }
    SettledCoalesces(out, es, flat, admissions, plans, texts);
    PiecesWritten(out, es, kept, keptFrom, same, plans, nodes);
    InOrderWritten(same, flat, es, plans, texts);
    from := SortedAreInOrder(out, es, kept, keptFrom, same, plans, nodes);
    PiecesAccount(out, same, flat, admissions, plans, nodes);
  }

  lemma InOrderWritten(same: seq<Entry>, flat: seq<Entry>, es: seq<Entry>, plans: seq<SourcePlan>, texts: Texts)
    requires Merged(same, flat, plans) && Settled(es, flat, plans, texts)
    ensures OnceOnly(es, plans) && forall i, j :: 0 <= i < j < |same| ==> same[i].order < same[j].order
  {
    hide SameHas, Absorbed, AllMade, Apart;
  }

  /** Two places of sorted requests are two places of the requests, so they share no line of a file and phase. */
  lemma SortedApart(a: seq<Entry>, b: seq<Entry>, plans: seq<SourcePlan>, i: nat, j: nat, file: string, ph: Phase, l: int)
    requires multiset(a) == multiset(b) && Apart(b, plans) && i < j < |a|
    ensures Holds(a[i], plans, file, ph, l) ==> !Holds(a[j], plans, file, ph, l)
  {
    hide Holds;
    var x, y: nat;
    if a[i] == a[j] {
      RepeatedMember(a, i, j);
      x, y := TwoPlaces(b, a[i]);
    } else {
      assert a[i] in multiset(b) && a[j] in multiset(b);
      x :| 0 <= x < |b| && b[x] == a[i];
      y :| 0 <= y < |b| && b[y] == a[j];
    }
    assert if x < y then Holds(b[x], plans, file, ph, l) ==> !Holds(b[y], plans, file, ph, l)
           else Holds(b[y], plans, file, ph, l) ==> !Holds(b[x], plans, file, ph, l);
  }

  lemma StayApart(a: seq<Entry>, b: seq<Entry>, plans: seq<SourcePlan>)
    requires multiset(a) == multiset(b) && Apart(b, plans)
    ensures Apart(a, plans)
  {
    forall i, j, file, ph, l | 0 <= i < j < |a| && Holds(a[i], plans, file, ph, l)
      ensures !Holds(a[j], plans, file, ph, l)
    {
      SortedApart(a, b, plans, i, j, file, ph, l);
    }
  }

  /** Each request has the place of an entry of its own, so no two have the same. */
  lemma OwnPlaces(a: seq<Entry>, b: seq<Entry>, plans: seq<SourcePlan>, texts: Texts, flat: seq<Entry>, i: nat, j: nat)
    requires multiset(a) == multiset(b) && Apart(b, plans) && i < j < |a|
    requires PlacedBy(a[i], flat, plans) && PlacedBy(a[j], flat, plans) && Ordered(flat) && EntriesOk(flat, plans, texts)
    ensures a[i].order != a[j].order
  {
    hide Apart;
    var f :| f in flat && Belongs(f, a[i], plans) && f.order == a[i].order;
    var g :| g in flat && Belongs(g, a[j], plans) && g.order == a[j].order;
    var x: nat :| x < |flat| && flat[x] == f;
    var y: nat :| y < |flat| && flat[y] == g;
    assert x == f.order && y == g.order && EntryOk(flat[x], plans, texts);
    SortedApart(a, b, plans, i, j, plans[f.adm.plan].file, f.adm.phase, f.range.start);
  }

  lemma PlacesAscend(a: seq<Entry>, b: seq<Entry>, plans: seq<SourcePlan>, texts: Texts, flat: seq<Entry>)
    requires multiset(a) == multiset(b) && Apart(b, plans) && AllMade(a, flat, plans)
    requires Ordered(flat) && EntriesOk(flat, plans, texts)
    requires forall i, j :: 0 <= i < j < |a| ==> Le(OrderKey(a[i]), OrderKey(a[j]))
    ensures forall i, j :: 0 <= i < j < |a| ==> a[i].order < a[j].order
  {
    hide PlacedBy, LoosenedBy, AskedBy, BridgedBy, Apart, EntryOk;
    forall i, j | 0 <= i < j < |a|
      ensures a[i].order < a[j].order
    {
      assert a[i] in a && a[j] in a;
      assert MadeOf(a[i], flat, plans) && MadeOf(a[j], flat, plans);
      assert Le(OrderKey(a[i]), OrderKey(a[j]));
      OwnPlaces(a, b, plans, texts, flat, i, j);
    }
  }

  lemma MembersKeep(a: seq<Entry>, b: seq<Entry>, plans: seq<SourcePlan>, texts: Texts, flat: seq<Entry>)
    requires (forall e :: e in a <==> e in b) && EntriesOk(b, plans, texts) && AllRooted(b, flat)
    requires SameHas(b, flat, plans) && Absorbed(b, flat, plans) && AllMade(b, flat, plans)
    requires Apart(b, plans) && multiset(a) == multiset(b) && Ordered(flat) && EntriesOk(flat, plans, texts)
    requires forall i, j :: 0 <= i < j < |a| ==> Le(OrderKey(a[i]), OrderKey(a[j]))
    ensures EntriesOk(a, plans, texts) && AllRooted(a, flat) && SameHas(a, flat, plans)
    ensures Merged(a, flat, plans)
  {
    hide MadeOf, Absorbs, Apart;
    PlacesAscend(a, b, plans, texts, flat);
    StayApart(a, b, plans);
    forall i | 0 <= i < |a|
      ensures EntryOk(a[i], plans, texts) && Rooted(a[i], flat)
    {
      assert a[i] in b;
    }
    forall file, ph, l
      ensures Has(a, plans, file, ph, l) <==> Has(flat, plans, file, ph, l)
    {
      HasMembers(a, b, plans, file, ph, l);
      HasMembers(b, a, plans, file, ph, l);
    }
  }
}
