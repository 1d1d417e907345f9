/**
 A declaration whose lines all go out and that no excerpt is credited with (src/graph/agent.rs): it has
 lines 5 to 20 of its file; two answers ask for lines 1 to 10 and 11 to 25, and an optional body of lines
 1 to 30 asks for the declaration.
 */
module LostDeclaration {
  import opened SourceRanges
  import opened Sorting
  import opened Admissions
  import opened Entries
  import opened Grouping
  import opened Merging
  import opened RangeCuts
  import opened Crediting
  import opened KeptPieces
  import opened Accounting
  import opened Coalesce

  const FILE := "f"
  const DECLARATION := "X"
  const PLANS := [SourcePlan(FILE, "graph", false, [])]
  const NODES: Nodes := map[DECLARATION := Node(DECLARATION, FILE, 5, 20)]

  /** An excerpt of a file of empty lines. */
  function Excerpt(start: nat, end: nat, ids: seq<NodeId>): SourceRange
    requires start <= end
  {
    SourceRange(start, end, ids, seq(end - start + 1, (i: nat) => Numbered(start + i, 2, "")), false, QueryHit)
  }

  function Asked(): seq<Admission> {
    [Admission(0, [Excerpt(1, 10, [])], Answer, true), Admission(0, [Excerpt(11, 25, [])], Answer, true),
     Admission(0, [Excerpt(1, 30, [DECLARATION])], Phase.Optional, false)]
  }

  function Blank(): seq<string> { seq(30, _ => "") }

  ghost function File(): Texts { map[FILE := Blank()] }

  lemma ExcerptShows(start: nat, end: nat, ids: seq<NodeId>)
    requires 1 <= start <= end <= 30
    ensures Shows(Excerpt(start, end, ids), Blank())
  {
    hide Numbered;
    var r := Excerpt(start, end, ids);
    forall i | 0 <= i < |r.lines|
      ensures ShowsLine(r.lines[i], r.start + i, Blank()[r.start + i - 1])
    {
      assert r.lines[i] == Numbered(start + i, 2, "");
    }
  }

  /** The three requests do not overlap inside a phase, so merging leaves them as they are. */
  ghost predicate Spans(m: Entry, start: int, end: int, ph: Phase, order: int) {
    m.range.start == start && m.range.end == end && m.adm.phase == ph && m.order == order && m.adm.plan == 0
  }

  ghost predicate Shaped(m: Entry) {
    || (Spans(m, 1, 10, Answer, 0) && DECLARATION !in m.range.nodeIds)
    || (Spans(m, 11, 25, Answer, 1) && DECLARATION !in m.range.nodeIds)
    || Spans(m, 1, 30, Phase.Optional, 2)
  }

  ghost predicate FlatShaped(flat: seq<Entry>) {
    && |flat| == 3
    && Spans(flat[0], 1, 10, Answer, 0) && flat[0].range.nodeIds == []
    && Spans(flat[1], 11, 25, Answer, 1) && flat[1].range.nodeIds == []
    && Spans(flat[2], 1, 30, Phase.Optional, 2)
  }

  lemma FlatIs()
    ensures FlatShaped(FlatOf(Asked()))
  {
    hide Numbered;
    var asked := Asked();
    assert asked == ([] + [asked[0]] + [asked[1]]) + [asked[2]];
    FlatSnoc([], asked[0]);
    FlatSnoc([] + [asked[0]], asked[1]);
    FlatSnoc([] + [asked[0]] + [asked[1]], asked[2]);
    assert FlatOf([]) == [];
  }

  lemma MergedShape(rs: seq<Entry>, flat: seq<Entry>, k: nat)
    requires Merged(rs, flat, PLANS) && FlatShaped(flat) && k < |rs|
    ensures Shaped(rs[k])
  {
    var m := rs[k];
    assert m in rs && MadeOf(m, flat, PLANS);
    assert forall f :: f in flat ==> f == flat[0] || f == flat[1] || f == flat[2];
    assert Bridges(m, 0) <==> m.range.start <= 0 < m.range.end;
    assert Bridges(m, 10) <==> m.range.start <= 10 < m.range.end;
    assert Bridges(m, 25) <==> m.range.start <= 25 < m.range.end;
    assert Bridges(m, 30) <==> m.range.start <= 30 < m.range.end;
    assert !BridgedBy(0, m, flat, PLANS) && !BridgedBy(30, m, flat, PLANS);
    assert m.adm.phase == Answer ==> !BridgedBy(10, m, flat, PLANS) && !BridgedBy(25, m, flat, PLANS);
    assert m.adm.phase == Answer ==> !AskedBy(DECLARATION, m, flat, PLANS);
    var f :| f in flat && Belongs(f, m, PLANS) && f.order == m.order;
  }

  ghost predicate PlansAre(rs: seq<Entry>, flat: seq<Entry>) {
    Merged(rs, flat, PLANS) && FlatShaped(flat) && PlansKnown(rs, PLANS)
  }

  /** A request ahead of another has a place no later. */
  lemma Placed(rs: seq<Entry>, flat: seq<Entry>, i: nat, k: nat)
    requires PlansAre(rs, flat) && i < |rs| && k < |rs|
    ensures Shaped(rs[i]) && Shaped(rs[k]) && (i < k ==> rs[i].order <= rs[k].order)
  {
    MergedShape(rs, flat, i);
    MergedShape(rs, flat, k);
    hide SameHas, Absorbed, AllMade, Shaped;
    assert i < k ==> rs[i].order < rs[k].order;
  }

  /** The lines of the earlier requests are taken when a later one's turn comes. */
  lemma TakenEarlier(rs: seq<Entry>, flat: seq<Entry>, k: nat, a: nat, l: int)
    requires PlansAre(rs, flat) && k < |rs| && a < 2 && a < rs[k].order && Within(flat[a].range, l)
    ensures l in TakenBefore(rs, PLANS, k)
  {
    assert Holds(flat[a], PLANS, FILE, Answer, l);
    assert Has(flat, PLANS, FILE, Answer, l);
    assert Has(rs, PLANS, FILE, Answer, l);
    var i :| 0 <= i < |rs| && Holds(rs[i], PLANS, FILE, Answer, l);
    Placed(rs, flat, i, k);
    Placed(rs, flat, k, i);
    assert rs[..k][i] == rs[i] && Takes(rs[..k][i], PLANS, FILE, l);
    assert rs[k].adm.plan == 0;
  }

  /** What is taken when a request that has a piece gets its turn belongs to requests with earlier places. */
  lemma TakenByEarlier(rs: seq<Entry>, flat: seq<Entry>, j: nat, start: int, end: int, l: int) returns (i: nat)
    requires PlansAre(rs, flat) && Piece(rs, PLANS, j, start, end) && l in TakenBefore(rs, PLANS, j)
    ensures i < j && Shaped(rs[i]) && rs[i].order < rs[j].order && Within(rs[i].range, l)
  {
    var file := PLANS[rs[j].adm.plan].file;
    i :| 0 <= i < |rs[..j]| && Takes(rs[..j][i], PLANS, file, l);
    Placed(rs, flat, i, j);
    assert start !in TakenBefore(rs, PLANS, j);
    assert !Taken(rs[..j], PLANS, file, start);
    assert !Takes(rs[..j][i], PLANS, file, start) && rs[..j][i] == rs[i];
  }

  /** No piece of an earlier request earns the declaration. */
  lemma NobodyEarns(rs: seq<Entry>, flat: seq<Entry>, j: nat, start: int, end: int, k: nat)
    requires PlansAre(rs, flat) && Piece(rs, PLANS, j, start, end)
    ensures !EarnsFrom(DECLARATION, rs, PLANS, NODES, j, start, end, k)
  {
    if EarnsFrom(DECLARATION, rs, PLANS, NODES, j, start, end, k) {
      EarnedIsAsked(DECLARATION, rs, PLANS, NODES, j, start, end, k);
      Placed(rs, flat, j, k);
      assert rs[k].order == 2;
      var taken := KeptAhead(rs, PLANS, j, start);
      var from, until :| Gap(rs[k].range, taken, from, until)
                         && EarnsBy(DECLARATION, rs[k].range, from, until, rs[j].range.(start := start, end := end), NODES);
      NoGapInside(rs, flat, j, start, end, from, until);
    }
  }

  lemma NoGapInside(rs: seq<Entry>, flat: seq<Entry>, j: nat, start: int, end: int, from: int, until: int)
    requires PlansAre(rs, flat) && Piece(rs, PLANS, j, start, end) && Shaped(rs[j])
    requires 1 <= from <= until <= 30 && (until == 30 || until + 1 in KeptAhead(rs, PLANS, j, start))
    requires (from == 1 && until == 30) || (from <= 20 && until >= 5)
    ensures !(start <= from && until <= end) && !(start <= 5 && 20 <= end)
  {
    if rs[j].order == 2 {
      assert start > 25 by {
        if start <= 25 {
          TakenEarlier(rs, flat, j, if start <= 10 then 0 else 1, start);
        }
      }
    } else if start <= from && until <= end {
      var i := TakenByEarlier(rs, flat, j, start, end, until + 1);
    }
  }

  /** The last request asks in vain. */
  lemma LastLoses(rs: seq<Entry>, flat: seq<Entry>, k: nat)
    requires PlansAre(rs, flat) && k < |rs| && AsksFor(rs[k], PLANS, FILE, DECLARATION)
    ensures Loses(DECLARATION, rs, PLANS, NODES, k)
  {
    MergedShape(rs, flat, k);
    hide Merged;
    forall start, end | Piece(rs, PLANS, k, start, end)
      ensures !StandsFor(DECLARATION, rs[k].range, start, end, NODES)
    {
      if start <= 25 {
        TakenEarlier(rs, flat, k, if start <= 10 then 0 else 1, start);
      }
    }
    forall j: nat, start, end | Piece(rs, PLANS, j, start, end)
      ensures !EarnsFrom(DECLARATION, rs, PLANS, NODES, j, start, end, k)
    {
      NobodyEarns(rs, flat, j, start, end, k);
    }
  }

  /** The run: every line of the declaration goes out, and no excerpt is credited with it. */
  method SplitDeclarationIsLost() returns (out: seq<Admission>)
    ensures forall l :: 5 <= l <= 20 ==> SendsAny(out, PLANS, FILE, l)
    ensures !CreditedIn(out, PLANS, FILE, DECLARATION)
    ensures exists i :: 0 <= i < |Asked()| && Covers(Asked()[i].ranges, 5) && DECLARATION in Asked()[i].ranges[0].nodeIds
  {
    ghost var requests;
    AskedIsOk();
    ghost var from;
    out, requests, from := CoalesceSourceAdmissions(Asked(), PLANS, NODES, File());
    FlatIs();
    LinesSent(out);
    KnownPlans(requests);
    hide SendsPieces, Merged, FlatOf, FlatShaped;
    forall k: nat | k < |requests| && AsksFor(requests[k], PLANS, FILE, DECLARATION)
      ensures Loses(DECLARATION, requests, PLANS, NODES, k)
    {
      LastLoses(requests, FlatOf(Asked()), k);
    }
    CreditedNowhere(out, requests, PLANS, NODES, FILE, DECLARATION);
  }

  lemma KnownPlans(rs: seq<Entry>)
    requires EntriesOk(rs, PLANS, File())
    ensures PlansKnown(rs, PLANS)
  {
    forall i | 0 <= i < |rs|
      ensures rs[i].adm.plan < |PLANS|
    {
      assert EntryOk(rs[i], PLANS, File());
    }
  }

  lemma AskedIsOk()
    ensures AdmissionsOk(Asked(), PLANS, File())
    ensures Covers(Asked()[2].ranges, 5) && DECLARATION in Asked()[2].ranges[0].nodeIds
  {
    hide Numbered, Shows;
    ExcerptShows(1, 10, []);
    ExcerptShows(11, 25, []);
    ExcerptShows(1, 30, [DECLARATION]);
    assert Within(Asked()[2].ranges[0], 5);
  }

  lemma LinesSent(out: seq<Admission>)
    requires Coalesced(out, Asked(), PLANS, File())
    ensures forall l :: 5 <= l <= 20 ==> SendsAny(out, PLANS, FILE, l)
  {
    hide Numbered, SentOnce, AdmissionsOk, PhaseSorted;
    forall l | 5 <= l <= 20
      ensures SendsAny(out, PLANS, FILE, l)
    {
      var i := 2;
      assert Within(Asked()[i].ranges[0], l);
      assert Carries(Asked()[i], PLANS, FILE, Phase.Optional, l);
      assert Sends(Asked(), PLANS, FILE, Phase.Optional, l);
      assert SendsAny(Asked(), PLANS, FILE, l);
    }
  }
}
