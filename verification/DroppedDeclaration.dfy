/**
 A planned declaration that neither stage keeps account of (src/graph/agent.rs): one range, lines 1 to 30
 of a file, carries three declarations; two of them, lines 1 to 10 and 11 to 25, are reserved and answered
 whole, and between them they have all lines of the third, 5 to 20. What remains of the range, lines 26 to
 30, does not meet it.
 */
module DroppedDeclaration {
  import opened Prelude
  import opened SourceRanges
  import opened Admissions
  import opened RangeCuts
  import opened Crediting
  import opened Accounting
  import opened FilePlans
  import opened PutForward
  import opened FilePlanning
  import opened PlannedIds
  import opened ScopePlan
  import opened LostDeclaration

  const FIRST := "A"
  const SECOND := "B"

  const DECLARED: Nodes :=
    map[FIRST := Node(FIRST, FILE, 1, 10), SECOND := Node(SECOND, FILE, 11, 25), DECLARATION := Node(DECLARATION, FILE, 5, 20)]

  const SELECTION := Selection([FIRST, SECOND], map[], {}, {FIRST, SECOND}, map[])

  function Range(): SourceRange { Excerpt(1, 30, [FIRST, SECOND, DECLARATION]) }

  function Plan(): SourcePlan { SourcePlan(FILE, "graph", false, [Range()]) }

  lemma PlanIsOk()
    ensures PlansOk([Plan()], File()) && NodesOk(DECLARED)
    ensures IdsMeet(Plan().ranges, DECLARED)
    ensures DECLARATION in Range().nodeIds
  {
    hide Numbered, Shows;
    ExcerptShows(1, 30, [FIRST, SECOND, DECLARATION]);
  }

  lemma BothChosen()
    ensures ChosenIds(SELECTION, FILE, DECLARED, 2) == [FIRST, SECOND]
    ensures FlowIds(SELECTION, FILE, DECLARED) == {}
  {
    assert Chosen(SELECTION, FILE, DECLARED, 0) && Chosen(SELECTION, FILE, DECLARED, 1);
    assert ChosenIds(SELECTION, FILE, DECLARED, 1) == [FIRST];
  }

  /** A reserved declaration of the range is put forward whole. */
  lemma PutWhole(id: NodeId)
    requires id == FIRST || id == SECOND
    ensures Carried(id, [Range()], DECLARED) && Completes(id, [Range()], DECLARED)
    ensures var put := PutOf(0, id, false, true, SELECTION, [Range()], DECLARED);
            && put.range == 0 && put.excerpt.nodeIds == [id]
            && put.excerpt.start == DECLARED[id].start && put.excerpt.end == DECLARED[id].end
  {
    hide Numbered;
    assert CarriesDeclarationLine([Range()][0], DECLARED[id]);
    assert BestDeclarationRangeIndex([Range()], DECLARED[id]) == Some(0);
  }

  lemma PutsAre()
    ensures var puts := PutsFor(0, Plan(), SELECTION, DECLARED);
            && |puts| == 2 && puts[0].range == 0 && puts[1].range == 0
            && puts[0].excerpt.nodeIds == [FIRST] && puts[1].excerpt.nodeIds == [SECOND]
            && puts[0].excerpt.start == 1 && puts[0].excerpt.end == 10
            && puts[1].excerpt.start == 11 && puts[1].excerpt.end == 25
  {
    BothChosen();
    PutWhole(FIRST);
    PutWhole(SECOND);
    NotWhole();
    BothDirect();
    var direct := DirectIds([FIRST, SECOND], SELECTION, {}, [Range()], DECLARED);
    BothPut(direct);
    hide Numbered, ChosenIds, FlowIds, DirectIds, Completes, Carried, PutOf, PutsOf, Excerpt, PlannedWhole;
    assert PutsFor(0, Plan(), SELECTION, DECLARED) == PutsOf(0, [FIRST, SECOND], {}, direct, SELECTION, [Range()], DECLARED);
  }

  lemma BothDirect()
    ensures var direct := DirectIds([FIRST, SECOND], SELECTION, {}, [Range()], DECLARED); FIRST in direct && SECOND in direct
  {
    PutWhole(FIRST);
    PutWhole(SECOND);
    hide Completes, Numbered;
  }

  lemma BothPut(direct: set<NodeId>)
    requires FIRST in direct && SECOND in direct && Carried(FIRST, [Range()], DECLARED) && Carried(SECOND, [Range()], DECLARED)
    ensures PutsOf(0, [FIRST, SECOND], {}, direct, SELECTION, [Range()], DECLARED)
            == [PutOf(0, FIRST, false, true, SELECTION, [Range()], DECLARED), PutOf(0, SECOND, false, true, SELECTION, [Range()], DECLARED)]
  {
    hide Numbered, Carried, PutOf, Excerpt;
    var selected := [FIRST, SECOND];
    assert selected[..1] == [FIRST] && [FIRST][..0] == [];
    assert PutsOf(0, [FIRST], {}, direct, SELECTION, [Range()], DECLARED)
           == [] + [PutOf(0, FIRST, false, true, SELECTION, [Range()], DECLARED)];
  }

  lemma NotWhole()
    ensures !PlannedWhole(Plan())
  {
  }

  lemma NotAsked()
    ensures !StillAsked(Plan(), 0, SELECTION, DECLARED, DECLARATION)
  {
    PutsAre();
    var puts := PutsFor(0, Plan(), SELECTION, DECLARED);
    hide PutsFor;
    forall q | q in puts
      ensures DECLARATION !in q.excerpt.nodeIds
    {
      assert q == puts[0] || q == puts[1];
    }
    forall start, end | Gap(Range(), CutBy(puts, 0), start, end)
      ensures !StandsFor(DECLARATION, Range(), start, end, DECLARED)
    {
      assert puts[0] in puts && puts[1] in puts;
      assert Takes(puts, 0, start) <==> start in CutBy(puts, 0);
      assert Within(puts[0].excerpt, start) || Within(puts[1].excerpt, start) || start > 25;
    }
    assert forall i: nat :: i < |[Range()]| ==> [Range()][i] == Range() && i == 0;
  }

  /** Both stages run: every line of the declaration goes out, and no excerpt is credited with it. */
  method DroppedDeclarationIsLost() returns (out: seq<Admission>)
    ensures forall l :: 5 <= l <= 20 ==> SendsAny(out, [Plan()], FILE, l)
    ensures !CreditedIn(out, [Plan()], FILE, DECLARATION)
    ensures IdsMeet(Plan().ranges, DECLARED) && DECLARATION in Range().nodeIds
  {
    PlanIsOk();
    NotAsked();
    ghost var ordered, fps, slots, requests, from;
    out, ordered, fps, slots, requests, from := PlanAdmissions([Plan()], SELECTION, DECLARED, File());
    LinesPlanned(out);
    NeverCredited(out, ordered);
  }

  lemma LinesPlanned(out: seq<Admission>)
    requires forall file, l :: SendsAny(out, [Plan()], file, l) <==> Planned([Plan()], file, l)
    ensures forall l :: 5 <= l <= 20 ==> SendsAny(out, [Plan()], FILE, l)
  {
    hide Numbered;
    forall l | 5 <= l <= 20
      ensures Planned([Plan()], FILE, l)
    {
      assert Within([Plan()][0].ranges[0], l);
      assert Covers([Plan()][0].ranges, l);
    }
  }

  lemma NeverCredited(out: seq<Admission>, ordered: seq<Admission>)
    requires AsksStill(ordered, [Plan()], SELECTION, DECLARED) && Accounted(out, ordered, [Plan()], DECLARED)
    requires !StillAsked(Plan(), 0, SELECTION, DECLARED, DECLARATION)
    ensures !CreditedIn(out, [Plan()], FILE, DECLARATION)
  {
    NeverAsked(ordered);
    hide StillAsked, Accounts, Plan, Range, File, AskedFor;
  }

  lemma NeverAsked(ordered: seq<Admission>)
    requires AsksStill(ordered, [Plan()], SELECTION, DECLARED) && !StillAsked(Plan(), 0, SELECTION, DECLARED, DECLARATION)
    ensures forall o :: !AskedFor(DECLARATION, o, ordered, [Plan()])
  {
    assert Plan().ranges != [] && [Plan()][0] == Plan();
    hide StillAsked, Plan, Range, File;
    assert !AsksPlan(ordered, 0, DECLARATION);
    forall o
      ensures !AskedFor(DECLARATION, o, ordered, [Plan()])
    {
      assert forall a :: SameSource(o, a, [Plan()]) ==> a.plan == 0;
    }
  }
}
