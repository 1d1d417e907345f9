/** In which order coalesced admissions go out, told from what was asked for (src/graph/agent.rs). */
module SendOrder {
  import opened Prelude
  import opened SourceRanges
  import opened Admissions
  import opened Entries
  import opened Grouping
  import opened Merging
  import opened KeptPieces
  import opened Accounting
  import opened Coalesce
  import LostDeclaration

  // ----- Places and admissions -----

  /** The place of the first excerpt of admission `a`. */
  ghost function FirstPlace(admissions: seq<Admission>, a: nat): nat
    requires a <= |admissions|
  {
    |FlatOf(admissions[..a])|
  }

  /** The place of excerpt `t` of admission `a` counts the excerpts before it. */
  lemma {:induction false} PlaceOf(admissions: seq<Admission>, a: nat, t: nat)
    requires a < |admissions| && t < |admissions[a].ranges|
    ensures var p := FirstPlace(admissions, a) + t;
            p < |FlatOf(admissions)| && FlatOf(admissions)[p] == Entry(admissions[a], admissions[a].ranges[t], p)
  {
    var n := |admissions| - 1;
    var front := admissions[..n];
    if a < n {
      assert front[..a] == admissions[..a];
      PlaceOf(front, a, t);
    }
  }

  /** Every place is that of an excerpt, and later places are those of later admissions or excerpts. */
  lemma {:induction false} PlaceIsOf(admissions: seq<Admission>, p: nat) returns (a: nat, t: nat)
    requires p < |FlatOf(admissions)|
    ensures a < |admissions| && t < |admissions[a].ranges| && p == FirstPlace(admissions, a) + t
  {
    var n := |admissions| - 1;
    var front := admissions[..n];
    if p < |FlatOf(front)| {
      a, t := PlaceIsOf(front, p);
      assert front[..a] == admissions[..a];
    } else {
      a, t := n, p - |FlatOf(front)|;
    }
  }

  lemma {:induction false} PlacesGrow(admissions: seq<Admission>, a: nat, b: nat)
    requires a <= b <= |admissions|
    ensures FirstPlace(admissions, a) <= FirstPlace(admissions, b)
    ensures a < b ==> FirstPlace(admissions, a) + |admissions[a].ranges| <= FirstPlace(admissions, b)
  {
    if a < b {
      PlacesGrow(admissions, a, b - 1);
      assert admissions[..b] == admissions[..b - 1] + [admissions[b - 1]];
      FlatSnoc(admissions[..b - 1], admissions[b - 1]);
    }
  }

  // ----- The order of lines -----

  /** The request a sent line comes from holds it, in its file and phase. */
  lemma CarriedIsHeld(out: seq<Admission>, from: seq<nat>, requests: seq<Entry>, plans: seq<SourcePlan>, nodes: Nodes,
                      i: nat, file: string, ph: Phase, l: int)
    requires SentInOrder(out, from, requests, plans, nodes) && i < |out| && Carries(out[i], plans, file, ph, l)
    ensures from[i] < |requests| && Holds(requests[from[i]], plans, file, ph, l)
    ensures out[i].ranges == [out[i].ranges[0]] && Within(out[i].ranges[0], l)
  {
    hide TakenBefore, HasCredits;
    CoversOne(out[i].ranges[0], l);
    assert SendsPiece(out[i], out[i].ranges[0], requests, plans, nodes, from[i]);
  }

  lemma SameRequest(requests: seq<Entry>, plans: seq<SourcePlan>, i: nat, m: Entry, file: string, ph: Phase, l: int)
    requires Apart(requests, plans) && i < |requests| && m in requests
    requires Holds(requests[i], plans, file, ph, l) && Holds(m, plans, file, ph, l)
    ensures requests[i] == m
  {
    hide Holds;
    var j: nat :| j < |requests| && requests[j] == m;
    assert i == j || i < j || j < i;
  }

  /**
   Of two lines in different admissions of one phase, one goes out before the other exactly when its
   request has the earlier place, or it is the earlier line of the same request.
   */
  lemma PlaceDecides(out: seq<Admission>, from: seq<nat>, requests: seq<Entry>, flat: seq<Entry>, plans: seq<SourcePlan>,
                     nodes: Nodes, i: nat, k: nat, file: string, file': string, ph: Phase, l: int, l': int, m: Entry, m': Entry)
    requires SentInOrder(out, from, requests, plans, nodes) && Merged(requests, flat, plans)
    requires i < |out| && k < |out| && i != k
    requires Carries(out[i], plans, file, ph, l) && Carries(out[k], plans, file', ph, l')
    requires m in requests && m' in requests && Holds(m, plans, file, ph, l) && Holds(m', plans, file', ph, l')
    ensures i < k <==> m.order < m'.order || (m == m' && l < l')
  {
    hide SameHas, Absorbed, AllMade, Apart, SendsPiece, Carries, Holds;
    CarriedIsHeld(out, from, requests, plans, nodes, i, file, ph, l);
    CarriedIsHeld(out, from, requests, plans, nodes, k, file', ph, l');
    SameRequest(requests, plans, from[i], m, file, ph, l);
    SameRequest(requests, plans, from[k], m', file', ph, l');
    assert if i < k then Before(out, from, i, k) else Before(out, from, k, i);
  }

  /** Excerpt `t` of admission `a`, no later than admission `b`, is the earliest one merged into `m`. */
  ghost predicate Leads(m: Entry, ordered: seq<Admission>, plans: seq<SourcePlan>, file: string, ph: Phase, a: nat, t: nat) {
    && a < |ordered| && t < |ordered[a].ranges| && ordered[a].phase == ph
    && ordered[a].plan < |plans| && plans[ordered[a].plan].file == file
    && Contains(m.range, ordered[a].ranges[t]) && m.order == FirstPlace(ordered, a) + t
  }

  /** The request that holds a line was asked for, in part at least, by admission `b` or an earlier one. */
  ghost predicate LedBy(requests: seq<Entry>, ordered: seq<Admission>, plans: seq<SourcePlan>, file: string, ph: Phase,
                        l: int, b: nat) {
    exists m, a: nat, t: nat :: m in requests && Holds(m, plans, file, ph, l) && a <= b && Leads(m, ordered, plans, file, ph, a, t)
  }

  /** A request has the place of the earliest excerpt merged into it. */
  lemma {:induction false} RequestIsLed(requests: seq<Entry>, ordered: seq<Admission>, plans: seq<SourcePlan>, m: Entry, file: string, ph: Phase,
                     l: int) returns (a: nat, t: nat)
    requires Merged(requests, FlatOf(ordered), plans) && m in requests && Holds(m, plans, file, ph, l)
    requires Ordered(FlatOf(ordered))
    ensures Leads(m, ordered, plans, file, ph, a, t)
  {
    hide SameHas, Absorbed, Apart, LoosenedBy, AskedBy, BridgedBy;
    var flat := FlatOf(ordered);
    assert MadeOf(m, flat, plans);
    var f :| f in flat && Belongs(f, m, plans) && f.order == m.order;
    var p: nat :| p < |flat| && flat[p] == f;
    a, t := PlaceIsOf(ordered, p);
    PlaceOf(ordered, a, t);
  }

  /**
   No line goes out before one that admission `b` of its phase asked for, unless admission `b` or an
   earlier one asked for part of the request that holds it.
   */
  lemma {:induction false} LaterNeverFirst(out: seq<Admission>, from: seq<nat>, requests: seq<Entry>, ordered: seq<Admission>, plans: seq<SourcePlan>,
                        nodes: Nodes, i: nat, k: nat, file: string, file': string, ph: Phase, l: int, l': int, b: nat)
    requires SentInOrder(out, from, requests, plans, nodes) && Merged(requests, FlatOf(ordered), plans)
    requires Ordered(FlatOf(ordered)) && i < k < |out| && b < |ordered|
    requires Carries(out[i], plans, file, ph, l) && Carries(out[k], plans, file', ph, l')
    requires Carries(ordered[b], plans, file', ph, l')
    ensures LedBy(requests, ordered, plans, file, ph, l, b)
  {
    CarriedIsHeld(out, from, requests, plans, nodes, i, file, ph, l);
    CarriedIsHeld(out, from, requests, plans, nodes, k, file', ph, l');
    hide SentInOrder, Merged, Carries, FlatOf, Holds;
    var m, m' := requests[from[i]], requests[from[k]];
    PlaceDecides(out, from, requests, FlatOf(ordered), plans, nodes, i, k, file, file', ph, l, l', m, m');
    var t := HeldByFirst(requests, ordered, plans, m', file', ph, l', b);
    var a, u := RequestIsLed(requests, ordered, plans, m, file, ph, l);
    if b < a {
      PlacesGrow(ordered, b, a);
    }
    assert a <= b;
  }

  /** The request of a line comes no later than an admission that asked for the line. */
  lemma {:induction false} HeldByFirst(requests: seq<Entry>, ordered: seq<Admission>, plans: seq<SourcePlan>, m: Entry,
                                       file: string, ph: Phase, l: int, b: nat) returns (t: nat)
    requires Merged(requests, FlatOf(ordered), plans) && m in requests && Holds(m, plans, file, ph, l)
    requires b < |ordered| && Carries(ordered[b], plans, file, ph, l)
    ensures t < |ordered[b].ranges| && m.order <= FirstPlace(ordered, b) + t
  {
    t :| 0 <= t < |ordered[b].ranges| && Within(ordered[b].ranges[t], l);
    PlaceOf(ordered, b, t);
    hide FlatOf, Apart, SameHas, AllMade;
    var f := FlatOf(ordered)[FirstPlace(ordered, b) + t];
    assert f in FlatOf(ordered) && Holds(f, plans, file, ph, l);
    assert Absorbs(m, f);
  }

  /** What goes out in one phase goes out by priority: see `LaterNeverFirst`. */
  ghost predicate SentByPriority(out: seq<Admission>, requests: seq<Entry>, ordered: seq<Admission>, plans: seq<SourcePlan>) {
    forall i, k, file, file', ph, l, l', b: nat :: 0 <= i < k < |out| && b < |ordered|
      && Carries(out[i], plans, file, ph, l) && Carries(out[k], plans, file', ph, l') && Carries(ordered[b], plans, file', ph, l')
      ==> LedBy(requests, ordered, plans, file, ph, l, b)
  }

  lemma {:induction false} PriorityKept(out: seq<Admission>, from: seq<nat>, requests: seq<Entry>, ordered: seq<Admission>,
                     plans: seq<SourcePlan>, nodes: Nodes)
    requires SentInOrder(out, from, requests, plans, nodes) && Merged(requests, FlatOf(ordered), plans)
    ensures SentByPriority(out, requests, ordered, plans)
  {
    hide SentInOrder, Merged, Carries, LedBy, FlatOf;
    FlatIsOrdered(ordered);
    forall i, k, file, file', ph, l, l', b: nat | 0 <= i < k < |out| && b < |ordered|
      && Carries(out[i], plans, file, ph, l) && Carries(out[k], plans, file', ph, l') && Carries(ordered[b], plans, file', ph, l')
      ensures LedBy(requests, ordered, plans, file, ph, l, b)
    {
      LaterNeverFirst(out, from, requests, ordered, plans, nodes, i, k, file, file', ph, l, l', b);
    }
  }

  lemma {:induction false} FlatIsOrdered(admissions: seq<Admission>)
    ensures Ordered(FlatOf(admissions))
  {
    if admissions != [] {
      FlatIsOrdered(admissions[..|admissions| - 1]);
    }
  }

  // ----- A line that goes out ahead of its turn -----

  const PLANS := [SourcePlan("a", "graph", false, []), SourcePlan("b", "graph", false, [])]

  ghost function Files(): Texts { map["a" := LostDeclaration.Blank(), "b" := LostDeclaration.Blank()] }

  /** Lines 1 to 5 of one file, then lines 1 to 5 of another, then lines 5 to 10 of the first. */
  function Asked(): seq<Admission> {
    [Admission(0, [LostDeclaration.Excerpt(1, 5, [])], Answer, true),
     Admission(1, [LostDeclaration.Excerpt(1, 5, [])], Answer, true),
     Admission(0, [LostDeclaration.Excerpt(5, 10, [])], Answer, true)]
  }

  lemma AskedIsOk()
    ensures AdmissionsOk(Asked(), PLANS, Files())
    ensures Carries(Asked()[2], PLANS, "a", Answer, 10) && Carries(Asked()[1], PLANS, "b", Answer, 1)
    ensures forall a :: 0 <= a < 3 && Carries(Asked()[a], PLANS, "a", Answer, 10) ==> a == 2
  {
    hide Shows, Numbered;
    LostDeclaration.ExcerptShows(1, 5, []);
    LostDeclaration.ExcerptShows(5, 10, []);
    assert Within(Asked()[2].ranges[0], 10) && Within(Asked()[1].ranges[0], 1);
  }

  ghost predicate Spans(e: Entry, plan: nat, start: int, end: int, order: int) {
    e.adm.plan == plan && e.adm.phase == Answer && e.range.start == start && e.range.end == end && e.order == order
  }

  lemma FlatIs()
    ensures var flat := FlatOf(Asked());
            |flat| == 3 && Spans(flat[0], 0, 1, 5, 0) && Spans(flat[1], 1, 1, 5, 1) && Spans(flat[2], 0, 5, 10, 2)
  {
    hide Numbered;
    var asked := Asked();
    assert asked == ([] + [asked[0]] + [asked[1]]) + [asked[2]];
    FlatSnoc([], asked[0]);
    FlatSnoc([] + [asked[0]], asked[1]);
    FlatSnoc([] + [asked[0]] + [asked[1]], asked[2]);
    assert FlatOf([]) == [];
  }

  /** The last admission is merged with the first one, and takes its place. */
  lemma {:induction false} MergedAhead(requests: seq<Entry>) returns (m: Entry, m': Entry)
    requires Merged(requests, FlatOf(Asked()), PLANS)
    ensures m in requests && m' in requests && m.order < m'.order
    ensures Holds(m, PLANS, "a", Answer, 10) && Holds(m', PLANS, "b", Answer, 1)
  {
    FlatIs();
    var flat := FlatOf(Asked());
    hide FlatOf, Asked, Apart;
    assert Holds(flat[2], PLANS, "a", Answer, 10) && Holds(flat[1], PLANS, "b", Answer, 1);
    assert Has(requests, PLANS, "a", Answer, 10) && Has(requests, PLANS, "b", Answer, 1);
    var i :| 0 <= i < |requests| && Holds(requests[i], PLANS, "a", Answer, 10);
    var j :| 0 <= j < |requests| && Holds(requests[j], PLANS, "b", Answer, 1);
    m, m' := requests[i], requests[j];
    FirstLeads(requests, flat, m);
    SecondStays(requests, flat, m');
  }

  lemma FirstLeads(requests: seq<Entry>, flat: seq<Entry>, m: Entry)
    requires Merged(requests, flat, PLANS) && m in requests && Holds(m, PLANS, "a", Answer, 10)
    requires |flat| == 3 && Spans(flat[0], 0, 1, 5, 0) && Spans(flat[2], 0, 5, 10, 2)
    ensures m.order <= 0
  {
    hide Apart, AllMade, SameHas;
    assert flat[2] in flat && Holds(flat[2], PLANS, "a", Answer, 10);
    assert Absorbs(m, flat[2]);
    assert Holds(m, PLANS, "a", Answer, 5) && Holds(flat[0], PLANS, "a", Answer, 5);
    assert flat[0] in flat && Absorbs(m, flat[0]);
  }

  lemma SecondStays(requests: seq<Entry>, flat: seq<Entry>, m: Entry)
    requires Merged(requests, flat, PLANS) && m in requests && Holds(m, PLANS, "b", Answer, 1)
    requires |flat| == 3 && Spans(flat[0], 0, 1, 5, 0) && Spans(flat[1], 1, 1, 5, 1) && Spans(flat[2], 0, 5, 10, 2)
    ensures m.order == 1
  {
    hide Apart, Absorbed, SameHas, LoosenedBy, AskedBy, BridgedBy;
    assert MadeOf(m, flat, PLANS);
    var f :| f in flat && Belongs(f, m, PLANS) && f.order == m.order;
    var p :| 0 <= p < |flat| && flat[p] == f;
    assert p == 0 || p == 1 || p == 2;
    assert "a"[0] != "b"[0];
  }

  lemma SentAs(out: seq<Admission>, a: nat, file: string, l: int) returns (i: nat)
    requires Coalesced(out, Asked(), PLANS, Files()) && a < 3 && Carries(Asked()[a], PLANS, file, Answer, l)
    ensures i < |out| && Carries(out[i], PLANS, file, Answer, l)
  {
    hide SentOnce, AdmissionsOk, PhaseSorted, SentInFirstPhase, Numbered;
    assert Sends(Asked(), PLANS, file, Answer, l);
    assert SendsAny(Asked(), PLANS, file, l);
    var ph :| Sends(out, PLANS, file, ph, l);
    assert Sends(Asked(), PLANS, file, ph, l);
    assert ph == Answer;
    i :| 0 <= i < |out| && Carries(out[i], PLANS, file, ph, l);
  }

  lemma OneFile(o: Admission)
    ensures !(Carries(o, PLANS, "a", Answer, 10) && Carries(o, PLANS, "b", Answer, 1))
  {
    assert "a"[0] != "b"[0];
  }

  /** An admission with line 10 of the first file is ahead of one with line 1 of the second. */
  ghost predicate IsAhead(out: seq<Admission>, i: nat, k: nat) {
    i < k < |out| && Carries(out[i], PLANS, "a", Answer, 10) && Carries(out[k], PLANS, "b", Answer, 1)
  }

  /** The run: line 10 of the first file, which only the last admission asks for, goes out before the second file. */
  method LineMovesAhead() returns (out: seq<Admission>)
    ensures exists i: nat, k: nat :: IsAhead(out, i, k)
    ensures Carries(Asked()[1], PLANS, "b", Answer, 1)
    ensures forall a :: 0 <= a < 3 && Carries(Asked()[a], PLANS, "a", Answer, 10) ==> a == 2
  {
    AskedIsOk();
    ghost var requests, from;
    out, requests, from := CoalesceSourceAdmissions(Asked(), PLANS, map[], Files());
    ghost var i := SentAs(out, 2, "a", 10);
    ghost var k := SentAs(out, 1, "b", 1);
    hide Coalesced, Merged, SentInOrder, FlatOf, Asked, Accounted, SendsPieces, Carries;
    ghost var m, m' := MergedAhead(requests);
    OneFile(out[i]);
    PlaceDecides(out, from, requests, FlatOf(Asked()), PLANS, map[], i, k, "a", "b", Answer, 10, 1, m, m');
    assert m.order < m'.order && IsAhead(out, i, k);
  }
}
