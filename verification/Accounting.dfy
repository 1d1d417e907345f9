/** Which excerpt accounts for which node id after coalescing (src/graph/agent.rs). */
module Accounting {
  import opened Prelude
  import opened SourceRanges
  import opened Sorting
  import opened Admissions
  import opened Entries
  import opened Grouping
  import opened Merging
  import opened RangeCuts
  import opened Crediting
  import opened KeptPieces

  /**
   `rs` are the entries of `flat` merged where they overlap inside a file and phase; each has the place of
   the earliest of them, and they come in the order of their places.
   */
  ghost predicate Merged(rs: seq<Entry>, flat: seq<Entry>, plans: seq<SourcePlan>) {
    && (forall i, j :: 0 <= i < j < |rs| ==> rs[i].order < rs[j].order) && Apart(rs, plans)
    && SameHas(rs, flat, plans) && Absorbed(rs, flat, plans) && AllMade(rs, flat, plans)
  }

  /** Excerpt `x` of `o` is a piece of request `j` with exactly the ids the requests credit it with. */
  ghost predicate SendsPiece(o: Admission, x: SourceRange, rs: seq<Entry>, plans: seq<SourcePlan>, nodes: Nodes, j: nat) {
    && j < |rs|
    && IsPieceOf(Entry(o, x, rs[j].order), rs, plans, j)
    && HasCredits(Entry(o, x, rs[j].order), rs, plans, nodes, j, |rs|)
  }

  ghost predicate SendsSome(o: Admission, x: SourceRange, rs: seq<Entry>, plans: seq<SourcePlan>, nodes: Nodes) {
    exists j: nat :: SendsPiece(o, x, rs, plans, nodes, j)
  }

  ghost predicate SentBy(out: seq<Admission>, rs: seq<Entry>, plans: seq<SourcePlan>, nodes: Nodes, j: nat, start: int, end: int) {
    exists o, x :: o in out && x in o.ranges && x.start == start && x.end == end && SendsPiece(o, x, rs, plans, nodes, j)
  }

  /** The admissions send the pieces of the requests and nothing else. */
  ghost predicate SendsPieces(out: seq<Admission>, rs: seq<Entry>, plans: seq<SourcePlan>, nodes: Nodes) {
    && (forall o, x :: o in out && x in o.ranges ==> SendsSome(o, x, rs, plans, nodes))
    && (forall j: nat, start, end :: Piece(rs, plans, j, start, end) ==> SentBy(out, rs, plans, nodes, j, start, end))
  }

  lemma PiecesWritten(out: seq<Admission>, es: seq<Entry>, kept: seq<Entry>, from: seq<nat>, rs: seq<Entry>,
                      plans: seq<SourcePlan>, nodes: Nodes)
    requires Written(out, es) && (forall e :: e in es <==> e in kept) && Traced(kept, from, rs, |rs|, plans, nodes)
    ensures SendsPieces(out, rs, plans, nodes)
  {
    hide IsPieceOf, HasCredits, Piece;
    forall o, x | o in out && x in o.ranges
      ensures SendsSome(o, x, rs, plans, nodes)
    {
      var i :| 0 <= i < |out| && out[i] == o;
      assert Emits(out[i], es[i]) && es[i] in es;
      var k :| 0 <= k < |kept| && kept[k] == es[i];
      assert TracedAt(kept, k, from[k], rs, |rs|, plans, nodes);
      SentAsKept(kept[k], o, rs, plans, nodes, from[k]);
    }
    forall j: nat, start, end | Piece(rs, plans, j, start, end)
      ensures SentBy(out, rs, plans, nodes, j, start, end)
    {
      PieceInside(rs, plans, j, start, end);
      var k :| 0 <= k < |kept| && from[k] == j && kept[k].range.start == start && kept[k].range.end == end;
      assert TracedAt(kept, k, j, rs, |rs|, plans, nodes) && kept[k] in es;
      var i :| 0 <= i < |es| && es[i] == kept[k];
      assert Emits(out[i], es[i]);
      SentAsKept(kept[k], out[i], rs, plans, nodes, j);
    }
  }

  /**
   The admissions are pieces of the requests, in the order of the requests, and the pieces of one
   request from its first line on; `from` tells whose piece each is.
   */
  ghost predicate SentInOrder(out: seq<Admission>, from: seq<nat>, rs: seq<Entry>, plans: seq<SourcePlan>, nodes: Nodes) {
    && |from| == |out|
    && (forall i :: 0 <= i < |out| ==> |out[i].ranges| == 1 && SendsPiece(out[i], out[i].ranges[0], rs, plans, nodes, from[i]))
    && (forall i, k :: 0 <= i < k < |out| ==> Before(out, from, i, k))
  }

  ghost predicate Before(out: seq<Admission>, from: seq<nat>, i: nat, k: nat)
    requires |from| == |out| && i < |out| && k < |out|
  {
    || from[i] < from[k]
    || (from[i] == from[k] && out[i].ranges != [] && out[k].ranges != [] && out[i].ranges[0].end < out[k].ranges[0].start)
  }

  /** Entries sorted by place send the pieces in the order of the requests. */
  lemma SortedAreInOrder(out: seq<Admission>, es: seq<Entry>, kept: seq<Entry>, keptFrom: seq<nat>, rs: seq<Entry>,
                         plans: seq<SourcePlan>, nodes: Nodes) returns (from: seq<nat>)
    requires Written(out, es) && (forall e :: e in es <==> e in kept) && Traced(kept, keptFrom, rs, |rs|, plans, nodes)
    requires forall i, j :: 0 <= i < j < |es| ==> Le(OrderKey(es[i]), OrderKey(es[j]))
    requires forall i, j :: 0 <= i < j < |rs| ==> rs[i].order < rs[j].order
    requires OnceOnly(es, plans)
    ensures SentInOrder(out, from, rs, plans, nodes)
  {
    hide IsPieceOf, HasCredits, SendsPiece, OnceOnly;
    from := [];
    for i := 0 to |es|
      invariant |from| == i
      invariant forall k :: 0 <= k < i ==> PieceAt(out, es, k, from[k], rs, plans, nodes)
    {
      assert es[i] in es;
      var x :| 0 <= x < |kept| && kept[x] == es[i];
      assert TracedAt(kept, x, keptFrom[x], rs, |rs|, plans, nodes) && Emits(out[i], es[i]);
      SentAsKept(kept[x], out[i], rs, plans, nodes, keptFrom[x]);
      from := from + [keptFrom[x]];
    }
    forall i, k | 0 <= i < k < |out|
      ensures Before(out, from, i, k)
    {
      assert PieceAt(out, es, i, from[i], rs, plans, nodes) && PieceAt(out, es, k, from[k], rs, plans, nodes);
      SortedBefore(out, es, from, rs, plans, nodes, i, k);
    }
    assert forall i :: 0 <= i < |out| ==> PieceAt(out, es, i, from[i], rs, plans, nodes);
  }

  ghost predicate PieceAt(out: seq<Admission>, es: seq<Entry>, i: nat, j: nat, rs: seq<Entry>, plans: seq<SourcePlan>, nodes: Nodes)
    requires |out| == |es| && i < |es|
  {
    && j < |rs| && IsPieceOf(es[i], rs, plans, j) && out[i].ranges == [es[i].range]
    && SendsPiece(out[i], es[i].range, rs, plans, nodes, j)
  }

  lemma SortedBefore(out: seq<Admission>, es: seq<Entry>, from: seq<nat>, rs: seq<Entry>, plans: seq<SourcePlan>,
                     nodes: Nodes, i: nat, k: nat)
    requires i < k < |es| == |out| == |from| && OnceOnly(es, plans)
    requires forall i, j :: 0 <= i < j < |es| ==> Le(OrderKey(es[i]), OrderKey(es[j]))
    requires forall i, j :: 0 <= i < j < |rs| ==> rs[i].order < rs[j].order
    requires PieceAt(out, es, i, from[i], rs, plans, nodes) && PieceAt(out, es, k, from[k], rs, plans, nodes)
    ensures Before(out, from, i, k)
  {
    hide SendsPiece;
    assert Le(OrderKey(es[i]), OrderKey(es[k]));
    PieceBoundsIn(es[i], rs, plans, from[i]);
    PieceBoundsIn(es[k], rs, plans, from[k]);
    OnceApart(es, plans, i, k, plans[rs[from[k]].adm.plan].file, es[k].range.start);
  }

  lemma PieceBoundsIn(e: Entry, rs: seq<Entry>, plans: seq<SourcePlan>, j: nat)
    requires j < |rs| && IsPieceOf(e, rs, plans, j)
    ensures e.range.start <= e.range.end && e.adm.plan == rs[j].adm.plan < |plans| && e.order == rs[j].order
  {
    hide TakenBefore;
  }

  lemma PieceInside(rs: seq<Entry>, plans: seq<SourcePlan>, j: nat, start: int, end: int)
    requires Piece(rs, plans, j, start, end)
    ensures j < |rs|
  {
  }

  lemma SentAsKept(e: Entry, o: Admission, rs: seq<Entry>, plans: seq<SourcePlan>, nodes: Nodes, j: nat)
    requires j < |rs| && IsPieceOf(e, rs, plans, j) && HasCredits(e, rs, plans, nodes, j, |rs|) && Emits(o, e)
    ensures e.range in o.ranges && o.ranges == [e.range] && SendsPiece(o, e.range, rs, plans, nodes, j)
  {
    hide Piece, CreditedTo;
  }

  // ----- Credits that are always kept -----

  /**
   A piece that has the whole declaration of an id is credited with it whenever a request of its file
   asks for the id at a declared line.
   */
  lemma HolderIsCredited(rs: seq<Entry>, plans: seq<SourcePlan>, nodes: Nodes, j: nat, start: int, end: int,
                         k: nat, id: NodeId, l: int)
    requires Piece(rs, plans, j, start, end) && k < |rs| && SameFile(rs[k], rs[j], plans)
    requires id in rs[k].range.nodeIds && Within(rs[k].range, l) && Meets(id, l, l, nodes)
    requires DeclaredInside(id, rs[j].range.(start := start, end := end), nodes)
    ensures CreditedTo(id, rs, plans, nodes, j, start, end, |rs|)
  {
    var file := plans[rs[j].adm.plan].file;
    assert start <= l <= end && l !in TakenBefore(rs, plans, j);
    assert k < j ==> Taken(rs[..j], plans, file, l) by {
      assert k < j ==> rs[..j][k] == rs[k] && Takes(rs[k], plans, file, l);
    }
    if k > j {
      var from, to' := GapAround(rs[k].range, KeptAhead(rs, plans, j, start), l);
      assert EarnsBy(id, rs[k].range, from, to', rs[j].range.(start := start, end := end), nodes);
      assert EarnsFrom(id, rs, plans, nodes, j, start, end, k);
    }
  }

  ghost predicate SameSource(o: Admission, a: Admission, plans: seq<SourcePlan>) {
    o.plan < |plans| && a.plan < |plans| && plans[o.plan].file == plans[a.plan].file
  }

  /** `x` sends line `l` in the phase `a` asked for, or has the whole declaration of `id`. */
  ghost predicate Answers(o: Admission, x: SourceRange, a: Admission, l: int, id: NodeId, nodes: Nodes) {
    (o.phase == a.phase && Within(x, l)) || DeclaredInside(id, x, nodes)
  }

  /**
   What excerpt `x` of `o` owes to the requested excerpt `r` of `a`, for an id of `r` with a declared
   line in it: `x` is credited when it sends that line in the phase it was asked for in, or when it has
   the whole declaration. An atomic `x` has all of every request of its phase it meets, all of them atomic.
   */
  ghost predicate Accounts(o: Admission, x: SourceRange, a: Admission, r: SourceRange, plans: seq<SourcePlan>, nodes: Nodes) {
    SameSource(o, a, plans) ==>
      forall l :: Within(r, l) ==>
        && (forall id :: id in r.nodeIds && Meets(id, l, l, nodes) && Answers(o, x, a, l, id, nodes) ==> id in x.nodeIds)
        && (o.phase == a.phase && Within(x, l) && o.atomic ==> a.atomic && Contains(x, r))
  }

  /** Every excerpt accounts for every request, and is credited with nothing its file did not ask for. */
  ghost predicate Accounted(out: seq<Admission>, admissions: seq<Admission>, plans: seq<SourcePlan>, nodes: Nodes) {
    && (forall o, x, a, r :: o in out && x in o.ranges && a in admissions && r in a.ranges ==> Accounts(o, x, a, r, plans, nodes))
    && (forall o, x, id :: o in out && x in o.ranges && id in x.nodeIds ==> AskedFor(id, o, admissions, plans))
  }

  ghost predicate AskedFor(id: NodeId, o: Admission, admissions: seq<Admission>, plans: seq<SourcePlan>) {
    exists a, r :: a in admissions && r in a.ranges && SameSource(o, a, plans) && id in r.nodeIds
  }

  /** The piece itself accounts for the requests merged into its own. */
  lemma OwnAccount(o: Admission, x: SourceRange, rs: seq<Entry>, j: nat, f: Entry, flat: seq<Entry>,
                   plans: seq<SourcePlan>, nodes: Nodes, l: int)
    requires SendsPiece(o, x, rs, plans, nodes, j) && Absorbed(rs, flat, plans) && f in flat
    requires SameSource(o, f.adm, plans) && Within(f.range, l) && o.phase == f.adm.phase && Within(x, l)
    ensures forall id :: id in f.range.nodeIds && Meets(id, l, l, nodes) ==> id in x.nodeIds
    ensures o.atomic ==> f.adm.atomic && Contains(x, f.range)
  {
    hide EarnsFrom, TakenBefore;
    var file, ph := plans[f.adm.plan].file, f.adm.phase;
    assert rs[j] in rs && Holds(rs[j], plans, file, ph, l) && Holds(f, plans, file, ph, l);
    assert Absorbs(rs[j], f);
    forall id | id in f.range.nodeIds && Meets(id, l, l, nodes)
      ensures id in x.nodeIds
    {
      assert StandsFor(id, rs[j].range, x.start, x.end, nodes);
      assert CreditedTo(id, rs, plans, nodes, j, x.start, x.end, |rs|);
    }
  }

  lemma HolderAccount(o: Admission, x: SourceRange, rs: seq<Entry>, j: nat, f: Entry, flat: seq<Entry>,
                      plans: seq<SourcePlan>, nodes: Nodes, id: NodeId, l: int)
    requires SendsPiece(o, x, rs, plans, nodes, j) && Absorbed(rs, flat, plans) && SameHas(rs, flat, plans) && f in flat
    requires SameSource(o, f.adm, plans) && Within(f.range, l)
    requires id in f.range.nodeIds && Meets(id, l, l, nodes) && DeclaredInside(id, x, nodes)
    ensures id in x.nodeIds
  {
    hide CreditedTo, Absorbs, TakenBefore, Gap;
    var file, ph := plans[f.adm.plan].file, f.adm.phase;
    var i :| 0 <= i < |flat| && flat[i] == f;
    assert Holds(flat[i], plans, file, ph, l);
    assert Has(flat, plans, file, ph, l) && Has(rs, plans, file, ph, l);
    var k :| 0 <= k < |rs| && Holds(rs[k], plans, file, ph, l);
    assert Absorbs(rs[k], f);
    AbsorbedId(rs[k], f, id);
    HolderIsCredited(rs, plans, nodes, j, x.start, x.end, k, id, l);
    assert CreditedTo(id, rs, plans, nodes, j, x.start, x.end, |rs|);
  }

  lemma AbsorbedId(m: Entry, f: Entry, id: NodeId)
    requires Absorbs(m, f) && id in f.range.nodeIds
    ensures id in m.range.nodeIds
  {
  }

  lemma PieceAccounts(o: Admission, x: SourceRange, rs: seq<Entry>, j: nat, f: Entry, flat: seq<Entry>,
                      plans: seq<SourcePlan>, nodes: Nodes)
    requires SendsPiece(o, x, rs, plans, nodes, j) && Absorbed(rs, flat, plans) && SameHas(rs, flat, plans) && f in flat
    ensures Accounts(o, x, f.adm, f.range, plans, nodes)
  {
    hide SendsPiece, Absorbed, SameHas, DeclaredInside, Meets;
    forall l | SameSource(o, f.adm, plans) && Within(f.range, l)
      ensures forall id :: id in f.range.nodeIds && Meets(id, l, l, nodes) && Answers(o, x, f.adm, l, id, nodes) ==> id in x.nodeIds
      ensures o.phase == f.adm.phase && Within(x, l) && o.atomic ==> f.adm.atomic && Contains(x, f.range)
    {
      if o.phase == f.adm.phase && Within(x, l) {
        OwnAccount(o, x, rs, j, f, flat, plans, nodes, l);
      } else {
        forall id | id in f.range.nodeIds && Meets(id, l, l, nodes) && DeclaredInside(id, x, nodes)
          ensures id in x.nodeIds
        {
          HolderAccount(o, x, rs, j, f, flat, plans, nodes, id, l);
        }
      }
    }
  }

  lemma EarnedIsAsked(id: NodeId, rs: seq<Entry>, plans: seq<SourcePlan>, nodes: Nodes, j: nat, start: int, end: int, k: nat)
    requires EarnsFrom(id, rs, plans, nodes, j, start, end, k)
    ensures j < k < |rs| && id in rs[k].range.nodeIds && SameFile(rs[k], rs[j], plans)
  {
    hide Gap, TakenBefore;
  }

  /** A credited id was asked for in the piece's file. */
  lemma CreditIsAsked(id: NodeId, o: Admission, x: SourceRange, rs: seq<Entry>, j: nat, flat: seq<Entry>,
                      admissions: seq<Admission>, plans: seq<SourcePlan>, nodes: Nodes)
    requires SendsPiece(o, x, rs, plans, nodes, j) && id in x.nodeIds && AllMade(rs, flat, plans) && Listed(flat, admissions)
    ensures AskedFor(id, o, admissions, plans)
  {
    hide TakenBefore, Gap, Listed, AllMade;
    assert CreditedTo(id, rs, plans, nodes, j, x.start, x.end, |rs|);
    var k := j;
    if !StandsFor(id, rs[j].range, x.start, x.end, nodes) {
      k :| EarnsFrom(id, rs, plans, nodes, j, x.start, x.end, k);
      EarnedIsAsked(id, rs, plans, nodes, j, x.start, x.end, k);
    }
    assert id in rs[k].range.nodeIds && SameFile(rs[k], rs[j], plans);
    MadeFrom(id, rs, k, flat, plans);
    var f :| f in flat && Belongs(f, rs[k], plans) && id in f.range.nodeIds;
    ListedThere(flat, admissions, f);
    assert SameSource(o, f.adm, plans);
  }

  lemma MadeFrom(id: NodeId, rs: seq<Entry>, k: nat, flat: seq<Entry>, plans: seq<SourcePlan>)
    requires AllMade(rs, flat, plans) && k < |rs| && id in rs[k].range.nodeIds
    ensures AskedBy(id, rs[k], flat, plans)
  {
    hide AskedBy, PlacedBy, LoosenedBy, BridgedBy;
    assert rs[k] in rs;
  }

  lemma ListedThere(flat: seq<Entry>, admissions: seq<Admission>, f: Entry)
    requires Listed(flat, admissions) && f in flat
    ensures f.adm in admissions && f.range in f.adm.ranges
  {
  }

  lemma PiecesAccount(out: seq<Admission>, rs: seq<Entry>, flat: seq<Entry>, admissions: seq<Admission>,
                      plans: seq<SourcePlan>, nodes: Nodes)
    requires SendsPieces(out, rs, plans, nodes) && Merged(rs, flat, plans) && Listed(flat, admissions)
    ensures Accounted(out, admissions, plans, nodes)
  {
    hide SendsPiece, Absorbed, SameHas, AllMade, Accounts, SentBy;
    forall o, x, a, r | o in out && x in o.ranges && a in admissions && r in a.ranges
      ensures Accounts(o, x, a, r, plans, nodes)
    {
      assert SendsSome(o, x, rs, plans, nodes);
      var j: nat :| SendsPiece(o, x, rs, plans, nodes, j);
      var f :| f in flat && f.adm == a && f.range == r;
      PieceAccounts(o, x, rs, j, f, flat, plans, nodes);
    }
    forall o, x, id | o in out && x in o.ranges && id in x.nodeIds
      ensures AskedFor(id, o, admissions, plans)
    {
      assert SendsSome(o, x, rs, plans, nodes);
      var j: nat :| SendsPiece(o, x, rs, plans, nodes, j);
      CreditIsAsked(id, o, x, rs, j, flat, admissions, plans, nodes);
    }
  }

  // ----- Credits that are lost -----

  /** Some admission of `file` is credited with `id`. */
  ghost predicate CreditedIn(out: seq<Admission>, plans: seq<SourcePlan>, file: string, id: NodeId) {
    exists o, x :: o in out && x in o.ranges && o.plan < |plans| && plans[o.plan].file == file && id in x.nodeIds
  }

  ghost predicate AsksFor(e: Entry, plans: seq<SourcePlan>, file: string, id: NodeId) {
    e.adm.plan < |plans| && plans[e.adm.plan].file == file && id in e.range.nodeIds
  }

  /** Request `k` asks for `id` in vain: no piece of it stands for the id, and no earlier piece earns it. */
  ghost predicate Loses(id: NodeId, rs: seq<Entry>, plans: seq<SourcePlan>, nodes: Nodes, k: nat) {
    && (forall start, end :: Piece(rs, plans, k, start, end) ==> !StandsFor(id, rs[k].range, start, end, nodes))
    && (forall j: nat, start, end :: Piece(rs, plans, j, start, end) ==> !EarnsFrom(id, rs, plans, nodes, j, start, end, k))
  }

  /** An id is credited nowhere in a file exactly when every request that asks for it does so in vain. */
  lemma CreditedNowhere(out: seq<Admission>, rs: seq<Entry>, plans: seq<SourcePlan>, nodes: Nodes, file: string, id: NodeId)
    requires SendsPieces(out, rs, plans, nodes)
    ensures !CreditedIn(out, plans, file, id) <==>
            forall k: nat :: k < |rs| && AsksFor(rs[k], plans, file, id) ==> Loses(id, rs, plans, nodes, k)
  {
    hide SendsPieces;
    if !CreditedIn(out, plans, file, id) {
      forall k: nat | k < |rs| && AsksFor(rs[k], plans, file, id)
        ensures Loses(id, rs, plans, nodes, k)
      {
        UncreditedLoses(out, rs, plans, nodes, file, id, k);
      }
    } else {
      var o, x :| o in out && x in o.ranges && o.plan < |plans| && plans[o.plan].file == file && id in x.nodeIds;
      var k := CreditHasRequest(out, rs, plans, nodes, file, id, o, x);
    }
  }

  lemma UncreditedLoses(out: seq<Admission>, rs: seq<Entry>, plans: seq<SourcePlan>, nodes: Nodes, file: string, id: NodeId, k: nat)
    requires SendsPieces(out, rs, plans, nodes) && !CreditedIn(out, plans, file, id)
    requires k < |rs| && AsksFor(rs[k], plans, file, id)
    ensures Loses(id, rs, plans, nodes, k)
  {
    hide Gap, TakenBefore, Earns;
    forall start, end | Piece(rs, plans, k, start, end)
      ensures !StandsFor(id, rs[k].range, start, end, nodes)
    {
      PieceCredits(out, rs, plans, nodes, file, id, k, start, end);
      assert !CreditedTo(id, rs, plans, nodes, k, start, end, |rs|);
    }
    forall j: nat, start, end | Piece(rs, plans, j, start, end)
      ensures !EarnsFrom(id, rs, plans, nodes, j, start, end, k)
    {
      if EarnsFrom(id, rs, plans, nodes, j, start, end, k) {
        assert CreditedTo(id, rs, plans, nodes, j, start, end, |rs|);
        PieceCredits(out, rs, plans, nodes, file, id, j, start, end);
      }
    }
  }

  /** A piece credited with an id goes out in its file with it. */
  lemma PieceCredits(out: seq<Admission>, rs: seq<Entry>, plans: seq<SourcePlan>, nodes: Nodes, file: string, id: NodeId,
                     j: nat, start: int, end: int)
    requires SendsPieces(out, rs, plans, nodes) && Piece(rs, plans, j, start, end) && plans[rs[j].adm.plan].file == file
    ensures CreditedTo(id, rs, plans, nodes, j, start, end, |rs|) ==> CreditedIn(out, plans, file, id)
  {
    hide Gap, TakenBefore, CreditedTo;
    assert SentBy(out, rs, plans, nodes, j, start, end);
    var o, x :| o in out && x in o.ranges && x.start == start && x.end == end && SendsPiece(o, x, rs, plans, nodes, j);
    assert id in x.nodeIds <==> CreditedTo(id, rs, plans, nodes, j, start, end, |rs|);
  }

  lemma CreditHasRequest(out: seq<Admission>, rs: seq<Entry>, plans: seq<SourcePlan>, nodes: Nodes, file: string, id: NodeId,
                         o: Admission, x: SourceRange) returns (k: nat)
    requires SendsPieces(out, rs, plans, nodes) && o in out && x in o.ranges
    requires o.plan < |plans| && plans[o.plan].file == file && id in x.nodeIds
    ensures k < |rs| && AsksFor(rs[k], plans, file, id) && !Loses(id, rs, plans, nodes, k)
  {
    hide Gap, TakenBefore;
    assert SendsSome(o, x, rs, plans, nodes);
    var j: nat :| SendsPiece(o, x, rs, plans, nodes, j);
    assert Piece(rs, plans, j, x.start, x.end) && CreditedTo(id, rs, plans, nodes, j, x.start, x.end, |rs|);
    if StandsFor(id, rs[j].range, x.start, x.end, nodes) {
      k := j;
    } else {
      k :| EarnsFrom(id, rs, plans, nodes, j, x.start, x.end, k);
      EarnedIsAsked(id, rs, plans, nodes, j, x.start, x.end, k);
      hide EarnsFrom;
    }
  }

  /** A declared line that was free when its request's turn came is in a piece that stands for the id. */
  lemma FreeLineStands(id: NodeId, rs: seq<Entry>, plans: seq<SourcePlan>, nodes: Nodes, k: nat, l: int)
    requires k < |rs| && PlansKnown(rs, plans) && id in rs[k].range.nodeIds
    requires Within(rs[k].range, l) && Meets(id, l, l, nodes) && l !in TakenBefore(rs, plans, k)
    ensures exists start, end :: Piece(rs, plans, k, start, end) && StandsFor(id, rs[k].range, start, end, nodes)
  {
    hide TakenBefore;
    var start, end := GapAround(rs[k].range, TakenBefore(rs, plans, k), l);
    assert Piece(rs, plans, k, start, end);
  }

  /**
   When a request asks in vain, said over lines: something of it had gone out, every declared line of
   it had, and no piece that had gone out earns the id.
   */
  lemma LosesWhen(id: NodeId, rs: seq<Entry>, plans: seq<SourcePlan>, nodes: Nodes, k: nat)
    requires k < |rs| && PlansKnown(rs, plans) && rs[k].range.start <= rs[k].range.end && id in rs[k].range.nodeIds
    requires id in nodes ==> nodes[id].start <= nodes[id].end
    ensures Loses(id, rs, plans, nodes, k) <==>
            && (exists l :: Within(rs[k].range, l) && l in TakenBefore(rs, plans, k))
            && (forall l :: Within(rs[k].range, l) && Meets(id, l, l, nodes) ==> l in TakenBefore(rs, plans, k))
            && (forall j: nat, start, end :: Piece(rs, plans, j, start, end) ==> !EarnsFrom(id, rs, plans, nodes, j, start, end, k))
  {
    hide EarnsFrom, TakenBefore;
    var r, taken := rs[k].range, TakenBefore(rs, plans, k);
    if forall start, end :: Piece(rs, plans, k, start, end) ==> !StandsFor(id, r, start, end, nodes) {
      if forall l :: Within(r, l) ==> l !in taken {
        assert Gap(r, taken, r.start, r.end) && Piece(rs, plans, k, r.start, r.end);
      }
      forall l | Within(r, l) && Meets(id, l, l, nodes)
        ensures l in taken
      {
        if l !in taken {
          FreeLineStands(id, rs, plans, nodes, k, l);
        }
      }
    } else {
      var start, end :| Piece(rs, plans, k, start, end) && StandsFor(id, r, start, end, nodes);
      if !(start == r.start && end == r.end) {
        var l := if id in nodes then Max(start, nodes[id].start) else start;
        assert Within(r, l) && Meets(id, l, l, nodes) && l !in taken;
      }
    }
  }

  /** Requests ask for ids they have a declared line of, and declarations end no earlier than they start. */
  ghost predicate AsksWhatItMeets(rs: seq<Entry>, nodes: Nodes) {
    forall k, id :: 0 <= k < |rs| && id in rs[k].range.nodeIds ==>
      Meets(id, rs[k].range.start, rs[k].range.end, nodes) && (id in nodes ==> nodes[id].start <= nodes[id].end)
  }

  /** A piece meets the declarations of its ids. */
  lemma CreditMeets(id: NodeId, rs: seq<Entry>, plans: seq<SourcePlan>, nodes: Nodes, j: nat, start: int, end: int)
    requires AsksWhatItMeets(rs, nodes) && Piece(rs, plans, j, start, end)
    requires CreditedTo(id, rs, plans, nodes, j, start, end, |rs|)
    ensures Meets(id, start, end, nodes)
  {
    hide Piece, EarnsFrom;
    if !StandsFor(id, rs[j].range, start, end, nodes) {
      var k: nat :| EarnsFrom(id, rs, plans, nodes, j, start, end, k);
      EarnedMeets(id, rs, plans, nodes, j, start, end, k);
    } else {
      assert id in rs[j].range.nodeIds;
    }
  }

  lemma EarnedMeets(id: NodeId, rs: seq<Entry>, plans: seq<SourcePlan>, nodes: Nodes, j: nat, start: int, end: int, k: nat)
    requires AsksWhatItMeets(rs, nodes) && EarnsFrom(id, rs, plans, nodes, j, start, end, k)
    ensures Meets(id, start, end, nodes)
  {
    hide Gap, TakenBefore;
    EarnedIsAsked(id, rs, plans, nodes, j, start, end, k);
  }
}
