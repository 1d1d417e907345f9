/** Writing the edges of a build once each (src/graph/build.rs). */
module EdgeWriter {
  import opened Text

  datatype Edge = Edge(source: string, target: string, kind: string, line: int, col: int)

  const CALL_EDGE_KINDS := ["calls", "calls_trait_method", "possible_call", "instantiates"]

  /** What makes two edges the same fact: call edges count per call site, others per pair. */
  datatype Identity = Pair(source: string, target: string, kind: string)
                    | CallSite(source: string, target: string, kind: string, line: int, col: int)

  function IdentityOf(e: Edge): Identity {
    if e.kind in CALL_EDGE_KINDS then CallSite(e.source, e.target, e.kind, e.line, e.col)
    else Pair(e.source, e.target, e.kind)
  }

  predicate SelfLoop(e: Edge) { e.source == e.target && e.kind != "calls" }

  // ----- The key -----

  function Site(e: Edge): string {
    if e.kind in CALL_EDGE_KINDS then Decimal(e.line) + ":" + Decimal(e.col) else ""
  }

  function Key(e: Edge): (string, string, string) { (e.source, e.target, e.kind + "@" + Site(e)) }

  predicate Free(s: string, c: char) { c !in s }

  lemma {:induction false} DigitsAreDigits(n: nat)
    ensures forall i :: 0 <= i < |Digits(n)| ==> IsDigit(Digits(n)[i])
  {
    if n >= 10 {
      DigitsAreDigits(n / 10);
    }
  }

  lemma {:induction false} DigitsInjective(a: nat, b: nat)
    requires Digits(a) == Digits(b)
    ensures a == b
  {
    var s := Digits(a);
    var init := s[..|s| - 1];
    if a >= 10 {
      assert init == Digits(a / 10);
    }
    if b >= 10 {
      assert init == Digits(b / 10);
    }
    assert s[|s| - 1] == Digit(a % 10) == Digit(b % 10);
    if a >= 10 && b >= 10 {
      DigitsInjective(a / 10, b / 10);
    }
  }

  lemma DecimalInjective(a: int, b: int)
    requires Decimal(a) == Decimal(b)
    ensures a == b
  {
    DigitsAreDigits(if a < 0 then -a else a);
    DigitsAreDigits(if b < 0 then -b else b);
    if a < 0 {
      assert Decimal(a)[1..] == Digits(-a);
    }
    if b < 0 {
      assert Decimal(b)[1..] == Digits(-b);
    }
    assert a < 0 <==> Decimal(a)[0] == '-';
    assert b < 0 <==> Decimal(b)[0] == '-';
    DigitsInjective(if a < 0 then -a else a, if b < 0 then -b else b);
  }

  lemma DecimalIsFree(n: int, c: char)
    requires !IsDigit(c) && c != '-'
    ensures Free(Decimal(n), c)
  {
    DigitsAreDigits(if n < 0 then -n else n);
  }

  /** The last separator splits a text in one way only. */
  lemma SplitsLast(a: string, x: string, b: string, y: string, c: char)
    requires Free(x, c) && Free(y, c) && a + [c] + x == b + [c] + y
    ensures a == b && x == y
  {
    var s, t := a + [c] + x, b + [c] + y;
    assert s[|a|] == c && t[|b|] == c;
    assert forall i :: |a| < i < |s| ==> s[i] == x[i - |a| - 1];
    assert forall i :: |b| < i < |t| ==> t[i] == y[i - |b| - 1];
    assert |a| == |b|;
    assert s[..|a|] == a && t[..|b|] == b && s[|a| + 1..] == x && t[|b| + 1..] == y;
  }

  /** The key says neither more nor less than the identity, whatever the kinds are named. */
  lemma KeyIsIdentity(d: Edge, e: Edge)
    ensures Key(d) == Key(e) <==> IdentityOf(d) == IdentityOf(e)
  {
    SiteIsFree(d);
    SiteIsFree(e);
    if Key(d) == Key(e) {
      SplitsLast(d.kind, Site(d), e.kind, Site(e), '@');
      if d.kind in CALL_EDGE_KINDS {
        DecimalIsFree(d.col, ':');
        DecimalIsFree(e.col, ':');
        SplitsLast(Decimal(d.line), Decimal(d.col), Decimal(e.line), Decimal(e.col), ':');
        DecimalInjective(d.line, e.line);
        DecimalInjective(d.col, e.col);
      }
    }
  }

  lemma SiteIsFree(e: Edge)
    ensures Free(Site(e), '@')
  {
    DecimalIsFree(e.line, '@');
    DecimalIsFree(e.col, '@');
  }

  // ----- What a run of inserts writes -----

  /** An edge offered to the writer, and whether the database took it. */
  datatype Offer = Offer(edge: Edge, accepted: bool)

  predicate OfferedBefore(offers: seq<Offer>, id: Identity) {
    exists i :: 0 <= i < |offers| && !SelfLoop(offers[i].edge) && IdentityOf(offers[i].edge) == id
  }

  /** The rows of a run: the first offer of each identity, when the database takes it. */
  function Rows(offers: seq<Offer>): seq<Edge> {
    if offers == [] then []
    else
      var init, last := offers[..|offers| - 1], offers[|offers| - 1];
      if SelfLoop(last.edge) || OfferedBefore(init, IdentityOf(last.edge)) || !last.accepted then Rows(init)
      else Rows(init) + [last.edge]
  }

  function CountKind(rows: seq<Edge>, kind: string): nat {
    if rows == [] then 0 else CountKind(rows[..|rows| - 1], kind) + (if rows[|rows| - 1].kind == kind then 1 else 0)
  }

  /** Every row was offered, no two rows say the same, and none is a self loop other than a call. */
  lemma {:induction false} RowsAreDistinct(offers: seq<Offer>)
    ensures forall i :: 0 <= i < |Rows(offers)| ==>
              !SelfLoop(Rows(offers)[i]) && OfferedBefore(offers, IdentityOf(Rows(offers)[i]))
    ensures forall i, j :: 0 <= i < j < |Rows(offers)| ==> IdentityOf(Rows(offers)[i]) != IdentityOf(Rows(offers)[j])
  {
    hide SelfLoop, IdentityOf, OfferedBefore;
    if offers != [] {
      var init, last := offers[..|offers| - 1], offers[|offers| - 1];
      RowsAreDistinct(init);
      assert offers == init + [last];
      forall id | OfferedBefore(init, id) ensures OfferedBefore(offers, id) {
        OfferedGrows(init, last, id);
      }
      OfferedGrows(init, last, IdentityOf(last.edge));
    }
  }

  lemma OfferedGrows(offers: seq<Offer>, last: Offer, id: Identity)
    ensures OfferedBefore(offers + [last], id) <==>
            OfferedBefore(offers, id) || (!SelfLoop(last.edge) && IdentityOf(last.edge) == id)
  {
    var all := offers + [last];
    if OfferedBefore(offers, id) {
      var i :| 0 <= i < |offers| && !SelfLoop(offers[i].edge) && IdentityOf(offers[i].edge) == id;
      assert all[i] == offers[i];
    }
    assert all[|offers|] == last;
  }

  predicate RowFor(rows: seq<Edge>, id: Identity) { exists i :: 0 <= i < |rows| && IdentityOf(rows[i]) == id }

  lemma RowForGrows(rows: seq<Edge>, e: Edge, id: Identity)
    ensures RowFor(rows + [e], id) <==> RowFor(rows, id) || IdentityOf(e) == id
  {
    hide IdentityOf;
    var all := rows + [e];
    if RowFor(rows, id) {
      var i :| 0 <= i < |rows| && IdentityOf(rows[i]) == id;
      assert all[i] == rows[i];
    }
    assert all[|rows|] == e;
  }

  /** When the database takes everything, the facts offered are exactly the facts written. */
  lemma {:induction false} EveryFactIsWritten(offers: seq<Offer>, id: Identity)
    requires forall i :: 0 <= i < |offers| ==> offers[i].accepted
    ensures OfferedBefore(offers, id) <==> RowFor(Rows(offers), id)
  {
    hide SelfLoop, IdentityOf, OfferedBefore, RowFor;
    if offers == [] {
      NothingOffered(id);
    } else {
      var init, last := offers[..|offers| - 1], offers[|offers| - 1];
      EveryFactIsWritten(init, id);
      assert offers == init + [last];
      OfferedGrows(init, last, id);
      RowForGrows(Rows(init), last.edge, id);
    }
  }

  lemma {:induction false} OfferedSame(offers: seq<Offer>, e: Edge)
    requires exists i :: 0 <= i < |offers| && offers[i].edge == e
    ensures OfferedBefore(offers, IdentityOf(e)) <==> e.source != e.target || e.kind == "calls"
  {
    if OfferedBefore(offers, IdentityOf(e)) {
      var i :| 0 <= i < |offers| && !SelfLoop(offers[i].edge) && IdentityOf(offers[i].edge) == IdentityOf(e);
      assert offers[i].edge.source == e.source && offers[i].edge.target == e.target && offers[i].edge.kind == e.kind;
    }
  }

  /** An offered edge the database takes is written, unless it leads from a declaration to itself and is no call. */
  lemma RecursionIsWritten(offers: seq<Offer>, e: Edge)
    requires forall i :: 0 <= i < |offers| ==> offers[i].accepted
    requires exists i :: 0 <= i < |offers| && offers[i].edge == e
    ensures RowFor(Rows(offers), IdentityOf(e)) <==> e.source != e.target || e.kind == "calls"
  {
    hide IdentityOf, SelfLoop, Rows;
    EveryFactIsWritten(offers, IdentityOf(e));
    OfferedSame(offers, e);
  }

  /** Two calls of the same function from the same one are two facts when their sites differ; two imports are one. */
  lemma CallsCountBySite(a: Edge, b: Edge)
    requires a.source == b.source && a.target == b.target && a.kind == b.kind
    ensures IdentityOf(a) == IdentityOf(b) <==>
            (a.line == b.line && a.col == b.col)
            || a.kind !in {"calls", "calls_trait_method", "possible_call", "instantiates"}
  {
  }

  lemma NothingOffered(id: Identity)
    ensures !OfferedBefore([], id) && !RowFor([], id)
  {
  }

  /** The seen keys stand for the identities offered so far. */
  ghost predicate SeenIs(seen: set<(string, string, string)>, offers: seq<Offer>) {
    forall e: Edge :: Key(e) in seen <==> OfferedBefore(offers, IdentityOf(e))
  }

  lemma SeenGrows(seen: set<(string, string, string)>, offers: seq<Offer>, last: Offer)
    requires SeenIs(seen, offers)
    ensures SeenIs(if SelfLoop(last.edge) then seen else seen + {Key(last.edge)}, offers + [last])
  {
    hide SelfLoop, IdentityOf, OfferedBefore, Key;
    forall e: Edge
      ensures Key(e) in (if SelfLoop(last.edge) then seen else seen + {Key(last.edge)})
              <==> OfferedBefore(offers + [last], IdentityOf(e))
    {
      OfferedGrows(offers, last, IdentityOf(e));
      KeyIsIdentity(e, last.edge);
    }
  }

  ghost predicate Counts(byKind: map<string, nat>, rows: seq<Edge>) {
    forall k: string :: (if k in byKind then byKind[k] else 0) == CountKind(rows, k)
  }

  lemma CountsGrow(byKind: map<string, nat>, rows: seq<Edge>, e: Edge)
    requires Counts(byKind, rows)
    ensures Counts(byKind[e.kind := (if e.kind in byKind then byKind[e.kind] else 0) + 1], rows + [e])
  {
    assert (rows + [e])[..|rows|] == rows;
  }

  lemma RowsGrow(offers: seq<Offer>, last: Offer)
    ensures Rows(offers + [last]) ==
            if SelfLoop(last.edge) || OfferedBefore(offers, IdentityOf(last.edge)) || !last.accepted then Rows(offers)
            else Rows(offers) + [last.edge]
  {
    hide SelfLoop, IdentityOf, OfferedBefore;
    assert (offers + [last])[..|offers|] == offers;
  }

  class Writer {
    ghost var offers: seq<Offer>
    ghost var rows: seq<Edge>
    var seen: set<(string, string, string)>
    var inserted: nat
    var byKind: map<string, nat>

    ghost predicate Valid()
      reads this
    {
      rows == Rows(offers) && inserted == |rows| && Counts(byKind, rows) && SeenIs(seen, offers)
    }

    constructor ()
      ensures Valid() && offers == []
    {
      offers, rows := [], [];
      seen, inserted, byKind := {}, 0, map[];
    }

    /** `accepted` is what the database answers when it is asked to store the edge. */
    method Insert(e: Edge, accepted: bool)
      requires Valid()
      modifies this
      ensures Valid() && offers == old(offers) + [Offer(e, accepted)]
    {
      hide SelfLoop, IdentityOf, OfferedBefore, Key, Rows, Counts;
      ghost var last := Offer(e, accepted);
      SeenGrows(seen, offers, last);
      RowsGrow(offers, last);
      assert Key(e) in seen <==> OfferedBefore(offers, IdentityOf(e));
      offers := offers + [last];
      if SelfLoop(e) {
        return;
      }
      var key := Key(e);
      if key in seen {
        assert seen + {key} == seen;
        return;
      }
      seen := seen + {key};
      if accepted {
        CountsGrow(byKind, rows, e);
        rows := rows + [e];
        inserted := inserted + 1;
        byKind := byKind[e.kind := (if e.kind in byKind then byKind[e.kind] else 0) + 1];
      }
    }
  }
}
