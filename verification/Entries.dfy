/** Excerpts on their way through coalescing, each with the place it was asked for (src/graph/agent.rs). */
module Entries {
  import opened SourceRanges
  import opened Admissions

  /** One excerpt of one admission, with the place it was asked for. */
  datatype Entry = Entry(adm: Admission, range: SourceRange, order: int)

  ghost predicate EntryOk(e: Entry, plans: seq<SourcePlan>, texts: Texts) {
    && e.adm.plan < |plans| && plans[e.adm.plan].file in texts
    && Shows(e.range, texts[plans[e.adm.plan].file])
  }

  ghost predicate EntriesOk(es: seq<Entry>, plans: seq<SourcePlan>, texts: Texts) {
    forall i :: 0 <= i < |es| ==> EntryOk(es[i], plans, texts)
  }

  ghost predicate Holds(e: Entry, plans: seq<SourcePlan>, file: string, ph: Phase, l: int) {
    e.adm.plan < |plans| && plans[e.adm.plan].file == file && e.adm.phase == ph && Within(e.range, l)
  }

  ghost predicate Has(es: seq<Entry>, plans: seq<SourcePlan>, file: string, ph: Phase, l: int) {
    exists i :: 0 <= i < |es| && Holds(es[i], plans, file, ph, l)
  }

  lemma HasAppend(a: seq<Entry>, b: seq<Entry>, plans: seq<SourcePlan>, file: string, ph: Phase, l: int)
    ensures Has(a + b, plans, file, ph, l) <==> Has(a, plans, file, ph, l) || Has(b, plans, file, ph, l)
  {
    if Has(a, plans, file, ph, l) {
      var i :| 0 <= i < |a| && Holds(a[i], plans, file, ph, l);
      assert (a + b)[i] == a[i];
    }
    if Has(b, plans, file, ph, l) {
      var i :| 0 <= i < |b| && Holds(b[i], plans, file, ph, l);
      assert (a + b)[|a| + i] == b[i];
    }
  }

  lemma HasMembers(a: seq<Entry>, b: seq<Entry>, plans: seq<SourcePlan>, file: string, ph: Phase, l: int)
    requires forall e :: e in a ==> e in b
    ensures Has(a, plans, file, ph, l) ==> Has(b, plans, file, ph, l)
  {
    if Has(a, plans, file, ph, l) {
      var i :| 0 <= i < |a| && Holds(a[i], plans, file, ph, l);
      assert a[i] in b;
    }
  }

  ghost predicate Ordered(flat: seq<Entry>) {
    forall i :: 0 <= i < |flat| ==> flat[i].order == i
  }

  ghost predicate EntriesPhaseSorted(es: seq<Entry>) {
    forall i, j :: 0 <= i < j < |es| ==> Rank(es[i].adm.phase) <= Rank(es[j].adm.phase)
  }

  /** `m` stands for entries of `flat`: its phase is the one recorded at its order. */
  ghost predicate Rooted(m: Entry, flat: seq<Entry>) {
    0 <= m.order < |flat| && flat[m.order].adm.phase == m.adm.phase
  }

  ghost predicate AllRooted(es: seq<Entry>, flat: seq<Entry>) {
    forall i :: 0 <= i < |es| ==> Rooted(es[i], flat)
  }

  ghost predicate SameHas(a: seq<Entry>, b: seq<Entry>, plans: seq<SourcePlan>) {
    forall file, ph, l :: Has(a, plans, file, ph, l) <==> Has(b, plans, file, ph, l)
  }

  lemma HasOne(e: Entry, plans: seq<SourcePlan>, file: string, ph: Phase, l: int)
    ensures Has([e], plans, file, ph, l) <==> Holds(e, plans, file, ph, l)
  {
    if Holds(e, plans, file, ph, l) {
      assert Holds([e][0], plans, file, ph, l);
    }
  }

  lemma SameHasAppend(a: seq<Entry>, a': seq<Entry>, b: seq<Entry>, b': seq<Entry>, plans: seq<SourcePlan>)
    requires SameHas(a, b, plans) && SameHas(a', b', plans)
    ensures SameHas(a + a', b + b', plans)
  {
    forall file, ph, l
      ensures Has(a + a', plans, file, ph, l) <==> Has(b + b', plans, file, ph, l)
    {
      HasAppend(a, a', plans, file, ph, l);
      HasAppend(b, b', plans, file, ph, l);
    }
  }

  /** Some entry carries line `l` of `file`, in whatever phase. */
  ghost predicate Taken(es: seq<Entry>, plans: seq<SourcePlan>, file: string, l: int) {
    exists i :: 0 <= i < |es| && Takes(es[i], plans, file, l)
  }

  ghost predicate Takes(e: Entry, plans: seq<SourcePlan>, file: string, l: int) {
    e.adm.plan < |plans| && plans[e.adm.plan].file == file && Within(e.range, l)
  }

  /** The lines of `file` that the entries carry. */
  ghost function TakenLines(es: seq<Entry>, plans: seq<SourcePlan>, file: string): iset<int> {
    iset l | Taken(es, plans, file, l)
  }

  lemma TakenSnoc(es: seq<Entry>, e: Entry, plans: seq<SourcePlan>, file: string, l: int)
    ensures Taken(es + [e], plans, file, l) <==> Taken(es, plans, file, l) || Takes(e, plans, file, l)
  {
    if Taken(es, plans, file, l) {
      var i :| 0 <= i < |es| && Takes(es[i], plans, file, l);
      assert (es + [e])[i] == es[i];
    }
    if Takes(e, plans, file, l) {
      assert (es + [e])[|es|] == e;
    }
  }

  lemma TakenAppend(a: seq<Entry>, b: seq<Entry>, plans: seq<SourcePlan>, file: string, l: int)
    ensures Taken(a + b, plans, file, l) <==> Taken(a, plans, file, l) || Taken(b, plans, file, l)
  {
    if Taken(a, plans, file, l) {
      var i :| 0 <= i < |a| && Takes(a[i], plans, file, l);
      assert (a + b)[i] == a[i];
    }
    if Taken(b, plans, file, l) {
      var i :| 0 <= i < |b| && Takes(b[i], plans, file, l);
      assert (a + b)[|a| + i] == b[i];
    }
  }

  ghost predicate OnceOnly(es: seq<Entry>, plans: seq<SourcePlan>) {
    forall i, j, file, l :: 0 <= i < j < |es| && Takes(es[i], plans, file, l) ==> !Takes(es[j], plans, file, l)
  }

  lemma OnceApart(a: seq<Entry>, plans: seq<SourcePlan>, x: nat, y: nat, file: string, l: int)
    requires OnceOnly(a, plans) && x < |a| && y < |a| && x != y
    ensures !(Takes(a[x], plans, file, l) && Takes(a[y], plans, file, l))
  {
    var low, high := if x < y then x else y, if x < y then y else x;
    assert Takes(a[low], plans, file, l) ==> !Takes(a[high], plans, file, l);
  }

  lemma TakenMembers(a: seq<Entry>, b: seq<Entry>, plans: seq<SourcePlan>, file: string, l: int)
    requires forall e :: e in a ==> e in b
    ensures Taken(a, plans, file, l) ==> Taken(b, plans, file, l)
  {
    if Taken(a, plans, file, l) {
      var i :| 0 <= i < |a| && Takes(a[i], plans, file, l);
      assert a[i] in b;
    }
  }

  lemma HasTaken(es: seq<Entry>, plans: seq<SourcePlan>, file: string, l: int)
    ensures Taken(es, plans, file, l) <==> exists ph :: Has(es, plans, file, ph, l)
  {
    if Taken(es, plans, file, l) {
      var i :| 0 <= i < |es| && Takes(es[i], plans, file, l);
      assert Holds(es[i], plans, file, es[i].adm.phase, l);
      assert Has(es, plans, file, es[i].adm.phase, l);
    }
    if ph :| Has(es, plans, file, ph, l) {
      var i :| 0 <= i < |es| && Holds(es[i], plans, file, ph, l);
      assert Takes(es[i], plans, file, l);
    }
  }

  /** `a` is the admission of entry `e`. */
  ghost predicate Emits(a: Admission, e: Entry) { a == e.adm.(ranges := [e.range]) }

  /** `out` writes the entries `es` one admission each. */
  ghost predicate Written(out: seq<Admission>, es: seq<Entry>) {
    |out| == |es| && forall i :: 0 <= i < |out| ==> Emits(out[i], es[i])
  }

  lemma EmitsCarries(a: Admission, e: Entry, plans: seq<SourcePlan>, file: string, ph: Phase, l: int)
    requires Emits(a, e)
    ensures Carries(a, plans, file, ph, l) <==> Holds(e, plans, file, ph, l)
  {
    CoversOne(e.range, l);
  }

  ghost predicate SameFile(a: Entry, b: Entry, plans: seq<SourcePlan>) {
    a.adm.plan < |plans| && b.adm.plan < |plans| && plans[a.adm.plan].file == plans[b.adm.plan].file
  }
}
