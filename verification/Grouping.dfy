/** Requests flattened, grouped by file and phase, and merged inside each group (src/graph/agent.rs). */
module Grouping {
  import opened SourceRanges
  import opened Admissions
  import opened Entries

  // ----- Flattening -----

  /** The entries of one admission. */
  method FlattenOne(adm: Admission, first: nat, ghost plans: seq<SourcePlan>, ghost texts: Texts)
    returns (es: seq<Entry>)
    requires AdmissionOk(adm, plans, texts)
    ensures EntriesOk(es, plans, texts)
    ensures |es| == |adm.ranges|
    ensures forall i :: 0 <= i < |es| ==> es[i] == Entry(adm, adm.ranges[i], first + i)
    ensures forall file, ph, l :: Has(es, plans, file, ph, l) <==> Carries(adm, plans, file, ph, l)
  {
    es := [];
    for k := 0 to |adm.ranges|
      invariant |es| == k
      invariant forall i :: 0 <= i < k ==> es[i] == Entry(adm, adm.ranges[i], first + i)
    {
      es := es + [Entry(adm, adm.ranges[k], first + k)];
    }
    forall file, ph, l
      ensures Has(es, plans, file, ph, l) <==> Carries(adm, plans, file, ph, l)
    {
      if Carries(adm, plans, file, ph, l) {
        var i :| 0 <= i < |adm.ranges| && Within(adm.ranges[i], l);
        assert Holds(es[i], plans, file, ph, l);
      }
      if Has(es, plans, file, ph, l) {
        var i :| 0 <= i < |es| && Holds(es[i], plans, file, ph, l);
        assert Within(adm.ranges[i], l);
      }
    }
  }

  /** The entries of one admission, placed from `first` on. */
  ghost function EntriesOf(adm: Admission, first: nat): seq<Entry> {
    seq(|adm.ranges|, (i: nat) requires i < |adm.ranges| => Entry(adm, adm.ranges[i], first + i))
  }

  /** The excerpts of all admissions, each with its place. */
  ghost function FlatOf(admissions: seq<Admission>): seq<Entry> {
    if admissions == [] then []
    else
      var front := FlatOf(admissions[..|admissions| - 1]);
      front + EntriesOf(admissions[|admissions| - 1], |front|)
  }

  lemma FlatSnoc(admissions: seq<Admission>, adm: Admission)
    ensures FlatOf(admissions + [adm]) == FlatOf(admissions) + EntriesOf(adm, |FlatOf(admissions)|)
  {
    assert (admissions + [adm])[..|admissions|] == admissions;
  }

  /** The entries and the excerpts of the admissions are the same. */
  ghost predicate Listed(flat: seq<Entry>, admissions: seq<Admission>) {
    && (forall e :: e in flat ==> e.adm in admissions && e.range in e.adm.ranges)
    && (forall a, r :: a in admissions && r in a.ranges ==> exists e :: e in flat && e.adm == a && e.range == r)
  }

  lemma ListedSnoc(flat: seq<Entry>, es: seq<Entry>, admissions: seq<Admission>, adm: Admission)
    requires Listed(flat, admissions)
    requires |es| == |adm.ranges| && forall i :: 0 <= i < |es| ==> es[i].adm == adm && es[i].range == adm.ranges[i]
    ensures Listed(flat + es, admissions + [adm])
  {
    forall a, r | a in admissions + [adm] && r in a.ranges
      ensures exists e :: e in flat + es && e.adm == a && e.range == r
    {
      if a in admissions {
        var e :| e in flat && e.adm == a && e.range == r;
        assert e in flat + es;
      } else {
        var i :| 0 <= i < |adm.ranges| && adm.ranges[i] == r;
        assert es[i] in flat + es;
      }
    }
  }

  lemma {:induction false} FlatListed(admissions: seq<Admission>)
    ensures Listed(FlatOf(admissions), admissions)
  {
    if admissions != [] {
      var n := |admissions| - 1;
      var front := admissions[..n];
      FlatListed(front);
      ListedSnoc(FlatOf(front), EntriesOf(admissions[n], |FlatOf(front)|), front, admissions[n]);
      assert front + [admissions[n]] == admissions;
    }
  }

  method Flatten(admissions: seq<Admission>, ghost plans: seq<SourcePlan>, ghost texts: Texts)
    returns (flat: seq<Entry>)
    requires AdmissionsOk(admissions, plans, texts)
    ensures EntriesOk(flat, plans, texts) && Ordered(flat) && Listed(flat, admissions)
    ensures flat == FlatOf(admissions)
    ensures PhaseSorted(admissions) ==> EntriesPhaseSorted(flat)
    ensures forall file, ph, l :: Has(flat, plans, file, ph, l) <==> Sends(admissions, plans, file, ph, l)
  {
    flat := [];
    for k := 0 to |admissions|
      invariant Flattened(flat, admissions[..k], plans, texts)
    {
      var es := FlattenOne(admissions[k], |flat|, plans, texts);
      assert es == EntriesOf(admissions[k], |flat|);
      assert admissions[..k + 1] == admissions[..k] + [admissions[k]];
      FlattenNext(flat, es, admissions[..k], admissions[k], plans, texts);
      flat := flat + es;
    }
    assert admissions[..|admissions|] == admissions;
  }

  /** What flattening makes of the admissions: see `Flatten`. */
  ghost predicate Flattened(flat: seq<Entry>, admissions: seq<Admission>, plans: seq<SourcePlan>, texts: Texts) {
    && EntriesOk(flat, plans, texts) && Ordered(flat) && Listed(flat, admissions)
    && flat == FlatOf(admissions)
    && (PhaseSorted(admissions) ==> EntriesPhaseSorted(flat))
    && (forall file, ph, l :: Has(flat, plans, file, ph, l) <==> Sends(admissions, plans, file, ph, l))
  }

  lemma FlattenNext(flat: seq<Entry>, es: seq<Entry>, admissions: seq<Admission>, adm: Admission,
                    plans: seq<SourcePlan>, texts: Texts)
    requires Flattened(flat, admissions, plans, texts) && es == EntriesOf(adm, |flat|) && EntriesOk(es, plans, texts)
    requires forall file, ph, l :: Has(es, plans, file, ph, l) <==> Carries(adm, plans, file, ph, l)
    ensures Flattened(flat + es, admissions + [adm], plans, texts)
  {
    hide EntryOk, Carries, Sends, Has;
    FlatSnoc(admissions, adm);
    ListedSnoc(flat, es, admissions, adm);
    forall file, ph, l
      ensures Has(flat + es, plans, file, ph, l) <==> Sends(admissions + [adm], plans, file, ph, l)
    {
      HasAppend(flat, es, plans, file, ph, l);
      SendsSnoc(admissions, adm, plans, file, ph, l);
    }
    if PhaseSorted(admissions + [adm]) {
      FlatPhases(flat, es, admissions, adm);
    }
  }

  lemma FlatPhases(flat: seq<Entry>, es: seq<Entry>, admissions: seq<Admission>, adm: Admission)
    requires PhaseSorted(admissions + [adm]) && Listed(flat, admissions) && es == EntriesOf(adm, |flat|)
    requires PhaseSorted(admissions) ==> EntriesPhaseSorted(flat)
    ensures EntriesPhaseSorted(flat + es)
  {
    assert forall i :: 0 <= i < |admissions| ==> (admissions + [adm])[i] == admissions[i];
    assert (admissions + [adm])[|admissions|] == adm;
    forall e | e in flat
      ensures Rank(e.adm.phase) <= Rank(adm.phase)
    {
      var k :| 0 <= k < |admissions| && admissions[k] == e.adm;
    }
    forall i, j | 0 <= i < j < |flat + es|
      ensures Rank((flat + es)[i].adm.phase) <= Rank((flat + es)[j].adm.phase)
    {
      assert i < |flat| ==> (flat + es)[i] in flat;
    }
  }

  lemma SendsSnoc(a: seq<Admission>, x: Admission, plans: seq<SourcePlan>, file: string, ph: Phase, l: int)
    ensures Sends(a + [x], plans, file, ph, l) <==> Sends(a, plans, file, ph, l) || Carries(x, plans, file, ph, l)
  {
    if Sends(a, plans, file, ph, l) {
      var i :| 0 <= i < |a| && Carries(a[i], plans, file, ph, l);
      assert (a + [x])[i] == a[i];
    }
    if Carries(x, plans, file, ph, l) {
      assert (a + [x])[|a|] == x;
    }
  }

  // ----- Grouping by file and phase -----

  datatype Group = Group(file: string, phase: Phase, entries: seq<Entry>)

  ghost predicate GroupOk(g: Group, plans: seq<SourcePlan>, texts: Texts) {
    && EntriesOk(g.entries, plans, texts)
    && forall i :: 0 <= i < |g.entries| ==>
         plans[g.entries[i].adm.plan].file == g.file && g.entries[i].adm.phase == g.phase
  }

  ghost predicate KeyOf(e: Entry, plans: seq<SourcePlan>, file: string, ph: Phase) {
    e.adm.plan < |plans| && plans[e.adm.plan].file == file && e.adm.phase == ph
  }

  /** The entries of `flat` that belong to `file` in phase `ph`, in order. */
  ghost function OfKey(flat: seq<Entry>, plans: seq<SourcePlan>, file: string, ph: Phase): (r: seq<Entry>)
    ensures forall e :: e in r <==> e in flat && KeyOf(e, plans, file, ph)
  {
    if flat == [] then []
    else
      var k := |flat| - 1;
      assert flat == flat[..k] + [flat[k]];
      OfKey(flat[..k], plans, file, ph) + if KeyOf(flat[k], plans, file, ph) then [flat[k]] else []
  }

  lemma OfKeySnoc(flat: seq<Entry>, e: Entry, plans: seq<SourcePlan>, file: string, ph: Phase)
    ensures OfKey(flat + [e], plans, file, ph) ==
            OfKey(flat, plans, file, ph) + if KeyOf(e, plans, file, ph) then [e] else []
  {
    assert (flat + [e])[..|flat|] == flat;
  }

  /** One group for each file and phase asked for, with exactly its entries, each once, in order. */
  ghost predicate Grouped(groups: seq<Group>, flat: seq<Entry>, plans: seq<SourcePlan>, texts: Texts) {
    && (forall g :: 0 <= g < |groups| ==> GroupOk(groups[g], plans, texts))
    && (forall g :: 0 <= g < |groups| ==>
          groups[g].entries != [] && groups[g].entries == OfKey(flat, plans, groups[g].file, groups[g].phase))
    && (forall g, h :: 0 <= g < h < |groups| ==> groups[g].file != groups[h].file || groups[g].phase != groups[h].phase)
    && (forall e :: e in flat ==> exists g :: 0 <= g < |groups| && KeyOf(e, plans, groups[g].file, groups[g].phase))
  }

  method GroupEntries(flat: seq<Entry>, plans: seq<SourcePlan>, ghost texts: Texts) returns (groups: seq<Group>)
    requires EntriesOk(flat, plans, texts)
    ensures Grouped(groups, flat, plans, texts)
  {
    groups := [];
    for k := 0 to |flat|
      invariant Grouped(groups, flat[..k], plans, texts)
    {
      var e := flat[k];
      var file := plans[e.adm.plan].file;
      var g := 0;
      while g < |groups| && !(groups[g].file == file && groups[g].phase == e.adm.phase)
        invariant 0 <= g <= |groups|
        invariant forall h :: 0 <= h < g ==> !(groups[h].file == file && groups[h].phase == e.adm.phase)
      {
        g := g + 1;
      }
      ghost var before := groups;
      if g < |groups| {
        groups := groups[g := groups[g].(entries := groups[g].entries + [e])];
      } else {
        groups := groups + [Group(file, e.adm.phase, [e])];
      }
      AddToGroup(before, flat[..k], plans, texts, groups, g, e);
      assert flat[..k + 1] == flat[..k] + [e];
    }
    assert flat[..|flat|] == flat;
  }

  lemma NewKeyIsEmpty(groups: seq<Group>, flat: seq<Entry>, plans: seq<SourcePlan>, texts: Texts, file: string, ph: Phase)
    requires Grouped(groups, flat, plans, texts)
    requires forall h :: 0 <= h < |groups| ==> !(groups[h].file == file && groups[h].phase == ph)
    ensures OfKey(flat, plans, file, ph) == []
  {
    forall x | x in flat
      ensures !KeyOf(x, plans, file, ph)
    {
      var h :| 0 <= h < |groups| && KeyOf(x, plans, groups[h].file, groups[h].phase);
    }
    NoneOfKey(flat, plans, file, ph);
  }

  lemma {:induction false} NoneOfKey(flat: seq<Entry>, plans: seq<SourcePlan>, file: string, ph: Phase)
    requires forall x :: x in flat ==> !KeyOf(x, plans, file, ph)
    ensures OfKey(flat, plans, file, ph) == []
  {
    if flat != [] {
      var k := |flat| - 1;
      assert flat[k] in flat;
      NoneOfKey(flat[..k], plans, file, ph);
    }
  }

  lemma AddToGroup(before: seq<Group>, flat: seq<Entry>, plans: seq<SourcePlan>, texts: Texts,
                   groups: seq<Group>, g: nat, e: Entry)
    requires Grouped(before, flat, plans, texts) && EntryOk(e, plans, texts)
    requires g <= |before|
    requires forall h :: 0 <= h < g ==> !KeyOf(e, plans, before[h].file, before[h].phase)
    requires g < |before| ==>
               && before[g].file == plans[e.adm.plan].file && before[g].phase == e.adm.phase
               && groups == before[g := before[g].(entries := before[g].entries + [e])]
    requires g == |before| ==> groups == before + [Group(plans[e.adm.plan].file, e.adm.phase, [e])]
    ensures Grouped(groups, flat + [e], plans, texts)
  {
    hide OfKey;
    var file, ph := plans[e.adm.plan].file, e.adm.phase;
    if g == |before| {
      NewKeyIsEmpty(before, flat, plans, texts, file, ph);
    }
    forall h | 0 <= h < |groups|
      ensures GroupOk(groups[h], plans, texts)
      ensures groups[h].entries == OfKey(flat + [e], plans, groups[h].file, groups[h].phase)
    {
      OfKeySnoc(flat, e, plans, groups[h].file, groups[h].phase);
      assert KeyOf(e, plans, groups[h].file, groups[h].phase) <==> h == g;
    }
    forall x | x in flat + [e]
      ensures exists h :: 0 <= h < |groups| && KeyOf(x, plans, groups[h].file, groups[h].phase)
    {
      if x in flat {
        var h :| 0 <= h < |before| && KeyOf(x, plans, before[h].file, before[h].phase);
        assert groups[h].file == before[h].file && groups[h].phase == before[h].phase;
      } else {
        assert KeyOf(x, plans, groups[g].file, groups[g].phase);
      }
    }
  }
}
