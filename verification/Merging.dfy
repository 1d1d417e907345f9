/** Requests of one file and phase merged where they overlap (src/graph/agent.rs). */
module Merging {
  import opened Prelude
  import opened SourceRanges
  import opened Sorting
  import opened Admissions
  import opened Entries
  import opened Grouping

  function OrderKey(e: Entry): Key { Key(e.order, e.range.start, e.range.end) }

  function StartKey(e: Entry): Key { Key(e.range.start, -e.range.end, e.order) }

  function MergeEntry(p: Entry, e: Entry): Entry {
    Entry(p.adm.(atomic := p.adm.atomic && e.adm.atomic), CombineRanges(p.range, e.range), Min(p.order, e.order))
  }

  ghost predicate Ascending(es: seq<Entry>) {
    forall i, j :: 0 <= i < j < |es| ==> es[i].range.end < es[j].range.start
  }

  ghost predicate MergeInv(merged: seq<Entry>, done: seq<Entry>, g: Group, plans: seq<SourcePlan>, texts: Texts,
                           flat: seq<Entry>) {
    && GroupOk(g.(entries := merged), plans, texts) && AllRooted(merged, flat)
    && SameHas(merged, done, plans) && Ascending(merged)
    && (done == [] <==> merged == [])
    && (done != [] ==> merged[|merged| - 1].range.start <= done[|done| - 1].range.start)
  }

  /** `m` carries exactly what `p` and `e` carry, in the same group. */
  ghost predicate Joins(m: Entry, p: Entry, e: Entry, g: Group, plans: seq<SourcePlan>, texts: Texts, flat: seq<Entry>) {
    && EntryOk(m, plans, texts) && InGroup(m, g, plans) && Rooted(m, flat)
    && m.range.start == Min(p.range.start, e.range.start)
    && (forall l :: Within(m.range, l) <==> Within(p.range, l) || Within(e.range, l))
  }

  ghost predicate InGroup(e: Entry, g: Group, plans: seq<SourcePlan>) {
    KeyOf(e, plans, g.file, g.phase)
  }

  lemma MergeEntryJoins(p: Entry, e: Entry, g: Group, plans: seq<SourcePlan>, texts: Texts, flat: seq<Entry>)
    requires EntryOk(p, plans, texts) && EntryOk(e, plans, texts) && RangesOverlap(p.range, e.range)
    requires InGroup(p, g, plans) && InGroup(e, g, plans) && Rooted(p, flat) && Rooted(e, flat)
    ensures Joins(MergeEntry(p, e), p, e, g, plans, texts, flat)
  {
    CombineShows(p.range, e.range, texts[plans[p.adm.plan].file]);
  }

  lemma SameHasJoin(front: seq<Entry>, p: Entry, e: Entry, m: Entry, done: seq<Entry>, g: Group,
                    plans: seq<SourcePlan>, texts: Texts, flat: seq<Entry>)
    requires SameHas(front + [p], done, plans) && Joins(m, p, e, g, plans, texts, flat)
    requires InGroup(p, g, plans) && InGroup(e, g, plans)
    ensures SameHas(front + [m], done + [e], plans)
  {
    forall file, ph, l
      ensures Has(front + [m], plans, file, ph, l) <==> Has(done + [e], plans, file, ph, l)
    {
      HasAppend(front, [p], plans, file, ph, l);
      HasAppend(front, [m], plans, file, ph, l);
      HasAppend(done, [e], plans, file, ph, l);
      HasOne(p, plans, file, ph, l);
      HasOne(e, plans, file, ph, l);
      HasOne(m, plans, file, ph, l);
    }
  }

  lemma JoinKeeps(front: seq<Entry>, p: Entry, e: Entry, m: Entry, done: seq<Entry>, g: Group,
                  plans: seq<SourcePlan>, texts: Texts, flat: seq<Entry>)
    requires MergeInv(front + [p], done, g, plans, texts, flat)
    requires EntryOk(e, plans, texts) && InGroup(e, g, plans) && RangesOverlap(p.range, e.range)
    requires Joins(m, p, e, g, plans, texts, flat)
    requires done != [] && done[|done| - 1].range.start <= e.range.start
    ensures MergeInv(front + [m], done + [e], g, plans, texts, flat)
  {
    assert (front + [p])[|front|] == p;
    assert EntryOk((front + [p])[|front|], plans, texts);
    SameHasJoin(front, p, e, m, done, g, plans, texts, flat);
    forall i | 0 <= i < |front|
      ensures front[i].range.end < m.range.start
      ensures EntryOk(front[i], plans, texts) && InGroup(front[i], g, plans) && Rooted(front[i], flat)
    {
      assert (front + [p])[i] == front[i];
    }
    forall i, j | 0 <= i < j < |front|
      ensures front[i].range.end < front[j].range.start
    {
      assert (front + [p])[i] == front[i] && (front + [p])[j] == front[j];
    }
  }

  lemma AppendKeeps(merged: seq<Entry>, e: Entry, done: seq<Entry>, g: Group,
                    plans: seq<SourcePlan>, texts: Texts, flat: seq<Entry>)
    requires MergeInv(merged, done, g, plans, texts, flat)
    requires EntryOk(e, plans, texts) && InGroup(e, g, plans) && Rooted(e, flat)
    requires merged != [] ==> !RangesOverlap(merged[|merged| - 1].range, e.range)
    requires done != [] ==> done[|done| - 1].range.start <= e.range.start
    ensures MergeInv(merged + [e], done + [e], g, plans, texts, flat)
  {
    SameHasAppend(merged, [e], done, [e], plans);
    if merged != [] {
      assert EntryOk(merged[|merged| - 1], plans, texts);
    }
  }

  /** `m` carries all of `f` with its ids, comes no later, and is atomic only if `f` is. */
  ghost predicate Absorbs(m: Entry, f: Entry) {
    && Contains(m.range, f.range) && (m.adm.atomic ==> f.adm.atomic) && m.order <= f.order
    && forall id :: id in f.range.nodeIds ==> id in m.range.nodeIds
  }

  /** `f` lies inside `m`, in the same file and phase. */
  ghost predicate Belongs(f: Entry, m: Entry, plans: seq<SourcePlan>) {
    SameFile(f, m, plans) && f.adm.phase == m.adm.phase && Contains(m.range, f.range)
  }

  /** Both line `l` and the next one are the entry's. */
  ghost predicate Bridges(e: Entry, l: int) { e.range.start <= l < e.range.end }

  ghost predicate PlacedBy(m: Entry, es: seq<Entry>, plans: seq<SourcePlan>) {
    exists f :: f in es && Belongs(f, m, plans) && f.order == m.order
  }

  ghost predicate LoosenedBy(m: Entry, es: seq<Entry>, plans: seq<SourcePlan>) {
    exists f :: f in es && Belongs(f, m, plans) && !f.adm.atomic
  }

  ghost predicate AskedBy(id: NodeId, m: Entry, es: seq<Entry>, plans: seq<SourcePlan>) {
    exists f :: f in es && Belongs(f, m, plans) && id in f.range.nodeIds
  }

  ghost predicate BridgedBy(l: int, m: Entry, es: seq<Entry>, plans: seq<SourcePlan>) {
    exists f :: f in es && Belongs(f, m, plans) && Bridges(f, l)
  }

  /**
   `m` is made of entries of `es` inside it: its place is that of one of them, as is each of its ids;
   it is not atomic because of one of them; and each two neighbouring lines of it come from one of them.
   */
  ghost predicate MadeOf(m: Entry, es: seq<Entry>, plans: seq<SourcePlan>) {
    && PlacedBy(m, es, plans)
    && (!m.adm.atomic ==> LoosenedBy(m, es, plans))
    && (forall id :: id in m.range.nodeIds ==> AskedBy(id, m, es, plans))
    && (forall l :: Bridges(m, l) ==> BridgedBy(l, m, es, plans))
  }

  ghost predicate AllMade(ms: seq<Entry>, es: seq<Entry>, plans: seq<SourcePlan>) {
    forall m :: m in ms ==> MadeOf(m, es, plans)
  }

  /** What holds by an entry of `es` inside `p` holds by one of `more` inside `m`, when `m` has all of `p`. */
  lemma MadeOfMore(p: Entry, es: seq<Entry>, m: Entry, more: seq<Entry>, plans: seq<SourcePlan>)
    requires (forall e :: e in es ==> e in more) && Belongs(p, m, plans)
    ensures PlacedBy(p, es, plans) && p.order == m.order ==> PlacedBy(m, more, plans)
    ensures LoosenedBy(p, es, plans) ==> LoosenedBy(m, more, plans)
    ensures forall id :: AskedBy(id, p, es, plans) ==> AskedBy(id, m, more, plans)
    ensures forall l :: BridgedBy(l, p, es, plans) ==> BridgedBy(l, m, more, plans)
  {
    hide Bridges;
    forall f | f in es && Belongs(f, p, plans)
      ensures f in more && Belongs(f, m, plans)
    {
    }
    hide Belongs;
    if PlacedBy(p, es, plans) && p.order == m.order {
      var f :| f in es && Belongs(f, p, plans) && f.order == p.order;
      assert Belongs(f, m, plans);
    }
    if LoosenedBy(p, es, plans) {
      var f :| f in es && Belongs(f, p, plans) && !f.adm.atomic;
      assert Belongs(f, m, plans);
    }
    forall id | AskedBy(id, p, es, plans)
      ensures AskedBy(id, m, more, plans)
    {
      var f :| f in es && Belongs(f, p, plans) && id in f.range.nodeIds;
      assert Belongs(f, m, plans);
    }
    forall l | BridgedBy(l, p, es, plans)
      ensures BridgedBy(l, m, more, plans)
    {
      var f :| f in es && Belongs(f, p, plans) && Bridges(f, l);
      assert Belongs(f, m, plans);
    }
  }

  lemma StillMade(m: Entry, es: seq<Entry>, more: seq<Entry>, plans: seq<SourcePlan>)
    requires MadeOf(m, es, plans) && forall e :: e in es ==> e in more
    ensures MadeOf(m, more, plans)
  {
    hide PlacedBy, LoosenedBy, AskedBy, BridgedBy, Bridges;
    assert Belongs(m, m, plans) by { PlacedBelongs(m, es, plans); }
    MadeOfMore(m, es, m, more, plans);
  }

  lemma PlacedBelongs(m: Entry, es: seq<Entry>, plans: seq<SourcePlan>)
    requires PlacedBy(m, es, plans)
    ensures Belongs(m, m, plans)
  {
  }

  lemma MadeOfOne(e: Entry, es: seq<Entry>, plans: seq<SourcePlan>)
    requires e in es && e.adm.plan < |plans|
    ensures MadeOf(e, es, plans)
  {
    assert Belongs(e, e, plans);
    hide Belongs;
  }

  lemma MergedFields(p: Entry, e: Entry)
    ensures var m := MergeEntry(p, e);
            && m.adm == p.adm.(atomic := p.adm.atomic && e.adm.atomic) && m.order == Min(p.order, e.order)
            && m.range.start == Min(p.range.start, e.range.start) && m.range.end == Max(p.range.end, e.range.end)
            && forall id :: id in m.range.nodeIds <==> id in p.range.nodeIds || id in e.range.nodeIds
  {
    hide UnionIds;
  }

  lemma MadeOfBoth(p: Entry, e: Entry, done: seq<Entry>, plans: seq<SourcePlan>)
    requires MadeOf(p, done, plans) && SameFile(p, e, plans) && p.adm.phase == e.adm.phase
    requires RangesOverlap(p.range, e.range) && p.range.start <= e.range.start
    ensures MadeOf(MergeEntry(p, e), done + [e], plans)
  {
    var m, more := MergeEntry(p, e), done + [e];
    MergedFields(p, e);
    hide MergeEntry;
    assert e in more && Belongs(e, m, plans) && Belongs(p, m, plans);
    hide Belongs;
    MadeOfMore(p, done, m, more, plans);
    assert e.order == m.order ==> PlacedBy(m, more, plans);
    assert !e.adm.atomic ==> LoosenedBy(m, more, plans);
    forall id | id in m.range.nodeIds
      ensures AskedBy(id, m, more, plans)
    {
      assert id in e.range.nodeIds ==> AskedBy(id, m, more, plans);
    }
    forall l | Bridges(m, l)
      ensures BridgedBy(l, m, more, plans)
    {
      assert Bridges(p, l) || Bridges(e, l);
      assert Bridges(e, l) ==> BridgedBy(l, m, more, plans);
    }
  }

  /** Every entry of `done` is absorbed, and nothing of the merged ones comes from elsewhere. */
  ghost predicate Housed(merged: seq<Entry>, done: seq<Entry>, plans: seq<SourcePlan>) {
    && (forall f :: f in done ==> exists m :: m in merged && Absorbs(m, f))
    && AllMade(merged, done, plans)
  }

  lemma HousedJoin(front: seq<Entry>, p: Entry, e: Entry, done: seq<Entry>, plans: seq<SourcePlan>)
    requires Housed(front + [p], done, plans) && SameFile(p, e, plans) && p.adm.phase == e.adm.phase
    requires RangesOverlap(p.range, e.range) && p.range.start <= e.range.start
    ensures Housed(front + [MergeEntry(p, e)], done + [e], plans)
  {
    hide MadeOf;
    var m' := MergeEntry(p, e);
    var was, next := front + [p], front + [m'];
    MergedFields(p, e);
    hide MergeEntry;
    assert m' in next && p in was && Absorbs(m', p) && Absorbs(m', e);
    forall f | f in done + [e]
      ensures exists m :: m in next && Absorbs(m, f)
    {
      if f in done {
        var m :| m in was && Absorbs(m, f);
        assert if m in front then m in next else Absorbs(m', f);
      }
    }
    MadeOfBoth(p, e, done, plans);
    forall m | m in front
      ensures MadeOf(m, done + [e], plans)
    {
      assert m in was;
      StillMade(m, done, done + [e], plans);
    }
  }

  lemma HousedAppend(merged: seq<Entry>, e: Entry, done: seq<Entry>, plans: seq<SourcePlan>)
    requires Housed(merged, done, plans) && e.adm.plan < |plans|
    ensures Housed(merged + [e], done + [e], plans)
  {
    hide MadeOf;
    forall f | f in done + [e]
      ensures exists m :: m in merged + [e] && Absorbs(m, f)
    {
      if f in done {
        var m :| m in merged && Absorbs(m, f);
        assert m in merged + [e];
      } else {
        assert e in merged + [e] && Absorbs(e, f);
      }
    }
    MadeOfOne(e, done + [e], plans);
    forall m | m in merged
      ensures MadeOf(m, done + [e], plans)
    {
      StillMade(m, done, done + [e], plans);
    }
  }

  lemma HousedMembers(merged: seq<Entry>, a: seq<Entry>, b: seq<Entry>, plans: seq<SourcePlan>)
    requires Housed(merged, a, plans) && forall e :: e in a <==> e in b
    ensures Housed(merged, b, plans)
  {
    hide MadeOf, Absorbs;
    forall m | m in merged
      ensures MadeOf(m, b, plans)
    {
      StillMade(m, a, b, plans);
    }
  }

  /** Folds the next entry, in start order, into the merged ones. */
  method MergeNext(merged: seq<Entry>, e: Entry, ghost done: seq<Entry>, ghost g: Group,
                   ghost plans: seq<SourcePlan>, ghost texts: Texts, ghost flat: seq<Entry>)
    returns (next: seq<Entry>)
    requires MergeInv(merged, done, g, plans, texts, flat)
    requires EntryOk(e, plans, texts) && InGroup(e, g, plans) && Rooted(e, flat)
    requires done != [] ==> done[|done| - 1].range.start <= e.range.start
    requires Housed(merged, done, plans)
    ensures MergeInv(next, done + [e], g, plans, texts, flat)
    ensures Housed(next, done + [e], plans)
  {
    hide Housed;
    if merged != [] && RangesOverlap(merged[|merged| - 1].range, e.range) {
      var p := merged[|merged| - 1];
      ghost var front := merged[..|merged| - 1];
      assert merged == front + [p];
      MergeEntryJoins(p, e, g, plans, texts, flat);
      JoinKeeps(front, p, e, MergeEntry(p, e), done, g, plans, texts, flat);
      HousedJoin(front, p, e, done, plans);
      next := merged[..|merged| - 1] + [MergeEntry(p, e)];
    } else {
      AppendKeeps(merged, e, done, g, plans, texts, flat);
      HousedAppend(merged, e, done, plans);
      next := merged + [e];
    }
  }

  method SortGroup(g: Group, ghost plans: seq<SourcePlan>, ghost texts: Texts, ghost flat: seq<Entry>)
    returns (sorted: seq<Entry>)
    requires GroupOk(g, plans, texts) && AllRooted(g.entries, flat)
    ensures forall k :: 0 <= k < |sorted| ==>
              EntryOk(sorted[k], plans, texts) && InGroup(sorted[k], g, plans) && Rooted(sorted[k], flat)
    ensures forall k :: 0 < k < |sorted| ==> sorted[k - 1].range.start <= sorted[k].range.start
    ensures SameHas(sorted, g.entries, plans)
    ensures forall e :: e in sorted <==> e in g.entries
  {
    sorted := Sort(StartKey, g.entries);
    SortSorts(StartKey, g.entries);
    SameMembers(sorted, g.entries);
    assert forall i :: 0 <= i < |sorted| ==> sorted[i] in g.entries;
    forall k | 0 < k < |sorted|
      ensures sorted[k - 1].range.start <= sorted[k].range.start
    {
      assert Le(StartKey(sorted[k - 1]), StartKey(sorted[k]));
    }
    forall file, ph, l
      ensures Has(sorted, plans, file, ph, l) <==> Has(g.entries, plans, file, ph, l)
    {
      HasMembers(sorted, g.entries, plans, file, ph, l);
      HasMembers(g.entries, sorted, plans, file, ph, l);
    }
  }

  /** Overlapping entries of one group become one; afterwards the group's entries are disjoint. */
  method MergeGroup(g: Group, ghost plans: seq<SourcePlan>, ghost texts: Texts, ghost flat: seq<Entry>)
    returns (merged: seq<Entry>)
    requires GroupOk(g, plans, texts) && AllRooted(g.entries, flat)
    ensures EntriesOk(merged, plans, texts) && AllRooted(merged, flat)
    ensures SameHas(merged, g.entries, plans) && Ascending(merged)
    ensures forall i :: 0 <= i < |merged| ==> InGroup(merged[i], g, plans)
    ensures Housed(merged, g.entries, plans)
  {
    var sorted := SortGroup(g, plans, texts, flat);
    merged := [];
    for k := 0 to |sorted|
      invariant MergeInv(merged, sorted[..k], g, plans, texts, flat)
      invariant Housed(merged, sorted[..k], plans)
    {
      TakeSnoc(sorted, k);
      merged := MergeNext(merged, sorted[k], sorted[..k], g, plans, texts, flat);
    }
    TakeAll(sorted);
    HousedMembers(merged, sorted, g.entries, plans);
  }

  /** An entry of `es` that shares a line with one of `flat`, in file and phase, absorbs it. */
  ghost predicate Absorbed(es: seq<Entry>, flat: seq<Entry>, plans: seq<SourcePlan>) {
    forall m, f, file, ph, l :: m in es && f in flat && Holds(m, plans, file, ph, l) && Holds(f, plans, file, ph, l)
      ==> Absorbs(m, f)
  }

  lemma GroupAbsorbs(merged: seq<Entry>, g: Group, plans: seq<SourcePlan>, texts: Texts)
    requires Housed(merged, g.entries, plans) && Ascending(merged) && GroupOk(g, plans, texts)
    requires forall i :: 0 <= i < |merged| ==> InGroup(merged[i], g, plans)
    ensures Absorbed(merged, g.entries, plans) && AllMade(merged, g.entries, plans)
  {
    hide MadeOf, EntryOk;
    forall m, f, file, ph, l | m in merged && f in g.entries && Holds(m, plans, file, ph, l) && Holds(f, plans, file, ph, l)
      ensures Absorbs(m, f)
    {
      var m' :| m' in merged && Absorbs(m', f);
      var i :| 0 <= i < |merged| && merged[i] == m;
      var j :| 0 <= j < |merged| && merged[j] == m';
      assert Within(m.range, l) && Within(m'.range, l);
      assert i == j;
    }
  }

  /** Merging one more group, of a file and phase no earlier entry has. */
  lemma GroupsAbsorb(same: seq<Entry>, members: seq<Entry>, merged: seq<Entry>, g: Group, plans: seq<SourcePlan>, texts: Texts)
    requires Absorbed(same, members, plans) && AllMade(same, members, plans)
    requires Absorbed(merged, g.entries, plans) && AllMade(merged, g.entries, plans) && GroupOk(g, plans, texts)
    requires forall i :: 0 <= i < |merged| ==> InGroup(merged[i], g, plans)
    requires forall m :: m in same || m in members ==> !InGroup(m, g, plans)
    ensures Absorbed(same + merged, members + g.entries, plans)
    ensures AllMade(same + merged, members + g.entries, plans)
  {
    hide MadeOf;
    forall m, f, file, ph, l | m in same + merged && f in members + g.entries
                               && Holds(m, plans, file, ph, l) && Holds(f, plans, file, ph, l)
      ensures Absorbs(m, f)
    {
      assert InGroup(m, g, plans) <==> InGroup(f, g, plans);
    }
    forall m | m in same + merged
      ensures MadeOf(m, members + g.entries, plans)
    {
      if m in same {
        StillMade(m, members, members + g.entries, plans);
      } else {
        StillMade(m, g.entries, members + g.entries, plans);
      }
    }
  }

  /** No two entries of one file and phase share a line. */
  ghost predicate Apart(es: seq<Entry>, plans: seq<SourcePlan>) {
    forall i, j, file, ph, l :: 0 <= i < j < |es| && Holds(es[i], plans, file, ph, l) ==> !Holds(es[j], plans, file, ph, l)
  }

  lemma GroupApart(merged: seq<Entry>, plans: seq<SourcePlan>)
    requires Ascending(merged)
    ensures Apart(merged, plans)
  {
    forall i, j, file, ph, l | 0 <= i < j < |merged| && Holds(merged[i], plans, file, ph, l)
      ensures !Holds(merged[j], plans, file, ph, l)
    {
      assert Within(merged[i].range, l);
    }
  }

  lemma ApartAppend(same: seq<Entry>, merged: seq<Entry>, g: Group, plans: seq<SourcePlan>)
    requires Apart(same, plans) && Apart(merged, plans)
    requires forall m :: m in same ==> !InGroup(m, g, plans)
    requires forall i :: 0 <= i < |merged| ==> InGroup(merged[i], g, plans)
    ensures Apart(same + merged, plans)
  {
    var all := same + merged;
    forall i, j, file, ph, l | 0 <= i < j < |all| && Holds(all[i], plans, file, ph, l)
      ensures !Holds(all[j], plans, file, ph, l)
    {
      if i < |same| <= j {
        assert all[i] in same && InGroup(merged[j - |same|], g, plans);
      } else if |same| <= i {
        assert all[i] == merged[i - |same|] && all[j] == merged[j - |same|];
      }
    }
  }

  /** No entry is of the file and phase of a group from `k` on. */
  ghost predicate Foreign(es: seq<Entry>, groups: seq<Group>, k: nat, plans: seq<SourcePlan>) {
    forall h, m :: k <= h < |groups| && m in es ==> !InGroup(m, groups[h], plans)
  }

  lemma ForeignSnoc(es: seq<Entry>, xs: seq<Entry>, groups: seq<Group>, k: nat, flat: seq<Entry>,
                    plans: seq<SourcePlan>, texts: Texts)
    requires Grouped(groups, flat, plans, texts) && k < |groups| && Foreign(es, groups, k, plans)
    requires forall x :: x in xs ==> InGroup(x, groups[k], plans)
    ensures Foreign(es + xs, groups, k + 1, plans)
  {
    hide OfKey, GroupOk;
  }

  /** All groups merged, in group order. */
  method MergeGroups(groups: seq<Group>, flat: seq<Entry>, plans: seq<SourcePlan>, ghost texts: Texts)
    returns (same: seq<Entry>)
    requires Grouped(groups, flat, plans, texts) && AllRooted(flat, flat)
    ensures EntriesOk(same, plans, texts) && AllRooted(same, flat)
    ensures SameHas(same, flat, plans)
    ensures Absorbed(same, flat, plans) && AllMade(same, flat, plans) && Apart(same, plans)
  {
    hide Absorbed, AllMade, Foreign, Housed, Ascending, Apart, SameHas, EntryOk, Rooted;
    same := [];
    ghost var members: seq<Entry> := [];
    NothingAbsorbed(groups, plans);
    for k := 0 to |groups|
      invariant EntriesOk(same, plans, texts) && AllRooted(same, flat)
      invariant SameHas(same, members, plans)
      invariant forall e :: e in members ==> e in flat
      invariant forall g :: 0 <= g < k ==> forall e :: e in groups[g].entries ==> e in members
      invariant Absorbed(same, members, plans) && AllMade(same, members, plans) && Apart(same, plans)
      invariant Foreign(same, groups, k, plans) && Foreign(members, groups, k, plans)
    {
      ghost var entries := groups[k].entries;
      EntriesInGroup(groups, k, flat, plans, texts);
      var merged := MergeGroup(groups[k], plans, texts, flat);
      SameHasAppend(same, merged, members, entries, plans);
      GroupAbsorbs(merged, groups[k], plans, texts);
      NextApart(same, merged, groups, k, plans);
      NextGroup(same, members, merged, groups, k, flat, plans, texts);
      same := same + merged;
      members := members + entries;
    }
    AllGrouped(members, groups, flat, plans, texts);
    SameMembersHave(same, members, flat, plans);
    SameAbsorbed(same, members, flat, plans);
  }

  lemma SameMembersHave(same: seq<Entry>, members: seq<Entry>, flat: seq<Entry>, plans: seq<SourcePlan>)
    requires SameHas(same, members, plans) && forall e :: e in flat <==> e in members
    ensures SameHas(same, flat, plans)
  {
    forall file, ph, l
      ensures Has(same, plans, file, ph, l) <==> Has(flat, plans, file, ph, l)
    {
      HasMembers(members, flat, plans, file, ph, l);
      HasMembers(flat, members, plans, file, ph, l);
    }
  }

  lemma NextApart(same: seq<Entry>, merged: seq<Entry>, groups: seq<Group>, k: nat, plans: seq<SourcePlan>)
    requires k < |groups| && Foreign(same, groups, k, plans) && Apart(same, plans) && Ascending(merged)
    requires forall i :: 0 <= i < |merged| ==> InGroup(merged[i], groups[k], plans)
    ensures Apart(same + merged, plans)
  {
    GroupApart(merged, plans);
    hide Apart;
    ApartAppend(same, merged, groups[k], plans);
  }

  lemma NothingAbsorbed(groups: seq<Group>, plans: seq<SourcePlan>)
    ensures Absorbed([], [], plans) && AllMade([], [], plans) && Foreign([], groups, 0, plans) && Apart([], plans)
    ensures SameHas([], [], plans)
  {
  }

  lemma EntriesInGroup(groups: seq<Group>, k: nat, flat: seq<Entry>, plans: seq<SourcePlan>, texts: Texts)
    requires Grouped(groups, flat, plans, texts) && AllRooted(flat, flat) && k < |groups|
    ensures forall e :: e in groups[k].entries ==> e in flat && InGroup(e, groups[k], plans)
    ensures AllRooted(groups[k].entries, flat)
  {
    var es := groups[k].entries;
    forall i | 0 <= i < |es|
      ensures es[i] in flat && Rooted(es[i], flat)
    {
      assert es[i] in OfKey(flat, plans, groups[k].file, groups[k].phase);
    }
  }

  lemma NextGroup(same: seq<Entry>, members: seq<Entry>, merged: seq<Entry>, groups: seq<Group>, k: nat,
                  flat: seq<Entry>, plans: seq<SourcePlan>, texts: Texts)
    requires Grouped(groups, flat, plans, texts) && AllRooted(flat, flat) && k < |groups|
    requires Absorbed(same, members, plans) && AllMade(same, members, plans)
    requires Foreign(same, groups, k, plans) && Foreign(members, groups, k, plans)
    requires Absorbed(merged, groups[k].entries, plans) && AllMade(merged, groups[k].entries, plans)
    requires forall i :: 0 <= i < |merged| ==> InGroup(merged[i], groups[k], plans)
    ensures Absorbed(same + merged, members + groups[k].entries, plans)
    ensures AllMade(same + merged, members + groups[k].entries, plans)
    ensures Foreign(same + merged, groups, k + 1, plans) && Foreign(members + groups[k].entries, groups, k + 1, plans)
  {
    assert GroupOk(groups[k], plans, texts);
    EntriesInGroup(groups, k, flat, plans, texts);
    ForeignSnoc(same, merged, groups, k, flat, plans, texts);
    ForeignSnoc(members, groups[k].entries, groups, k, flat, plans, texts);
    GroupsAbsorb(same, members, merged, groups[k], plans, texts);
  }

  lemma AllGrouped(members: seq<Entry>, groups: seq<Group>, flat: seq<Entry>, plans: seq<SourcePlan>, texts: Texts)
    requires Grouped(groups, flat, plans, texts)
    requires forall g :: 0 <= g < |groups| ==> forall e :: e in groups[g].entries ==> e in members
    ensures forall e :: e in flat ==> e in members
  {
    forall e | e in flat
      ensures e in members
    {
      var g :| 0 <= g < |groups| && KeyOf(e, plans, groups[g].file, groups[g].phase);
      assert e in OfKey(flat, plans, groups[g].file, groups[g].phase);
    }
  }

  lemma SameAbsorbed(same: seq<Entry>, members: seq<Entry>, flat: seq<Entry>, plans: seq<SourcePlan>)
    requires Absorbed(same, members, plans) && AllMade(same, members, plans)
    requires forall e :: e in flat <==> e in members
    ensures Absorbed(same, flat, plans) && AllMade(same, flat, plans)
  {
    hide MadeOf;
    forall m | m in same
      ensures MadeOf(m, flat, plans)
    {
      StillMade(m, members, flat, plans);
    }
  }
}
