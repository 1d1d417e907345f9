/** The overlay as values: what a buffered change set shows over persisted data. */
module Overlays {
  import opened Prelude
  import opened ByteOrder
  import opened SortedEntries

  type Data = map<Bytes, Bytes>

  /** Buffered writes; `None` marks a deletion. */
  type Changes = map<Bytes, Option<Bytes>>

  /** The persisted data overridden by the changes, deletions hidden. */
  function Overlay(data: Data, changes: Changes): Data {
    map k | k in data.Keys + changes.Keys && (k in changes ==> changes[k].Some?)
      :: if k in changes then changes[k].value else data[k]
  }

  lemma OverlayNothing(data: Data)
    ensures Overlay(data, map[]) == data
  {
  }

  /** What merging the remaining changes and persisted entries still has to yield. */
  ghost function Merge(cs: seq<(Bytes, Option<Bytes>)>, ds: seq<(Bytes, Bytes)>): seq<(Bytes, Bytes)>
    decreases |cs| + |ds|
  {
    if cs == [] then ds
    else if ds != [] && cs[0].0 == ds[0].0 then Merge(cs, ds[1..])
    else if ds != [] && Less(ds[0].0, cs[0].0) then [ds[0]] + Merge(cs, ds[1..])
    else (match cs[0].1 case Some(v) => [(cs[0].0, v)] case None => []) + Merge(cs[1..], ds)
  }

  lemma MergeNothing()
    ensures Merge([], []) == []
  {
  }

  lemma MergeOverride(cs: seq<(Bytes, Option<Bytes>)>, ds: seq<(Bytes, Bytes)>)
    requires cs != [] && ds != [] && cs[0].0 == ds[0].0 && Ascending(ds)
    ensures Merge(cs, ds) == Merge(cs, ds[1..]) && Ascending(ds[1..])
  {
  }

  lemma MergeEntry(cs: seq<(Bytes, Option<Bytes>)>, ds: seq<(Bytes, Bytes)>)
    requires ds != [] && (cs != [] ==> Less(ds[0].0, cs[0].0)) && Ascending(ds)
    ensures Merge(cs, ds) == [ds[0]] + Merge(cs, ds[1..]) && Ascending(ds[1..])
  {
    if cs != [] {
      LessTotal(cs[0].0, ds[0].0);
    }
    assert ds == [ds[0]] + ds[1..];
  }

  lemma MergeChange(cs: seq<(Bytes, Option<Bytes>)>, ds: seq<(Bytes, Bytes)>)
    requires cs != [] && (ds != [] ==> Less(cs[0].0, ds[0].0)) && Ascending(cs)
    ensures Ascending(cs[1..])
    ensures Merge(cs, ds) == (match cs[0].1 case Some(v) => [(cs[0].0, v)] case None => []) + Merge(cs[1..], ds)
  {
    if ds != [] {
      LessTotal(cs[0].0, ds[0].0);
    } else {
      MergeNoEntries(cs);
    }
  }

  lemma MergeNoEntries(cs: seq<(Bytes, Option<Bytes>)>)
    requires cs != []
    ensures Merge(cs, []) == (match cs[0].1 case Some(v) => [(cs[0].0, v)] case None => []) + Merge(cs[1..], [])
  {
  }

  /** `e` is a buffered put, or a persisted entry no change touches. */
  ghost predicate Visible(e: (Bytes, Bytes), cs: seq<(Bytes, Option<Bytes>)>, ds: seq<(Bytes, Bytes)>) {
    (e.0, Some(e.1)) in cs || (e in ds && forall i :: 0 <= i < |cs| ==> cs[i].0 != e.0)
  }

  /** Every key of `s` is above `k`. */
  ghost predicate Above<V>(s: seq<(Bytes, V)>, k: Bytes) {
    forall i :: 0 <= i < |s| ==> Less(k, s[i].0)
  }

  lemma AboveTail<V>(s: seq<(Bytes, V)>)
    requires Ascending(s) && s != []
    ensures Above(s[1..], s[0].0)
  {
  }

  lemma AboveMono<V>(s: seq<(Bytes, V)>, k: Bytes, k': Bytes)
    requires Above(s, k') && (k == k' || Less(k, k'))
    ensures Above(s, k)
  {
    forall i | 0 <= i < |s|
      ensures Less(k, s[i].0)
    {
      if k != k' {
        LessTransitive(k, k', s[i].0);
      }
    }
  }

  lemma AboveHead<V>(s: seq<(Bytes, V)>, k: Bytes)
    requires Ascending(s) && (s != [] ==> Less(k, s[0].0))
    ensures Above(s, k)
  {
    if s != [] {
      AboveTail(s);
      AboveMono(s[1..], k, s[0].0);
      assert s == [s[0]] + s[1..];
    }
  }

  lemma AscendingCons<V>(e: (Bytes, V), s: seq<(Bytes, V)>)
    requires Ascending(s) && Above(s, e.0)
    ensures Ascending([e] + s)
  {
  }

  /** Merging keeps the keys ascending and above any bound of both inputs. */
  lemma {:induction false} MergeAscends(cs: seq<(Bytes, Option<Bytes>)>, ds: seq<(Bytes, Bytes)>)
    requires Ascending(cs) && Ascending(ds)
    ensures Ascending(Merge(cs, ds))
    ensures forall k :: Above(cs, k) && Above(ds, k) ==> Above(Merge(cs, ds), k)
    decreases |cs| + |ds|
  {
    if cs == [] {
    } else if ds != [] && cs[0].0 == ds[0].0 {
      MergeAscends(cs, ds[1..]);
    } else if ds != [] && Less(ds[0].0, cs[0].0) {
      MergeAscends(cs, ds[1..]);
      AboveTail(ds);
      AboveHead(cs, ds[0].0);
      AscendingCons(ds[0], Merge(cs, ds[1..]));
    } else {
      MergeAscends(cs[1..], ds);
      AboveTail(cs);
      if ds != [] {
        LessTotal(cs[0].0, ds[0].0);
      }
      AboveHead(ds, cs[0].0);
      if cs[0].1.Some? {
        AscendingCons((cs[0].0, cs[0].1.value), Merge(cs[1..], ds));
      }
    }
  }

  /** A key below all of `s` is not a key of `s`. */
  lemma NotAKey<V>(s: seq<(Bytes, V)>, k: Bytes)
    requires Above(s, k)
    ensures forall i :: 0 <= i < |s| ==> s[i].0 != k
  {
    LessTotal(k, k);
  }

  lemma {:induction false} MergeIsVisible(cs: seq<(Bytes, Option<Bytes>)>, ds: seq<(Bytes, Bytes)>, e: (Bytes, Bytes))
    requires Ascending(cs) && Ascending(ds)
    ensures e in Merge(cs, ds) <==> Visible(e, cs, ds)
    decreases |cs| + |ds|
  {
    if cs == [] {
    } else if ds != [] && cs[0].0 == ds[0].0 {
      MergeIsVisible(cs, ds[1..], e);
      assert ds == [ds[0]] + ds[1..];
    } else if ds != [] && Less(ds[0].0, cs[0].0) {
      MergeIsVisible(cs, ds[1..], e);
      AboveHead(cs, ds[0].0);
      NotAKey(cs, ds[0].0);
      assert ds == [ds[0]] + ds[1..];
    } else {
      MergeIsVisible(cs[1..], ds, e);
      if ds != [] {
        LessTotal(cs[0].0, ds[0].0);
      }
      AboveHead(ds, cs[0].0);
      NotAKey(ds, cs[0].0);
      assert cs == [cs[0]] + cs[1..];
    }
  }

  /**
   The merging iterator refines the map overlay: over listings of a range of the change set and of
   the persisted data, it yields the listing of that range of the overlay.
   */
  lemma MergeListsOverlay(cs: seq<(Bytes, Option<Bytes>)>, ds: seq<(Bytes, Bytes)>, data: Data, changes: Changes,
                          lower: Bytes, upper: Bytes)
    requires Lists(cs, changes, lower, upper) && Lists(ds, data, lower, upper)
    ensures Lists(Merge(cs, ds), Overlay(data, changes), lower, upper)
  {
    var merged, view := Merge(cs, ds), Overlay(data, changes);
    MergeAscends(cs, ds);
    ListedEntries(cs, changes, lower, upper);
    ListedEntries(ds, data, lower, upper);
    forall i | 0 <= i < |merged|
      ensures merged[i].0 in view && view[merged[i].0] == merged[i].1 && InRange(merged[i].0, lower, upper)
    {
      VisibleIsInOverlay(cs, ds, data, changes, lower, upper, merged[i]);
    }
    forall k | k in view && InRange(k, lower, upper)
      ensures exists i :: 0 <= i < |merged| && merged[i].0 == k
    {
      VisibleIsInOverlay(cs, ds, data, changes, lower, upper, (k, view[k]));
      var i :| 0 <= i < |merged| && merged[i] == (k, view[k]);
    }
  }

  lemma VisibleIsInOverlay(cs: seq<(Bytes, Option<Bytes>)>, ds: seq<(Bytes, Bytes)>, data: Data, changes: Changes,
                           lower: Bytes, upper: Bytes, e: (Bytes, Bytes))
    requires Lists(cs, changes, lower, upper) && Lists(ds, data, lower, upper)
    ensures var view := Overlay(data, changes);
            e in Merge(cs, ds) <==> e.0 in view && view[e.0] == e.1 && InRange(e.0, lower, upper)
  {
    ListedEntries(cs, changes, lower, upper);
    ListedEntries(ds, data, lower, upper);
    MergeIsVisible(cs, ds, e);
    if e.0 in changes && InRange(e.0, lower, upper) {
      assert (e.0, changes[e.0]) in cs;
    }
    assert forall i :: 0 <= i < |cs| ==> cs[i] in cs;
  }
}
