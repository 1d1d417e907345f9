/**
 The transaction overlay of the fixed Sled storage engine (src/cozo/sled_store.rs): a buffered
 change set, with deletions, over a persisted sorted map.
 */
module SledStore {
  import opened Prelude
  import opened ByteOrder
  import opened SortedEntries
  import opened Overlays

  /** The persisted tree, shared by every transaction, and its maintenance marker. */
  class SledDb {
    var data: Data
    var scrubbed: bool

    constructor (data: Data)
      ensures this.data == data && !scrubbed
    {
      this.data := data;
      scrubbed := false;
    }

    /** One atomic batch: the last write to a key wins, `None` removes it. */
    method ApplyBatch(batch: Changes)
      modifies `data
      ensures data == Overlay(old(data), batch)
    {
      data := Overlay(data, batch);
    }

    method Remove(k: Bytes)
      modifies `data
      ensures data == old(data) - {k}
    {
      data := data - {k};
    }

    /** Removes, once per database, the empty values an upstream bug left behind. */
    method ScrubEmptyTombstones()
      modifies this
      ensures scrubbed
      ensures old(scrubbed) ==> data == old(data)
      ensures !old(scrubbed) ==> data == map k | k in old(data) && old(data)[k] != [] :: old(data)[k]
    {
      if scrubbed {
        return;
      }
      var batch: Changes := map[];
      var todo := data.Keys;
      while todo != {}
        invariant todo <= data.Keys
        invariant data == old(data)
        invariant forall k :: k in batch <==> k in data && k !in todo && data[k] == []
        invariant forall k :: k in batch ==> batch[k].None?
        decreases |todo|
      {
        var k :| k in todo;
        todo := todo - {k};
        if data[k] == [] {
          batch := batch[k := None];
        }
      }
      ApplyBatch(batch);
      scrubbed := true;
    }
  }

  /** The merging iterator: what is left of both listings, and one cached element of each. */
  class MergedIter {
    var changeIter: seq<(Bytes, Option<Bytes>)>
    var dbIter: seq<(Bytes, Bytes)>
    var changeCache: Option<(Bytes, Option<Bytes>)>
    var dbCache: Option<(Bytes, Bytes)>

    constructor (changes: seq<(Bytes, Option<Bytes>)>, entries: seq<(Bytes, Bytes)>)
      requires Ascending(changes) && Ascending(entries)
      ensures Valid() && Rest() == Merge(changes, entries)
    {
      changeIter, dbIter, changeCache, dbCache := changes, entries, None, None;
      new;
      assert Changes() == changes && Entries() == entries;
    }

    ghost function Changes(): seq<(Bytes, Option<Bytes>)>
      reads this
    {
      (if changeCache.Some? then [changeCache.value] else []) + changeIter
    }

    ghost function Entries(): seq<(Bytes, Bytes)>
      reads this
    {
      (if dbCache.Some? then [dbCache.value] else []) + dbIter
    }

    ghost predicate Valid()
      reads this
    {
      Ascending(Changes()) && Ascending(Entries())
    }

    /** What the iterator still has to yield. */
    ghost function Rest(): seq<(Bytes, Bytes)>
      reads this
    {
      Merge(Changes(), Entries())
    }

    method FillCache()
      modifies this
      ensures Changes() == old(Changes()) && Entries() == old(Entries())
      ensures changeCache.None? ==> Changes() == []
      ensures dbCache.None? ==> Entries() == []
    {
      if changeCache.None? && changeIter != [] {
        changeCache, changeIter := Some(changeIter[0]), changeIter[1..];
      }
      if dbCache.None? && dbIter != [] {
        dbCache, dbIter := Some(dbIter[0]), dbIter[1..];
      }
    }

    /** Drops a persisted entry that a change of the same key overrides. */
    method Override()
      requires Valid() && changeCache.Some? && dbCache.Some? && changeCache.value.0 == dbCache.value.0
      modifies `dbCache
      ensures Valid() && Rest() == old(Rest()) && Changes() == old(Changes()) && |Entries()| < |old(Entries())|
    {
      MergeOverride(Changes(), Entries());
      dbCache := None;
      assert Entries() == old(Entries())[1..];
    }

    /** Consumes the cached change: a put is yielded, a deletion is not. */
    method TakeChange() returns (e: Option<(Bytes, Bytes)>)
      requires Valid() && changeCache.Some?
      requires Entries() != [] ==> Less(changeCache.value.0, Entries()[0].0)
      modifies `changeCache
      ensures Valid() && Entries() == old(Entries()) && |Changes()| < |old(Changes())|
      ensures if e.None? then Rest() == old(Rest())
              else old(Rest()) != [] && e.value == old(Rest())[0] && Rest() == old(Rest())[1..]
    {
      MergeChange(Changes(), Entries());
      var (k, change) := changeCache.value;
      changeCache := None;
      assert Changes() == old(Changes())[1..];
      e := match change case Some(v) => Some((k, v)) case None => None;
    }

    /** Yields the cached persisted entry. */
    method TakeEntry() returns (e: (Bytes, Bytes))
      requires Valid() && dbCache.Some?
      requires Changes() != [] ==> Less(dbCache.value.0, Changes()[0].0)
      modifies `dbCache
      ensures Valid()
      ensures old(Rest()) != [] && e == old(Rest())[0] && Rest() == old(Rest())[1..]
    {
      MergeEntry(Changes(), Entries());
      e := dbCache.value;
      dbCache := None;
      assert Entries() == old(Entries())[1..];
    }

    /** Yields the next visible entry, or nothing at the end, for good. */
    method Next() returns (e: Option<(Bytes, Bytes)>)
      requires Valid()
      modifies this
      ensures Valid()
      ensures old(Rest()) == [] ==> e == None && Rest() == []
      ensures old(Rest()) != [] ==> e == Some(old(Rest())[0]) && Rest() == old(Rest())[1..]
    {
      hide Merge, Ascending;
      while true
        invariant Valid() && Rest() == old(Rest())
        decreases |Changes()| + |Entries()|
      {
        FillCache();
        var takeChange: bool;
        match (changeCache, dbCache) {
          case (None, None) =>
            MergeNothing();
            return None;
          case (Some(_), None) => takeChange := true;
          case (None, Some(_)) => takeChange := false;
          case (Some(c), Some(d)) =>
            if c.0 == d.0 {
              Override();
              continue;
            }
            LessTotal(c.0, d.0);
            takeChange := Less(c.0, d.0);
        }
        if takeChange {
          e := TakeChange();
          if e.Some? {
            return;
          }
        } else {
          var d := TakeEntry();
          return Some(d);
        }
      }
    }
  }

  class SledTx {
    const db: SledDb
    var changes: Changes

    constructor (db: SledDb)
      ensures this.db == db && changes == map[]
    {
      this.db := db;
      changes := map[];
    }

    /** What the transaction sees: its buffered changes over the persisted data. */
    ghost function View(): Data
      reads this, db
    {
      Overlay(db.data, changes)
    }

    function Get(k: Bytes): (v: Option<Bytes>)
      reads this, db
      ensures v == if k in View() then Some(View()[k]) else None
    {
      if k in changes then changes[k] else if k in db.data then Some(db.data[k]) else None
    }

    function Exists(k: Bytes): (b: bool)
      reads this, db
      ensures b <==> k in View()
    {
      if k in changes then changes[k].Some? else k in db.data
    }

    method Put(k: Bytes, v: Bytes)
      modifies this
      ensures changes == old(changes)[k := Some(v)]
      ensures View() == old(View())[k := v]
    {
      changes := changes[k := Some(v)];
    }

    method Del(k: Bytes)
      modifies this
      ensures changes == old(changes)[k := None]
      ensures View() == old(View()) - {k}
    {
      changes := changes[k := None];
    }

    /** Applies the buffered changes as one batch; the transaction sees the same afterwards. */
    method Commit()
      modifies this, db`data
      ensures db.data == Overlay(old(db.data), old(changes)) == old(View())
      ensures changes == map[]
      ensures View() == old(View())
    {
      OverlayNothing(db.data);
      OverlayNothing(View());
      hide Overlay;
      if changes == map[] {
        return;
      }
      var taken := changes;
      changes := map[];
      var batch: Changes := map[];
      var todo := taken.Keys;
      while todo != {}
        invariant todo <= taken.Keys
        invariant forall k :: k in batch <==> k in taken && k !in todo
        invariant forall k :: k in batch ==> batch[k] == taken[k]
        decreases |todo|
      {
        var k :| k in todo;
        todo := todo - {k};
        batch := batch[k := taken[k]];
      }
      assert batch == taken;
      db.ApplyBatch(batch);
    }

    /** The visible entries with `lower <= key < upper`, ascending. */
    method RangeScan(lower: Bytes, upper: Bytes) returns (entries: seq<(Bytes, Bytes)>)
      ensures Lists(entries, View(), lower, upper)
    {
      if !Less(lower, upper) {
        forall k { NothingBetween(k, lower, upper); }
        return [];
      }
      if changes == map[] {
        assert View() == db.data;
        entries := Range(db.data, lower, upper);
        return;
      }
      var changed := Range(changes, lower, upper);
      var persisted := Range(db.data, lower, upper);
      MergeListsOverlay(changed, persisted, db.data, changes, lower, upper);
      var it := new MergedIter(changed, persisted);
      entries := Collect(it);
    }

    /** Pairs in range, counted one by one. */
    method RangeCount(lower: Bytes, upper: Bytes) returns (n: nat)
      ensures n == |set k | k in View() && InRange(k, lower, upper)|
    {
      var entries := RangeScan(lower, upper);
      ListingCounts(entries, View(), lower, upper);
      n := |entries|;
    }

    /** The scan from the empty key to the one-byte key 255, which the engine takes for everything. */
    method TotalScan() returns (entries: seq<(Bytes, Bytes)>)
      ensures Lists(entries, View(), [], [255])
      ensures (forall k :: k in View() ==> exists i :: 0 <= i < |entries| && entries[i].0 == k)
              <==> forall k :: k in View() ==> !StartsWith255(k)
    {
      entries := RangeScan([], [255]);
      forall k
        ensures InRange(k, [], [255]) <==> !StartsWith255(k)
      {
        TotalRange(k);
      }
      if k :| k in View() && StartsWith255(k) {
        assert forall i :: 0 <= i < |entries| ==> InRange(entries[i].0, [], [255]);
      }
    }

    /** Removes from the persisted data every key in range that the transaction sees. */
    method DelRangeFromPersisted(lower: Bytes, upper: Bytes)
      modifies db`data
      ensures db.data == old(db.data) - set k | k in old(View()) && InRange(k, lower, upper)
      ensures forall k :: InRange(k, lower, upper) ==>
                (k in View() <==> k in changes && changes[k].Some?)
                && (k in View() ==> View()[k] == changes[k].value)
      ensures forall k :: !InRange(k, lower, upper) ==>
                (k in View() <==> k in old(View())) && (k in View() ==> View()[k] == old(View())[k])
    {
      var entries := RangeScan(lower, upper);
      ghost var view := View();
      ListedEntries(entries, view, lower, upper);
      for i := 0 to |entries|
        invariant db.data == old(db.data) - set j | 0 <= j < i :: entries[j].0
      {
        db.Remove(entries[i].0);
      }
      ghost var gone := set j | 0 <= j < |entries| :: entries[j].0;
      forall k
        ensures k in gone <==> k in view && InRange(k, lower, upper)
      {
        if k in view && InRange(k, lower, upper) {
          assert (k, view[k]) in entries;
        }
      }
    }
  }

  predicate StartsWith255(k: Bytes) { k != [] && k[0] == 255 }

  lemma TotalRange(k: Bytes)
    ensures InRange(k, [], [255]) <==> !StartsWith255(k)
  {
    if StartsWith255(k) {
      assert !Less(k[1..], [255][1..]);
    }
  }

  /** The total scan is not total: a key that starts with byte 255 is stored but never listed. */
  lemma TotalScanMisses(entries: seq<(Bytes, Bytes)>, data: Data)
    requires data == map[[255, 7] := [1]] && Lists(entries, data, [], [255])
    ensures [255, 7] in data && forall i :: 0 <= i < |entries| ==> entries[i].0 != [255, 7]
  {
    TotalRange([255, 7]);
  }

  lemma NothingBetween(k: Bytes, lower: Bytes, upper: Bytes)
    ensures !Less(lower, upper) ==> !InRange(k, lower, upper)
  {
    LessTotal(k, lower);
    LessTotal(lower, upper);
    LessTotal(upper, k);
    if !Less(lower, upper) && lower != upper && Less(lower, k) {
      LessTransitive(upper, lower, k);
    }
  }

  /** Drains an iterator. */
  method Collect(it: MergedIter) returns (entries: seq<(Bytes, Bytes)>)
    requires it.Valid()
    modifies it
    ensures entries == old(it.Rest())
  {
    hide Merge, Ascending;
    entries := [];
    ghost var goal := it.Rest();
    assert [] + goal == goal;
    while true
      invariant it.Valid() && goal == entries + it.Rest()
      decreases |it.Rest()|
    {
      ghost var rest := it.Rest();
      var e := it.Next();
      if e.None? {
        return;
      }
      assert rest == [rest[0]] + rest[1..];
      entries := entries + [e.value];
    }
  }

  /** A listing is as long as the range has keys. */
  lemma {:induction false} ListingCounts(s: seq<(Bytes, Bytes)>, m: Data, lower: Bytes, upper: Bytes)
    requires Lists(s, m, lower, upper)
    ensures |s| == |set k | k in m && InRange(k, lower, upper)|
    decreases |s|
  {
    var keys := set k | k in m && InRange(k, lower, upper);
    if s == [] {
      assert keys == {};
    } else {
      var k := s[0].0;
      var m' := m - {k};
      var keys' := set k | k in m' && InRange(k, lower, upper);
      assert k in m && InRange(k, lower, upper);
      assert keys == keys' + {k};
      TailLists(s, m, lower, upper);
      hide Lists, InRange;
      ListingCounts(s[1..], m', lower, upper);
    }
  }

  /** The rest of a listing lists the map without its first key. */
  lemma TailLists(s: seq<(Bytes, Bytes)>, m: Data, lower: Bytes, upper: Bytes)
    requires Lists(s, m, lower, upper) && s != []
    ensures Lists(s[1..], m - {s[0].0}, lower, upper)
  {
    hide InRange;
    var k, tail := s[0].0, s[1..];
    var m' := m - {k};
    forall i | 0 <= i < |tail|
      ensures tail[i].0 in m' && m'[tail[i].0] == tail[i].1 && InRange(tail[i].0, lower, upper)
    {
      assert tail[i] == s[i + 1];
      LessTotal(k, s[i + 1].0);
    }
    forall x | x in m' && InRange(x, lower, upper)
      ensures exists i :: 0 <= i < |tail| && tail[i].0 == x
    {
      var i :| 0 <= i < |s| && s[i].0 == x;
      assert tail[i - 1].0 == x;
    }
  }

  datatype PutResult = Row(key: Bytes, value: Bytes) | ReadError

  /** The rows of `rows` over `data`, later ones winning. */
  function PutAll(data: Data, rows: seq<PutResult>): Data {
    if rows == [] then data
    else
      var front := PutAll(data, rows[..|rows| - 1]);
      match rows[|rows| - 1] case Row(k, v) => front[k := v] case ReadError => front
  }

  /** Writes all rows or, when reading one fails, none. */
  method BatchPut(db: SledDb, rows: seq<PutResult>) returns (ok: bool)
    modifies db`data
    ensures ok <==> forall i :: 0 <= i < |rows| ==> rows[i].Row?
    ensures db.data == if ok then PutAll(old(db.data), rows) else old(db.data)
  {
    var tx := new SledTx(db);
    assert tx.View() == db.data;
    for i := 0 to |rows|
      invariant tx.db == db && fresh(tx) && db.data == old(db.data)
      invariant forall j :: 0 <= j < i ==> rows[j].Row?
      invariant tx.View() == PutAll(old(db.data), rows[..i])
    {
      if rows[i].ReadError? {
        return false;
      }
      TakeSnoc(rows, i);
      assert rows[..i + 1][..i] == rows[..i];
      tx.Put(rows[i].key, rows[i].value);
    }
    TakeAll(rows);
    tx.Commit();
    ok := true;
  }
}
