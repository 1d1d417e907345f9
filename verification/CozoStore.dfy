/** What the Cozo database stores: relations, the embedding space recorded for each, and batched writes (src/cozo/engine.rs). */
module CozoStore {
  import opened Prelude

  type Id = string

  /** An embedder's identity and the dimension of its vectors. */
  datatype Space = Space(embedder: string, dim: nat)

  const HASHED := Space("hashed-v1", 128)

  /** A stored vector: the space it lies in and the text it embeds. */
  datatype Vector = Vector(space: Space, text: string)

  datatype Columns =
    | NodeColumns(filePath: string, kind: string, name: string, start: int, end: int, bodyHash: string, qualified: string)
    | WikiColumns(title: string, path: string, tags: seq<string>, summary: string)

  datatype Row = Row(columns: Columns, vector: Vector)

  datatype Rel = CodeNodes | WikiEntities

  /** A vector relation: its declared dimension, its layout, the dimension of its index, its rows. */
  datatype Relation = Relation(dim: nat, currentLayout: bool, index: Option<nat>, rows: map<Id, Row>)

  datatype EdgeKey = EdgeKey(source: Id, target: Id, kind: string)

  /** Everything the database holds; a missing relation is absent from its map. */
  datatype Store = Store(
    relations: map<Rel, Relation>,
    edges: Option<map<EdgeKey, string>>,
    meta: Option<map<Rel, Space>>)

  /** The space recorded for a relation. */
  function StoredSpace(s: Store, r: Rel): Option<Space> {
    if s.meta.Some? && r in s.meta.value then Some(s.meta.value[r]) else None
  }

  /** The space of a relation's vectors: the recorded one, or the hashed one from before spaces were recorded. */
  function SpaceOf(s: Store, r: Rel): Space {
    match StoredSpace(s, r) case Some(space) => space case None => HASHED
  }

  /** Every vector of the relation, its rows' dimension and its index belong to `space`. */
  ghost predicate InSpace(rel: Relation, space: Space) {
    && rel.dim == space.dim
    && (rel.index.Some? ==> rel.index.value == space.dim)
    && forall id :: id in rel.rows ==> rel.rows[id].vector.space == space
  }

  /**
   What every operation keeps: a relation's vectors were all built in the space recorded for it; a
   relation from before spaces were recorded holds hashed vectors.
   */
  ghost predicate SpacesOk(s: Store) {
    forall r :: r in s.relations ==> InSpace(s.relations[r], SpaceOf(s, r))
  }

  /** The schema is complete: relations of the current layout, indexed and with a recorded space. */
  ghost predicate Ready(s: Store) {
    && s.edges.Some? && s.meta.Some?
    && forall r: Rel :: r in s.relations && StoredSpace(s, r).Some? && s.relations[r].index.Some?
                        && (r == CodeNodes ==> s.relations[r].currentLayout)
  }

  // ----- Bulk writes -----

  const SYNC_BATCH := 2000

  /** Upserts in order; the last row for a key wins. */
  function PutAll<K, V>(m: map<K, V>, rows: seq<(K, V)>): map<K, V>
    decreases rows
  {
    if rows == [] then m else PutAll(m[rows[0].0 := rows[0].1], rows[1..])
  }

  function Flatten<T>(batches: seq<seq<T>>): seq<T> {
    if batches == [] then [] else batches[0] + Flatten(batches[1..])
  }

  lemma {:induction false} FlattenSnoc<T>(batches: seq<seq<T>>, b: seq<T>)
    ensures Flatten(batches + [b]) == Flatten(batches) + b
  {
    if batches == [] {
      assert [b][1..] == [] && [] + [b] == [b];
    } else {
      FlattenSnoc(batches[1..], b);
      assert (batches + [b])[1..] == batches[1..] + [b];
    }
  }

  lemma {:induction false} PutAllAppend<K, V>(m: map<K, V>, a: seq<(K, V)>, b: seq<(K, V)>)
    ensures PutAll(m, a + b) == PutAll(PutAll(m, a), b)
    decreases a
  {
    if a == [] {
      assert a + b == b;
    } else {
      PutAllAppend(m[a[0].0 := a[0].1], a[1..], b);
      assert (a + b)[1..] == a[1..] + b;
    }
  }

  /** Batches are non-empty and bounded, and together they are the rows in order. */
  ghost predicate BatchesOf<T>(batches: seq<seq<T>>, rows: seq<T>) {
    Flatten(batches) == rows && forall i :: 0 <= i < |batches| ==> 0 < |batches[i]| <= SYNC_BATCH
  }

  lemma BatchesSnoc<T>(batches: seq<seq<T>>, done: seq<T>, b: seq<T>)
    requires BatchesOf(batches, done) && 0 < |b| <= SYNC_BATCH
    ensures BatchesOf(batches + [b], done + b)
  {
    FlattenSnoc(batches, b);
  }

  lemma Reassociate<T>(done: seq<T>, rows: seq<T>, n: nat)
    requires n <= |rows|
    ensures (done + rows[..n]) + rows[n..] == done + rows
  {
  }

  /** Writes rows in bounded batches, one transaction each. */
  method PutRowsBatched<K(==), V(==)>(m: map<K, V>, data: seq<(K, V)>) returns (m': map<K, V>, ghost batches: seq<seq<(K, V)>>)
    ensures m' == PutAll(m, data)
    ensures BatchesOf(batches, data)
  {
    hide PutAll, BatchesOf;
    m', batches := m, [];
    var rows := data;
    ghost var done: seq<(K, V)> := [];
    NoRows(m);
    while rows != []
      invariant done + rows == data
      invariant m' == PutAll(m, done)
      invariant BatchesOf(batches, done)
      decreases |rows|
    {
      var n := Min(|rows|, SYNC_BATCH);
      var rest := rows[n..];
      var batch := rows[..n];
      PutAllAppend(m, done, batch);
      BatchesSnoc(batches, done, batch);
      Reassociate(done, rows, n);
      m' := PutAll(m', batch);
      batches := batches + [batch];
      done := done + batch;
      rows := rest;
    }
    assert done == data;
  }

  lemma NoRows<K, V>(m: map<K, V>)
    ensures PutAll(m, []) == m && BatchesOf<(K, V)>([], [])
  {
  }

  /** Removes keys in bounded batches, one transaction each. */
  method RemoveBatched<K(==), V(==)>(m: map<K, V>, data: seq<K>) returns (m': map<K, V>, ghost batches: seq<seq<K>>)
    ensures m' == m - set i | 0 <= i < |data| :: data[i]
    ensures BatchesOf(batches, data)
  {
    m', batches := m, [];
    var rows := data;
    ghost var done: seq<K> := [];
    while rows != []
      invariant done + rows == data
      invariant forall k :: k in m' <==> k in m && k !in done
      invariant forall k :: k in m' ==> m'[k] == m[k]
      invariant BatchesOf(batches, done)
      decreases |rows|
    {
      var n := Min(|rows|, SYNC_BATCH);
      var rest := rows[n..];
      var batch := rows[..n];
      BatchesSnoc(batches, done, batch);
      Reassociate(done, rows, n);
      m' := m' - set i | 0 <= i < |batch| :: batch[i];
      assert forall k :: k in done + batch <==> k in done || k in batch;
      batches := batches + [batch];
      done := done + batch;
      rows := rest;
    }
    assert done == data;
  }

  lemma {:induction false} PutAllKeys<K, V>(m: map<K, V>, rows: seq<(K, V)>, k: K)
    ensures k in PutAll(m, rows) <==> k in m || exists i :: 0 <= i < |rows| && rows[i].0 == k
    decreases rows
  {
    if rows != [] {
      PutAllKeys(m[rows[0].0 := rows[0].1], rows[1..], k);
      if i :| 0 <= i < |rows| && rows[i].0 == k {
        assert i > 0 ==> rows[1..][i - 1].0 == k;
      }
      if i :| 0 <= i < |rows[1..]| && rows[1..][i].0 == k {
        assert rows[i + 1].0 == k;
      }
    }
  }

  /** No key has two rows. */
  ghost predicate DistinctKeys<K, V>(rows: seq<(K, V)>) {
    forall i, j :: 0 <= i < j < |rows| ==> rows[i].0 != rows[j].0
  }

  /** With distinct keys each put row is stored, and other keys keep their value. */
  lemma {:induction false} PutAllValues<K, V>(m: map<K, V>, rows: seq<(K, V)>, k: K)
    requires DistinctKeys(rows)
    ensures forall i :: 0 <= i < |rows| && rows[i].0 == k ==> k in PutAll(m, rows) && PutAll(m, rows)[k] == rows[i].1
    ensures k in m && (forall i :: 0 <= i < |rows| ==> rows[i].0 != k) ==> k in PutAll(m, rows) && PutAll(m, rows)[k] == m[k]
    decreases rows
  {
    if rows != [] {
      var tail := rows[1..];
      PutAllValues(m[rows[0].0 := rows[0].1], tail, k);
      assert forall i :: 0 <= i < |tail| ==> tail[i] == rows[i + 1];
      if rows[0].0 == k {
        assert forall i :: 0 <= i < |tail| ==> tail[i].0 != k;
      }
      forall i | 0 <= i < |rows| && rows[i].0 == k
        ensures k in PutAll(m, rows) && PutAll(m, rows)[k] == rows[i].1
      {
        if i > 0 {
          assert tail[i - 1].0 == k;
        }
      }
    }
  }
}
