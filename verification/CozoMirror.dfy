/**
 The Cozo mirror of the code graph and the wiki (src/cozo/engine.rs): vector relations, the
 embedding space recorded for each, incremental synchronisation, and the search guard.
 */
module CozoMirror {
  import opened Prelude
  import opened CozoStore
  import opened SqliteTables

  // ----- Diffing nodes -----

  predicate Unchanged(stored: map<Id, Row>, n: SqlNode) { n.id in stored && stored[n.id].columns == n.columns }

  /** The freshly embedded row of a node. */
  function FreshRow(space: Space, n: SqlNode): Row { Row(n.columns, Vector(space, n.text)) }

  /** The row a sync leaves for a node: the stored one if its columns are unchanged, else a fresh one. */
  function SyncedRow(stored: map<Id, Row>, space: Space, n: SqlNode): Row {
    if Unchanged(stored, n) then stored[n.id] else FreshRow(space, n)
  }

  /** Rows to write: fresh ones of the changed or new nodes, in table order. */
  function PendingRows(stored: map<Id, Row>, space: Space, nodes: seq<SqlNode>): seq<(Id, Row)> {
    if nodes == [] then []
    else
      PendingRows(stored, space, nodes[..|nodes| - 1])
      + var n := nodes[|nodes| - 1]; if Unchanged(stored, n) then [] else [(n.id, FreshRow(space, n))]
  }

  ghost predicate DistinctIds(nodes: seq<SqlNode>) {
    forall i, j :: 0 <= i < j < |nodes| ==> nodes[i].id != nodes[j].id
  }

  /** Every pending row is that of a changed node. */
  lemma {:induction false} PendingFrom(stored: map<Id, Row>, space: Space, nodes: seq<SqlNode>, k: nat) returns (i: nat)
    requires k < |PendingRows(stored, space, nodes)|
    ensures i < |nodes| && !Unchanged(stored, nodes[i])
    ensures PendingRows(stored, space, nodes)[k] == (nodes[i].id, FreshRow(space, nodes[i]))
    decreases |nodes|
  {
    hide Unchanged, FreshRow;
    PendingSnoc(stored, space, nodes);
    var front := nodes[..|nodes| - 1];
    if k < |PendingRows(stored, space, front)| {
      i := PendingFrom(stored, space, front, k);
    } else {
      i := |nodes| - 1;
    }
  }

  /** Every changed node has a pending row. */
  lemma {:induction false} PendingHas(stored: map<Id, Row>, space: Space, nodes: seq<SqlNode>, i: nat)
    requires i < |nodes| && !Unchanged(stored, nodes[i])
    ensures (nodes[i].id, FreshRow(space, nodes[i])) in PendingRows(stored, space, nodes)
    decreases |nodes|
  {
    hide Unchanged, FreshRow;
    PendingSnoc(stored, space, nodes);
    if i < |nodes| - 1 {
      PendingHas(stored, space, nodes[..|nodes| - 1], i);
    }
  }

  /** Nodes with distinct ids have pending rows with distinct ids. */
  lemma {:induction false} PendingDistinct(stored: map<Id, Row>, space: Space, nodes: seq<SqlNode>, j: nat, k: nat)
    requires DistinctIds(nodes) && j < k < |PendingRows(stored, space, nodes)|
    ensures PendingRows(stored, space, nodes)[j].0 != PendingRows(stored, space, nodes)[k].0
    decreases |nodes|
  {
    hide Unchanged, FreshRow;
    PendingSnoc(stored, space, nodes);
    var front := nodes[..|nodes| - 1];
    if k < |PendingRows(stored, space, front)| {
      PendingDistinct(stored, space, front, j, k);
    } else {
      var i := PendingFrom(stored, space, front, j);
      assert front[i] == nodes[i];
    }
  }

  lemma PendingRowsDistinct(stored: map<Id, Row>, space: Space, nodes: seq<SqlNode>)
    requires DistinctIds(nodes)
    ensures DistinctKeys(PendingRows(stored, space, nodes))
  {
    hide DistinctIds;
    var rows := PendingRows(stored, space, nodes);
    forall j, k | 0 <= j < k < |rows|
      ensures rows[j].0 != rows[k].0
    {
      PendingDistinct(stored, space, nodes, j, k);
    }
  }

  lemma PendingSnoc(stored: map<Id, Row>, space: Space, nodes: seq<SqlNode>)
    requires nodes != []
    ensures var n := nodes[|nodes| - 1];
            PendingRows(stored, space, nodes) ==
            PendingRows(stored, space, nodes[..|nodes| - 1]) + if Unchanged(stored, n) then [] else [(n.id, FreshRow(space, n))]
  {
    hide Unchanged, FreshRow;
  }

  /** The stored keys that are no longer wanted, in some order. */
  method StaleKeys<K(==), V>(m: map<K, V>, keep: set<K>) returns (stale: seq<K>)
    ensures forall k :: k in stale <==> k in m && k !in keep
  {
    stale := [];
    var todo := m.Keys;
    while todo != {}
      invariant todo <= m.Keys
      invariant forall k :: k in stale <==> k in m && k !in keep && k !in todo
      decreases |todo|
    {
      var k :| k in todo;
      todo := todo - {k};
      if k !in keep {
        stale := stale + [k];
      }
    }
  }

  function Ids(nodes: seq<SqlNode>): set<Id> { set i | 0 <= i < |nodes| :: nodes[i].id }

  function NodeAt(nodes: seq<SqlNode>, id: Id): (n: Option<SqlNode>)
    ensures n.Some? <==> id in Ids(nodes)
    ensures n.Some? ==> n.value in nodes && n.value.id == id
  {
    if nodes == [] then None
    else if nodes[0].id == id then Some(nodes[0])
    else
      assert nodes == [nodes[0]] + nodes[1..];
      NodeAt(nodes[1..], id)
  }

  /** The node rows a sync leaves: one for each node of the table. */
  function SyncedNodes(stored: map<Id, Row>, space: Space, nodes: seq<SqlNode>): map<Id, Row> {
    map id | id in Ids(nodes) :: SyncedRow(stored, space, NodeAt(nodes, id).value)
  }

  lemma SyncedNodesAre(stored: map<Id, Row>, space: Space, nodes: seq<SqlNode>, rows: map<Id, Row>)
    requires DistinctIds(nodes) && MirrorsNodes(rows, nodes)
    requires forall i :: 0 <= i < |nodes| ==> rows[nodes[i].id] == SyncedRow(stored, space, nodes[i])
    ensures rows == SyncedNodes(stored, space, nodes)
  {
    hide SyncedRow;
    assert forall id :: id in rows <==> id in Ids(nodes);
    forall id | id in Ids(nodes) ensures rows[id] == SyncedRow(stored, space, NodeAt(nodes, id).value) {
      var n := NodeAt(nodes, id).value;
      var i :| 0 <= i < |nodes| && nodes[i] == n;
    }
  }

  ghost predicate HasId(nodes: seq<SqlNode>, id: Id) { exists i :: 0 <= i < |nodes| && nodes[i].id == id }

  /** Putting the pending rows and removing the stale keys leaves each node its synced row, and nothing else. */
  lemma SyncedRows(stored: map<Id, Row>, space: Space, nodes: seq<SqlNode>, id: Id)
    requires DistinctIds(nodes)
    ensures var rows := PutAll(stored, PendingRows(stored, space, nodes));
            && (id in rows <==> id in stored || HasId(nodes, id))
            && (forall i :: 0 <= i < |nodes| && nodes[i].id == id ==> id in rows && rows[id] == SyncedRow(stored, space, nodes[i]))
  {
    hide Unchanged, FreshRow, DistinctIds;
    var pending := PendingRows(stored, space, nodes);
    PendingRowsDistinct(stored, space, nodes);
    PutAllKeys(stored, pending, id);
    PutAllValues(stored, pending, id);
    if k :| 0 <= k < |pending| && pending[k].0 == id {
      var i := PendingFrom(stored, space, nodes, k);
      assert HasId(nodes, id);
    }
    forall i | 0 <= i < |nodes| && nodes[i].id == id
      ensures id in PutAll(stored, pending) && PutAll(stored, pending)[id] == SyncedRow(stored, space, nodes[i])
    {
      if Unchanged(stored, nodes[i]) {
        NotPending(stored, space, nodes, i, pending);
        UnchangedIsStored(stored, nodes[i]);
      } else {
        PendingHas(stored, space, nodes, i);
        var k :| 0 <= k < |pending| && pending[k] == (id, FreshRow(space, nodes[i]));
      }
    }
  }

  lemma UnchangedIsStored(stored: map<Id, Row>, n: SqlNode)
    requires Unchanged(stored, n)
    ensures n.id in stored
  {
  }

  lemma NotPending(stored: map<Id, Row>, space: Space, nodes: seq<SqlNode>, i: nat, pending: seq<(Id, Row)>)
    requires DistinctIds(nodes) && i < |nodes| && Unchanged(stored, nodes[i]) && pending == PendingRows(stored, space, nodes)
    ensures forall k :: 0 <= k < |pending| ==> pending[k].0 != nodes[i].id
  {
    hide FreshRow;
    forall k | 0 <= k < |pending|
      ensures pending[k].0 != nodes[i].id
    {
      var j := PendingFrom(stored, space, nodes, k);
      assert i != j;
    }
  }

  lemma {:induction false} PendingEmpty(stored: map<Id, Row>, space: Space, nodes: seq<SqlNode>)
    ensures PendingRows(stored, space, nodes) == [] <==> forall i :: 0 <= i < |nodes| ==> Unchanged(stored, nodes[i])
  {
    if nodes != [] {
      var front := nodes[..|nodes| - 1];
      PendingEmpty(stored, space, front);
      assert forall i :: 0 <= i < |front| ==> front[i] == nodes[i];
      if forall i :: 0 <= i < |front| ==> Unchanged(stored, front[i]) {
        assert forall i :: 0 <= i < |nodes| - 1 ==> Unchanged(stored, nodes[i]);
      }
    }
  }

  lemma {:induction false} NoBatches<T>(batches: seq<seq<T>>, rows: seq<T>)
    requires BatchesOf(batches, rows)
    ensures batches == [] <==> rows == []
  {
    if batches != [] {
      assert |Flatten(batches)| >= |batches[0]|;
    }
  }

  /**
   Synchronises the node rows: unchanged rows keep their embedding, changed or new ones are embedded
   and upserted in batches, rows without a node are removed. Nothing is written exactly when the
   rows already mirrored the table.
   */
  method SyncNodes(stored: map<Id, Row>, space: Space, nodes: seq<SqlNode>)
    returns (rows: map<Id, Row>, count: nat, ghost puts: seq<seq<(Id, Row)>>, ghost removals: seq<seq<Id>>)
    requires DistinctIds(nodes)
    ensures MirrorsNodes(rows, nodes)
    ensures forall i :: 0 <= i < |nodes| ==> nodes[i].id in rows && rows[nodes[i].id] == SyncedRow(stored, space, nodes[i])
    ensures BatchesOf(puts, PendingRows(stored, space, nodes)) && BatchesOf(removals, Flatten(removals))
    ensures puts == [] && removals == [] <==> MirrorsNodes(stored, nodes)
    ensures count == |Ids(nodes)|
  {
    var pending, nodeIds := DiffNodes(stored, space, nodes);
    hide PendingRows, SyncedRow, PutAll, Flatten, Unchanged;
    count := |nodeIds|;
    var written;
    written, puts := PutRowsBatched(stored, pending);
    var stale := StaleKeys(stored, nodeIds);
    rows, removals := RemoveBatched(written, stale);
    forall id
      ensures id in rows <==> HasId(nodes, id)
      ensures forall i :: 0 <= i < |nodes| && nodes[i].id == id ==> id in rows && rows[id] == SyncedRow(stored, space, nodes[i])
    {
      SyncedRows(stored, space, nodes, id);
    }
    RowsMirror(stored, space, rows, nodes);
    PendingEmpty(stored, space, nodes);
    NoBatches(puts, pending);
    NoBatches(removals, stale);
    WritesNothing(stored, nodes, stale, nodeIds);
  }

  lemma RowsMirror(stored: map<Id, Row>, space: Space, rows: map<Id, Row>, nodes: seq<SqlNode>)
    requires forall id :: id in rows ==> HasId(nodes, id)
    requires forall i :: 0 <= i < |nodes| ==> nodes[i].id in rows && rows[nodes[i].id] == SyncedRow(stored, space, nodes[i])
    ensures MirrorsNodes(rows, nodes)
  {
  }

  /** The rows to write and the ids of the table. */
  method DiffNodes(stored: map<Id, Row>, space: Space, nodes: seq<SqlNode>) returns (pending: seq<(Id, Row)>, nodeIds: set<Id>)
    ensures pending == PendingRows(stored, space, nodes)
    ensures nodeIds == Ids(nodes)
    ensures forall id :: HasId(nodes, id) <==> id in nodeIds
  {
    pending, nodeIds := [], {};
    for k := 0 to |nodes|
      invariant pending == PendingRows(stored, space, nodes[..k])
      invariant nodeIds == set i | 0 <= i < k :: nodes[i].id
    {
      var n := nodes[k];
      nodeIds := nodeIds + {n.id};
      assert nodes[..k + 1][..k] == nodes[..k];
      if Unchanged(stored, n) {
        continue;
      }
      pending := pending + [(n.id, FreshRow(space, n))];
    }
    TakeAll(nodes);
  }

  lemma WritesNothing(stored: map<Id, Row>, nodes: seq<SqlNode>, stale: seq<Id>, nodeIds: set<Id>)
    requires forall id :: HasId(nodes, id) <==> id in nodeIds
    requires forall id :: id in stale <==> id in stored && id !in nodeIds
    ensures MirrorsNodes(stored, nodes) <==> (forall i :: 0 <= i < |nodes| ==> Unchanged(stored, nodes[i])) && stale == []
  {
    if stale != [] {
      assert stale[0] in stale;
      assert !HasId(nodes, stale[0]);
    } else {
      forall id | id in stored
        ensures HasId(nodes, id)
      {
        assert id !in stale;
      }
    }
  }

  // ----- Diffing edges -----

  function EdgeKeys(edges: seq<SqlEdge>): set<EdgeKey> { set i | 0 <= i < |edges| :: edges[i].key }

  ghost predicate HasEdge(edges: seq<SqlEdge>, k: EdgeKey) { exists i :: 0 <= i < |edges| && edges[i].key == k }

  /** The first row of each key whose stored file differs, in table order. */
  ghost predicate EdgePuts(puts: seq<(EdgeKey, string)>, existing: map<EdgeKey, string>, nodes: seq<SqlNode>, edges: seq<SqlEdge>) {
    && (forall k :: 0 <= k < |puts| ==>
          && HasEdge(edges, puts[k].0) && puts[k].1 == JoinedFile(nodes, puts[k].0.source)
          && !(puts[k].0 in existing && existing[puts[k].0] == puts[k].1))
    && (forall j, k :: 0 <= j < k < |puts| ==> puts[j].0 != puts[k].0)
    && (forall e :: HasEdge(edges, e) ==>
          (e in existing && existing[e] == JoinedFile(nodes, e.source)) || (e, JoinedFile(nodes, e.source)) in puts)
  }

  method DiffEdges(existing: map<EdgeKey, string>, g: SqlGraph) returns (puts: seq<(EdgeKey, string)>, keys: set<EdgeKey>)
    ensures EdgePuts(puts, existing, g.nodes, g.edges)
    ensures forall e :: e in keys <==> HasEdge(g.edges, e)
    ensures keys == EdgeKeys(g.edges)
  {
    puts, keys := [], {};
    for k := 0 to |g.edges|
      invariant keys == set i | 0 <= i < k :: g.edges[i].key
      invariant forall p :: p in puts ==> p.0 in keys && p.1 == JoinedFile(g.nodes, p.0.source)
                                          && !(p.0 in existing && existing[p.0] == p.1)
      invariant forall i, j :: 0 <= i < j < |puts| ==> puts[i].0 != puts[j].0
      invariant forall e :: e in keys ==>
        (e in existing && existing[e] == JoinedFile(g.nodes, e.source)) || (e, JoinedFile(g.nodes, e.source)) in puts
    {
      var key := g.edges[k].key;
      var file := JoinedFile(g.nodes, key.source);
      if key in keys {
        continue;
      }
      assert forall i :: 0 <= i < |puts| ==> puts[i] in puts;
      keys := keys + {key};
      if key in existing && existing[key] == file {
        continue;
      }
      puts := puts + [(key, file)];
    }
    forall k | 0 <= k < |puts|
      ensures HasEdge(g.edges, puts[k].0)
    {
      assert puts[k] in puts;
    }
  }

  lemma EdgesPut(existing: map<EdgeKey, string>, puts: seq<(EdgeKey, string)>, g: SqlGraph, e: EdgeKey)
    requires EdgePuts(puts, existing, g.nodes, g.edges)
    ensures e in PutAll(existing, puts) <==> e in existing || HasEdge(g.edges, e)
    ensures HasEdge(g.edges, e) ==> PutAll(existing, puts)[e] == JoinedFile(g.nodes, e.source)
  {
    PutAllKeys(existing, puts, e);
    PutAllValues(existing, puts, e);
    if HasEdge(g.edges, e) && (e, JoinedFile(g.nodes, e.source)) in puts {
      var k :| 0 <= k < |puts| && puts[k] == (e, JoinedFile(g.nodes, e.source));
    }
  }

  /** Synchronises the edge rows the same way. */
  method SyncEdges(existing: map<EdgeKey, string>, g: SqlGraph)
    returns (edges: map<EdgeKey, string>, count: nat, ghost puts: seq<seq<(EdgeKey, string)>>, ghost removals: seq<seq<EdgeKey>>)
    ensures MirrorsEdges(edges, g) && (GraphOk(g) ==> EdgesHaveFiles(edges, g))
    ensures BatchesOf(puts, Flatten(puts)) && BatchesOf(removals, Flatten(removals))
    ensures puts == [] && removals == [] <==> MirrorsEdges(existing, g)
    ensures count == |EdgeKeys(g.edges)|
  {
    var tuples, keys := DiffEdges(existing, g);
    count := |keys|;
    var written;
    written, puts := PutRowsBatched(existing, tuples);
    var stale := StaleKeys(existing, keys);
    edges, removals := RemoveBatched(written, stale);
    forall e
      ensures e in edges <==> HasEdge(g.edges, e)
      ensures e in edges ==> edges[e] == JoinedFile(g.nodes, e.source)
    {
      EdgesPut(existing, tuples, g, e);
    }
    EdgesMirror(edges, g);
    if GraphOk(g) {
      MirrorsFiles(edges, g);
    }
    NoBatches(puts, tuples);
    NoBatches(removals, stale);
    WritesNoEdges(existing, g, tuples, stale);
  }

  lemma EdgesMirror(edges: map<EdgeKey, string>, g: SqlGraph)
    requires forall e :: e in edges <==> HasEdge(g.edges, e)
    requires forall e :: e in edges ==> edges[e] == JoinedFile(g.nodes, e.source)
    ensures MirrorsEdges(edges, g)
  {
    forall i | 0 <= i < |g.edges|
      ensures g.edges[i].key in edges
    {
      assert HasEdge(g.edges, g.edges[i].key);
    }
  }

  lemma WritesNoEdges(existing: map<EdgeKey, string>, g: SqlGraph, puts: seq<(EdgeKey, string)>, stale: seq<EdgeKey>)
    requires EdgePuts(puts, existing, g.nodes, g.edges)
    requires forall e :: e in stale <==> e in existing && !HasEdge(g.edges, e)
    ensures MirrorsEdges(existing, g) <==> puts == [] && stale == []
  {
    if puts == [] && stale == [] {
      forall e
        ensures e in existing <==> HasEdge(g.edges, e)
        ensures e in existing ==> existing[e] == JoinedFile(g.nodes, e.source)
      {
        assert e !in stale;
      }
      EdgesMirror(existing, g);
    }
    if stale != [] {
      assert stale[0] in stale;
    }
    if puts != [] {
      assert HasEdge(g.edges, puts[0].0);
    }
  }

  // ----- Wiki entities -----

  function EntityIds(entities: seq<SqlEntity>): set<Id> { set i | 0 <= i < |entities| :: entities[i].id }

  predicate FirstOf(entities: seq<SqlEntity>, i: nat)
    requires i < |entities|
  {
    forall j :: 0 <= j < i ==> entities[j].id != entities[i].id
  }

  function EntityRow(space: Space, e: SqlEntity): Row { Row(e.columns, Vector(space, e.text)) }

  /** The relation holds, for each id, the first entity of that id, freshly embedded, and nothing else. */
  ghost predicate MirrorsWiki(rows: map<Id, Row>, entities: seq<SqlEntity>, space: Space) {
    && (forall i :: 0 <= i < |entities| && FirstOf(entities, i) ==>
          && entities[i].id in rows
          && rows[entities[i].id].columns == entities[i].columns
          && rows[entities[i].id].vector == Vector(space, entities[i].text))
    && (forall id :: id in rows ==> exists i :: 0 <= i < |entities| && entities[i].id == id && FirstOf(entities, i))
  }

  ghost predicate PutOf(row: (Id, Row), entities: seq<SqlEntity>, space: Space, n: nat)
    requires n <= |entities|
  {
    exists i :: 0 <= i < n && FirstOf(entities, i) && row == (entities[i].id, EntityRow(space, entities[i]))
  }

  ghost predicate EntityPuts(tuples: seq<(Id, Row)>, entities: seq<SqlEntity>, space: Space, n: nat)
    requires n <= |entities|
  {
    && (forall k :: 0 <= k < |tuples| ==> PutOf(tuples[k], entities, space, n))
    && (forall i :: 0 <= i < n && FirstOf(entities, i) ==> (entities[i].id, EntityRow(space, entities[i])) in tuples)
    && (forall j, k :: 0 <= j < k < |tuples| ==> tuples[j].0 != tuples[k].0)
  }

  /** The tuples of the first entity of each id. */
  method EmbedEntities(entities: seq<SqlEntity>, space: Space) returns (tuples: seq<(Id, Row)>, ids: set<Id>)
    ensures EntityPuts(tuples, entities, space, |entities|)
    ensures ids == EntityIds(entities) && |tuples| == |ids|
  {
    hide EntityPuts, EntityRow, EntityIds, FirstOf;
    tuples, ids := [], {};
    NoEntities(entities, space);
    for n := 0 to |entities|
      invariant ids == EntityIds(entities[..n]) && |tuples| == |ids|
      invariant EntityPuts(tuples, entities, space, n)
    {
      var e := entities[n];
      EntityIdsNext(entities, n);
      EntityPutsNext(tuples, entities, space, n);
      if e.id in ids {
        continue;
      }
      ids := ids + {e.id};
      tuples := tuples + [(e.id, EntityRow(space, e))];
    }
    TakeAll(entities);
  }

  lemma EntityIdsNext(entities: seq<SqlEntity>, n: nat)
    requires n < |entities|
    ensures EntityIds(entities[..n + 1]) == EntityIds(entities[..n]) + {entities[n].id}
    ensures entities[n].id in EntityIds(entities[..n]) <==> !FirstOf(entities, n)
  {
    forall id ensures id in EntityIds(entities[..n + 1]) <==> id in EntityIds(entities[..n]) || id == entities[n].id {
      if id in EntityIds(entities[..n + 1]) {
        var i :| 0 <= i < n + 1 && entities[..n + 1][i].id == id;
        assert i < n ==> entities[..n][i].id == id;
      }
      if id in EntityIds(entities[..n]) {
        var i :| 0 <= i < n && entities[..n][i].id == id;
        assert entities[..n + 1][i].id == id;
      }
      assert entities[..n + 1][n].id == entities[n].id;
    }
    if !FirstOf(entities, n) {
      var j :| 0 <= j < n && entities[j].id == entities[n].id;
      assert entities[..n][j].id == entities[n].id;
    }
  }

  lemma NoEntities(entities: seq<SqlEntity>, space: Space)
    ensures EntityPuts([], entities, space, 0) && EntityIds(entities[..0]) == {}
  {
  }

  lemma EntityPutsNext(tuples: seq<(Id, Row)>, entities: seq<SqlEntity>, space: Space, n: nat)
    requires n < |entities| && EntityPuts(tuples, entities, space, n)
    ensures var next := if FirstOf(entities, n) then tuples + [(entities[n].id, EntityRow(space, entities[n]))] else tuples;
            EntityPuts(next, entities, space, n + 1)
  {
    hide EntityRow, FirstOf, PutOf;
    forall k | 0 <= k < |tuples|
      ensures PutOf(tuples[k], entities, space, n + 1)
      ensures FirstOf(entities, n) ==> tuples[k].0 != entities[n].id
    {
      assert PutOf(tuples[k], entities, space, n);
      PutStays(tuples[k], entities, space, n);
    }
    if FirstOf(entities, n) {
      EntityPutsSnoc(tuples, entities, space, n);
    }
  }

  lemma PutStays(row: (Id, Row), entities: seq<SqlEntity>, space: Space, n: nat)
    requires n < |entities| && PutOf(row, entities, space, n)
    ensures PutOf(row, entities, space, n + 1)
    ensures FirstOf(entities, n) ==> row.0 != entities[n].id
  {
    hide EntityRow;
    var i :| 0 <= i < n && FirstOf(entities, i) && row == (entities[i].id, EntityRow(space, entities[i]));
  }

  lemma EntityPutsSnoc(tuples: seq<(Id, Row)>, entities: seq<SqlEntity>, space: Space, n: nat)
    requires n < |entities| && EntityPuts(tuples, entities, space, n) && FirstOf(entities, n)
    requires forall k :: 0 <= k < |tuples| ==> PutOf(tuples[k], entities, space, n + 1) && tuples[k].0 != entities[n].id
    ensures EntityPuts(tuples + [(entities[n].id, EntityRow(space, entities[n]))], entities, space, n + 1)
  {
    hide EntityRow, FirstOf;
    var row := (entities[n].id, EntityRow(space, entities[n]));
    assert PutOf(row, entities, space, n + 1);
    hide PutOf;
    assert (tuples + [row])[|tuples|] == row;
    assert forall r :: r in tuples ==> r in tuples + [row];
  }

  /** Every entity id has a first entity. */
  lemma FirstExists(entities: seq<SqlEntity>, i: nat) returns (j: nat)
    requires i < |entities|
    ensures j <= i && entities[j].id == entities[i].id && FirstOf(entities, j)
    decreases i
  {
    if FirstOf(entities, i) {
      j := i;
    } else {
      var k :| 0 <= k < i && entities[k].id == entities[i].id;
      j := FirstExists(entities, k);
    }
  }

  lemma EntitiesPut(stored: map<Id, Row>, tuples: seq<(Id, Row)>, entities: seq<SqlEntity>, space: Space, i: nat)
    requires EntityPuts(tuples, entities, space, |entities|) && i < |entities| && FirstOf(entities, i)
    ensures entities[i].id in PutAll(stored, tuples)
    ensures PutAll(stored, tuples)[entities[i].id] == EntityRow(space, entities[i])
  {
    PutAllValues(stored, tuples, entities[i].id);
    var k :| 0 <= k < |tuples| && tuples[k] == (entities[i].id, EntityRow(space, entities[i]));
  }

  /** Replaces the wiki rows with the listed entities. */
  method SyncEntities(stored: map<Id, Row>, space: Space, entities: seq<SqlEntity>) returns (rows: map<Id, Row>, count: nat)
    ensures MirrorsWiki(rows, entities, space)
    ensures count == |EntityIds(entities)|
  {
    var tuples, ids := EmbedEntities(entities, space);
    count := |tuples|;
    var written := PutAll(stored, tuples);
    var stale := StaleKeys(written, ids);
    ghost var batches;
    rows, batches := RemoveBatched(written, stale);
    forall i | 0 <= i < |entities| && FirstOf(entities, i)
      ensures entities[i].id in rows && rows[entities[i].id] == EntityRow(space, entities[i])
    {
      EntitiesPut(stored, tuples, entities, space, i);
      assert entities[i].id in ids;
    }
    forall id | id in rows
      ensures exists i :: 0 <= i < |entities| && entities[i].id == id && FirstOf(entities, i)
    {
      assert id in ids;
      var i :| 0 <= i < |entities| && entities[i].id == id;
      var j := FirstExists(entities, i);
    }
  }

  // ----- Schema and spaces -----

  /** The relation is there, and not in an older layout that gets dropped. */
  predicate Current(relations: map<Rel, Relation>, r: Rel) {
    r in relations && (r == CodeNodes ==> relations[r].currentLayout)
  }

  datatype Target = Code | Wiki

  function RelationOf(t: Target): Rel { match t case Code => CodeNodes case Wiki => WikiEntities }

  datatype SearchResult = Refused | Compared(vectors: map<Id, Vector>)

  /** The database, which outlives the engines that open it. */
  class CozoDb {
    var relations: map<Rel, Relation>
    var edges: Option<map<EdgeKey, string>>
    var meta: Option<map<Rel, Space>>

    constructor (s: Store)
      ensures Snapshot() == s
    {
      relations, edges, meta := s.relations, s.edges, s.meta;
    }

    function Snapshot(): Store
      reads this
    {
      Store(relations, edges, meta)
    }

    /** The invariant of every database state. */
    ghost predicate Valid()
      reads this
    {
      SpacesOk(Snapshot())
    }

    method DropVectorRelation(r: Rel)
      modifies `relations
      ensures relations == old(relations) - {r}
    {
      relations := relations - {r};
    }

    /** Creating a relation that exists is tolerated and changes nothing. */
    method CreateTolerant(r: Rel, dim: nat)
      modifies `relations
      ensures relations == if r in old(relations) then old(relations) else old(relations)[r := Relation(dim, true, None, map[])]
    {
      if r !in relations {
        relations := relations[r := Relation(dim, true, None, map[])];
      }
    }

    /** Likewise for a relation's vector index. */
    method CreateIndexTolerant(r: Rel, dim: nat)
      requires r in relations
      modifies `relations
      ensures relations == if old(relations)[r].index.Some? then old(relations)
                           else old(relations)[r := old(relations)[r].(index := Some(dim))]
    {
      if relations[r].index.None? {
        relations := relations[r := relations[r].(index := Some(dim))];
      }
    }

    method WriteSpace(r: Rel, space: Space)
      requires meta.Some?
      modifies `meta
      ensures meta == Some(old(meta).value[r := space])
    {
      meta := Some(meta.value[r := space]);
    }
  }

  /** One relation is complete: it exists, is indexed, and its space is recorded. */
  ghost predicate RelationReady(s: Store, r: Rel) {
    r in s.relations && StoredSpace(s, r).Some? && s.relations[r].index.Some? && (r == CodeNodes ==> s.relations[r].currentLayout)
  }

  lemma NothingMissing(s: Store)
    requires Ready(s)
    ensures s.meta.Some? && forall r: Rel :: r in s.relations
  {
  }

  /** Emptying one relation and recording its new space leaves a complete schema. */
  lemma RecreatedIsReady(before: Store, after: Store, r: Rel, space: Space)
    requires SpacesOk(before) && Ready(before)
    requires after.relations == before.relations[r := Relation(space.dim, true, Some(space.dim), map[])]
    requires after.edges == before.edges && after.meta == Some(before.meta.value[r := space])
    ensures SpacesOk(after) && Ready(after) && StoredSpace(after, r) == Some(space)
  {
    hide InSpace;
    assert InSpace(after.relations[r], space) by { InSpaceEmpty(after.relations[r], space); }
    forall q: Rel
      ensures q in after.relations && StoredSpace(after, q).Some? && after.relations[q].index.Some?
      ensures q == CodeNodes ==> after.relations[q].currentLayout
    {
      assert q in before.relations && StoredSpace(before, q).Some?;
    }
  }

  /** New rows of the recorded space leave a complete schema. */
  lemma RowsReplaced(before: Store, after: Store, r: Rel, rows: map<Id, Row>, space: Space)
    requires SpacesOk(before) && Ready(before) && StoredSpace(before, r) == Some(space) && r in before.relations
    requires after == before.(relations := before.relations[r := before.relations[r].(rows := rows)])
    requires InSpace(after.relations[r], space)
    ensures SpacesOk(after) && Ready(after)
  {
    hide InSpace;
    forall q: Rel
      ensures q in after.relations && StoredSpace(after, q).Some? && after.relations[q].index.Some?
      ensures q == CodeNodes ==> after.relations[q].currentLayout
    {
      assert q in before.relations && StoredSpace(before, q).Some?;
    }
  }

  lemma InSpaceEmpty(rel: Relation, space: Space)
    requires rel.rows == map[] && rel.dim == space.dim && (rel.index.Some? ==> rel.index.value == space.dim)
    ensures InSpace(rel, space)
  {
  }

  class CozoEngine {
    const db: CozoDb
    const space: Space

    /** Opens the database and completes its schema. */
    constructor (db: CozoDb, space: Space)
      requires db.Valid()
      modifies db
      ensures this.db == db && this.space == space
      ensures db.Valid() && Ready(db.Snapshot())
      ensures forall r: Rel :: if Current(old(db.relations), r)
                then db.relations[r].rows == old(db.relations)[r].rows
                     && StoredSpace(db.Snapshot(), r) == Some(old(SpaceOf(db.Snapshot(), r)))
                else db.relations[r].rows == map[] && StoredSpace(db.Snapshot(), r) == Some(space)
    {
      this.db := db;
      this.space := space;
      new;
      EnsureSchema();
    }

    /** One vector relation: created in the active space, or kept in the space it was built with. */
    method EnsureRelation(r: Rel, existed: bool)
      requires db.Valid() && db.meta.Some? && (existed <==> r in db.relations)
      requires r == CodeNodes && r in db.relations ==> db.relations[r].currentLayout
      modifies db`relations, db`meta
      ensures db.Valid() && db.meta.Some? && RelationReady(db.Snapshot(), r)
      ensures forall q :: q != r ==> (q in db.relations <==> q in old(db.relations))
                                     && (q in db.relations ==> db.relations[q] == old(db.relations)[q])
                                     && StoredSpace(db.Snapshot(), q) == old(StoredSpace(db.Snapshot(), q))
      ensures !existed ==> db.relations[r].rows == map[]
      ensures existed ==> db.relations[r].rows == old(db.relations)[r].rows
      ensures StoredSpace(db.Snapshot(), r) == Some(if existed then old(SpaceOf(db.Snapshot(), r)) else space)
    {
      var dim;
      if !existed {
        dim := space.dim;
        db.CreateTolerant(r, dim);
        db.WriteSpace(r, space);
      } else {
        var stored := StoredSpace(db.Snapshot(), r);
        if stored.Some? {
          dim := stored.value.dim;
        } else {
          // Created before spaces were recorded: always hashed.
          db.WriteSpace(r, HASHED);
          dim := HASHED.dim;
        }
      }
      db.CreateIndexTolerant(r, dim);
    }

    method EnsureSchema()
      requires db.Valid()
      modifies db
      ensures db.Valid() && Ready(db.Snapshot())
      ensures forall r: Rel :: if Current(old(db.relations), r)
                then db.relations[r].rows == old(db.relations)[r].rows
                     && StoredSpace(db.Snapshot(), r) == Some(old(SpaceOf(db.Snapshot(), r)))
                else db.relations[r].rows == map[] && StoredSpace(db.Snapshot(), r) == Some(space)
    {
      hide InSpace;
      DropOldLayout();
      EnsureRelation(CodeNodes, CodeNodes in db.relations);
      EnsureRelation(WikiEntities, WikiEntities in db.relations);
      forall r: Rel
        ensures RelationReady(db.Snapshot(), r)
      {
        match r case CodeNodes => case WikiEntities =>
      }
    }

    /** Drops a code relation of an older layout and creates the relations without vectors. */
    method DropOldLayout()
      requires db.Valid()
      modifies db
      ensures db.Valid() && db.meta.Some? && db.edges.Some?
      ensures forall r :: r in db.relations <==> Current(old(db.relations), r)
      ensures forall r :: r in db.relations ==>
                && r in old(db.relations) && db.relations[r] == old(db.relations)[r]
                && StoredSpace(db.Snapshot(), r) == old(StoredSpace(db.Snapshot(), r))
    {
      hide InSpace;
      if CodeNodes in db.relations && !db.relations[CodeNodes].currentLayout {
        db.DropVectorRelation(CodeNodes);
      }
      if db.meta.None? {
        db.meta := Some(map[]);
      }
      if db.edges.None? {
        db.edges := Some(map[]);
      }
    }

    /** Recreates a relation whose vectors were built in another space; it is then empty. */
    method EnsureVectorSpace(r: Rel) returns (recreated: bool)
      requires db.Valid() && Ready(db.Snapshot())
      modifies db`relations, db`meta
      ensures db.Valid() && Ready(db.Snapshot())
      ensures StoredSpace(db.Snapshot(), r) == Some(space)
      ensures recreated <==> old(StoredSpace(db.Snapshot(), r)) != Some(space)
      ensures recreated ==> db.relations[r].rows == map[]
      ensures !recreated ==> db.Snapshot() == old(db.Snapshot())
      ensures forall q: Rel :: q != r ==> db.relations[q] == old(db.relations)[q]
    {
      hide Ready, SpacesOk;
      NothingMissing(db.Snapshot());
      if StoredSpace(db.Snapshot(), r) == Some(space) {
        return false;
      }
      db.DropVectorRelation(r);
      db.CreateTolerant(r, space.dim);
      db.CreateIndexTolerant(r, space.dim);
      db.WriteSpace(r, space);
      RecreatedIsReady(old(db.Snapshot()), db.Snapshot(), r, space);
      recreated := true;
    }

    /**
     Follows the graph database. Afterwards node keys and compared columns, and edges with their
     file paths, are those of the tables; unchanged rows built in the active space keep their
     embedding. `writes` counts the batches written: none exactly when nothing had to change.
     */
    method SyncFromGraph(graph: Option<SqlGraph>) returns (nodes: nat, edges: nat, ghost writes: nat)
      requires db.Valid() && Ready(db.Snapshot())
      requires graph.Some? ==> GraphOk(graph.value)
      modifies db
      ensures db.Valid() && Ready(db.Snapshot())
      ensures StoredSpace(db.Snapshot(), CodeNodes) == Some(space)
      ensures db.relations[WikiEntities] == old(db.relations)[WikiEntities]
      ensures graph.None? ==> (nodes, edges, writes) == (0, 0, 0) && db.edges == old(db.edges)
      ensures graph.Some? ==> MirrorsNodes(db.relations[CodeNodes].rows, graph.value.nodes)
                              && MirrorsEdges(db.edges.value, graph.value) && EdgesHaveFiles(db.edges.value, graph.value)
      ensures graph.Some? ==> nodes == |Ids(graph.value.nodes)| && edges == |EdgeKeys(graph.value.edges)|
      ensures var same := old(StoredSpace(db.Snapshot(), CodeNodes)) == Some(space);
              var before := if same then old(db.relations)[CodeNodes].rows else map[];
              (graph.None? ==> db.relations[CodeNodes].rows == before)
              && (graph.Some? ==>
                && db.relations[CodeNodes].rows == SyncedNodes(before, space, graph.value.nodes)
                && (writes == 0 <==> MirrorsNodes(before, graph.value.nodes) && MirrorsEdges(old(db.edges).value, graph.value)))
    {
      var _ := EnsureVectorSpace(CodeNodes);
      hide MirrorsNodes, MirrorsEdges, SyncedNodes, GraphOk, InSpace, Ids, EdgeKeys, EdgesHaveFiles;
      if graph.None? {
        return 0, 0, 0;
      }
      nodes, edges, writes := WriteGraphRows(graph.value);
      MirrorsFiles(db.edges.value, graph.value);
    }

    /** The incremental part of a sync, in a relation of the active space. */
    method WriteGraphRows(g: SqlGraph) returns (nodes: nat, edges: nat, ghost writes: nat)
      requires db.Valid() && Ready(db.Snapshot()) && GraphOk(g)
      requires StoredSpace(db.Snapshot(), CodeNodes) == Some(space)
      modifies db`relations, db`edges
      ensures db.Valid() && Ready(db.Snapshot())
      ensures db.relations[WikiEntities] == old(db.relations)[WikiEntities]
      ensures MirrorsNodes(db.relations[CodeNodes].rows, g.nodes) && MirrorsEdges(db.edges.value, g)
      ensures db.relations[CodeNodes].rows == SyncedNodes(old(db.relations)[CodeNodes].rows, space, g.nodes)
      ensures nodes == |Ids(g.nodes)| && edges == |EdgeKeys(g.edges)|
      ensures writes == 0 <==> MirrorsNodes(old(db.relations)[CodeNodes].rows, g.nodes) && MirrorsEdges(old(db.edges).value, g)
    {
      var rel := db.relations[CodeNodes];
      assert InSpace(rel, space) && DistinctIds(g.nodes);
      hide MirrorsNodes, MirrorsEdges, SyncedRow, SyncedNodes, Flatten, PendingRows, BatchesOf, GraphOk, InSpace, DistinctIds;
      var rows, edgeRows;
      ghost var puts, removals, edgePuts, edgeRemovals;
      rows, nodes, puts, removals := SyncNodes(rel.rows, space, g.nodes);
      edgeRows, edges, edgePuts, edgeRemovals := SyncEdges(db.edges.value, g);
      writes := |puts| + |removals| + |edgePuts| + |edgeRemovals|;
      MirroredIds(rows, g.nodes);
      SyncedInSpace(rel, rows, space, g.nodes);
      SyncedNodesAre(rel.rows, space, g.nodes, rows);
      ReplaceGraph(rows, edgeRows);
    }

    /** Stores the synchronised node and edge rows. */
    method ReplaceGraph(rows: map<Id, Row>, edges: map<EdgeKey, string>)
      requires db.Valid() && Ready(db.Snapshot()) && StoredSpace(db.Snapshot(), CodeNodes) == Some(space)
      requires InSpace(db.relations[CodeNodes].(rows := rows), space)
      modifies db`relations, db`edges
      ensures db.Valid() && Ready(db.Snapshot())
      ensures db.relations[CodeNodes].rows == rows && db.edges == Some(edges)
      ensures db.relations[WikiEntities] == old(db.relations)[WikiEntities]
    {
      hide InSpace;
      ReplaceRows(CodeNodes, rows);
      ghost var before := db.Snapshot();
      db.edges := Some(edges);
      EdgesAside(before, db.Snapshot());
    }

    /** Replaces the rows of a relation of the active space by rows of that space. */
    method ReplaceRows(r: Rel, rows: map<Id, Row>)
      requires db.Valid() && Ready(db.Snapshot()) && StoredSpace(db.Snapshot(), r) == Some(space)
      requires InSpace(db.relations[r].(rows := rows), space)
      modifies db`relations
      ensures db.Valid() && Ready(db.Snapshot())
      ensures db.relations == old(db.relations)[r := old(db.relations)[r].(rows := rows)]
    {
      hide Ready, SpacesOk;
      ghost var before := db.Snapshot();
      NothingMissing(before);
      db.relations := db.relations[r := db.relations[r].(rows := rows)];
      RowsReplaced(before, db.Snapshot(), r, rows, space);
    }

    /** Follows the wiki database; every listed entity is embedded again. */
    method SyncFromWiki(entities: Option<seq<SqlEntity>>) returns (count: nat)
      requires db.Valid() && Ready(db.Snapshot())
      modifies db`relations, db`meta
      ensures db.Valid() && Ready(db.Snapshot())
      ensures StoredSpace(db.Snapshot(), WikiEntities) == Some(space)
      ensures db.relations[CodeNodes] == old(db.relations)[CodeNodes]
      ensures entities.Some? ==> MirrorsWiki(db.relations[WikiEntities].rows, entities.value, space)
      ensures entities.Some? ==> count == |EntityIds(entities.value)|
      ensures entities.None? ==>
                && count == 0
                && db.relations[WikiEntities].rows == if old(StoredSpace(db.Snapshot(), WikiEntities)) == Some(space)
                                                      then old(db.relations)[WikiEntities].rows else map[]
    {
      var _ := EnsureVectorSpace(WikiEntities);
      if entities.None? {
        return 0;
      }
      var rel := db.relations[WikiEntities];
      var rows;
      rows, count := SyncEntities(rel.rows, space, entities.value);
      ReplaceRows(WikiEntities, rows);
    }

    /** Refused when the relation's vectors were not built by the active embedder. */
    method VectorSearch(target: Target) returns (result: SearchResult)
      requires db.Valid() && Ready(db.Snapshot())
      ensures result.Refused? <==> StoredSpace(db.Snapshot(), RelationOf(target)) != Some(space)
      ensures result.Compared? ==> forall id :: id in result.vectors ==> result.vectors[id].space == space
      ensures result.Compared? ==> result.vectors.Keys == db.relations[RelationOf(target)].rows.Keys
    {
      var r := RelationOf(target);
      if StoredSpace(db.Snapshot(), r) != Some(space) {
        return Refused;
      }
      var rows := db.relations[r].rows;
      result := Compared(map id | id in rows :: rows[id].vector);
    }
  }

  /** Edges have no part in what is recorded of the vector relations. */
  lemma EdgesAside(s: Store, t: Store)
    requires SpacesOk(s) && Ready(s) && t.relations == s.relations && t.meta == s.meta && t.edges.Some?
    ensures SpacesOk(t) && Ready(t)
  {
    hide InSpace;
    forall r: Rel ensures StoredSpace(t, r) == StoredSpace(s, r) && SpaceOf(t, r) == SpaceOf(s, r) {
    }
  }

  lemma MirroredIds(rows: map<Id, Row>, nodes: seq<SqlNode>)
    requires MirrorsNodes(rows, nodes)
    ensures forall i :: 0 <= i < |nodes| ==> nodes[i].id in rows
  {
  }

  lemma SyncedInSpace(rel: Relation, rows: map<Id, Row>, space: Space, nodes: seq<SqlNode>)
    requires InSpace(rel, space) && MirrorsNodes(rows, nodes)
    requires forall i :: 0 <= i < |nodes| ==> nodes[i].id in rows && rows[nodes[i].id] == SyncedRow(rel.rows, space, nodes[i])
    ensures InSpace(rel.(rows := rows), space)
  {
  }

  // ----- Runs -----

  /** One use of the database by a process with its own embedder. */
  datatype Session =
    | GraphSync(space: Space, graph: Option<SqlGraph>)
    | WikiSync(space: Space, entities: Option<seq<SqlEntity>>)
    | Search(space: Space, target: Target)

  /**
   Any sequence of sessions, each opening the database with its own embedder, keeps every relation
   in its recorded space, and no search of the run compares vectors of another space.
   */
  method Replay(db: CozoDb, sessions: seq<Session>) returns (results: seq<SearchResult>)
    requires db.Valid()
    requires forall i :: 0 <= i < |sessions| && sessions[i].GraphSync? && sessions[i].graph.Some? ==> GraphOk(sessions[i].graph.value)
    modifies db
    ensures db.Valid() && |results| == |sessions|
    ensures forall i :: 0 <= i < |sessions| && sessions[i].Search? && results[i].Compared? ==>
              forall id :: id in results[i].vectors ==> results[i].vectors[id].space == sessions[i].space
  {
    results := [];
    for k := 0 to |sessions|
      invariant db.Valid() && |results| == k
      invariant forall i :: 0 <= i < k && sessions[i].Search? && results[i].Compared? ==>
        forall id :: id in results[i].vectors ==> results[i].vectors[id].space == sessions[i].space
    {
      var engine := new CozoEngine(db, sessions[k].space);
      var result := Refused;
      match sessions[k] {
        case GraphSync(_, graph) =>
          var n, e;
          ghost var w;
          n, e, w := engine.SyncFromGraph(graph);
        case WikiSync(_, entities) =>
          var n := engine.SyncFromWiki(entities);
        case Search(_, target) =>
          result := engine.VectorSearch(target);
      }
      results := results + [result];
    }
  }

  /** Syncing twice in a row writes nothing the second time, and a search is then not refused. */
  method SyncTwice(engine: CozoEngine, graph: SqlGraph) returns (ghost second: nat, result: SearchResult)
    requires engine.db.Valid() && Ready(engine.db.Snapshot()) && GraphOk(graph)
    modifies engine.db
    ensures second == 0 && result.Compared?
  {
    var n, e;
    ghost var w;
    n, e, w := engine.SyncFromGraph(Some(graph));
    n, e, second := engine.SyncFromGraph(Some(graph));
    result := engine.VectorSearch(Code);
  }
}
