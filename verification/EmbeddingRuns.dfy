/**
 Which text a stored vector embeds after any run of graph syncs (src/cozo/engine.rs), and when an
 incremental sync leaves what a reload would.
 */
module EmbeddingRuns {
  import opened Prelude
  import opened CozoStore
  import opened SqliteTables
  import opened CozoMirror

  /** One sync: the embedder's space, and the graph if one was ever built. */
  datatype Sync = Sync(space: Space, graph: Option<SqlGraph>)

  function Last<T>(s: seq<T>): T
    requires s != []
  {
    s[|s| - 1]
  }

  function Front<T>(s: seq<T>): seq<T>
    requires s != []
  {
    s[..|s| - 1]
  }

  /** The rows a sync finds: those of the run before it, unless they lie in another space. */
  function Found(syncs: seq<Sync>): map<Id, Row>
    requires syncs != []
    decreases |syncs|, 0
  {
    var past := Front(syncs);
    if past != [] && Last(past).space == Last(syncs).space then RowsAfter(past) else map[]
  }

  /** The node rows after a run of syncs that began with no rows. */
  function RowsAfter(syncs: seq<Sync>): map<Id, Row>
    decreases |syncs|, 1
  {
    if syncs == [] then map[]
    else
      match Last(syncs).graph
      case None => Found(syncs)
      case Some(g) => SyncedNodes(Found(syncs), Last(syncs).space, g.nodes)
  }

  function NodeIn(sync: Sync, id: Id): Option<SqlNode> {
    match sync.graph case None => None case Some(g) => NodeAt(g.nodes, id)
  }

  /** A sync that keeps `n` under its id: in the same space, and with the same columns if it has a graph. */
  predicate Keeps(before: Sync, after: Sync, n: SqlNode) {
    && before.space == after.space
    && (after.graph.Some? ==> NodeIn(after, n.id).Some? && NodeIn(after, n.id).value.columns == n.columns)
  }

  /** The sync that embedded what is stored for `id` after the run, told from the graphs alone. */
  function EmbeddedBy(syncs: seq<Sync>, id: Id): (at: Option<nat>)
    ensures at.Some? ==> at.value < |syncs| && NodeIn(syncs[at.value], id).Some?
  {
    if syncs == [] then None
    else
      var past := Front(syncs);
      var earlier := EmbeddedBy(past, id);
      if earlier.Some? && Keeps(Last(past), Last(syncs), NodeIn(past[earlier.value], id).value) then earlier
      else if NodeIn(Last(syncs), id).Some? then Some(|syncs| - 1)
      else None
  }

  /** Every sync after the embedding one kept the node, and the one that embedded it did not. */
  lemma {:induction false} EmbeddedByMeans(syncs: seq<Sync>, id: Id)
    ensures var at := EmbeddedBy(syncs, id);
            at.Some? ==> forall k :: at.value < k < |syncs| ==> Keeps(syncs[k - 1], syncs[k], NodeIn(syncs[at.value], id).value)
  {
    hide Keeps, NodeIn;
    if syncs != [] {
      EmbeddedByMeans(Front(syncs), id);
      assert forall k :: 0 <= k < |syncs| - 1 ==> Front(syncs)[k] == syncs[k];
    }
  }

  /** The node whose text the vector stored for `id` embeds. */
  function EmbeddedNode(syncs: seq<Sync>, id: Id): Option<SqlNode> {
    match EmbeddedBy(syncs, id) case None => None case Some(j) => NodeIn(syncs[j], id)
  }

  /** After any run, a row is the freshly embedded one of the node as the embedding sync saw it. */
  lemma {:induction false} RowsEmbed(syncs: seq<Sync>, id: Id)
    requires syncs != []
    ensures id in RowsAfter(syncs) <==> EmbeddedNode(syncs, id).Some?
    ensures id in RowsAfter(syncs) ==> RowsAfter(syncs)[id] == FreshRow(Last(syncs).space, EmbeddedNode(syncs, id).value)
    decreases |syncs|
  {
    var past := Front(syncs);
    if past != [] {
      RowsEmbed(past, id);
    }
    FoundEmbeds(syncs, id);
    hide RowsAfter, Found, EmbeddedBy;
    SyncEmbeds(syncs, id);
  }

  /** What the last sync finds for `id`. */
  lemma FoundEmbeds(syncs: seq<Sync>, id: Id)
    requires syncs != []
    requires var past := Front(syncs);
             past != [] ==>
               && (id in RowsAfter(past) <==> EmbeddedNode(past, id).Some?)
               && (id in RowsAfter(past) ==> RowsAfter(past)[id] == FreshRow(Last(past).space, EmbeddedNode(past, id).value))
    ensures var past, found := Front(syncs), Found(syncs);
            && (id in found <==> EmbeddedNode(past, id).Some? && Last(past).space == Last(syncs).space)
            && (id in found ==> found[id] == FreshRow(Last(syncs).space, EmbeddedNode(past, id).value))
  {
    hide FreshRow;
  }

  lemma SyncEmbeds(syncs: seq<Sync>, id: Id)
    requires syncs != []
    requires var past, found := Front(syncs), Found(syncs);
             && (id in found <==> EmbeddedNode(past, id).Some? && Last(past).space == Last(syncs).space)
             && (id in found ==> found[id] == FreshRow(Last(syncs).space, EmbeddedNode(past, id).value))
    ensures id in RowsAfter(syncs) <==> EmbeddedNode(syncs, id).Some?
    ensures id in RowsAfter(syncs) ==> RowsAfter(syncs)[id] == FreshRow(Last(syncs).space, EmbeddedNode(syncs, id).value)
  {
    hide Found, NodeAt, Ids;
    var past := Front(syncs);
    assert forall j :: 0 <= j < |past| ==> past[j] == syncs[j];
  }

  /** The embedding sync saw the node with the columns it has now. */
  lemma {:induction false} EmbeddedColumns(syncs: seq<Sync>, id: Id)
    requires syncs != [] && NodeIn(Last(syncs), id).Some?
    ensures EmbeddedNode(syncs, id).Some?
    ensures EmbeddedNode(syncs, id).value.columns == NodeIn(Last(syncs), id).value.columns
  {
    hide NodeAt, Ids;
    var past := Front(syncs);
    assert forall j :: 0 <= j < |past| ==> past[j] == syncs[j];
  }

  /** Every node of the last graph has the text it had when its vector was made. */
  ghost predicate TextsKept(syncs: seq<Sync>)
    requires syncs != [] && Last(syncs).graph.Some?
  {
    forall id :: id in Ids(Last(syncs).graph.value.nodes) ==>
      EmbeddedNode(syncs, id).Some? && EmbeddedNode(syncs, id).value.text == NodeIn(Last(syncs), id).value.text
  }

  /** After any run the rows are those of a full reload exactly when every node kept its text since it was embedded. */
  lemma SyncIsReload(syncs: seq<Sync>)
    requires syncs != [] && Last(syncs).graph.Some?
    ensures RowsAfter(syncs) == RowsAfter([Last(syncs)]) <==> TextsKept(syncs)
  {
    hide EmbeddedNode, NodeAt, Ids, RowsAfter;
    var ids := Ids(Last(syncs).graph.value.nodes);
    var rows, reloaded := RowsAfter(syncs), RowsAfter([Last(syncs)]);
    RowKeys(syncs);
    RowKeys([Last(syncs)]);
    forall id | id in ids
      ensures EmbeddedNode(syncs, id).Some?
      ensures rows[id] == reloaded[id] <==> EmbeddedNode(syncs, id).value.text == NodeIn(Last(syncs), id).value.text
    {
      RowIsReloaded(syncs, id);
    }
    assert rows == reloaded <==> forall id :: id in ids ==> rows[id] == reloaded[id];
  }

  lemma RowKeys(syncs: seq<Sync>)
    requires syncs != [] && Last(syncs).graph.Some?
    ensures RowsAfter(syncs).Keys == Ids(Last(syncs).graph.value.nodes)
  {
    hide NodeAt, Ids;
  }

  lemma RowIsReloaded(syncs: seq<Sync>, id: Id)
    requires syncs != [] && Last(syncs).graph.Some? && id in Ids(Last(syncs).graph.value.nodes)
    ensures EmbeddedNode(syncs, id).Some? && id in RowsAfter(syncs) && id in RowsAfter([Last(syncs)])
    ensures RowsAfter(syncs)[id] == RowsAfter([Last(syncs)])[id]
            <==> EmbeddedNode(syncs, id).value.text == NodeIn(Last(syncs), id).value.text
  {
    hide RowsAfter, NodeAt, Ids, EmbeddedNode;
    RowsEmbed(syncs, id);
    EmbeddedColumns(syncs, id);
    ReloadedRow(Last(syncs), id);
  }

  lemma ReloadedRow(sync: Sync, id: Id)
    requires NodeIn(sync, id).Some?
    ensures id in RowsAfter([sync]) && RowsAfter([sync])[id] == FreshRow(sync.space, NodeIn(sync, id).value)
  {
    hide NodeAt, Ids;
    assert Last([sync]) == sync && Front([sync]) == [];
    assert Found([sync]) == map[];
  }

  /** A node of both graphs whose columns agree has one text. */
  predicate SameTextWhereSameColumns(g1: SqlGraph, g2: SqlGraph) {
    forall id :: id in Ids(g1.nodes) && id in Ids(g2.nodes) ==>
      var a, b := NodeAt(g1.nodes, id).value, NodeAt(g2.nodes, id).value;
      a.columns == b.columns ==> a.text == b.text
  }

  /** For two syncs in one space the condition compares the two graphs. */
  lemma SecondSyncIsReload(space: Space, g1: SqlGraph, g2: SqlGraph)
    ensures var second := Sync(space, Some(g2));
            RowsAfter([Sync(space, Some(g1)), second]) == RowsAfter([second]) <==> SameTextWhereSameColumns(g1, g2)
  {
    var first, second := Sync(space, Some(g1)), Sync(space, Some(g2));
    var syncs := [first, second];
    assert Last(syncs) == second && Front(syncs) == [first] && Last([first]) == first && Front([first]) == [];
    SyncIsReload(syncs);
    hide RowsAfter, NodeAt, Ids;
    forall id | id in Ids(g2.nodes)
      ensures EmbeddedNode(syncs, id) ==
              if id in Ids(g1.nodes) && NodeAt(g1.nodes, id).value.columns == NodeAt(g2.nodes, id).value.columns
              then NodeAt(g1.nodes, id) else NodeAt(g2.nodes, id)
    {
      assert EmbeddedBy([first], id) == if NodeIn(first, id).Some? then Some(0) else None;
    }
  }

  /** A docstring edited without touching the body: the columns agree, and the old vector stays. */
  lemma EditedTextStaysStale(space: Space, columns: Columns)
    ensures var g1, g2 := SqlGraph([SqlNode("n", columns, "old")], []), SqlGraph([SqlNode("n", columns, "new")], []);
            var rows := RowsAfter([Sync(space, Some(g1)), Sync(space, Some(g2))]);
            && rows == map["n" := Row(columns, Vector(space, "old"))]
            && RowsAfter([Sync(space, Some(g2))]) == map["n" := Row(columns, Vector(space, "new"))]
  {
    var a, b := SqlNode("n", columns, "old"), SqlNode("n", columns, "new");
    var first, second := Sync(space, Some(SqlGraph([a], []))), Sync(space, Some(SqlGraph([b], [])));
    OneNode(a);
    OneNode(b);
    ReloadedRow(first, "n");
    ReloadedRow(second, "n");
    assert Last([first]) == first && Last([second]) == second && Front([first, second]) == [first] && Last([first, second]) == second;
    assert RowsAfter([first]).Keys == {"n"} && RowsAfter([second]).Keys == {"n"};
    assert Found([first, second]) == RowsAfter([first]);
  }

  lemma OneNode(n: SqlNode)
    ensures Ids([n]) == {n.id} && NodeAt([n], n.id) == Some(n)
  {
    assert [n][0] == n;
  }

  /** Real databases follow the run: each sync is made by an engine that opens the database for itself. */
  method ReplaySyncs(db: CozoDb, syncs: seq<Sync>)
    requires db.Valid() && (CodeNodes in db.relations ==> db.relations[CodeNodes].rows == map[])
    requires forall i :: 0 <= i < |syncs| && syncs[i].graph.Some? ==> GraphOk(syncs[i].graph.value)
    modifies db
    ensures db.Valid()
    ensures syncs != [] ==> CodeNodes in db.relations && db.relations[CodeNodes].rows == RowsAfter(syncs)
  {
    hide SyncedNodes, MirrorsNodes, MirrorsEdges, GraphOk, InSpace, RowsAfter, Found, Ids, EdgeKeys;
    for k := 0 to |syncs|
      invariant db.Valid()
      invariant k == 0 ==> CodeNodes in db.relations ==> db.relations[CodeNodes].rows == map[]
      invariant k > 0 ==> CodeNodes in db.relations && db.relations[CodeNodes].currentLayout
                          && db.relations[CodeNodes].rows == RowsAfter(syncs[..k])
                          && StoredSpace(db.Snapshot(), CodeNodes) == Some(syncs[k - 1].space)
    {
      var engine := new CozoEngine(db, syncs[k].space);
      var n, e;
      ghost var w;
      n, e, w := engine.SyncFromGraph(syncs[k].graph);
      RunStep(syncs, k);
    }
    TakeAll(syncs);
  }

  lemma RunStep(syncs: seq<Sync>, k: nat)
    requires k < |syncs|
    ensures var found := if k > 0 && syncs[k - 1].space == syncs[k].space then RowsAfter(syncs[..k]) else map[];
            RowsAfter(syncs[..k + 1]) == match syncs[k].graph
                                         case None => found
                                         case Some(g) => SyncedNodes(found, syncs[k].space, g.nodes)
  {
    hide SyncedNodes;
    var run := syncs[..k + 1];
    assert Front(run) == syncs[..k] && Last(run) == syncs[k];
    assert k > 0 ==> Last(Front(run)) == syncs[k - 1];
  }
}
