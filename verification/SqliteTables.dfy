/** Projections of the SQLite databases that the mirror follows. */
module SqliteTables {
  import opened CozoStore

  datatype SqlNode = SqlNode(id: Id, columns: Columns, text: string)

  datatype SqlEdge = SqlEdge(key: EdgeKey)

  /** The graph tables; node ids are a primary key. `text` is what the embedder is given for a node. */
  datatype SqlGraph = SqlGraph(nodes: seq<SqlNode>, edges: seq<SqlEdge>)

  datatype SqlEntity = SqlEntity(id: Id, columns: Columns, text: string)

  ghost predicate GraphOk(g: SqlGraph) {
    && (forall i, j :: 0 <= i < j < |g.nodes| ==> g.nodes[i].id != g.nodes[j].id)
    && forall i :: 0 <= i < |g.nodes| ==> g.nodes[i].columns.NodeColumns?
  }

  /** The source node's file, by the left join; empty when the node is missing. */
  function JoinedFile(nodes: seq<SqlNode>, id: Id): string {
    if nodes == [] then ""
    else if nodes[0].id == id && nodes[0].columns.NodeColumns? then nodes[0].columns.filePath
    else JoinedFile(nodes[1..], id)
  }

  /** `file` is the file path of the node with this id, or empty when there is none. */
  ghost predicate IsFileOf(file: string, nodes: seq<SqlNode>, id: Id) {
    && (forall n :: n in nodes && n.id == id ==> n.columns.NodeColumns? && file == n.columns.filePath)
    && ((forall n :: n in nodes ==> n.id != id) ==> file == "")
  }

  /** The join finds the source node's file path, whichever place the node has in its table. */
  lemma {:induction false} JoinedFileIs(g: SqlGraph, id: Id)
    requires GraphOk(g)
    ensures IsFileOf(JoinedFile(g.nodes, id), g.nodes, id)
    decreases |g.nodes|
  {
    if g.nodes != [] {
      var rest := g.(nodes := g.nodes[1..]);
      JoinedFileIs(rest, id);
      assert forall i :: 0 <= i < |rest.nodes| ==> rest.nodes[i] == g.nodes[i + 1];
      forall n | n in g.nodes && n.id == id
        ensures n.columns.NodeColumns? && JoinedFile(g.nodes, id) == n.columns.filePath
      {
        var i :| 0 <= i < |g.nodes| && g.nodes[i] == n;
        assert i > 0 ==> n in rest.nodes && g.nodes[0].id != id;
      }
      assert g.nodes[0] in g.nodes;
      assert forall n :: n in rest.nodes ==> n in g.nodes;
    }
  }

  /** Each stored edge has the file path of the node with its source id, or none when there is no such node. */
  ghost predicate EdgesHaveFiles(edges: map<EdgeKey, string>, g: SqlGraph) {
    forall i :: 0 <= i < |g.edges| ==>
      g.edges[i].key in edges && IsFileOf(edges[g.edges[i].key], g.nodes, g.edges[i].key.source)
  }

  lemma MirrorsFiles(edges: map<EdgeKey, string>, g: SqlGraph)
    requires MirrorsEdges(edges, g) && GraphOk(g)
    ensures EdgesHaveFiles(edges, g)
  {
    hide IsFileOf;
    forall i | 0 <= i < |g.edges|
      ensures IsFileOf(edges[g.edges[i].key], g.nodes, g.edges[i].key.source)
    {
      JoinedFileIs(g, g.edges[i].key.source);
    }
  }

  /** The node rows of the mirror agree with the node table in every compared column. */
  ghost predicate MirrorsNodes(rows: map<Id, Row>, nodes: seq<SqlNode>) {
    && (forall i :: 0 <= i < |nodes| ==> nodes[i].id in rows && rows[nodes[i].id].columns == nodes[i].columns)
    && (forall id :: id in rows ==> exists i :: 0 <= i < |nodes| && nodes[i].id == id)
  }

  /** The edge rows agree with the edge table and the joined file paths. */
  ghost predicate MirrorsEdges(edges: map<EdgeKey, string>, g: SqlGraph) {
    && (forall i :: 0 <= i < |g.edges| ==>
          g.edges[i].key in edges && edges[g.edges[i].key] == JoinedFile(g.nodes, g.edges[i].key.source))
    && (forall k :: k in edges ==> exists i :: 0 <= i < |g.edges| && g.edges[i].key == k)
  }
}
