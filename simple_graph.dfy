/**
 * The edge-list graph (src/simplegraph/mod.rs): two append-only sequences,
 * node id = insertion index of the node, edge id = insertion index of the
 * edge. Cheap to build; converted once into an adjacency array for use.
 */
module SimpleGraphs {
  import opened Identifiers
  import opened GraphTypes

  class SimpleGraph<N, E> {
    var nodes: seq<Node<N>>
    var edges: seq<Edge<E>>

    /**
     * Both lengths fit the u32 id type (otherwise `node_len`/`edge_len`
     * panic) and every edge refers to nodes that exist, which `AddEdge`
     * checks before it records an edge.
     */
    ghost predicate Valid()
      reads this
    {
      && |nodes| <= MAX_ID
      && |edges| <= MAX_ID
      && forall i :: 0 <= i < |edges| ==> edges[i].start.id < |nodes| && edges[i].end.id < |nodes|
    }

    /** `MutableGraph::new` (through `Default`): no nodes, no edges. */
    constructor ()
      ensures Valid() && nodes == [] && edges == []
    {
      nodes := [];
      edges := [];
    }

    /** The number of nodes. */
    function NodeLen(): (r: IdType)
      reads this
      requires Valid()
      ensures r == |nodes|
    {
      |nodes|
    }

    /** The number of edges. */
    function EdgeLen(): (r: IdType)
      reads this
      requires Valid()
      ensures r == |edges|
    {
      |edges|
    }

    /** A node id belongs to this graph: not the sentinel and below `NodeLen()`. */
    predicate IsNodeIdValid(id: NodeId): (b: bool)
      reads this
      requires Valid()
      ensures b <==> id.id < |nodes|
    {
      id.IsValid() && id.id < NodeLen()
    }

    /** An edge id belongs to this graph: not the sentinel and below `EdgeLen()`. */
    predicate IsEdgeIdValid(id: EdgeId): (b: bool)
      reads this
      requires Valid()
      ensures b <==> id.id < |edges|
    {
      id.IsValid() && id.id < EdgeLen()
    }

    /** `node_id_iter`: exactly the valid node ids, in ascending order. */
    function NodeIdIter(): (r: seq<NodeId>)
      reads this
      requires Valid()
      ensures forall x :: x in r <==> IsNodeIdValid(x)
      ensures forall i :: 0 <= i < |r| ==> r[i].id == i
    {
      NodeIds(NodeLen())
    }

    /** `edge_id_iter`: exactly the valid edge ids, in ascending order. */
    function EdgeIdIter(): (r: seq<EdgeId>)
      reads this
      requires Valid()
      ensures forall x :: x in r <==> IsEdgeIdValid(x)
      ensures forall i :: 0 <= i < |r| ==> r[i].id == i
    {
      EdgeIds(EdgeLen())
    }

    /** `node_data`: the payload of the node added as the `id`-th node. */
    function NodeData(id: NodeId): (d: N)
      reads this
      requires Valid() && IsNodeIdValid(id)
      ensures d == nodes[id.id].data
    {
      nodes[id.id].data
    }

    /** `edge_data`: the payload of the edge added as the `id`-th edge. */
    function EdgeData(id: EdgeId): (d: E)
      reads this
      requires Valid() && IsEdgeIdValid(id)
      ensures d == edges[id.id].data
    {
      edges[id.id].data
    }

    /** `edge`: a view of the `id`-th edge, whose endpoints are valid nodes. */
    function EdgeAt(id: EdgeId): (r: EdgeRef<E>)
      reads this
      requires Valid() && IsEdgeIdValid(id)
      ensures r == edges[id.id].AsRef()
      ensures IsNodeIdValid(r.start) && IsNodeIdValid(r.end)
    {
      edges[id.id].AsRef()
    }

    /** `edge_start`: the start node of the `id`-th edge, a valid node. */
    function EdgeStart(id: EdgeId): (r: NodeId)
      reads this
      requires Valid() && IsEdgeIdValid(id)
      ensures r == edges[id.id].start && IsNodeIdValid(r)
    {
      edges[id.id].start
    }

    /** `edge_end`: the end node of the `id`-th edge, a valid node. */
    function EdgeEnd(id: EdgeId): (r: NodeId)
      reads this
      requires Valid() && IsEdgeIdValid(id)
      ensures r == edges[id.id].end && IsNodeIdValid(r)
    {
      edges[id.id].end
    }

    /**
     * `add_node`: appends the node and returns its id, the previous node
     * count. Fails (panics) when that id would be the sentinel.
     */
    method AddNode(node: Node<N>) returns (id: NodeId)
      requires Valid()
      requires |nodes| < MAX_ID
      modifies this
      ensures Valid()
      ensures nodes == old(nodes) + [node] && edges == old(edges)
      ensures id.id == |old(nodes)| && IsNodeIdValid(id) && NodeData(id) == node.data
    {
      nodes := nodes + [node];
      id := NodeId.New(|nodes| - 1);
    }

    /**
     * `add_edge`: checks the start node, then the end node, against the
     * current node count. On a missing endpoint the graph is left unchanged
     * and the error names that endpoint; otherwise the edge is appended and
     * its id, the previous edge count, is returned. The id of the new edge
     * must not be the sentinel (the source panics).
     */
    method AddEdge(edge: Edge<E>) returns (r: Result<EdgeId, GraphModificationError>)
      requires Valid()
      requires IsNodeIdValid(edge.start) && IsNodeIdValid(edge.end) ==> |edges| < MAX_ID
      modifies this
      ensures Valid() && nodes == old(nodes)
      ensures !edge.start.IsValid() || edge.start.id >= |nodes| ==>
        r == Err(StartNodeDoesNotExist) && edges == old(edges)
      ensures edge.start.IsValid() && edge.start.id < |nodes| && (!edge.end.IsValid() || edge.end.id >= |nodes|) ==>
        r == Err(EndNodeDoesNotExist) && edges == old(edges)
      ensures IsNodeIdValid(edge.start) && IsNodeIdValid(edge.end) ==>
        r.Ok? && r.value.id == |old(edges)| && IsEdgeIdValid(r.value) && edges == old(edges) + [edge]
    {
      if !edge.start.IsValid() || edge.start.id >= NodeLen() {
        return Err(StartNodeDoesNotExist);
      } else if !edge.end.IsValid() || edge.end.id >= NodeLen() {
        return Err(EndNodeDoesNotExist);
      }
      edges := edges + [edge];
      r := Ok(EdgeId.New(|edges| - 1));
    }
  }
}
