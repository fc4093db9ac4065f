/**
 * The scenarios of the crate's integration tests (tests/navigation.rs and
 * tests/conversion.rs), stated on the conversion specification.
 */
module Scenarios {
  import opened Identifiers
  import opened GraphTypes
  import opened EdgeBuckets
  import opened AdjacencyArrays

  /** Five nodes with payloads `a` .. `e`. */
  const NavigationNodes: seq<Node<char>> := [Node('a'), Node('b'), Node('c'), Node('d'), Node('e')]

  /** Six edges, in the order they are added; node 1 starts the second, fourth and fifth. */
  const NavigationEdges: seq<Edge<int>> :=
    [Edge(NodeId(0), NodeId(1), 1), Edge(NodeId(1), NodeId(0), 2), Edge(NodeId(2), NodeId(3), 5),
     Edge(NodeId(1), NodeId(4), 3), Edge(NodeId(1), NodeId(2), 4), Edge(NodeId(3), NodeId(3), 6)]

  /**
   * The out-edges of node 1 in the converted graph are its three edges, in
   * the order they were added.
   */
  lemma NavigationScenario()
    ensures Convertible(NavigationNodes, NavigationEdges)
    ensures
      var aa := Converted(NavigationNodes, NavigationEdges);
      && aa.Valid()
      && |aa.OutEdges(NodeId(1))| == 3
      && aa.EdgeAt(aa.OutEdges(NodeId(1))[0]) == EdgeRef(NodeId(1), NodeId(0), 2)
      && aa.EdgeAt(aa.OutEdges(NodeId(1))[1]) == EdgeRef(NodeId(1), NodeId(4), 3)
      && aa.EdgeAt(aa.OutEdges(NodeId(1))[2]) == EdgeRef(NodeId(1), NodeId(2), 4)
  {
    var es := NavigationEdges;
    NavigationBucket(es[0], es[1], es[2], es[3], es[4], es[5]);
    assert es == [es[0], es[1], es[2], es[3], es[4], es[5]];
    ConvertedOutEdges(NavigationNodes, es, 1);
  }

  /** Of six edges of which the second, fourth and fifth start at node 1, bucket 1 holds those three in order. */
  lemma NavigationBucket<E>(e0: Edge<E>, e1: Edge<E>, e2: Edge<E>, e3: Edge<E>, e4: Edge<E>, e5: Edge<E>)
    requires e1.start.id == e3.start.id == e4.start.id == 1
    requires e0.start.id != 1 && e2.start.id != 1 && e5.start.id != 1
    ensures EdgesFrom([e0, e1, e2, e3, e4, e5], 1) == [e1, e3, e4]
  {
    EdgesFromSnoc([], e0, 1);
    EdgesFromSnoc([e0], e1, 1);
    EdgesFromSnoc([e0, e1], e2, 1);
    EdgesFromSnoc([e0, e1, e2], e3, 1);
    EdgesFromSnoc([e0, e1, e2, e3], e4, 1);
    EdgesFromSnoc([e0, e1, e2, e3, e4], e5, 1);
    assert [e0] == [] + [e0] && [e0, e1] == [e0] + [e1] && [e0, e1, e2] == [e0, e1] + [e2];
    assert [e0, e1, e2, e3] == [e0, e1, e2] + [e3] && [e0, e1, e2, e3, e4] == [e0, e1, e2, e3] + [e4];
    assert [e0, e1, e2, e3, e4, e5] == [e0, e1, e2, e3, e4] + [e5];
  }

  /** Two nodes with payloads 4 and 5. */
  const ConversionNodes: seq<Node<int>> := [Node(4), Node(5)]

  /** One edge from the first node to the second. */
  const ConversionEdges: seq<Edge<char>> := [Edge(NodeId(0), NodeId(1), 'x')]

  /**
   * The converted graph keeps both node payloads under their ids and the
   * edge under id 0, so the edge views of both graphs agree.
   */
  lemma ConversionScenario()
    ensures Convertible(ConversionNodes, ConversionEdges)
    ensures
      var aa := Converted(ConversionNodes, ConversionEdges);
      && aa.Valid() && aa.NodeLen() == 2 && aa.EdgeLen() == 1
      && aa.NodeData(NodeId(0)) == 4 && aa.NodeData(NodeId(1)) == 5
      && aa.EdgeAt(EdgeId(0)) == ConversionEdges[0].AsRef()
  {
    ConvertedKeepsNodes(ConversionNodes, ConversionEdges);
    ConvertedEdgeAt(ConversionNodes, ConversionEdges, 0);
    SortedByStartOfSorted(ConversionEdges, 2);
  }
}
