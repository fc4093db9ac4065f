/**
 * The adjacency array (src/adjacencyarray/mod.rs): a compact, immutable
 * graph built once from an edge-list graph.
 *
 * `firstOut` has one entry per node plus one; the out-edges of node `i` are
 * the edge ids `firstOut[i] .. firstOut[i + 1]`. `edgeEnds` and `edgeData`
 * are indexed by edge id, `nodeData` by node id.
 */
module AdjacencyArrays {
  import opened Identifiers
  import opened GraphTypes
  import opened Util
  import opened EdgeBuckets
  import opened SimpleGraphs

  /** The wrapped ids never decrease from left to right. */
  predicate Sorted(s: seq<EdgeId>)
  {
    forall i, j :: 0 <= i <= j < |s| ==> s[i].id <= s[j].id
  }

  /**
   * `upper_bound` of the slice extension library: the first index whose id
   * exceeds `x`, or `|s|` when there is none.
   */
  function UpperBound(s: seq<EdgeId>, x: int): (r: nat)
    ensures r <= |s|
    ensures forall j :: 0 <= j < r ==> s[j].id <= x
    ensures r < |s| ==> s[r].id > x
  {
    if s == [] || s[0].id > x then 0 else 1 + UpperBound(s[1..], x)
  }

  /**
   * `UpperBound` is the only index that splits `s` into a prefix of ids at
   * most `x` and a suffix starting above `x`.
   */
  lemma {:induction false} UpperBoundUnique(s: seq<EdgeId>, x: int, r: nat)
    requires r <= |s|
    requires forall j :: 0 <= j < r ==> s[j].id <= x
    requires r < |s| ==> s[r].id > x
    ensures r == UpperBound(s, x)
  {
    if s != [] && s[0].id <= x {
      UpperBoundUnique(s[1..], x, r - 1);
    }
  }

  /** The binary search behind `upper_bound`, on a sorted sequence. */
  method UpperBoundSearch(s: seq<EdgeId>, x: int) returns (r: nat)
    requires Sorted(s)
    ensures r == UpperBound(s, x)
  {
    var lo, hi := 0, |s|;
    while lo < hi
      invariant 0 <= lo <= hi <= |s|
      invariant forall j :: 0 <= j < lo ==> s[j].id <= x
      invariant forall j :: hi <= j < |s| ==> s[j].id > x
    {
      var mid := lo + (hi - lo) / 2;
      if s[mid].id <= x {
        lo := mid + 1;
      } else {
        hi := mid;
      }
    }
    r := lo;
    UpperBoundUnique(s, x, r);
  }

  datatype AdjacencyArray<N, E> = AdjacencyArray(
    firstOut: seq<EdgeId>,
    edgeEnds: seq<NodeId>,
    nodeData: seq<N>,
    edgeData: seq<E>)
  {
    /**
     * The representation invariant: `firstOut` starts at 0, never decreases
     * and ends at the edge count, so it partitions the edge ids into one
     * contiguous range per node; the lengths fit the u32 id type; every
     * stored end node exists.
     */
    ghost predicate Valid()
    {
      && 1 <= |firstOut| <= MAX_ID + 1
      && |nodeData| == |firstOut| - 1
      && |edgeData| == |edgeEnds|
      && firstOut[0].id == 0
      && firstOut[|firstOut| - 1].id == |edgeEnds|
      && Sorted(firstOut)
      && forall j :: 0 <= j < |edgeEnds| ==> edgeEnds[j].id < |firstOut| - 1
    }

    /** `node_len`: one less than the length of `firstOut`, the number of node payloads. */
    function NodeLen(): (r: IdType)
      requires Valid()
      ensures r == |firstOut| - 1 == |nodeData|
    {
      |firstOut| - 1
    }

    /** `edge_len`: the number of edges, which is also the last offset. */
    function EdgeLen(): (r: IdType)
      requires Valid()
      ensures r == |edgeEnds| == |edgeData|
      ensures r == firstOut[NodeLen()].id
    {
      |edgeEnds|
    }

    /** `is_node_id_valid`: not the sentinel and below `NodeLen()`. */
    predicate IsNodeIdValid(id: NodeId): (b: bool)
      requires Valid()
      ensures b <==> id.id < |nodeData|
    {
      id.IsValid() && id.id < NodeLen()
    }

    /** `is_edge_id_valid`: not the sentinel and below `EdgeLen()`. */
    predicate IsEdgeIdValid(id: EdgeId): (b: bool)
      requires Valid()
      ensures b <==> id.id < |edgeEnds|
    {
      id.IsValid() && id.id < EdgeLen()
    }

    /** `node_id_iter`: exactly the valid node ids, in ascending order. */
    function NodeIdIter(): (r: seq<NodeId>)
      requires Valid()
      ensures forall x :: x in r <==> IsNodeIdValid(x)
      ensures forall i :: 0 <= i < |r| ==> r[i].id == i
    {
      NodeIds(NodeLen())
    }

    /** `edge_id_iter`: exactly the valid edge ids, in ascending order. */
    function EdgeIdIter(): (r: seq<EdgeId>)
      requires Valid()
      ensures forall x :: x in r <==> IsEdgeIdValid(x)
      ensures forall i :: 0 <= i < |r| ==> r[i].id == i
    {
      EdgeIds(EdgeLen())
    }

    /** `node_data`: the payload of node `id`; the id must be valid. */
    function NodeData(id: NodeId): (d: N)
      requires Valid() && IsNodeIdValid(id)
      ensures d == nodeData[id.id]
    {
      nodeData[id.id]
    }

    /** `edge_data`: the payload of edge `id`; the id must be valid. */
    function EdgeData(id: EdgeId): (d: E)
      requires Valid() && IsEdgeIdValid(id)
      ensures d == edgeData[id.id]
    {
      edgeData[id.id]
    }

    /**
     * `edge_start`: the upper bound of the edge id in `firstOut`, minus one.
     * The result is the node whose range of edge ids holds `id`.
     */
    function EdgeStart(id: EdgeId): (r: NodeId)
      requires Valid() && IsEdgeIdValid(id)
      ensures IsNodeIdValid(r)
      ensures firstOut[r.id].id <= id.id < firstOut[r.id + 1].id
    {
      NodeId.New(UpperBound(firstOut, id.id) - 1)
    }

    /** `edge_end`: the stored end node of edge `id`, which exists. */
    function EdgeEnd(id: EdgeId): (r: NodeId)
      requires Valid() && IsEdgeIdValid(id)
      ensures r == edgeEnds[id.id] && IsNodeIdValid(r)
    {
      edgeEnds[id.id]
    }

    /**
     * `edge`: the start found by `EdgeStart`, the stored end and payload.
     * The start's range of edge ids holds `id`; both endpoints exist.
     */
    function EdgeAt(id: EdgeId): (r: EdgeRef<E>)
      requires Valid() && IsEdgeIdValid(id)
      ensures IsNodeIdValid(r.start) && IsNodeIdValid(r.end)
      ensures firstOut[r.start.id].id <= id.id < firstOut[r.start.id + 1].id
      ensures r.end == edgeEnds[id.id] && r.data == edgeData[id.id]
    {
      EdgeRef(EdgeStart(id), EdgeEnd(id), EdgeData(id))
    }

    /**
     * `out_edges`: the ids `firstOut[id] .. firstOut[id + 1]` in ascending
     * order, each a valid edge id.
     */
    function OutEdges(id: NodeId): (r: seq<EdgeId>)
      requires Valid() && IsNodeIdValid(id)
      ensures |r| == firstOut[id.id + 1].id - firstOut[id.id].id
      ensures forall t :: 0 <= t < |r| ==> r[t].id == firstOut[id.id].id + t && IsEdgeIdValid(r[t])
    {
      var offset, limit := firstOut[id.id].id, firstOut[id.id + 1].id;
      assert limit <= firstOut[|firstOut| - 1].id;
      seq(limit - offset, t requires 0 <= t < limit - offset => EdgeId(offset + t))
    }

    /** The edges in edge-id order, each as start, end and payload. */
    ghost function Edges(): (r: seq<Edge<E>>)
      requires Valid()
      ensures |r| == |edgeEnds|
    {
      seq(|edgeEnds|, j requires 0 <= j < |edgeEnds| =>
        Edge(EdgeStart(EdgeId(j)), edgeEnds[j], edgeData[j]))
    }
  }

  /** `EdgeStart` returns the unique node whose range of edge ids holds `id`. */
  lemma EdgeStartUnique<N, E>(aa: AdjacencyArray<N, E>, id: EdgeId, k: nat)
    requires aa.Valid() && aa.IsEdgeIdValid(id)
    requires k < aa.NodeLen() && aa.firstOut[k].id <= id.id < aa.firstOut[k + 1].id
    ensures aa.EdgeStart(id).id == k
  {
  }

  /**
   * Out-edge correctness: the ids `OutEdges(n)` yields are exactly the valid
   * edge ids whose start node is `n`.
   */
  lemma OutEdgesIffEdgeStart<N, E>(aa: AdjacencyArray<N, E>, n: NodeId, e: EdgeId)
    requires aa.Valid() && aa.IsNodeIdValid(n)
    ensures e in aa.OutEdges(n) <==> aa.IsEdgeIdValid(e) && aa.EdgeStart(e) == n
  {
    var out := aa.OutEdges(n);
    if e in out {
      var t :| 0 <= t < |out| && out[t] == e;
      EdgeStartUnique(aa, e, n.id);
    }
    if aa.IsEdgeIdValid(e) && aa.EdgeStart(e) == n {
      assert out[e.id - aa.firstOut[n.id].id] == e;
    }
  }

  /** The end nodes of `es`, in order. */
  function EndsOf<E>(es: seq<Edge<E>>): seq<NodeId>
  {
    seq(|es|, j requires 0 <= j < |es| => es[j].end)
  }

  /** The payloads of `es`, in order. */
  function DataOf<E>(es: seq<Edge<E>>): seq<E>
  {
    seq(|es|, j requires 0 <= j < |es| => es[j].data)
  }

  /**
   * What `convert_from` can be applied to: the lengths fit the u32 id type
   * (the edge count stays below the sentinel, because the prefix sum wraps
   * it with `EdgeId::new`) and every edge refers to existing nodes.
   */
  ghost predicate Convertible<N, E>(nodes: seq<Node<N>>, edges: seq<Edge<E>>)
  {
    && |nodes| <= MAX_ID
    && |edges| < MAX_ID
    && forall i :: 0 <= i < |edges| ==> edges[i].start.id < |nodes| && edges[i].end.id < |nodes|
  }

  /** Every offset is at most the number of edges. */
  lemma OffsetsBounded<E>(es: seq<Edge<E>>, n: nat)
    requires StartsBelow(es, n)
    ensures forall k :: 0 <= k <= n ==> Offset(es, k) <= |es|
  {
    SortedByStartPermutation(es, n);
    forall k | 0 <= k <= n
      ensures Offset(es, k) <= |es|
    {
      SortedByStartPrefix(es, k, n);
    }
  }

  /**
   * The adjacency array that `convert_from` builds from the nodes and edges
   * of an edge-list graph: node payloads in node-id order; the edges stably
   * sorted by start node; `firstOut[k]` the number of edges starting below
   * node `k`.
   */
  ghost function Converted<N, E>(nodes: seq<Node<N>>, edges: seq<Edge<E>>): AdjacencyArray<N, E>
    requires Convertible(nodes, edges)
  {
    OffsetsBounded(edges, |nodes|);
    var sorted := SortedByStart(edges, |nodes|);
    AdjacencyArray(
      seq(|nodes| + 1, k requires 0 <= k <= |nodes| => EdgeId(Offset(edges, k))),
      EndsOf(sorted),
      seq(|nodes|, i requires 0 <= i < |nodes| => nodes[i].data),
      DataOf(sorted))
  }

  /**
   * The partition invariant holds after conversion: `firstOut` has
   * `NodeLen() + 1` entries, starts at 0, never decreases and ends at the
   * edge count; no end node is left at the invalid placeholder.
   */
  lemma ConvertedValid<N, E>(nodes: seq<Node<N>>, edges: seq<Edge<E>>)
    requires Convertible(nodes, edges)
    ensures Converted(nodes, edges).Valid()
  {
    var aa := Converted(nodes, edges);
    var n := |nodes|;
    var sorted := SortedByStart(edges, n);
    SortedByStartPermutation(edges, n);
    forall i, j | 0 <= i <= j < |aa.firstOut|
      ensures aa.firstOut[i].id <= aa.firstOut[j].id
    {
      SortedByStartPrefix(edges, i, j);
    }
    forall j | 0 <= j < |aa.edgeEnds|
      ensures aa.edgeEnds[j].id < n
    {
      assert sorted[j] in multiset(sorted);
      var i :| 0 <= i < |edges| && edges[i] == sorted[j];
    }
  }

  /**
   * Conversion keeps the node and edge counts, the node and edge ids, and
   * every node's payload under its id.
   */
  lemma ConvertedKeepsNodes<N, E>(nodes: seq<Node<N>>, edges: seq<Edge<E>>)
    requires Convertible(nodes, edges)
    ensures Converted(nodes, edges).Valid()
    ensures Converted(nodes, edges).NodeLen() == |nodes|
    ensures Converted(nodes, edges).EdgeLen() == |edges|
    ensures Converted(nodes, edges).NodeIdIter() == NodeIds(|nodes|)
    ensures Converted(nodes, edges).EdgeIdIter() == EdgeIds(|edges|)
    ensures forall id :: Converted(nodes, edges).IsNodeIdValid(id) ==>
      Converted(nodes, edges).NodeData(id) == nodes[id.id].data
  {
    ConvertedValid(nodes, edges);
    SortedByStartPermutation(edges, |nodes|);
  }

  /**
   * `aa` stores the edges bucketed by start node, for the nodes below `n`:
   * `firstOut[k]` is the offset of bucket `k` and the edge ids follow the
   * stable sort by start node.
   */
  ghost predicate HoldsBuckets<N, E>(aa: AdjacencyArray<N, E>, edges: seq<Edge<E>>, n: nat)
  {
    && StartsBelow(edges, n)
    && |aa.firstOut| == n + 1
    && (forall k :: 0 <= k <= n ==> aa.firstOut[k].id == Offset(edges, k))
    && aa.edgeEnds == EndsOf(SortedByStart(edges, n))
    && aa.edgeData == DataOf(SortedByStart(edges, n))
  }

  lemma ConvertedHoldsBuckets<N, E>(nodes: seq<Node<N>>, edges: seq<Edge<E>>)
    requires Convertible(nodes, edges)
    ensures Converted(nodes, edges).Valid()
    ensures HoldsBuckets(Converted(nodes, edges), edges, |nodes|)
  {
    ConvertedValid(nodes, edges);
  }

  /** In a bucketed array, edge id `j` holds the `j`-th edge of the stable sort. */
  lemma BucketEdgeAt<N, E>(aa: AdjacencyArray<N, E>, edges: seq<Edge<E>>, n: nat, j: nat)
    requires aa.Valid() && HoldsBuckets(aa, edges, n)
    requires j < |aa.edgeEnds|
    ensures aa.IsEdgeIdValid(EdgeId(j))
    ensures aa.EdgeAt(EdgeId(j)) == SortedByStart(edges, n)[j].AsRef()
  {
    var sorted := SortedByStart(edges, n);
    SortedByStartPermutation(edges, n);
    SortedByStartLocate(edges, n, j);
    var k: nat := sorted[j].start.id;
    assert aa.firstOut[k].id == Offset(edges, k);
    assert aa.firstOut[k + 1].id == Offset(edges, k + 1);
    EdgeStartUnique(aa, EdgeId(j), k);
  }

  /**
   * The edge stored under id `j` is the `j`-th edge of the stable sort by
   * start node: `EdgeStart` inverts the bucketing.
   */
  lemma ConvertedEdgeAt<N, E>(nodes: seq<Node<N>>, edges: seq<Edge<E>>, j: nat)
    requires Convertible(nodes, edges)
    requires j < |edges|
    ensures Converted(nodes, edges).Valid()
    ensures Converted(nodes, edges).IsEdgeIdValid(EdgeId(j))
    ensures Converted(nodes, edges).EdgeAt(EdgeId(j)) == SortedByStart(edges, |nodes|)[j].AsRef()
  {
    ConvertedHoldsBuckets(nodes, edges);
    SortedByStartPermutation(edges, |nodes|);
    BucketEdgeAt(Converted(nodes, edges), edges, |nodes|, j);
  }

  /**
   * The converted edges, in edge-id order, are the stable sort of the source
   * edges by start node, hence a permutation of them; they keep their source
   * ids exactly when the source edges were already ordered by start node.
   */
  lemma ConvertedEdges<N, E>(nodes: seq<Node<N>>, edges: seq<Edge<E>>)
    requires Convertible(nodes, edges)
    ensures Converted(nodes, edges).Valid()
    ensures Converted(nodes, edges).Edges() == SortedByStart(edges, |nodes|)
    ensures multiset(Converted(nodes, edges).Edges()) == multiset(edges)
    ensures Converted(nodes, edges).Edges() == edges <==> SortedByStartNode(edges)
  {
    var aa := Converted(nodes, edges);
    var sorted := SortedByStart(edges, |nodes|);
    ConvertedHoldsBuckets(nodes, edges);
    SortedByStartPermutation(edges, |nodes|);
    forall j | 0 <= j < |edges|
      ensures aa.Edges()[j] == sorted[j]
    {
      BucketEdgeAt(aa, edges, |nodes|, j);
    }
    SortedByStartIdentity(edges, |nodes|);
  }

  /**
   * Stability: `OutEdges(k)` yields, in order, the source edges that start
   * at node `k`, in the order they were added.
   */
  lemma ConvertedOutEdges<N, E>(nodes: seq<Node<N>>, edges: seq<Edge<E>>, k: nat)
    requires Convertible(nodes, edges)
    requires k < |nodes|
    ensures Converted(nodes, edges).Valid()
    ensures |Converted(nodes, edges).OutEdges(NodeId(k))| == |EdgesFrom(edges, k)|
    ensures forall t :: 0 <= t < |EdgesFrom(edges, k)| ==>
      Converted(nodes, edges).EdgeAt(Converted(nodes, edges).OutEdges(NodeId(k))[t]) == EdgesFrom(edges, k)[t].AsRef()
  {
    ConvertedHoldsBuckets(nodes, edges);
    BucketOutEdges(Converted(nodes, edges), edges, |nodes|, k);
  }

  /** In a bucketed array, the out-edges of `k` are bucket `k`, in order. */
  lemma BucketOutEdges<N, E>(aa: AdjacencyArray<N, E>, edges: seq<Edge<E>>, n: nat, k: nat)
    requires aa.Valid() && HoldsBuckets(aa, edges, n)
    requires k < n
    ensures |aa.OutEdges(NodeId(k))| == |EdgesFrom(edges, k)|
    ensures forall t :: 0 <= t < |EdgesFrom(edges, k)| ==>
      aa.EdgeAt(aa.OutEdges(NodeId(k))[t]) == EdgesFrom(edges, k)[t].AsRef()
  {
    var out := aa.OutEdges(NodeId(k));
    OffsetStep(edges, k);
    assert aa.firstOut[k].id == Offset(edges, k);
    assert aa.firstOut[k + 1].id == Offset(edges, k + 1);
    forall t | 0 <= t < |EdgesFrom(edges, k)|
      ensures aa.EdgeAt(out[t]) == EdgesFrom(edges, k)[t].AsRef()
    {
      BucketEdgeOf(aa, edges, n, k, t, out[t]);
    }
  }

  /** In a bucketed array, the `t`-th edge id of bucket `k` holds the `t`-th edge starting at `k`. */
  lemma BucketEdgeOf<N, E>(aa: AdjacencyArray<N, E>, edges: seq<Edge<E>>, n: nat, k: nat, t: nat, e: EdgeId)
    requires aa.Valid() && HoldsBuckets(aa, edges, n)
    requires k < n && t < |EdgesFrom(edges, k)| && e.id == Offset(edges, k) + t
    ensures aa.IsEdgeIdValid(e)
    ensures aa.EdgeAt(e) == EdgesFrom(edges, k)[t].AsRef()
  {
    SortedByStartAt(edges, n, k, t);
    BucketEdgeAt(aa, edges, n, e.id);
  }

  /** The count array after the count pass: two zero slots, then each node's out-degree. */
  function Degrees<E>(es: seq<Edge<E>>, n: nat): (r: seq<int>)
    ensures |r| == n + 2
  {
    [0, 0] + seq(n, k requires 0 <= k < n => |EdgesFrom(es, k)|)
  }

  /**
   * After the prefix sum, slot `k + 1` of the count array holds the offset
   * of node `k`, and slot 0 holds zero.
   */
  lemma {:induction false} DegreesPrefixSums<E>(es: seq<Edge<E>>, n: nat, k: nat)
    requires k <= n
    ensures Sum(Degrees(es, n)[..1]) == 0
    ensures Sum(Degrees(es, n)[..k + 2]) == Offset(es, k)
  {
    var d := Degrees(es, n);
    assert d[..1][..0] == [];
    if k == 0 {
      assert d[..2][..1] == d[..1];
    } else {
      DegreesPrefixSums(es, n, k - 1);
      assert d[..k + 2][..k + 1] == d[..k + 1];
    }
  }

  /** The degrees add up to the number of edges. */
  lemma DegreesTotal<E>(es: seq<Edge<E>>, n: nat)
    requires StartsBelow(es, n)
    ensures Sum(Degrees(es, n)) == |es|
  {
    DegreesPrefixSums(es, n, n);
    SortedByStartPermutation(es, n);
    assert Degrees(es, n)[..n + 2] == Degrees(es, n);
  }

  /**
   * After the prefix sum over the count array, slot 0 holds 0 and slot
   * `k + 1` the offset of node `k`.
   */
  lemma PrefixSumsOfDegrees<E>(es: seq<Edge<E>>, n: nat, sums: seq<int>)
    requires sums == PrefixSums(Degrees(es, n))
    ensures sums[0] == 0
    ensures forall k :: 0 <= k <= n ==> sums[k + 1] == Offset(es, k)
  {
    DegreesPrefixSums(es, n, 0);
    forall k | 0 <= k <= n
      ensures sums[k + 1] == Offset(es, k)
    {
      DegreesPrefixSums(es, n, k);
    }
  }

  /**
   * An array that stores the edges bucketed by start node and the node
   * payloads in order is the converted graph.
   */
  lemma ConvertedFromParts<N, E>(nodes: seq<Node<N>>, edges: seq<Edge<E>>, aa: AdjacencyArray<N, E>)
    requires Convertible(nodes, edges)
    requires HoldsBuckets(aa, edges, |nodes|)
    requires |aa.nodeData| == |nodes| && forall i :: 0 <= i < |nodes| ==> aa.nodeData[i] == nodes[i].data
    ensures aa == Converted(nodes, edges)
  {
    var cv := Converted(nodes, edges);
    assert aa.firstOut == cv.firstOut;
    assert aa.nodeData == cv.nodeData;
  }

  /** The count pass: slot `k + 2` counts the edges that start at node `k`. */
  method CountStarts<N, E>(source: SimpleGraph<N, E>, firstOut: array<EdgeId>)
    requires source.Valid() && |source.edges| < MAX_ID
    requires forall i :: 0 <= i < |source.edges| ==> source.edges[i].start.id + 2 <= MAX_ID
    requires firstOut.Length == |source.nodes| + 2
    requires forall k :: 0 <= k < firstOut.Length ==> firstOut[k].id == 0
    modifies firstOut
    ensures Ids(firstOut[..]) == Degrees(source.edges, |source.nodes|)
  {
    ghost var es, n := source.edges, |source.nodes|;
    for i := 0 to source.EdgeLen()
      invariant firstOut[0].id == 0 && firstOut[1].id == 0
      invariant forall c :: 2 <= c < firstOut.Length ==> firstOut[c].id == CountFrom(es, i, c - 2)
    {
      var edge := source.EdgeAt(EdgeId.New(i));
      var countIndex := edge.start.id + 2;
      assert countIndex < firstOut.Length;
      firstOut[countIndex] := EdgeId(firstOut[countIndex].id + 1);
    }
    assert es[..|es|] == es;
    forall k | 0 <= k < n
      ensures firstOut[k + 2].id == |EdgesFrom(es, k)|
    {
      CountFromAll(es, k);
    }
    assert Ids(firstOut[..]) == Degrees(es, n);
  }

  /**
   * The `i`-th edge goes to its start node's bucket, behind the edges of
   * that bucket that precede it: that slot of the stable sort holds it.
   */
  lemma ScatterSlot<E>(es: seq<Edge<E>>, n: nat, i: nat, s: nat, t: nat)
    requires s < n && i < |es| && s == es[i].start.id
    requires t == CountFrom(es, i, s)
    ensures Offset(es, s) + t < Offset(es, s + 1) <= |SortedByStart(es, n)|
    ensures SortedByStart(es, n)[Offset(es, s) + t] == es[i]
  {
    CountFromBucket(es, i, s);
    BucketPosition(es, i, s);
    SortedByStartAt(es, n, s, t);
  }

  /** The `i`-th edge follows, in its bucket, the edges of that bucket before it. */
  lemma BucketPosition<E>(es: seq<Edge<E>>, i: nat, s: nat)
    requires i < |es| && s == es[i].start.id
    ensures |EdgesFrom(es[..i], s)| < |EdgesFrom(es, s)|
    ensures EdgesFrom(es, s)[|EdgesFrom(es[..i], s)|] == es[i]
  {
    var before, after := EdgesFrom(es[..i], s), EdgesFrom(es[..i + 1], s);
    EdgesFromStep(es, i);
    assert after == before + [es[i]];
    EdgesFromPrefix(es, i + 1, s);
    assert EdgesFrom(es, s)[..|after|][|before|] == es[i];
  }

  /**
   * The cursors after the first `i` edges: the cursor of node `c - 1`
   * (slot `c`) has moved past the edges of its bucket among those `i`; slot
   * 0 stays 0 and the last slot holds the edge count.
   */
  ghost predicate CursorsAfter<E>(es: seq<Edge<E>>, n: nat, i: nat, cursors: seq<EdgeId>)
  {
    && i <= |es|
    && |cursors| == n + 2
    && cursors[0].id == 0 && cursors[n + 1].id == |es|
    && forall c :: 1 <= c <= n ==> cursors[c].id == Offset(es, c - 1) + CountFrom(es, i, c - 1)
  }

  /** Every slot behind its bucket's cursor holds the edge that `sorted` puts there. */
  ghost predicate SlotsFilled<E>(sorted: seq<Edge<E>>, n: nat, cursors: seq<EdgeId>, ends: seq<NodeId>, data: seq<E>)
  {
    && |cursors| == n + 2 && |ends| == |sorted| && |data| == |sorted|
    && forall j :: 0 <= j < |sorted| && sorted[j].start.id <= n && j < cursors[sorted[j].start.id + 1].id ==>
         ends[j] == sorted[j].end && data[j] == sorted[j].data
  }

  /** The state of the scatter pass after the first `i` edges. */
  ghost predicate Scattered<E>(es: seq<Edge<E>>, n: nat, i: nat, cursors: seq<EdgeId>, ends: seq<NodeId>, data: seq<E>)
  {
    && StartsBelow(es, n) && |es| < MAX_ID
    && CursorsAfter(es, n, i, cursors)
    && SlotsFilled(SortedByStart(es, n), n, cursors, ends, data)
  }

  /** Before the scatter pass every cursor sits at the start of its bucket. */
  lemma ScatterStart<E>(es: seq<Edge<E>>, n: nat, cursors: seq<EdgeId>, ends: seq<NodeId>, data: seq<E>)
    requires StartsBelow(es, n) && |es| < MAX_ID
    requires |cursors| == n + 2 && |ends| == |es| && |data| == |es|
    requires cursors[0].id == 0
    requires forall k :: 0 <= k <= n ==> cursors[k + 1].id == Offset(es, k)
    ensures Scattered(es, n, 0, cursors, ends, data)
  {
    var sorted := SortedByStart(es, n);
    SortedByStartPermutation(es, n);
    assert cursors[n + 1].id == Offset(es, n);
    forall j | 0 <= j < |es|
      ensures sorted[j].start.id < n && cursors[sorted[j].start.id + 1].id <= j
    {
      SortedByStartLocate(es, n, j);
    }
  }

  /** Moving the cursor of the `i`-th edge's start node on by one accounts for that edge. */
  lemma CursorsStep<E>(es: seq<Edge<E>>, n: nat, i: nat, cursors: seq<EdgeId>)
    requires CursorsAfter(es, n, i, cursors) && i < |es| && es[i].start.id < n
    requires cursors[es[i].start.id + 1].id < MAX_ID
    ensures CursorsAfter(es, n, i + 1,
      cursors[es[i].start.id + 1 := EdgeId(cursors[es[i].start.id + 1].id + 1)])
  {
  }

  /**
   * Writing the edge that `sorted` puts at a cursor's slot and moving that
   * cursor on by one keeps every slot behind a cursor filled.
   */
  lemma SlotsStep<E>(sorted: seq<Edge<E>>, n: nat, cursors: seq<EdgeId>, ends: seq<NodeId>, data: seq<E>, s: nat)
    requires SlotsFilled(sorted, n, cursors, ends, data) && s < n && |sorted| < MAX_ID
    requires cursors[s + 1].id < |sorted| && sorted[cursors[s + 1].id].start.id == s
    ensures SlotsFilled(sorted, n,
      cursors[s + 1 := EdgeId(cursors[s + 1].id + 1)],
      ends[cursors[s + 1].id := sorted[cursors[s + 1].id].end],
      data[cursors[s + 1].id := sorted[cursors[s + 1].id].data])
  {
  }

  /**
   * One step of the scatter pass: the `i`-th edge is written at its start
   * node's cursor, which is a slot of the edge arrays, and that cursor moves
   * on by one.
   */
  lemma ScatterStep<E>(es: seq<Edge<E>>, n: nat, i: nat, cursors: seq<EdgeId>, ends: seq<NodeId>, data: seq<E>)
    requires Scattered(es, n, i, cursors, ends, data) && i < |es|
    ensures es[i].start.id + 1 <= n
    ensures cursors[es[i].start.id + 1].id < |ends| == |es|
    ensures Scattered(es, n, i + 1,
      cursors[es[i].start.id + 1 := EdgeId(cursors[es[i].start.id + 1].id + 1)],
      ends[cursors[es[i].start.id + 1].id := es[i].end],
      data[cursors[es[i].start.id + 1].id := es[i].data])
  {
    var sorted := SortedByStart(es, n);
    var s: nat := es[i].start.id;
    SortedByStartPermutation(es, n);
    ScatterSlot(es, n, i, s, CountFrom(es, i, s));
    CursorsStep(es, n, i, cursors);
    SlotsStep(sorted, n, cursors, ends, data, s);
  }

  /** The whole count of bucket `k` is its size. */
  lemma CountFromAll<E>(es: seq<Edge<E>>, k: nat)
    ensures CountFrom(es, |es|, k) == |EdgesFrom(es, k)|
  {
    CountFromBucket(es, |es|, k);
    assert es[..|es|] == es;
  }

  /** After all edges every cursor stands at the start of the next node's bucket. */
  lemma CursorsEnd<E>(es: seq<Edge<E>>, n: nat, cursors: seq<EdgeId>)
    requires CursorsAfter(es, n, |es|, cursors)
    ensures forall k :: 1 <= k <= n ==> cursors[k].id == Offset(es, k)
  {
    forall k | 1 <= k <= n
      ensures cursors[k].id == Offset(es, k)
    {
      CountFromAll(es, k - 1);
      OffsetStep(es, k - 1);
    }
  }

  /** Once every slot lies behind its bucket's cursor, the edge arrays hold all of `sorted`. */
  lemma SlotsEnd<E>(sorted: seq<Edge<E>>, n: nat, cursors: seq<EdgeId>, ends: seq<NodeId>, data: seq<E>)
    requires SlotsFilled(sorted, n, cursors, ends, data)
    requires forall j :: 0 <= j < |sorted| ==> sorted[j].start.id < n && j < cursors[sorted[j].start.id + 1].id
    ensures ends == EndsOf(sorted) && data == DataOf(sorted)
  {
  }

  /** After the scatter pass every slot holds its edge and every cursor the next bucket's start. */
  lemma ScatterEnd<E>(es: seq<Edge<E>>, n: nat, cursors: seq<EdgeId>, ends: seq<NodeId>, data: seq<E>)
    requires Scattered(es, n, |es|, cursors, ends, data)
    ensures forall k :: 0 <= k <= n ==> cursors[k].id == Offset(es, k)
    ensures ends == EndsOf(SortedByStart(es, n))
    ensures data == DataOf(SortedByStart(es, n))
  {
    var sorted := SortedByStart(es, n);
    SortedByStartPermutation(es, n);
    CursorsEnd(es, n, cursors);
    forall j | 0 <= j < |sorted|
      ensures sorted[j].start.id < n && j < cursors[sorted[j].start.id + 1].id
    {
      SortedByStartLocate(es, n, j);
    }
    SlotsEnd(sorted, n, cursors, ends, data);
  }

  /**
   * The scatter pass: each edge, in edge-id order, is written at the cursor
   * of its start node (`firstOut[start + 1]`), which then moves on by one.
   * Every slot is written, each with the edge the stable sort puts there,
   * and every cursor ends at the start of the next node's range.
   */
  method Scatter<N, E>(source: SimpleGraph<N, E>, firstOut: array<EdgeId>, edgeEnds: array<NodeId>, edgeData: array<E>)
    requires source.Valid() && |source.edges| < MAX_ID
    requires firstOut as object != edgeData && edgeEnds as object != edgeData
    requires firstOut.Length == |source.nodes| + 2
    requires edgeEnds.Length == |source.edges| && edgeData.Length == |source.edges|
    requires firstOut[0].id == 0
    requires forall k :: 0 <= k <= |source.nodes| ==> firstOut[k + 1].id == Offset(source.edges, k)
    modifies firstOut, edgeEnds, edgeData
    ensures forall k :: 0 <= k <= |source.nodes| ==> firstOut[k].id == Offset(source.edges, k)
    ensures edgeEnds[..] == EndsOf(SortedByStart(source.edges, |source.nodes|))
    ensures edgeData[..] == DataOf(SortedByStart(source.edges, |source.nodes|))
  {
    ghost var es, n := source.edges, |source.nodes|;
    ScatterStart(es, n, firstOut[..], edgeEnds[..], edgeData[..]);
    for i := 0 to source.EdgeLen()
      invariant Scattered(es, n, i, firstOut[..], edgeEnds[..], edgeData[..])
    {
      ScatterEdge(source, i, firstOut, edgeEnds, edgeData);
    }
    ScatterEnd(es, n, firstOut[..], edgeEnds[..], edgeData[..]);
  }

  /**
   * One iteration of the scatter pass: the `i`-th edge is written at the
   * cursor `firstOut[start + 1]` of its start node, which moves on by one.
   */
  method ScatterEdge<N, E>(source: SimpleGraph<N, E>, i: nat, firstOut: array<EdgeId>, edgeEnds: array<NodeId>, edgeData: array<E>)
    requires source.Valid() && i < |source.edges|
    requires firstOut as object != edgeData && edgeEnds as object != edgeData
    requires Scattered(source.edges, |source.nodes|, i, firstOut[..], edgeEnds[..], edgeData[..])
    modifies firstOut, edgeEnds, edgeData
    ensures Scattered(source.edges, |source.nodes|, i + 1, firstOut[..], edgeEnds[..], edgeData[..])
  {
    var edge := source.EdgeAt(EdgeId.New(i));
    var nodeIndex := edge.start.id + 1;
    assert nodeIndex < firstOut.Length - 1;
    var edgeIndex := firstOut[nodeIndex].id;
    ScatterStep(source.edges, |source.nodes|, i, firstOut[..], edgeEnds[..], edgeData[..]);
    ghost var cursors, ends, data := firstOut[..], edgeEnds[..], edgeData[..];
    edgeEnds[edgeIndex] := edge.end;
    edgeData[edgeIndex] := edge.data;
    firstOut[nodeIndex] := EdgeId(edgeIndex + 1);
    assert firstOut[..] == cursors[nodeIndex := EdgeId(edgeIndex + 1)];
    assert edgeEnds[..] == ends[edgeIndex := edge.end];
    assert edgeData[..] == data[edgeIndex := edge.data];
  }

  /**
   * `convert_from` (used by `From<&SimpleGraph>`): a stable counting sort of
   * the edges by start node. A count pass into `firstOut[start + 2]`, an
   * in-place prefix sum, a scatter pass that uses `firstOut[start + 1]` as the
   * write cursor, and finally dropping the trailing slot.
   */
  method ConvertFrom<N, E>(source: SimpleGraph<N, E>, defaultData: E) returns (aa: AdjacencyArray<N, E>)
    requires source.Valid()
    requires |source.edges| < MAX_ID
    requires forall i :: 0 <= i < |source.edges| ==> source.edges[i].start.id + 2 <= MAX_ID
    ensures aa == Converted(source.nodes, source.edges) && aa.Valid()
    ensures aa.NodeLen() == source.NodeLen() && aa.EdgeLen() == source.EdgeLen()
    ensures aa.NodeIdIter() == source.NodeIdIter() && aa.EdgeIdIter() == source.EdgeIdIter()
    ensures forall id :: source.IsNodeIdValid(id) ==> aa.IsNodeIdValid(id) && aa.NodeData(id) == source.NodeData(id)
  {
    var nodeLen := source.NodeLen();
    var edgeLen := source.EdgeLen();
    var nodes := source.nodes;
    ghost var edges := source.edges;
    var firstOut := new EdgeId[nodeLen + 2](_ => EdgeId.New(0));
    var edgeEnds := new NodeId[edgeLen](_ => NodeId.Invalid());
    var nodeData := seq(nodeLen, i requires 0 <= i < nodeLen => nodes[i].data);
    var edgeData := new E[edgeLen](_ => defaultData);

    CountStarts(source, firstOut);
    DegreesTotal(edges, nodeLen);
    var total := PrefixSumEdgeIds(firstOut);
    PrefixSumsOfDegrees(edges, nodeLen, Ids(firstOut[..]));
    Scatter(source, firstOut, edgeEnds, edgeData);
    aa := AdjacencyArray(firstOut[..nodeLen + 1], edgeEnds[..], nodeData, edgeData[..]);
    ConvertedFromParts(nodes, edges, aa);
    ConvertedKeepsNodes(nodes, edges);
  }
}
