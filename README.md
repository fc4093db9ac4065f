# graphrepresentations, modelled in Dafny

A model of the core of the Rust crate `graphrepresentations`. The crate has
two graph representations and one conversion between them:

- the **edge-list graph** (`SimpleGraph`): cheap to build; nodes and edges
  are appended to two vectors, and an id is the insertion index;
- the **adjacency array** (`AdjacencyArray`): compact and immutable. A
  `first_out` offset array partitions the edge ids into one contiguous
  range per node, `edge_start` is an upper-bound search in that array, and
  `out_edges` is a range of ids;
- **`convert_from`**: turns an edge-list graph into an adjacency array by a
  stable counting sort of the edges by start node. It has a count pass,
  an in-place inclusive prefix sum, a scatter pass that uses
  `first_out[start + 1]` as a write cursor, and a final `pop`.

Node and edge handles wrap a `u32`. `u32::MAX` is reserved as the invalid
sentinel.

## Modules

| file | module | what it holds |
|---|---|---|
| `identifiers.dfy` | `Identifiers` | `NodeId`, `EdgeId`, the sentinel `MAX_ID`, id sequences 0..len |
| `graph_types.dfy` | `GraphTypes` | `Node`, `Edge`, `EdgeRef`, `GraphModificationError`, `Result` |
| `util.dfy` | `Util` | the prefix-sum specification (`Sum`, `PrefixSums`) and the two in-place `prefix_sum` loops |
| `simple_graph.dfy` | `SimpleGraphs` | `class SimpleGraph`: `seq` fields, `add_node` and `add_edge` as methods, the read accessors as functions |
| `edge_buckets.dfy` | `EdgeBuckets` | the value-level specification of the conversion, plus its lemmas (see below) |
| `adjacency_array.dfy` | `AdjacencyArrays` | see below |
| `scenarios.dfy` | `Scenarios` | the integration-test scenarios, stated on the conversion specification |

`edge_buckets.dfy` specifies the conversion without arrays:

- `EdgesFrom(es, k)` is the edges starting at node `k`, in insertion order;
- `SortedByStart(es, n)` concatenates those buckets for the nodes below `n`;
- `Offset(es, k)` is where bucket `k` begins.

`adjacency_array.dfy` holds:

- the `AdjacencyArray` datatype, with its accessors and its representation invariant `Valid()`;
- the upper-bound specification and a binary search proved against it;
- `Converted(nodes, edges)`, the adjacency array the conversion must produce, and the lemmas about it;
- the imperative `ConvertFrom`, with its count pass, prefix sum and scatter pass over arrays.

`ConvertFrom` is proved to return exactly `Converted(nodes, edges)`.

Panics of the source are preconditions. This covers `assert!`, `assert_ne!`, `expect`, `unwrap_or_else(panic)`, and `u32` overflow, which panics in debug builds. A caller that meets a member's `requires` is exactly a caller for which the source does not panic.

## Model

| member | source | states |
|---|---|---|
| Identifiers.NodeId.Invalid | src/lib.rs:47-51 | the sentinel handle wraps `u32::MAX` and is not valid |
| Identifiers.NodeId.New | src/lib.rs:41-45 | defined exactly when the value is not `u32::MAX`; the handle holds that value and is valid |
| Identifiers.NodeId.IsValid | src/lib.rs:55-58 | holds iff the value is not `u32::MAX` (the `>= 0` test is vacuous) |
| Identifiers.EdgeId.Invalid | src/lib.rs:68-72 | the sentinel edge handle wraps `u32::MAX` and is not valid |
| Identifiers.EdgeId.New | src/lib.rs:62-66 | defined exactly when the value is not `u32::MAX`; the handle holds that value and is valid |
| Identifiers.EdgeId.IsValid | src/lib.rs:76-79 | holds iff the value is not `u32::MAX` |
| Identifiers.HandleEquality | src/lib.rs:27-38 | two handles are equal iff their wrapped values are equal |
| Identifiers.NodeIds | src/simplegraph/mod.rs:62-64 | the id sequence has `len` entries, entry `i` is id `i`, and it holds exactly the ids below `len` |
| Identifiers.EdgeIds | src/simplegraph/mod.rs:66-68 | the same for edge ids |
| Util.SumPrefixMonotone | src/util.rs:8-17 | with non-negative entries, a longer prefix has a sum at least as large, and every prefix sum is non-negative |
| Util.PrefixSumsHead | src/util.rs:10-14 | the first element is unchanged by the prefix sum, because the accumulator starts at zero |
| Util.PrefixSumsLast | src/util.rs:32-41 | the last prefix sum equals the returned total |
| Util.PrefixSumsNonDecreasing | src/util.rs:32-41 | over unsigned entries the prefix sums never decrease |
| Util.PrefixSumStep | src/util.rs:35-38 | one step adds the next entry to the accumulator and never exceeds the total |
| Util.PrefixSum | src/util.rs:8-18 | in place: every element becomes the sum of the original elements up to and including it; returns the sum of all of them |
| Util.PrefixSumEdgeIds | src/util.rs:32-42 | the same on the wrapped ids; defined exactly when the total stays below `u32::MAX`; returns the total as a valid `EdgeId` |
| SimpleGraphs.SimpleGraph.constructor | src/simplegraph/mod.rs:136-143 | a new graph has no nodes and no edges |
| SimpleGraphs.SimpleGraph.NodeLen | src/simplegraph/mod.rs:54-56 | the number of stored nodes |
| SimpleGraphs.SimpleGraph.EdgeLen | src/simplegraph/mod.rs:58-60 | the number of stored edges |
| SimpleGraphs.SimpleGraph.NodeIdIter | src/simplegraph/mod.rs:62-64 | yields the ids 0..node_len in ascending order: exactly the valid node ids |
| SimpleGraphs.SimpleGraph.EdgeIdIter | src/simplegraph/mod.rs:66-68 | yields the ids 0..edge_len in ascending order: exactly the valid edge ids |
| SimpleGraphs.SimpleGraph.NodeData | src/simplegraph/mod.rs:70-73 | requires a valid id; the payload of the node added as the id-th node |
| SimpleGraphs.SimpleGraph.EdgeData | src/simplegraph/mod.rs:75-78 | requires a valid id; the payload of the id-th edge |
| SimpleGraphs.SimpleGraph.EdgeAt | src/simplegraph/mod.rs:80-85 | requires a valid id; the view of the id-th stored edge, whose endpoints are valid nodes |
| SimpleGraphs.SimpleGraph.EdgeStart | src/simplegraph/mod.rs:87-90 | requires a valid id; the stored start node, which is a valid node |
| SimpleGraphs.SimpleGraph.EdgeEnd | src/simplegraph/mod.rs:92-95 | requires a valid id; the stored end node, which is a valid node |
| SimpleGraphs.SimpleGraph.IsNodeIdValid | src/simplegraph/mod.rs:97-99 | holds iff the id is not the sentinel and is below the node count |
| SimpleGraphs.SimpleGraph.IsEdgeIdValid | src/simplegraph/mod.rs:101-103 | holds iff the id is not the sentinel and is below the edge count |
| SimpleGraphs.SimpleGraph.AddNode | src/simplegraph/mod.rs:111-118 | appends the node, leaves the edges unchanged, and returns a valid id equal to the previous node count whose payload is the node's |
| SimpleGraphs.SimpleGraph.AddEdge | src/simplegraph/mod.rs:120-133 | start checked first: a missing start gives `StartNodeDoesNotExist`, and a valid start with a missing end gives `EndNodeDoesNotExist`; both leave the graph unchanged. Otherwise it appends the edge and returns a valid id equal to the previous edge count. Nodes never change |
| EdgeBuckets.EdgesFromStartAt | src/adjacencyarray/mod.rs:127-140 | every edge in bucket `k` starts at node `k` |
| EdgeBuckets.CountFromBucket | src/adjacencyarray/mod.rs:117-123 | counting the edges that start at `k` among the first `i` edges gives the size of bucket `k` of that prefix |
| EdgeBuckets.EdgesFromStep | src/adjacencyarray/mod.rs:127-140 | one more edge extends only its own start node's bucket |
| EdgeBuckets.EdgesFromSnoc | src/adjacencyarray/mod.rs:127-140 | appending an edge extends only its start node's bucket, at the end |
| EdgeBuckets.EdgesFromPrefix | src/adjacencyarray/mod.rs:127-140 | a node's bucket in a prefix of the edges is a prefix of its bucket in all the edges (insertion order is kept) |
| EdgeBuckets.EdgesFromEmpty | src/adjacencyarray/mod.rs:117-123 | a node that starts no edge has an empty bucket |
| EdgeBuckets.SortedByStartPrefix | src/adjacencyarray/mod.rs:125 | offsets never decrease with the node, and the buckets below `k` are a prefix of those below `n` |
| EdgeBuckets.OffsetStep | src/adjacencyarray/mod.rs:125 | the offset of node `k + 1` is the offset of `k` plus the out-degree of `k` |
| EdgeBuckets.SortedByStartAt | src/adjacencyarray/mod.rs:127-140 | the `t`-th edge starting at `k` sits at offset(k) + t of the sorted edges, before the offset of `k + 1` |
| EdgeBuckets.SortedByStartSlice | src/adjacencyarray/mod.rs:127-140 | the sorted edges between offset(k) and offset(k + 1) are exactly bucket `k` |
| EdgeBuckets.SortedByStartLocate | src/adjacencyarray/mod.rs:127-140 | every slot of the sorted edges lies in the range of its edge's start node |
| EdgeBuckets.SortedByStartSnocMultiset | src/adjacencyarray/mod.rs:127-140 | appending an edge adds it exactly once to the buckets below `k` if it starts below `k`, otherwise adds nothing |
| EdgeBuckets.SnocMultisetStep | src/adjacencyarray/mod.rs:127-140 | the inductive step of the previous lemma, from `k - 1` to `k` |
| EdgeBuckets.SortedByStartPermutation | src/adjacencyarray/mod.rs:127-140 | when every edge starts below `n`, the sort is a permutation of the edges and the last offset is the edge count |
| EdgeBuckets.SortedByStartEmpty | src/adjacencyarray/mod.rs:127-140 | with no edges, every bucket prefix is empty |
| EdgeBuckets.SortedByStartIsSorted | src/adjacencyarray/mod.rs:127-140 | the sorted edges are ordered by start node |
| EdgeBuckets.SortedByStartSnocBelow | src/adjacencyarray/mod.rs:127-140 | appending an edge that starts at or above `k` leaves the buckets below `k` unchanged |
| EdgeBuckets.SortedByStartSnocLargest | src/adjacencyarray/mod.rs:127-140 | appending an edge whose start is the largest so far puts it last among the buckets below any `k` above its start |
| EdgeBuckets.SortedByStartSnocAt | src/adjacencyarray/mod.rs:127-140 | appending an edge puts it last among the buckets up to its own start |
| EdgeBuckets.SortedByStartSnocPastBucket | src/adjacencyarray/mod.rs:127-140 | an empty bucket further on does not move the appended edge from last place |
| EdgeBuckets.SortedByStartOfSorted | src/adjacencyarray/mod.rs:127-140 | edges already ordered by start node are their own stable sort |
| EdgeBuckets.SortedByStartIdentity | src/adjacencyarray/mod.rs:127-140 | the sort leaves the edges where they are iff they are already ordered by start node |
| AdjacencyArrays.UpperBound | src/adjacencyarray/mod.rs:68-71 | the upper bound splits the sequence: all entries before it are at most `x`, and the entry at it (if any) is above `x` |
| AdjacencyArrays.UpperBoundUnique | src/adjacencyarray/mod.rs:68-71 | that split index is unique |
| AdjacencyArrays.UpperBoundSearch | src/adjacencyarray/mod.rs:68-71 | a binary search on a sorted sequence returns the upper bound |
| AdjacencyArrays.AdjacencyArray.NodeLen | src/adjacencyarray/mod.rs:30-34 | one less than the length of `first_out`; equals the number of node payloads |
| AdjacencyArrays.AdjacencyArray.EdgeLen | src/adjacencyarray/mod.rs:36-40 | the number of stored edge ends, equal to the number of edge payloads and to the last offset |
| AdjacencyArrays.AdjacencyArray.NodeIdIter | src/adjacencyarray/mod.rs:42-44 | yields the ids 0..node_len in ascending order: exactly the valid node ids |
| AdjacencyArrays.AdjacencyArray.EdgeIdIter | src/adjacencyarray/mod.rs:46-48 | yields the ids 0..edge_len in ascending order: exactly the valid edge ids |
| AdjacencyArrays.AdjacencyArray.NodeData | src/adjacencyarray/mod.rs:50-53 | requires a valid id; the stored payload of that node |
| AdjacencyArrays.AdjacencyArray.EdgeData | src/adjacencyarray/mod.rs:55-58 | requires a valid id; the stored payload of that edge |
| AdjacencyArrays.AdjacencyArray.EdgeAt | src/adjacencyarray/mod.rs:60-66 | requires a valid id; the start node's range holds the id, and the end and payload are the stored ones; both endpoints are valid |
| AdjacencyArrays.AdjacencyArray.EdgeStart | src/adjacencyarray/mod.rs:68-71 | requires a valid id; the upper bound minus one is a valid node whose range `first_out[i] .. first_out[i + 1]` holds the id |
| AdjacencyArrays.AdjacencyArray.EdgeEnd | src/adjacencyarray/mod.rs:73-76 | requires a valid id; the stored end node, which is a valid node |
| AdjacencyArrays.AdjacencyArray.IsNodeIdValid | src/adjacencyarray/mod.rs:78-80 | holds iff the id is not the sentinel and is below the node count |
| AdjacencyArrays.AdjacencyArray.IsEdgeIdValid | src/adjacencyarray/mod.rs:82-84 | holds iff the id is not the sentinel and is below the edge count |
| AdjacencyArrays.AdjacencyArray.OutEdges | src/adjacencyarray/mod.rs:90-97 | requires a valid node; yields the ids `first_out[n] .. first_out[n + 1]` in ascending order, each a valid edge id |
| AdjacencyArrays.EdgeStartUnique | src/adjacencyarray/mod.rs:68-71 | `edge_start` returns the only node whose range holds the id |
| AdjacencyArrays.OutEdgesIffEdgeStart | src/adjacencyarray/mod.rs:90-97 | an id is among the out-edges of `n` iff it is a valid edge id whose `edge_start` is `n` |
| AdjacencyArrays.OffsetsBounded | src/adjacencyarray/mod.rs:125 | no offset exceeds the edge count |
| AdjacencyArrays.ConvertedValid | src/adjacencyarray/mod.rs:109-142 | after conversion, `first_out` has node_len + 1 entries, starts at 0, never decreases and ends at edge_len; every end node is valid, so no invalid placeholder survives |
| AdjacencyArrays.ConvertedKeepsNodes | src/adjacencyarray/mod.rs:101-114 | conversion keeps the node count, edge count, node ids, edge id range and every node's payload under its id |
| AdjacencyArrays.ConvertedHoldsBuckets | src/adjacencyarray/mod.rs:117-142 | after conversion, `first_out[k]` is the offset of node `k`, and the edge arrays hold the stable sort by start node |
| AdjacencyArrays.BucketEdgeAt | src/adjacencyarray/mod.rs:60-71 | in a bucketed array, edge id `j` holds the `j`-th edge of the stable sort |
| AdjacencyArrays.ConvertedEdgeAt | src/adjacencyarray/mod.rs:127-140 | the edge stored under new id `j` is the `j`-th edge of the stable sort by start node |
| AdjacencyArrays.ConvertedEdges | src/adjacencyarray/mod.rs:127-140 | the converted edges in id order are the stable sort, hence a permutation of the source edges; they keep their source ids iff the source edges were already ordered by start node |
| AdjacencyArrays.ConvertedOutEdges | src/adjacencyarray/mod.rs:127-140 | stability: `out_edges(k)` yields, in order, exactly the source edges that start at `k`, in insertion order |
| AdjacencyArrays.BucketOutEdges | src/adjacencyarray/mod.rs:90-97 | in a bucketed array, the out-edges of `k` are bucket `k`, in order |
| AdjacencyArrays.BucketEdgeOf | src/adjacencyarray/mod.rs:90-97 | in a bucketed array, the `t`-th out-edge id of `k` holds the `t`-th edge starting at `k` |
| AdjacencyArrays.DegreesPrefixSums | src/adjacencyarray/mod.rs:117-125 | summing the count array up to slot `k + 1` gives the offset of node `k` |
| AdjacencyArrays.DegreesTotal | src/adjacencyarray/mod.rs:117-125 | the out-degrees add up to the edge count, so the prefix sum's total is a valid id |
| AdjacencyArrays.PrefixSumsOfDegrees | src/adjacencyarray/mod.rs:125 | after the prefix sum, slot 0 is 0 and slot `k + 1` is the offset of node `k` |
| AdjacencyArrays.ConvertedFromParts | src/adjacencyarray/mod.rs:142-149 | arrays holding the offsets, the stable sort and the node payloads, once the trailing slot is dropped, are the converted graph |
| AdjacencyArrays.CountStarts | src/adjacencyarray/mod.rs:117-123 | the count pass leaves, for each node `k`, the out-degree of `k` in slot `k + 2` and zero in slots 0 and 1; the index check never fails |
| AdjacencyArrays.ScatterSlot | src/adjacencyarray/mod.rs:127-140 | edge `i` goes to its start node's offset plus the number of earlier edges from that node, and the stable sort holds it there |
| AdjacencyArrays.BucketPosition | src/adjacencyarray/mod.rs:127-140 | within its bucket, edge `i` follows exactly the earlier edges of that bucket |
| AdjacencyArrays.ScatterStart | src/adjacencyarray/mod.rs:125-127 | before the scatter pass every cursor stands at its node's offset and no slot is claimed yet |
| AdjacencyArrays.CursorsStep | src/adjacencyarray/mod.rs:135-139 | advancing the cursor of edge `i`'s start node accounts for edge `i` |
| AdjacencyArrays.SlotsStep | src/adjacencyarray/mod.rs:135-139 | writing the sorted edge at a cursor and advancing it keeps every slot behind a cursor filled |
| AdjacencyArrays.ScatterStep | src/adjacencyarray/mod.rs:127-140 | one scatter step writes in range (the lookup-index assertion never fails) and keeps the scatter invariant |
| AdjacencyArrays.CountFromAll | src/adjacencyarray/mod.rs:117-123 | counting over all the edges gives the bucket size |
| AdjacencyArrays.CursorsEnd | src/adjacencyarray/mod.rs:127-142 | after all edges, cursor `k` stands at the offset of node `k` |
| AdjacencyArrays.SlotsEnd | src/adjacencyarray/mod.rs:127-140 | when every slot lies behind its cursor, the edge arrays hold the whole sorted sequence |
| AdjacencyArrays.ScatterEnd | src/adjacencyarray/mod.rs:127-142 | after the scatter pass every slot holds its edge of the stable sort, and the shifted cursors are the offsets |
| AdjacencyArrays.Scatter | src/adjacencyarray/mod.rs:127-140 | the scatter pass writes every slot of the edge arrays with the edge the stable sort puts there, and leaves `first_out[k]` at the offset of node `k` |
| AdjacencyArrays.ScatterEdge | src/adjacencyarray/mod.rs:128-139 | one iteration of the scatter loop keeps the scatter invariant for one more edge |
| AdjacencyArrays.ConvertFrom | src/adjacencyarray/mod.rs:100-150 | returns exactly the specified conversion, which is valid and keeps the node and edge counts, the id iterators and every node payload of the source |
| Scenarios.NavigationScenario | tests/navigation.rs:5-22 | in the navigation test graph, the out-edges of node 1 are its three edges `(1,0,2)`, `(1,4,3)`, `(1,2,4)`, in insertion order |
| Scenarios.NavigationBucket | tests/navigation.rs:13-18 | of six edges whose 2nd, 4th and 5th start at node 1, bucket 1 is those three in order |
| Scenarios.ConversionScenario | tests/conversion.rs:29-52 | in the two-node, one-edge test graph, conversion keeps both node payloads, and the only edge under id 0 |

## Left out

- The `Graph`, `MutableGraph` and `ForwardNavigableGraph` traits are left out. Their members are modelled as members of `SimpleGraph` and `AdjacencyArray`. src/graph/mod.rs:9-41 declares `node_iter`/`edge_iter`, while the implementations define `node_id_iter`/`edge_id_iter`; the model follows the implementations.
- `BackwardNavigableGraph` is left out: nothing implements it.
- Iterators are left out: the id and out-edge iterators are modelled as the sequences they yield. Laziness is not modelled.
- `superslice::upper_bound`, a foreign library call, is not modelled. In its place is `UpperBound`, its specification, and the binary search `UpperBoundSearch`, which is proved to compute it.
- `AdjacencyArray.EdgeStart`: computes the upper bound with the specification function `UpperBound`, because a function cannot call the search method. The two are proved equal.
- `PrefixSum for Vec<NodeId>` (src/util.rs:20-30) is left out. It is the same accumulation as the `EdgeId` version, and nothing in the core calls it.
- `PrefixSum`: the generic version is modelled at `T` = unbounded integers. `Default` is 0 and `AddAssign` is `+`, so overflow of a bounded `T` is not modelled.
- `PrefixSumEdgeIds`: the `u32` additions panic on overflow in debug builds. They are modelled as the precondition that the total stays below `u32::MAX`. Release-mode wrap-around is not modelled.
- `ConvertFrom`: the `usize`/`u32` conversions that can only fail on targets narrower than 32 bits are not modelled.
- `ConvertFrom` requires `start + 2` not to overflow `u32`, and the edge count to stay below `u32::MAX`, which the prefix sum's `EdgeId::new` checks.
- `ConvertFrom`: `E::default()` is the parameter `defaultData`. `Clone` of node and edge payloads is the identity.
- `ConvertFrom`: the node payloads are collected with a sequence comprehension, not an iterator loop.
- `ConvertFrom` builds the result from the array prefix `firstOut[..node_len + 1]` rather than calling `pop`.
- `ConvertFrom`: the body of the scatter loop is the separate method `ScatterEdge`.
- `ConvertFrom`: the conversion is modelled only from a `SimpleGraph` (the `From<&SimpleGraph>` instance). `convert_from` itself is generic over any `Graph`.
- `EdgeRef` borrows its payload; in the model it is a value triple. `From<&Edge> for EdgeRef` is `Edge.AsRef`.
- Lifetimes and borrowing are not modelled.
- The `Debug` implementations (src/lib.rs:82-92) are not modelled.
- Handles are compared by their wrapped id wherever the source compares them, including the ordering `upper_bound` needs.
- `Node::new`, `Edge::new` and `EdgeRef::new` are datatype constructors, and `start`, `end` and `data` are field selectors. So the properties that the getters return what the constructor stored hold by construction and have no lemma of their own.
