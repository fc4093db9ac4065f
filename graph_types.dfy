/**
 * The plain data holders of the graph traits (src/graph/mod.rs).
 *
 * `Node::new`, `Edge::new` and `EdgeRef::new` are the datatype constructors
 * below, and `start()`, `end()` and `data()` are their field selectors. An
 * `EdgeRef` borrows its payload in the source; here it is a value triple.
 */
module GraphTypes {
  import opened Identifiers

  /** A node carrying payload `data`. */
  datatype Node<N> = Node(data: N)

  /** An owned edge from `start` to `end` carrying payload `data`. */
  datatype Edge<E> = Edge(start: NodeId, end: NodeId, data: E)
  {
    /** The read-only view of this edge that the `edge` accessor returns. */
    function AsRef(): EdgeRef<E>
    {
      EdgeRef(start, end, data)
    }
  }

  /** A view of an edge: start, end and payload. */
  datatype EdgeRef<E> = EdgeRef(start: NodeId, end: NodeId, data: E)

  /** Why `add_edge` refused an edge: which endpoint does not exist. */
  datatype GraphModificationError = StartNodeDoesNotExist | EndNodeDoesNotExist

  /** Rust's `Result`, as returned by `add_edge`. */
  datatype Result<T, X> = Ok(value: T) | Err(error: X)
}
