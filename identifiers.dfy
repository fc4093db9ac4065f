/**
 * Node and edge handles (src/lib.rs).
 *
 * Both handles wrap an unsigned 32-bit id. The largest u32 value is reserved
 * as the "invalid" sentinel; building a handle with that value is a
 * programming error (an `assert_ne!` in the source), modelled here as a
 * precondition.
 */
module Identifiers {

  /** `IdType::max_value()`: the largest u32, reserved as the invalid id. */
  const MAX_ID: int := 0xFFFF_FFFF

  /** The id type `IdType = u32`. */
  type IdType = x: int | 0 <= x <= MAX_ID

  /** Identifies a node; equality is equality of the wrapped ids. */
  datatype NodeId = NodeId(id: IdType)
  {
    /** The sentinel handle. */
    static function Invalid(): (r: NodeId)
      ensures r.id == MAX_ID && !r.IsValid()
    {
      NodeId(MAX_ID)
    }

    /** `NodeId::new`: fails (panics) exactly on the sentinel value. */
    static function New(id: IdType): (r: NodeId)
      requires id != MAX_ID
      ensures r.id == id && r.IsValid()
    {
      NodeId(id)
    }

    /** `is_valid`: the `>= 0` test of the source is vacuous for unsigned ids. */
    predicate IsValid(): (b: bool)
      ensures b <==> id != MAX_ID
    {
      id >= 0 && this != NodeId(MAX_ID)
    }
  }

  /** Identifies an edge; equality is equality of the wrapped ids. */
  datatype EdgeId = EdgeId(id: IdType)
  {
    /** The sentinel handle. */
    static function Invalid(): (r: EdgeId)
      ensures r.id == MAX_ID && !r.IsValid()
    {
      EdgeId(MAX_ID)
    }

    /** `EdgeId::new`: fails (panics) exactly on the sentinel value. */
    static function New(id: IdType): (r: EdgeId)
      requires id != MAX_ID
      ensures r.id == id && r.IsValid()
    {
      EdgeId(id)
    }

    /** `is_valid`: the `>= 0` test of the source is vacuous for unsigned ids. */
    predicate IsValid(): (b: bool)
      ensures b <==> id != MAX_ID
    {
      id >= 0 && this != EdgeId(MAX_ID)
    }
  }

  /** Handles are equal exactly when their wrapped ids are. */
  lemma HandleEquality(a: NodeId, b: NodeId, c: EdgeId, d: EdgeId)
    ensures a == b <==> a.id == b.id
    ensures c == d <==> c.id == d.id
  {
  }

  /**
   * The node ids `0 .. len` in ascending order, each built with `NodeId::new`:
   * the sequence a node id iterator yields.
   */
  function NodeIds(len: IdType): (r: seq<NodeId>)
    ensures |r| == len
    ensures forall i :: 0 <= i < |r| ==> r[i].id == i
    ensures forall x :: x in r <==> x.id < len
  {
    var r := seq(len, i requires 0 <= i < len => NodeId.New(i));
    assert forall x: NodeId :: x.id < len ==> r[x.id] == x;
    r
  }

  /**
   * The edge ids `0 .. len` in ascending order, each built with `EdgeId::new`:
   * the sequence an edge id iterator yields.
   */
  function EdgeIds(len: IdType): (r: seq<EdgeId>)
    ensures |r| == len
    ensures forall i :: 0 <= i < |r| ==> r[i].id == i
    ensures forall x :: x in r <==> x.id < len
  {
    var r := seq(len, i requires 0 <= i < len => EdgeId.New(i));
    assert forall x: EdgeId :: x.id < len ==> r[x.id] == x;
    r
  }
}
