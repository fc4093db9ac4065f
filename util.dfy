/**
 * The in-place inclusive prefix sum (src/util.rs).
 *
 * `Sum` and `PrefixSums` are the specification; `PrefixSum` is the generic
 * `Vec<T>` implementation (with `T` the integers) and `PrefixSumEdgeIds` the
 * `Vec<EdgeId>` specialisation that the conversion to an adjacency array runs.
 */
module Util {
  import opened Identifiers

  /** The sum of `s`, accumulated from left to right. */
  function Sum(s: seq<int>): int
  {
    if s == [] then 0 else Sum(s[..|s| - 1]) + s[|s| - 1]
  }

  /** The inclusive prefix sums of `s`: entry `i` is the sum of `s[..i + 1]`. */
  function PrefixSums(s: seq<int>): (r: seq<int>)
    ensures |r| == |s|
  {
    seq(|s|, i requires 0 <= i < |s| => Sum(s[..i + 1]))
  }

  /** Every entry is non-negative. */
  predicate NonNegative(s: seq<int>)
  {
    forall i :: 0 <= i < |s| ==> s[i] >= 0
  }

  /** Entries never decrease from left to right. */
  predicate NonDecreasing(s: seq<int>)
  {
    forall i, j :: 0 <= i <= j < |s| ==> s[i] <= s[j]
  }

  /** The wrapped ids of a sequence of edge handles. */
  function Ids(s: seq<EdgeId>): (r: seq<int>)
    ensures |r| == |s|
    ensures forall i :: 0 <= i < |s| ==> r[i] == s[i].id
    ensures NonNegative(r)
  {
    seq(|s|, i requires 0 <= i < |s| => s[i].id)
  }

  /** Over non-negative entries, a longer prefix never has a smaller sum. */
  lemma {:induction false} SumPrefixMonotone(s: seq<int>, i: nat, j: nat)
    requires NonNegative(s)
    requires i <= j <= |s|
    ensures 0 <= Sum(s[..i]) <= Sum(s[..j])
  {
    if i < j {
      SumPrefixMonotone(s, i, j - 1);
      assert s[..j][..j - 1] == s[..j - 1];
    } else if i > 0 {
      SumPrefixMonotone(s, i - 1, i);
      assert s[..i][..i - 1] == s[..i - 1];
    }
  }

  /** The first prefix sum is the first element: the accumulator starts at zero. */
  lemma PrefixSumsHead(s: seq<int>)
    requires s != []
    ensures PrefixSums(s)[0] == s[0]
  {
    assert s[..1][..0] == [];
    assert Sum(s[..1]) == Sum(s[..1][..0]) + s[0];
  }

  /** The last prefix sum is the total. */
  lemma PrefixSumsLast(s: seq<int>)
    requires s != []
    ensures PrefixSums(s)[|s| - 1] == Sum(s)
  {
    assert s[..|s|] == s;
  }

  /** Over non-negative entries (the unsigned id case) the prefix sums never decrease. */
  lemma PrefixSumsNonDecreasing(s: seq<int>)
    requires NonNegative(s)
    ensures NonDecreasing(PrefixSums(s))
  {
    forall i, j | 0 <= i <= j < |s|
      ensures PrefixSums(s)[i] <= PrefixSums(s)[j]
    {
      SumPrefixMonotone(s, i + 1, j + 1);
    }
  }

  /**
   * One accumulation step: the next prefix sum adds the next entry, and over
   * non-negative entries it never exceeds the total.
   */
  lemma PrefixSumStep(s: seq<int>, i: nat)
    requires NonNegative(s) && i < |s|
    ensures Sum(s[..i + 1]) == Sum(s[..i]) + s[i] <= Sum(s)
  {
    SumPrefixMonotone(s, i + 1, |s|);
    assert s[..i + 1][..i] == s[..i];
    assert s[..|s|] == s;
  }

  /**
   * `PrefixSum for Vec<T>`: replaces each element by the sum of the elements
   * up to and including it, and returns the sum of all elements.
   */
  method PrefixSum(a: array<int>) returns (total: int)
    modifies a
    ensures a[..] == PrefixSums(old(a[..]))
    ensures total == Sum(old(a[..]))
  {
    ghost var original := a[..];
    var accumulator := 0;
    for i := 0 to a.Length
      invariant accumulator == Sum(original[..i])
      invariant forall k :: 0 <= k < i ==> a[k] == Sum(original[..k + 1])
      invariant forall k :: i <= k < a.Length ==> a[k] == original[k]
    {
      var value := a[i];
      a[i] := a[i] + accumulator;
      accumulator := accumulator + value;
      assert original[..i + 1][..i] == original[..i];
    }
    assert original[..a.Length] == original;
    total := accumulator;
  }

  /**
   * `PrefixSum for Vec<EdgeId>`: the same accumulation on the wrapped u32 ids.
   * The total is wrapped with `EdgeId::new`, and the u32 additions must not
   * overflow, so the call fails exactly when the total reaches `MAX_ID`.
   */
  method PrefixSumEdgeIds(a: array<EdgeId>) returns (total: EdgeId)
    requires Sum(Ids(a[..])) < MAX_ID
    modifies a
    ensures Ids(a[..]) == PrefixSums(Ids(old(a[..])))
    ensures total.id == Sum(Ids(old(a[..]))) && total.IsValid()
  {
    ghost var original := Ids(a[..]);
    var accumulator := 0;
    for i := 0 to a.Length
      invariant accumulator == Sum(original[..i])
      invariant forall k :: 0 <= k < i ==> a[k].id == Sum(original[..k + 1])
      invariant forall k :: i <= k < a.Length ==> a[k].id == original[k]
    {
      PrefixSumStep(original, i);
      var value := a[i].id;
      a[i] := EdgeId(value + accumulator);
      accumulator := accumulator + value;
    }
    assert original[..a.Length] == original;
    total := EdgeId.New(accumulator);
  }
}
