/**
 * What the conversion to an adjacency array computes, stated without arrays:
 * the edges bucketed by start node, buckets in node order, each bucket in
 * insertion order (a stable sort of the edges by start node).
 */
module EdgeBuckets {
  import opened Identifiers
  import opened GraphTypes

  /** The edges of `es` that start at node `k`, in their order in `es`. */
  function EdgesFrom<E>(es: seq<Edge<E>>, k: nat): (r: seq<Edge<E>>)
    ensures |r| <= |es|
  {
    if es == [] then []
    else
      var last := es[|es| - 1];
      EdgesFrom(es[..|es| - 1], k) + (if last.start.id == k then [last] else [])
  }

  /**
   * The buckets of nodes `0 .. k` one after another: the stable sort by
   * start node of those edges of `es` that start below `k`.
   */
  function SortedByStart<E>(es: seq<Edge<E>>, k: nat): seq<Edge<E>>
  {
    if k == 0 then [] else SortedByStart(es, k - 1) + EdgesFrom(es, k - 1)
  }

  /** The number of edges that start below node `k`: where bucket `k` begins. */
  function Offset<E>(es: seq<Edge<E>>, k: nat): nat
  {
    |SortedByStart(es, k)|
  }

  /** Every edge of bucket `k` starts at node `k`. */
  lemma {:induction false} EdgesFromStartAt<E>(es: seq<Edge<E>>, k: nat)
    ensures forall t :: 0 <= t < |EdgesFrom(es, k)| ==> EdgesFrom(es, k)[t].start.id == k
  {
    if es != [] {
      EdgesFromStartAt(es[..|es| - 1], k);
    }
  }

  /** How many of the first `i` edges of `es` start at node `k`. */
  function CountFrom<E>(es: seq<Edge<E>>, i: nat, k: nat): (r: nat)
    requires i <= |es|
    ensures r <= i
  {
    if i == 0 then 0 else CountFrom(es, i - 1, k) + (if es[i - 1].start.id == k then 1 else 0)
  }

  /** The count is the size of the bucket of `k` among the first `i` edges. */
  lemma {:induction false} CountFromBucket<E>(es: seq<Edge<E>>, i: nat, k: nat)
    requires i <= |es|
    ensures CountFrom(es, i, k) == |EdgesFrom(es[..i], k)|
  {
    if i > 0 {
      CountFromBucket(es, i - 1, k);
      EdgesFromStep(es, i - 1);
    }
  }

  /** Every edge of `es` starts at a node below `n`. */
  predicate StartsBelow<E>(es: seq<Edge<E>>, n: nat)
  {
    forall i :: 0 <= i < |es| ==> es[i].start.id < n
  }

  /** The edges of `es` are ordered by start node. */
  predicate SortedByStartNode<E>(es: seq<Edge<E>>)
  {
    forall i, j :: 0 <= i <= j < |es| ==> es[i].start.id <= es[j].start.id
  }

  /** Taking one more edge of `es` extends exactly the bucket of its start node. */
  lemma EdgesFromStep<E>(es: seq<Edge<E>>, i: nat)
    requires i < |es|
    ensures forall k: nat ::
      (EdgesFrom(es[..i + 1], k) == EdgesFrom(es[..i], k) + (if es[i].start.id == k then [es[i]] else []))
  {
    assert es[..i + 1][..i] == es[..i];
  }

  /** Appending an edge extends exactly the bucket of its start node. */
  lemma EdgesFromSnoc<E>(es: seq<Edge<E>>, x: Edge<E>, k: nat)
    ensures EdgesFrom(es + [x], k) == EdgesFrom(es, k) + (if x.start.id == k then [x] else [])
  {
    assert (es + [x])[..|es|] == es;
  }

  /** The bucket of node `k` in a prefix of `es` is a prefix of its bucket in `es`. */
  lemma {:induction false} EdgesFromPrefix<E>(es: seq<Edge<E>>, i: nat, k: nat)
    requires i <= |es|
    ensures |EdgesFrom(es[..i], k)| <= |EdgesFrom(es, k)|
    ensures EdgesFrom(es, k)[..|EdgesFrom(es[..i], k)|] == EdgesFrom(es[..i], k)
  {
    if i == |es| {
      assert es[..i] == es;
    } else {
      var init := es[..|es| - 1];
      EdgesFromPrefix(init, i, k);
      assert init[..i] == es[..i];
    }
  }

  /** A bucket is empty when no edge starts at its node. */
  lemma EdgesFromEmpty<E>(es: seq<Edge<E>>, k: nat)
    requires forall i :: 0 <= i < |es| ==> es[i].start.id != k
    ensures EdgesFrom(es, k) == []
  {
  }

  /**
   * The buckets below `k` form a prefix of the buckets below `n`; in
   * particular the offsets never decrease.
   */
  lemma {:induction false} SortedByStartPrefix<E>(es: seq<Edge<E>>, k: nat, n: nat)
    requires k <= n
    ensures Offset(es, k) <= Offset(es, n)
    ensures SortedByStart(es, n)[..Offset(es, k)] == SortedByStart(es, k)
  {
    if k < n {
      SortedByStartPrefix(es, k, n - 1);
      var shorter := SortedByStart(es, n - 1);
      assert SortedByStart(es, n) == shorter + EdgesFrom(es, n - 1);
      assert SortedByStart(es, n)[..|shorter|] == shorter;
      assert SortedByStart(es, n)[..Offset(es, k)] == shorter[..Offset(es, k)];
    }
  }

  /** Offsets are bounded by the number of edges taken so far. */
  lemma OffsetStep<E>(es: seq<Edge<E>>, k: nat)
    ensures Offset(es, k + 1) == Offset(es, k) + |EdgesFrom(es, k)|
  {
  }

  /**
   * Stability: the `t`-th edge of bucket `k` sits at position
   * `Offset(es, k) + t` of the sorted sequence, inside bucket `k`'s range.
   */
  lemma SortedByStartAt<E>(es: seq<Edge<E>>, n: nat, k: nat, t: nat)
    requires k < n && t < |EdgesFrom(es, k)|
    ensures Offset(es, k) + t < Offset(es, k + 1) <= Offset(es, n)
    ensures SortedByStart(es, n)[Offset(es, k) + t] == EdgesFrom(es, k)[t]
  {
    SortedByStartPrefix(es, k + 1, n);
    var upto := SortedByStart(es, k + 1);
    assert upto == SortedByStart(es, k) + EdgesFrom(es, k);
    assert upto[Offset(es, k) + t] == EdgesFrom(es, k)[t];
    assert SortedByStart(es, n)[..Offset(es, k + 1)] == upto;
  }

  /** Stability, as slices: bucket `k`'s range of the sorted sequence is bucket `k`. */
  lemma SortedByStartSlice<E>(es: seq<Edge<E>>, n: nat, k: nat)
    requires k < n
    ensures Offset(es, k) <= Offset(es, k + 1) <= Offset(es, n)
    ensures SortedByStart(es, n)[Offset(es, k)..Offset(es, k + 1)] == EdgesFrom(es, k)
  {
    SortedByStartPrefix(es, k + 1, n);
    var upto := SortedByStart(es, k + 1);
    assert SortedByStart(es, n)[Offset(es, k)..Offset(es, k + 1)] == upto[Offset(es, k)..];
  }

  /**
   * Every position `j` of the sorted sequence lies in the range of the bucket
   * of its own edge's start node.
   */
  lemma {:induction false} SortedByStartLocate<E>(es: seq<Edge<E>>, n: nat, j: nat)
    requires j < Offset(es, n)
    ensures SortedByStart(es, n)[j].start.id < n
    ensures Offset(es, SortedByStart(es, n)[j].start.id) <= j < Offset(es, SortedByStart(es, n)[j].start.id + 1)
  {
    var sorted := SortedByStart(es, n);
    if j < Offset(es, n - 1) {
      SortedByStartLocate(es, n - 1, j);
      assert sorted[j] == SortedByStart(es, n - 1)[j];
    } else {
      var t := j - Offset(es, n - 1);
      assert sorted[j] == EdgesFrom(es, n - 1)[t];
      EdgesFromStartAt(es, n - 1);
    }
  }

  /** Appending `x` to `es` adds it once to the buckets below `k` when it starts below `k`, and leaves them alone otherwise. */
  ghost predicate SnocGains<E>(es: seq<Edge<E>>, x: Edge<E>, k: nat)
  {
    multiset(SortedByStart(es + [x], k))
      == multiset(SortedByStart(es, k)) + (if x.start.id < k then multiset{x} else multiset{})
  }

  /** Appending an edge below `k` adds it once to the buckets below `k`. */
  lemma {:induction false} SortedByStartSnocMultiset<E>(es: seq<Edge<E>>, x: Edge<E>, k: nat)
    ensures SnocGains(es, x, k)
  {
    if k == 0 {
      assert SortedByStart(es + [x], k) == [] == SortedByStart(es, k);
    } else {
      SortedByStartSnocMultiset(es, x, k - 1);
      SnocMultisetStep(es, x, k);
    }
  }

  /** The inductive step of `SortedByStartSnocMultiset`: from the buckets below `k - 1` to those below `k`. */
  lemma SnocMultisetStep<E>(es: seq<Edge<E>>, x: Edge<E>, k: nat)
    requires k > 0 && SnocGains(es, x, k - 1)
    ensures SnocGains(es, x, k)
  {
    var below: nat := k - 1;
    var xs := es + [x];
    var m1: multiset<Edge<E>> := if x.start.id < below then multiset{x} else multiset{};
    var m2: multiset<Edge<E>> := if x.start.id == below then multiset{x} else multiset{};
    assert multiset(EdgesFrom(xs, below)) == multiset(EdgesFrom(es, below)) + m2 by {
      EdgesFromSnoc(es, x, below);
    }
    MultisetConcat(SortedByStart(es, below), EdgesFrom(es, below), SortedByStart(es, k),
      SortedByStart(xs, below), EdgesFrom(xs, below), SortedByStart(xs, k), m1, m2);
    assert m1 + m2 == if x.start.id < k then multiset{x} else multiset{};
  }

  /** A concatenation gains what its two parts gain. */
  lemma MultisetConcat<T>(a: seq<T>, b: seq<T>, ab: seq<T>, a2: seq<T>, b2: seq<T>, ab2: seq<T>, m1: multiset<T>, m2: multiset<T>)
    requires ab == a + b && ab2 == a2 + b2
    requires multiset(a2) == multiset(a) + m1 && multiset(b2) == multiset(b) + m2
    ensures multiset(ab2) == multiset(ab) + (m1 + m2)
  {
  }

  /**
   * The sort is a permutation: when every edge starts below `n`, the sorted
   * sequence holds exactly the edges of `es`, each as often as in `es`.
   */
  lemma {:induction false} SortedByStartPermutation<E>(es: seq<Edge<E>>, n: nat)
    requires StartsBelow(es, n)
    ensures multiset(SortedByStart(es, n)) == multiset(es)
    ensures Offset(es, n) == |es|
  {
    if es == [] {
      assert SortedByStart(es, n) == [] by {
        forall k: nat ensures SortedByStart(es, k) == [] {
          SortedByStartEmpty(es, k);
        }
      }
    } else {
      var init, last := es[..|es| - 1], es[|es| - 1];
      assert es == init + [last];
      SortedByStartPermutation(init, n);
      SortedByStartSnocMultiset(init, last, n);
    }
    assert |multiset(SortedByStart(es, n))| == |SortedByStart(es, n)|;
  }

  /** Without edges every bucket is empty. */
  lemma {:induction false} SortedByStartEmpty<E>(es: seq<Edge<E>>, k: nat)
    requires es == []
    ensures SortedByStart(es, k) == []
  {
    if k > 0 {
      SortedByStartEmpty(es, k - 1);
    }
  }

  /** The sorted sequence is ordered by start node. */
  lemma SortedByStartIsSorted<E>(es: seq<Edge<E>>, n: nat)
    ensures SortedByStartNode(SortedByStart(es, n))
  {
    var sorted := SortedByStart(es, n);
    forall i, j | 0 <= i <= j < |sorted|
      ensures sorted[i].start.id <= sorted[j].start.id
    {
      SortedByStartLocate(es, n, i);
      SortedByStartLocate(es, n, j);
      if sorted[j].start.id < sorted[i].start.id {
        SortedByStartPrefix(es, sorted[j].start.id + 1, sorted[i].start.id);
      }
    }
  }

  /** Appending an edge leaves the buckets below its start node alone. */
  lemma {:induction false} SortedByStartSnocBelow<E>(a: seq<Edge<E>>, x: Edge<E>, k: nat)
    requires k <= x.start.id
    ensures SortedByStart(a + [x], k) == SortedByStart(a, k)
  {
    if k > 0 {
      SortedByStartSnocBelow(a, x, k - 1);
      EdgesFromSnoc(a, x, k - 1);
    }
  }

  /**
   * Appending an edge whose start is at least every start in `a` puts it
   * last among the buckets up to and beyond its start node.
   */
  lemma {:induction false} SortedByStartSnocLargest<E>(a: seq<Edge<E>>, x: Edge<E>, k: nat)
    requires forall i :: 0 <= i < |a| ==> a[i].start.id <= x.start.id
    requires k > x.start.id
    ensures SortedByStart(a + [x], k) == SortedByStart(a, k) + [x]
  {
    var below: nat := k - 1;
    if below == x.start.id {
      SortedByStartSnocAt(a, x);
    } else {
      SortedByStartSnocLargest(a, x, below);
      EdgesFromEmpty(a, below);
      SortedByStartSnocPastBucket(a, x, below);
    }
  }

  /** Appending an edge puts it last among the buckets up to its own start node. */
  lemma SortedByStartSnocAt<E>(a: seq<Edge<E>>, x: Edge<E>)
    ensures SortedByStart(a + [x], x.start.id + 1) == SortedByStart(a, x.start.id + 1) + [x]
  {
    var k: nat := x.start.id;
    EdgesFromSnoc(a, x, k);
    SortedByStartSnocBelow(a, x, k);
    var before, bucket := SortedByStart(a, k), EdgesFrom(a, k);
    calc {
      SortedByStart(a + [x], k + 1);
      before + (bucket + [x]);
      (before + bucket) + [x];
    }
  }

  /** Buckets above the start of the appended edge that `a` leaves empty stay empty. */
  lemma SortedByStartSnocPastBucket<E>(a: seq<Edge<E>>, x: Edge<E>, k: nat)
    requires k > x.start.id
    requires EdgesFrom(a, k) == []
    requires SortedByStart(a + [x], k) == SortedByStart(a, k) + [x]
    ensures SortedByStart(a + [x], k + 1) == SortedByStart(a, k + 1) + [x]
  {
    EdgesFromSnoc(a, x, k);
    assert EdgesFrom(a + [x], k) == [];
    assert SortedByStart(a, k + 1) == SortedByStart(a, k);
  }

  /** The sort leaves a sequence that is already ordered by start node as it is. */
  lemma {:induction false} SortedByStartOfSorted<E>(es: seq<Edge<E>>, n: nat)
    requires StartsBelow(es, n) && SortedByStartNode(es)
    ensures SortedByStart(es, n) == es
  {
    if es == [] {
      SortedByStartEmpty(es, n);
    } else {
      var init, last := es[..|es| - 1], es[|es| - 1];
      assert es == init + [last];
      SortedByStartOfSorted(init, n);
      SortedByStartSnocLargest(init, last, n);
      assert SortedByStart(es, n) == SortedByStart(init, n) + [last];
    }
  }

  /**
   * The sort changes the order of the edges exactly when they were not
   * already ordered by start node.
   */
  lemma SortedByStartIdentity<E>(es: seq<Edge<E>>, n: nat)
    requires StartsBelow(es, n)
    ensures SortedByStart(es, n) == es <==> SortedByStartNode(es)
  {
    SortedByStartIsSorted(es, n);
    if SortedByStartNode(es) {
      SortedByStartOfSorted(es, n);
    }
  }
}
