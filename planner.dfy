/** The pure pieces of the partitioned index: the split test and the split
    itself, the split timestamp, the over-retrieval query parameters, and the
    in-range filter that the graph path of a range query applies to the ranked
    frontier of a beam search. */
module Planner {
  import opened Params

  // ---------------------------------------------------------------- splitting

  /** `min_size * 2` evaluated on `size_t`, which wraps modulo 2^64. */
  function SplitThreshold(minSize: SizeT): (t: SizeT)
    ensures minSize < SizeModulus / 2 ==> t == 2 * minSize
    ensures minSize >= SizeModulus / 2 ==> t == 2 * minSize - SizeModulus
  {
    (2 * minSize) % SizeModulus
  }

  /** A node splits when the size of the WHOLE point range it was handed reaches
      the threshold (not the size of its own subset). */
  predicate ShouldSplit(pointsSize: nat, minSize: SizeT): (split: bool)
    ensures minSize < SizeModulus / 2 ==> (split <==> pointsSize >= 2 * minSize)
    ensures minSize >= SizeModulus / 2 ==> (split <==> pointsSize >= 2 * minSize - SizeModulus)
    ensures minSize == SizeModulus / 2 ==> split
  {
    pointsSize >= SplitThreshold(minSize)
  }

  /** Cutting an array at its midpoint index: the lower half gets the first
      floor(n/2) entries, the upper half the rest. */
  function Split<T>(s: seq<T>): (halves: (seq<T>, seq<T>))
    ensures halves.0 + halves.1 == s
    ensures |halves.0| == |s| / 2
    ensures |halves.1| == |halves.0| || |halves.1| == |halves.0| + 1
  {
    assert s[..|s| / 2] + s[|s| / 2..] == s;
    (s[..|s| / 2], s[|s| / 2..])
  }

  /** The recorded split timestamp: the timestamp at position n/2, where n is
      the number of identities of the node. */
  function MedianTimestamp(timestamps: seq<real>, n: nat): (m: real)
    requires n / 2 < |timestamps|
    ensures n == |timestamps| ==> m == Split(timestamps).1[0]
  {
    timestamps[n / 2]
  }

  predicate Sorted(s: seq<real>)
  {
    forall i, j :: 0 <= i < j < |s| ==> s[i] <= s[j]
  }

  /** On sorted input the split timestamp is an upper bound of the lower half
      and a lower bound of the upper half: it is the FIRST timestamp of the
      upper half, so the lower half may also contain it. */
  lemma MedianSeparatesHalves(timestamps: seq<real>)
    requires Sorted(timestamps) && |timestamps| > 0
    ensures forall x :: x in Split(timestamps).0 ==> x <= MedianTimestamp(timestamps, |timestamps|)
    ensures forall y :: y in Split(timestamps).1 ==> MedianTimestamp(timestamps, |timestamps|) <= y
  {
  }

  // ------------------------------------------------------- over-retrieval

  /** `static_cast<int>` of a floating value: truncation toward zero. */
  function TruncateToInt(x: real): (r: int)
    ensures 0.0 <= x ==> r as real <= x < r as real + 1.0
    ensures x < 0.0 ==> r as real - 1.0 < x <= r as real
  {
    if x >= 0.0 then x.Floor else -((-x).Floor)
  }

  /** The query parameters of the graph path: the defaults, except that k is
      raised to the beam size and the candidate limit is divided by the range
      width. */
  function OverRetrievalParams(qp: QueryParams, width: real): (r: QueryParams)
    requires width != 0.0
    ensures r.k == qp.beamSize && r.limit == TruncateToInt(qp.limit as real / width)
    ensures r.beamSize == qp.beamSize && r.cut == qp.cut && r.degreeLimit == qp.degreeLimit
  {
    qp.(k := qp.beamSize, limit := TruncateToInt(qp.limit as real / width))
  }

  /** A range narrower than the whole unit interval never shrinks the candidate
      limit, and a range wider than it never grows it. */
  lemma OverRetrievalScalesLimit(qp: QueryParams, width: real)
    requires width > 0.0 && qp.limit >= 0
    ensures width <= 1.0 ==> qp.limit <= OverRetrievalParams(qp, width).limit
    ensures width >= 1.0 ==> OverRetrievalParams(qp, width).limit <= qp.limit
  {
  }

  // ------------------------------------------------------- frontier filter

  /** `t0 <= t <= t1`, written as the source compares it: the range is
      closed, so an empty range admits nothing and a range of width zero
      admits exactly its endpoint. */
  predicate InRange(t: real, t0: real, t1: real): (inside: bool)
    ensures inside ==> t0 <= t1
    ensures t0 == t1 ==> (inside <==> t == t0)
  {
    t >= t0 && t <= t1
  }

  /** Every entry is a local position of a subset of `size` points. */
  predicate LocalPositions(frontier: seq<nat>, size: nat)
  {
    forall j :: 0 <= j < |frontier| ==> frontier[j] < size
  }

  /** The frontier entries whose timestamp lies in [t0, t1], in frontier order. */
  function InRangeFrontier(timestamps: seq<real>, frontier: seq<nat>, t0: real, t1: real): (hits: seq<nat>)
    requires LocalPositions(frontier, |timestamps|)
    ensures |hits| <= |frontier|
    ensures LocalPositions(hits, |timestamps|)
    ensures forall j :: 0 <= j < |hits| ==> hits[j] in frontier && InRange(timestamps[hits[j]], t0, t1)
    decreases |frontier|
  {
    if frontier == [] then []
    else
      var init := frontier[..|frontier| - 1];
      var last := frontier[|frontier| - 1];
      var rest := InRangeFrontier(timestamps, init, t0, t1);
      assert forall x :: x in init ==> x in frontier;
      if InRange(timestamps[last], t0, t1) then rest + [last] else rest
  }

  /** The filter distributes over concatenation: it keeps the order of the
      frontier. */
  lemma {:induction false} InRangeFrontierAppend(timestamps: seq<real>, a: seq<nat>, b: seq<nat>, t0: real, t1: real)
    requires LocalPositions(a, |timestamps|) && LocalPositions(b, |timestamps|)
    ensures LocalPositions(a + b, |timestamps|)
    ensures InRangeFrontier(timestamps, a + b, t0, t1)
         == InRangeFrontier(timestamps, a, t0, t1) + InRangeFrontier(timestamps, b, t0, t1)
    decreases |b|
  {
    assert LocalPositions(a + b, |timestamps|) by {
      forall j | 0 <= j < |a + b| ensures (a + b)[j] < |timestamps| {
        if j < |a| { assert (a + b)[j] == a[j]; } else { assert (a + b)[j] == b[j - |a|]; }
      }
    }
    if b == [] {
      assert a + b == a;
    } else {
      var b' := b[..|b| - 1];
      assert (a + b)[..|a + b| - 1] == a + b';
      assert (a + b)[|a + b| - 1] == b[|b| - 1];
      assert LocalPositions(b', |timestamps|);
      InRangeFrontierAppend(timestamps, a, b', t0, t1);
    }
  }

  /** Filtering a prefix of the frontier yields a prefix of the filtered frontier. */
  lemma InRangeFrontierPrefix(timestamps: seq<real>, frontier: seq<nat>, i: nat, t0: real, t1: real)
    requires LocalPositions(frontier, |timestamps|) && i <= |frontier|
    ensures LocalPositions(frontier[..i], |timestamps|)
    ensures var p := InRangeFrontier(timestamps, frontier[..i], t0, t1);
            var f := InRangeFrontier(timestamps, frontier, t0, t1);
            |p| <= |f| && f[..|p|] == p
  {
    assert frontier[..i] + frontier[i..] == frontier;
    assert LocalPositions(frontier[i..], |timestamps|);
    InRangeFrontierAppend(timestamps, frontier[..i], frontier[i..], t0, t1);
  }

  /** The positions of the frontier whose timestamp is in range. */
  function InRangePositions(timestamps: seq<real>, frontier: seq<nat>, t0: real, t1: real): set<nat>
    requires LocalPositions(frontier, |timestamps|)
  {
    set j: nat | j < |frontier| && InRange(timestamps[frontier[j]], t0, t1)
  }

  /** The filter keeps exactly one entry per in-range frontier position. */
  lemma {:induction false} InRangeFrontierCount(timestamps: seq<real>, frontier: seq<nat>, t0: real, t1: real)
    requires LocalPositions(frontier, |timestamps|)
    ensures |InRangeFrontier(timestamps, frontier, t0, t1)| == |InRangePositions(timestamps, frontier, t0, t1)|
    decreases |frontier|
  {
    if frontier != [] {
      var n := |frontier|;
      var init := frontier[..n - 1];
      InRangeFrontierCount(timestamps, init, t0, t1);
      var p := InRangePositions(timestamps, frontier, t0, t1);
      var p' := InRangePositions(timestamps, init, t0, t1);
      assert forall j :: j in p' ==> j < n - 1;
      forall j: nat | j < n - 1
        ensures j in p <==> j in p'
      {
        assert init[j] == frontier[j];
      }
      if InRange(timestamps[frontier[n - 1]], t0, t1) {
        assert p == p' + {n - 1};
        assert n - 1 !in p';
      } else {
        assert p == p';
      }
    }
  }

  /** Every in-range frontier entry survives the filter. */
  lemma {:induction false} InRangeFrontierComplete(timestamps: seq<real>, frontier: seq<nat>, t0: real, t1: real, j: nat)
    requires LocalPositions(frontier, |timestamps|) && j < |frontier|
    requires InRange(timestamps[frontier[j]], t0, t1)
    ensures frontier[j] in InRangeFrontier(timestamps, frontier, t0, t1)
    decreases |frontier|
  {
    var n := |frontier|;
    if j < n - 1 {
      var init := frontier[..n - 1];
      InRangeFrontierComplete(timestamps, init, t0, t1, j);
    }
  }

  /** The global identities of a sequence of local positions (`real_index`). */
  function RealIds(ids: seq<nat>, locals: seq<nat>): seq<nat>
    requires LocalPositions(locals, |ids|)
  {
    seq(|locals|, j requires 0 <= j < |locals| => ids[locals[j]])
  }

  function Min(a: nat, b: nat): nat
  {
    if a <= b then a else b
  }
}
