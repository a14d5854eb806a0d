/** The timestamp-partitioned graph index (`VamanaIndex`): each node owns an
    exhaustive index and a graph over one subset of the points; a node fitted
    over enough points also gets two children over the lower and upper halves
    of its identity and timestamp arrays.  Queries always use the node they are
    invoked on. */
module BigIndex {
  import opened Params
  import opened Planner

  /** The exhaustive index of a node, reduced to what the node reads from it:
      the timestamps of its subset and `real_index`, the map from a local
      position to the global identity, as the array of identities it was
      fitted with. */
  datatype NaiveIndex = NaiveIndex(timestamps: seq<real>, ids: seq<nat>) {
    predicate Valid()
    {
      |timestamps| == |ids|
    }
  }

  const EmptyNaiveIndex: NaiveIndex := NaiveIndex([], [])

  /** A graph of the engine, reduced to its degree bound and its number of
      vertices; its edges are the engine's business. */
  datatype Graph = Graph(maxDegree: int, size: nat)

  const EmptyGraph: Graph := Graph(0, 0)

  /** How `RangeKnn` answered. */
  datatype RangeOutcome =
    | ExhaustivePath
    | GraphPath(params: QueryParams, found: nat, underRetrieved: bool)

  /** The identities 0, 1, ..., n-1 (`parlay::tabulate(n, i -> i)`): n
      distinct identities below n, in ascending order, so `real_index` of the
      root is injective. */
  function Identity(n: nat): (r: seq<nat>)
    ensures |r| == n && LocalPositions(r, n)
    ensures forall i, j :: 0 <= i < j < n ==> r[i] < r[j]
  {
    seq(n, i => i)
  }

  class VamanaIndex {
    var naiveIndex: NaiveIndex
    var graph: Graph
    var left: VamanaIndex?
    var right: VamanaIndex?
    var medianTimestamp: real

    ghost predicate Valid()
      reads this
    {
      naiveIndex.Valid()
    }

    predicate IsLeaf()
      reads this
    {
      left == null && right == null
    }

    constructor ()
      ensures Valid()
      ensures naiveIndex == EmptyNaiveIndex && graph == EmptyGraph
      ensures IsLeaf() && medianTimestamp == -1.0
    {
      naiveIndex := EmptyNaiveIndex;
      graph := EmptyGraph;
      left := null;
      right := null;
      medianTimestamp := -1.0;
    }

    /** `fit(NaiveIndex&)`: adopt an exhaustive index and build a graph over
        it.  It never creates children. */
    method FitNaive(cfg: Config, ni: NaiveIndex)
      requires ni.Valid()
      modifies this
      ensures Valid()
      ensures naiveIndex == ni && graph == Graph(cfg.buildParams.r, |ni.timestamps|)
      ensures left == old(left) && right == old(right) && medianTimestamp == old(medianTimestamp)
    {
      naiveIndex := ni;
      graph := Graph(cfg.buildParams.r, |ni.timestamps|);
    }

    /** `fit(points, timestamps, indices)`.  The split test reads the size of
        the whole point range, the split itself cuts the node's own arrays,
        and the children are fitted through `FitNaive`, so they stay leaves. */
    method Fit(cfg: Config, pointsSize: nat, timestamps: seq<real>, indices: seq<nat>)
      requires |timestamps| == |indices|
      requires ShouldSplit(pointsSize, cfg.minSize) ==> indices != []
      modifies this
      ensures Valid()
      ensures naiveIndex == NaiveIndex(timestamps, indices)
      ensures graph == Graph(cfg.buildParams.r, |indices|)
      ensures !ShouldSplit(pointsSize, cfg.minSize) ==>
                left == old(left) && right == old(right) && medianTimestamp == old(medianTimestamp)
      ensures ShouldSplit(pointsSize, cfg.minSize) ==>
                && left != null && right != null && left != right
                && fresh(left) && fresh(right)
                && left.naiveIndex == NaiveIndex(Split(timestamps).0, Split(indices).0)
                && right.naiveIndex == NaiveIndex(Split(timestamps).1, Split(indices).1)
                && left.graph == Graph(cfg.buildParams.r, |indices| / 2)
                && right.graph == Graph(cfg.buildParams.r, |indices| - |indices| / 2)
                && left.Valid() && right.Valid()
                && left.IsLeaf() && right.IsLeaf()
                && left.medianTimestamp == -1.0 && right.medianTimestamp == -1.0
                && medianTimestamp == MedianTimestamp(timestamps, |indices|)
    {
      naiveIndex := NaiveIndex(timestamps, indices);
      graph := Graph(cfg.buildParams.r, |indices|);
      if pointsSize >= SplitThreshold(cfg.minSize) {
        var n := |indices|;
        var leftIndices, rightIndices := indices[..n / 2], indices[n / 2..];
        var leftTimestamps, rightTimestamps := timestamps[..|timestamps| / 2], timestamps[|timestamps| / 2..];
        left := new VamanaIndex();
        right := new VamanaIndex();
        var leftNi := NaiveIndex(leftTimestamps, leftIndices);
        var rightNi := NaiveIndex(rightTimestamps, rightIndices);
        left.FitNaive(cfg, leftNi);
        right.FitNaive(cfg, rightNi);
        medianTimestamp := timestamps[n / 2];
      }
    }

    /** `fit(points, timestamps)`: `Fit` with the identities 0..n-1. */
    method FitAll(cfg: Config, pointsSize: nat, timestamps: seq<real>)
      requires |timestamps| == pointsSize
      requires ShouldSplit(pointsSize, cfg.minSize) ==> pointsSize > 0
      modifies this
      ensures Valid()
      ensures naiveIndex == NaiveIndex(timestamps, Identity(pointsSize))
      ensures graph == Graph(cfg.buildParams.r, pointsSize)
      ensures !ShouldSplit(pointsSize, cfg.minSize) ==>
                left == old(left) && right == old(right) && medianTimestamp == old(medianTimestamp)
      ensures ShouldSplit(pointsSize, cfg.minSize) ==>
                && left != null && right != null && left != right
                && fresh(left) && fresh(right)
                && left.naiveIndex == NaiveIndex(Split(timestamps).0, Split(Identity(pointsSize)).0)
                && right.naiveIndex == NaiveIndex(Split(timestamps).1, Split(Identity(pointsSize)).1)
                && left.graph == Graph(cfg.buildParams.r, pointsSize / 2)
                && right.graph == Graph(cfg.buildParams.r, pointsSize - pointsSize / 2)
                && left.Valid() && right.Valid()
                && left.IsLeaf() && right.IsLeaf()
                && left.medianTimestamp == -1.0 && right.medianTimestamp == -1.0
                && medianTimestamp == MedianTimestamp(timestamps, pointsSize)
    {
      var indices := Identity(pointsSize);
      Fit(cfg, pointsSize, timestamps, indices);
    }

    /** `knn`: the first k entries of the beam-search frontier, mapped to
        global identities.  `search` is the engine's beam search of this
        node's graph for the query, as a function of the query parameters; it
        ranks local positions of this node's subset. */
    method Knn(cfg: Config, search: QueryParams -> seq<nat>, out: array<nat>, k: nat)
      requires Valid()
      requires LocalPositions(search(cfg.queryParams), |naiveIndex.ids|)
      requires k <= |search(cfg.queryParams)| && k <= out.Length
      modifies out
      ensures LocalPositions(search(cfg.queryParams)[..k], |naiveIndex.ids|)
      ensures out[..k] == RealIds(naiveIndex.ids, search(cfg.queryParams)[..k])
      ensures forall j :: k <= j < out.Length ==> out[j] == old(out[j])
    {
      var frontier := search(cfg.queryParams);
      for i := 0 to k
        invariant forall j :: 0 <= j < i ==> out[j] == naiveIndex.ids[frontier[j]]
        invariant forall j :: k <= j < out.Length ==> out[j] == old(out[j])
      {
        out[i] := naiveIndex.ids[frontier[i]];
      }
    }

    /** `range_knn`: below the cutoff width the exhaustive index answers (its
        answer, at most k identities, is `exhaustive`); otherwise one widened
        beam search runs and its frontier is filtered to [t0, t1] until k hits
        are found. */
    method RangeKnn(cfg: Config, search: QueryParams -> seq<nat>, exhaustive: seq<nat>,
                    out: array<nat>, t0: real, t1: real, k: nat)
      returns (outcome: RangeOutcome)
      requires Valid()
      requires forall qp :: LocalPositions(search(qp), |naiveIndex.ids|)
      requires k <= out.Length
      requires t1 - t0 < cfg.exhaustiveFallbackCutoff ==> |exhaustive| <= k
      requires t1 - t0 >= cfg.exhaustiveFallbackCutoff ==> t1 - t0 != 0.0
      modifies out
      ensures outcome.ExhaustivePath? <==> t1 - t0 < cfg.exhaustiveFallbackCutoff
      ensures outcome.ExhaustivePath? ==>
                && out[..|exhaustive|] == exhaustive
                && forall j :: |exhaustive| <= j < out.Length ==> out[j] == old(out[j])
      ensures outcome.GraphPath? ==>
                && outcome.params == OverRetrievalParams(cfg.queryParams, t1 - t0)
                && var hits := InRangeFrontier(naiveIndex.timestamps, search(outcome.params), t0, t1);
                   && outcome.found == Min(k, |hits|)
                   && out[..outcome.found] == RealIds(naiveIndex.ids, hits[..outcome.found])
                   && (forall j :: outcome.found <= j < out.Length ==> out[j] == old(out[j]))
                   && outcome.underRetrieved == (outcome.found < k)
    {
      var timeRange := t1 - t0;
      if timeRange < cfg.exhaustiveFallbackCutoff {
        for i := 0 to |exhaustive|
          invariant forall j :: 0 <= j < i ==> out[j] == exhaustive[j]
          invariant forall j :: |exhaustive| <= j < out.Length ==> out[j] == old(out[j])
        {
          out[i] := exhaustive[i];
        }
        return ExhaustivePath;
      }
      var qp := OverRetrievalParams(cfg.queryParams, t1 - t0);
      var frontier := search(qp);
      ghost var ts := naiveIndex.timestamps;
      var found := 0;
      var i := 0;
      while i < |frontier| && found < k
        invariant 0 <= i <= |frontier|
        invariant LocalPositions(frontier[..i], |ts|)
        invariant found == |InRangeFrontier(ts, frontier[..i], t0, t1)| && found <= k
        invariant out[..found] == RealIds(naiveIndex.ids, InRangeFrontier(ts, frontier[..i], t0, t1))
        invariant forall j :: found <= j < out.Length ==> out[j] == old(out[j])
      {
        assert frontier[..i + 1][..i] == frontier[..i];
        var local := frontier[i];
        if naiveIndex.timestamps[local] >= t0 && naiveIndex.timestamps[local] <= t1 {
          out[found] := naiveIndex.ids[local];
          found := found + 1;
        }
        i := i + 1;
      }
      InRangeFrontierPrefix(ts, frontier, i, t0, t1);
      if i == |frontier| {
        assert frontier[..i] == frontier;
      }
      outcome := GraphPath(qp, found, found < k);
    }
  }

  /** A fresh index fitted over a whole point set: it splits exactly when the
      point count reaches twice the minimum size, the split is one level deep,
      and an unsplit root keeps the initial split timestamp -1. */
  method NewFitted(cfg: Config, pointsSize: nat, timestamps: seq<real>) returns (root: VamanaIndex)
    requires |timestamps| == pointsSize
    requires ShouldSplit(pointsSize, cfg.minSize) ==> pointsSize > 0
    ensures fresh(root) && root.Valid()
    ensures root.naiveIndex == NaiveIndex(timestamps, Identity(pointsSize))
    ensures !root.IsLeaf() <==> ShouldSplit(pointsSize, cfg.minSize)
    ensures root.IsLeaf() ==> root.medianTimestamp == -1.0
    ensures !root.IsLeaf() ==>
              && root.left != null && root.right != null
              && root.left.IsLeaf() && root.right.IsLeaf()
              && root.medianTimestamp == timestamps[pointsSize / 2]
  {
    root := new VamanaIndex();
    root.FitAll(cfg, pointsSize, timestamps);
  }
}
