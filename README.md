# Timestamp-partitioned graph index and its maintenance driver

A model, in Dafny, of two pieces of sequential logic in a graph-based
approximate-nearest-neighbour library for points that carry timestamps:

* `VamanaIndex` (`algorithms/sigmod/big_index.h`).
  * A node's fit builds an exhaustive index and a graph over its subset of
    points, given as an identity array. When the point range it is handed has
    at least `min_size * 2` points (computed on `size_t`), the node also gets
    two children, over the lower and upper halves of its identity and
    timestamp arrays, and records a split timestamp.
  * `knn` returns the head of a beam-search frontier.
  * `range_knn` chooses between two strategies by the width of the timestamp
    range. Below a cutoff it asks the exhaustive index. Otherwise it runs one
    widened beam search and keeps the first `k` frontier entries whose
    timestamp lies in the range.
  * The process-wide defaults and their four setters are modelled as a
    `Config` object.
* The insert-and-delete driver `ANN` (`tests/insertsAndDeletes/neighbors.h`).
  It builds the graph once. Then, for 20 batches of `n/20` consecutive
  identities, it calls lazy delete, start of a delete epoch, consolidation,
  end of the epoch and re-insertion of the same batch. It searches only when
  there are query points.

Modules and files:

| file | module | contents |
|---|---|---|
| `params.dfy` | `Params` | parameter records, defaults, `Config` with the setters |
| `planner.dfy` | `Planner` | these pure pieces: <br>• the split threshold (wrapping `size_t` product) <br>• the midpoint split <br>• the split timestamp <br>• the over-retrieval parameters <br>• the in-range frontier filter, with its lemmas |
| `big_index.dfy` | `BigIndex` | class `VamanaIndex` (fields `naiveIndex`, `graph`, `left`, `right`, `medianTimestamp`), with `Fit`, `FitAll`, `FitNaive`, `Knn` and `RangeKnn` |
| `maintenance.dfy` | `Maintenance` | these pure pieces: <br>• the engine protocol as a state machine (`Step`, `Run`) <br>• the batches <br>• the driver's schedule of calls, with its lemmas |
| `inserts_and_deletes.dfy` | `InsertsAndDeletes` | class `Engine`, with ghost protocol state and a trace of calls; method `Ann` |

What the model follows is the code as written:

* The split test compares the size of the whole point range (`points.size()`)
  with `2 * min_size`. The arrays it cuts are the node's own identity and
  timestamp arrays. `Fit` keeps these as two separate inputs.
* Children are fitted through the `fit(NaiveIndex&)` overload (`FitNaive`),
  which never splits. The tree is therefore at most one level deep, and
  `Fit` states that both children are leaves.
* `knn` and `range_knn` use only the node they are called on. They never read
  `left`, `right` or `median_timestamp`.
* The recorded split timestamp is `timestamps[n/2]`. That is the first
  timestamp of the upper half, not the last of the lower half as the field's
  comment says (`MedianTimestamp`, `MedianSeparatesHalves`).
* The code constructs the default as `BuildParams(500, 64, 1.175)`, and its
  setter passes `(R, L, alpha)` in that order. The model keeps the arguments
  positionally (`r`, `l`, `alpha`), so the default reads `r = 500, l = 64`.
  The comment above the default names the positions "limit, degree, alpha"
  (big_index.h:15). The constructor that decides the actual mapping is not
  part of this model.
* The graph's degree bound is read as `default_build_params.R`
  (big_index.h:60, 100). The model takes that field to be the constructor's
  first argument, `r`.
* `2 * min_size` is computed on `size_t`. `SplitThreshold` models the
  wrap-around modulo 2^64.

Collaborators that are not part of this model, and how they appear:

* Beam search is the parameter `search: QueryParams -> seq<nat>`. For the
  query being answered, it gives the ranked frontier of local positions.
* The exhaustive index (`NaiveIndex`) is reduced to a datatype holding the
  timestamps and the identity array of its subset. `real_index(i)` is
  `ids[i]`.
* The answer of the exhaustive `range_knn` is the parameter `exhaustive`
  (at most `k` identities). It is written to the front of `out`.
* The graph engine's build, delete, consolidation and insert appear only as
  contracts over ghost state (`Maintenance.EngineState`). The engine's
  internals are not part of this model.

## Model

| member | source | states |
|---|---|---|
| `Params.Config.constructor` | algorithms/sigmod/big_index.h:15-25 | the process starts with build parameters (500, 64, 1.175), query parameters (100, 500, 1.35, 10000000, 100), cutoff 0.25 and minimum size 10000 |
| `Params.Config.SetDefaultBuildParams` | algorithms/sigmod/big_index.h:27-29 | replaces the build parameters by (R, L, alpha); nothing else changes |
| `Params.Config.SetDefaultQueryParams` | algorithms/sigmod/big_index.h:31-33 | replaces the query parameters by the five given values; nothing else changes |
| `Params.Config.SetExhaustiveFallbackCutoff` | algorithms/sigmod/big_index.h:35-37 | replaces the cutoff; nothing else changes |
| `Params.Config.SetMinSize` | algorithms/sigmod/big_index.h:39-41 | replaces the minimum size; nothing else changes |
| `Planner.ShouldSplit` | algorithms/sigmod/big_index.h:68 | a node splits iff the point count reaches `min_size * 2` computed on `size_t`: twice the minimum size below 2^63, and twice it minus 2^64 from 2^63 on, so minimum size exactly 2^63 always splits |
| `Planner.SplitThreshold` | algorithms/sigmod/big_index.h:68 | `min_size * 2` on `size_t`: exactly twice the minimum size below 2^63, and twice it minus 2^64 from 2^63 on |
| `Planner.Split` | algorithms/sigmod/big_index.h:69-73 | the two halves concatenate to the original array; the lower half has floor(n/2) entries; the upper half has as many or one more |
| `Planner.MedianTimestamp` | algorithms/sigmod/big_index.h:86 | the split timestamp is the first timestamp of the upper half |
| `Planner.MedianSeparatesHalves` | algorithms/sigmod/big_index.h:51-86 | on sorted timestamps, the split timestamp is an upper bound of the lower half and a lower bound of the upper half |
| `Planner.TruncateToInt` | algorithms/sigmod/big_index.h:131 | `static_cast<int>` truncates toward zero: the result is within 1 of its argument, on the side of zero |
| `Planner.OverRetrievalParams` | algorithms/sigmod/big_index.h:129-131 | the graph path's query parameters are the defaults, except that k becomes the beam size and the limit becomes the quotient `limit / width`, truncated toward zero |
| `Planner.OverRetrievalScalesLimit` | algorithms/sigmod/big_index.h:131 | for a non-negative limit, a width in (0, 1] never lowers the candidate limit, and a width of 1 or more never raises it |
| `Planner.InRange` | algorithms/sigmod/big_index.h:143 | the range test is closed: it admits nothing when t1 < t0, and exactly the endpoint when t0 == t1 |
| `Planner.InRangeFrontier` | algorithms/sigmod/big_index.h:141-147 | every kept entry is a frontier entry with a timestamp in the closed range [t0, t1]; at most as many entries as the frontier |
| `Planner.InRangeFrontierAppend` | algorithms/sigmod/big_index.h:142-146 | filtering a concatenation is the concatenation of the filtered halves, so frontier order is kept |
| `Planner.InRangeFrontierPrefix` | algorithms/sigmod/big_index.h:142 | stopping the scan early yields a prefix of the fully filtered frontier |
| `Planner.InRangeFrontierCount` | algorithms/sigmod/big_index.h:141-147 | the filter keeps exactly as many entries as there are in-range frontier positions |
| `Planner.InRangeFrontierComplete` | algorithms/sigmod/big_index.h:143-146 | every frontier entry whose timestamp is in range is kept |
| `BigIndex.Identity` | algorithms/sigmod/big_index.h:92 | n identities, all below n and strictly ascending, so the root's `real_index` is injective |
| `BigIndex.VamanaIndex.constructor` | algorithms/sigmod/big_index.h:45-53 | a new node has empty structures, no children and split timestamp -1 |
| `BigIndex.VamanaIndex.FitNaive` | algorithms/sigmod/big_index.h:97-109 | adopts the exhaustive index; builds a graph sized by its timestamps; leaves children and split timestamp untouched |
| `BigIndex.VamanaIndex.Fit` | algorithms/sigmod/big_index.h:55-88 | the node gets the exhaustive index and a graph sized by its identities. When the whole point count reaches the threshold, it also gets two fresh distinct leaf children over the two halves of its arrays, with split timestamp `timestamps[n/2]`. Otherwise children and split timestamp are unchanged |
| `BigIndex.VamanaIndex.FitAll` | algorithms/sigmod/big_index.h:90-95 | everything `Fit` states, instantiated with the identity array 0..n-1: the children's exhaustive indices, graphs, leaf status and split timestamp -1, and the root's split timestamp `timestamps[n/2]` |
| `BigIndex.VamanaIndex.Knn` | algorithms/sigmod/big_index.h:111-119 | `out[0..k)` holds the global identities of the first k frontier entries; the rest of `out` is untouched |
| `BigIndex.VamanaIndex.RangeKnn` | algorithms/sigmod/big_index.h:121-153 | the exhaustive path is taken iff `t1 - t0 < cutoff` (a width equal to the cutoff goes to the graph). On the graph path: <br>• the search runs with the over-retrieval parameters <br>• found = min(k, number of in-range frontier entries) <br>• `out[0..found)` holds the identities of the first `found` in-range entries, in frontier order <br>• `out[found..)` is untouched <br>• the warning is raised iff found < k |
| `BigIndex.NewFitted` | algorithms/sigmod/big_index.h:48-95 | a fresh node fitted over all points splits iff the point count reaches `min_size * 2` computed on `size_t` (`ShouldSplit`). Its children are leaves. An unsplit node keeps split timestamp -1 |
| `Maintenance.Step` | tests/insertsAndDeletes/neighbors.h:49-59 | the protocol each engine call demands. A build is legal only when unbuilt; a lazy delete or an epoch start only when built and outside an epoch, and a lazy delete only of live identities; consolidation only inside an epoch; closing an epoch only inside one and only with no tombstone left; an insert only when built and steady; a search only when built, and it changes nothing. Only a build sets `built` |
| `Maintenance.Run` | tests/insertsAndDeletes/neighbors.h:49-77 | a legal sequence of calls has a legal first call. The engine ends built iff it started built or a build was among the calls. On a built engine, a legal sequence contains no build |
| `Maintenance.Batch` | tests/insertsAndDeletes/neighbors.h:53 | batch i has s entries, strictly ascending, all in [i*s, i*s+s) |
| `Maintenance.BatchesAscending` | tests/insertsAndDeletes/neighbors.h:52-53 | every identity of a later batch exceeds every identity of an earlier one; distinct batches are disjoint |
| `Maintenance.BatchesCover` | tests/insertsAndDeletes/neighbors.h:51-53 | the first m batches together are exactly the identities 0..m*s-1 |
| `Maintenance.BatchesWithin` | tests/insertsAndDeletes/neighbors.h:47-53 | with s = n/20, every batch lies inside 0..n-1; the n mod 20 identities from 20*s on are in no batch |
| `Maintenance.Cycle` | tests/insertsAndDeletes/neighbors.h:54-59 | a round is five calls: it opens with a lazy delete of the batch and closes with an insert of the same batch; none of the three calls between deletes, inserts or builds |
| `Maintenance.Schedule` | tests/insertsAndDeletes/neighbors.h:49-77 | the driver makes 101 calls, plus one if there are query points; the first is the build; the last is a search iff there are query points |
| `Maintenance.Cycles` | tests/insertsAndDeletes/neighbors.h:52-61 | 20 rounds make 100 calls, five per round |
| `Maintenance.CyclesAt` | tests/insertsAndDeletes/neighbors.h:52-61 | round i is exactly: lazy delete of batch i, start epoch, consolidate, end epoch, insert of batch i |
| `Maintenance.CycleRestores` | tests/insertsAndDeletes/neighbors.h:54-59 | from the post-build state, one round over identities below n is legal and returns to the post-build state |
| `Maintenance.CyclesRestore` | tests/insertsAndDeletes/neighbors.h:52-61 | the first m ≤ 20 rounds are legal right after the build, and they end in the post-build state |
| `Maintenance.ScheduleIsLegal` | tests/insertsAndDeletes/neighbors.h:49-77 | the driver's whole call sequence is legal from an unbuilt engine. It ends with all n identities live and no tombstone |
| `Maintenance.ScheduleShape` | tests/insertsAndDeletes/neighbors.h:49-77 | the build is the first call and is never repeated. Round i deletes and re-inserts batch i. No delete or insert names one of the last n mod 20 identities |
| `InsertsAndDeletes.Engine.constructor` | tests/insertsAndDeletes/neighbors.h:45-46 | a new engine is unbuilt and has made no calls |
| `InsertsAndDeletes.Engine.BuildIndex` | tests/insertsAndDeletes/neighbors.h:49 | legal only once; all n identities become live |
| `InsertsAndDeletes.Engine.LazyDelete` | tests/insertsAndDeletes/neighbors.h:54 | legal outside an epoch, on live identities; they move from live to tombstoned |
| `InsertsAndDeletes.Engine.StartDeleteEpoch` | tests/insertsAndDeletes/neighbors.h:55 | legal outside an epoch; opens one |
| `InsertsAndDeletes.Engine.Consolidate` | tests/insertsAndDeletes/neighbors.h:56 | legal only inside an epoch; removes every tombstone |
| `InsertsAndDeletes.Engine.EndDeleteEpoch` | tests/insertsAndDeletes/neighbors.h:57 | legal only inside an epoch whose tombstones are consolidated; returns to steady |
| `InsertsAndDeletes.Engine.Insert` | tests/insertsAndDeletes/neighbors.h:59 | legal only when steady; the identities become live |
| `InsertsAndDeletes.Engine.Search` | tests/insertsAndDeletes/neighbors.h:77 | legal once built; changes no state |
| `InsertsAndDeletes.Ann` | tests/insertsAndDeletes/neighbors.h:39-79 | the calls made are exactly the schedule, and each of them is legal. The engine ends with every identity live and no tombstone. It searches iff there are query points |

## Left out

- BigIndex.VamanaIndex.Fit: requires `indices` to be non-empty whenever the node splits, that is, whenever `points.size() >= min_size * 2` holds on `size_t`. The point range and the identity array are separate inputs, so this excludes every split over an empty identity array, for example 20000 points with the default minimum size and no identities. There the source reads `timestamps[0]` of an empty array (big_index.h:86).
- BigIndex.VamanaIndex.FitAll and BigIndex.NewFitted: require a non-empty input whenever the node splits. An empty input splits only when `min_size * 2` wraps to 0 on `size_t`, which happens for minimum size 0 and for minimum size exactly 2^63. Those two cases are excluded; the source would read `timestamps[0]` of an empty array there (big_index.h:86).
- BigIndex.Identity: the lambda at big_index.h:92 takes an `index_type`, so identities at or above that type's range would wrap. The model treats them as exact.
- BigIndex.VamanaIndex.Knn: requires `k <= |frontier|` and `k <= out.Length` as caller contracts. The source checks neither; with a larger `k` it reads past the end of the frontier or writes past the end of `out` (big_index.h:116-117), which is undefined behaviour.
- BigIndex.VamanaIndex.RangeKnn: on the exhaustive path, the clauses saying `out[..|exhaustive|)` holds `exhaustive` and the rest of `out` is untouched are assumptions about how `NaiveIndex::range_knn` writes to `out`. They are not facts about big_index.h:126.
- Graph construction, beam search and the engine's delete, consolidate and
  insert algorithms. They live in engine sources that are not part of this
  model. They appear only as the `search` parameter and as contracts over
  ghost state.
- `NaiveIndex` (`fit`, `copyless_fit`, `range_knn`) is not part of this
  model.
  - Its fit is modelled as recording the timestamps and identity arrays it is
    given. A copy and a view are not distinguished.
  - Its exhaustive range search is an input (`exhaustive`). That its answer is
    the true in-range top k is not modelled.
  - Both fits need `|timestamps| == |indices|`, as a caller contract.
- Distances, point storage and the graph's adjacency. The graph is reduced
  to its degree bound and vertex count; the frontier's distances are not
  kept.
- Floating point. Timestamps, widths, the cutoff, `alpha` and `cut` are
  reals (`1.175`, `1.35` are not rounded to float).
- `Planner.OverRetrievalParams`: the division by a zero width is excluded by
  a `requires` (the source's cast of an infinite value is undefined).
  Overflow of `static_cast<int>` beyond the `int` range is not modelled.
- `Params.Config.SetDefaultBuildParams` and `SetDefaultQueryParams`: the
  `long` and `double` arguments are unbounded integers and reals.
- `Maintenance.Batch`: the `static_cast<indexType>` of `i*s+j` is taken to be
  exact. Identities at or above the index type's range are not modelled.
- The timestamp-sorted order of a fit's input is a caller contract that the
  source does not check. It is assumed only by `MedianSeparatesHalves`.
- `ANN` prints messages, reports graph statistics and calls
  `search_and_parse`. Printing and reporting are left out. The search is one
  `Search` call.
- `ANN` calls `get_start` to obtain the start point for the search. That
  value is the engine's business and is left out.
- `ANN`'s parameters `k`, `graph_built`, the ground truth and the result
  file affect only the left-out reporting. `graph_built` is ignored by the
  source.
- Parallelism (parlay). `tabulate` is a sequence constructor, and every loop
  is sequential.
