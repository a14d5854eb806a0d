/** The insert-and-delete driver: build the graph once, cycle 20 batches of
    identities through delete / epoch / consolidate / epoch / re-insert, and
    search only when there are query points.  The engine is an object whose
    ghost state follows the protocol of module Maintenance; each of its calls
    demands that the call be legal in the current state. */
module InsertsAndDeletes {
  import opened Maintenance

  /** The graph engine together with the shared graph it maintains.  Only
      the protocol state is modelled; `trace` records every call made. */
  class Engine {
    ghost var state: EngineState
    ghost var trace: seq<Call>

    constructor ()
      ensures state == Unbuilt && trace == []
    {
      state := Unbuilt;
      trace := [];
    }

    method BuildIndex(n: nat)
      requires Step(state, Call.BuildIndex(n)).Some?
      modifies this
      ensures state == Step(old(state), Call.BuildIndex(n)).value
      ensures trace == old(trace) + [Call.BuildIndex(n)]
    {
      state := Step(state, Call.BuildIndex(n)).value;
      trace := trace + [Call.BuildIndex(n)];
    }

    method LazyDelete(ids: seq<nat>)
      requires Step(state, Call.LazyDelete(ids)).Some?
      modifies this
      ensures state == Step(old(state), Call.LazyDelete(ids)).value
      ensures trace == old(trace) + [Call.LazyDelete(ids)]
    {
      state := Step(state, Call.LazyDelete(ids)).value;
      trace := trace + [Call.LazyDelete(ids)];
    }

    method StartDeleteEpoch()
      requires Step(state, Call.StartDeleteEpoch).Some?
      modifies this
      ensures state == Step(old(state), Call.StartDeleteEpoch).value
      ensures trace == old(trace) + [Call.StartDeleteEpoch]
    {
      state := Step(state, Call.StartDeleteEpoch).value;
      trace := trace + [Call.StartDeleteEpoch];
    }

    method Consolidate()
      requires Step(state, Call.Consolidate).Some?
      modifies this
      ensures state == Step(old(state), Call.Consolidate).value
      ensures trace == old(trace) + [Call.Consolidate]
    {
      state := Step(state, Call.Consolidate).value;
      trace := trace + [Call.Consolidate];
    }

    method EndDeleteEpoch()
      requires Step(state, Call.EndDeleteEpoch).Some?
      modifies this
      ensures state == Step(old(state), Call.EndDeleteEpoch).value
      ensures trace == old(trace) + [Call.EndDeleteEpoch]
    {
      state := Step(state, Call.EndDeleteEpoch).value;
      trace := trace + [Call.EndDeleteEpoch];
    }

    method Insert(ids: seq<nat>)
      requires Step(state, Call.Insert(ids)).Some?
      modifies this
      ensures state == Step(old(state), Call.Insert(ids)).value
      ensures trace == old(trace) + [Call.Insert(ids)]
    {
      state := Step(state, Call.Insert(ids)).value;
      trace := trace + [Call.Insert(ids)];
    }

    method Search()
      requires Step(state, Call.Search).Some?
      modifies this
      ensures state == Step(old(state), Call.Search).value
      ensures trace == old(trace) + [Call.Search]
    {
      state := Step(state, Call.Search).value;
      trace := trace + [Call.Search];
    }
  }

  /** `ANN`: n is the number of points, queryCount the number of query
      points.  Every call is legal (each engine method demands it), the calls
      made are exactly `Schedule(n, queryCount)`, and the engine ends with
      every identity live and no tombstone. */
  method Ann(engine: Engine, n: nat, queryCount: nat)
    requires engine.state == Unbuilt
    modifies engine
    ensures engine.state == Ready(n)
    ensures engine.trace == old(engine.trace) + Schedule(n, queryCount)
  {
    engine.BuildIndex(n);
    var s := n / Parts;
    BatchesWithin(n);
    for i := 0 to Parts
      invariant engine.state == Ready(n)
      invariant engine.trace == old(engine.trace) + [Call.BuildIndex(n)] + Cycles(i, s)
    {
      var indices := Batch(i, s);
      ghost var b := SetOf(indices);
      assert b <= Identities(n);
      engine.LazyDelete(indices);
      engine.StartDeleteEpoch();
      engine.Consolidate();
      engine.EndDeleteEpoch();
      assert {} + b == b && (Identities(n) - b) + b == Identities(n);
      engine.Insert(indices);
    }
    if queryCount != 0 {
      engine.Search();
    }
  }
}
