/** The delete / re-insert maintenance protocol of the graph engine, as a state
    machine over calls, and the schedule of calls the insert-and-delete driver
    makes: one build, then 20 batches of n/20 consecutive identities, each
    lazily deleted, consolidated inside a delete epoch, and re-inserted. */
module Maintenance {

  datatype Option<T> = None | Some(value: T)

  /** Steady: no epoch is open and no lazy delete is pending.  Deleting: some
      identities are tombstoned, no epoch is open.  EpochOpen: between
      `start_delete_epoch` and `end_delete_epoch`. */
  datatype Phase = Steady | Deleting | EpochOpen

  /** What the engine's contracts track: whether the index was built, the
      phase, the identities that are live in the graph, and the tombstoned
      ones that consolidation has not yet removed. */
  datatype EngineState = EngineState(built: bool, phase: Phase, live: set<nat>, tombstoned: set<nat>)

  /** The calls the driver makes on the engine. */
  datatype Call =
    | BuildIndex(n: nat)
    | LazyDelete(ids: seq<nat>)
    | StartDeleteEpoch
    | Consolidate
    | EndDeleteEpoch
    | Insert(ids: seq<nat>)
    | Search

  const Unbuilt: EngineState := EngineState(false, Steady, {}, {})

  function SetOf(ids: seq<nat>): set<nat>
  {
    set x | x in ids
  }

  /** The identities 0..n-1. */
  function Identities(n: nat): (r: set<nat>)
    ensures forall x: nat :: x in r <==> x < n
  {
    if n == 0 then {} else Identities(n - 1) + {n - 1}
  }

  /** The state right after building over n points. */
  function Ready(n: nat): EngineState
  {
    EngineState(true, Steady, Identities(n), {})
  }

  /** One call of the protocol: None when the call is illegal in `st`.
      Build only once; lazy deletes of live identities and epoch opening only
      outside an epoch; consolidation only inside one; closing an epoch only
      once its tombstones are consolidated; inserts only when steady. */
  function Step(st: EngineState, c: Call): (r: Option<EngineState>)
    ensures r.Some? && c.BuildIndex? ==> !st.built
    ensures r.Some? && (c.LazyDelete? || c.StartDeleteEpoch?) ==> st.built && st.phase != EpochOpen
    ensures r.Some? && c.LazyDelete? ==> SetOf(c.ids) <= st.live
    ensures r.Some? && c.Consolidate? ==> st.phase == EpochOpen && r.value.tombstoned == {}
    ensures r.Some? && c.EndDeleteEpoch? ==> st.phase == EpochOpen && st.tombstoned == {}
    ensures r.Some? && c.Insert? ==> st.built && st.phase == Steady
    ensures r.Some? && c.Search? ==> st.built && r.value == st
    ensures r.Some? ==> r.value.built == (st.built || c.BuildIndex?)
  {
    match c
    case BuildIndex(n) =>
      if !st.built then Some(Ready(n)) else None
    case LazyDelete(ids) =>
      if st.built && st.phase != EpochOpen && SetOf(ids) <= st.live
      then Some(EngineState(true, Deleting, st.live - SetOf(ids), st.tombstoned + SetOf(ids)))
      else None
    case StartDeleteEpoch =>
      if st.built && st.phase != EpochOpen then Some(st.(phase := EpochOpen)) else None
    case Consolidate =>
      if st.phase == EpochOpen then Some(st.(tombstoned := {})) else None
    case EndDeleteEpoch =>
      if st.phase == EpochOpen && st.tombstoned == {} then Some(st.(phase := Steady)) else None
    case Insert(ids) =>
      if st.built && st.phase == Steady then Some(st.(live := st.live + SetOf(ids))) else None
    case Search =>
      if st.built then Some(st) else None
  }

  /** A sequence of calls, None as soon as one of them is illegal. */
  function Run(st: EngineState, calls: seq<Call>): (r: Option<EngineState>)
    ensures r.Some? && calls != [] ==> Step(st, calls[0]).Some?
    ensures r.Some? ==> (r.value.built <==> st.built || exists j :: 0 <= j < |calls| && calls[j].BuildIndex?)
    ensures r.Some? && st.built ==> forall j :: 0 <= j < |calls| ==> !calls[j].BuildIndex?
    decreases |calls|
  {
    if calls == [] then Some(st)
    else match Step(st, calls[0])
      case None => None
      case Some(st') => Run(st', calls[1..])
  }

  lemma {:induction false} RunAppend(st: EngineState, a: seq<Call>, b: seq<Call>)
    ensures Run(st, a + b) == match Run(st, a) case None => None case Some(st') => Run(st', b)
    decreases |a|
  {
    if a == [] {
      assert a + b == b;
    } else {
      assert (a + b)[0] == a[0] && (a + b)[1..] == a[1..] + b;
      match Step(st, a[0])
      case None =>
      case Some(st') => RunAppend(st', a[1..], b);
    }
  }

  // ---------------------------------------------------------------- batches

  const Parts: nat := 20

  /** Batch i of size s: the identities i*s .. i*s+s-1, ascending. */
  function Batch(i: nat, s: nat): (b: seq<nat>)
    ensures |b| == s
    ensures forall j :: 0 <= j < s ==> i * s <= b[j] < i * s + s
    ensures forall j, j' :: 0 <= j < j' < s ==> b[j] < b[j']
  {
    seq(s, j => i * s + j)
  }

  lemma MulMonotone(a: nat, b: nat, s: nat)
    requires a <= b
    ensures a * s <= b * s
  {
  }

  /** Every identity of a later batch is above every identity of an earlier
      one; in particular distinct batches are disjoint. */
  lemma BatchesAscending(i: nat, i': nat, s: nat)
    requires i < i'
    ensures forall x, y :: x in Batch(i, s) && y in Batch(i', s) ==> x < y
    ensures SetOf(Batch(i, s)) !! SetOf(Batch(i', s))
  {
    MulMonotone(i + 1, i', s);
  }

  /** The batches 0..m-1 together. */
  function Covered(m: nat, s: nat): set<nat>
  {
    if m == 0 then {} else Covered(m - 1, s) + SetOf(Batch(m - 1, s))
  }

  /** The first m batches of size s cover exactly the identities 0..m*s-1. */
  lemma {:induction false} BatchesCover(m: nat, s: nat)
    ensures Covered(m, s) == Identities(m * s)
  {
    if m > 0 {
      BatchesCover(m - 1, s);
      assert (m - 1) * s + s == m * s;
      forall x: nat | x < m * s ensures x in Covered(m, s) {
        if x >= (m - 1) * s {
          assert Batch(m - 1, s)[x - (m - 1) * s] == x;
        }
      }
    }
  }

  /** With s = n/20 the 20 batches lie inside 0..n-1, and the last n mod 20
      identities are in none of them. */
  lemma BatchesWithin(n: nat)
    ensures Parts * (n / Parts) <= n && n - Parts * (n / Parts) == n % Parts
    ensures forall i :: 0 <= i < Parts ==> SetOf(Batch(i, n / Parts)) <= Identities(n)
    ensures forall i, x :: 0 <= i < Parts && Parts * (n / Parts) <= x < n ==> x !in Batch(i, n / Parts)
  {
    var s := n / Parts;
    forall i | 0 <= i < Parts
      ensures i * s + s <= Parts * s
    {
      MulMonotone(i + 1, Parts, s);
    }
  }

  // -------------------------------------------------------------- schedule

  /** One round of the driver: delete the batch, consolidate it inside an
      epoch, re-insert the same batch. */
  function Cycle(ids: seq<nat>): (calls: seq<Call>)
    ensures |calls| == 5 && calls[0] == LazyDelete(ids) && calls[4] == Insert(ids)
    ensures forall j :: 1 <= j < 4 ==> !calls[j].LazyDelete? && !calls[j].Insert? && !calls[j].BuildIndex?
  {
    [LazyDelete(ids), StartDeleteEpoch, Consolidate, EndDeleteEpoch, Insert(ids)]
  }

  /** The rounds for batches 0..m-1, in ascending order. */
  function Cycles(m: nat, s: nat): (calls: seq<Call>)
    ensures |calls| == 5 * m
  {
    if m == 0 then [] else Cycles(m - 1, s) + Cycle(Batch(m - 1, s))
  }

  /** Every call the driver makes: one build, the 20 rounds, and a search
      only when there are query points. */
  function Schedule(n: nat, queryCount: nat): (calls: seq<Call>)
    ensures |calls| == 1 + 5 * Parts + (if queryCount != 0 then 1 else 0)
    ensures calls[0] == BuildIndex(n)
    ensures calls[|calls| - 1] == Search <==> queryCount != 0
  {
    [BuildIndex(n)] + Cycles(Parts, n / Parts) + (if queryCount != 0 then [Search] else [])
  }

  /** Round i sits at calls 5i..5i+4: it deletes batch i and re-inserts the
      same batch. */
  lemma {:induction false} CyclesAt(m: nat, s: nat, i: nat)
    requires i < m
    ensures Cycles(m, s)[5 * i..5 * i + 5] == Cycle(Batch(i, s))
  {
    if i < m - 1 {
      CyclesAt(m - 1, s, i);
      assert Cycles(m, s)[5 * i..5 * i + 5] == Cycles(m - 1, s)[5 * i..5 * i + 5];
    } else {
      assert Cycles(m, s)[5 * i..5 * i + 5] == Cycle(Batch(i, s));
    }
  }

  /** A round over identities that are all live leaves the engine as it was. */
  lemma CycleRestores(n: nat, ids: seq<nat>)
    requires SetOf(ids) <= Identities(n)
    ensures Run(Ready(n), Cycle(ids)) == Some(Ready(n))
  {
    var b := SetOf(ids);
    var c := Cycle(ids);
    var st1 := EngineState(true, Deleting, Identities(n) - b, b);
    var st2 := st1.(phase := EpochOpen);
    var st3 := st2.(tombstoned := {});
    var st4 := st3.(phase := Steady);
    assert {} + b == b;
    assert (Identities(n) - b) + b == Identities(n);
    assert Step(Ready(n), c[0]) == Some(st1);
    assert Step(st1, c[1]) == Some(st2);
    assert Step(st2, c[2]) == Some(st3);
    assert Step(st3, c[3]) == Some(st4);
    assert Step(st4, c[4]) == Some(Ready(n));
    assert c[1..][1..][1..][1..][1..] == [];
    assert Run(Ready(n), c) == Run(st1, c[1..]) == Run(st2, c[1..][1..]) == Run(st3, c[1..][1..][1..])
        == Run(st4, c[1..][1..][1..][1..]) == Run(Ready(n), c[1..][1..][1..][1..][1..]);
  }

  lemma {:induction false} CyclesRestore(n: nat, m: nat)
    requires m <= Parts
    ensures Run(Ready(n), Cycles(m, n / Parts)) == Some(Ready(n))
  {
    if m > 0 {
      CyclesRestore(n, m - 1);
      BatchesWithin(n);
      RunAppend(Ready(n), Cycles(m - 1, n / Parts), Cycle(Batch(m - 1, n / Parts)));
      CycleRestores(n, Batch(m - 1, n / Parts));
    }
  }

  /** The driver's calls are legal from an unbuilt engine, and every
      identity is live again, with no tombstone left, when the last round
      ends. */
  lemma ScheduleIsLegal(n: nat, queryCount: nat)
    ensures Run(Unbuilt, Schedule(n, queryCount)) == Some(Ready(n))
  {
    var rounds := [BuildIndex(n)] + Cycles(Parts, n / Parts);
    var tail: seq<Call> := if queryCount != 0 then [Search] else [];
    RunAppend(Unbuilt, [BuildIndex(n)], Cycles(Parts, n / Parts));
    CyclesRestore(n, Parts);
    RunAppend(Unbuilt, rounds, tail);
  }

  /** Build happens exactly once, first; every delete and every insert
      carries a batch; and the last n mod 20 identities are never deleted
      nor re-inserted. */
  lemma ScheduleShape(n: nat, queryCount: nat)
    ensures Schedule(n, queryCount)[0] == BuildIndex(n)
    ensures forall j :: 1 <= j < |Schedule(n, queryCount)| ==> !Schedule(n, queryCount)[j].BuildIndex?
    ensures forall i :: 0 <= i < Parts ==>
              Schedule(n, queryCount)[1 + 5 * i..6 + 5 * i] == Cycle(Batch(i, n / Parts))
    ensures forall c, x ::
              (c in Schedule(n, queryCount) && (c.LazyDelete? || c.Insert?) && Parts * (n / Parts) <= x < n)
              ==> x !in c.ids
  {
    var s := n / Parts;
    var sched := Schedule(n, queryCount);
    var rounds := Cycles(Parts, s);
    assert sched[1..1 + |rounds|] == rounds;
    forall i | 0 <= i < Parts
      ensures sched[1 + 5 * i..6 + 5 * i] == Cycle(Batch(i, s))
    {
      CyclesAt(Parts, s, i);
      assert sched[1 + 5 * i..6 + 5 * i] == rounds[5 * i..5 * i + 5];
    }
    forall j | 1 <= j < |sched|
      ensures !sched[j].BuildIndex? &&
              ((sched[j].LazyDelete? || sched[j].Insert?) ==> exists i :: 0 <= i < Parts && sched[j].ids == Batch(i, s))
    {
      if j < 1 + |rounds| {
        var i := (j - 1) / 5;
        CyclesAt(Parts, s, i);
        assert sched[j] == rounds[j - 1] == rounds[5 * i..5 * i + 5][j - 1 - 5 * i];
      }
    }
    BatchesWithin(n);
    forall c, x | c in sched && (c.LazyDelete? || c.Insert?) && Parts * s <= x < n
      ensures x !in c.ids
    {
      var j :| 0 <= j < |sched| && sched[j] == c;
      assert j != 0;
    }
  }
}
