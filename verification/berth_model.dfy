/** The continuous berth-allocation constraint system that every MILP variant of
    the scheduler hands to the solver, written as predicates over an assignment
    of its decision variables, with the soundness and satisfiability facts that
    hold for all variants. Times are minutes from the batch's earliest arrival,
    positions are metres along the quay; arithmetic is exact. */
module BerthModel {
  import opened Seqs

  /** Everything the constraint rows read. `dur` is the time a vessel blocks
      the quay in the temporal rows (its service time, or its whole occupancy
      where the buffers are folded in) and `gap` the buffer added on top. */
  datatype Instance = Instance(
    arrival: seq<real>,
    dur: seq<real>,
    len: seq<real>,
    quay: real,
    gap: real,
    mTime: real,
    mSpace: real)
  {
    predicate WellFormed()
    {
      |arrival| == |dur| == |len|
    }

    function N(): nat
    {
      |arrival|
    }
  }

  /** Values of the decision variables: start t, position p, waiting w per
      vessel, and the N x N indicator matrices left_of (x) and before (y). */
  datatype Assignment = Assignment(
    t: seq<real>,
    p: seq<real>,
    w: seq<real>,
    x: seq<seq<real>>,
    y: seq<seq<real>>)

  predicate Shaped(inst: Instance, a: Assignment)
  {
    && inst.WellFormed()
    && |a.t| == inst.N() && |a.p| == inst.N() && |a.w| == inst.N()
    && |a.x| == inst.N() && |a.y| == inst.N()
    && (forall i :: 0 <= i < inst.N() ==> |a.x[i]| == inst.N() && |a.y[i]| == inst.N())
  }

  predicate Binary(v: real)
  {
    v == 0.0 || v == 1.0
  }

  /** The bounds and types given to addVars: t >= 0, 0 <= p <= L, w >= 0,
      and x, y binary. */
  predicate VariableBounds(inst: Instance, a: Assignment)
    requires Shaped(inst, a)
  {
    && (forall i :: 0 <= i < inst.N() ==> 0.0 <= a.t[i] && 0.0 <= a.p[i] <= inst.quay && 0.0 <= a.w[i])
    && (forall i, j :: 0 <= i < inst.N() && 0 <= j < inst.N() ==> Binary(a.x[i][j]) && Binary(a.y[i][j]))
  }

  /** The three per-vessel rows: waiting-time definition, arrival, fit-in-quay. */
  predicate VesselRows(inst: Instance, a: Assignment, i: nat)
    requires Shaped(inst, a) && i < inst.N()
  {
    && a.w[i] == a.t[i] - inst.arrival[i]
    && a.t[i] >= inst.arrival[i]
    && a.p[i] + inst.len[i] <= inst.quay
  }

  /** p_i + l_i <= p_j + M_space * (1 - x[i,j]). */
  predicate SpatialRow(inst: Instance, a: Assignment, i: nat, j: nat)
    requires Shaped(inst, a) && i < inst.N() && j < inst.N()
  {
    a.p[i] + inst.len[i] <= a.p[j] + inst.mSpace * (1.0 - a.x[i][j])
  }

  /** t_i + d_i + gap <= t_j + M_time * (1 - y[i,j]). */
  predicate TemporalRow(inst: Instance, a: Assignment, i: nat, j: nat)
    requires Shaped(inst, a) && i < inst.N() && j < inst.N()
  {
    a.t[i] + inst.dur[i] + inst.gap <= a.t[j] + inst.mTime * (1.0 - a.y[i][j])
  }

  /** The four rows that the loop body adds for one pair (i, j). */
  predicate PairRows(inst: Instance, a: Assignment, i: nat, j: nat)
    requires Shaped(inst, a) && i < inst.N() && j < inst.N()
  {
    && SpatialRow(inst, a, i, j) && SpatialRow(inst, a, j, i)
    && TemporalRow(inst, a, i, j) && TemporalRow(inst, a, j, i)
  }

  /** x[i,j] + x[j,i] + y[i,j] + y[j,i] >= 1. */
  predicate SeparationRow(inst: Instance, a: Assignment, i: nat, j: nat)
    requires Shaped(inst, a) && i < inst.N() && j < inst.N()
  {
    a.x[i][j] + a.x[j][i] + a.y[i][j] + a.y[j][i] >= 1.0
  }

  /** Rows every variant adds besides its pair rows: variable bounds, the
      per-vessel rows, and the separation row for every i < j. */
  predicate CommonRows(inst: Instance, a: Assignment)
  {
    && Shaped(inst, a)
    && VariableBounds(inst, a)
    && (forall i :: 0 <= i < inst.N() ==> VesselRows(inst, a, i))
    && (forall i, j :: 0 <= i < j < inst.N() ==> SeparationRow(inst, a, i, j))
  }

  /** Pair rows added for every ordered pair i != j. */
  predicate OrderedPairSystem(inst: Instance, a: Assignment)
    requires Shaped(inst, a)
  {
    forall i, j :: 0 <= i < inst.N() && 0 <= j < inst.N() && i != j ==> PairRows(inst, a, i, j)
  }

  /** Pair rows added for every i < j only. */
  predicate UnorderedPairSystem(inst: Instance, a: Assignment)
    requires Shaped(inst, a)
  {
    forall i, j :: 0 <= i < j < inst.N() ==> PairRows(inst, a, i, j)
  }

  /** The four constraint families declared separately over all ordered pairs:
      spatial_left, spatial_right, temporal_before, temporal_after. */
  predicate SpatialLeftFamily(inst: Instance, a: Assignment)
    requires Shaped(inst, a)
  {
    forall i, j :: 0 <= i < inst.N() && 0 <= j < inst.N() && i != j ==> SpatialRow(inst, a, i, j)
  }

  predicate SpatialRightFamily(inst: Instance, a: Assignment)
    requires Shaped(inst, a)
  {
    forall i, j :: 0 <= i < inst.N() && 0 <= j < inst.N() && i != j ==> SpatialRow(inst, a, j, i)
  }

  predicate TemporalBeforeFamily(inst: Instance, a: Assignment)
    requires Shaped(inst, a)
  {
    forall i, j :: 0 <= i < inst.N() && 0 <= j < inst.N() && i != j ==> TemporalRow(inst, a, i, j)
  }

  predicate TemporalAfterFamily(inst: Instance, a: Assignment)
    requires Shaped(inst, a)
  {
    forall i, j :: 0 <= i < inst.N() && 0 <= j < inst.N() && i != j ==> TemporalRow(inst, a, j, i)
  }

  /** The disjunction the model is meant to enforce for a pair: disjoint quay
      intervals, or one vessel (plus buffer) done before the other starts. */
  predicate Separated(inst: Instance, a: Assignment, i: nat, j: nat)
    requires Shaped(inst, a) && i < inst.N() && j < inst.N()
  {
    || a.p[i] + inst.len[i] <= a.p[j]
    || a.p[j] + inst.len[j] <= a.p[i]
    || a.t[i] + inst.dur[i] + inst.gap <= a.t[j]
    || a.t[j] + inst.dur[j] + inst.gap <= a.t[i]
  }

  // ---------------------------------------------------------------------------
  // Soundness.

  /** One pair: binary indicators, the four pair rows and the separation row
      force one of the four disjuncts. */
  lemma PairSeparated(inst: Instance, a: Assignment, i: nat, j: nat)
    requires Shaped(inst, a) && VariableBounds(inst, a)
    requires i < inst.N() && j < inst.N() && i != j
    requires PairRows(inst, a, i, j) && SeparationRow(inst, a, i, j)
    ensures Separated(inst, a, i, j)
  {
    assert Binary(a.x[i][j]) && Binary(a.x[j][i]) && Binary(a.y[i][j]) && Binary(a.y[j][i]);
    if a.x[i][j] == 1.0 {
      assert a.p[i] + inst.len[i] <= a.p[j];
    } else if a.x[j][i] == 1.0 {
      assert a.p[j] + inst.len[j] <= a.p[i];
    } else if a.y[i][j] == 1.0 {
      assert a.t[i] + inst.dur[i] + inst.gap <= a.t[j];
    } else {
      assert a.y[j][i] == 1.0;
      assert a.t[j] + inst.dur[j] + inst.gap <= a.t[i];
    }
  }

  /** Every assignment the (unordered-pair) system accepts separates every pair
      of distinct vessels in space or in time. */
  lemma SystemSound(inst: Instance, a: Assignment)
    requires CommonRows(inst, a) && UnorderedPairSystem(inst, a)
    ensures forall i, j :: 0 <= i < inst.N() && 0 <= j < inst.N() && i != j ==> Separated(inst, a, i, j)
  {
    forall i, j | 0 <= i < inst.N() && 0 <= j < inst.N() && i != j
      ensures Separated(inst, a, i, j)
    {
      if i < j {
        PairSeparated(inst, a, i, j);
      } else {
        PairSeparated(inst, a, j, i);
      }
    }
  }

  // ---------------------------------------------------------------------------
  // The ways the rows are enumerated are the same constraint set.

  /** Adding the four rows for every ordered pair is the same as adding them
      for i < j only: each row appears twice. */
  lemma OrderedIsUnordered(inst: Instance, a: Assignment)
    requires Shaped(inst, a)
    ensures OrderedPairSystem(inst, a) <==> UnorderedPairSystem(inst, a)
  {
    if UnorderedPairSystem(inst, a) {
      forall i, j | 0 <= i < inst.N() && 0 <= j < inst.N() && i != j
        ensures PairRows(inst, a, i, j)
      {
        if j < i {
          assert PairRows(inst, a, j, i);
        }
      }
    }
  }

  /** spatial_right over all ordered pairs is spatial_left with the pair
      swapped: the two families are the same set of rows. */
  lemma SpatialFamiliesCoincide(inst: Instance, a: Assignment)
    requires Shaped(inst, a)
    ensures SpatialLeftFamily(inst, a) <==> SpatialRightFamily(inst, a)
  {
    if SpatialLeftFamily(inst, a) {
      forall i, j | 0 <= i < inst.N() && 0 <= j < inst.N() && i != j
        ensures SpatialRow(inst, a, j, i)
      {
        assert SpatialRow(inst, a, j, i);
      }
    }
    if SpatialRightFamily(inst, a) {
      forall i, j | 0 <= i < inst.N() && 0 <= j < inst.N() && i != j
        ensures SpatialRow(inst, a, i, j)
      {
        assert 0 <= j < inst.N() && 0 <= i < inst.N() && j != i;
      }
    }
  }

  /** Likewise temporal_after is temporal_before with the pair swapped. */
  lemma TemporalFamiliesCoincide(inst: Instance, a: Assignment)
    requires Shaped(inst, a)
    ensures TemporalBeforeFamily(inst, a) <==> TemporalAfterFamily(inst, a)
  {
    if TemporalBeforeFamily(inst, a) {
      forall i, j | 0 <= i < inst.N() && 0 <= j < inst.N() && i != j
        ensures TemporalRow(inst, a, j, i)
      {
        assert TemporalRow(inst, a, j, i);
      }
    }
    if TemporalAfterFamily(inst, a) {
      forall i, j | 0 <= i < inst.N() && 0 <= j < inst.N() && i != j
        ensures TemporalRow(inst, a, i, j)
      {
        assert 0 <= j < inst.N() && 0 <= i < inst.N() && j != i;
      }
    }
  }

  /** The separately declared families together are the pair-loop system. */
  lemma FamiliesAreOrderedSystem(inst: Instance, a: Assignment)
    requires Shaped(inst, a)
    ensures (SpatialLeftFamily(inst, a) && TemporalBeforeFamily(inst, a)) <==> OrderedPairSystem(inst, a)
  {
    if SpatialLeftFamily(inst, a) && TemporalBeforeFamily(inst, a) {
      forall i, j | 0 <= i < inst.N() && 0 <= j < inst.N() && i != j
        ensures PairRows(inst, a, i, j)
      {
        assert SpatialRow(inst, a, j, i) && TemporalRow(inst, a, j, i);
      }
    }
    if OrderedPairSystem(inst, a) {
      forall i, j | 0 <= i < inst.N() && 0 <= j < inst.N() && i != j
        ensures SpatialRow(inst, a, i, j) && TemporalRow(inst, a, i, j)
      {
        assert PairRows(inst, a, i, j);
      }
    }
  }

  // ---------------------------------------------------------------------------
  // M_space never binds on its own.

  /** With x[i,j] = 0 the spatial row is implied by fit-in-quay and p_j >= 0,
      whenever M_space >= L: it never excludes a position-feasible point. */
  lemma IdleSpatialRowHolds(inst: Instance, a: Assignment, i: nat, j: nat)
    requires Shaped(inst, a) && i < inst.N() && j < inst.N()
    requires a.p[i] + inst.len[i] <= inst.quay && 0.0 <= a.p[j]
    requires inst.quay <= inst.mSpace && a.x[i][j] == 0.0
    ensures SpatialRow(inst, a, i, j)
  {
  }

  // ---------------------------------------------------------------------------
  // Satisfiability: vessels served one after another at position 0.

  function ArrivalCap(inst: Instance): real
  {
    if inst.arrival == [] then 0.0 else Max(inst.arrival)
  }

  /** The time each vessel blocks the quay in the temporal rows, gap included. */
  function Steps(inst: Instance): (s: seq<real>)
    requires inst.WellFormed()
    ensures |s| == inst.N()
  {
    seq(inst.N(), k requires 0 <= k < inst.N() => inst.dur[k] + inst.gap)
  }

  /** Smallest M_time for which the serial schedule below is accepted. */
  function SerialHorizon(inst: Instance): real
    requires inst.WellFormed()
  {
    ArrivalCap(inst) + Sum(Steps(inst))
  }

  /** Vessel i starts once every arrival has happened and vessels 0..i-1 have
      left, each with its gap. */
  function SerialStart(inst: Instance, i: nat): real
    requires inst.WellFormed() && i <= inst.N()
  {
    ArrivalCap(inst) + Sum(Steps(inst)[..i])
  }

  function SerialAssignment(inst: Instance): (a: Assignment)
    requires inst.WellFormed()
    ensures Shaped(inst, a)
  {
    var n := inst.N();
    Assignment(
      seq(n, i requires 0 <= i < n => SerialStart(inst, i)),
      seq(n, i => 0.0),
      seq(n, i requires 0 <= i < n => SerialStart(inst, i) - inst.arrival[i]),
      seq(n, i => seq(n, j => 0.0)),
      seq(n, i => seq(n, j => if i < j then 1.0 else 0.0)))
  }

  predicate ValidBatch(inst: Instance)
  {
    && inst.WellFormed()
    && AllNonNegative(inst.arrival) && AllNonNegative(inst.dur) && 0.0 <= inst.gap
    && 0.0 <= inst.quay && inst.quay <= inst.mSpace
    && (forall i :: 0 <= i < inst.N() ==> 0.0 <= inst.len[i] <= inst.quay)
  }

  lemma SumNonNegative(s: seq<real>, i: nat)
    requires AllNonNegative(s) && i <= |s|
    ensures 0.0 <= Sum(s[..i])
  {
    if i > 0 {
      PrefixSumGrows(s, 0, i);
    }
  }

  /** Facts about one vessel of the serial schedule. */
  lemma SerialVessel(inst: Instance, i: nat)
    requires ValidBatch(inst) && SerialHorizon(inst) <= inst.mTime && i < inst.N()
    ensures 0.0 <= SerialStart(inst, i)
    ensures inst.arrival[i] <= SerialStart(inst, i)
    ensures SerialStart(inst, i) + inst.dur[i] + inst.gap <= inst.mTime
  {
    var steps := Steps(inst);
    var n := inst.N();
    assert AllNonNegative(steps);
    assert inst.arrival[i] <= ArrivalCap(inst);
    assert steps[..n] == steps;
    SumNonNegative(steps, i);
    PrefixSumGrows(steps, i, n);
  }

  /** Vessel i < j finishes, with its gap, before vessel j starts. */
  lemma SerialPair(inst: Instance, i: nat, j: nat)
    requires ValidBatch(inst) && i < j <= inst.N()
    ensures SerialStart(inst, i) + inst.dur[i] + inst.gap <= SerialStart(inst, j)
  {
    var steps := Steps(inst);
    assert AllNonNegative(steps);
    PrefixSumGrows(steps, i, j);
  }

  /** When M_time reaches the serial horizon, the system is never infeasible:
      the serial schedule satisfies every row, in every enumeration. */
  lemma SerialScheduleAccepted(inst: Instance)
    requires ValidBatch(inst) && SerialHorizon(inst) <= inst.mTime
    ensures CommonRows(inst, SerialAssignment(inst))
    ensures UnorderedPairSystem(inst, SerialAssignment(inst))
    ensures OrderedPairSystem(inst, SerialAssignment(inst))
  {
    var a := SerialAssignment(inst);
    var n := inst.N();
    forall i | 0 <= i < n
      ensures 0.0 <= a.t[i] && 0.0 <= a.w[i] && VesselRows(inst, a, i)
    {
      SerialVessel(inst, i);
    }
    forall i, j | 0 <= i < j < n
      ensures PairRows(inst, a, i, j) && SeparationRow(inst, a, i, j)
    {
      SerialPair(inst, i, j);
      SerialVessel(inst, j);
      SerialVessel(inst, i);
      assert a.y[i][j] == 1.0 && a.y[j][i] == 0.0 && a.x[i][j] == 0.0 && a.x[j][i] == 0.0;
      assert TemporalRow(inst, a, i, j);
      assert TemporalRow(inst, a, j, i);
    }
    OrderedIsUnordered(inst, a);
  }
}
