/** run_milp_model, in its two near-identical versions: the backend service
    (work time predicted in hours) and the submission utilities (work time in
    minutes, voyage carried to the output). The pair rows are added for every
    ordered pair with a 60-minute buffer. The solve is a parameter; the
    decoding of an optimal solution into the result table is a loop. */
module Optimization {
  import opened Seqs
  import opened BerthModel
  import opened BerthSolution

  const QUAY_LENGTH: real := 1150.0
  const BUFFER_MINUTES: real := 60.0
  const M_SPACE: real := 2.0 * QUAY_LENGTH

  /** Which copy of run_milp_model: the backend reads predicted_work_time in
      hours and multiplies by 60; the submission copy reads it as minutes and
      also reports the voyage (모선항차). */
  datatype Variant = Backend | Submission

  /** One processed row: 선명, 모선항차, 접안예정일시 (minutes since any fixed
      epoch), predicted_work_time, LOA. */
  datatype Vessel = Vessel(name: string, voyage: string, berthingAt: real, workTime: real, loa: real)

  function ServiceMinutes(variant: Variant, v: Vessel): real
  {
    match variant
    case Backend => v.workTime * 60.0
    case Submission => v.workTime
  }

  function Services(variant: Variant, batch: seq<Vessel>): (s: seq<real>)
    ensures |s| == |batch|
  {
    seq(|batch|, i requires 0 <= i < |batch| => ServiceMinutes(variant, batch[i]))
  }

  function Lengths(batch: seq<Vessel>): (l: seq<real>)
    ensures |l| == |batch|
  {
    seq(|batch|, i requires 0 <= i < |batch| => batch[i].loa)
  }

  function BerthingTimes(batch: seq<Vessel>): (b: seq<real>)
    ensures |b| == |batch|
  {
    seq(|batch|, i requires 0 <= i < |batch| => batch[i].berthingAt)
  }

  /** Arrival of each vessel in minutes after the batch's earliest berthing
      time. */
  function ArrivalOffsets(batch: seq<Vessel>): (a: seq<real>)
    ensures |a| == |batch|
    ensures AllNonNegative(a)
    ensures batch != [] ==> exists i :: 0 <= i < |a| && a[i] == 0.0
    ensures forall i, j :: 0 <= i < |a| && 0 <= j < |a| ==> a[i] - a[j] == batch[i].berthingAt - batch[j].berthingAt
  {
    if batch == [] then []
    else
      var b := BerthingTimes(batch);
      var ref := Min(b);
      var a := seq(|batch|, i requires 0 <= i < |batch| => batch[i].berthingAt - ref);
      assert forall i :: 0 <= i < |a| ==> a[i] == b[i] - ref;
      a
  }

  /** M_time as written: total service plus the latest arrival offset. */
  function MTimeAsWritten(s: seq<real>, a: seq<real>): (m: real)
    ensures a == [] ==> m == Sum(s)
    ensures forall i :: 0 <= i < |a| ==> Sum(s) + a[i] <= m
    ensures a != [] ==> exists i :: 0 <= i < |a| && m == Sum(s) + a[i]
  {
    if a == [] then Sum(s) else Sum(s) + Max(a)
  }

  /** The instance the code builds, with its M_time. */
  function AsWrittenInstance(variant: Variant, batch: seq<Vessel>): (inst: Instance)
    ensures inst.WellFormed() && inst.N() == |batch|
  {
    Instance(ArrivalOffsets(batch), Services(variant, batch), Lengths(batch),
             QUAY_LENGTH, BUFFER_MINUTES,
             MTimeAsWritten(Services(variant, batch), ArrivalOffsets(batch)), M_SPACE)
  }

  /** The same instance with M_time counting one buffer per vessel: the
      horizon of serving every vessel one after another. */
  function CorrectedInstance(variant: Variant, batch: seq<Vessel>): (inst: Instance)
    ensures inst.WellFormed() && inst.N() == |batch|
    ensures inst.mTime == SerialHorizon(inst)
  {
    var base := AsWrittenInstance(variant, batch);
    base.(mTime := SerialHorizon(base))
  }

  /** The constraint set: bounds, per-vessel rows, separation, and the four
      pair rows for every ordered pair. */
  predicate Accepts(inst: Instance, a: Assignment)
  {
    CommonRows(inst, a) && OrderedPairSystem(inst, a)
  }

  /** What the solver's status promises: an optimal point is feasible, and
      "infeasible" means no assignment is. */
  ghost predicate SolverSound(inst: Instance, outcome: Outcome)
  {
    match outcome
    case Optimal(values) => Accepts(inst, values)
    case Infeasible => forall a :: !Accepts(inst, a)
    case OtherStatus(_) => true
  }

  /** What row i of the table reports about vessel i and the variable values. */
  predicate RowReports(variant: Variant, batch: seq<Vessel>, values: Assignment, r: SolutionRow, i: nat)
    requires i < |batch| && HasDimension(values, |batch|)
  {
    var s := Services(variant, batch)[i];
    && r.ship == batch[i].name
    && r.voyage == (if variant == Submission then Some(batch[i].voyage) else None)
    && r.shipId == i + 1
    && r.arrivalH * 60.0 == ArrivalOffsets(batch)[i]
    && r.startH * 60.0 == values.t[i]
    && r.waitingH * 60.0 == values.w[i]
    && r.serviceMin == s
    && r.serviceH * 60.0 == s
    && r.completionH == r.startH + r.serviceH
    && r.lengthM == batch[i].loa
    && r.positionM == values.p[i]
    && r.endPositionM == r.positionM + r.lengthM
  }

  predicate Reports(variant: Variant, batch: seq<Vessel>, values: Assignment, rows: seq<SolutionRow>)
    requires HasDimension(values, |batch|)
  {
    |rows| == |batch| && forall i :: 0 <= i < |rows| ==> RowReports(variant, batch, values, rows[i], i)
  }

  /** A table decoded from an accepted assignment keeps every vessel inside
      the quay, after its arrival, with waiting = start - arrival, and any
      two vessels apart in space or by the one-hour buffer in time. */
  lemma ReportedScheduleFeasible(variant: Variant, batch: seq<Vessel>, values: Assignment, rows: seq<SolutionRow>, inst: Instance)
    requires inst.arrival == ArrivalOffsets(batch) && inst.dur == Services(variant, batch) && inst.len == Lengths(batch)
    requires inst.quay == QUAY_LENGTH && inst.gap == BUFFER_MINUTES
    requires HasDimension(values, |batch|) && Reports(variant, batch, values, rows)
    requires Accepts(inst, values)
    ensures AllRowsApart(rows, 1.0)
    ensures forall i :: 0 <= i < |rows| ==>
      && rows[i].arrivalH <= rows[i].startH
      && rows[i].waitingH == rows[i].startH - rows[i].arrivalH
      && 0.0 <= rows[i].positionM
      && rows[i].endPositionM <= QUAY_LENGTH
  {
    OrderedIsUnordered(inst, values);
    SystemSound(inst, values);
    forall i | 0 <= i < |rows|
      ensures rows[i].arrivalH <= rows[i].startH
      ensures rows[i].waitingH == rows[i].startH - rows[i].arrivalH
      ensures 0.0 <= rows[i].positionM && rows[i].endPositionM <= QUAY_LENGTH
    {
      assert RowReports(variant, batch, values, rows[i], i);
      assert VesselRows(inst, values, i);
    }
    forall i, j | 0 <= i < |rows| && 0 <= j < |rows| && i != j
      ensures RowsApart(rows[i], rows[j], 1.0)
    {
      assert RowReports(variant, batch, values, rows[i], i);
      assert RowReports(variant, batch, values, rows[j], j);
      assert Separated(inst, values, i, j);
    }
  }

  /** The decoding loop: one row per vessel, in batch order. */
  method DecodeRows(variant: Variant, batch: seq<Vessel>, values: Assignment) returns (rows: seq<SolutionRow>)
    requires HasDimension(values, |batch|)
    ensures Reports(variant, batch, values, rows)
  {
    var offsets := ArrivalOffsets(batch);
    var services := Services(variant, batch);
    rows := [];
    var i := 0;
    while i < |batch|
      invariant 0 <= i <= |batch|
      invariant |rows| == i
      invariant forall k :: 0 <= k < i ==> RowReports(variant, batch, values, rows[k], k)
    {
      var startMinutes := values.t[i];
      var completionMinutes := startMinutes + services[i];
      var positionM := values.p[i];
      var row := SolutionRow(
        batch[i].name,
        if variant == Submission then Some(batch[i].voyage) else None,
        i + 1,
        offsets[i] / 60.0,
        startMinutes / 60.0,
        completionMinutes / 60.0,
        values.w[i] / 60.0,
        services[i],
        services[i] / 60.0,
        batch[i].loa,
        positionM,
        positionM + batch[i].loa);
      assert RowReports(variant, batch, values, row, i);
      rows := rows + [row];
      i := i + 1;
    }
  }

  /** A reported table is in Ship_ID order, and the backend's hours come
      back as the predicted work time. */
  lemma ReportsOrdered(variant: Variant, batch: seq<Vessel>, values: Assignment, rows: seq<SolutionRow>)
    requires HasDimension(values, |batch|) && Reports(variant, batch, values, rows)
    ensures SortedById(rows)
    ensures variant == Backend ==> forall i :: 0 <= i < |rows| ==> rows[i].serviceH == batch[i].workTime
  {
    forall i | 0 <= i < |rows|
      ensures rows[i].shipId == i + 1
      ensures variant == Backend ==> rows[i].serviceH == batch[i].workTime
    {
      assert RowReports(variant, batch, values, rows[i], i);
    }
  }

  /** Builds the model for the batch, hands it to the solver (whose verdict
      is `outcome`), and on an optimal verdict decodes one row per vessel in
      Ship_ID order; any other verdict yields no table. An empty batch with
      an optimal verdict has no Ship_ID column to sort by, and the sort
      raises KeyError. Whichever M_time the model carries, a verdict that
      keeps the solver's promise gives a table without clashes. */
  method RunMilpModel(variant: Variant, batch: seq<Vessel>, outcome: Outcome)
    returns (r: Result<Option<seq<SolutionRow>>, string>)
    requires outcome.Optimal? ==> HasDimension(outcome.values, |batch|)
    ensures r.Err? <==> outcome.Optimal? && batch == []
    ensures r.Ok? ==> (r.value.Some? <==> outcome.Optimal?)
    ensures r.Ok? && r.value.Some? ==> Reports(variant, batch, outcome.values, r.value.value)
    ensures r.Ok? && r.value.Some? ==> |r.value.value| == |batch| > 0 && SortedById(r.value.value)
    ensures r.Ok? && r.value.Some? && variant == Backend ==>
      forall i :: 0 <= i < |r.value.value| ==> r.value.value[i].serviceH == batch[i].workTime
    ensures r.Ok? && r.value.Some? && SolverSound(AsWrittenInstance(variant, batch), outcome) ==>
      AllRowsApart(r.value.value, 1.0)
    ensures r.Ok? && r.value.Some? && SolverSound(CorrectedInstance(variant, batch), outcome) ==>
      AllRowsApart(r.value.value, 1.0)
  {
    var asWritten := AsWrittenInstance(variant, batch);
    var corrected := CorrectedInstance(variant, batch);
    match outcome {
      case Optimal(values) =>
        var rows := DecodeRows(variant, batch, values);
        if rows == [] {
          r := Err("KeyError: 'Ship_ID'");
        } else {
          ReportsOrdered(variant, batch, values, rows);
          r := Ok(Some(rows));
          if SolverSound(asWritten, outcome) {
            ReportedScheduleFeasible(variant, batch, values, rows, asWritten);
          }
          if SolverSound(corrected, outcome) {
            ReportedScheduleFeasible(variant, batch, values, rows, corrected);
          }
        }
      case Infeasible =>
        r := Ok(None);
      case OtherStatus(_) =>
        r := Ok(None);
    }
  }

  // ---------------------------------------------------------------------------
  // M_time: as written versus corrected.

  /** Two 800 m vessels (they cannot share the 1150 m quay), both berthing at
      the same moment, 60 minutes of work each. */
  function ScenarioTwo(): seq<Vessel>
  {
    [Vessel("A", "1", 0.0, 60.0, 800.0), Vessel("B", "1", 0.0, 60.0, 800.0)]
  }

  /** As written M_time is 120 minutes; corrected it is 240. */
  lemma ScenarioTwoInstance(b: seq<Vessel>)
    requires b == ScenarioTwo()
    ensures AsWrittenInstance(Submission, b) ==
      Instance([0.0, 0.0], [60.0, 60.0], [800.0, 800.0], 1150.0, 60.0, 120.0, 2300.0)
    ensures CorrectedInstance(Submission, b) ==
      Instance([0.0, 0.0], [60.0, 60.0], [800.0, 800.0], 1150.0, 60.0, 240.0, 2300.0)
  {
    assert BerthingTimes(b) == [0.0, 0.0];
    assert ArrivalOffsets(b) == [0.0, 0.0];
    assert Services(Submission, b) == [60.0, 60.0];
    assert Lengths(b) == [800.0, 800.0];
    SumPair(60.0, 60.0);
    var inst := AsWrittenInstance(Submission, b);
    assert Steps(inst) == [120.0, 120.0];
    SumPair(120.0, 120.0);
  }

  /** Facts every accepted assignment has when two 800 m vessels with 60
      minutes of work berth together, whatever M_time is: neither fits beside
      the other, so one starts at least 120 minutes (work plus buffer) after
      the other, and their starts differ by at most M_time - 120. */
  lemma ScenarioTwoPairFacts(inst: Instance, a: Assignment)
    requires inst.len == [800.0, 800.0] && inst.arrival == [0.0, 0.0] && inst.dur == [60.0, 60.0]
    requires inst.quay == 1150.0 && inst.mSpace == 2300.0 && inst.gap == 60.0 && 0.0 <= inst.mTime
    ensures Accepts(inst, a) ==>
      && a.x[0][1] == 0.0 && a.x[1][0] == 0.0
      && (a.t[0] + 120.0 <= a.t[1] || a.t[1] + 120.0 <= a.t[0])
      && a.t[0] + 120.0 <= a.t[1] + inst.mTime
      && a.t[1] + 120.0 <= a.t[0] + inst.mTime
      && 0.0 <= a.t[0] && 0.0 <= a.t[1] && a.w == [a.t[0], a.t[1]]
  {
    if Accepts(inst, a) {
      assert PairRows(inst, a, 0, 1) && SeparationRow(inst, a, 0, 1);
      assert VesselRows(inst, a, 0) && VesselRows(inst, a, 1);
      assert Binary(a.x[0][1]) && Binary(a.x[1][0]);
      assert Binary(a.y[0][1]) && Binary(a.y[1][0]);
      assert a.x[0][1] == 0.0 && a.x[1][0] == 0.0;
      assert a.y[0][1] == 1.0 || a.y[1][0] == 1.0;
    }
  }

  /** As written, M_time = 120 is too small to let either vessel go first
      with its buffer, so the model has no feasible point and run_milp_model
      returns None instead of a schedule. */
  lemma ScenarioTwoInfeasibleAsWritten(b: seq<Vessel>)
    requires b == ScenarioTwo()
    ensures forall a :: !Accepts(AsWrittenInstance(Submission, b), a)
    ensures forall outcome :: SolverSound(AsWrittenInstance(Submission, b), outcome) ==> !outcome.Optimal?
  {
    ScenarioTwoInstance(b);
    var inst := AsWrittenInstance(Submission, b);
    forall a
      ensures !Accepts(inst, a)
    {
      ScenarioTwoPairFacts(inst, a);
    }
  }

  function TotalWaiting(a: Assignment): real
  {
    Sum(a.w)
  }

  /** The serial schedule of the corrected instance: the first vessel
      starts at once, the second 120 minutes later. */
  lemma ScenarioTwoSerialWaits(inst: Instance)
    requires inst == Instance([0.0, 0.0], [60.0, 60.0], [800.0, 800.0], 1150.0, 60.0, 240.0, 2300.0)
    ensures SerialAssignment(inst).w == [0.0, 120.0]
  {
    assert ArrivalCap(inst) == 0.0 by {
      assert Max([0.0, 0.0]) == 0.0;
    }
    var steps := Steps(inst);
    assert steps == [120.0, 120.0];
    assert SerialStart(inst, 0) == 0.0 by {
      assert steps[..0] == [];
    }
    assert SerialStart(inst, 1) == 120.0 by {
      assert steps[..1] == [120.0];
      assert [120.0][..0] == [];
    }
  }

  /** With the corrected M_time the same batch is feasible: the serial
      schedule is accepted, and one vessel waits for the other's 60 minutes
      of work plus the buffer, 120 minutes in total. */
  lemma ScenarioTwoCorrectedSerial(b: seq<Vessel>)
    requires b == ScenarioTwo()
    ensures Accepts(CorrectedInstance(Submission, b), SerialAssignment(CorrectedInstance(Submission, b)))
    ensures TotalWaiting(SerialAssignment(CorrectedInstance(Submission, b))) == 120.0
  {
    ScenarioTwoInstance(b);
    CorrectedModelAlwaysFeasible(Submission, b);
    ScenarioTwoSerialWaits(CorrectedInstance(Submission, b));
    SumPair(0.0, 120.0);
  }

  /** No accepted assignment of the corrected model waits less than 120
      minutes in total, so the serial schedule is optimal. */
  lemma ScenarioTwoCorrectedOptimum(b: seq<Vessel>)
    requires b == ScenarioTwo()
    ensures forall a :: Accepts(CorrectedInstance(Submission, b), a) ==> TotalWaiting(a) >= 120.0
  {
    ScenarioTwoInstance(b);
    var inst := CorrectedInstance(Submission, b);
    forall a | Accepts(inst, a)
      ensures TotalWaiting(a) >= 120.0
    {
      ScenarioTwoPairFacts(inst, a);
      SumPair(a.t[0], a.t[1]);
    }
  }

  predicate ValidVessel(variant: Variant, v: Vessel)
  {
    0.0 <= ServiceMinutes(variant, v) && 0.0 <= v.loa <= QUAY_LENGTH
  }

  /** With the corrected M_time every batch whose work times are non-negative
      and whose vessels each fit the quay is feasible: serving them one after
      another from the latest arrival satisfies every row. */
  lemma CorrectedModelAlwaysFeasible(variant: Variant, batch: seq<Vessel>)
    requires forall i :: 0 <= i < |batch| ==> ValidVessel(variant, batch[i])
    ensures Accepts(CorrectedInstance(variant, batch), SerialAssignment(CorrectedInstance(variant, batch)))
  {
    var inst := CorrectedInstance(variant, batch);
    assert AllNonNegative(inst.dur);
    assert ValidBatch(inst);
    SerialScheduleAccepted(inst);
  }

  /** Two vessels of 300 m and 400 m berthing together, 120 and 90 minutes of
      work. */
  function ScenarioOne(): seq<Vessel>
  {
    [Vessel("A", "1", 0.0, 120.0, 300.0), Vessel("B", "1", 0.0, 90.0, 400.0)]
  }

  lemma ScenarioOneInstance(b: seq<Vessel>)
    requires b == ScenarioOne()
    ensures AsWrittenInstance(Submission, b) ==
      Instance([0.0, 0.0], [120.0, 90.0], [300.0, 400.0], 1150.0, 60.0, 210.0, 2300.0)
  {
    assert BerthingTimes(b) == [0.0, 0.0];
    assert ArrivalOffsets(b) == [0.0, 0.0];
    assert Services(Submission, b) == [120.0, 90.0];
    assert Lengths(b) == [300.0, 400.0];
    SumPair(120.0, 90.0);
  }

  /** Both start on arrival side by side, with nobody waiting. */
  lemma ScenarioOneSideBySide(b: seq<Vessel>, a: Assignment)
    requires b == ScenarioOne()
    requires a == Assignment([0.0, 0.0], [0.0, 300.0], [0.0, 0.0], [[0.0, 1.0], [0.0, 0.0]], [[0.0, 0.0], [0.0, 0.0]])
    ensures Accepts(AsWrittenInstance(Submission, b), a)
    ensures TotalWaiting(a) == 0.0
  {
    ScenarioOneInstance(b);
    var inst := AsWrittenInstance(Submission, b);
    SideBySideRows(inst, a);
    OrderedIsUnordered(inst, a);
    SumPair(0.0, 0.0);
  }

  /** The side-by-side point meets every row of the first scenario's model. */
  lemma SideBySideRows(inst: Instance, a: Assignment)
    requires inst == Instance([0.0, 0.0], [120.0, 90.0], [300.0, 400.0], 1150.0, 60.0, 210.0, 2300.0)
    requires a == Assignment([0.0, 0.0], [0.0, 300.0], [0.0, 0.0], [[0.0, 1.0], [0.0, 0.0]], [[0.0, 0.0], [0.0, 0.0]])
    ensures CommonRows(inst, a) && PairRows(inst, a, 0, 1)
  {
  }
}
