/** The standalone script baipot_milp.py: thirty hard-coded vessels, no
    buffers, and the pair rows declared as four separate families over all
    ordered pairs. */
module BaipotMilp {
  import opened Seqs
  import opened BerthModel
  import opened BerthSolution

  const QUAY_LENGTH: real := 1150.0

  /** s_i: work time of each vessel, in minutes. */
  const SERVICE: seq<real> := [
    1236.0, 2094.0, 1374.0, 1560.0, 1794.0, 1584.0, 852.0, 696.0, 540.0, 1980.0, 1428.0,
    2100.0, 712.0, 630.0, 1230.0, 954.0, 2232.0, 1188.0, 1440.0, 240.0, 1902.0, 1852.0,
    1428.0, 2448.0, 2460.0, 822.0, 600.0, 900.0, 2022.0, 956.0
  ]

  /** a_i: arrival of each vessel, in hours. */
  const ARRIVAL_H: seq<real> := [
    14.0, 1.0, 14.0, 3.0, 15.0, 8.0, 8.0, 5.0, 16.0, 5.0, 11.0, 12.0, 13.0, 20.0, 1.0, 6.0,
    0.0, 19.0, 23.0, 16.0, 23.0, 1.0, 7.0, 9.0, 10.0, 10.0, 3.0, 15.0, 5.0, 5.0
  ]

  /** l_i: length of each vessel, in metres. */
  const LENGTHS: seq<real> := [
    366.0, 336.0, 366.0, 209.0, 366.0, 333.0, 142.0, 213.0, 171.0, 324.0, 222.0, 366.0,
    172.0, 143.0, 366.0, 210.0, 368.0, 231.0, 209.0, 172.0, 334.0, 293.0, 303.0, 324.0,
    333.0, 142.0, 175.0, 172.0, 367.0, 199.0
  ]

  /** The script's lists s_i (minutes), a_i (hours) and l_i (metres). */
  const DATA: ScriptData := ScriptData(SERVICE, ARRIVAL_H, LENGTHS)

  /** The script's model: temporal rows on work time alone, no gap; M_time is
      total work time plus the latest arrival. */
  function ScriptInstance(data: ScriptData): (inst: Instance)
    requires data.WellFormed() && data.N() > 0
    ensures inst.WellFormed() && inst.N() == data.N()
    ensures inst.arrival == data.ArrivalMinutes() && inst.dur == data.service && inst.gap == 0.0
    ensures inst.mTime == Sum(data.service) + Max(data.ArrivalMinutes())
  {
    var arrival := data.ArrivalMinutes();
    Instance(arrival, data.service, data.length, QUAY_LENGTH, 0.0, Sum(data.service) + Max(arrival), 2.0 * QUAY_LENGTH)
  }

  /** spatial_left, spatial_right, temporal_before and temporal_after, each
      over every ordered pair, besides the common rows. */
  predicate Accepts(inst: Instance, a: Assignment)
  {
    && CommonRows(inst, a)
    && SpatialLeftFamily(inst, a) && SpatialRightFamily(inst, a)
    && TemporalBeforeFamily(inst, a) && TemporalAfterFamily(inst, a)
  }

  /** The four families accept exactly what the pair loop over i < j accepts:
      the right and after families repeat the left and before rows. */
  lemma FamiliesArePairLoop(inst: Instance, a: Assignment)
    ensures Accepts(inst, a) <==> CommonRows(inst, a) && UnorderedPairSystem(inst, a)
  {
    if CommonRows(inst, a) {
      SpatialFamiliesCoincide(inst, a);
      TemporalFamiliesCoincide(inst, a);
      FamiliesAreOrderedSystem(inst, a);
      OrderedIsUnordered(inst, a);
    }
  }

  /** The hard-coded lists are consistent: thirty vessels, non-negative
      times, every length within the quay. */
  lemma DataValid()
    ensures DATA.WellFormed() && DATA.N() == 30 && DATA.Valid(QUAY_LENGTH)
  {
    ServiceNonNegative();
    ArrivalNonNegative();
    LengthsFit();
  }

  lemma ServiceNonNegative()
    ensures |SERVICE| == 30 && AllNonNegative(SERVICE)
  {
  }

  lemma ArrivalNonNegative()
    ensures |ARRIVAL_H| == 30 && AllNonNegative(ARRIVAL_H)
  {
  }

  lemma LengthsFit()
    ensures |LENGTHS| == 30 && forall i :: 0 <= i < |LENGTHS| ==> 0.0 <= LENGTHS[i] <= QUAY_LENGTH
  {
  }

  /** Without buffers, total work plus the latest arrival is enough: the
      serial schedule satisfies every family, so the model is never
      infeasible for valid data. */
  lemma FeasibleAsWritten(data: ScriptData)
    requires data.Valid(QUAY_LENGTH) && data.N() > 0
    ensures Accepts(ScriptInstance(data), SerialAssignment(ScriptInstance(data)))
  {
    var inst := ScriptInstance(data);
    assert Steps(inst) == data.service;
    assert AllNonNegative(inst.arrival);
    assert ValidBatch(inst);
    SerialScheduleAccepted(inst);
    FamiliesArePairLoop(inst, SerialAssignment(inst));
  }

  /** A table read off an accepted assignment keeps every vessel inside the
      quay and after its arrival, and any two vessels are apart in space or
      one completes before the other starts. */
  lemma TableFeasible(data: ScriptData, values: Assignment, rows: seq<SolutionRow>)
    requires data.WellFormed() && data.N() > 0
    requires HasDimension(values, data.N()) && ScriptReports(data, values, rows)
    requires Accepts(ScriptInstance(data), values)
    ensures AllRowsApart(rows, 0.0)
    ensures forall i :: 0 <= i < |rows| ==>
      && rows[i].arrivalH <= rows[i].startH
      && rows[i].waitingH == rows[i].startH - rows[i].arrivalH
      && 0.0 <= rows[i].positionM
      && rows[i].endPositionM <= QUAY_LENGTH
  {
    var inst := ScriptInstance(data);
    FamiliesArePairLoop(inst, values);
    SystemSound(inst, values);
    forall i | 0 <= i < |rows|
      ensures rows[i].arrivalH <= rows[i].startH
      ensures rows[i].waitingH == rows[i].startH - rows[i].arrivalH
      ensures 0.0 <= rows[i].positionM && rows[i].endPositionM <= QUAY_LENGTH
    {
      assert ScriptRowReports(data, values, rows[i], i);
      assert VesselRows(inst, values, i);
    }
    forall i, j | 0 <= i < |rows| && 0 <= j < |rows| && i != j
      ensures RowsApart(rows[i], rows[j], 0.0)
    {
      assert ScriptRowReports(data, values, rows[i], i);
      assert ScriptRowReports(data, values, rows[j], j);
      assert Separated(inst, values, i, j);
    }
  }
}
