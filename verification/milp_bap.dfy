/** The standalone buffered script milp_bap.py: ten hard-coded vessels, each
    occupying the quay for a 60-minute berthing buffer, its work, and a
    60-minute departure buffer; pair rows only for i < j; a printed schedule
    and a result table. */
module MilpBap {
  import opened Seqs
  import opened BerthModel
  import opened BerthSolution

  const QUAY_LENGTH: real := 1150.0
  const BERTHING_BUFFER: real := 60.0
  const DEPARTURE_BUFFER: real := 60.0

  /** The script's lists s_i (minutes), a_i (hours) and l_i (metres). */
  const DATA: ScriptData := ScriptData(
    [
      1236.0, 2094.0, 1374.0, 1560.0, 1794.0, 1584.0, 852.0, 696.0, 540.0, 1980.0
    ],
    [
      14.0, 1.0, 14.0, 3.0, 15.0, 8.0, 8.0, 5.0, 16.0, 5.0
    ],
    [
      366.0, 336.0, 366.0, 209.0, 366.0, 333.0, 142.0, 213.0, 171.0, 324.0
    ])

  /** total_berth_time: berthing buffer, work, departure buffer. */
  function Occupancy(data: ScriptData): (occ: seq<real>)
    ensures |occ| == |data.service|
    ensures forall i :: 0 <= i < |occ| ==> occ[i] == data.service[i] + BERTHING_BUFFER + DEPARTURE_BUFFER
  {
    seq(|data.service|, i requires 0 <= i < |data.service| => BERTHING_BUFFER + data.service[i] + DEPARTURE_BUFFER)
  }

  /** The script's model: the temporal rows use the whole occupancy with no
      further gap; M_time is total occupancy plus the latest arrival. */
  function ScriptInstance(data: ScriptData): (inst: Instance)
    requires data.WellFormed() && data.N() > 0
    ensures inst.WellFormed() && inst.N() == data.N()
    ensures inst.arrival == data.ArrivalMinutes() && inst.dur == Occupancy(data) && inst.gap == 0.0
    ensures inst.mTime == Sum(Occupancy(data)) + Max(data.ArrivalMinutes())
  {
    var arrival := data.ArrivalMinutes();
    var occ := Occupancy(data);
    Instance(arrival, occ, data.length, QUAY_LENGTH, 0.0, Sum(occ) + Max(arrival), 2.0 * QUAY_LENGTH)
  }

  predicate Accepts(inst: Instance, a: Assignment)
  {
    CommonRows(inst, a) && UnorderedPairSystem(inst, a)
  }

  /** The hard-coded lists are consistent: ten vessels, non-negative times,
      every length within the quay. */
  lemma DataValid()
    ensures DATA.WellFormed() && DATA.N() == 10 && DATA.Valid(QUAY_LENGTH)
  {
  }

  /** The script's M_time is large enough: since the buffers are part of
      each occupancy, serving the vessels one after another satisfies every
      row, so the model is never infeasible for valid data. */
  lemma FeasibleAsWritten(data: ScriptData)
    requires data.Valid(QUAY_LENGTH) && data.N() > 0
    ensures Accepts(ScriptInstance(data), SerialAssignment(ScriptInstance(data)))
  {
    var inst := ScriptInstance(data);
    assert Steps(inst) == Occupancy(data);
    assert AllNonNegative(inst.arrival);
    assert AllNonNegative(inst.dur);
    assert ValidBatch(inst);
    SerialScheduleAccepted(inst);
  }

  /** A table read off an accepted assignment keeps every vessel inside the
      quay and after its arrival, and any two vessels are apart in space or
      one completes its work at least two hours (both buffers) before the
      other's berth start. */
  lemma TableFeasible(data: ScriptData, values: Assignment, rows: seq<SolutionRow>)
    requires data.WellFormed() && data.N() > 0
    requires HasDimension(values, data.N()) && ScriptReports(data, values, rows)
    requires Accepts(ScriptInstance(data), values)
    ensures AllRowsApart(rows, BERTHING_BUFFER / 60.0 + DEPARTURE_BUFFER / 60.0)
    ensures forall i :: 0 <= i < |rows| ==>
      && rows[i].arrivalH <= rows[i].startH
      && rows[i].waitingH == rows[i].startH - rows[i].arrivalH
      && 0.0 <= rows[i].positionM
      && rows[i].endPositionM <= QUAY_LENGTH
  {
    var inst := ScriptInstance(data);
    SystemSound(inst, values);
    forall i | 0 <= i < |rows|
      ensures rows[i].arrivalH <= rows[i].startH
      ensures rows[i].waitingH == rows[i].startH - rows[i].arrivalH
      ensures 0.0 <= rows[i].positionM && rows[i].endPositionM <= QUAY_LENGTH
    {
      assert ScriptRowReports(data, values, rows[i], i);
      assert VesselRows(inst, values, i);
    }
    forall i, j | 0 <= i < |rows| && 0 <= j < |rows| && i != j
      ensures RowsApart(rows[i], rows[j], 2.0)
    {
      assert ScriptRowReports(data, values, rows[i], i);
      assert ScriptRowReports(data, values, rows[j], j);
      assert Separated(inst, values, i, j);
    }
  }

  // ---------------------------------------------------------------------------
  // The printed schedule.

  /** One printed line: ship number, arrival, berth start, work start, work
      end, berth end, waiting, position (times in minutes). */
  datatype ScheduleLine = ScheduleLine(
    shipNo: int, arrival: real, berthStart: real, workStart: real, workEnd: real,
    berthEnd: real, waiting: real, position: real)

  predicate LineReports(data: ScriptData, values: Assignment, line: ScheduleLine, i: nat)
    requires data.WellFormed() && i < data.N() && HasDimension(values, data.N())
  {
    && line.shipNo == i + 1
    && line.arrival == data.arrivalH[i] * 60.0
    && line.berthStart == values.t[i]
    && line.workStart == line.berthStart + BERTHING_BUFFER
    && line.workEnd == line.workStart + data.service[i]
    && line.berthEnd == line.berthStart + Occupancy(data)[i]
    && line.waiting == values.w[i]
    && line.position == values.p[i]
  }

  /** The lines printed for an optimal solution, one per vessel in order. */
  method ScheduleLines(data: ScriptData, values: Assignment) returns (lines: seq<ScheduleLine>)
    requires data.WellFormed() && HasDimension(values, data.N())
    ensures |lines| == data.N()
    ensures forall i :: 0 <= i < |lines| ==> LineReports(data, values, lines[i], i)
    ensures forall i :: 0 <= i < |lines| ==> lines[i].berthEnd == lines[i].workEnd + DEPARTURE_BUFFER
  {
    var occ := Occupancy(data);
    lines := [];
    var i := 0;
    while i < data.N()
      invariant 0 <= i <= data.N()
      invariant |lines| == i
      invariant forall k :: 0 <= k < i ==> LineReports(data, values, lines[k], k)
    {
      var berthStart := values.t[i];
      var workStart := berthStart + BERTHING_BUFFER;
      var workEnd := workStart + data.service[i];
      var berthEnd := berthStart + occ[i];
      lines := lines + [ScheduleLine(i + 1, data.arrivalH[i] * 60.0, berthStart, workStart, workEnd, berthEnd, values.w[i], values.p[i])];
      i := i + 1;
    }
  }

  /** For an accepted assignment, two printed lines whose quay intervals
      meet never have overlapping berth-start to berth-end intervals. */
  lemma ScheduleLinesApart(data: ScriptData, values: Assignment, lines: seq<ScheduleLine>, i: nat, j: nat)
    requires data.WellFormed() && data.N() > 0 && HasDimension(values, data.N())
    requires |lines| == data.N() && forall k :: 0 <= k < |lines| ==> LineReports(data, values, lines[k], k)
    requires Accepts(ScriptInstance(data), values)
    requires i < |lines| && j < |lines| && i != j
    ensures || lines[i].position + data.length[i] <= lines[j].position
            || lines[j].position + data.length[j] <= lines[i].position
            || lines[i].berthEnd <= lines[j].berthStart
            || lines[j].berthEnd <= lines[i].berthStart
  {
    var inst := ScriptInstance(data);
    SystemSound(inst, values);
    assert Separated(inst, values, i, j);
    assert LineReports(data, values, lines[i], i) && LineReports(data, values, lines[j], j);
  }

  /** makespan: the latest completion in the table, in hours. */
  function Makespan(rows: seq<SolutionRow>): (m: real)
    requires rows != []
    ensures forall i :: 0 <= i < |rows| ==> rows[i].completionH <= m
    ensures exists i :: 0 <= i < |rows| && rows[i].completionH == m
  {
    var completions := seq(|rows|, i requires 0 <= i < |rows| => rows[i].completionH);
    assert forall i :: 0 <= i < |rows| ==> completions[i] == rows[i].completionH;
    Max(completions)
  }
}
