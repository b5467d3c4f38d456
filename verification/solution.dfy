/** What every variant hands back after a solve: the solver's verdict, the
    result table with one row per vessel, and what it means for two rows not
    to clash. Also the table-building loop shared by the two standalone
    scripts, which label vessels Ship_1, Ship_2, ... and report arrivals in
    hours as given. */
module BerthSolution {
  import opened Seqs
  import opened Text
  import opened BerthModel

  /** The solver's verdict, with the variable values when it is optimal. */
  datatype Outcome = Optimal(values: Assignment) | Infeasible | OtherStatus(code: int)

  /** One row of the result table (Ship, 모선항차 where reported, Ship_ID,
      Arrival_h, Start_h, Completion_h, Waiting_h, Service_min, Service_h,
      Length_m, Position_m, End_Position_m). */
  datatype SolutionRow = SolutionRow(
    ship: string,
    voyage: Option<string>,
    shipId: int,
    arrivalH: real,
    startH: real,
    completionH: real,
    waitingH: real,
    serviceMin: real,
    serviceH: real,
    lengthM: real,
    positionM: real,
    endPositionM: real)

  /** The solver's values have one entry per vessel and N x N indicators. */
  predicate HasDimension(a: Assignment, n: nat)
  {
    && |a.t| == n && |a.p| == n && |a.w| == n && |a.x| == n && |a.y| == n
    && (forall i :: 0 <= i < n ==> |a.x[i]| == n && |a.y[i]| == n)
  }

  /** Two rows do not clash: their quay intervals are disjoint, or one
      completes at least `gapH` hours before the other starts. */
  predicate RowsApart(r: SolutionRow, q: SolutionRow, gapH: real)
  {
    || r.endPositionM <= q.positionM
    || q.endPositionM <= r.positionM
    || r.completionH + gapH <= q.startH
    || q.completionH + gapH <= r.startH
  }

  predicate AllRowsApart(rows: seq<SolutionRow>, gapH: real)
  {
    forall i, j :: 0 <= i < |rows| && 0 <= j < |rows| && i != j ==> RowsApart(rows[i], rows[j], gapH)
  }

  /** Ship_ID strictly increases down the table (it is sorted by Ship_ID). */
  predicate SortedById(rows: seq<SolutionRow>)
  {
    forall i, j :: 0 <= i < j < |rows| ==> rows[i].shipId < rows[j].shipId
  }

  // ---------------------------------------------------------------------------
  // The standalone scripts' data and table.

  /** A script's hard-coded lists: work time in minutes, arrival in hours,
      length in metres. */
  datatype ScriptData = ScriptData(service: seq<real>, arrivalH: seq<real>, length: seq<real>)
  {
    predicate WellFormed()
    {
      |service| == |arrivalH| == |length|
    }

    function N(): nat
    {
      |service|
    }

    /** a_i_minutes: every arrival times 60. */
    function ArrivalMinutes(): (m: seq<real>)
      ensures |m| == |arrivalH|
      ensures forall i :: 0 <= i < |m| ==> m[i] == arrivalH[i] * 60.0
    {
      seq(|arrivalH|, i requires 0 <= i < |arrivalH| => arrivalH[i] * 60.0)
    }

    /** Every length fits the quay and no time is negative. */
    predicate Valid(quay: real)
    {
      && WellFormed() && 0.0 <= quay
      && AllNonNegative(service) && AllNonNegative(arrivalH)
      && (forall i :: 0 <= i < |length| ==> 0.0 <= length[i] <= quay)
    }
  }

  /** f'Ship_{i+1}'. */
  function ShipLabel(i: nat): string
  {
    "Ship_" + Decimal(i + 1)
  }

  /** What row i of a script's table reports about vessel i and the values. */
  predicate ScriptRowReports(data: ScriptData, values: Assignment, r: SolutionRow, i: nat)
    requires data.WellFormed() && i < data.N() && HasDimension(values, data.N())
  {
    && r.ship == ShipLabel(i)
    && r.voyage == None
    && r.shipId == i + 1
    && r.arrivalH == data.arrivalH[i]
    && r.startH * 60.0 == values.t[i]
    && r.waitingH * 60.0 == values.w[i]
    && r.serviceMin == data.service[i]
    && r.serviceH * 60.0 == data.service[i]
    && r.completionH == r.startH + r.serviceH
    && r.lengthM == data.length[i]
    && r.positionM == values.p[i]
    && r.endPositionM == r.positionM + r.lengthM
  }

  predicate ScriptReports(data: ScriptData, values: Assignment, rows: seq<SolutionRow>)
    requires data.WellFormed() && HasDimension(values, data.N())
  {
    |rows| == data.N() && forall i :: 0 <= i < |rows| ==> ScriptRowReports(data, values, rows[i], i)
  }

  /** On an optimal verdict, one row per vessel in Ship_ID order, every
      label distinct; on any other verdict, no table. */
  method TabulateScript(data: ScriptData, outcome: Outcome) returns (table: Option<seq<SolutionRow>>)
    requires data.WellFormed()
    requires outcome.Optimal? ==> HasDimension(outcome.values, data.N())
    ensures table.Some? <==> outcome.Optimal?
    ensures table.Some? ==> ScriptReports(data, outcome.values, table.value)
    ensures table.Some? ==> SortedById(table.value)
    ensures table.Some? ==> forall i, j :: 0 <= i < j < |table.value| ==> table.value[i].ship != table.value[j].ship
  {
    match outcome {
      case Optimal(values) =>
        var rows: seq<SolutionRow> := [];
        var i := 0;
        while i < data.N()
          invariant 0 <= i <= data.N()
          invariant |rows| == i
          invariant forall k :: 0 <= k < i ==> ScriptRowReports(data, values, rows[k], k)
        {
          var startMinutes := values.t[i];
          var completionMinutes := startMinutes + data.service[i];
          var positionM := values.p[i];
          var row := SolutionRow(
            ShipLabel(i), None, i + 1, data.arrivalH[i],
            startMinutes / 60.0, completionMinutes / 60.0, values.w[i] / 60.0,
            data.service[i], data.service[i] / 60.0,
            data.length[i], positionM, positionM + data.length[i]);
          rows := rows + [row];
          i := i + 1;
        }
        forall i, j | 0 <= i < j < |rows|
          ensures rows[i].ship != rows[j].ship
        {
          LabelsDistinct("Ship_", i + 1, j + 1);
        }
        table := Some(rows);
      case Infeasible =>
        table := None;
      case OtherStatus(_) =>
        table := None;
    }
  }
}
