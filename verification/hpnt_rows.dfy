/** The flexible crawler's row handling (crawl_hpnt.py): the status read
    from a row's CSS classes, the row parse that accepts 14 columns or
    fewer, and the extraction that keeps every named vessel with at least 10
    cells, whatever its status. */
module HpntRows {
  import opened Seqs
  import opened Text
  import opened ScheduleRows

  const DEPARTED: string := "DEPARTED"
  const ARRIVED: string := "ARRIVED"
  const PLANNED: string := "PLANNED"

  /** _get_vessel_status: the first of color_departed, color_arrived,
      color_planned found among the classes decides; '' when none is. */
  function VesselStatus(classes: seq<string>): (s: string)
    ensures s == DEPARTED <==> "color_departed" in classes
    ensures s == ARRIVED <==> "color_departed" !in classes && "color_arrived" in classes
    ensures s == PLANNED <==> "color_departed" !in classes && "color_arrived" !in classes && "color_planned" in classes
    ensures s == "" <==> "color_departed" !in classes && "color_arrived" !in classes && "color_planned" !in classes
  {
    if "color_departed" in classes then DEPARTED
    else if "color_arrived" in classes then ARRIVED
    else if "color_planned" in classes then PLANNED
    else ""
  }

  /** The nine columns mapped when a row has fewer than 14 cells. Note that
      the status is then read from cell 8. */
  const FIELDS9: seq<string> := [BERTH, CARRIER, VOYAGE, CARRIER_VOYAGE, NAME, ROUTE, BERTHING, DEPARTURE, STATUS]

  lemma Fields9Distinct()
    ensures Distinct(FIELDS9)
  {
  }

  /** Where the name and status sit among the nine. */
  lemma Fields9Positions()
    ensures FIELDS9[4] == NAME && FIELDS9[8] == STATUS
  {
  }

  /** Cell i cleaned, or '' when the row has no cell i. */
  function Cell(cells: seq<string>, i: nat): string
  {
    if i < |cells| then CleanText(cells[i]) else ""
  }

  /** The cells read for the nine columns. */
  function Cells9(cells: seq<string>): (v: seq<string>)
    ensures |v| == 9
  {
    seq(9, i requires 0 <= i < 9 => Cell(cells, i))
  }

  /** The nine-column mapping before the status fallback. */
  function Fallback9(cells: seq<string>): Record
  {
    Columns(FIELDS9, Cells9(cells), 9)
  }

  /** Column i of the nine-column mapping is cell i, or ''. */
  lemma Fallback9At(cells: seq<string>, i: nat)
    requires i < 9
    ensures FIELDS9[i] in Fallback9(cells) && Fallback9(cells)[FIELDS9[i]] == Cell(cells, i)
  {
    Fields9Distinct();
    ColumnsAt(FIELDS9, Cells9(cells), 9, i);
  }

  /** `a or b` on strings. */
  function Or(a: string, b: string): string
  {
    if a != "" then a else b
  }

  /** _parse_vessel_row of the flexible crawler. */
  function FlexibleRecord(row: Row): Record
  {
    var status := VesselStatus(row.classes);
    if |row.cells| >= 14 then
      ParseRow14(row.cells).value[STATUS := Or(CleanText(row.cells[13]), status)]
    else
      Fallback9(row.cells)[STATUS := Or(Cell(row.cells, 8), status)]
  }

  /** The loop over the nine column names: cell i under name i, '' past
      the last cell. */
  method MapNineColumns(cells: seq<string>) returns (rec: Record)
    ensures rec == Fallback9(cells)
  {
    ghost var values := Cells9(cells);
    rec := map[];
    var i := 0;
    while i < 9
      invariant 0 <= i <= 9
      invariant rec == Columns(FIELDS9, values, i)
    {
      var v := if i < |cells| then CleanText(cells[i]) else "";
      assert v == values[i];
      rec := rec[FIELDS9[i] := v];
      i := i + 1;
    }
  }

  /** Parses one row: 14 columns when it has at least 14 cells, with the
      status cell falling back to the class status when it is empty;
      otherwise the nine columns, '' for a missing cell, with the same
      fallback. */
  method ParseVesselRow(row: Row) returns (rec: Record)
    ensures rec == FlexibleRecord(row)
  {
    var status := VesselStatus(row.classes);
    var cells := row.cells;
    if |cells| >= 14 {
      var cleaned := CleanText(cells[13]);
      rec := ParseRow14(cells).value[STATUS := if cleaned != "" then cleaned else status];
    } else {
      rec := MapNineColumns(cells);
      Fields9Positions();
      Fallback9At(cells, 8);
      if rec[STATUS] == "" {
        rec := rec[STATUS := status];
      }
    }
  }

  /** Both shapes carry the name from cell 4 and a status that is the
      cleaned status cell (13, or 8 for short rows) unless that is empty,
      in which case it is the class status. A full row has the 14 columns,
      a short one the nine. */
  lemma FlexibleRecordFields(row: Row)
    ensures NAME in FlexibleRecord(row) && FlexibleRecord(row)[NAME] == Cell(row.cells, 4)
    ensures STATUS in FlexibleRecord(row)
    ensures FlexibleRecord(row)[STATUS] ==
      Or(Cell(row.cells, if |row.cells| >= 14 then 13 else 8), VesselStatus(row.classes))
    ensures |row.cells| >= 14 ==> FlexibleRecord(row).Keys == set k | k in FIELDS14
    ensures |row.cells| < 14 ==> FlexibleRecord(row).Keys == set k | k in FIELDS9
  {
    if |row.cells| >= 14 {
      NameAndStatusCells(row.cells);
      ParseRow14Keys(row.cells);
    } else {
      Fields9Positions();
      Fallback9At(row.cells, 4);
      Fallback9At(row.cells, 8);
      ColumnsKeys(FIELDS9, Cells9(row.cells));
    }
  }

  // ---------------------------------------------------------------------------
  // _extract_vessel_data of the flexible crawler.

  /** The second pass on one data row: rows with fewer than 10 cells are
      skipped; otherwise the parsed record is kept when its stripped name
      is non-empty. */
  function KeptFlexible(row: Row): seq<Record>
  {
    if |row.cells| < 10 then []
    else
      var rec := FlexibleRecord(row);
      if NAME in rec && Strip(rec[NAME]) != "" then [rec] else []
  }

  function KeptAllFlexible(dataRows: seq<Row>): seq<Record>
  {
    if dataRows == [] then []
    else KeptAllFlexible(dataRows[..|dataRows| - 1]) + KeptFlexible(dataRows[|dataRows| - 1])
  }

  /** What the flexible extraction returns for a table's rows. */
  function FlexibleSchedule(rows: seq<Row>): seq<Record>
  {
    KeptAllFlexible(DataRows(rows))
  }

  /** Collects the data rows, then parses every one with at least 10 cells
      and keeps the named ones in order. */
  method ExtractVesselData(rows: seq<Row>) returns (data: seq<Record>)
    ensures data == FlexibleSchedule(rows)
  {
    var dataRows := CollectDataRows(rows);
    data := [];
    var k := 0;
    while k < |dataRows|
      invariant 0 <= k <= |dataRows|
      invariant data == KeptAllFlexible(dataRows[..k])
    {
      assert dataRows[..k + 1][..k] == dataRows[..k];
      var row := dataRows[k];
      if |row.cells| >= 10 {
        var rec := ParseVesselRow(row);
        if NAME in rec && Strip(rec[NAME]) != "" {
          data := data + [rec];
        }
      }
      k := k + 1;
    }
    assert dataRows[..|dataRows|] == dataRows;
  }

  lemma {:induction false} KeptAllFlexibleAppend(a: seq<Row>, b: seq<Row>)
    ensures KeptAllFlexible(a + b) == KeptAllFlexible(a) + KeptAllFlexible(b)
    decreases |b|
  {
    if b != [] {
      var b' := b[..|b| - 1];
      assert (a + b)[..|a + b| - 1] == a + b';
      KeptAllFlexibleAppend(a, b');
    } else {
      assert a + b == a;
    }
  }

  /** The extraction works row by row, so it keeps the table's order. */
  lemma FlexibleScheduleAppend(a: seq<Row>, b: seq<Row>)
    ensures FlexibleSchedule(a + b) == FlexibleSchedule(a) + FlexibleSchedule(b)
  {
    DataRowsAppend(a, b);
    KeptAllFlexibleAppend(DataRows(a), DataRows(b));
  }

  /** One row yields a record exactly when it has no th, at least 10 td
      cells and a non-blank name cell; there is no status filter here. */
  lemma FlexibleScheduleOfRow(row: Row)
    ensures FlexibleSchedule([row]) ==
      if IsDataRow(row) && |row.cells| >= 10 && HasContent(row.cells[4]) then [FlexibleRecord(row)] else []
  {
    assert [row][..0] == [];
    assert DataRows([row]) == if IsDataRow(row) then [row] else [];
    if IsDataRow(row) {
      assert KeptAllFlexible([row]) == KeptFlexible(row);
      if |row.cells| >= 10 {
        FlexibleRecordFields(row);
        CleanTextNonEmpty(row.cells[4]);
      }
    }
  }

  /** What every record of the flexible extraction looks like: a name that
      is non-empty and clean, and a status entry (which cell or class it
      comes from is stated row by row in FlexibleRecordFields). */
  predicate FlexibleSound(r: Record)
  {
    && NAME in r && r[NAME] != "" && Normalized(r[NAME])
    && STATUS in r
  }

  lemma FlexibleSoundOfRow(row: Row)
    ensures forall r :: r in FlexibleSchedule([row]) ==> FlexibleSound(r)
  {
    FlexibleScheduleOfRow(row);
    if IsDataRow(row) && |row.cells| >= 10 && HasContent(row.cells[4]) {
      FlexibleRecordFields(row);
      CleanTextNormalized(row.cells[4]);
      CleanTextNonEmpty(row.cells[4]);
      StripOfNormalized(CleanText(row.cells[4]));
    }
  }

  /** Every extracted record has a non-empty name in clean form and a status. */
  lemma {:induction false} FlexibleScheduleSound(rows: seq<Row>)
    ensures forall r :: r in FlexibleSchedule(rows) ==> FlexibleSound(r)
    decreases |rows|
  {
    if rows != [] {
      var front := rows[..|rows| - 1];
      var last := rows[|rows| - 1];
      assert rows == front + [last];
      FlexibleScheduleAppend(front, [last]);
      FlexibleScheduleSound(front);
      FlexibleSoundOfRow(last);
    } else {
      assert FlexibleSchedule(rows) == [];
    }
  }
}
