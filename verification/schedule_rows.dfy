/** Schedule records as the crawlers read them from the terminal's berth
    schedule page. HTML is abstracted to tables of rows; a row is whether it
    holds a header cell, the text of its data cells, and its class list. This
    module holds what the three strict crawlers (backend, departed backup,
    submission utilities) share: the 14-column positional mapping, the
    two-pass row extraction with a status filter, and parse_schedule_data. */
module ScheduleRows {
  import opened Seqs
  import opened Text
  import opened SearchForm

  /** A crawled vessel record: column name to cleaned cell text. */
  type Record = map<string, string>

  const BERTH: string := "선석"
  const CARRIER: string := "선사"
  const VOYAGE: string := "모선항차"
  const CARRIER_VOYAGE: string := "선사항차"
  const NAME: string := "선명"
  const ROUTE: string := "항로"
  const CUTOFF: string := "반입마감시한"
  const BERTHING: string := "접안예정일시"
  const DEPARTURE: string := "출항예정일시"
  const DISCHARGE: string := "양하"
  const LOADING: string := "적하"
  const SHIFT: string := "Shift"
  const AMP: string := "AMP"
  const STATUS: string := "상태"

  /** The 14 columns of the schedule table, in order. */
  const FIELDS14: seq<string> := [BERTH, CARRIER, VOYAGE, CARRIER_VOYAGE, NAME, ROUTE, CUTOFF,
                                  BERTHING, DEPARTURE, DISCHARGE, LOADING, SHIFT, AMP, STATUS]

  /** A table row: whether it contains a th cell, the text of each td cell,
      and its class attribute. */
  datatype Row = Row(hasHeaderCell: bool, cells: seq<string>, classes: seq<string>)

  /** A table: how many tr elements it holds in all, the rows the extraction
      walks (those of its tbody when it has one), and its text. */
  datatype Table = Table(allRows: nat, rows: seq<Row>, text: string)

  /** A caption and the table that contains it, if any. */
  datatype Caption = Caption(text: string, parent: Option<Table>)

  /** What the table search looks at on a page: the first table inside the
      first div of class tblType_08 (absent when there is no such div or it
      holds no table), every caption, and every table, in document order. */
  datatype Page = Page(divTable: Option<Table>, captions: seq<Caption>, tables: seq<Table>)

  /** parse_schedule_data's two output shapes. */
  datatype ScheduleResult =
    | Json(success: bool, dataCount: int, period: string, scheduleData: seq<Record>, lastUpdated: string)
    | Listing(records: seq<Record>)

  predicate Distinct(keys: seq<string>)
  {
    forall i, j :: 0 <= i < j < |keys| ==> keys[i] != keys[j]
  }

  lemma Fields14Distinct()
    ensures Distinct(FIELDS14)
  {
  }

  /** keys[i] mapped to values[i] for the first n columns, one column at a
      time, so a repeated key would keep its later value. */
  function Columns(keys: seq<string>, values: seq<string>, n: nat): Record
    requires |values| == |keys| && n <= |keys|
  {
    if n == 0 then map[] else Columns(keys, values, n - 1)[keys[n - 1] := values[n - 1]]
  }

  /** With distinct keys no value is lost: column i holds values[i]. */
  lemma {:induction false} ColumnsAt(keys: seq<string>, values: seq<string>, n: nat, i: nat)
    requires Distinct(keys) && |values| == |keys| && i < n <= |keys|
    ensures keys[i] in Columns(keys, values, n) && Columns(keys, values, n)[keys[i]] == values[i]
    decreases n
  {
    if i < n - 1 {
      ColumnsAt(keys, values, n - 1, i);
    }
  }

  lemma {:induction false} ColumnsKeysUpTo(keys: seq<string>, values: seq<string>, n: nat)
    requires |values| == |keys| && n <= |keys|
    ensures Columns(keys, values, n).Keys == set i | 0 <= i < n :: keys[i]
    decreases n
  {
    if n > 0 {
      ColumnsKeysUpTo(keys, values, n - 1);
    }
  }

  /** The keys of a full mapping are the column names. */
  lemma ColumnsKeys(keys: seq<string>, values: seq<string>)
    requires |values| == |keys|
    ensures Columns(keys, values, |keys|).Keys == set k | k in keys
  {
    ColumnsKeysUpTo(keys, values, |keys|);
    assert forall k :: k in keys <==> exists i :: 0 <= i < |keys| && keys[i] == k;
  }

  /** Cells 0..13, cleaned. */
  function Cells14(cells: seq<string>): (v: seq<string>)
    requires |cells| >= 14
    ensures |v| == 14 && forall i :: 0 <= i < 14 ==> v[i] == CleanText(cells[i])
  {
    seq(14, i requires 0 <= i < 14 => CleanText(cells[i]))
  }

  /** _parse_vessel_row of the strict crawlers: cells 0..13, cleaned, under
      the 14 fixed column names in order. Fewer cells raise IndexError,
      modelled as None. */
  function ParseRow14(cells: seq<string>): (r: Option<Record>)
    ensures r.Some? <==> |cells| >= 14
  {
    if |cells| < 14 then None
    else Some(Columns(FIELDS14, Cells14(cells), 14))
  }

  /** A parsed row has exactly the 14 columns. */
  lemma ParseRow14Keys(cells: seq<string>)
    requires |cells| >= 14
    ensures ParseRow14(cells).value.Keys == set k | k in FIELDS14
  {
    ColumnsKeys(FIELDS14, Cells14(cells));
  }

  /** Column i of a parsed row is cell i, cleaned. */
  lemma ParseRow14At(cells: seq<string>, i: nat)
    requires |cells| >= 14 && i < 14
    ensures FIELDS14[i] in ParseRow14(cells).value
    ensures ParseRow14(cells).value[FIELDS14[i]] == CleanText(cells[i])
  {
    Fields14Distinct();
    ColumnsAt(FIELDS14, Cells14(cells), 14, i);
  }

  /** Where the named columns sit among the 14. */
  lemma FieldPositions()
    ensures FIELDS14[1] == CARRIER && FIELDS14[2] == VOYAGE && FIELDS14[4] == NAME && FIELDS14[13] == STATUS
  {
  }

  /** The name is cell 4 and the status cell 13, cleaned. */
  lemma NameAndStatusCells(cells: seq<string>)
    requires |cells| >= 14
    ensures NAME in ParseRow14(cells).value && ParseRow14(cells).value[NAME] == CleanText(cells[4])
    ensures STATUS in ParseRow14(cells).value && ParseRow14(cells).value[STATUS] == CleanText(cells[13])
  {
    FieldPositions();
    ParseRow14At(cells, 4);
    ParseRow14At(cells, 13);
  }

  /** The carrier is cell 1 and the vessel's voyage cell 2, cleaned. */
  lemma CarrierAndVoyageCells(cells: seq<string>)
    requires |cells| >= 14
    ensures CARRIER in ParseRow14(cells).value && ParseRow14(cells).value[CARRIER] == CleanText(cells[1])
    ensures VOYAGE in ParseRow14(cells).value && ParseRow14(cells).value[VOYAGE] == CleanText(cells[2])
  {
    FieldPositions();
    ParseRow14At(cells, 1);
    ParseRow14At(cells, 2);
  }

  // ---------------------------------------------------------------------------
  // _extract_vessel_data of the strict crawlers.

  /** A row containing a th is a header row; a row is kept when it has td cells. */
  predicate IsDataRow(r: Row)
  {
    !r.hasHeaderCell && r.cells != []
  }

  /** The first pass: the data rows, in order. */
  function DataRows(rows: seq<Row>): (d: seq<Row>)
    ensures forall k :: 0 <= k < |d| ==> IsDataRow(d[k])
  {
    if rows == [] then []
    else DataRows(rows[..|rows| - 1]) + (if IsDataRow(rows[|rows| - 1]) then [rows[|rows| - 1]] else [])
  }

  /** `vessel_data.get('선명', '').strip()` is non-empty and
      `vessel_data.get('상태')` is one of the wanted statuses. */
  predicate Wanted(rec: Record, statuses: set<string>)
  {
    && NAME in rec && Strip(rec[NAME]) != ""
    && STATUS in rec && rec[STATUS] in statuses
  }

  /** The second pass on one data row: the parsed record if it is wanted,
      nothing if it is not or if parsing raised. */
  function Kept(row: Row, statuses: set<string>): seq<Record>
  {
    match ParseRow14(row.cells)
    case None => []
    case Some(rec) => if Wanted(rec, statuses) then [rec] else []
  }

  function KeptAll(dataRows: seq<Row>, statuses: set<string>): seq<Record>
  {
    if dataRows == [] then []
    else KeptAll(dataRows[..|dataRows| - 1], statuses) + Kept(dataRows[|dataRows| - 1], statuses)
  }

  /** What extraction returns for a table's rows. */
  function Schedule(rows: seq<Row>, statuses: set<string>): seq<Record>
  {
    KeptAll(DataRows(rows), statuses)
  }

  /** The first pass of the extraction: the rows that have no th and at
      least one td, in table order. */
  method CollectDataRows(rows: seq<Row>) returns (dataRows: seq<Row>)
    ensures dataRows == DataRows(rows)
  {
    dataRows := [];
    var i := 0;
    while i < |rows|
      invariant 0 <= i <= |rows|
      invariant dataRows == DataRows(rows[..i])
    {
      assert rows[..i + 1][..i] == rows[..i];
      if !rows[i].hasHeaderCell && rows[i].cells != [] {
        dataRows := dataRows + [rows[i]];
      }
      i := i + 1;
    }
    assert rows[..|rows|] == rows;
  }

  /** Collects the data rows, then parses each one and keeps the wanted
      records in order. */
  method ExtractVesselData(rows: seq<Row>, statuses: set<string>) returns (data: seq<Record>)
    ensures data == Schedule(rows, statuses)
  {
    var dataRows := CollectDataRows(rows);
    data := [];
    var k := 0;
    while k < |dataRows|
      invariant 0 <= k <= |dataRows|
      invariant data == KeptAll(dataRows[..k], statuses)
    {
      assert dataRows[..k + 1][..k] == dataRows[..k];
      var parsed := ParseRow14(dataRows[k].cells);
      if parsed.Some? && Wanted(parsed.value, statuses) {
        data := data + [parsed.value];
      }
      k := k + 1;
    }
    assert dataRows[..|dataRows|] == dataRows;
  }

  lemma {:induction false} DataRowsAppend(a: seq<Row>, b: seq<Row>)
    ensures DataRows(a + b) == DataRows(a) + DataRows(b)
    decreases |b|
  {
    if b != [] {
      var b' := b[..|b| - 1];
      assert (a + b)[..|a + b| - 1] == a + b';
      DataRowsAppend(a, b');
    } else {
      assert a + b == a;
    }
  }

  lemma {:induction false} KeptAllAppend(a: seq<Row>, b: seq<Row>, statuses: set<string>)
    ensures KeptAll(a + b, statuses) == KeptAll(a, statuses) + KeptAll(b, statuses)
    decreases |b|
  {
    if b != [] {
      var b' := b[..|b| - 1];
      assert (a + b)[..|a + b| - 1] == a + b';
      KeptAllAppend(a, b', statuses);
    } else {
      assert a + b == a;
    }
  }

  /** Extraction works row by row: the records of two stretches of rows are
      those of the first followed by those of the second, so the original
      order is kept. */
  lemma ScheduleAppend(a: seq<Row>, b: seq<Row>, statuses: set<string>)
    ensures Schedule(a + b, statuses) == Schedule(a, statuses) + Schedule(b, statuses)
  {
    DataRowsAppend(a, b);
    KeptAllAppend(DataRows(a), DataRows(b), statuses);
  }

  /** The condition under which one data row yields its record. */
  predicate RowWanted(row: Row, statuses: set<string>)
  {
    |row.cells| >= 14 && HasContent(row.cells[4]) && CleanText(row.cells[13]) in statuses
  }

  lemma KeptIff(row: Row, statuses: set<string>)
    ensures Kept(row, statuses) == if RowWanted(row, statuses) then [ParseRow14(row.cells).value] else []
  {
    if |row.cells| >= 14 {
      NameAndStatusCells(row.cells);
      CleanTextNonEmpty(row.cells[4]);
    }
  }

  /** One row yields a record exactly when it has no th, has at least 14 td
      cells, its name cell holds a non-whitespace character and its cleaned
      status cell is a wanted status; the record is the 14-column mapping. */
  lemma ScheduleOfRow(row: Row, statuses: set<string>)
    ensures Schedule([row], statuses) ==
      if IsDataRow(row) && RowWanted(row, statuses) then [ParseRow14(row.cells).value] else []
  {
    assert [row][..0] == [];
    assert DataRows([row]) == if IsDataRow(row) then [row] else [];
    if IsDataRow(row) {
      assert KeptAll([row], statuses) == Kept(row, statuses);
      KeptIff(row, statuses);
    }
  }

  /** What every extracted record looks like. */
  predicate SoundRecord(r: Record, statuses: set<string>)
  {
    && r.Keys == (set k | k in FIELDS14)
    && NAME in r && r[NAME] != "" && Normalized(r[NAME])
    && STATUS in r && r[STATUS] in statuses
  }

  lemma SoundOfRow(row: Row, statuses: set<string>)
    ensures forall r :: r in Schedule([row], statuses) ==> SoundRecord(r, statuses)
  {
    ScheduleOfRow(row, statuses);
    if IsDataRow(row) && RowWanted(row, statuses) {
      ParseRow14Keys(row.cells);
      NameAndStatusCells(row.cells);
      CleanTextNormalized(row.cells[4]);
      CleanTextNonEmpty(row.cells[4]);
      StripOfNormalized(CleanText(row.cells[4]));
    }
  }

  /** Every extracted record has the 14 columns, a name that is non-empty
      and in clean form, and a wanted status. */
  lemma {:induction false} ScheduleSound(rows: seq<Row>, statuses: set<string>)
    ensures forall r :: r in Schedule(rows, statuses) ==> SoundRecord(r, statuses)
    decreases |rows|
  {
    if rows != [] {
      var front := rows[..|rows| - 1];
      var last := rows[|rows| - 1];
      assert rows == front + [last];
      ScheduleAppend(front, [last], statuses);
      ScheduleSound(front, statuses);
      SoundOfRow(last, statuses);
    } else {
      assert Schedule(rows, statuses) == [];
    }
  }

  // ---------------------------------------------------------------------------
  // parse_schedule_data of the strict crawlers.

  /** Looks for the tblType_08 table, extracts its records, and raises (an
      error here) when there is no table or no record; otherwise wraps the
      records for the 'json' format (with the period and the time stamp
      `now`) or returns them as they are. */
  method ParseScheduleData(page: Page, statuses: set<string>, format: string, start: string, end: string, now: string)
    returns (r: Result<ScheduleResult, string>)
    ensures r.Err? <==> page.divTable.None? || Schedule(page.divTable.value.rows, statuses) == []
    ensures r.Ok? && format == "json" ==>
      r.value == Json(true, |Schedule(page.divTable.value.rows, statuses)|, start + " ~ " + end,
                      Schedule(page.divTable.value.rows, statuses), now)
    ensures r.Ok? && format != "json" ==> r.value == Listing(Schedule(page.divTable.value.rows, statuses))
    ensures r.Ok? && r.value.Json? ==> r.value.dataCount == |r.value.scheduleData| > 0
  {
    match page.divTable {
      case None =>
        r := Err("No schedule table found");
      case Some(table) =>
        var data := ExtractVesselData(table.rows, statuses);
        if data == [] {
          r := Err("No vessel data extracted");
        } else if format == "json" {
          r := Ok(Json(true, |data|, start + " ~ " + end, data, now));
        } else {
          r := Ok(Listing(data));
        }
    }
  }

  /** The records of a result, in either shape. */
  function Records(result: ScheduleResult): seq<Record>
  {
    match result
    case Json(_, _, _, data, _) => data
    case Listing(records) => records
  }

  /** Python truthiness of what get_schedule_data returned: None and an empty
      list are falsy, a dict with entries is truthy. */
  predicate Truthy(crawled: Option<ScheduleResult>)
  {
    crawled.Some? && (crawled.value.Json? || crawled.value.records != [])
  }

  // ---------------------------------------------------------------------------
  // get_schedule_data and get_work_plan_data of the strict crawlers.

  /** What the first GET returned when its status was 200: the two date
      inputs (absent, or present with an optional value attribute), the
      hidden inputs of the form named submitForm (None when there is no such
      form), the page text the token is searched in, and its tables. */
  datatype InitialPage = InitialPage(
    startInput: Option<Option<string>>,
    endInput: Option<Option<string>>,
    submitForm: Option<seq<HiddenInput>>,
    text: string,
    content: Page)

  /** The page that ends up parsed: the first page when it already shows the
      requested dates, otherwise the reply to the posted search, if the form
      exists and the reply came back with status 200. */
  function FetchedPage(initial: Option<InitialPage>, searched: Option<Page>, start: string, end: string): Option<Page>
  {
    match initial
    case None => None
    case Some(p) =>
      if ShowsRequested(CurrentDateRange(p.startInput, p.endInput), start, end) then Some(p.content)
      else if p.submitForm.None? then None
      else searched
  }

  /** The records a fetched page yields, or none when there is no page or
      table. */
  function PageSchedule(page: Option<Page>, statuses: set<string>): seq<Record>
  {
    if page.Some? && page.value.divTable.Some? then Schedule(page.value.divTable.value.rows, statuses) else []
  }

  /** get_schedule_data: a failed first GET gives None; a page showing the
      requested dates is parsed as it is; otherwise the search form is
      posted (nothing is posted when the page has no submitForm) and the
      reply, if any, is parsed. Every exception of the parse (no table, no
      record) is caught and gives None. `token` is what the crawler found in
      the first page's text, `searched` the reply to the post, `now` the
      clock reading. */
  method GetScheduleData(initial: Option<InitialPage>, token: string, searched: Option<Page>, statuses: set<string>,
                         format: string, start: string, end: string, now: string)
    returns (result: Option<ScheduleResult>, posted: Option<Form>)
    ensures posted.Some? <==>
      initial.Some? && !ShowsRequested(CurrentDateRange(initial.value.startInput, initial.value.endInput), start, end)
      && initial.value.submitForm.Some?
    ensures posted.Some? ==> posted.value == TokenForm(start, end, token)
    ensures result.Some? <==> PageSchedule(FetchedPage(initial, searched, start, end), statuses) != []
    ensures result.Some? ==> Records(result.value) == PageSchedule(FetchedPage(initial, searched, start, end), statuses)
    ensures result.Some? ==> (result.value.Json? <==> format == "json")
    ensures Truthy(result) <==> result.Some?
  {
    posted := None;
    var page: Option<Page> := None;
    match initial {
      case None =>
      case Some(p) =>
        var current := CurrentDateRange(p.startInput, p.endInput);
        if current.start == start && current.end == end {
          page := Some(p.content);
        } else if p.submitForm.Some? {
          var form := BuildFormData(start, end, token);
          posted := Some(form);
          page := searched;
        }
    }
    result := None;
    if page.Some? {
      var parsed := ParseScheduleData(page.value, statuses, format, start, end, now);
      if parsed.Ok? {
        result := Some(parsed.value);
      }
    }
  }

  /** What get_work_plan_data hands back: the JSON wrapper, or the records
      as a table. */
  datatype WorkPlan = JsonPlan(wrapper: ScheduleResult) | Frame(frame: seq<Record>)

  /** get_work_plan_data of the backend and departed crawlers: crawl in the
      requested shape and raise ValueError when the crawl is falsy, in both
      the JSON and the table path. */
  method GetWorkPlanData(initial: Option<InitialPage>, token: string, searched: Option<Page>, statuses: set<string>,
                         format: string, start: string, end: string, now: string)
    returns (r: Result<WorkPlan, string>)
    ensures r.Err? <==> PageSchedule(FetchedPage(initial, searched, start, end), statuses) == []
    ensures r.Ok? && format == "json" ==>
      r.value.JsonPlan? && r.value.wrapper.Json?
      && r.value.wrapper.scheduleData == PageSchedule(FetchedPage(initial, searched, start, end), statuses)
    ensures r.Ok? && format != "json" ==>
      r.value == Frame(PageSchedule(FetchedPage(initial, searched, start, end), statuses))
  {
    if format == "json" {
      var crawled, _ := GetScheduleData(initial, token, searched, statuses, "json", start, end, now);
      if !Truthy(crawled) {
        r := Err("No data crawled");
      } else {
        r := Ok(JsonPlan(crawled.value));
      }
    } else {
      var crawled, _ := GetScheduleData(initial, token, searched, statuses, "list", start, end, now);
      if Truthy(crawled) {
        r := Ok(Frame(Records(crawled.value)));
      } else {
        r := Err("No data crawled or data is empty");
      }
    }
  }
}
