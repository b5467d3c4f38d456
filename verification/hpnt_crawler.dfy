/** The flexible crawler's page-level logic (crawl_hpnt.py): the three-step
    table search, the parse of the chosen table, the search request with
    the form's hidden inputs, the per-key summary counts, and the
    ARRIVED/PLANNED filter of get_work_plan_data. */
module HpntCrawler {
  import opened Seqs
  import opened Text
  import opened SearchForm
  import opened ScheduleRows
  import opened HpntRows
  import Maps

  // ---------------------------------------------------------------------------
  // _find_schedule_table

  /** A caption leads to its table when its text mentions both 선석 and 배정
      and it sits inside a table. */
  predicate CaptionHit(c: Caption)
  {
    Contains(c.text, BERTH) && Contains(c.text, "배정") && c.parent.Some?
  }

  /** The first caption from j on that leads to a table. */
  function FirstCaption(cs: seq<Caption>, j: nat): (k: Option<nat>)
    requires j <= |cs|
    ensures k.Some? ==> j <= k.value < |cs| && CaptionHit(cs[k.value])
                        && forall m :: j <= m < k.value ==> !CaptionHit(cs[m])
    ensures k.None? ==> forall m :: j <= m < |cs| ==> !CaptionHit(cs[m])
    decreases |cs| - j
  {
    if j == |cs| then None
    else if CaptionHit(cs[j]) then Some(j)
    else FirstCaption(cs, j + 1)
  }

  /** The words whose presence marks a vessel table. */
  const KEYWORDS: seq<string> := [NAME, CARRIER, BERTH, "접안", "출항"]

  /** How many of the keywords occur in a table's text. */
  function KeywordCount(text: string, keywords: seq<string>): (n: nat)
    ensures n <= |keywords|
  {
    if keywords == [] then 0
    else KeywordCount(text, keywords[..|keywords| - 1]) + (if Contains(text, keywords[|keywords| - 1]) then 1 else 0)
  }

  /** The count is the number of keyword positions whose word occurs. */
  lemma {:induction false} KeywordCountIsCardinality(text: string, keywords: seq<string>)
    ensures KeywordCount(text, keywords) == |set i | 0 <= i < |keywords| && Contains(text, keywords[i])|
    decreases |keywords|
  {
    if keywords != [] {
      var n := |keywords| - 1;
      var front := keywords[..n];
      KeywordCountIsCardinality(text, front);
      var a := set i | 0 <= i < n && Contains(text, front[i]);
      var b := set i | 0 <= i < |keywords| && Contains(text, keywords[i]);
      var extra: set<int> := if Contains(text, keywords[n]) then {n} else {};
      forall i: int
        ensures i in b <==> i in a + extra
      {
        if 0 <= i < n {
          assert front[i] == keywords[i];
        }
      }
      assert b == a + extra;
      assert n !in a;
    }
  }

  /** A table the third step accepts: more than 5 rows and at least 3 keywords. */
  predicate Eligible(t: Table)
  {
    t.allRows > 5 && KeywordCount(t.text, KEYWORDS) >= 3
  }

  /** The third step's pick: the first eligible table with the most rows,
      since a later table replaces the best only with strictly more rows. */
  function BestIndex(ts: seq<Table>): (b: Option<nat>)
    ensures b.None? <==> forall j :: 0 <= j < |ts| ==> !Eligible(ts[j])
    ensures b.Some? ==> b.value < |ts| && Eligible(ts[b.value])
    ensures b.Some? ==> forall j :: 0 <= j < |ts| && Eligible(ts[j]) ==> ts[j].allRows <= ts[b.value].allRows
    ensures b.Some? ==> forall j :: 0 <= j < b.value && Eligible(ts[j]) ==> ts[j].allRows < ts[b.value].allRows
  {
    if ts == [] then None
    else
      var n := |ts| - 1;
      var p := BestIndex(ts[..n]);
      assert forall j :: 0 <= j < n ==> ts[..n][j] == ts[j];
      var maxRows := if p.Some? then ts[p.value].allRows else 0;
      if ts[n].allRows > maxRows && Eligible(ts[n]) then Some(n) else p
  }

  /** The second step's pick: the table around the first matching caption. */
  function CaptionChoice(cs: seq<Caption>): Option<Table>
  {
    match FirstCaption(cs, 0)
    case Some(k) => cs[k].parent
    case None => None
  }

  /** The third step's pick as a table. */
  function BestChoice(ts: seq<Table>): Option<Table>
  {
    match BestIndex(ts)
    case Some(b) => Some(ts[b])
    case None => None
  }

  /** The table _find_schedule_table returns: the first table in the first
      tblType_08 div; else the table around the first matching caption;
      else the best eligible table; else none. */
  function ChosenTable(page: Page): Option<Table>
  {
    if page.divTable.Some? then page.divTable
    else if CaptionChoice(page.captions).Some? then CaptionChoice(page.captions)
    else BestChoice(page.tables)
  }

  /** The caption loop: returns at the first caption naming 선석 and 배정
      that has a parent table. */
  method ScanCaptions(captions: seq<Caption>) returns (t: Option<Table>)
    ensures t == CaptionChoice(captions)
  {
    var i := 0;
    while i < |captions|
      invariant 0 <= i <= |captions|
      invariant FirstCaption(captions, 0) == FirstCaption(captions, i)
    {
      var c := captions[i];
      if Contains(c.text, BERTH) && Contains(c.text, "배정") {
        if c.parent.Some? {
          return c.parent;
        }
      }
      i := i + 1;
    }
    return None;
  }

  /** The table loop with its running maximum of rows. */
  method ScanTables(tables: seq<Table>) returns (best: Option<Table>)
    ensures best == BestChoice(tables)
  {
    var maxRows := 0;
    best := None;
    ghost var bi: Option<nat> := None;
    var k := 0;
    while k < |tables|
      invariant 0 <= k <= |tables|
      invariant bi == BestIndex(tables[..k])
      invariant bi.Some? ==> bi.value < k
      invariant best == (if bi.Some? then Some(tables[bi.value]) else None)
      invariant maxRows == (if bi.Some? then tables[bi.value].allRows else 0)
    {
      BestIndexStep(tables, k);
      var table := tables[k];
      if table.allRows > maxRows && table.allRows > 5 {
        var count := KeywordCount(table.text, KEYWORDS);
        if count >= 3 {
          maxRows := table.allRows;
          best := Some(table);
          bi := Some(k);
        }
      }
      k := k + 1;
    }
    assert tables[..|tables|] == tables;
  }

  /** One more table: it becomes the pick only when eligible with strictly
      more rows than the pick so far. */
  lemma BestIndexStep(ts: seq<Table>, k: nat)
    requires k < |ts|
    ensures var p := BestIndex(ts[..k]);
      BestIndex(ts[..k + 1]) ==
        if ts[k].allRows > (if p.Some? then ts[p.value].allRows else 0) && Eligible(ts[k]) then Some(k) else p
  {
    assert ts[..k + 1][..k] == ts[..k];
    var p := BestIndex(ts[..k]);
    assert p.Some? ==> ts[..k][p.value] == ts[p.value];
  }

  /** The three steps in turn. */
  method FindScheduleTable(page: Page) returns (t: Option<Table>)
    ensures t == ChosenTable(page)
  {
    if page.divTable.Some? {
      return page.divTable;
    }
    t := ScanCaptions(page.captions);
    if t.Some? {
      return t;
    }
    t := ScanTables(page.tables);
  }

  /** The div comes first, then a matching caption; the fallback returns a
      table of the page that is eligible and has no fewer rows than any
      other eligible one, and nothing at all only when no step finds one. */
  lemma ChosenTableSpec(page: Page)
    ensures ChosenTable(page).None? <==>
      page.divTable.None? && (forall m :: 0 <= m < |page.captions| ==> !CaptionHit(page.captions[m]))
      && (forall j :: 0 <= j < |page.tables| ==> !Eligible(page.tables[j]))
    ensures page.divTable.None? && FirstCaption(page.captions, 0).None? && ChosenTable(page).Some? ==>
      ChosenTable(page).value in page.tables && Eligible(ChosenTable(page).value)
      && forall j :: 0 <= j < |page.tables| && Eligible(page.tables[j]) ==>
           page.tables[j].allRows <= ChosenTable(page).value.allRows
  {
  }

  // ---------------------------------------------------------------------------
  // parse_schedule_data and get_schedule_data

  /** The records the flexible crawler extracts from a page; [] when no
      table is found. */
  function ChosenSchedule(page: Option<Page>): seq<Record>
  {
    if page.Some? && ChosenTable(page.value).Some? then FlexibleSchedule(ChosenTable(page.value).value.rows) else []
  }

  /** parse_schedule_data of the flexible crawler: None when no table is
      found or no vessel is extracted; otherwise the JSON wrapper or the
      bare list. */
  method ParseScheduleData(page: Page, format: string, start: string, end: string, now: string)
    returns (r: Option<ScheduleResult>)
    ensures r.None? <==> ChosenSchedule(Some(page)) == []
    ensures r.Some? && format == "json" ==>
      r.value == Json(true, |ChosenSchedule(Some(page))|, start + " ~ " + end, ChosenSchedule(Some(page)), now)
    ensures r.Some? && format != "json" ==> r.value == Listing(ChosenSchedule(Some(page)))
  {
    var table := FindScheduleTable(page);
    if table.None? {
      return None;
    }
    var data := HpntRows.ExtractVesselData(table.value.rows);
    if data == [] {
      return None;
    }
    if format == "json" {
      r := Some(Json(true, |data|, start + " ~ " + end, data, now));
    } else {
      r := Some(Listing(data));
    }
  }

  /** get_schedule_data of the flexible crawler. The search, when one is
      needed, posts the strict crawler's form plus the search form's hidden
      inputs; the page obtained is parsed as above. */
  method GetScheduleData(initial: Option<InitialPage>, token: string, searched: Option<Page>,
                         format: string, start: string, end: string, now: string)
    returns (result: Option<ScheduleResult>, posted: Option<Form>)
    ensures posted.Some? <==>
      initial.Some? && !ShowsRequested(CurrentDateRange(initial.value.startInput, initial.value.endInput), start, end)
      && initial.value.submitForm.Some?
    ensures posted.Some? ==> posted.value == AddHidden(TokenForm(start, end, token), initial.value.submitForm.value)
    ensures result.Some? <==> ChosenSchedule(FetchedPage(initial, searched, start, end)) != []
    ensures result.Some? ==> Records(result.value) == ChosenSchedule(FetchedPage(initial, searched, start, end))
    ensures result.Some? ==> (result.value.Json? <==> format == "json")
  {
    posted := None;
    var page: Option<Page> := None;
    match initial {
      case None =>
      case Some(p) =>
        var current := CurrentDateRange(p.startInput, p.endInput);
        if current.start == start && current.end == end {
          page := Some(p.content);
        } else if p.submitForm.Some? {
          var form := BuildFormDataWithHidden(start, end, token, p.submitForm.value);
          posted := Some(form);
          page := searched;
        }
    }
    result := None;
    if page.Some? {
      result := ParseScheduleData(page.value, format, start, end, now);
    }
  }

  // ---------------------------------------------------------------------------
  // get_summary

  /** `vessel.get(key, 'Unknown')`. */
  function Lookup(rec: Record, key: string): string
  {
    if key in rec then rec[key] else "Unknown"
  }

  /** `counter[v] = counter.get(v, 0) + 1`. */
  function Bump(m: map<string, nat>, v: string): map<string, nat>
  {
    m[v := (if v in m then m[v] else 0) + 1]
  }

  /** The counter for one key: how many records carry each value. */
  function Tally(recs: seq<Record>, key: string): map<string, nat>
  {
    if recs == [] then map[]
    else
      Bump(Tally(recs[..|recs| - 1], key), Lookup(recs[|recs| - 1], key))
  }

  /** How many records have the value v under key (an independent count). */
  function Occurrences(recs: seq<Record>, key: string, v: string): nat
  {
    if recs == [] then 0
    else Occurrences(recs[..|recs| - 1], key, v) + (if Lookup(recs[|recs| - 1], key) == v then 1 else 0)
  }

  /** The counter holds exactly the values that occur, each with its number
      of occurrences. */
  lemma {:induction false} TallyCounts(recs: seq<Record>, key: string, v: string)
    ensures v in Tally(recs, key) <==> Occurrences(recs, key, v) > 0
    ensures v in Tally(recs, key) ==> Tally(recs, key)[v] == Occurrences(recs, key, v)
    decreases |recs|
  {
    if recs != [] {
      TallyCounts(recs[..|recs| - 1], key, v);
    }
  }

  /** The counts of one counter add up to the number of records. */
  lemma {:induction false} TallyTotal(recs: seq<Record>, key: string)
    ensures Maps.SumValues(Tally(recs, key)) == |recs|
    decreases |recs|
  {
    if recs != [] {
      var m := Tally(recs[..|recs| - 1], key);
      TallyTotal(recs[..|recs| - 1], key);
      Maps.Increment(m, Lookup(recs[|recs| - 1], key));
    } else {
      assert Tally(recs, key) == map[];
    }
  }

  /** One more record raises its value's count by one. */
  lemma TallyStep(recs: seq<Record>, i: nat, key: string)
    requires i < |recs|
    ensures Tally(recs[..i + 1], key) == Bump(Tally(recs[..i], key), Lookup(recs[i], key))
  {
    assert recs[..i + 1][..i] == recs[..i];
  }

  /** get_summary's result: the vessel count and the three counters. */
  datatype Summary = Summary(total: nat, byBerth: map<string, nat>, byStatus: map<string, nat>, byCarrier: map<string, nat>)

  /** Counts per berth, status and carrier in one pass; None for no data.
      Each counter adds up to the vessel count. */
  method GetSummary(data: ScheduleResult) returns (s: Option<Summary>)
    ensures s.None? <==> Records(data) == []
    ensures s.Some? ==> s.value == Summary(|Records(data)|, Tally(Records(data), BERTH),
                                           Tally(Records(data), STATUS), Tally(Records(data), CARRIER))
    ensures s.Some? ==> Maps.SumValues(s.value.byBerth) == s.value.total
                        && Maps.SumValues(s.value.byStatus) == s.value.total
                        && Maps.SumValues(s.value.byCarrier) == s.value.total
  {
    var recs := Records(data);
    if recs == [] {
      return None;
    }
    var berths: map<string, nat> := map[];
    var statuses: map<string, nat> := map[];
    var carriers: map<string, nat> := map[];
    var i := 0;
    while i < |recs|
      invariant 0 <= i <= |recs|
      invariant berths == Tally(recs[..i], BERTH)
      invariant statuses == Tally(recs[..i], STATUS)
      invariant carriers == Tally(recs[..i], CARRIER)
    {
      TallyStep(recs, i, BERTH);
      TallyStep(recs, i, STATUS);
      TallyStep(recs, i, CARRIER);
      var vessel := recs[i];
      berths := Bump(berths, Lookup(vessel, BERTH));
      statuses := Bump(statuses, Lookup(vessel, STATUS));
      carriers := Bump(carriers, Lookup(vessel, CARRIER));
      i := i + 1;
    }
    assert recs[..|recs|] == recs;
    s := Some(Summary(|recs|, berths, statuses, carriers));
    TallyTotal(recs, BERTH);
    TallyTotal(recs, STATUS);
    TallyTotal(recs, CARRIER);
  }

  // ---------------------------------------------------------------------------
  // get_work_plan_data

  /** The statuses get_work_plan_data keeps. */
  const ACTIVE: set<string> := {ARRIVED, PLANNED}

  /** `df[df['상태'].isin(statuses)]`: the records whose status is one of
      the statuses, in their order. */
  function WithStatus(recs: seq<Record>, statuses: set<string>): seq<Record>
  {
    if recs == [] then []
    else
      var r := recs[|recs| - 1];
      WithStatus(recs[..|recs| - 1], statuses) + (if STATUS in r && r[STATUS] in statuses then [r] else [])
  }

  /** The filter keeps exactly the records with a wanted status and works
      record by record, so it keeps their order. */
  lemma {:induction false} WithStatusSpec(recs: seq<Record>, statuses: set<string>)
    ensures forall r :: r in WithStatus(recs, statuses) <==> r in recs && STATUS in r && r[STATUS] in statuses
    ensures |WithStatus(recs, statuses)| <= |recs|
    decreases |recs|
  {
    if recs != [] {
      var front := recs[..|recs| - 1];
      WithStatusSpec(front, statuses);
      assert recs == front + [recs[|recs| - 1]];
    }
  }

  lemma {:induction false} WithStatusAppend(a: seq<Record>, b: seq<Record>, statuses: set<string>)
    ensures WithStatus(a + b, statuses) == WithStatus(a, statuses) + WithStatus(b, statuses)
    decreases |b|
  {
    if b != [] {
      var b' := b[..|b| - 1];
      assert (a + b)[..|a + b| - 1] == a + b';
      WithStatusAppend(a, b', statuses);
    } else {
      assert a + b == a;
    }
  }

  /** get_work_plan_data of the flexible crawler: the list crawl, then the
      ARRIVED and PLANNED records; None when the crawl gave nothing. */
  method GetWorkPlanData(initial: Option<InitialPage>, token: string, searched: Option<Page>,
                         start: string, end: string, now: string)
    returns (frame: Option<seq<Record>>)
    ensures frame.None? <==> ChosenSchedule(FetchedPage(initial, searched, start, end)) == []
    ensures frame.Some? ==> frame.value == WithStatus(ChosenSchedule(FetchedPage(initial, searched, start, end)), ACTIVE)
    ensures frame.Some? ==> forall r :: r in frame.value ==> STATUS in r && r[STATUS] in ACTIVE
  {
    var resultData, _ := GetScheduleData(initial, token, searched, "list", start, end, now);
    if resultData.Some? && resultData.value.Listing? && resultData.value.records != [] {
      frame := Some(WithStatus(resultData.value.records, ACTIVE));
      WithStatusSpec(resultData.value.records, ACTIVE);
    } else {
      frame := None;
    }
  }
}
