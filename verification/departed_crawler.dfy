/** The departed-vessel crawler (backup/crawl_hpnt_departed.py): the strict
    14-column extraction keeping only DEPARTED vessels, the nine-field
    search form without hidden inputs, and a get_work_plan_data that raises
    on an empty crawl. */
module DepartedCrawler {
  import opened Seqs
  import opened ScheduleRows

  /** The only status this crawler keeps. */
  const DEPARTED_ONLY: set<string> := {"DEPARTED"}

  /** get_work_plan_data of the departed crawler: the JSON wrapper or the
      frame of DEPARTED records, and an error when the crawl gave nothing. */
  method GetWorkPlanData(initial: Option<InitialPage>, token: string, searched: Option<Page>,
                         format: string, start: string, end: string, now: string)
    returns (r: Result<WorkPlan, string>)
    ensures r.Err? <==> PageSchedule(FetchedPage(initial, searched, start, end), DEPARTED_ONLY) == []
    ensures r.Ok? && format != "json" ==>
      r.value == Frame(PageSchedule(FetchedPage(initial, searched, start, end), DEPARTED_ONLY))
    ensures r.Ok? && format == "json" ==>
      r.value.JsonPlan? && r.value.wrapper.Json?
      && r.value.wrapper.scheduleData == PageSchedule(FetchedPage(initial, searched, start, end), DEPARTED_ONLY)
    ensures r.Ok? ==> forall rec :: rec in PageSchedule(FetchedPage(initial, searched, start, end), DEPARTED_ONLY) ==>
      STATUS in rec && rec[STATUS] == "DEPARTED" && NAME in rec && rec[NAME] != ""
  {
    r := ScheduleRows.GetWorkPlanData(initial, token, searched, DEPARTED_ONLY, format, start, end, now);
    var page := FetchedPage(initial, searched, start, end);
    if page.Some? && page.value.divTable.Some? {
      ScheduleSound(page.value.divTable.value.rows, DEPARTED_ONLY);
    }
  }
}
