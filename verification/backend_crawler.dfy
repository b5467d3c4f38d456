/** The backend's crawler (backend/crawling.py): the strict 14-column
    extraction keeping ARRIVED and PLANNED vessels, and its CSRF token
    search, which only accepts a token in the textual UUID layout of
    section 3 of RFC 4122 (hex groups of 8-4-4-4-12 separated by hyphens). */
module BackendCrawler {
  import opened Seqs
  import opened Text
  import opened SearchForm
  import ScheduleRows

  /** The statuses the backend keeps. */
  const ACTIVE: set<string> := {"ARRIVED", "PLANNED"}

  // ---------------------------------------------------------------------------
  // The token pattern
  //   name \s* : \s* quote CSRF_TOKEN quote .*? value \s* : \s* quote (uuid)
  // searched with re.search and DOTALL, so `.` also crosses line breaks.

  predicate IsHex(c: char)
  {
    ('0' <= c <= '9') || ('a' <= c <= 'f') || ('A' <= c <= 'F')
  }

  predicate IsQuote(c: char)
  {
    c == '"' || c == '\''
  }

  /** Hyphens at 8, 13, 18 and 23, hex digits elsewhere, 36 characters. */
  predicate IsUuid(t: string)
  {
    && |t| == 36
    && (forall i :: 0 <= i < 36 ==>
          if i == 8 || i == 13 || i == 18 || i == 23 then t[i] == '-' else IsHex(t[i]))
  }

  /** 36 UUID-shaped characters start at q. */
  predicate UuidAt(s: string, q: nat)
  {
    q + 36 <= |s| && IsUuid(s[q..q + 36])
  }

  predicate LiteralAt(s: string, i: nat, lit: string)
  {
    i + |lit| <= |s| && s[i..i + |lit|] == lit
  }

  /** Where a greedy `\s*` starting at i stops. */
  function SkipSpaces(s: string, i: nat): (j: nat)
    requires i <= |s|
    ensures i <= j <= |s|
    ensures forall k :: i <= k < j ==> IsSpace(s[k])
    ensures j == |s| || !IsSpace(s[j])
    decreases |s| - i
  {
    if i == |s| || !IsSpace(s[i]) then i else SkipSpaces(s, i + 1)
  }

  /** `\s* : \s* quote` from i: the position just after the quote. A shorter
      run of spaces would leave a space where the colon or the quote must
      be, so the greedy run is the only way to match. */
  function ColonQuoteEnd(s: string, i: nat): Option<nat>
    requires i <= |s|
  {
    var a := SkipSpaces(s, i);
    if a < |s| && s[a] == ':' then
      var b := SkipSpaces(s, a + 1);
      if b < |s| && IsQuote(s[b]) then Some(b + 1) else None
    else None
  }

  /** The `name ... CSRF_TOKEN quote` part matched at i: where it ends. */
  function NamePartEnd(s: string, i: nat): (e: Option<nat>)
    ensures e.Some? ==> i < e.value <= |s|
  {
    if !LiteralAt(s, i, "name") then None
    else
      match ColonQuoteEnd(s, i + 4)
      case None => None
      case Some(q) =>
        if LiteralAt(s, q, "CSRF_TOKEN") && q + 10 < |s| && IsQuote(s[q + 10]) then Some(q + 11) else None
  }

  /** The `value ... quote (uuid)` part matched at j: where the captured
      36 characters start. */
  function ValueAt(s: string, j: nat): (q: Option<nat>)
    ensures q.Some? ==> UuidAt(s, q.value)
  {
    if !LiteralAt(s, j, "value") then None
    else
      match ColonQuoteEnd(s, j + 5)
      case None => None
      case Some(q) =>
        if UuidAt(s, q) then Some(q) else None
  }

  /** The first position k in j..n where `hit` reports something, and what
      it reports there. The regex engine tries positions in this order both
      for the start of a match and for the lazy `.*?`. */
  function FirstHit(hit: nat -> Option<nat>, j: nat, n: nat): (q: Option<nat>)
    requires j <= n
    ensures q.None? <==> forall k :: j <= k <= n ==> hit(k).None?
    ensures q.Some? ==> exists k :: j <= k <= n && hit(k) == q && forall m :: j <= m < k ==> hit(m).None?
    decreases n - j
  {
    if hit(j).Some? then hit(j)
    else if j == n then None
    else FirstHit(hit, j + 1, n)
  }

  /** A position with a hit guarantees a first hit at or before it. */
  lemma FirstHitFound(hit: nat -> Option<nat>, j: nat, n: nat, k: nat)
    requires j <= k <= n && hit(k).Some?
    ensures FirstHit(hit, j, n).Some?
  {
  }

  /** The lazy `.*?` from e: the value part at the nearest position that has one. */
  function LazyValue(s: string, e: nat): (q: Option<nat>)
    requires e <= |s|
    ensures q.Some? ==> UuidAt(s, q.value)
  {
    FirstHit((k: nat) => ValueAt(s, k), e, |s|)
  }

  /** The whole pattern tried at start position i. */
  function MatchAt(s: string, i: nat): (q: Option<nat>)
    ensures q.Some? ==> UuidAt(s, q.value)
  {
    match NamePartEnd(s, i)
    case None => None
    case Some(e) => LazyValue(s, e)
  }

  /** re.search: the match at the leftmost start position that has one. */
  function Search(s: string): (q: Option<nat>)
    ensures q.Some? ==> UuidAt(s, q.value)
  {
    FirstHit((i: nat) => MatchAt(s, i), 0, |s|)
  }

  /** _extract_csrf_token_from_page: group 1 of the first match, '' when
      the page has none. */
  function ExtractCsrfToken(page: string): (token: string)
  {
    match Search(page)
    case Some(q) => page[q..q + 36]
    case None => ""
  }

  /** The token is either '' or UUID-shaped, and a non-empty token is text
      of the page. */
  lemma TokenShape(page: string)
    ensures ExtractCsrfToken(page) == "" || IsUuid(ExtractCsrfToken(page))
    ensures ExtractCsrfToken(page) != "" ==> Contains(page, ExtractCsrfToken(page))
  {
    var r := Search(page);
    if r.Some? {
      assert OccursAt(page, ExtractCsrfToken(page), r.value);
    }
  }

  /** Whenever a name part is followed anywhere later by a UUID-shaped
      value part, a token is found; it comes from the leftmost start that
      matches, and from the nearest value part after that start's name part. */
  lemma TokenFound(page: string, i: nat, j: nat)
    requires NamePartEnd(page, i).Some? && NamePartEnd(page, i).value <= j <= |page|
    requires ValueAt(page, j).Some?
    ensures ExtractCsrfToken(page) != ""
    ensures exists k :: 0 <= k <= i && MatchAt(page, k) == Search(page)
                        && forall m :: 0 <= m < k ==> MatchAt(page, m).None?
  {
    var e := NamePartEnd(page, i).value;
    FirstHitFound((k: nat) => ValueAt(page, k), e, |page|, j);
    assert LazyValue(page, e).Some?;
    assert MatchAt(page, i).Some?;
    FirstHitFound((k: nat) => MatchAt(page, k), 0, |page|, i);
    var q := Search(page);
    assert q == FirstHit((k: nat) => MatchAt(page, k), 0, |page|);
    assert q.Some?;
    assert ExtractCsrfToken(page) == page[q.value..q.value + 36];
    var hit := (k: nat) => MatchAt(page, k);
    var k :| 0 <= k <= |page| && hit(k) == q && forall m :: 0 <= m < k ==> hit(m).None?;
    assert hit(i).Some?;
    forall m | 0 <= m < k
      ensures MatchAt(page, m).None?
    {
      assert hit(m).None?;
    }
    assert MatchAt(page, k) == Search(page);
  }

  /** A page with no UUID-shaped value part anywhere yields ''. */
  lemma NoUuidNoToken(page: string)
    requires forall j :: 0 <= j <= |page| ==> ValueAt(page, j).None?
    ensures ExtractCsrfToken(page) == ""
  {
    forall i: nat | i <= |page|
      ensures MatchAt(page, i).None?
    {
      if NamePartEnd(page, i).Some? {
        var e := NamePartEnd(page, i).value;
        assert LazyValue(page, e) == FirstHit((k: nat) => ValueAt(page, k), e, |page|);
      }
    }
    assert Search(page) == FirstHit((k: nat) => MatchAt(page, k), 0, |page|);
  }

  // ---------------------------------------------------------------------------
  // get_work_plan_data.

  /** get_work_plan_data of the backend: the token comes from the first
      page's text, the records kept are the ARRIVED and PLANNED ones, and an
      empty crawl raises in both the JSON and the table path. */
  method GetWorkPlanData(initial: Option<ScheduleRows.InitialPage>, searched: Option<ScheduleRows.Page>,
                         format: string, start: string, end: string, now: string)
    returns (r: Result<ScheduleRows.WorkPlan, string>)
    ensures r.Err? <==>
      ScheduleRows.PageSchedule(ScheduleRows.FetchedPage(initial, searched, start, end), ACTIVE) == []
    ensures r.Ok? && format != "json" ==>
      r.value == ScheduleRows.Frame(ScheduleRows.PageSchedule(ScheduleRows.FetchedPage(initial, searched, start, end), ACTIVE))
    ensures r.Ok? && format == "json" ==>
      r.value.JsonPlan? && r.value.wrapper.Json?
      && r.value.wrapper.scheduleData == ScheduleRows.PageSchedule(ScheduleRows.FetchedPage(initial, searched, start, end), ACTIVE)
    ensures r.Ok? && r.value.Frame? ==>
      forall rec :: rec in r.value.frame ==> ScheduleRows.STATUS in rec && rec[ScheduleRows.STATUS] in ACTIVE
  {
    var token := if initial.Some? then ExtractCsrfToken(initial.value.text) else "";
    r := ScheduleRows.GetWorkPlanData(initial, token, searched, ACTIVE, format, start, end, now);
    var page := ScheduleRows.FetchedPage(initial, searched, start, end);
    if page.Some? && page.value.divTable.Some? {
      ScheduleRows.ScheduleSound(page.value.divTable.value.rows, ACTIVE);
    }
  }
}
