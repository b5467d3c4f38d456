# Berth allocation and schedule crawling: a verified model

This project models the core of the BAIPOT berth-planning tool in Dafny. The tool plans ships on the 1150 m quay of the HPNT container terminal. It has four parts.

**Berth allocation.** Each vessel gets:
- a start time `t`;
- a quay position `p`;
- a waiting time `w`;
- for each pair of vessels, the binary indicators `x` (left of) and `y` (before).

Big-M rows force every pair of vessels apart, either along the quay or in time. The code hands this system to Gurobi and decodes the optimal point into one table row per vessel. There are three copies of the system:
- `run_milp_model` in the backend and in the submission utilities. Its pair rows run over ordered pairs, with a 60-minute buffer between vessels.
- The `milp_bap.py` script. Its pair rows run over unordered pairs. Each vessel's berth occupancy is 60 + service + 60 minutes.
- The `baipot_milp.py` script. It has no buffer, and it declares each of its constraint families twice.

The model writes the constraint set as a predicate over an assignment, with exact `real` arithmetic in minutes. It treats the solver as a parameter: a status plus an assignment. It proves the following:
- **Soundness.** Every accepted assignment keeps each pair of vessels apart in space or in time.
- **Decoding.** The table decoded from an optimal point reports exactly that assignment, row *i* for vessel *i*.
- **Feasibility.** A serial schedule is always accepted whenever the time Big-M covers it.

**Schedule crawling.** There are four copies of the HPNT schedule crawler:
- `crawl_hpnt.py`;
- `backend/crawling.py`;
- `backup/crawl_hpnt_departed.py`;
- the one in `submission/utils.py`.

They fetch the berth schedule page, post a search form when the page shows other dates, pick the schedule table, and turn each table row into a record of named fields. The model takes a page as already parsed: a table is a sequence of rows, and each row has its cell texts, a header flag and its CSS classes. The model covers:
- whitespace cleaning (`clean_text`);
- positional field mapping, in a 14-column form and a flexible 9-column form;
- the status taken from the row's CSS class;
- status filters;
- search-form assembly, where hidden inputs never override base fields;
- table selection;
- the per-key summary counts;
- the UUID-shaped CSRF token search;
- the deduplication and merge key of the submission utilities.

**New ships.** `check_new_ships.py` reports each crawled vessel name that the ship-info file does not list yet, with its carrier, in ascending name order.

**Ship data.** `backend/generate_ship_data.py` groups the rows of the ship-info CSV by carrier.

## Model

| member | source | states |
|---|---|---|
| Seqs.Max | milp_bap.py:68 | `max` of a non-empty list is an upper bound attained by some element |
| Seqs.Min | backend/optimization.py:17 | `min` of a non-empty column is a lower bound attained by some element |
| Seqs.PrefixSumGrows | milp_bap.py:68 | with non-negative terms, a longer prefix sum dominates a shorter one plus the next term (why the serial horizon fits under M_time) |
| Seqs.SumPair | backend/optimization.py:43 | the sum of a two-element list is the sum of the two |
| Maps.RemoveOne | crawl_hpnt.py:437-448 | removing a present key shrinks a counter map by one |
| Maps.SumValuesRemove | crawl_hpnt.py:437-448 | the total of a counter map is the removed key's count plus the rest |
| Maps.Increment | crawl_hpnt.py:440 | `d[k] = d.get(k, 0) + 1` raises the total of all counts by exactly one |
| Text.LStrip | crawl_hpnt.py:400 | the result is a suffix of the input, everything cut is whitespace, and it does not start with whitespace |
| Text.RStrip | crawl_hpnt.py:400 | the result is a prefix of the input, everything cut is whitespace, and it does not end with whitespace |
| Text.StripIdempotent | backend/generate_ship_data.py:20 | stripping twice is stripping once |
| Text.RemoveSpaces | submission/utils.py:351 | `re.sub(r'\s+', '', ·)` leaves no whitespace and never lengthens the text |
| Text.TakeWord | crawl_hpnt.py:400 | the first word is a whitespace-free prefix ending at whitespace or at the end |
| Text.Words | crawl_hpnt.py:400 | the words of a text are non-empty and whitespace-free |
| Text.WordsLStrip | crawl_hpnt.py:400 | leading whitespace does not change the words |
| Text.TakeWordSpaceSuffix | crawl_hpnt.py:400 | text after whitespace does not change the first word |
| Text.WordsOfSpaces | crawl_hpnt.py:400 | an all-whitespace text has no words |
| Text.WordsSpaceSuffix | crawl_hpnt.py:400 | trailing whitespace does not change the words |
| Text.WordsSpaceTail | crawl_hpnt.py:400 | cutting an all-whitespace tail does not change the words |
| Text.WordsStrip | crawl_hpnt.py:400 | `strip()` does not change the words |
| Text.CollapseWord | crawl_hpnt.py:400 | collapsing whitespace runs leaves a leading word in place |
| Text.CollapseIsJoin | crawl_hpnt.py:400 | on a stripped text, replacing each whitespace run by one space equals joining its words with single spaces |
| Text.AfterWord | crawl_hpnt.py:400 | after the first word of a stripped text, the collapsed rest is one space followed by the collapsed remainder |
| Text.JoinCons | crawl_hpnt.py:400 | joining a word in front of a non-empty list puts one space between |
| Text.CleanTextIsSplitJoin | crawl_hpnt.py:397-401 | `clean_text(s)` equals `' '.join(s.split())`, with falsy input giving '' |
| Text.JoinNormalized | crawl_hpnt.py:397-401 | joining proper words gives a text with no leading, trailing or doubled whitespace, empty exactly when there are no words |
| Text.CleanTextNormalized | backend/crawling.py:255-259 | `clean_text` output has no leading, trailing or adjacent whitespace and is '' exactly when the input is all whitespace |
| Text.StripOfNormalized | crawl_hpnt.py:331 | `.strip()` of cleaned text is itself |
| Text.CleanTextNonEmpty | crawl_hpnt.py:331 | a cleaned cell passes the `.strip()` test exactly when the raw cell has a non-whitespace character |
| Text.WordsHasNonSpace | crawl_hpnt.py:400 | a text with a non-whitespace character has a word |
| Text.RemoveSpacesAppend | submission/utils.py:351 | removing whitespace distributes over concatenation |
| Text.RemoveSpacesOfWord | submission/utils.py:351 | removing whitespace from a word changes nothing |
| Text.RemoveSpacesOfSpaces | submission/utils.py:351 | removing whitespace from whitespace leaves nothing |
| Text.RemoveSpacesIsConcatWords | submission/utils.py:351 | removing whitespace is concatenating the words |
| Text.RemoveSpacesOfJoin | submission/utils.py:351 | removing whitespace from joined words concatenates them |
| Text.CleanTextKeepsContent | backend/crawling.py:255-259 | `clean_text` only changes whitespace: with all whitespace removed, input and output are equal |
| Text.WordsOfJoin | crawl_hpnt.py:400 | splitting joined proper words gives them back |
| Text.WordsOfWord | crawl_hpnt.py:400 | a word followed by whitespace or nothing splits off as the first word |
| Text.TakeWordOfWord | crawl_hpnt.py:400 | the first word of a word is itself |
| Text.CleanTextIdempotent | backup/crawl_hpnt_departed.py:300-306 | applying `clean_text` twice changes nothing |
| Text.Decimal | milp_bap.py:126 | `str(n)` of a natural number is a non-empty string of ASCII digits |
| Text.DecimalRoundTrip | milp_bap.py:126 | reading the digits of `str(n)` gives back n |
| Text.LabelsDistinct | milp_bap.py:126 | `f'Ship_{i+1}'` labels of different vessels differ |
| BerthModel.PairSeparated | backend/optimization.py:46-54 | with 0/1 indicators and the separation row, the four pair rows force quay intervals apart or time intervals apart, the gap included |
| BerthModel.SystemSound | milp_bap.py:72-83 | unordered pair rows plus separation keep every pair of distinct vessels apart in space or time |
| BerthModel.OrderedIsUnordered | backend/optimization.py:46-52 | rows over all ordered pairs i≠j hold exactly when the rows over pairs i<j hold |
| BerthModel.SpatialFamiliesCoincide | baipot_milp.py:65-71 | over all ordered pairs the `spatial_right` family holds exactly when `spatial_left` does |
| BerthModel.TemporalFamiliesCoincide | baipot_milp.py:73-79 | over all ordered pairs the `temporal_after` family holds exactly when `temporal_before` does |
| BerthModel.FamiliesAreOrderedSystem | baipot_milp.py:65-79 | the two declared families together are the ordered pair system |
| BerthModel.IdleSpatialRowHolds | backend/optimization.py:49 | with `x[i,j] = 0`, fit-in-quay and `p_j ≥ 0`, the spatial row holds, so `M_space = 2·1150` never cuts off a point |
| BerthModel.Steps | milp_bap.py:68 | the serial schedule has one step per vessel |
| BerthModel.SerialAssignment | milp_bap.py:68 | the serial schedule has the dimensions of the instance |
| BerthModel.SumNonNegative | milp_bap.py:68 | prefix sums of non-negative durations are non-negative |
| BerthModel.SerialVessel | milp_bap.py:59-68 | in the serial schedule each vessel starts at or after its arrival, and it ends within M_time when M_time covers the serial horizon |
| BerthModel.SerialPair | milp_bap.py:79-80 | in the serial schedule an earlier vessel and its gap end before a later one starts |
| BerthModel.SerialScheduleAccepted | milp_bap.py:59-83 | when M_time covers the serial horizon, the serial schedule satisfies every row, in both the ordered and the unordered pair systems |
| BerthSolution.ScriptData.ArrivalMinutes | milp_bap.py:25 | `a_i_minutes` is each arrival hour times 60 |
| BerthSolution.TabulateScript | milp_bap.py:112-143 | only OPTIMAL gives a table; it has one row per vessel in Ship_ID order with `Ship_{i+1}` names that are distinct; completion is start + service, and end position is position + length |
| MilpBap.Occupancy | milp_bap.py:28 | each vessel occupies its berth for 60 + service + 60 minutes |
| MilpBap.ScriptInstance | milp_bap.py:14-69 | the script's instance has one vessel per data entry, arrivals in minutes, each vessel's occupancy (buffers plus work) as its duration, no further gap, and `M_time` = total occupancy + latest arrival |
| MilpBap.DataValid | milp_bap.py:14-17 | the script's 10 vessels have matching list lengths, non-negative data and lengths within the quay |
| MilpBap.FeasibleAsWritten | milp_bap.py:68-83 | with `M_time` = Σ occupancy + max arrival, the serial schedule is accepted, so the script's system is never infeasible on valid data |
| MilpBap.TableFeasible | milp_bap.py:116-137 | a table decoded from an accepted point keeps vessels in the quay and after arrival, and keeps any two apart in space or by two hours plus service in time |
| MilpBap.ScheduleLines | milp_bap.py:96-105 | the printed schedule has work start = berth start + 60, work end = work start + service, and berth end = work end + 60 |
| MilpBap.ScheduleLinesApart | milp_bap.py:72-83 | for an accepted point, two printed lines are apart on the quay or their berth intervals do not overlap |
| MilpBap.Makespan | milp_bap.py:150 | makespan is a completion time, and no completion time exceeds it |
| BaipotMilp.ScriptInstance | baipot_milp.py:10-63 | the script's instance has one vessel per data entry, arrivals in minutes, work time alone as duration, no buffer, and `M_time` = total work + latest arrival |
| BaipotMilp.FamiliesArePairLoop | baipot_milp.py:53-83 | the script's duplicated families accept the same points as the i<j pair system |
| BaipotMilp.DataValid | baipot_milp.py:10-12 | the script's data is well formed and valid for the quay |
| BaipotMilp.ServiceNonNegative | baipot_milp.py:10 | 30 service times, none negative |
| BaipotMilp.ArrivalNonNegative | baipot_milp.py:11 | 30 arrival hours, none negative |
| BaipotMilp.LengthsFit | baipot_milp.py:12 | 30 lengths, each within the 1150 m quay |
| BaipotMilp.FeasibleAsWritten | baipot_milp.py:62-83 | with `M_time` = Σ service + max arrival and no buffer, the serial schedule is accepted |
| BaipotMilp.TableFeasible | baipot_milp.py:88-113 | a decoded table from an accepted point keeps vessels in the quay and after arrival, and keeps any two apart in space or time with no buffer |
| Optimization.ArrivalOffsets | backend/optimization.py:17-18 | offsets are non-negative, some vessel of a non-empty batch has offset 0, and offset differences equal berthing-time differences |
| Optimization.MTimeAsWritten | backend/optimization.py:43 | `M_time` is Σ service with no arrivals, otherwise Σ service plus the largest offset |
| Optimization.AsWrittenInstance | submission/utils.py:465-502 | the instance built from a batch has one vessel per row |
| Optimization.CorrectedInstance | backend/optimization.py:43 | the corrected instance's `M_time` is the serial horizon, with one buffer per vessel |
| Optimization.ReportedScheduleFeasible | backend/optimization.py:39-54 | rows decoded from an accepted point have arrival ≤ start, waiting = start − arrival, and 0 ≤ position ≤ end ≤ 1150; any two rows are apart in space or by one hour in time |
| Optimization.DecodeRows | backend/optimization.py:60-86 | the decoding loop gives row i for vessel i: Ship_ID i+1, start, waiting, completion = start + service, end = position + length, and the voyage in the submission copy |
| Optimization.ReportsOrdered | backend/optimization.py:79-86 | decoded rows are sorted by Ship_ID, and in the backend `Service_h` gives back the predicted work time |
| Optimization.RunMilpModel | submission/utils.py:518-557 | an error (the KeyError of `sort_values('Ship_ID')` on a column-less frame) exactly when the status is OPTIMAL and the batch is empty; otherwise a table exactly when the status is OPTIMAL, one row per vessel, decoded row by row and sorted by Ship_ID; if the solver is sound for the instance, the table's vessels are pairwise apart |
| Optimization.ScenarioTwoInstance | submission/utils.py:501 | for two 800 m vessels arriving together with 60 min service, `M_time` is 120 as written and 240 when corrected |
| Optimization.ScenarioTwoPairFacts | submission/utils.py:507-512 | in that instance neither vessel can be left of the other, so they must be an hour apart in time within M_time |
| Optimization.ScenarioTwoInfeasibleAsWritten | submission/utils.py:501-512 | as written, no assignment is accepted, so a sound solver never reports OPTIMAL and the function returns None |
| Optimization.ScenarioTwoSerialWaits | backend/optimization.py:36 | the corrected serial schedule waits 0 and 120 minutes |
| Optimization.ScenarioTwoCorrectedSerial | backend/optimization.py:36-54 | with the corrected M_time, the serial schedule is accepted with total waiting 120 |
| Optimization.ScenarioTwoCorrectedOptimum | backend/optimization.py:36 | with the corrected M_time, every accepted assignment waits at least 120 minutes, so 120 is the optimum |
| Optimization.CorrectedModelAlwaysFeasible | backend/optimization.py:39-54 | with the corrected M_time, any valid batch has an accepted assignment |
| Optimization.ScenarioOneInstance | submission/utils.py:465-502 | two vessels of 300 m and 400 m arriving together give the expected instance |
| Optimization.ScenarioOneSideBySide | backend/optimization.py:39-54 | those two vessels berth side by side at once, accepted with zero waiting |
| Optimization.SideBySideRows | backend/optimization.py:46-52 | the side-by-side assignment satisfies the common rows and the pair rows |
| SearchForm.TokenFormFields | backend/crawling.py:124-141 | the base form has exactly the 9 fixed fields; CSRF_TOKEN is added exactly when the token is non-empty and changes no base field |
| SearchForm.BuildFormData | backup/crawl_hpnt_departed.py:140-168 | `_build_form_data` returns the 9 fields with the requested dates, plus CSRF_TOKEN exactly when the token is non-empty, and no hidden fields |
| SearchForm.AddHiddenKeeps | crawl_hpnt.py:174-183 | hidden inputs add only their names and never change a field already present |
| SearchForm.FirstHiddenWins | crawl_hpnt.py:178-182 | the first hidden input with a new name sets its value, and later ones with that name do not replace it |
| SearchForm.BuildFormDataWithHidden | crawl_hpnt.py:155-192 | the form keys are the base fields, the token when non-empty, and the named hidden inputs; base fields and the token keep their values |
| SearchForm.InputValue | backend/crawling.py:66-74 | a missing input gives '', and a non-empty value comes from the input |
| SearchForm.CurrentDateRange | backup/crawl_hpnt_departed.py:64-74 | a missing start or end input gives '', and any non-empty date is that input's value |
| SearchForm.SearchDecision | backend/crawling.py:49-56 | the page is reused exactly when both inputs show the requested dates; otherwise a search is posted |
| ScheduleRows.Fields14Distinct | backend/crawling.py:236-251 | the 14 field names are distinct |
| ScheduleRows.ColumnsAt | backend/crawling.py:236-251 | with distinct keys, field i of the record holds value i |
| ScheduleRows.ColumnsKeysUpTo | backend/crawling.py:236-251 | the first n columns give exactly the first n keys |
| ScheduleRows.ColumnsKeys | backend/crawling.py:236-251 | the record's keys are the field names |
| ScheduleRows.Cells14 | backend/crawling.py:236-251 | the 14 values are the cleaned texts of cells 0–13 |
| ScheduleRows.ParseRow14 | backend/crawling.py:234-253 | parsing succeeds exactly when the row has at least 14 cells; a shorter row raises |
| ScheduleRows.ParseRow14Keys | backend/crawling.py:234-253 | a parsed record has exactly the 14 keys |
| ScheduleRows.ParseRow14At | backend/crawling.py:234-253 | field i of a parsed record is the cleaned text of cell i |
| ScheduleRows.FieldPositions | backend/crawling.py:237-250 | 선사, 모선항차, 선명 and 상태 are fields 1, 2, 4 and 13 |
| ScheduleRows.NameAndStatusCells | backend/crawling.py:240-250 | 선명 comes from cell 4 and 상태 from cell 13 |
| ScheduleRows.CarrierAndVoyageCells | submission/utils.py:260-261 | 선사 comes from cell 1 and 모선항차 from cell 2 |
| ScheduleRows.DataRows | backend/crawling.py:208-216 | every kept row is a data row: it has no `th` and has a `td` |
| ScheduleRows.CollectDataRows | backend/crawling.py:208-216 | the first loop collects exactly the data rows, in order |
| ScheduleRows.ExtractVesselData | backend/crawling.py:204-232 | the second loop yields exactly the parsed records of data rows with a non-empty 선명 and an allowed 상태, in order; rows that raise are skipped |
| ScheduleRows.DataRowsAppend | backend/crawling.py:212-216 | data-row selection distributes over concatenation |
| ScheduleRows.KeptAllAppend | backend/crawling.py:219-230 | record selection distributes over concatenation |
| ScheduleRows.ScheduleAppend | backend/crawling.py:204-232 | extraction distributes over concatenation, so the order of the table is kept |
| ScheduleRows.KeptIff | backend/crawling.py:222-230 | a data row yields its record exactly when it parses, its 선명 is non-blank and its 상태 is allowed |
| ScheduleRows.ScheduleOfRow | backend/crawling.py:204-232 | a single row yields its record exactly when it is a data row that passes the filter |
| ScheduleRows.SoundOfRow | backend/crawling.py:224-225 | a record from one row has 14 keys, a non-blank 선명 and an allowed 상태 |
| ScheduleRows.ScheduleSound | backend/crawling.py:204-232 | every extracted record has a non-blank 선명 and an allowed 상태 |
| ScheduleRows.ParseScheduleData | backend/crawling.py:167-192 | raises when there is no table or no record, otherwise gives the JSON wrapper with data_count = number of records, or the bare list |
| ScheduleRows.GetScheduleData | backend/crawling.py:29-107 | posts the token form only when the page shows other dates and has a submitForm; the result holds exactly the records of the page used, and any error gives None |
| ScheduleRows.GetWorkPlanData | backend/crawling.py:281-297 | an empty crawl raises in both paths; otherwise the JSON wrapper or the frame of exactly those records |
| BackendCrawler.SkipSpaces | backend/crawling.py:113 | `\s*` skips exactly a maximal whitespace run |
| BackendCrawler.NamePartEnd | backend/crawling.py:113 | a match of the name part ends after its start |
| BackendCrawler.ValueAt | backend/crawling.py:113 | a value match captures a UUID-shaped string |
| BackendCrawler.FirstHit | backend/crawling.py:113 | the lazy `.*?` takes the first position that matches, and only finds nothing when none does |
| BackendCrawler.FirstHitFound | backend/crawling.py:113 | if some position matches, the lazy search finds one |
| BackendCrawler.LazyValue | backend/crawling.py:113 | any value the lazy search captures is UUID-shaped |
| BackendCrawler.MatchAt | backend/crawling.py:113 | a match at a position captures a UUID-shaped string |
| BackendCrawler.Search | backend/crawling.py:115 | `re.search` captures a UUID-shaped string when it matches |
| BackendCrawler.TokenShape | backend/crawling.py:109-122 | the token is '' or 36 characters in the hex 8-4-4-4-12 layout of section 3 of RFC 4122, and it occurs in the page |
| BackendCrawler.TokenFound | backend/crawling.py:113-119 | if the pattern matches anywhere, a token is returned, taken from the leftmost match |
| BackendCrawler.NoUuidNoToken | backend/crawling.py:121-122 | with no UUID-shaped value after the name part, the token is '' |
| BackendCrawler.GetWorkPlanData | backend/crawling.py:281-297 | `get_work_plan_data` with the token found in the page: only ARRIVED or PLANNED records, and an empty crawl raises |
| DepartedCrawler.GetWorkPlanData | backup/crawl_hpnt_departed.py:328-366 | only records with a non-blank 선명 and 상태 DEPARTED; an empty crawl raises |
| HpntRows.VesselStatus | crawl_hpnt.py:386-395 | the row class gives DEPARTED before ARRIVED before PLANNED, otherwise '', with each case an if-and-only-if |
| HpntRows.Fields9Distinct | crawl_hpnt.py:371 | the 9 short field names are distinct |
| HpntRows.Fields9Positions | crawl_hpnt.py:371 | 선명 and 상태 are short fields 4 and 8 |
| HpntRows.Cells9 | crawl_hpnt.py:374-378 | there are exactly 9 short values |
| HpntRows.Fallback9At | crawl_hpnt.py:374-378 | short field i is the cleaned cell i, or '' past the last cell |
| HpntRows.MapNineColumns | crawl_hpnt.py:371-381 | the mapping loop builds the short record |
| HpntRows.ParseVesselRow | crawl_hpnt.py:344-384 | `_parse_vessel_row` gives the 14-field record for 14+ cells and the 9-field one otherwise |
| HpntRows.FlexibleRecordFields | crawl_hpnt.py:344-384 | 선명 is cell 4; 상태 is the status cell or, when that is empty, the class status; the keys are the 14 or the 9 field names |
| HpntRows.ExtractVesselData | crawl_hpnt.py:298-342 | yields exactly the records of data rows with at least 10 cells and a non-blank 선명, in order |
| HpntRows.KeptAllFlexibleAppend | crawl_hpnt.py:319-340 | record selection distributes over concatenation |
| HpntRows.FlexibleScheduleAppend | crawl_hpnt.py:298-342 | extraction distributes over concatenation |
| HpntRows.FlexibleScheduleOfRow | crawl_hpnt.py:311-332 | a single row yields its record exactly when it is a data row with at least 10 cells and a non-blank 선명 |
| HpntRows.FlexibleSoundOfRow | crawl_hpnt.py:323-332 | a record from one row has a non-blank 선명 |
| HpntRows.FlexibleScheduleSound | crawl_hpnt.py:298-342 | every extracted record has a non-blank 선명 |
| HpntCrawler.FirstCaption | crawl_hpnt.py:267-273 | finds the first caption that holds both 선석 and 배정 and has a parent table |
| HpntCrawler.ScanCaptions | crawl_hpnt.py:267-273 | the caption loop returns the table of the first such caption |
| HpntCrawler.KeywordCount | crawl_hpnt.py:285-286 | the keyword count is at most the number of keywords |
| HpntCrawler.KeywordCountIsCardinality | crawl_hpnt.py:286 | the count is the number of keyword positions whose word occurs in the table text |
| HpntCrawler.BestIndex | crawl_hpnt.py:276-291 | the pick is eligible (more than 5 rows, at least 3 keywords) and has the most rows; earlier eligible tables have strictly fewer, so ties keep the earlier table; None when no table is eligible |
| HpntCrawler.ScanTables | crawl_hpnt.py:276-294 | the running `max_rows`/`best_table` loop returns exactly that pick |
| HpntCrawler.BestIndexStep | crawl_hpnt.py:280-290 | one more table replaces the pick only when it is eligible with strictly more rows |
| HpntCrawler.FindScheduleTable | crawl_hpnt.py:256-296 | tries the tblType_08 div, then the caption, then the largest eligible table |
| HpntCrawler.ChosenTableSpec | crawl_hpnt.py:256-296 | no table is found exactly when all three steps fail; a table from the third step is eligible and has the most rows |
| HpntCrawler.ParseScheduleData | crawl_hpnt.py:220-254 | None when no table or no record, otherwise the JSON wrapper with data_count or the list |
| HpntCrawler.GetScheduleData | crawl_hpnt.py:29-125 | posts the form with hidden inputs only when the page shows other dates; the result holds exactly the records of the page used |
| HpntCrawler.TallyCounts | crawl_hpnt.py:437-448 | each counter maps a value to the number of records with that value, 'Unknown' for a missing key, and holds no other value |
| HpntCrawler.TallyTotal | crawl_hpnt.py:437-448 | the counts of a counter add up to the number of records |
| HpntCrawler.TallyStep | crawl_hpnt.py:439-440 | one more record bumps exactly its value's count |
| HpntCrawler.GetSummary | crawl_hpnt.py:425-455 | None for empty data; otherwise 전체_선박수 and the three counters, each summing to 전체_선박수 |
| HpntCrawler.WithStatusSpec | crawl_hpnt.py:479 | the filter keeps exactly the records whose 상태 is allowed |
| HpntCrawler.WithStatusAppend | crawl_hpnt.py:479 | the filter keeps order and distributes over concatenation |
| HpntCrawler.GetWorkPlanData | crawl_hpnt.py:457-485 | None on an empty crawl; otherwise the crawled records with 상태 ARRIVED or PLANNED, in order |
| SubmissionUtils.IsFirstPrefix | submission/utils.py:339 | whether a row is the first of its key depends only on the rows before it |
| SubmissionUtils.DropDuplicatesLast | submission/utils.py:339 | dedupe of a list is dedupe of its front plus the last row if that row is the first of its key |
| SubmissionUtils.DropDuplicatesFirstOnly | submission/utils.py:339 | every kept row is the first occurrence of its key |
| SubmissionUtils.DropDuplicatesKeepsFirst | submission/utils.py:339 | every first occurrence is kept |
| SubmissionUtils.DropDuplicatesDistinct | submission/utils.py:339 | the kept rows have pairwise distinct keys |
| SubmissionUtils.FirstOccurrence | submission/utils.py:339 | every key has a first occurrence at or before any row carrying it |
| SubmissionUtils.DropDuplicatesCovers | submission/utils.py:339 | every key of the input survives |
| SubmissionUtils.DropDuplicatesOfDistinct | submission/utils.py:352 | a list with distinct keys is unchanged |
| SubmissionUtils.DropDuplicatesIdempotent | submission/utils.py:352 | deduplicating twice is deduplicating once |
| SubmissionUtils.GetWorkPlanData | submission/utils.py:303-342 | an empty crawl raises; JSON gives the DEPARTED records; the list path drops repeated (선명, 모선항차) pairs, keeping the first |
| SubmissionUtils.WorkPlanUnique | submission/utils.py:339 | the frame has distinct (선명, 모선항차) pairs and the same set of pairs as the crawl |
| SubmissionUtils.SeparatorAt | submission/utils.py:351 | a carrier without '_' puts the separator at its length and nowhere before |
| SubmissionUtils.MergeKeyIdentifies | submission/utils.py:351-353 | for carriers without '_', keys are equal exactly when the carriers are equal and the names agree once whitespace is removed |
| SubmissionUtils.MergeKeyIgnoresSpacing | submission/utils.py:353 | cleaning a name's whitespace does not change its key |
| SubmissionUtils.MergeKeyCollision | submission/utils.py:351 | a carrier containing '_' can collide: ("A_B", "C") and ("A", "B_C") share a key |
| SubmissionUtils.FirstMatchNone | submission/utils.py:352 | no ship-info row matches a key exactly when none has it |
| SubmissionUtils.LastIsFirst | submission/utils.py:352 | the last ship-info row is kept exactly when no earlier row has its key |
| SubmissionUtils.MatchesAfterDedupe | submission/utils.py:352-356 | after dedupe a key matches only its first ship-info row, or nothing |
| SubmissionUtils.MatchesAppend | submission/utils.py:356 | matching distributes over concatenation |
| SubmissionUtils.JoinedOnce | submission/utils.py:356 | a row with one match or none joins to exactly one output row |
| SubmissionUtils.LeftMergeLast | submission/utils.py:356 | the left merge of a list is the merge of its front plus the last row's join |
| SubmissionUtils.LeftMergeOneEach | submission/utils.py:356 | when each row joins once, the merge is row-aligned with the input |
| SubmissionUtils.MergeAligned | submission/utils.py:352-356 | the left merge on deduplicated ship info keeps the row count, and row i is crawled row i with the first ship-info match of its key |
| NewShips.LexIrreflexive | check_new_ships.py:50 | no string sorts before itself |
| NewShips.LexTransitive | check_new_ships.py:50 | string order is transitive |
| NewShips.LexTotal | check_new_ships.py:50 | any two distinct strings are ordered one way or the other |
| NewShips.LexAsymmetric | check_new_ships.py:50 | string order is asymmetric |
| NewShips.LeastWitness | check_new_ships.py:50 | a non-empty set of names has a least element |
| NewShips.LeastExists | check_new_ships.py:50 | a least element exists |
| NewShips.LeastUnique | check_new_ships.py:50 | the least element is unique |
| NewShips.SortedNames | check_new_ships.py:50 | `sorted(list(names))` holds each name once, and only those names, in strictly ascending order |
| NewShips.CompanyByNameKeys | check_new_ships.py:39-40 | the name map's keys are the names of records having both 선명 and 선사 |
| NewShips.CompanyByNameValue | check_new_ships.py:39 | a name maps to the 선사 of the last such record with that name |
| NewShips.Rows | check_new_ships.py:51-54 | one row per name, with the carrier from the map |
| NewShips.WriteRows | check_new_ships.py:49-54 | the append loop writes exactly those rows in order |
| NewShips.RowsStep | check_new_ships.py:51-54 | one more name appends its row |
| NewShips.FindAndSaveNewShips | check_new_ships.py:17-63 | an unreadable file aborts; an empty crawl or no new names gives a header-only CSV; otherwise the rows of the new names |
| NewShips.NothingNewNoRows | check_new_ships.py:60-63 | with no new name there is no row |
| NewShips.NewShipRowsAreNew | check_new_ships.py:44-52 | every written name is crawled, not existing, and carries its mapped 선사 |
| NewShips.NewShipRowsAscending | check_new_ships.py:50 | the rows are in strictly ascending name order, so no name repeats |
| NewShips.NewShipRowsComplete | check_new_ships.py:39-44 | every crawled name with a carrier that is not yet listed is written |
| NewShips.MissingFileAllNew | check_new_ships.py:21-23 | with the file missing, every crawled name is new |
| ShipData.ParseInt | backend/generate_ship_data.py:29-30 | `int()` accepts only an optional sign and digits, and rejects '' |
| ShipData.ParseIntRoundTrip | backend/generate_ship_data.py:29-30 | `int(str(n)) == n` |
| ShipData.LastWinsKeys | backend/generate_ship_data.py:20 | a dict built from pairs has exactly the keys that occur |
| ShipData.LastWinsValue | backend/generate_ship_data.py:20 | a repeated key keeps the value of its last pair |
| ShipData.StripPairs | backend/generate_ship_data.py:20 | every key and value is stripped, position by position |
| ShipData.CleanKeys | backend/generate_ship_data.py:20 | the cleaned row's keys are the stripped header names |
| ShipData.CleanValue | backend/generate_ship_data.py:20 | a cleaned key holds the stripped value of the last column with that stripped name |
| ShipData.CleanStripped | backend/generate_ship_data.py:20 | every key and value of a cleaned row is already stripped |
| ShipData.InfoFields | backend/generate_ship_data.py:26-31 | call sign and name are the cleaned values or None; tonnage and LOA are parsed integers or 0 when absent; a bad number fails |
| ShipData.CompanyStripped | backend/generate_ship_data.py:23-25 | a row counts only with a non-empty stripped 선사 |
| ShipData.GenerateShipDataJson | backend/generate_ship_data.py:11-43 | a missing file gives the not-found error; otherwise the grouping of the rows, or the first row error |
| ShipData.GroupedErrSticky | backend/generate_ship_data.py:13-43 | once a row fails, the whole run reports that error |
| ShipData.GroupedOk | backend/generate_ship_data.py:18-32 | the run succeeds exactly when no row fails |
| ShipData.GroupedFirstError | backend/generate_ship_data.py:42-43 | the reported error is that of the first failing row |
| ShipData.GroupedIsEntries | backend/generate_ship_data.py:18-32 | each carrier's list is its rows' entries in file order, and only carriers with rows appear |
| ShipData.LengthsAppend | backend/generate_ship_data.py:32 | appending one entry adds one to its carrier's count |
| ShipData.GroupedTotal | backend/generate_ship_data.py:18-32 | the entries across all carriers number the rows with a non-empty 선사 |

## Left out

- The Gurobi solve, `model.optimize()` and `computeIIS`, is a foreign call. The solver's result is a parameter: a status plus an assignment. Optimality is not modelled; only feasibility of the reported point is used.
- Big-M completeness in general is not claimed. Instead, the model proves that the serial schedule is accepted whenever `M_time` covers the serial horizon. Where it does not (see Findings), one counterexample is exhibited.
- Printing is left out: the result tables, the IIS constraint names and the progress messages. The makespan plot (milp_bap.py:148-200) is left out too, and so is baipot_milp.py:155, whose `makespan` is never defined.
- Network I/O is left out: requests sessions, status codes and the POST. The initial and searched pages are parameters, and a failed request is a missing page.
- HTML parsing is left out. A table is a sequence of rows, and each row has its cell texts, a `th`/`td` flag and its CSS classes. Nested `tr` elements are not modelled.
- The CSRF token regexes without the UUID shape are not modelled. They appear in crawl_hpnt.py:127-153, backup/crawl_hpnt_departed.py:109-138 and submission/utils.py:111-131. The token those crawlers find is a parameter. Only the UUID-shaped search of backend/crawling.py is modelled.
- The `last_updated` clock is a parameter `now`. pandas datetime parsing is left out: `접안예정일시` is a number of minutes.
- Floating point is modelled as exact `real` arithmetic.
- pandas is modelled only as far as the code uses it:
  - a frame is its list of records;
  - `drop_duplicates` keeps the first row of each key;
  - `astype(str)`, NaN values and `unique()` on NaN are not modelled.
- JSON and CSV writing, and the order of keys and carriers in the JSON, are left out. File writes are returned values: `Outcome` in NewShips and a `Result` in ShipData.
- CSV quoting and ragged rows are left out. A row is its (header, value) pairs, and a row that raises is a flag.
- Caught exceptions become `None` or `Err`, and their messages are not modelled.
- The rest of `preprocess_for_prediction` is left out: the mean filling, the LGBM prediction and the feature columns. Only the merge key, the ship-info dedupe and the left join are modelled.
- ShipData.ParseInt: it accepts an optional sign and ASCII digits only. Python's `int()` also accepts surrounding whitespace, underscores between digits and non-ASCII digits; these are not modelled.
- Optimization.Services, Optimization.Lengths, Optimization.BerthingTimes: their own contracts state only lengths. Their contents are stated through the decoding rows (`Optimization.ReportsOrdered`, `Optimization.DecodeRows`).
- The code has no fixed-vessel pinning, no cancellation and no distinct Cancelled, Error or invalid-input results, so none are modelled.

## Findings

| source | as written | input that shows it | evidently intended | confidence | as-written member | corrected member |
|---|---|---|---|---|---|---|
| backend/optimization.py:43 | `M_time = sum(s_i) + max(a_i_minutes)`, while the temporal rows (lines 51-52; the same in submission/utils.py:501 and 509-510) also add the 60-minute buffer, so a pair that must be time-separated needs `M_time ≥ s_i + s_j + 120`; the bound can be too small and cut off every schedule | two 800 m vessels, both arriving at minute 0, 60 minutes of service each: `M_time = 120`, they cannot share the 1150 m quay, and ordering them in time needs 240 ≤ 120, so the model is infeasible and `run_milp_model` returns None | `M_time` counting one buffer per vessel, `max(a) + Σ(s_i + 60)`; then the serial schedule is always accepted, and the example has optimum 120 minutes of waiting | not executed | Optimization.ScenarioTwoInfeasibleAsWritten | Optimization.CorrectedModelAlwaysFeasible |
