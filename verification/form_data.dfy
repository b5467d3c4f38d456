/** The search request every crawler posts when the page does not already
    show the requested dates: nine fixed fields, the CSRF token when one was
    found, and (in the flexible crawler) the form's hidden inputs; and the
    date range the page currently shows, read from its two date inputs. */
module SearchForm {
  import opened Seqs

  /** Posted form data: field name to value. */
  type Form = map<string, string>

  const CSRF_TOKEN: string := "CSRF_TOKEN"

  /** The names of the nine fields every search posts. */
  const BASE_KEYS: set<string> :=
    {"strdStDate", "strdEdDate", "route", "isSearch", "page", "URI", "userID", "groupID", "tmnCod"}

  /** The nine fixed fields: the requested dates, an empty route (all
      routes), the search flag, page 1, empty URI and user, group U999 and
      terminal code H. */
  function BaseForm(start: string, end: string): (f: Form)
  {
    map["strdStDate" := start, "strdEdDate" := end, "route" := "", "isSearch" := "Y", "page" := "1",
        "URI" := "", "userID" := "", "groupID" := "U999", "tmnCod" := "H"]
  }

  /** The base fields with the token added when it is non-empty. */
  function TokenForm(start: string, end: string, token: string): Form
  {
    if token != "" then BaseForm(start, end)[CSRF_TOKEN := token] else BaseForm(start, end)
  }

  /** The base fields are exactly BASE_KEYS, and the token field is not one
      of them, so adding it never replaces a base value. */
  lemma TokenFormFields(start: string, end: string, token: string)
    ensures BaseForm(start, end).Keys == BASE_KEYS
    ensures CSRF_TOKEN !in BASE_KEYS
    ensures TokenForm(start, end, token).Keys == BASE_KEYS + (if token != "" then {CSRF_TOKEN} else {})
    ensures forall k :: k in BASE_KEYS ==> TokenForm(start, end, token)[k] == BaseForm(start, end)[k]
    ensures token != "" ==> TokenForm(start, end, token)[CSRF_TOKEN] == token
  {
  }

  /** _build_form_data of the strict crawlers: the nine fixed fields, plus
      CSRF_TOKEN exactly when the token is non-empty; nothing else. */
  method BuildFormData(start: string, end: string, token: string) returns (form: Form)
    ensures form == TokenForm(start, end, token)
    ensures form.Keys == BASE_KEYS + (if token != "" then {CSRF_TOKEN} else {})
    ensures form["strdStDate"] == start && form["strdEdDate"] == end
    ensures CSRF_TOKEN in form <==> token != ""
    ensures token != "" ==> form[CSRF_TOKEN] == token
  {
    form := BaseForm(start, end);
    if token != "" {
      form := form[CSRF_TOKEN := token];
    }
    TokenFormFields(start, end, token);
  }

  // ---------------------------------------------------------------------------
  // Hidden inputs (the flexible crawler only).

  /** An `<input type="hidden">` of the search form: its name attribute if
      it has one, and its value attribute ('' when it has none). */
  datatype HiddenInput = HiddenInput(name: Option<string>, value: string)

  /** A hidden input is considered only when its name is present and non-empty. */
  predicate Named(h: HiddenInput)
  {
    h.name.Some? && h.name.value != ""
  }

  /** The hidden inputs walked in document order: each is added under its
      name unless the name is missing, empty or already present. */
  function AddHidden(form: Form, hidden: seq<HiddenInput>): Form
  {
    if hidden == [] then form
    else
      var f := AddHidden(form, hidden[..|hidden| - 1]);
      var h := hidden[|hidden| - 1];
      if Named(h) && h.name.value !in f then f[h.name.value := h.value] else f
  }

  /** The names the hidden inputs contribute. */
  function HiddenNames(hidden: seq<HiddenInput>): set<string>
  {
    set i | 0 <= i < |hidden| && Named(hidden[i]) :: hidden[i].name.value
  }

  /** Hidden inputs add exactly their non-empty names, and never change a
      value that was already in the form. */
  lemma {:induction false} AddHiddenKeeps(form: Form, hidden: seq<HiddenInput>)
    ensures AddHidden(form, hidden).Keys == form.Keys + HiddenNames(hidden)
    ensures forall k :: k in form ==> AddHidden(form, hidden)[k] == form[k]
    decreases |hidden|
  {
    if hidden != [] {
      var front := hidden[..|hidden| - 1];
      AddHiddenKeeps(form, front);
      var h := hidden[|hidden| - 1];
      assert HiddenNames(hidden) == HiddenNames(front) + (if Named(h) then {h.name.value} else {}) by {
        forall n | n in HiddenNames(hidden)
          ensures n in HiddenNames(front) + (if Named(h) then {h.name.value} else {})
        {
          var i :| 0 <= i < |hidden| && Named(hidden[i]) && hidden[i].name.value == n;
          if i < |hidden| - 1 {
            assert front[i] == hidden[i];
          }
        }
        forall n | n in HiddenNames(front)
          ensures n in HiddenNames(hidden)
        {
          var i :| 0 <= i < |front| && Named(front[i]) && front[i].name.value == n;
          assert hidden[i] == front[i];
        }
      }
    }
  }

  /** The first hidden input carrying a name the form lacks sets that
      field; later inputs with the same name are ignored. */
  lemma {:induction false} FirstHiddenWins(form: Form, hidden: seq<HiddenInput>, i: nat)
    requires i < |hidden| && Named(hidden[i]) && hidden[i].name.value !in form
    requires forall j :: 0 <= j < i ==> hidden[j].name != hidden[i].name
    ensures hidden[i].name.value in AddHidden(form, hidden)
    ensures AddHidden(form, hidden)[hidden[i].name.value] == hidden[i].value
    decreases |hidden|
  {
    var n := hidden[i].name.value;
    var front := hidden[..|hidden| - 1];
    if i == |hidden| - 1 {
      AddHiddenKeeps(form, front);
      forall j | 0 <= j < |front|
        ensures front[j].name != Some(n)
      {
        assert front[j] == hidden[j];
      }
    } else {
      assert front[i] == hidden[i];
      forall j | 0 <= j < i
        ensures front[j].name != front[i].name
      {
        assert front[j] == hidden[j];
      }
      FirstHiddenWins(form, front, i);
    }
  }

  /** _build_form_data of the flexible crawler: the strict crawler's form,
      then every named hidden input of the search form whose name is not yet
      a field. Base fields and the token are never overwritten. */
  method BuildFormDataWithHidden(start: string, end: string, token: string, hidden: seq<HiddenInput>)
    returns (form: Form)
    ensures form == AddHidden(TokenForm(start, end, token), hidden)
    ensures form.Keys == BASE_KEYS + (if token != "" then {CSRF_TOKEN} else {}) + HiddenNames(hidden)
    ensures forall k :: k in BASE_KEYS ==> form[k] == BaseForm(start, end)[k]
    ensures token != "" ==> form[CSRF_TOKEN] == token
  {
    form := BuildFormData(start, end, token);
    var i := 0;
    while i < |hidden|
      invariant 0 <= i <= |hidden|
      invariant form == AddHidden(TokenForm(start, end, token), hidden[..i])
    {
      assert hidden[..i + 1][..i] == hidden[..i];
      var h := hidden[i];
      if h.name.Some? && h.name.value != "" && h.name.value !in form {
        form := form[h.name.value := h.value];
      }
      i := i + 1;
    }
    assert hidden[..|hidden|] == hidden;
    TokenFormFields(start, end, token);
    AddHiddenKeeps(TokenForm(start, end, token), hidden);
  }

  // ---------------------------------------------------------------------------
  // _get_current_date_range.

  /** The dates the page currently shows. */
  datatype DateRange = DateRange(start: string, end: string)

  /** The value of an input found by name: '' when there is no such input
      or it has no value attribute. */
  function InputValue(input: Option<Option<string>>): (v: string)
    ensures v != "" ==> input == Some(Some(v))
    ensures input.None? ==> v == ""
  {
    match input
    case None => ""
    case Some(attr) => if attr.Some? then attr.value else ""
  }

  /** The start and end date inputs, each read as above. */
  function CurrentDateRange(startInput: Option<Option<string>>, endInput: Option<Option<string>>): (r: DateRange)
    ensures r.start != "" ==> startInput == Some(Some(r.start))
    ensures r.end != "" ==> endInput == Some(Some(r.end))
    ensures startInput.None? ==> r.start == ""
    ensures endInput.None? ==> r.end == ""
  {
    DateRange(InputValue(startInput), InputValue(endInput))
  }

  /** The page is parsed as it is exactly when it shows the requested
      dates; otherwise a search is posted. */
  predicate ShowsRequested(current: DateRange, start: string, end: string)
  {
    current.start == start && current.end == end
  }

  /** A page whose date inputs hold the requested non-empty dates needs no
      search; a page without date inputs needs one for any non-empty request. */
  lemma SearchDecision(startInput: Option<Option<string>>, endInput: Option<Option<string>>, start: string, end: string)
    requires start != "" && end != ""
    ensures ShowsRequested(CurrentDateRange(startInput, endInput), start, end) <==>
      startInput == Some(Some(start)) && endInput == Some(Some(end))
    ensures startInput.None? ==> !ShowsRequested(CurrentDateRange(startInput, endInput), start, end)
  {
  }
}
