/**
 * The series admin page (app/admin/series/page.tsx): the input guards of the
 * create and update server actions, and the status shown for each series.
 * A submitted form is a map from field names to their text values; the store
 * writes and the redirect that follow an accepted request are not modelled.
 */
module SeriesPage {
  import opened Wrappers
  import opened JsStrings
  import opened Types

  /** The text fields of a submitted form. */
  type FormData = map<string, string>

  /** `String(formData.get(key) ?? "")`: a missing field reads as empty. */
  function Field(form: FormData, key: string): (r: string)
    ensures key !in form ==> r == ""
    ensures key in form ==> r == form[key]
  {
    if key in form then form[key] else ""
  }

  /** `formData.get(key) === "on"`: a checkbox is on only for the exact text "on". */
  predicate CheckboxOn(form: FormData, key: string) {
    key in form && form[key] == "on"
  }

  /** What `createNewSeries` is called with; the start date is still text here. */
  datatype NewSeries = NewSeries(name: string, startDate: string, isActive: bool)

  /** What `updateSeriesStatus` is called with. */
  datatype StatusUpdate = StatusUpdate(seriesId: string, isActive: bool, completed: bool)

  /** `createSeriesAction`: `None` when the trimmed name or start date is empty. */
  function CreateSeriesRequest(form: FormData): (r: Option<NewSeries>)
    ensures r.Some? <==> Trim(Field(form, "name")) != "" && Trim(Field(form, "startDate")) != ""
    ensures r.Some? ==>
              r.value.name == Trim(Field(form, "name")) &&
              r.value.startDate == Trim(Field(form, "startDate")) &&
              r.value.isActive == CheckboxOn(form, "isActive")
    ensures r.Some? ==> r.value.name != "" && IsTrimmed(r.value.name) && IsTrimmed(r.value.startDate)
  {
    var name := Trim(Field(form, "name"));
    var startDate := Trim(Field(form, "startDate"));
    var isActive := CheckboxOn(form, "isActive");
    if name == "" || startDate == "" then None
    else Some(NewSeries(name, startDate, isActive))
  }

  /** `updateSeriesAction`: `None` when the trimmed series id is empty; both flags are passed as read. */
  function UpdateSeriesRequest(form: FormData): (r: Option<StatusUpdate>)
    ensures r.Some? <==> Trim(Field(form, "seriesId")) != ""
    ensures r.Some? ==>
              r.value.seriesId == Trim(Field(form, "seriesId")) &&
              r.value.isActive == CheckboxOn(form, "isActive") &&
              r.value.completed == CheckboxOn(form, "completed")
  {
    var seriesId := Trim(Field(form, "seriesId"));
    var isActive := CheckboxOn(form, "isActive");
    var completed := CheckboxOn(form, "completed");
    if seriesId == "" then None else Some(StatusUpdate(seriesId, isActive, completed))
  }

  /** A name of blanks is no name: the create request is refused. */
  lemma BlankNameRefused(form: FormData)
    requires AllWhitespace(Field(form, "name"))
    ensures CreateSeriesRequest(form).None?
  {
  }

  /** Any text other than exactly "on" leaves a checkbox off, whatever its case or spacing. */
  lemma CheckboxIsExact()
    ensures !CheckboxOn(map["isActive" := "On"], "isActive")
    ensures !CheckboxOn(map["isActive" := " on"], "isActive")
    ensures !CheckboxOn(map["isActive" := "true"], "isActive")
    ensures !CheckboxOn(map[], "isActive")
    ensures CheckboxOn(map["isActive" := "on"], "isActive")
  {
  }

  /** The form that sets both checkboxes as given. */
  function StatusForm(seriesId: string, isActive: bool, completed: bool): (form: FormData)
    ensures Field(form, "seriesId") == seriesId
    ensures CheckboxOn(form, "isActive") == isActive && CheckboxOn(form, "completed") == completed
  {
    map["seriesId" := seriesId,
        "isActive" := if isActive then "on" else "",
        "completed" := if completed then "on" else ""]
  }

  /** No pair of flags is refused: a series can be stored both completed and active. */
  lemma EveryFlagPairAccepted(seriesId: string, isActive: bool, completed: bool)
    requires seriesId != "" && IsTrimmed(seriesId)
    ensures UpdateSeriesRequest(StatusForm(seriesId, isActive, completed)) ==
              Some(StatusUpdate(seriesId, isActive, completed))
  {
  }

  /** The status column: "Completed" wins over "Active", which wins over "Inactive". */
  function StatusLabel(series: Series): (shown: string)
    ensures shown == "Completed" <==> series.completed
    ensures shown == "Active" <==> !series.completed && series.isActive
    ensures shown == "Inactive" <==> !series.completed && !series.isActive
  {
    if series.completed then "Completed" else if series.isActive then "Active" else "Inactive"
  }

  /** A series updated to both flags at once is shown as "Completed". */
  lemma CompletedAndActiveShowsCompleted(series: Series, form: FormData)
    requires UpdateSeriesRequest(form).Some?
    requires CheckboxOn(form, "isActive") && CheckboxOn(form, "completed")
    ensures var u := UpdateSeriesRequest(form).value;
      StatusLabel(series.(isActive := u.isActive, completed := u.completed)) == "Completed"
  {
  }
}
