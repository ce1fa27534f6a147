/** The server request the listing controller builds for one page: a range filter
    on the start time, the related entities to populate, the sort order and the
    pagination (components/AfishaCalendar.tsx:30-45). */
module Query {
  import opened Listing

  /** Every request asks for this many items per page. */
  const PageSize: int := 10

  const SortAscending: string := "date_time:asc"
  const Populate: seq<string> := ["play", "play.poster"]

  /** Time-of-day suffixes that turn a calendar date "YYYY-MM-DD" into the first
      and the last second of that UTC day. */
  const DayStart: string := "T00:00:00Z"
  const DayEnd: string := "T23:59:59Z"

  /** The filter on `date_time`: a lower bound `$gte` and an optional upper bound `$lte`. */
  datatype DateTimeFilter = DateTimeFilter(gte: string, lte: Option<string>)

  datatype Request = Request(
    populate: seq<string>,
    sort: string,
    page: int,
    pageSize: int,
    filters: DateTimeFilter)

  /** The date filter for the selected date (`""` when none is selected) at the
      instant `now` (an ISO-8601 string). Without a date only events from `now` on
      are asked for, with no upper bound; with a date the whole UTC day is asked
      for and its start replaces `now`, so a past day may be chosen. */
  function BuildFilters(selectedDate: string, now: string): (f: DateTimeFilter)
    ensures f.lte.Some? <==> selectedDate != ""
    ensures selectedDate == "" ==> f.gte == now
    ensures selectedDate != "" ==>
      f.gte == selectedDate + DayStart && f.lte.value == selectedDate + DayEnd
  {
    var future := DateTimeFilter(now, None);
    if selectedDate != "" then
      future.(gte := selectedDate + DayStart, lte := Some(selectedDate + DayEnd))
    else
      future
  }

  /** With a date selected the request does not depend on the clock at all. */
  lemma SelectedDateIgnoresNow(selectedDate: string, now1: string, now2: string)
    requires selectedDate != ""
    ensures BuildFilters(selectedDate, now1) == BuildFilters(selectedDate, now2)
  {
  }

  /** The request for page `page`: sorted ascending by start time, ten per page,
      with the play and its poster populated. */
  function BuildRequest(page: int, selectedDate: string, now: string): (r: Request)
    ensures r.page == page && r.pageSize == PageSize
    ensures r.sort == SortAscending && r.populate == Populate
    ensures r.filters == BuildFilters(selectedDate, now)
  {
    Request(Populate, SortAscending, page, PageSize, BuildFilters(selectedDate, now))
  }
}
