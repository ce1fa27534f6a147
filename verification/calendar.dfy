/** The listing controller: the component state of the event calendar and the
    events that change it — a change of the selected date, the load of one page,
    the attachment of the visibility observer to the anchor item, and the
    observer reporting that item visible (components/AfishaCalendar.tsx:15-118).
    The fetch is not performed here: each load takes the server's answer, a page
    or a failure, as a parameter, and `now` is the clock reading as an ISO string. */
module Calendar {
  import opened Listing
  import opened Query
  import opened Accumulator
  import opened TitleFilter
  import opened DayGroups

  class AfishaCalendar {
    /** The title filter text (client side). */
    var filter: string
    /** The selected calendar date "YYYY-MM-DD", or "" when none is selected. */
    var selectedDate: string
    /** The performances loaded since the last reset, in server order. */
    var performances: seq<Performance>
    /** The last page requested in this generation. */
    var currentPage: int
    var hasMore: bool
    var loading: bool
    /** Visibility observers currently connected; the one kept in the observer
        ref is the only one that can be. */
    var activeObservers: nat

    ghost predicate Valid()
      reads this
    {
      currentPage >= 1 && activeObservers <= 1
    }

    /** The state of a freshly mounted component, before its first effect runs. */
    constructor ()
      ensures Valid()
      ensures filter == "" && selectedDate == "" && performances == []
      ensures currentPage == 1 && hasMore && !loading && activeObservers == 0
    {
      filter := "";
      selectedDate := "";
      performances := [];
      currentPage := 1;
      hasMore := true;
      loading := false;
      activeObservers := 0;
    }

    /** The list as the filter shows it: the loaded performances that match the
        filter text, in their order, with every copy kept. */
    function Filtered(): (r: seq<Performance>)
      reads this
      ensures IsSubsequence(r, performances)
      ensures forall x :: x in r <==> x in performances && Matches(x, filter)
      ensures forall x :: multiset(r)[x] == if Matches(x, filter) then multiset(performances)[x] else 0
    {
      FilterByTitleSpec(performances, filter);
      FilterByTitle(performances, filter)
    }

    /** The grouped view that is rendered: one group for each day of the filtered
        list, holding items of that day only, with distinct days, and together
        exactly the filtered list's items. */
    function View(): (r: seq<DayGroup>)
      reads this
      ensures forall i, j :: 0 <= i < j < |r| ==> r[i].day != r[j].day
      ensures forall g :: g in r ==> forall x :: x in g.items ==> Day(x) == g.day
      ensures forall x :: x in Filtered() ==> exists g :: g in r && g.day == Day(x)
      ensures multiset(Flatten(r)) == multiset(Filtered())
    {
      var ps := Filtered();
      GroupedPartition(ps);
      GroupedDays(ps);
      DaysDistinct(ps);
      GroupedKeepsItems(ps);
      Grouped(ps)
    }

    /** First half of a load: `loading` goes up and the request for `page` is built
        from the current date selection. */
    method StartLoad(page: int, now: string) returns (req: Request)
      modifies this`loading
      ensures loading
      ensures req == BuildRequest(page, selectedDate, now)
    {
      loading := true;
      req := BuildRequest(page, selectedDate, now);
    }

    /** Second half of a load: a fetched page is merged (replacing the list on
        reset, appending otherwise) and `hasMore` is recomputed from the requested
        page number and the page's metadata. Items without metadata are merged,
        but the throw on reading the total leaves `hasMore` as it was; a failure
        changes neither. In every case `loading` goes down. */
    method FinishLoad(page: int, reset: bool, outcome: Outcome)
      modifies this`performances, this`hasMore, this`loading
      ensures !loading
      ensures outcome.Fetched? ==>
        performances == Merge(old(performances), outcome.response.items, reset) &&
        hasMore == HasMore(page, outcome.response.pageSize, outcome.response.total)
      ensures outcome.FetchedWithoutMeta? ==>
        performances == Merge(old(performances), outcome.items, reset) && hasMore == old(hasMore)
      ensures outcome.Failed? ==> performances == old(performances) && hasMore == old(hasMore)
    {
      match outcome {
        case Fetched(response) =>
          performances := Merge(performances, response.items, reset);
          hasMore := HasMore(page, response.pageSize, response.total);
        case FetchedWithoutMeta(items) =>
          performances := Merge(performances, items, reset);
        case Failed =>
      }
      loading := false;
    }

    /** One whole load of `page`, taken as one step. */
    method ApplyLoad(page: int, reset: bool, now: string, outcome: Outcome) returns (req: Request)
      modifies this`performances, this`hasMore, this`loading
      ensures !loading
      ensures req == BuildRequest(page, selectedDate, now)
      ensures outcome.Fetched? ==>
        performances == Merge(old(performances), outcome.response.items, reset) &&
        hasMore == HasMore(page, outcome.response.pageSize, outcome.response.total)
      ensures outcome.FetchedWithoutMeta? ==>
        performances == Merge(old(performances), outcome.items, reset) && hasMore == old(hasMore)
      ensures outcome.Failed? ==> performances == old(performances) && hasMore == old(hasMore)
    {
      req := StartLoad(page, now);
      FinishLoad(page, reset, outcome);
    }

    /** The effect that runs on mount and after every change of the selected date:
        the list is cleared, the page counter and the flag reset, and page 1 is
        loaded in reset mode; a failed reset therefore leaves the list empty, and
        only a page with metadata can lower the flag. */
    method ResetAndLoad(now: string, outcome: Outcome) returns (req: Request)
      requires Valid()
      modifies this`performances, this`currentPage, this`hasMore, this`loading
      ensures Valid()
      ensures !loading && currentPage == 1
      ensures req == BuildRequest(1, selectedDate, now)
      ensures performances == ResetList(outcome)
      ensures hasMore == ResetFlag(outcome)
    {
      performances := [];
      currentPage := 1;
      hasMore := true;
      req := ApplyLoad(1, true, now, outcome);
    }

    /** The date input changed. React re-runs the effect only when the value is
        different, so choosing the same date again does nothing. */
    method OnDateChange(date: string, now: string, outcome: Outcome) returns (req: Option<Request>)
      requires Valid()
      modifies this`selectedDate, this`performances, this`currentPage, this`hasMore, this`loading
      ensures Valid()
      ensures date == old(selectedDate) ==> req == None && unchanged(this)
      ensures date != old(selectedDate) ==>
        selectedDate == date && !loading && currentPage == 1 &&
        req == Some(BuildRequest(1, date, now)) &&
        performances == ResetList(outcome) && hasMore == ResetFlag(outcome)
    {
      if date == selectedDate {
        req := None;
      } else {
        selectedDate := date;
        var r := ResetAndLoad(now, outcome);
        req := Some(r);
      }
    }

    /** The filter input changed: only the derived views change, the list and
        every other field stay as they are, and nothing is fetched. */
    method SetFilter(text: string)
      modifies this`filter
      ensures filter == text
      ensures View() == Grouped(FilterByTitle(performances, text))
    {
      filter := text;
    }

    /** The reset button: clears the filter text and the date selection. With no
        date selected nothing else changes; otherwise the date change reloads
        page 1 with the future-only filter. */
    method OnClearClick(now: string, outcome: Outcome) returns (req: Option<Request>)
      requires Valid()
      modifies this`filter, this`selectedDate, this`performances, this`currentPage, this`hasMore, this`loading
      ensures Valid()
      ensures filter == "" && selectedDate == ""
      ensures old(selectedDate) == "" ==>
        req == None && performances == old(performances) && currentPage == old(currentPage) &&
        hasMore == old(hasMore) && loading == old(loading)
      ensures old(selectedDate) != "" ==>
        req == Some(BuildRequest(1, "", now)) && currentPage == 1 && !loading &&
        performances == ResetList(outcome) && hasMore == ResetFlag(outcome)
    {
      SetFilter("");
      req := OnDateChange("", now, outcome);
    }

    /** The callback ref of the anchor item (`node` tells whether an element is
        passed or `null`). While a load runs or nothing is left to load it does
        nothing; otherwise it disconnects the current observer and, for an
        element, connects a new one, so at most one observer is ever connected. */
    method AttachObserver(node: bool)
      requires Valid()
      modifies this`activeObservers
      ensures Valid()
      ensures old(loading) || !old(hasMore) ==> activeObservers == old(activeObservers)
      ensures !old(loading) && old(hasMore) ==> activeObservers == if node then 1 else 0
    {
      if loading || !hasMore {
        return;
      }
      activeObservers := 0;
      if node {
        activeObservers := activeObservers + 1;
      }
    }

    /** The connected observer reports the anchor item. When it is intersecting
        and more pages remain, the page counter advances and the next page is
        appended; otherwise nothing happens. */
    method OnVisible(isIntersecting: bool, now: string, outcome: Outcome) returns (req: Option<Request>)
      requires Valid()
      modifies this`performances, this`currentPage, this`hasMore, this`loading
      ensures Valid()
      ensures !(old(activeObservers) == 1 && isIntersecting && old(hasMore)) ==>
        req == None && unchanged(this)
      ensures old(activeObservers) == 1 && isIntersecting && old(hasMore) ==>
        currentPage == old(currentPage) + 1 && !loading &&
        req == Some(BuildRequest(old(currentPage) + 1, selectedDate, now)) &&
        (outcome.Fetched? ==>
          performances == old(performances) + outcome.response.items &&
          hasMore == HasMore(old(currentPage) + 1, outcome.response.pageSize, outcome.response.total)) &&
        (outcome.FetchedWithoutMeta? ==> performances == old(performances) + outcome.items && hasMore) &&
        (outcome.Failed? ==> performances == old(performances) && hasMore)
    {
      if activeObservers == 1 && isIntersecting && hasMore {
        var next := currentPage + 1;
        currentPage := next;
        var r := ApplyLoad(next, false, now, outcome);
        req := Some(r);
      } else {
        req := None;
      }
    }

    /** One render: the grouped view is computed. When it has an item, the anchor
        item (the last item of the last group) hands its element to the callback
        ref; when it has none, the anchor element is gone and the callback ref is
        called with `null`, which disconnects the observer unless a load runs or
        nothing is left to load. */
    method Render() returns (groups: seq<DayGroup>)
      requires Valid()
      modifies this`activeObservers
      ensures Valid()
      ensures groups == Grouped(Filtered())
      ensures Anchor(groups).Some? <==> Filtered() != []
      ensures !loading && hasMore ==> activeObservers == if Filtered() != [] then 1 else 0
      ensures loading || !hasMore ==> activeObservers == old(activeObservers)
    {
      groups := GroupByDay(Filtered());
      ExactlyOneAnchor(Filtered());
      AttachObserver(Anchor(groups).Some?);
    }
  }

  /** The list after a reset load of page 1: the page's items, or empty when the
      fetch failed before any item was seen. */
  function ResetList(outcome: Outcome): seq<Performance>
  {
    match outcome
    case Fetched(response) => response.items
    case FetchedWithoutMeta(items) => items
    case Failed => []
  }

  /** The flag after a reset load of page 1: recomputed from a page with metadata,
      otherwise still the `true` the reset set. */
  function ResetFlag(outcome: Outcome): bool
  {
    if outcome.Fetched? then HasMore(1, outcome.response.pageSize, outcome.response.total) else true
  }

  /** The list's anchor is rendered and its observer reports it visible: the
      next page is requested and appended. */
  method ScrollOnce(c: AfishaCalendar, items: seq<Performance>, total: int, now: string) returns (more: bool)
    requires c.Valid() && c.filter == "" && c.performances != [] && !c.loading && c.hasMore
    modifies c
    ensures c.Valid() && c.filter == "" && !c.loading
    ensures c.currentPage == old(c.currentPage) + 1
    ensures c.performances == old(c.performances) + items
    ensures more == c.hasMore == HasMore(old(c.currentPage) + 1, PageSize, total)
  {
    var page := c.currentPage + 1;
    var g := c.Render();
    assert c.filter == "" && c.performances == old(c.performances) && c.currentPage == page - 1;
    assert c.hasMore && !c.loading && c.activeObservers == 1;
    var r := c.OnVisible(true, now, Fetched(PageResponse(items, page, PageSize, total)));
    more := c.hasMore;
  }

  /** Total 25 at ten per page, driven through the controller's events: the mount
      load and two visibility signals accumulate all 25 items, the flag reads
      true, true, false, and a further signal loads nothing. */
  method TwentyFiveScenario(p1: seq<Performance>, p2: seq<Performance>, p3: seq<Performance>, now: string)
    returns (loaded: seq<Performance>, flags: seq<bool>, extra: Option<Request>)
    requires |p1| == 10 && |p2| == 10 && |p3| == 5
    ensures loaded == p1 + p2 + p3 && |loaded| == 25
    ensures flags == [true, true, false]
    ensures extra == None
  {
    var c := new AfishaCalendar();
    var r1 := c.ResetAndLoad(now, Fetched(PageResponse(p1, 1, PageSize, 25)));
    var more1 := c.hasMore;
    var more2 := ScrollOnce(c, p2, 25, now);
    var more3 := ScrollOnce(c, p3, 25, now);
    assert c.performances == p1 + p2 + p3;
    var g3 := c.Render();
    assert !c.hasMore;
    extra := c.OnVisible(true, now, Failed);
    flags := [more1, more2, more3];
    loaded := c.performances;
  }

  /** A date change whose load fails empties the list; the next render has no
      anchor, so the callback ref's `null` call disconnects the observer, and a
      late visibility signal fetches nothing. */
  method EmptiedViewScenario(p1: seq<Performance>, p2: seq<Performance>, now: string)
    returns (extra: Option<Request>, loaded: seq<Performance>, observers: nat)
    requires |p1| == 10
    ensures extra == None && loaded == [] && observers == 0
  {
    var c := new AfishaCalendar();
    var r1 := c.ResetAndLoad(now, Fetched(PageResponse(p1, 1, PageSize, 25)));
    assert c.Filtered() == p1 != [];
    var g1 := c.Render();
    var r2 := c.OnDateChange("2024-05-01", now, Failed);
    assert c.performances == [] && c.hasMore && !c.loading;
    assert c.Filtered() == [];
    var g2 := c.Render();
    assert c.activeObservers == 0;
    extra := c.OnVisible(true, now, Fetched(PageResponse(p2, 2, PageSize, 25)));
    loaded := c.performances;
    observers := c.activeObservers;
  }

  /** The loads carry no generation tag: an append of page 2 that was in flight
      when the date changed lands after the new date's first page. */
  method StaleAppendScenario(old1: seq<Performance>, old2: seq<Performance>, fresh1: seq<Performance>, now: string)
    returns (loaded: seq<Performance>)
    ensures loaded == fresh1 + old2
  {
    var c := new AfishaCalendar();
    var r1 := c.ResetAndLoad(now, Fetched(PageResponse(old1, 1, PageSize, 25)));
    var r2 := c.StartLoad(2, now);
    var r3 := c.OnDateChange("2024-05-01", now, Fetched(PageResponse(fresh1, 1, PageSize, 3)));
    c.FinishLoad(2, false, Fetched(PageResponse(old2, 2, PageSize, 25)));
    loaded := c.performances;
  }
}
