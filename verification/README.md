# Theatre listing controller and star rating, modelled in Dafny

This project models two client components of a theatre web site.

The first is the *afisha* (playbill) calendar. It fetches performances from a
paginated server collection and accumulates the pages in a list. It also:

- filters the list by play title on the client;
- groups the filtered list by UTC calendar day;
- loads the next page when the last rendered item becomes visible.

The second is the five-star rating widget. It converts a score on a
0..`maxRating` scale into lit stars, and a clicked star back into a score.

Modules, one concern each:

- `Listing` (`listing.dfy`): the performance record, the UTC day key and the subsequence relation.
- `Query` (`query.dfy`): the server request built for one page.
- `Accumulator` (`accumulator.dfy`): merging a page into the list, the more-pages flag, and what repeated page loads accumulate.
- `TitleFilter` (`title_filter.dfy`): case-insensitive title matching and the filtered view.
- `DayGroups` (`day_groups.dfy`): day buckets and the choice of the scroll anchor.
  - The `reduce` into a record is an imperative method, `GroupByDay`.
  - It is proved equal to the functional specification `Grouped`.
- `Calendar` (`calendar.dfy`): the component state as a class, `AfishaCalendar`.
  - Its fields are the filter text, the selected date, the performances, the current page, `hasMore`, `loading`, and the number of connected visibility observers.
  - Its methods are the events that change that state.
- `StarRating` (`star_rating.dfy`): the widget's exact integer arithmetic and its star row.

The model keeps no network, clock or DOM; these become parameters:

- A load takes the server's answer as an `Outcome`. It is one of three things: a page (items, page size, total); items whose response has no pagination metadata; or a failure before any item is seen.
- The clock reading `new Date().toISOString()` is a `now` string parameter.
- The element handed to the callback ref is a boolean `node`.
- The observer's intersection report is an `OnVisible` event.

An instant is an integer count of milliseconds since the epoch. Its day is the floor of that count divided by 86 400 000, which is its UTC calendar date.

Behaviour of the code worth knowing:

- **Failed load.** An exception is only logged (components/AfishaCalendar.tsx:60-64). A fetch that fails before the items are read leaves the list and `hasMore` as they were. A response whose items arrive without `meta.pagination` throws at line 58, after line 55 has already merged the items. The list then gains those items (or becomes them on a reset), while `hasMore` keeps its old value. `FinishLoad` models all three outcomes. In every case `loading` goes false.
- **Stale results.** Loads carry no generation tag, so a late append result is merged into whatever list is current (components/AfishaCalendar.tsx:55). `StaleAppendScenario` shows a page-2 result from before a date change landing after the new date's first page.
- **Group order.** The group `sort` parses Russian locale labels with `new Date`, which yields no date. The comparator therefore treats all groups as equal, and insertion order is kept (components/AfishaCalendar.tsx:117). The model keeps groups in first-appearance order. `SortedGrouping` proves that this order is strictly ascending by day when the list arrives sorted by time, as every request asks.

## Model

| member | source | states |
|---|---|---|
| `Listing.DayKey` | components/AfishaCalendar.tsx:106-111 | the key of an instant is the UTC day that contains it: day start <= instant < next day start |
| `Query.BuildFilters` | components/AfishaCalendar.tsx:30-38 | with no date selected the filter is `$gte = now` with no upper bound; with a date D it is `$gte = D+"T00:00:00Z"`, `$lte = D+"T23:59:59Z"`; an upper bound exists iff a date is selected |
| `Query.SelectedDateIgnoresNow` | components/AfishaCalendar.tsx:35-37 | once a date is selected the day start replaces `now`: the filter is the same whatever the clock says |
| `Query.BuildRequest` | components/AfishaCalendar.tsx:40-45 | every request asks for the given page, 10 per page, sorted `date_time:asc`, populating the play and its poster, with the date filter |
| `Accumulator.Merge` | components/AfishaCalendar.tsx:55 | reset makes the list exactly the page's items; append keeps the old list unchanged and in order as a prefix, puts the page's items after it, and grows the length by the page size |
| `Accumulator.TwentyFiveItems` | components/AfishaCalendar.tsx:58-59 | total 25 at 10 per page: pages 1, 2, 3 give true, true, false, and the three pages accumulate 25 items |
| `Accumulator.AppendAllIsConcat` | components/AfishaCalendar.tsx:55 | any sequence of appends yields the old list followed by all pages' items in page order, and the length grows by the sum of the page sizes |
| `Accumulator.LoadPagesPrefix` | components/AfishaCalendar.tsx:55-59 | against a server holding list L, a reset load of page 1 and appends of pages 2..k yield exactly the first min(10k, length of L) items of L, and `hasMore` holds iff 10k < length of L |
| `Accumulator.LoadPagesComplete` | components/AfishaCalendar.tsx:58-59 | `hasMore` turns false exactly when the accumulated list equals the server's whole list; while it is true every page loaded so far was full |
| `TitleFilter.LowerChar` | components/AfishaCalendar.tsx:99 | Latin A-Z and Cyrillic capitals map to their lower-case letters; every other character is unchanged |
| `TitleFilter.Lower` | components/AfishaCalendar.tsx:99 | the lower-cased string has the same length and each character is lower-cased in place |
| `TitleFilter.LowerIdempotent` | components/AfishaCalendar.tsx:99 | lower-casing a lower-cased string changes nothing |
| `TitleFilter.ContainsIffOccurs` | components/AfishaCalendar.tsx:99 | the substring test `Contains` (the model of `includes`) holds iff the needle occurs at some position of the haystack |
| `TitleFilter.Select` | components/AfishaCalendar.tsx:98-100 | the `filter` result is never longer than the list |
| `TitleFilter.FilterByTitle` | components/AfishaCalendar.tsx:97 | an empty query returns the list unchanged |
| `TitleFilter.SelectSpec` | components/AfishaCalendar.tsx:98-100 | the `filter` result is an order-preserving subsequence of the list and holds x iff x is in the list and passes `Matches`, the callback's test that its lower-cased title contains the lower-cased query; every copy of a matching item is kept and every other item is dropped (multiplicity in the result = multiplicity in the list if it matches, else 0) |
| `TitleFilter.FilterByTitleSpec` | components/AfishaCalendar.tsx:96-101 | for every query, the filtered view is an order-preserving subsequence whose members are exactly the list's matching items, each with its multiplicity in the list |
| `TitleFilter.FilterByTitleIdempotent` | components/AfishaCalendar.tsx:96-101 | filtering the filtered view again with the same query gives the same view |
| `TitleFilter.HamletScenario` | components/AfishaCalendar.tsx:96-101 | on "Гамлет" and "Чайка", the query "Гамлет" keeps only "Гамлет" and the empty query keeps both |
| `DayGroups.GroupByDay` | components/AfishaCalendar.tsx:104-118 | the `reduce` into a record keyed by day, read back in key insertion order, yields exactly the specified grouping `Grouped` |
| `DayGroups.BucketEmptyIffAbsent` | components/AfishaCalendar.tsx:112 | a day gets a record key iff some item of the list falls on it |
| `DayGroups.DaysDistinct` | components/AfishaCalendar.tsx:112 | no day key occurs twice among the groups |
| `DayGroups.BucketSpec` | components/AfishaCalendar.tsx:112-113 | a bucket holds exactly the list's items of its day, as an order-preserving subsequence of the list |
| `DayGroups.GroupedDays` | components/AfishaCalendar.tsx:106-113 | every item of a group falls on that group's day |
| `DayGroups.GroupedPartition` | components/AfishaCalendar.tsx:104-118 | every item's day is among the groups, the item is in the group of its day and in no other, and every group is non-empty and keeps the list's order |
| `DayGroups.GroupedSnoc` | components/AfishaCalendar.tsx:112-113 | a further item joins the group of its day if it exists and otherwise opens a new last group holding only it |
| `DayGroups.GroupedKeepsItems` | components/AfishaCalendar.tsx:104-118 | the groups together hold exactly the list's items with their multiplicities |
| `DayGroups.SortedGrouping` | components/AfishaCalendar.tsx:104-118 | for a list ascending by time, the groups are strictly ascending by day, the last group is the last item's day, and concatenating the groups reproduces the list |
| `DayGroups.ExactlyOneAnchor` | components/AfishaCalendar.tsx:164-167 | of the rendered items exactly one, the last of the last group, passes the `isLast` test (`IsLast`); none does when the view is empty; `Anchor`, the item that gets the callback ref, is that item, or none for an empty view |
| `DayGroups.SortedAnchorIsLastItem` | components/AfishaCalendar.tsx:164 | for a list ascending by time the anchor is the list's last item |
| `Calendar.AfishaCalendar.constructor` | components/AfishaCalendar.tsx:16-23 | initial state: empty filter and date, empty list, page 1, `hasMore` true, not loading, no observer |
| `Calendar.AfishaCalendar.StartLoad` | components/AfishaCalendar.tsx:27-45 | `loading` is true while a load is under way, and the request is built from the current date selection |
| `Calendar.AfishaCalendar.FinishLoad` | components/AfishaCalendar.tsx:47-64 | a fetched page is merged (reset or append) and `hasMore` becomes `HasMore`, i.e. page * pageSize < total; items without pagination metadata are merged while `hasMore` keeps its value; a failure before the items keeps the list and `hasMore`; `loading` is false afterwards in every case |
| `Calendar.AfishaCalendar.ApplyLoad` | components/AfishaCalendar.tsx:26-65 | one load as one step: the request sent from the current date; for a page, the merged list and the recomputed flag; for items without metadata, the merged list and the old flag; for a failure, the old list and flag; `loading` false at the end |
| `Calendar.AfishaCalendar.ResetAndLoad` | components/AfishaCalendar.tsx:68-73 | the list is emptied, the page is 1, and page 1 is loaded in reset mode: afterwards the list is the page's items (with or without metadata), or empty if the fetch failed; `hasMore` is recomputed only from a page with metadata and stays true otherwise |
| `Calendar.AfishaCalendar.OnDateChange` | components/AfishaCalendar.tsx:68-73 | a new date resets and reloads page 1 for that date; the same date again changes nothing and fetches nothing |
| `Calendar.AfishaCalendar.Filtered` | components/AfishaCalendar.tsx:96-101 | the memoised filtered list is an order-preserving subsequence of the loaded list holding exactly its items that match the filter text, every copy of a matching item included |
| `Calendar.AfishaCalendar.View` | components/AfishaCalendar.tsx:104-118 | the memoised grouped view has distinct days, every item of a group falls on the group's day, every day of the filtered list has a group, and the groups together hold exactly the filtered list's items with their multiplicities |
| `Calendar.AfishaCalendar.SetFilter` | components/AfishaCalendar.tsx:128-129 | a filter change sets only the filter text; the rendered view is the grouping of the list filtered by the new text |
| `Calendar.AfishaCalendar.OnClearClick` | components/AfishaCalendar.tsx:139-142 | clears the filter and the date; with no date selected nothing is fetched and the list, page, `hasMore` and `loading` keep their values; otherwise page 1 is reloaded with the future-only filter, leaving page 1, `loading` false and the list and flag of a reset load |
| `Calendar.AfishaCalendar.AttachObserver` | components/AfishaCalendar.tsx:76-93 | while loading or with no more pages it does nothing; otherwise it disconnects the current observer and connects one for an element, so at most one observer is connected |
| `Calendar.AfishaCalendar.OnVisible` | components/AfishaCalendar.tsx:82-87 | with a connected observer, an intersecting entry and `hasMore`, the page counter advances by one and that page is appended (or the state kept on failure); otherwise nothing changes and nothing is fetched |
| `Calendar.AfishaCalendar.Render` | components/AfishaCalendar.tsx:149-167 | the rendered groups are the grouping `Grouped` of the filtered list; there is an anchor iff the filtered list is non-empty; unless a load runs or nothing is left, afterwards one observer is connected if there is an anchor and none if there is not (the callback ref's `null` call disconnects it); otherwise the observer count is unchanged |
| `Calendar.TwentyFiveScenario` | components/AfishaCalendar.tsx:58-59 | through the controller's own events: the mount load and two visibility signals accumulate all 25 items, `hasMore` reads true, true, false, and a further signal fetches nothing |
| `Calendar.EmptiedViewScenario` | components/AfishaCalendar.tsx:68-93 | after a date change whose load fails, the empty view has no anchor, the render disconnects the observer, and a later visibility signal fetches nothing and leaves the list empty |
| `Calendar.StaleAppendScenario` | components/AfishaCalendar.tsx:55 | an append result still in flight when the date changes is appended after the new date's first page |
| `StarRating.RoundDiv` | components/StarRating.tsx:12 | the exact `Math.round(a/b)`: the integer r with r - 1/2 <= a/b < r + 1/2 |
| `StarRating.RoundDivUnique` | components/StarRating.tsx:12 | those bounds determine the rounded value |
| `StarRating.FilledStars` | components/StarRating.tsx:12 | the lit-star count is the nearest integer to 5 * rating / maxRating, halves up |
| `StarRating.EmptyStars` | components/StarRating.tsx:13 | filled plus empty stars always make 5 |
| `StarRating.FilledStarsInRange` | components/StarRating.tsx:12-13 | for 0 <= rating <= maxRating, both the filled and the empty count lie in 0..5 |
| `StarRating.ScaledRating` | components/StarRating.tsx:18 | a click on star k reports the nearest integer to k * maxRating / 5, halves up |
| `StarRating.ScaledRatingDefault` | components/StarRating.tsx:11-18 | with the default maxRating of 10, star k reports exactly 2k |
| `StarRating.ScaledRatingInRange` | components/StarRating.tsx:18 | a click on stars 1..5 reports a score in 0..maxRating, and at least 1 when maxRating >= 3 |
| `StarRating.ClickRoundTrip` | components/StarRating.tsx:12-18 | for maxRating >= 5, clicking star k and displaying the reported score lights exactly k stars |
| `StarRating.ClickRoundTripFailsBelowFive` | components/StarRating.tsx:12-18 | for every maxRating from 1 to 4 some star does not survive the round trip, so `ClickRoundTrip`'s bound of 5 cannot be lowered (on a scale of 3, star 1 reports 1 and shows 2 stars; on a scale of 4, star 2 reports 2 and shows 3) |
| `StarRating.Stars` | components/StarRating.tsx:25-36 | five stars with values 1..5; star i is lit iff i <= filledStars; every star is disabled iff no change handler is given |
| `StarRating.LitStarsAreFilled` | components/StarRating.tsx:26-33 | for a score within the scale, exactly `filledStars` stars are lit |
| `StarRating.HandleStarClick` | components/StarRating.tsx:15-21 | a click reports the scaled score iff a change handler is given, and nothing otherwise |

## Left out

- The fetch itself (`fetchPerformances` in `lib/strapi`) is a network call. lib/strapi is not part of this model; its answer is the `Outcome` parameter. The `map` over the response that copies each item (components/AfishaCalendar.tsx:49-52) is the identity on the modelled fields.
- The clock: `new Date().toISOString()` is the `now` parameter. The model does not check its format.
- `console.error` logging of a failure has no observable effect on the state and is not modelled.
- Concurrency of loads. Each load is atomic in `ApplyLoad`, `ResetAndLoad` and `OnVisible`. `StartLoad` and `FinishLoad` can be interleaved with other events by hand, which is how `StaleAppendScenario` shows a late result, but arbitrary async interleavings are not explored.
- Calendar.AfishaCalendar.OnVisible: uses the current `hasMore` and `currentPage`, not the values the observer's closure captured when it was created. They differ only when a stale observer fires after a re-render, which is a timing effect left out with concurrency.
- Calendar.AfishaCalendar.Render: the callback ref is called once per render, with the anchor element or with `null` when there is none, and with the current `loading` and `hasMore`. React's extra `null` call on the previous ref callback when the callback changes (after `loading`, `hasMore` or `currentPage` changes) uses that callback's captured values and is not sequenced. It matters only between a load's start and its end, which the atomic loads do not expose.
- `IntersectionObserver` and `useRef`: replaced by the count of connected observers and the `OnVisible` event. The observer is disconnected only through the callback ref (components/AfishaCalendar.tsx:79). React calls that ref with `null` when the anchor element is removed, so `Render` of a view without an anchor disconnects it unless a load runs or nothing is left to load. Unmounting the whole component calls the ref with `null` in the same way; unmounting is not an event of the model.
- Day labels: `toLocaleDateString('ru-RU', …)` is replaced by the integer UTC day number. The group `sort` (components/AfishaCalendar.tsx:117) parses those labels with `new Date`, which is engine-dependent. Its effect, keeping insertion order, is modelled; date-string parsing is not.
- TitleFilter.LowerChar: models `toLowerCase` only for Latin A-Z and Cyrillic U+0400-U+042F. Full Unicode case mapping, including characters whose lower case has a different length, is not modelled.
- JSX, styling, the loading and "no more" messages, poster URLs, `Link`/`Image` and time-of-day formatting (components/AfishaCalendar.tsx:120-214) are rendering only. The poster reference is not a field of the modelled performance.
- StarRating.FilledStars: rating is an integer and the arithmetic is exact. IEEE-754 `Math.round` on doubles and fractional ratings are not modelled.
- StarRating.FilledStars: requires maxRating > 0. For maxRating 0 the source divides by zero and renders with NaN or Infinity, which is not modelled.
- The auth and comment forms (components/CommentForm.tsx, components/LoginForm.tsx, components/RegisterForm.tsx) only hold `localStorage`, auth calls and one-line empty-field checks.
- The server components (components/Perfomances.tsx, news/page.tsx, news/[id]/page.tsx) only fetch and render. Their string work is URL concatenation and a 140-character excerpt.
- Static layout (components/Header.tsx, components/Footer.tsx, page.tsx) has no logic.
