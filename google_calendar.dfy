/** Fetching one day of events from several calendars and discovering the
    user's calendars. The two remote calls are inputs: `list` is the outcome
    of the calendar-list query and `fetch` answers each events query. */
module GoogleCalendar {
  import opened Js
  import opened Lex
  import opened StableSort
  import opened GCalTypes

  const MsPerDay := 86_400_000

  const CredentialsNotice := "Google Calendar credentials not set."
  const InvalidGrantNotice := "Invalid refresh token. " + "Please check your credentials in the plugin settings."

  /** A remote call the aggregation makes, in the order it makes them. */
  datatype Call = ListCalendars | ListEvents(query: Query)

  /** All three credentials are set (non-empty, so truthy). */
  predicate HasCredentials(s: Settings) {
    s.clientId != "" && s.clientSecret != "" && s.refreshToken != ""
  }

  // ---------------------------------------------------------------------
  // The day window

  /** Local midnight at or before `t`, where local time is `t + offset`. */
  function LocalMidnight(t: int, offset: int): (m: int)
    ensures m <= t < m + MsPerDay
    ensures (m + offset) % MsPerDay == 0
  {
    t - (t + offset) % MsPerDay
  }

  datatype Window = Window(timeMin: int, timeMax: int)

  /** The query window of the day containing `t`. */
  function DayWindow(t: int, offset: int): Window {
    var m := LocalMidnight(t, offset);
    Window(m, m + MsPerDay)
  }

  /** The window is the one-day interval [local midnight, next local
      midnight) that contains `t`, and no other window is. */
  lemma DayWindowSpec(t: int, offset: int, w: Window)
    ensures w == DayWindow(t, offset) <==>
              && w.timeMin <= t < w.timeMax
              && w.timeMax - w.timeMin == MsPerDay
              && (w.timeMin + offset) % MsPerDay == 0
  {
    var m := LocalMidnight(t, offset);
    if w.timeMin <= t < w.timeMax && w.timeMax - w.timeMin == MsPerDay
       && (w.timeMin + offset) % MsPerDay == 0 {
      var a, b := (w.timeMin + offset) / MsPerDay, (m + offset) / MsPerDay;
      assert w.timeMin + offset == a * MsPerDay;
      assert m + offset == b * MsPerDay;
      assert (a - b) * MsPerDay == w.timeMin - m;
      assert -MsPerDay < (a - b) * MsPerDay < MsPerDay;
      assert a == b;
    }
  }

  /** A moment one day later falls in the next, adjacent window. */
  lemma DayWindowNextDay(t: int, offset: int)
    ensures DayWindow(t + MsPerDay, offset)
         == Window(DayWindow(t, offset).timeMax, DayWindow(t, offset).timeMax + MsPerDay)
  {
    assert (t + MsPerDay + offset) % MsPerDay == (t + offset) % MsPerDay;
  }

  // ---------------------------------------------------------------------
  // Tagging, keys and errors

  /** `calendarMap.get(id)` for the map built from the calendar list: the
      summary of the last entry with that id, a later entry overwriting an
      earlier one. */
  function MapGet(entries: seq<CalendarEntry>, id: string): Option<Option<string>> {
    if entries == [] then None
    else if entries[|entries| - 1].id == Some(id) then Some(entries[|entries| - 1].summary)
    else MapGet(entries[..|entries| - 1], id)
  }

  /** `calendarMap.get(id) || id`; a list response without items gives an empty map. */
  function DisplayName(entries: Option<seq<CalendarEntry>>, id: string): string {
    match (if entries.Some? then MapGet(entries.value, id) else None)
    case Some(summary) => Or(summary, id)
    case None => id
  }

  /** The name comes from the last list entry with the id, and falls back to
      the id when that entry has no summary or an empty one. */
  lemma {:induction false} DisplayNameFromLastEntry(entries: seq<CalendarEntry>, id: string, i: nat)
    requires i < |entries| && entries[i].id == Some(id)
    requires forall j :: i < j < |entries| ==> entries[j].id != Some(id)
    ensures DisplayName(Some(entries), id)
         == if Truthy(entries[i].summary) then entries[i].summary.value else id
  {
    if i < |entries| - 1 {
      DisplayNameFromLastEntry(entries[..|entries| - 1], id, i);
    }
  }

  /** An id the calendar list does not mention is shown as itself. */
  lemma {:induction false} DisplayNameUnlisted(entries: seq<CalendarEntry>, id: string)
    requires forall j :: 0 <= j < |entries| ==> entries[j].id != Some(id)
    ensures DisplayName(Some(entries), id) == id
  {
    if entries != [] {
      DisplayNameUnlisted(entries[..|entries| - 1], id);
    }
  }

  /** `{...event, calendarName: name}` for each item. */
  function Tag(items: seq<Event>, name: string): (r: seq<Event>)
    ensures |r| == |items|
    ensures forall i :: 0 <= i < |r| ==>
              r[i].calendarName == Some(name) && r[i].(calendarName := items[i].calendarName) == items[i]
  {
    seq(|items|, i requires 0 <= i < |items| => items[i].(calendarName := Some(name)))
  }

  /** The sort key `start?.dateTime || start?.date || ''`. */
  function StartKey(e: Event): string {
    if e.start.Some? && Truthy(e.start.value.dateTime) then e.start.value.dateTime.value
    else if e.start.Some? && Truthy(e.start.value.date) then e.start.value.date.value
    else ""
  }

  /** The catch block's test for a rejected refresh token. */
  function Classify(e: ApiError): FetchError {
    if e.responseError == Some("invalid_grant") then InvalidGrant else RemoteFailure(e.message)
  }

  /** The notice shown for each kind of failure. */
  function NoticeText(e: FetchError): string {
    match e
    case MissingCredentials => CredentialsNotice
    case InvalidGrant => InvalidGrantNotice
    case RemoteFailure(m) => "Error fetching Google Calendar events: " + m
  }

  /** A rejected refresh token is reported apart from every other failure. */
  lemma InvalidGrantNoticeDistinct(e: ApiError)
    ensures Classify(e) == InvalidGrant <==> e.responseError == Some("invalid_grant")
    ensures Classify(e) != InvalidGrant ==> NoticeText(Classify(e)) != NoticeText(InvalidGrant)
  {
    if Classify(e) != InvalidGrant {
      assert NoticeText(Classify(e))[0] == 'E' && InvalidGrantNotice[0] == 'I';
    }
  }

  // ---------------------------------------------------------------------
  // Aggregation

  /** `settings.calendarIds`, or `['primary']` when it is empty. */
  function QueriedIds(s: Settings): seq<string> {
    if |s.calendarIds| > 0 then s.calendarIds else ["primary"]
  }

  function QueryFor(id: string, w: Window): Query {
    Query(id, w.timeMin, w.timeMax, true, "startTime")
  }

  function Prepend(xs: seq<Event>, r: Result<seq<Event>, FetchError>): Result<seq<Event>, FetchError> {
    match r
    case Ok(v) => Ok(xs + v)
    case Err(e) => Err(e)
  }

  /** The events of the calendars `ids`, queried in order and tagged, before
      sorting; the first query that throws ends the aggregation. */
  function Collect(ids: seq<string>, entries: Option<seq<CalendarEntry>>, w: Window,
                   fetch: Query -> EventsResponse): Result<seq<Event>, FetchError>
  {
    if ids == [] then Ok([])
    else
      match fetch(QueryFor(ids[0], w))
      case EventsFailed(e) => Err(Classify(e))
      case NoItems => Collect(ids[1..], entries, w, fetch)
      case Items(xs) => Prepend(Tag(xs, DisplayName(entries, ids[0])), Collect(ids[1..], entries, w, fetch))
  }

  /** The events queries made for `ids`: one per id, up to the first that throws. */
  function Issued(ids: seq<string>, w: Window, fetch: Query -> EventsResponse): seq<Query> {
    if ids == [] then []
    else [QueryFor(ids[0], w)]
         + (if fetch(QueryFor(ids[0], w)).EventsFailed? then [] else Issued(ids[1..], w, fetch))
  }

  function ItemCount(r: EventsResponse): nat {
    if r.Items? then |r.items| else 0
  }

  /** The number of items the calendars `ids` return. */
  function TotalCount(ids: seq<string>, w: Window, fetch: Query -> EventsResponse): nat {
    if ids == [] then 0 else ItemCount(fetch(QueryFor(ids[0], w))) + TotalCount(ids[1..], w, fetch)
  }

  /** What `getCalendarEvents(settings, date)` returns, with `now` standing
      for `new Date()` and `offset` for the local time zone. */
  function CalendarEvents(s: Settings, date: Option<int>, now: int, offset: int,
                          list: ListResponse, fetch: Query -> EventsResponse): Result<seq<Event>, FetchError>
  {
    if !HasCredentials(s) then Err(MissingCredentials)
    else
      match list
      case ListFailed(e) => Err(Classify(e))
      case ListItems(entries) =>
        match Collect(QueriedIds(s), entries, DayWindow(date.GetOr(now), offset), fetch)
        case Err(e) => Err(e)
        case Ok(all) => Ok(SortBy(all, StartKey))
  }

  /** The remote calls `getCalendarEvents(settings, date)` makes. */
  function CalendarCalls(s: Settings, date: Option<int>, now: int, offset: int,
                         list: ListResponse, fetch: Query -> EventsResponse): seq<Call>
  {
    if !HasCredentials(s) then []
    else if list.ListFailed? then [ListCalendars]
    else [ListCalendars] + Calls(Issued(QueriedIds(s), DayWindow(date.GetOr(now), offset), fetch))
  }

  function Calls(qs: seq<Query>): (cs: seq<Call>)
    ensures |cs| == |qs| && forall i :: 0 <= i < |qs| ==> cs[i] == ListEvents(qs[i])
  {
    seq(|qs|, i requires 0 <= i < |qs| => ListEvents(qs[i]))
  }

  /** getCalendarEvents: the credential gate, the day window, the calendar
      list, the events queries, and a stable sort by start key. */
  method GetCalendarEvents(settings: Settings, date: Option<int>, now: int, offset: int,
                           list: ListResponse, fetch: Query -> EventsResponse)
    returns (r: Result<seq<Event>, FetchError>, calls: seq<Call>)
    ensures r == CalendarEvents(settings, date, now, offset, list, fetch)
    ensures calls == CalendarCalls(settings, date, now, offset, list, fetch)
    ensures !HasCredentials(settings) ==> r == Err(MissingCredentials) && calls == []
  {
    if !HasCredentials(settings) {
      return Err(MissingCredentials), [];
    }
    var target := if date.Some? then date.value else now;
    var window := DayWindow(target, offset);
    if list.ListFailed? {
      return Err(Classify(list.error)), [ListCalendars];
    }
    var collected, issued := CollectEvents(QueriedIds(settings), list.entries, window, fetch);
    calls := [ListCalendars] + Calls(issued);
    match collected {
      case Err(e) => r := Err(e);
      case Ok(allEvents) => r := Ok(SortBy(allEvents, StartKey));
    }
  }

  /** The loop of getCalendarEvents: one events query per calendar id,
      pushing its tagged items, until a query throws. */
  method CollectEvents(ids: seq<string>, entries: Option<seq<CalendarEntry>>, window: Window,
                       fetch: Query -> EventsResponse)
    returns (r: Result<seq<Event>, FetchError>, issued: seq<Query>)
    ensures r == Collect(ids, entries, window, fetch)
    ensures issued == Issued(ids, window, fetch)
  {
    var allEvents: seq<Event> := [];
    issued := [];
    PrependNothing(Collect(ids, entries, window, fetch));
    assert ids[0..] == ids;
    for i := 0 to |ids|
      invariant Collect(ids, entries, window, fetch) == Prepend(allEvents, Collect(ids[i..], entries, window, fetch))
      invariant Issued(ids, window, fetch) == issued + Issued(ids[i..], window, fetch)
    {
      var query := QueryFor(ids[i], window);
      var res := fetch(query);
      CollectFrom(ids, i, entries, window, fetch);
      IssuedFrom(ids, i, window, fetch, issued);
      issued := issued + [query];
      match res {
        case EventsFailed(e) =>
          return Err(Classify(e)), issued;
        case NoItems =>
        case Items(items) =>
          var tagged := Tag(items, DisplayName(entries, ids[i]));
          PrependTwice(allEvents, tagged, Collect(ids[i + 1..], entries, window, fetch));
          allEvents := allEvents + tagged;
      }
    }
    assert ids[|ids|..] == [] && allEvents + [] == allEvents && issued + [] == issued;
    r := Ok(allEvents);
  }

  lemma PrependNothing(r: Result<seq<Event>, FetchError>)
    ensures Prepend([], r) == r
  {
    if r.Ok? {
      assert [] + r.value == r.value;
    }
  }

  lemma PrependTwice(a: seq<Event>, b: seq<Event>, r: Result<seq<Event>, FetchError>)
    ensures Prepend(a, Prepend(b, r)) == Prepend(a + b, r)
  {
    if r.Ok? {
      assert a + (b + r.value) == (a + b) + r.value;
    }
  }

  /** One step of `Collect` at position `i` of `ids`. */
  lemma CollectFrom(ids: seq<string>, i: nat, entries: Option<seq<CalendarEntry>>, w: Window,
                    fetch: Query -> EventsResponse)
    requires i < |ids|
    ensures Collect(ids[i..], entries, w, fetch)
         == match fetch(QueryFor(ids[i], w))
            case EventsFailed(e) => Err(Classify(e))
            case NoItems => Collect(ids[i + 1..], entries, w, fetch)
            case Items(xs) => Prepend(Tag(xs, DisplayName(entries, ids[i])), Collect(ids[i + 1..], entries, w, fetch))
  {
    assert ids[i..][0] == ids[i] && ids[i..][1..] == ids[i + 1..];
  }

  /** One step of `Issued` at position `i` of `ids`, appended to the
      queries issued before it. */
  lemma IssuedFrom(ids: seq<string>, i: nat, w: Window, fetch: Query -> EventsResponse, before: seq<Query>)
    requires i < |ids|
    ensures before + Issued(ids[i..], w, fetch)
         == (before + [QueryFor(ids[i], w)])
            + (if fetch(QueryFor(ids[i], w)).EventsFailed? then [] else Issued(ids[i + 1..], w, fetch))
  {
    assert ids[i..][0] == ids[i] && ids[i..][1..] == ids[i + 1..];
  }

  // ---------------------------------------------------------------------
  // What the aggregation promises

  /** The aggregation succeeds exactly when no events query throws. */
  lemma {:induction false} CollectOkIffNoFailure(ids: seq<string>, entries: Option<seq<CalendarEntry>>, w: Window,
                                                 fetch: Query -> EventsResponse)
    ensures Collect(ids, entries, w, fetch).Ok?
        <==> forall i :: 0 <= i < |ids| ==> !fetch(QueryFor(ids[i], w)).EventsFailed?
  {
    if ids != [] {
      CollectOkIffNoFailure(ids[1..], entries, w, fetch);
      assert forall i :: 1 <= i < |ids| ==> ids[1..][i - 1] == ids[i];
    }
  }

  /** Every item of every calendar is kept and nothing else is added: a
      calendar whose response has no `items` contributes nothing. */
  lemma {:induction false} CollectLength(ids: seq<string>, entries: Option<seq<CalendarEntry>>, w: Window,
                                         fetch: Query -> EventsResponse)
    requires Collect(ids, entries, w, fetch).Ok?
    ensures |Collect(ids, entries, w, fetch).value| == TotalCount(ids, w, fetch)
  {
    if ids != [] {
      CollectLength(ids[1..], entries, w, fetch);
    }
  }

  /** Every collected event carries the display name of a queried calendar. */
  lemma {:induction false} CollectTagged(ids: seq<string>, entries: Option<seq<CalendarEntry>>, w: Window,
                                         fetch: Query -> EventsResponse)
    requires Collect(ids, entries, w, fetch).Ok?
    ensures var all := Collect(ids, entries, w, fetch).value;
            forall k :: 0 <= k < |all| ==>
              exists i :: 0 <= i < |ids| && all[k].calendarName == Some(DisplayName(entries, ids[i]))
  {
    if ids != [] {
      CollectTagged(ids[1..], entries, w, fetch);
      var all := Collect(ids, entries, w, fetch).value;
      var rest := Collect(ids[1..], entries, w, fetch).value;
      var head := all[..|all| - |rest|];
      forall k | 0 <= k < |all|
        ensures exists i :: 0 <= i < |ids| && all[k].calendarName == Some(DisplayName(entries, ids[i]))
      {
        if k < |all| - |rest| {
          assert all[k].calendarName == Some(DisplayName(entries, ids[0]));
        } else {
          var i :| 0 <= i < |ids[1..]| && rest[k - (|all| - |rest|)].calendarName == Some(DisplayName(entries, ids[1..][i]));
          assert all[k] == rest[k - (|all| - |rest|)];
          assert ids[1..][i] == ids[i + 1];
        }
      }
    }
  }

  /** When no query throws, one events query is made per id, in order, each
      for the same window, expanding recurring events, ordered by start. */
  lemma {:induction false} IssuedAll(ids: seq<string>, w: Window, fetch: Query -> EventsResponse)
    requires forall i :: 0 <= i < |ids| ==> !fetch(QueryFor(ids[i], w)).EventsFailed?
    ensures |Issued(ids, w, fetch)| == |ids|
    ensures forall i :: 0 <= i < |ids| ==>
              Issued(ids, w, fetch)[i] == Query(ids[i], w.timeMin, w.timeMax, true, "startTime")
  {
    if ids != [] {
      assert forall i :: 1 <= i < |ids| ==> ids[1..][i - 1] == ids[i];
      IssuedAll(ids[1..], w, fetch);
    }
  }

  /** The calls made: the calendar list, then one query for each id of
      `settings.calendarIds` in order, or for `primary` alone when that list
      is empty; none at all without credentials. */
  lemma AggregationCalls(s: Settings, date: Option<int>, now: int, offset: int,
                         list: ListResponse, fetch: Query -> EventsResponse)
    requires HasCredentials(s) && list.ListItems?
    requires CalendarEvents(s, date, now, offset, list, fetch).Ok?
    ensures var calls := CalendarCalls(s, date, now, offset, list, fetch);
            var ids := if |s.calendarIds| > 0 then s.calendarIds else ["primary"];
            var w := DayWindow(date.GetOr(now), offset);
            && |calls| == |ids| + 1
            && calls[0] == ListCalendars
            && forall i :: 0 <= i < |ids| ==>
                 calls[i + 1] == ListEvents(Query(ids[i], w.timeMin, w.timeMax, true, "startTime"))
  {
    var w := DayWindow(date.GetOr(now), offset);
    CollectOkIffNoFailure(QueriedIds(s), list.entries, w, fetch);
    IssuedAll(QueriedIds(s), w, fetch);
  }

  /** The result is the collected events sorted by start key: a permutation
      of them, as many as the calendars returned, non-decreasing by key, and
      with the events of equal key in their collected order. */
  lemma AggregationSorted(s: Settings, date: Option<int>, now: int, offset: int,
                          entries: Option<seq<CalendarEntry>>, fetch: Query -> EventsResponse,
                          all: seq<Event>)
    requires HasCredentials(s)
    requires Collect(QueriedIds(s), entries, DayWindow(date.GetOr(now), offset), fetch) == Ok(all)
    ensures CalendarEvents(s, date, now, offset, ListItems(entries), fetch).Ok?
    ensures var r := CalendarEvents(s, date, now, offset, ListItems(entries), fetch).value;
            && multiset(r) == multiset(all)
            && |r| == TotalCount(QueriedIds(s), DayWindow(date.GetOr(now), offset), fetch)
            && SortedBy(r, StartKey)
            && SameKeyOrder(r, all, StartKey)
  {
    CollectLength(QueriedIds(s), entries, DayWindow(date.GetOr(now), offset), fetch);
    SortBySorted(all, StartKey);
    forall k ensures WithKey(SortBy(all, StartKey), StartKey, k) == WithKey(all, StartKey, k) {
      SortByStable(all, StartKey, k);
    }
  }

  // ---------------------------------------------------------------------
  // Discovery

  /** What `getAvailableCalendars` returns, and the notice it shows. */
  datatype Discovery = Discovery(calendars: seq<CalendarInfo>, notice: Option<string>)

  /** `{id: cal.id || '', summary: cal.summary || '', primary: cal.primary || false}` */
  function ToInfo(c: CalendarEntry): CalendarInfo {
    CalendarInfo(Or(c.id, ""), Or(c.summary, ""), c.primary == Some(true))
  }

  /** getAvailableCalendars: nothing without credentials or when the list
      call throws (each with its notice), nothing when the list has no
      items, and otherwise one CalendarInfo per item, in order, with absent
      fields defaulted. */
  function AvailableCalendars(s: Settings, list: ListResponse): (d: Discovery)
    ensures !HasCredentials(s) ==> d == Discovery([], Some(CredentialsNotice))
    ensures HasCredentials(s) && list.ListFailed? ==>
              d == Discovery([], Some("Error fetching calendars: " + list.error.message))
    ensures HasCredentials(s) && list.ListItems? ==>
              && d.notice == None
              && |d.calendars| == (if list.entries.Some? then |list.entries.value| else 0)
              && forall i :: 0 <= i < |d.calendars| ==>
                   && d.calendars[i].id == list.entries.value[i].id.GetOr("")
                   && d.calendars[i].summary == list.entries.value[i].summary.GetOr("")
                   && d.calendars[i].primary == list.entries.value[i].primary.GetOr(false)
  {
    if !HasCredentials(s) then Discovery([], Some(CredentialsNotice))
    else
      match list
      case ListFailed(e) => Discovery([], Some("Error fetching calendars: " + e.message))
      case ListItems(None) => Discovery([], None)
      case ListItems(Some(entries)) =>
        Discovery(seq(|entries|, i requires 0 <= i < |entries| => ToInfo(entries[i])), None)
  }
}
