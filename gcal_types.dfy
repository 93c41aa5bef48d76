/** The records the plugin exchanges with its settings store and with the
    remote calendar API, in the shapes the API imposes. */
module GCalTypes {
  import opened Js

  /** The persisted plugin settings (GCalPluginSettings). */
  datatype Settings = Settings(
    clientId: string,
    clientSecret: string,
    refreshToken: string,
    calendarIds: seq<string>)

  const DefaultSettings := Settings("", "", "", [])

  /** The start or end of an event: a timed `dateTime` or an all-day `date`,
      both ISO-8601 strings. */
  datatype EventTime = EventTime(dateTime: Option<string>, date: Option<string>)

  /** An event as the API returns it; `calendarName` is absent until the
      aggregation tags the event with the name of its source calendar. */
  datatype Event = Event(
    start: Option<EventTime>,
    end: Option<EventTime>,
    summary: Option<string>,
    hangoutLink: Option<string>,
    calendarName: Option<string>)

  /** `event.start.dateTime && event.end?.dateTime`: both ends carry a
      (non-empty) date-time, so the event is shown with a time range. */
  predicate Timed(e: Event) {
    e.start.Some? && Truthy(e.start.value.dateTime) && e.end.Some? && Truthy(e.end.value.dateTime)
  }

  /** The number of events that have a start; the others are skipped
      wherever events are listed. */
  function StartCount(events: seq<Event>): nat {
    if events == [] then 0 else (if events[0].start.Some? then 1 else 0) + StartCount(events[1..])
  }

  /** One item of the calendar-list response. */
  datatype CalendarEntry = CalendarEntry(
    id: Option<string>,
    summary: Option<string>,
    primary: Option<bool>)

  /** A calendar offered for selection in the settings tab. */
  datatype CalendarInfo = CalendarInfo(id: string, summary: string, primary: bool)

  /** What a failed API call throws: the `error` field of the response body,
      when there is a response with a body, and the error message. */
  datatype ApiError = ApiError(responseError: Option<string>, message: string)

  /** The parameters of one events query; the window bounds are millisecond
      timestamps (sent as their ISO-8601 renderings). */
  datatype Query = Query(
    calendarId: string,
    timeMin: int,
    timeMax: int,
    singleEvents: bool,
    orderBy: string)

  /** The outcome of one events query: the response's `items`, a response
      without `items`, or a thrown error. */
  datatype EventsResponse = Items(items: seq<Event>) | NoItems | EventsFailed(error: ApiError)

  /** The outcome of the calendar-list query. */
  datatype ListResponse = ListItems(entries: Option<seq<CalendarEntry>>) | ListFailed(error: ApiError)

  /** Why the aggregation produced no events; each kind has its own notice. */
  datatype FetchError = MissingCredentials | InvalidGrant | RemoteFailure(message: string)
}
