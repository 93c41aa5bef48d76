# Google Calendar for Obsidian — a verified model

This Dafny project models the core of an Obsidian plugin that shows Google
Calendar events. The model covers five parts of the plugin:

- **Event aggregation** (`getCalendarEvents`). The plugin checks the three
  credentials and computes the local-day window of the requested date. It
  fetches the calendar list once, then makes one events query per selected
  calendar (or `primary` alone when none is selected). Each item is tagged
  with the display name of its calendar. All events are sorted by their start
  key with a stable sort. A rejected refresh token is reported apart from
  every other failure.
- **Calendar discovery** (`getAvailableCalendars`): the calendar-list
  items, with absent fields defaulted.
- **The "Insert today's events" command.** It builds Markdown text with one
  line per event that has a start.
- **The settings tab.** The client ID and client secret fields reject blank
  values and store trimmed values. The secret and refresh-token fields show a
  mask and ignore it on edit. The refresh token is stored as typed, blanks
  included. The "Additional Calendars" toggles add an id to `calendarIds` or
  remove it.
- **The calendar side panel** (`CalendarView`). It is a state machine over
  the shown day, the loading flag, the navigation buttons, the loading
  indicator, the table rows and the messages. `render` is split at its
  `await` into `Render` (before the events arrive) and `FinishRender` (after).

The remote calls are inputs:

- `list` is the outcome of the calendar-list query.
- `fetch` answers each events query.
- The aggregation returns the trace of the calls it made.

Renderings that depend on the host locale or clock are function or value
parameters:

- `toLocaleTimeString` is `localTime`.
- `Date` parsing of an ISO date-time is `parse`.
- `new Date()` is `now`.
- `toDateString` is `today`.
- The local time zone is a fixed `offset` in milliseconds.

Modules:

| file | module | contents |
|---|---|---|
| `js.dfy` | `Js` | `undefined`, truthiness, `||`, the truncating `%`, decimal rendering of integers |
| `trim.dfy` | `JsTrim` | `String.prototype.trim` over the ECMAScript white-space set |
| `lex.dfy` | `Lex` | the order of the sort comparator |
| `stable_sort.dfy` | `StableSort` | a stable sort by string key, as `Array.prototype.sort` must be |
| `gcal_types.dfy` | `GCalTypes` | settings, events, calendar-list entries, queries and responses |
| `google_calendar.dfy` | `GoogleCalendar` | `getCalendarEvents` and `getAvailableCalendars` |
| `insert_events.dfy` | `InsertEvents` | the `gcal:insert-events` editor command |
| `settings_tab.dfy` | `SettingsTab` | the settings tab (`GCalSettingTab`) |
| `day_view.dfy` | `DayView` | the `CalendarView` panel |

## Model

| member | source | states |
|---|---|---|
| Js.Rem | src/calendar-view.ts:106 | JavaScript's `%` for a positive divisor: below the divisor in magnitude, equal to the Euclidean remainder for a non-negative dividend, and never positive for a negative one |
| Js.RemOdd | src/calendar-view.ts:106 | the truncating remainder takes the sign of the dividend: `Rem(-a, b) == -Rem(a, b)` |
| Js.NatString | src/calendar-view.ts:108-110 | the rendering of a number in a template literal is a non-empty string of decimal digits without a leading zero |
| Js.ParseNatString | src/calendar-view.ts:108-110 | the decimal rendering reads back as the number it renders |
| Js.IntStringInjective | src/calendar-view.ts:108-110 | distinct integers render as distinct strings |
| JsTrim.Trim | main.ts:118 | definition: `String.prototype.trim`, the value without its leading and its trailing white space |
| JsTrim.LeadingSpace | main.ts:118 | the leading run counted by trim is all white space and is followed by a non-space character or by the end |
| JsTrim.TrailingSpace | main.ts:122 | the trailing run counted by trim is all white space and is preceded by a non-space character or by the start |
| JsTrim.TrimEnds | main.ts:122 | a non-empty trimmed string neither starts nor ends with white space |
| JsTrim.TrimEmptyIffAllSpace | main.ts:118 | `value.trim().length === 0` exactly when the value is all white space |
| JsTrim.TrimIdempotent | main.ts:138 | trimming a trimmed value changes nothing |
| Lex.LexLeReflexive | src/google-calendar.ts:68 | every key sorts no later than itself |
| Lex.LexLeTotal | src/google-calendar.ts:68 | any two keys are comparable |
| Lex.LexLeAntisymmetric | src/google-calendar.ts:68 | two keys that sort no later than each other are equal |
| Lex.LexLeTransitive | src/google-calendar.ts:68 | the comparator's order is transitive |
| Lex.EmptyFirst | src/google-calendar.ts:66-68 | the empty key of an event without a start sorts first, and only the empty key sorts before it |
| Lex.PrefixFirst | src/google-calendar.ts:66-68 | a key sorts no later than its extensions, so an all-day date sorts before the timed events of that day |
| StableSort.Insert | src/google-calendar.ts:65-69 | one insertion step adds exactly the inserted element to the multiset |
| StableSort.SortBy | src/google-calendar.ts:65-69 | the sort returns a permutation of its input |
| StableSort.WithKeyAppend | src/google-calendar.ts:65-69 | the elements with one key, taken from a concatenation, are those of each part in turn |
| StableSort.WithKeyMembers | src/google-calendar.ts:65-69 | the elements selected for a key come from the input and have that key |
| StableSort.SortedHead | src/google-calendar.ts:65-69 | the first element of a sorted sequence has the smallest key |
| StableSort.InsertSorted | src/google-calendar.ts:65-69 | inserting into a sorted sequence keeps it sorted |
| StableSort.SortBySorted | src/google-calendar.ts:65-69 | the sort's result is non-decreasing by key |
| StableSort.InsertStable | src/google-calendar.ts:65-69 | insertion keeps the inserted element ahead of the later elements with the same key |
| StableSort.SortByStable | src/google-calendar.ts:65-69 | elements with equal keys keep their input order |
| StableSort.SameKeyOrderNonEmpty | src/google-calendar.ts:65-69 | sequences with the same order per key are both empty or both not |
| StableSort.SameKeyOrderHeads | src/google-calendar.ts:65-69 | two sorted sequences with the same order per key start with the same element |
| StableSort.SameKeyOrderTails | src/google-calendar.ts:65-69 | with the same first element, the rests also have the same order per key |
| StableSort.SortedStableUnique | src/google-calendar.ts:65-69 | two sorted sequences with the same order per key are equal |
| StableSort.StableSortIsSortBy | src/google-calendar.ts:65-69 | any sorted result that keeps the order of each key is the model's sort, so every conforming stable sort gives the same events |
| GoogleCalendar.StartKey | src/google-calendar.ts:66-67 | definition: the sort key `start?.dateTime || start?.date || ''` |
| GoogleCalendar.DayWindow | src/google-calendar.ts:37-40 | definition: the window from the target's local midnight to one day later |
| GoogleCalendar.MapGet | src/google-calendar.ts:44 | definition: `calendarMap.get(id)`, the summary of the last list entry with that id, or nothing when no entry has it |
| GoogleCalendar.DisplayName | src/google-calendar.ts:59 | definition: `calendarMap.get(calendarId) || calendarId`, with an empty map when the list response has no items |
| GoogleCalendar.Classify | src/google-calendar.ts:72-73 | definition: a failure is a rejected refresh token when the response's error is `invalid_grant`, and otherwise a remote failure carrying the error's message |
| GoogleCalendar.NoticeText | src/google-calendar.ts:72-78 | definition: the credentials notice, the invalid-refresh-token notice, or `Error fetching Google Calendar events: ` followed by the message |
| GoogleCalendar.Collect | src/google-calendar.ts:48-63 | definition: the calendars are queried in order; each response's items are tagged with the calendar's display name and pushed, a response without items adds nothing, and the first query that throws ends with its classified error |
| GoogleCalendar.Issued | src/google-calendar.ts:48-55 | definition: one query per calendar id for the window, up to and including the first one that throws |
| GoogleCalendar.CalendarEvents | src/google-calendar.ts:24-80 | definition: the credentials error without credentials; the classified error when the list call or an events query throws; otherwise the collected events of the selected calendars (or `primary`) for the day of `date` (or of now), sorted by `StartKey` |
| GoogleCalendar.CalendarCalls | src/google-calendar.ts:24-80 | definition: no call without credentials; the list call alone when it throws; otherwise the list call followed by the events queries issued |
| GoogleCalendar.LocalMidnight | src/google-calendar.ts:37-38 | `setHours(0, 0, 0, 0)` gives a local midnight at or before the target, less than a day before it |
| GoogleCalendar.DayWindowSpec | src/google-calendar.ts:37-40 | the query window is the one local day, from midnight to the next midnight, that contains the target, and no other window is |
| GoogleCalendar.DayWindowNextDay | src/google-calendar.ts:37-40 | a target one day later gets the adjacent next window |
| GoogleCalendar.DisplayNameFromLastEntry | src/google-calendar.ts:44-59 | an event's calendar name is the summary of the last list entry with the calendar's id (a later entry overwrites the map), or the id when that summary is missing or empty |
| GoogleCalendar.DisplayNameUnlisted | src/google-calendar.ts:44-59 | an id the calendar list does not mention is shown as itself |
| GoogleCalendar.Tag | src/google-calendar.ts:57-60 | tagging keeps every item and each of its fields, and sets `calendarName` on each |
| GoogleCalendar.InvalidGrantNoticeDistinct | src/google-calendar.ts:72-78 | a failure is classed as a rejected refresh token exactly when the response's error is `invalid_grant`, and every other failure gets a different notice |
| GoogleCalendar.Calls | src/google-calendar.ts:49-55 | one events call per issued query, in order |
| GoogleCalendar.GetCalendarEvents | src/google-calendar.ts:24-80 | the method returns the aggregation's result and its trace of remote calls; without credentials, no call is made and the credentials notice is the outcome |
| GoogleCalendar.CollectEvents | src/google-calendar.ts:48-63 | the loop returns the tagged events of the calendars in order and the queries it issued, stopping at the first query that throws |
| GoogleCalendar.PrependNothing | src/google-calendar.ts:42 | helper: prepending no events leaves a result unchanged (used for the empty `allEvents` the loop starts from) |
| GoogleCalendar.PrependTwice | src/google-calendar.ts:61 | helper: prepending two event lists one after the other is prepending their concatenation (used for successive pushes) |
| GoogleCalendar.CollectFrom | src/google-calendar.ts:48-62 | one loop iteration: a throwing query ends the loop with its error, a response without items adds nothing, and items are tagged and pushed |
| GoogleCalendar.IssuedFrom | src/google-calendar.ts:48-55 | one loop iteration issues exactly one query, and further queries only when it does not throw |
| GoogleCalendar.CollectOkIffNoFailure | src/google-calendar.ts:48-72 | the aggregation succeeds exactly when no events query throws |
| GoogleCalendar.CollectLength | src/google-calendar.ts:56-62 | the collected events number exactly the items the calendars returned |
| GoogleCalendar.CollectTagged | src/google-calendar.ts:57-60 | every collected event carries the display name of one of the queried calendars |
| GoogleCalendar.IssuedAll | src/google-calendar.ts:48-55 | when nothing throws, one query per id is issued, in order, each for the same window, with `singleEvents` and `orderBy: 'startTime'` |
| GoogleCalendar.AggregationCalls | src/google-calendar.ts:43-55 | a successful aggregation calls the calendar list once, then queries each selected calendar in order, or `primary` alone when none is selected |
| GoogleCalendar.AggregationSorted | src/google-calendar.ts:56-71 | the result is a permutation of the collected events, as many as the calendars returned, sorted by start key, with equal keys in collected order |
| GoogleCalendar.ToInfo | src/google-calendar.ts:97-101 | definition: `{id: cal.id || '', summary: cal.summary || '', primary: cal.primary || false}` |
| GoogleCalendar.AvailableCalendars | src/google-calendar.ts:82-106 | no calendars and the credentials notice without credentials; no calendars and an error notice when the list call throws; otherwise one entry per list item, in order, with `''`, `''` and `false` for absent fields |
| InsertEvents.TimeText | main.ts:34-42 | definition: the two local times joined by `-` when both ends have a date-time, `All-day` otherwise |
| InsertEvents.EventLine | main.ts:33-47 | definition: `- **` time `**: `, the summary or `Untitled`, ` [Join Meeting](link)` when there is a link, and a newline |
| InsertEvents.EventLines | main.ts:31-48 | definition: the lines of the events with a start, concatenated in input order |
| InsertEvents.InsertedText | main.ts:29-51 | definition: `No events today.` and a newline for a missing or empty result, otherwise the heading followed by the event lines |
| InsertEvents.InsertTodaysEvents | main.ts:27-53 | the text the loop builds with `output +=` is the fallback line for no events, and otherwise the heading followed by the line of each event with a start, in order |
| InsertEvents.AppendEventLine | main.ts:33-47 | one iteration appends exactly that event's line |
| InsertEvents.EventLinesAppend | main.ts:31-48 | the lines of consecutive events are concatenated in input order |
| InsertEvents.EventLinesStep | main.ts:31-48 | one more event adds its line when it has a start and nothing otherwise |
| InsertEvents.InsertedTextShape | main.ts:29-51 | the fallback is inserted exactly when there are no events, and otherwise the text starts with the heading |
| InsertEvents.EventLineShape | main.ts:34-47 | an event's line starts with the bold time (`All-day` unless both ends are timed, else the start time and a dash) followed by the summary, or `Untitled` when the summary is missing or empty, whether or not there is a link; it ends with a newline |
| InsertEvents.EventLineLink | main.ts:43-47 | after the title, the line holds ` [Join Meeting](link)` and the newline when there is a link, and only the newline when there is none |
| InsertEvents.NewlineCountAppend | main.ts:43-47 | helper: the line-break count of a concatenation is the sum of the counts |
| InsertEvents.NoNewlineCount | main.ts:43-47 | helper: a string without a line break counts none |
| InsertEvents.OneLinePerEvent | main.ts:31-48 | when no summary, link or time rendering holds a line break, the inserted lines are exactly as many as the events with a start |
| SettingsTab.ClientIdEdit | main.ts:117-124 | a blank client ID is rejected with its notice, and any other value is stored trimmed and non-empty |
| SettingsTab.ClientSecretEditAsWritten | main.ts:132-141 | as written: the raw value equal to the mask is ignored, a blank value is rejected with the `Client Secret cannot be empty` notice, and any other value is stored trimmed |
| SettingsTab.MaskWithSpaceStoresMask | main.ts:133-138 | as written, the mask followed by a space passes the mask test, and trimming then stores the mask as the client secret |
| SettingsTab.ClientSecretEdit | main.ts:132-141 | corrected: a blank value is rejected, a value that trims to the mask is ignored, and any other value is stored trimmed, so the mask is never stored |
| SettingsTab.ClientSecretEditAgrees | main.ts:133-138 | the corrected and as-written secret edits differ exactly on values that are not the mask but trim to it |
| SettingsTab.RefreshTokenEdit | main.ts:149-153 | the mask is ignored, and any other value, even a blank one, is stored untrimmed |
| SettingsTab.Without | main.ts:189 | the filter removes every copy of the id, keeps every other id and never grows the list |
| SettingsTab.Toggled | main.ts:184-190 | switching on leaves the list unchanged when the id is already selected and appends it otherwise; switching off removes every copy and keeps the other ids |
| SettingsTab.WithoutAppend | main.ts:189 | the filter keeps the order of the remaining ids |
| SettingsTab.WithoutAbsent | main.ts:189 | removing an absent id changes nothing |
| SettingsTab.WithoutNoDuplicates | main.ts:189 | filtering keeps a duplicate-free list duplicate-free |
| SettingsTab.ToggledNoDuplicates | main.ts:184-190 | toggling never introduces a duplicate id |
| SettingsTab.ToggleOnOff | main.ts:184-190 | switching an unselected calendar on and then off gives back the original list |
| SettingsTab.ToggleTwice | main.ts:184-190 | switching a toggle to the state it is already in changes nothing |
| SettingsTab.NonPrimary | main.ts:177 | the filter keeps exactly the loaded calendars that are not primary, never growing the list |
| SettingsTab.NonPrimaryAppend | main.ts:177 | the filter keeps the calendars in list order |
| SettingsTab.Toggles | main.ts:176-182 | one toggle per non-primary calendar, in list order, each on exactly when its id is selected; every non-primary calendar has its toggle |
| SettingsTab.TogglesAfterToggle | main.ts:176-191 | after a toggle is switched and the tab displayed again, that calendar's toggle shows the new state and every other toggle is as before |
| SettingsTab.SettingsTab.constructor | main.ts:93-98 | the tab starts with the plugin's settings and no loaded calendars |
| SettingsTab.SettingsTab.OnClientIdChange | main.ts:117-124 | the handler's effect is `ClientIdEdit`: only a stored value changes the settings, and the tab's invariant is kept |
| SettingsTab.SettingsTab.OnClientSecretChange | main.ts:132-141 | the handler's effect is the corrected `ClientSecretEdit`, and the mask never enters the settings |
| SettingsTab.SettingsTab.OnRefreshTokenChange | main.ts:149-153 | the handler's effect is `RefreshTokenEdit`, and the invariant is kept |
| SettingsTab.SettingsTab.OnToggle | main.ts:183-191 | `calendarIds` becomes `Toggled(calendarIds, id, value)`, nothing else changes, and no duplicate appears |
| SettingsTab.SettingsTab.LoadCalendars | main.ts:167-174 | the loaded calendars and the notice are those of `getAvailableCalendars`, and the settings are untouched |
| DayView.DurationHours | src/calendar-view.ts:104-105 | definition: `Math.floor(durationMs / 3600000)` |
| DayView.DurationMinutes | src/calendar-view.ts:104-106 | definition: `Math.floor((durationMs % 3600000) / 60000)`, with JavaScript's truncating `%` |
| DayView.DurationSplit | src/calendar-view.ts:104-106 | for a non-negative duration, the hours are non-negative, the minutes are below 60, and together they give the duration's whole minutes |
| DayView.DurationNegative | src/calendar-view.ts:104-106 | an end before the start gives negative hours and minutes between -60 and 0 |
| DayView.DurationSuffix | src/calendar-view.ts:107-111 | the suffix is ` (` ... `m)` |
| DayView.SuffixExamples | src/calendar-view.ts:107-111 | 90 minutes shows as ` (1h 30m)` and 45 minutes as ` (45m)` |
| DayView.FirstNonDigit | src/calendar-view.ts:108-110 | helper: the position of the first non-digit character lies within the string |
| DayView.FirstNonDigitAt | src/calendar-view.ts:108-110 | after a run of digits, the first non-digit is the character that ends the run |
| DayView.SplitAtNonDigit | src/calendar-view.ts:108-110 | a rendered number followed by its unit letter splits only one way |
| DayView.SuffixShowsHours | src/calendar-view.ts:107-111 | the suffix mentions hours exactly when the duration is at least one hour |
| DayView.SuffixParts | src/calendar-view.ts:107-111 | the suffix after ` (` is hours, `h`, a space, minutes and `m)`, or minutes and `m)` alone |
| DayView.MinutesTextInjective | src/calendar-view.ts:108-110 | the minutes text determines the minutes |
| DayView.ConsInjective | src/calendar-view.ts:108 | helper: two strings that are equal after the same first character are equal |
| DayView.HoursTextInjective | src/calendar-view.ts:108 | the hours-and-minutes text determines both numbers |
| DayView.SuffixWithHoursInjective | src/calendar-view.ts:107-108 | equal suffixes with hours have equal hours and minutes |
| DayView.SuffixWithoutHoursInjective | src/calendar-view.ts:109-110 | equal suffixes without hours have equal minutes |
| DayView.SuffixShowsMinutes | src/calendar-view.ts:104-111 | two non-negative durations get the same suffix exactly when they last the same number of whole minutes |
| DayView.TimeCell | src/calendar-view.ts:99-115 | definition: the start's local time followed by the duration suffix for an event with both date-times, `All-day` otherwise |
| DayView.TimeCellAllDay | src/calendar-view.ts:99-115 | the time cell reads `All-day` exactly for events without both a start and an end date-time |
| DayView.SourceLabel | src/calendar-view.ts:130-135 | a source label is shown exactly for a non-empty calendar name other than `primary`, and it is ` • ` followed by the name |
| DayView.RowOf | src/calendar-view.ts:96-135 | a row has a meeting link exactly when the event has one, with that link, and the event's summary or `''` as its title |
| DayView.Rows | src/calendar-view.ts:92-96 | definition: one row per event with a start, in input order |
| DayView.RowsAppend | src/calendar-view.ts:92-136 | the rows of consecutive events are concatenated in input order |
| DayView.RowsCount | src/calendar-view.ts:92-96 | one row per event with a start |
| DayView.BuildRows | src/calendar-view.ts:91-136 | the row-building loop yields exactly the rows of the events with a start, in order |
| DayView.PrimaryHasNoLabel | src/calendar-view.ts:130-135 | with only the primary calendar queried and no list entry with id `primary`, no row shows a source label |
| DayView.LoadingSet | src/calendar-view.ts:147-160 | definition: the flag and both buttons' disabled state follow `loading`; an indicator is added when loading without one and one is removed when not loading with one |
| DayView.RenderStarted | src/calendar-view.ts:74-86 | definition: the header shows the current day, the table and the messages are cleared, `setLoadingState(true)` runs, and one more render is pending |
| DayView.RenderFinished | src/calendar-view.ts:88-144 | definition: a table body with the rows for a non-empty result, `Nothing today!` for an empty or missing one, the error message when the render throws, then `setLoadingState(false)`, with one render fewer pending |
| DayView.After | src/calendar-view.ts:18-144 | definition: `onOpen` marks the view open, clears the indicator and starts a render; a click starts a render of the clicked day unless loading; saved settings replace the settings and re-render an open view; arriving events finish a render |
| DayView.LoadingSetSpec | src/calendar-view.ts:147-160 | `setLoadingState` sets the flag and both buttons' disabled state, leaves one indicator exactly while loading, and changes nothing else |
| DayView.StepConsistent | src/calendar-view.ts:43-160 | every handler, and each half of `render`, keeps the buttons disabled and one indicator shown exactly while loading |
| DayView.ClickWhileLoading | src/calendar-view.ts:44-64 | while loading, every button click leaves the view as it is |
| DayView.ClickRenders | src/calendar-view.ts:43-86 | otherwise prev and next move the day by one day, today resets it to now, refresh keeps it, and each starts a render of that day that clears the table and the messages and disables the buttons |
| DayView.FinishShows | src/calendar-view.ts:88-144 | when the events arrive, loading stops and the view shows one table body with a row per event with a start, `Nothing today!` for an empty or missing result, or the error message when building the rows throws |
| DayView.LoneRenderShowsOneThing | src/calendar-view.ts:83-144 | a render that nothing interrupts leaves exactly one table body or one message |
| DayView.RunConsistent | src/calendar-view.ts:12-160 | whatever sequence of handler calls and event arrivals happens, the view stays consistent |
| DayView.CalendarView.constructor | src/calendar-view.ts:12-16 | a new view shows today, is not loading and is not yet open, and it is consistent, so `RunConsistent` covers every run from creation |
| DayView.CalendarView.SetLoadingState | src/calendar-view.ts:147-160 | the new state is `LoadingSet` of the old one |
| DayView.CalendarView.Render | src/calendar-view.ts:74-86 | the first half of `render`: the header shows the current day, the table and the messages are cleared, loading starts, and the current day's events are requested |
| DayView.CalendarView.FinishRender | src/calendar-view.ts:88-144 | the second half of `render` moves the view as a `Finished` step does |
| DayView.CalendarView.OnOpen | src/calendar-view.ts:35-72 | `onOpen` on a view not yet open empties the container, builds the header and the buttons, and renders the current day |
| DayView.CalendarView.OnClick | src/calendar-view.ts:43-68 | a click moves the view as a `Clicked` step does, and requests the new day unless it was loading |
| DayView.CalendarView.UpdateSettings | src/calendar-view.ts:18-21 | the settings are replaced, and an open view re-renders without looking at the loading flag |

## Left out

- The OAuth client, the HTTP requests and the `googleapis` library are not modelled. The calendar-list outcome and each events-query outcome are inputs.
- Notices (`new Notice`) are not shown. The notice text a call would show is part of its result instead.
- DOM building is not modelled. The view's table bodies, rows, messages and loading indicator are values in the view's state. The CSS classes, the `🎥` anchor text and the `target` attribute are left out.
- Time zones and daylight-saving time are not modelled. Local time is the timestamp plus a fixed offset, so `setHours(0, 0, 0, 0)` and `setDate(±1)` move by whole days of 86 400 000 ms.
- `localeCompare` is modelled as lexicographic order on code points. Locale collation rules are out of scope.
- `toISOString`, `toLocaleTimeString` and `toDateString` are not modelled. The window bounds stay timestamps, and the two time renderings are parameters.
- Date parsing of ISO strings (`new Date(...)`) is the parameter `parse`. An invalid date (NaN duration) is not modelled.
- `Math.floor` of a float division is modelled as exact integer division. No floating point is involved.
- `error.message` is an input field of the thrown error. Errors that are not API errors are treated the same way.
- A second `onOpen` on a view that is already open is not modelled: the host opens each view once, and the `Open` step is enabled only for a view not yet open.
- `CalendarView.onClose`, `getViewType`, `getDisplayText` and `getIcon` are left out. They are view registration and listener cleanup in the host application.
- `GCalPlugin.onload`, `activateView`, `loadSettings` and `saveSettings` are left out. They do command and view registration, workspace leaf handling and persistence. The settings tab stores into its own `settings` field. The save, and the `updateSettings` call on every open view, are left to the caller, and the settings object shared between the plugin, the tab and the views is not modelled.
- The "Load Calendars" button's text and disabled state during loading are left out. The `this.display()` call after loading (main.ts:173) is not a step of the model; what a display shows is the function `Toggles`.
- An exception partway through building the rows is modelled as the `Threw` outcome, with no rows shown. The rows appended before the exception are not modelled.
- Overlapping renders are modelled as a count of pending renders, and their completions as steps in any order. The awaits inside `getCalendarEvents` are not interleaved with other handlers: the aggregation is one step.
- SettingsTab.SettingsTab.OnClientSecretChange: implements the corrected mask test (`ClientSecretEdit`), not the code as written (`ClientSecretEditAsWritten`); see Findings.

## Findings

| source | as written | input that shows it | evidently intended | confidence | as-written member | corrected member |
|---|---|---|---|---|---|---|
| main.ts:133-138 | the mask test compares the raw field value with the sixteen-bullet mask, but the value stored is the trimmed one | the mask followed by a space (a stray key press in the masked field) passes the test and stores the sixteen bullets as the client secret | a value that trims to the mask is ignored, so the mask is never stored as the secret | medium, not executed | SettingsTab.ClientSecretEditAsWritten, SettingsTab.MaskWithSpaceStoresMask | SettingsTab.ClientSecretEdit |
