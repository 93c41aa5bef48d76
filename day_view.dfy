/** The calendar side panel (CalendarView): a header with the shown day and
    the navigation buttons, and a table with one row per event of that day.
    `render` is split into the part that runs before the events arrive and
    the part that runs after, so that other handlers can run in between. */
module DayView {
  import opened Js
  import opened GCalTypes
  import GoogleCalendar

  const MsPerMinute := 60_000
  const MsPerHour := 3_600_000

  // ---------------------------------------------------------------------
  // Durations

  /** `Math.floor(durationMs / (1000 * 60 * 60))` */
  function DurationHours(ms: int): int {
    ms / MsPerHour
  }

  /** `Math.floor((durationMs % (1000 * 60 * 60)) / (1000 * 60))`, with the
      truncating JavaScript `%`. */
  function DurationMinutes(ms: int): int {
    Rem(ms, MsPerHour) / MsPerMinute
  }

  /** For a non-negative duration the hours and minutes split its whole
      minutes: the minutes are below an hour. */
  lemma DurationSplit(ms: int)
    requires ms >= 0
    ensures DurationHours(ms) >= 0
    ensures 0 <= DurationMinutes(ms) < 60
    ensures DurationHours(ms) * 60 + DurationMinutes(ms) == ms / MsPerMinute
  {
    var h, r := ms / MsPerHour, ms % MsPerHour;
    assert ms == h * MsPerHour + r;
    var m, r2 := r / MsPerMinute, r % MsPerMinute;
    assert r == m * MsPerMinute + r2;
    assert ms == (h * 60 + m) * MsPerMinute + r2;
  }

  /** An end before the start gives negative hours and minutes between -60
      and 0: the remainder takes the sign of the duration. */
  lemma DurationNegative(ms: int)
    requires ms < 0
    ensures DurationHours(ms) < 0
    ensures -60 <= DurationMinutes(ms) <= 0
  {
  }

  predicate AllDigits(s: string) {
    forall i :: 0 <= i < |s| ==> IsDigit(s[i])
  }

  /** `` ` (${durationHours}h ${durationMinutes}m)` `` when there is a whole
      hour, `` ` (${durationMinutes}m)` `` otherwise. */
  function DurationSuffix(ms: int): (r: string)
    ensures |r| >= 5 && r[..2] == " (" && r[|r| - 2..] == "m)"
  {
    var h, m := DurationHours(ms), DurationMinutes(ms);
    if h > 0 then " (" + IntString(h) + "h " + IntString(m) + "m)"
    else " (" + IntString(m) + "m)"
  }

  lemma SuffixExamples()
    ensures DurationSuffix(90 * MsPerMinute) == " (1h 30m)"
    ensures DurationSuffix(45 * MsPerMinute) == " (45m)"
  {
    assert DurationHours(90 * MsPerMinute) == 1 && DurationMinutes(90 * MsPerMinute) == 30;
    assert DurationHours(45 * MsPerMinute) == 0 && DurationMinutes(45 * MsPerMinute) == 45;
    assert IntString(1) == "1" && IntString(30) == "30" && IntString(45) == "45";
  }

  /** The position of the first character that is not a digit. */
  function FirstNonDigit(s: string): (n: nat)
    ensures n <= |s|
  {
    if s == [] || !IsDigit(s[0]) then 0 else 1 + FirstNonDigit(s[1..])
  }

  lemma {:induction false} FirstNonDigitAt(a: string, x: char, b: string)
    requires AllDigits(a) && !IsDigit(x)
    ensures FirstNonDigit(a + [x] + b) == |a|
  {
    if a == [] {
      assert (a + [x] + b)[0] == x;
    } else {
      assert (a + [x] + b)[1..] == a[1..] + [x] + b;
      FirstNonDigitAt(a[1..], x, b);
    }
  }

  /** Two digit strings that end at a non-digit split the same way. */
  lemma SplitAtNonDigit(a: string, x: char, b: string, c: string, y: char, d: string)
    requires AllDigits(a) && AllDigits(c) && !IsDigit(x) && !IsDigit(y)
    requires a + [x] + b == c + [y] + d
    ensures a == c && x == y && b == d
  {
    var s := a + [x] + b;
    FirstNonDigitAt(a, x, b);
    FirstNonDigitAt(c, y, d);
    assert s[|a|] == x && (c + [y] + d)[|c|] == y;
    assert a == s[..|a|] && c == (c + [y] + d)[..|c|];
    assert b == s[|a| + 1..] && d == (c + [y] + d)[|c| + 1..];
  }

  /** The suffix mentions hours exactly when there is at least one. */
  lemma SuffixShowsHours(ms: int)
    requires ms >= 0
    ensures 'h' in DurationSuffix(ms) <==> DurationHours(ms) > 0
  {
    DurationSplit(ms);
    var h, m := DurationHours(ms), DurationMinutes(ms);
    if h > 0 {
      assert (" (" + IntString(h) + "h " + IntString(m) + "m)")[2 + |IntString(h)|] == 'h';
    } else {
      var digits := IntString(m);
      assert 'h' !in digits by {
        forall i | 0 <= i < |digits| ensures digits[i] != 'h' {
          assert IsDigit(digits[i]);
        }
      }
      assert DurationSuffix(ms) == " (" + digits + "m)";
    }
  }

  /** The suffix after ` (`, cut where the digits end. */
  lemma SuffixParts(ms: int)
    requires ms >= 0
    ensures DurationHours(ms) >= 0 && DurationMinutes(ms) >= 0
    ensures DurationSuffix(ms)[2..]
         == if DurationHours(ms) > 0
            then NatString(DurationHours(ms)) + ['h'] + ([' '] + (NatString(DurationMinutes(ms)) + ['m'] + [')']))
            else NatString(DurationMinutes(ms)) + ['m'] + [')']
  {
    DurationSplit(ms);
    var h, m := DurationHours(ms), DurationMinutes(ms);
    var s := DurationSuffix(ms);
    if h > 0 {
      assert s == " (" + NatString(h) + "h " + NatString(m) + "m)";
    } else {
      assert s == " (" + NatString(m) + "m)";
    }
  }

  /** The minutes part of the suffix determines the minutes. */
  lemma MinutesTextInjective(m1: nat, m2: nat)
    requires NatString(m1) + ['m'] + [')'] == NatString(m2) + ['m'] + [')']
    ensures m1 == m2
  {
    SplitAtNonDigit(NatString(m1), 'm', [')'], NatString(m2), 'm', [')']);
    ParseNatString(m1);
    ParseNatString(m2);
  }

  lemma ConsInjective(c: char, x: string, y: string)
    requires [c] + x == [c] + y
    ensures x == y
  {
    assert x == ([c] + x)[1..];
  }

  /** The hours-and-minutes part of the suffix determines both numbers. */
  lemma HoursTextInjective(h1: nat, m1: nat, h2: nat, m2: nat)
    requires NatString(h1) + ['h'] + ([' '] + (NatString(m1) + ['m'] + [')']))
          == NatString(h2) + ['h'] + ([' '] + (NatString(m2) + ['m'] + [')']))
    ensures h1 == h2 && m1 == m2
  {
    var t1, t2 := NatString(m1) + ['m'] + [')'], NatString(m2) + ['m'] + [')'];
    SplitAtNonDigit(NatString(h1), 'h', [' '] + t1, NatString(h2), 'h', [' '] + t2);
    ParseNatString(h1);
    ParseNatString(h2);
    ConsInjective(' ', t1, t2);
    MinutesTextInjective(m1, m2);
  }

  /** Equal suffixes with hours have equal hours and minutes. */
  lemma SuffixWithHoursInjective(ms1: int, ms2: int)
    requires ms1 >= 0 && ms2 >= 0 && DurationHours(ms1) > 0 && DurationHours(ms2) > 0
    requires DurationSuffix(ms1) == DurationSuffix(ms2)
    ensures DurationHours(ms1) == DurationHours(ms2) && DurationMinutes(ms1) == DurationMinutes(ms2)
  {
    SuffixParts(ms1);
    SuffixParts(ms2);
    HoursTextInjective(DurationHours(ms1), DurationMinutes(ms1), DurationHours(ms2), DurationMinutes(ms2));
  }

  /** Equal suffixes without hours have equal minutes. */
  lemma SuffixWithoutHoursInjective(ms1: int, ms2: int)
    requires ms1 >= 0 && ms2 >= 0 && DurationHours(ms1) <= 0 && DurationHours(ms2) <= 0
    requires DurationSuffix(ms1) == DurationSuffix(ms2)
    ensures DurationMinutes(ms1) == DurationMinutes(ms2)
  {
    SuffixParts(ms1);
    SuffixParts(ms2);
    MinutesTextInjective(DurationMinutes(ms1), DurationMinutes(ms2));
  }

  /** The suffix of a non-negative duration shows exactly its whole
      minutes: two durations get the same suffix if and only if they last
      the same number of whole minutes. */
  lemma SuffixShowsMinutes(ms1: int, ms2: int)
    requires ms1 >= 0 && ms2 >= 0
    ensures DurationSuffix(ms1) == DurationSuffix(ms2) <==> ms1 / MsPerMinute == ms2 / MsPerMinute
  {
    DurationSplit(ms1);
    DurationSplit(ms2);
    if DurationSuffix(ms1) == DurationSuffix(ms2) {
      SuffixShowsHours(ms1);
      SuffixShowsHours(ms2);
      if DurationHours(ms1) > 0 {
        SuffixWithHoursInjective(ms1, ms2);
      } else {
        SuffixWithoutHoursInjective(ms1, ms2);
      }
    }
  }

  // ---------------------------------------------------------------------
  // Rows

  /** The time cell: the start time and the duration for a timed event,
      `All-day` otherwise. `localTime` renders a date-time as
      `toLocaleTimeString` does; `parse` gives a date-time's timestamp. */
  function TimeCell(e: Event, localTime: string -> string, parse: string -> int): string {
    if Timed(e) then
      localTime(e.start.value.dateTime.value)
        + DurationSuffix(parse(e.end.value.dateTime.value) - parse(e.start.value.dateTime.value))
    else "All-day"
  }

  /** The cell reads `All-day` exactly for events that are not timed. */
  lemma TimeCellAllDay(e: Event, localTime: string -> string, parse: string -> int)
    ensures TimeCell(e, localTime, parse) == "All-day" <==> !Timed(e)
  {
    if Timed(e) {
      var cell := TimeCell(e, localTime, parse);
      var suffix := DurationSuffix(parse(e.end.value.dateTime.value) - parse(e.start.value.dateTime.value));
      assert cell[|cell| - 1] == suffix[|suffix| - 1] == ')';
    }
  }

  /** The calendar-source label: `` ` • ${calendarName}` `` for a
      non-empty name other than `primary`. */
  function SourceLabel(calendarName: Option<string>): (r: Option<string>)
    ensures r.Some? <==> Truthy(calendarName) && calendarName.value != "primary"
    ensures r.Some? ==> |r.value| == |calendarName.value| + 3
    ensures r.Some? ==> r.value[..3] == " \U{2022} " && r.value[3..] == calendarName.value
  {
    if Truthy(calendarName) && calendarName.value != "primary" then Some(" \U{2022} " + calendarName.value)
    else None
  }

  /** A table row: the time cell, the meeting-link anchor when there is a
      link, the title, and the calendar-source label. */
  datatype Row = Row(time: string, meetLink: Option<string>, title: string, source: Option<string>)

  function RowOf(e: Event, localTime: string -> string, parse: string -> int): (r: Row)
    ensures r.meetLink.Some? <==> Truthy(e.hangoutLink)
    ensures r.meetLink.Some? ==> r.meetLink.value == e.hangoutLink.value
    ensures r.title == (if e.summary.Some? then e.summary.value else "")
  {
    Row(TimeCell(e, localTime, parse),
        if Truthy(e.hangoutLink) then Some(e.hangoutLink.value) else None,
        Or(e.summary, ""),
        SourceLabel(e.calendarName))
  }

  /** The rows of the events that have a start, in input order. */
  function Rows(events: seq<Event>, localTime: string -> string, parse: string -> int): seq<Row> {
    if events == [] then [] else RowIfStarted(events[0], localTime, parse) + Rows(events[1..], localTime, parse)
  }

  /** `if (!event.start) continue;` */
  function RowIfStarted(e: Event, localTime: string -> string, parse: string -> int): seq<Row> {
    if e.start.Some? then [RowOf(e, localTime, parse)] else []
  }

  lemma {:induction false} RowsAppend(a: seq<Event>, b: seq<Event>, localTime: string -> string, parse: string -> int)
    ensures Rows(a + b, localTime, parse) == Rows(a, localTime, parse) + Rows(b, localTime, parse)
  {
    if a == [] {
      assert a + b == b;
    } else {
      assert (a + b)[1..] == a[1..] + b;
      RowsAppend(a[1..], b, localTime, parse);
    }
  }

  /** One row per event with a start, none for the others. */
  lemma {:induction false} RowsCount(events: seq<Event>, localTime: string -> string, parse: string -> int)
    ensures |Rows(events, localTime, parse)| == StartCount(events)
  {
    if events != [] {
      RowsCount(events[1..], localTime, parse);
    }
  }

  /** The loop of `render` that adds one row per event with a start. */
  method BuildRows(events: seq<Event>, localTime: string -> string, parse: string -> int)
    returns (rows: seq<Row>)
    ensures rows == Rows(events, localTime, parse)
  {
    rows := [];
    for i := 0 to |events|
      invariant rows == Rows(events[..i], localTime, parse)
    {
      var event := events[i];
      RowsAppend(events[..i], [event], localTime, parse);
      assert events[..i + 1] == events[..i] + [event];
      if event.start.None? {
        continue;
      }
      var row := RowOf(event, localTime, parse);
      rows := rows + [row];
    }
    assert events[..|events|] == events;
  }

  /** With the default calendar list (`primary` only), the events carry the
      name `primary` unless the calendar list has an entry with that id, and
      then no row shows a source label. */
  lemma PrimaryHasNoLabel(entries: seq<CalendarEntry>, items: seq<Event>,
                          localTime: string -> string, parse: string -> int)
    requires forall j :: 0 <= j < |entries| ==> entries[j].id != Some("primary")
    ensures forall e :: e in GoogleCalendar.Tag(items, GoogleCalendar.DisplayName(Some(entries), "primary")) ==>
              RowOf(e, localTime, parse).source == None
  {
    GoogleCalendar.DisplayNameUnlisted(entries, "primary");
  }

  // ---------------------------------------------------------------------
  // The view's state machine

  const NothingToday := "Nothing today!"
  const LoadError := "Error loading calendar events"

  /** What the awaited `getCalendarEvents` call gave the second half of
      `render`: a result, or an exception thrown while the rows were built. */
  datatype Outcome = Returned(events: Option<seq<Event>>) | Threw

  /** The view's fields and what it shows: the day (`currentDate`, a
      timestamp), the loading flag, whether `onOpen` has built the header
      and the buttons, the buttons' disabled flags, the number of loading
      indicators, the day the header shows, the table bodies, the messages
      (the `p` elements) and the number of renders still waiting for events. */
  datatype ViewState = ViewState(
    settings: Settings,
    currentDate: int,
    isLoading: bool,
    isOpen: bool,
    prevDisabled: bool,
    nextDisabled: bool,
    loaders: nat,
    headerDate: int,
    bodies: seq<seq<Row>>,
    messages: seq<string>,
    pending: nat)

  datatype Click = Prev | Next | Today(now: int) | Refresh

  /** What can happen to the view: it is opened, a button is clicked, the
      settings are saved, or a render's events arrive. */
  datatype Step =
    | Open
    | Clicked(click: Click)
    | SettingsSaved(settings: Settings)
    | Finished(outcome: Outcome, localTime: string -> string, parse: string -> int)

  function Initial(settings: Settings, now: int): ViewState {
    ViewState(settings, now, false, false, false, false, 0, now, [], [], 0)
  }

  /** The loading flag drives both navigation buttons and a single loading
      indicator; renders in flight exist only once the view is open. */
  predicate Consistent(v: ViewState) {
    && v.loaders == (if v.isLoading then 1 else 0)
    && v.prevDisabled == v.isLoading
    && v.nextDisabled == v.isLoading
    && (v.isLoading ==> v.pending > 0)
    && (v.pending > 0 ==> v.isOpen)
  }

  /** `setLoadingState(loading)` */
  function LoadingSet(v: ViewState, loading: bool): ViewState {
    v.(isLoading := loading, prevDisabled := loading, nextDisabled := loading,
       loaders := if loading && v.loaders == 0 then 1
                  else if !loading && v.loaders > 0 then v.loaders - 1
                  else v.loaders)
  }

  /** The flag and both buttons follow `loading`, and a view with at most
      one indicator ends with one exactly when loading. */
  lemma LoadingSetSpec(v: ViewState, loading: bool)
    ensures var w := LoadingSet(v, loading);
            && w.isLoading == loading && w.prevDisabled == loading && w.nextDisabled == loading
            && (v.loaders <= 1 ==> w.loaders == (if loading then 1 else 0))
            && w.(isLoading := v.isLoading, prevDisabled := v.prevDisabled,
                  nextDisabled := v.nextDisabled, loaders := v.loaders) == v
  {
  }

  /** The first half of `render`: the header shows the current day, the
      table and the messages are cleared, loading starts. */
  function RenderStarted(v: ViewState): ViewState {
    LoadingSet(v.(headerDate := v.currentDate, bodies := [], messages := []), true)
      .(pending := v.pending + 1)
  }

  /** The second half of `render`: a table body for a non-empty result, a
      message otherwise, and loading stops. */
  function RenderFinished(v: ViewState, o: Outcome, localTime: string -> string, parse: string -> int): ViewState
    requires v.pending > 0
  {
    var shown :=
      if o.Returned? && o.events.Some? && |o.events.value| > 0 then
        v.(bodies := v.bodies + [Rows(o.events.value, localTime, parse)])
      else if o.Returned? then v.(messages := v.messages + [NothingToday])
      else v.(messages := v.messages + [LoadError]);
    LoadingSet(shown, false).(pending := v.pending - 1)
  }

  /** The day a click asks for: one day back or forward, or today. */
  function ClickedDate(v: ViewState, c: Click): int {
    match c
    case Prev => v.currentDate - GoogleCalendar.MsPerDay
    case Next => v.currentDate + GoogleCalendar.MsPerDay
    case Today(now) => now
    case Refresh => v.currentDate
  }

  /** The host opens a view once; the buttons exist once the view is open;
      events arrive only for a render that is waiting for them. */
  predicate Enabled(v: ViewState, step: Step) {
    match step
    case Open => !v.isOpen
    case Clicked(_) => v.isOpen
    case Finished(_, _, _) => v.pending > 0
    case _ => true
  }

  function After(v: ViewState, step: Step): ViewState
    requires Enabled(v, step)
  {
    match step
    case Open => RenderStarted(v.(isOpen := true, loaders := 0))
    case Clicked(c) => if v.isLoading then v else RenderStarted(v.(currentDate := ClickedDate(v, c)))
    case SettingsSaved(s) => if v.isOpen then RenderStarted(v.(settings := s)) else v.(settings := s)
    case Finished(o, localTime, parse) => RenderFinished(v, o, localTime, parse)
  }

  /** Every step keeps the view consistent. */
  lemma StepConsistent(v: ViewState, step: Step)
    requires Consistent(v) && Enabled(v, step)
    ensures Consistent(After(v, step))
  {
  }

  /** While loading, every click leaves the view as it is. */
  lemma ClickWhileLoading(v: ViewState, c: Click)
    requires v.isOpen && v.isLoading
    ensures After(v, Clicked(c)) == v
  {
  }

  /** Otherwise prev and next move the day by one day, today resets it,
      refresh keeps it, and each starts a render of that day. */
  lemma ClickRenders(v: ViewState, c: Click)
    requires Consistent(v) && v.isOpen && !v.isLoading
    ensures var w := After(v, Clicked(c));
            && w.currentDate == (match c
                                 case Prev => v.currentDate - GoogleCalendar.MsPerDay
                                 case Next => v.currentDate + GoogleCalendar.MsPerDay
                                 case Today(now) => now
                                 case Refresh => v.currentDate)
            && w.isLoading && w.prevDisabled && w.nextDisabled && w.loaders == 1
            && w.headerDate == w.currentDate && w.bodies == [] && w.messages == []
            && w.pending == v.pending + 1 && w.settings == v.settings
  {
  }

  /** When a render's events arrive, loading stops and the view shows the
      rows of a non-empty result, `Nothing today!` for an empty or missing
      one, or the error message. */
  lemma FinishShows(v: ViewState, o: Outcome, localTime: string -> string, parse: string -> int)
    requires Consistent(v) && v.pending > 0
    ensures var w := After(v, Finished(o, localTime, parse));
            && !w.isLoading && !w.prevDisabled && !w.nextDisabled && w.loaders == 0
            && w.pending == v.pending - 1
            && w.currentDate == v.currentDate && w.headerDate == v.headerDate
            && match o
               case Returned(Some(evs)) =>
                 if evs != [] then
                   w.bodies == v.bodies + [Rows(evs, localTime, parse)] && w.messages == v.messages
                   && |w.bodies[|w.bodies| - 1]| == StartCount(evs)
                 else w.bodies == v.bodies && w.messages == v.messages + [NothingToday]
               case Returned(None) => w.bodies == v.bodies && w.messages == v.messages + [NothingToday]
               case Threw => w.bodies == v.bodies && w.messages == v.messages + [LoadError]
  {
    if o.Returned? && o.events.Some? && o.events.value != [] {
      RowsCount(o.events.value, localTime, parse);
    }
  }

  /** A render that no other step interrupts shows either one table body
      or one message, never both. */
  lemma LoneRenderShowsOneThing(v: ViewState, c: Click, o: Outcome,
                                localTime: string -> string, parse: string -> int)
    requires Consistent(v) && v.isOpen && !v.isLoading
    ensures var w := After(v, Clicked(c));
            w.pending > 0 &&
            var u := After(w, Finished(o, localTime, parse));
            |u.bodies| + |u.messages| == 1 && !u.isLoading
  {
  }

  /** A sequence of steps, each enabled in the state it is taken in. */
  predicate Runs(v: ViewState, steps: seq<Step>)
    decreases |steps|
  {
    steps == [] || (Enabled(v, steps[0]) && Runs(After(v, steps[0]), steps[1..]))
  }

  function Run(v: ViewState, steps: seq<Step>): ViewState
    requires Runs(v, steps)
    decreases |steps|
  {
    if steps == [] then v else Run(After(v, steps[0]), steps[1..])
  }

  /** Whatever happens after the view is created, it stays consistent: the
      buttons are disabled and one indicator is shown exactly while loading. */
  lemma {:induction false} RunConsistent(v: ViewState, steps: seq<Step>)
    requires Consistent(v) && Runs(v, steps)
    ensures Consistent(Run(v, steps))
    decreases |steps|
  {
    if steps != [] {
      StepConsistent(v, steps[0]);
      RunConsistent(After(v, steps[0]), steps[1..]);
    }
  }

  /** CalendarView, with the fields `render` and the handlers update. */
  class CalendarView {
    var settings: Settings
    var currentDate: int
    var isLoading: bool
    var isOpen: bool
    var prevDisabled: bool
    var nextDisabled: bool
    var loaders: nat
    var headerDate: int
    var bodies: seq<seq<Row>>
    var messages: seq<string>
    var pending: nat

    function State(): ViewState
      reads this
    {
      ViewState(settings, currentDate, isLoading, isOpen, prevDisabled, nextDisabled,
                loaders, headerDate, bodies, messages, pending)
    }

    constructor(settings: Settings, now: int)
      ensures State() == Initial(settings, now)
      ensures Consistent(State())
    {
      this.settings := settings;
      currentDate := now;
      isLoading := false;
      isOpen := false;
      prevDisabled := false;
      nextDisabled := false;
      loaders := 0;
      headerDate := now;
      bodies := [];
      messages := [];
      pending := 0;
    }

    method SetLoadingState(loading: bool)
      requires isOpen
      modifies this
      ensures State() == LoadingSet(old(State()), loading)
    {
      isLoading := loading;
      prevDisabled := loading;
      nextDisabled := loading;
      if loading && loaders == 0 {
        loaders := 1;
      } else if !loading && loaders > 0 {
        loaders := loaders - 1;
      }
    }

    /** The first half of `render`; returns the day whose events it asks for. */
    method Render() returns (requested: int)
      requires isOpen
      modifies this
      ensures State() == RenderStarted(old(State()))
      ensures requested == currentDate
    {
      headerDate := currentDate;
      bodies := [];
      messages := [];
      SetLoadingState(true);
      pending := pending + 1;
      requested := currentDate;
    }

    /** The second half of `render`, once the events have arrived. */
    method FinishRender(outcome: Outcome, localTime: string -> string, parse: string -> int)
      requires isOpen && pending > 0
      modifies this
      ensures State() == After(old(State()), Finished(outcome, localTime, parse))
    {
      if outcome.Returned? && outcome.events.Some? && |outcome.events.value| > 0 {
        var rows := BuildRows(outcome.events.value, localTime, parse);
        bodies := bodies + [rows];
      } else if outcome.Returned? {
        messages := messages + [NothingToday];
      } else {
        messages := messages + [LoadError];
      }
      SetLoadingState(false);
      pending := pending - 1;
    }

    /** `onOpen`: builds the header and the buttons, then renders. */
    method OnOpen() returns (requested: int)
      requires !isOpen
      modifies this
      ensures State() == After(old(State()), Open)
      ensures requested == currentDate
    {
      isOpen := true;
      loaders := 0;
      bodies := [];
      messages := [];
      headerDate := currentDate;
      prevDisabled := false;
      nextDisabled := false;
      requested := Render();
    }

    /** A click on one of the four buttons; nothing happens while loading,
        and otherwise the render it starts asks for the returned day. */
    method OnClick(c: Click) returns (requested: Option<int>)
      requires isOpen
      modifies this
      ensures State() == After(old(State()), Clicked(c))
      ensures requested == if old(isLoading) then None else Some(currentDate)
    {
      if isLoading {
        return None;
      }
      match c {
        case Prev => currentDate := currentDate - GoogleCalendar.MsPerDay;
        case Next => currentDate := currentDate + GoogleCalendar.MsPerDay;
        case Today(now) => currentDate := now;
        case Refresh =>
      }
      var day := Render();
      requested := Some(day);
    }

    /** `updateSettings`: renders without looking at the loading flag.
        Before `onOpen` the header does not exist yet and the render stops
        at once, so nothing but the settings changes. */
    method UpdateSettings(s: Settings) returns (requested: Option<int>)
      modifies this
      ensures State() == After(old(State()), SettingsSaved(s))
      ensures requested == if old(isOpen) then Some(currentDate) else None
    {
      settings := s;
      if !isOpen {
        return None;
      }
      var day := Render();
      requested := Some(day);
    }
  }
}
