/** The text that the "Insert today's events" editor command puts at the
    cursor. `today` stands for `new Date().toDateString()` and `localTime`
    for the 2-digit `toLocaleTimeString` rendering of an ISO date-time. */
module InsertEvents {
  import opened Js
  import opened GCalTypes

  const Fallback := "No events today.\n"

  function Heading(today: string): string {
    "## " + today + " Events\n\n"
  }

  function TimeText(e: Event, localTime: string -> string): string {
    if Timed(e) then localTime(e.start.value.dateTime.value) + "-" + localTime(e.end.value.dateTime.value)
    else "All-day"
  }

  function LinkText(e: Event): string {
    if Truthy(e.hangoutLink) then " [Join Meeting](" + e.hangoutLink.value + ")" else ""
  }

  /** The line of one event that has a start. */
  function EventLine(e: Event, localTime: string -> string): string {
    "- **" + TimeText(e, localTime) + "**: " + Or(e.summary, "Untitled") + LinkText(e) + "\n"
  }

  /** The lines of the events that have a start, in input order. */
  function EventLines(events: seq<Event>, localTime: string -> string): string {
    if events == [] then ""
    else (if events[0].start.Some? then EventLine(events[0], localTime) else "")
         + EventLines(events[1..], localTime)
  }

  /** What the command inserts for the result of the aggregation. */
  function InsertedText(events: Option<seq<Event>>, today: string, localTime: string -> string): string {
    if events.None? || |events.value| == 0 then Fallback
    else Heading(today) + EventLines(events.value, localTime)
  }

  /** The editor callback of `gcal:insert-events`, building the text with
      `output +=` one event at a time. */
  method InsertTodaysEvents(events: Option<seq<Event>>, today: string, localTime: string -> string)
    returns (output: string)
    ensures output == InsertedText(events, today, localTime)
  {
    if events.Some? && |events.value| > 0 {
      var evs := events.value;
      output := "## " + today + " Events\n\n";
      assert EventLines(evs[..0], localTime) == "" by { assert evs[..0] == []; }
      assert output == Heading(today) + "";
      for i := 0 to |evs|
        invariant output == Heading(today) + EventLines(evs[..i], localTime)
      {
        var event := evs[i];
        ghost var lines := EventLines(evs[..i], localTime);
        EventLinesStep(evs, i, localTime);
        if event.start.None? {
          assert lines + "" == lines;
          continue;
        }
        output := AppendEventLine(output, event, localTime);
        AppendAssoc(Heading(today), lines, EventLine(event, localTime));
      }
      assert evs[..|evs|] == evs;
    } else {
      output := "No events today.\n";
    }
  }

  lemma AppendAssoc(a: string, b: string, c: string)
    ensures (a + b) + c == a + (b + c)
  {
  }

  /** One pass of the loop body for an event with a start: `output +=` the
      bold time, the summary, the optional meeting link and the newline. */
  method AppendEventLine(output: string, event: Event, localTime: string -> string) returns (result: string)
    requires event.start.Some?
    ensures result == output + EventLine(event, localTime)
  {
    var time;
    if Truthy(event.start.value.dateTime) && event.end.Some? && Truthy(event.end.value.dateTime) {
      var startStr := localTime(event.start.value.dateTime.value);
      var endStr := localTime(event.end.value.dateTime.value);
      time := startStr + "-" + endStr;
    } else {
      time := "All-day";
    }
    result := output + ("- **" + time + "**: " + Or(event.summary, "Untitled"));
    if Truthy(event.hangoutLink) {
      result := result + (" [Join Meeting](" + event.hangoutLink.value + ")");
    }
    assert result == output + ("- **" + time + "**: " + Or(event.summary, "Untitled") + LinkText(event));
    result := result + "\n";
  }

  /** The lines of a concatenation are the concatenated lines: events are
      written in input order. */
  lemma {:induction false} EventLinesAppend(a: seq<Event>, b: seq<Event>, localTime: string -> string)
    ensures EventLines(a + b, localTime) == EventLines(a, localTime) + EventLines(b, localTime)
  {
    if a == [] {
      assert a + b == b;
    } else {
      var line := if a[0].start.Some? then EventLine(a[0], localTime) else "";
      assert (a + b)[0] == a[0];
      assert (a + b)[1..] == a[1..] + b;
      EventLinesAppend(a[1..], b, localTime);
      assert EventLines(a + b, localTime) == line + EventLines(a[1..] + b, localTime);
      AppendAssoc(line, EventLines(a[1..], localTime), EventLines(b, localTime));
    }
  }

  lemma EventLinesStep(evs: seq<Event>, i: nat, localTime: string -> string)
    requires i < |evs|
    ensures EventLines(evs[..i + 1], localTime)
         == EventLines(evs[..i], localTime) + (if evs[i].start.Some? then EventLine(evs[i], localTime) else "")
  {
    EventLinesAppend(evs[..i], [evs[i]], localTime);
    assert [evs[i]][1..] == [];
    assert evs[..i + 1] == evs[..i] + [evs[i]];
  }

  /** The fallback line is inserted exactly when there are no events;
      otherwise the text starts with the heading. */
  lemma InsertedTextShape(events: Option<seq<Event>>, today: string, localTime: string -> string)
    ensures InsertedText(events, today, localTime) == Fallback <==> events.None? || events.value == []
    ensures events.Some? && events.value != [] ==>
              Heading(today) <= InsertedText(events, today, localTime)
  {
    if events.Some? && events.value != [] {
      assert InsertedText(events, today, localTime)[0] == '#' && Fallback[0] == 'N';
    }
  }

  /** An event's line starts with the bold time (`All-day` unless both
      ends are timed) and then the summary or `Untitled`, and it ends with a
      newline. */
  lemma EventLineShape(e: Event, localTime: string -> string)
    ensures var line := EventLine(e, localTime);
            && "- **" + TimeText(e, localTime) + "**: " + Or(e.summary, "Untitled") <= line
            && line[|line| - 1] == '\n'
            && (!Timed(e) ==> "- **All-day**: " <= line)
            && (Timed(e) ==> "- **" + localTime(e.start.value.dateTime.value) + "-" <= line)
            && (!Truthy(e.summary) ==> "- **" + TimeText(e, localTime) + "**: Untitled" <= line)
  {
    var line := EventLine(e, localTime);
    var head := "- **" + TimeText(e, localTime) + "**: " + Or(e.summary, "Untitled");
    assert line == head + (LinkText(e) + "\n");
  }

  /** After the title, the line holds the meeting link when there is one,
      and only the newline when there is none. */
  lemma EventLineLink(e: Event, localTime: string -> string)
    ensures var line := EventLine(e, localTime);
            var head := "- **" + TimeText(e, localTime) + "**: " + Or(e.summary, "Untitled");
            && (Truthy(e.hangoutLink) ==> line == head + " [Join Meeting](" + e.hangoutLink.value + ")\n")
            && (!Truthy(e.hangoutLink) ==> line == head + "\n")
  {
  }

  function NewlineCount(s: string): nat {
    if s == [] then 0 else (if s[0] == '\n' then 1 else 0) + NewlineCount(s[1..])
  }

  lemma {:induction false} NewlineCountAppend(a: string, b: string)
    ensures NewlineCount(a + b) == NewlineCount(a) + NewlineCount(b)
  {
    if a == [] {
      assert a + b == b;
    } else {
      assert (a + b)[0] == a[0] && (a + b)[1..] == a[1..] + b;
      NewlineCountAppend(a[1..], b);
    }
  }

  lemma {:induction false} NoNewlineCount(s: string)
    requires '\n' !in s
    ensures NewlineCount(s) == 0
  {
    if s != [] {
      NoNewlineCount(s[1..]);
    }
  }

  /** No text that goes into an event's line holds a line break. */
  predicate SingleLine(e: Event) {
    && (e.summary.Some? ==> '\n' !in e.summary.value)
    && (e.hangoutLink.Some? ==> '\n' !in e.hangoutLink.value)
  }

  /** One line per event that has a start: when no summary, link or time
      rendering holds a line break, the lines are exactly as many as those
      events. */
  lemma {:induction false} OneLinePerEvent(events: seq<Event>, localTime: string -> string)
    requires forall e :: e in events ==> SingleLine(e)
    requires forall t :: '\n' !in localTime(t)
    ensures NewlineCount(EventLines(events, localTime)) == StartCount(events)
  {
    if events != [] {
      var e := events[0];
      OneLinePerEvent(events[1..], localTime);
      var line := if e.start.Some? then EventLine(e, localTime) else "";
      NewlineCountAppend(line, EventLines(events[1..], localTime));
      if e.start.Some? {
        var body := "- **" + TimeText(e, localTime) + "**: " + Or(e.summary, "Untitled") + LinkText(e);
        assert line == body + "\n";
        assert e in events && SingleLine(e);
        assert '\n' !in "Untitled" && '\n' !in " [Join Meeting](" && '\n' !in ")";
        assert '\n' !in TimeText(e, localTime);
        assert '\n' !in Or(e.summary, "Untitled");
        assert '\n' !in LinkText(e);
        assert '\n' !in "- **" && '\n' !in "**: ";
        assert '\n' !in body;
        NoNewlineCount(body);
        NewlineCountAppend(body, "\n");
      }
    }
  }
}
