/** The plugin's settings tab: the three credential fields with their
    validation and masking, and one toggle per non-primary calendar found by
    "Load Calendars", which adds its id to or removes it from `calendarIds`. */
module SettingsTab {
  import opened Js
  import opened JsTrim
  import opened GCalTypes
  import GoogleCalendar

  /** What a field shows in place of a stored secret or token: sixteen
      bullets (U+2022). */
  const Mask: string := "\U{2022}\U{2022}\U{2022}\U{2022}\U{2022}\U{2022}\U{2022}\U{2022}" + "\U{2022}\U{2022}\U{2022}\U{2022}\U{2022}\U{2022}\U{2022}\U{2022}"

  const ClientIdEmpty := "Client ID cannot be empty"
  const ClientSecretEmpty := "Client Secret cannot be empty"

  /** What an edit of a credential field does: it is rejected with a notice,
      ignored (the field still shows the mask), or stores a value. */
  datatype Edit = Rejected(notice: string) | Ignored | Stored(value: string)

  /** The Client ID field: a blank value is rejected, any other is stored
      trimmed. */
  function ClientIdEdit(value: string): (e: Edit)
    ensures e.Rejected? <==> AllSpace(value)
    ensures e.Rejected? ==> e.notice == ClientIdEmpty
    ensures e.Stored? ==> e.value == Trim(value) && e.value != []
    ensures !e.Ignored?
  {
    TrimEmptyIffAllSpace(value);
    if |Trim(value)| == 0 then Rejected(ClientIdEmpty) else Stored(Trim(value))
  }

  /** The Client Secret field as written: the mask test looks at the raw
      value, while the value stored is the trimmed one. */
  function ClientSecretEditAsWritten(value: string): (e: Edit)
    ensures e.Ignored? <==> value == Mask
    ensures e.Rejected? <==> AllSpace(value)
    ensures e.Rejected? ==> e.notice == ClientSecretEmpty
    ensures e.Stored? ==> e.value == Trim(value) && e.value != []
  {
    TrimEmptyIffAllSpace(value);
    assert !IsSpace(Mask[0]);
    if value != Mask then
      if |Trim(value)| == 0 then Rejected(ClientSecretEmpty) else Stored(Trim(value))
    else Ignored
  }

  /** A string without white space at either end trims to itself. */
  lemma TrimUnpadded(s: string)
    requires s != [] && !IsSpace(s[0]) && !IsSpace(s[|s| - 1])
    ensures Trim(s) == s
  {
    assert TrimStart(s) == s;
  }

  /** The mask followed by a space (as left by a stray key press in the
      masked field) passes the raw-value test, and trimming then stores the
      mask itself as the client secret. */
  lemma MaskWithSpaceStoresMask()
    ensures ClientSecretEditAsWritten(Mask + " ") == Stored(Mask)
  {
    var s := Mask + " ";
    assert s != Mask by { assert |s| == 17; }
    assert LeadingSpace(s) == 0 && TrimStart(s) == s;
    assert s[..16] == Mask;
    assert TrailingSpace(s) == 1;
  }

  /** The Client Secret field with the mask test applied to the trimmed
      value: a blank value is rejected, the (possibly padded) mask is
      ignored, and any other value is stored trimmed, so the mask is never
      stored. */
  function ClientSecretEdit(value: string): (e: Edit)
    ensures e.Rejected? <==> AllSpace(value)
    ensures e.Rejected? ==> e.notice == ClientSecretEmpty
    ensures e.Ignored? <==> Trim(value) == Mask
    ensures e.Stored? ==> e.value == Trim(value) && e.value != [] && e.value != Mask
  {
    TrimEmptyIffAllSpace(value);
    if Trim(value) != Mask then
      if |Trim(value)| == 0 then Rejected(ClientSecretEmpty) else Stored(Trim(value))
    else Ignored
  }

  /** The two versions differ only where the raw value is not the mask but
      its trimmed form is. */
  lemma {:induction false} ClientSecretEditAgrees(value: string)
    ensures ClientSecretEdit(value) != ClientSecretEditAsWritten(value)
        <==> value != Mask && Trim(value) == Mask
  {
    if value == Mask {
      TrimUnpadded(Mask);
    }
  }

  /** The Refresh Token field: the mask is ignored, any other value (even a
      blank one) is stored as typed. */
  function RefreshTokenEdit(value: string): (e: Edit)
    ensures !e.Rejected?
    ensures e.Ignored? <==> value == Mask
    ensures e.Stored? ==> e.value == value && e.value != Mask
  {
    if value != Mask then Stored(value) else Ignored
  }

  /** `ids.filter(x => x !== id)` */
  function Without(ids: seq<string>, id: string): (r: seq<string>)
    ensures |r| <= |ids|
    ensures id !in r
    ensures forall x :: x != id ==> (x in r <==> x in ids)
  {
    if ids == [] then []
    else (if ids[0] == id then [] else [ids[0]]) + Without(ids[1..], id)
  }

  /** The calendarIds after the toggle of `id` is switched to `on`. */
  function Toggled(ids: seq<string>, id: string, on: bool): (r: seq<string>)
    ensures on ==> id in r && ids <= r && |r| <= |ids| + 1
    ensures on && id in ids ==> r == ids
    ensures on && id !in ids ==> r == ids + [id]
    ensures !on ==> id !in r && forall x :: x != id ==> (x in r <==> x in ids)
  {
    if on then (if id in ids then ids else ids + [id]) else Without(ids, id)
  }

  predicate NoDuplicates(ids: seq<string>) {
    forall i, j :: 0 <= i < j < |ids| ==> ids[i] != ids[j]
  }

  /** Filtering distributes over concatenation, so the remaining ids keep
      their order. */
  lemma {:induction false} WithoutAppend(a: seq<string>, b: seq<string>, id: string)
    ensures Without(a + b, id) == Without(a, id) + Without(b, id)
  {
    if a == [] {
      assert a + b == b;
    } else {
      assert (a + b)[1..] == a[1..] + b;
      WithoutAppend(a[1..], b, id);
    }
  }

  /** Removing an id that is not there changes nothing. */
  lemma {:induction false} WithoutAbsent(ids: seq<string>, id: string)
    requires id !in ids
    ensures Without(ids, id) == ids
  {
    if ids != [] {
      WithoutAbsent(ids[1..], id);
      assert ids == [ids[0]] + ids[1..];
    }
  }

  lemma {:induction false} WithoutNoDuplicates(ids: seq<string>, id: string)
    requires NoDuplicates(ids)
    ensures NoDuplicates(Without(ids, id))
  {
    if ids != [] {
      WithoutNoDuplicates(ids[1..], id);
      assert ids[0] !in ids[1..];
    }
  }

  /** Toggling never introduces a duplicate id. */
  lemma ToggledNoDuplicates(ids: seq<string>, id: string, on: bool)
    requires NoDuplicates(ids)
    ensures NoDuplicates(Toggled(ids, id, on))
  {
    if !on {
      WithoutNoDuplicates(ids, id);
    }
  }

  /** Switching a toggle on and then off gives back the ids it started
      from, when the id was not selected before. */
  lemma ToggleOnOff(ids: seq<string>, id: string)
    requires id !in ids
    ensures Toggled(Toggled(ids, id, true), id, false) == ids
  {
    WithoutAppend(ids, [id], id);
    WithoutAbsent(ids, id);
    assert Without([id], id) == [];
  }

  /** Switching a toggle to the state it is already in changes nothing. */
  lemma {:induction false} ToggleTwice(ids: seq<string>, id: string, on: bool)
    ensures Toggled(Toggled(ids, id, on), id, on) == Toggled(ids, id, on)
  {
    if !on {
      WithoutAbsent(Without(ids, id), id);
    }
  }

  /** One toggle row: the calendar and whether its toggle is on. */
  datatype Toggle = Toggle(calendar: CalendarInfo, on: bool)

  /** `availableCalendars.filter(c => !c.primary)` */
  function NonPrimary(available: seq<CalendarInfo>): (r: seq<CalendarInfo>)
    ensures |r| <= |available|
    ensures forall c :: c in r <==> c in available && !c.primary
  {
    if available == [] then []
    else (if available[0].primary then [] else [available[0]]) + NonPrimary(available[1..])
  }

  /** The filter keeps the calendars in list order. */
  lemma {:induction false} NonPrimaryAppend(a: seq<CalendarInfo>, b: seq<CalendarInfo>)
    ensures NonPrimary(a + b) == NonPrimary(a) + NonPrimary(b)
  {
    if a == [] {
      assert a + b == b;
    } else {
      assert (a + b)[1..] == a[1..] + b;
      NonPrimaryAppend(a[1..], b);
    }
  }

  /** The rows under "Additional Calendars": one per loaded calendar that
      is not the primary one, in list order, on exactly when its id is
      selected. */
  function Toggles(available: seq<CalendarInfo>, ids: seq<string>): (r: seq<Toggle>)
    ensures |r| == |NonPrimary(available)|
    ensures forall i :: 0 <= i < |r| ==>
              r[i] == Toggle(NonPrimary(available)[i], NonPrimary(available)[i].id in ids)
    ensures forall t :: t in r ==> t.calendar in available && !t.calendar.primary
                                   && (t.on <==> t.calendar.id in ids)
    ensures forall c :: c in available && !c.primary ==> Toggle(c, c.id in ids) in r
  {
    var cs := NonPrimary(available);
    seq(|cs|, i requires 0 <= i < |cs| => Toggle(cs[i], cs[i].id in ids))
  }

  /** After a toggle is switched and the tab is displayed again, that
      calendar's toggle shows the new state and every other toggle is as
      before. */
  lemma TogglesAfterToggle(available: seq<CalendarInfo>, ids: seq<string>, id: string, on: bool)
    ensures var before, after := Toggles(available, ids), Toggles(available, Toggled(ids, id, on));
            && |after| == |before|
            && forall i :: 0 <= i < |after| ==>
                 && after[i].calendar == before[i].calendar
                 && after[i].on == (if before[i].calendar.id == id then on else before[i].on)
  {
  }

  /** The settings tab: the plugin settings it edits and the calendars the
      last "Load Calendars" click found. The settings are the plugin's; a
      stored change is followed by saving them and re-rendering every open
      calendar view, which is not part of this class. */
  class SettingsTab {
    var settings: Settings
    var availableCalendars: seq<CalendarInfo>

    /** No duplicate calendar id, and neither masked field holds the mask.
        The settings loaded from disk need not satisfy it; every handler
        keeps it once it holds. */
    predicate Valid()
      reads this
    {
      && NoDuplicates(settings.calendarIds)
      && settings.clientSecret != Mask
      && settings.refreshToken != Mask
    }

    constructor(settings: Settings)
      ensures this.settings == settings && availableCalendars == []
    {
      this.settings := settings;
      availableCalendars := [];
    }

    method OnClientIdChange(value: string) returns (e: Edit)
      modifies this
      ensures e == ClientIdEdit(value)
      ensures settings == (if e.Stored? then old(settings).(clientId := e.value) else old(settings))
      ensures availableCalendars == old(availableCalendars)
      ensures old(Valid()) ==> Valid()
    {
      var trimmed := Trim(value);
      if |trimmed| == 0 {
        return Rejected(ClientIdEmpty);
      }
      settings := settings.(clientId := trimmed);
      e := Stored(trimmed);
    }

    /** Uses the corrected mask test (see `ClientSecretEditAsWritten`). */
    method OnClientSecretChange(value: string) returns (e: Edit)
      modifies this
      ensures e == ClientSecretEdit(value)
      ensures settings == (if e.Stored? then old(settings).(clientSecret := e.value) else old(settings))
      ensures availableCalendars == old(availableCalendars)
      ensures old(Valid()) ==> Valid()
    {
      var trimmed := Trim(value);
      if trimmed != Mask {
        if |trimmed| == 0 {
          return Rejected(ClientSecretEmpty);
        }
        settings := settings.(clientSecret := trimmed);
        return Stored(trimmed);
      }
      e := Ignored;
    }

    method OnRefreshTokenChange(value: string) returns (e: Edit)
      modifies this
      ensures e == RefreshTokenEdit(value)
      ensures settings == (if e.Stored? then old(settings).(refreshToken := e.value) else old(settings))
      ensures availableCalendars == old(availableCalendars)
      ensures old(Valid()) ==> Valid()
    {
      if value != Mask {
        settings := settings.(refreshToken := value);
        return Stored(value);
      }
      e := Ignored;
    }

    /** The toggle of calendar `id` switched to `value`: push the id if it
        is absent, or replace the list by the filtered one. */
    method OnToggle(id: string, value: bool)
      modifies this
      ensures settings == old(settings).(calendarIds := Toggled(old(settings.calendarIds), id, value))
      ensures availableCalendars == old(availableCalendars)
      ensures old(Valid()) ==> Valid()
    {
      if NoDuplicates(settings.calendarIds) {
        ToggledNoDuplicates(settings.calendarIds, id, value);
      }
      if value {
        if id !in settings.calendarIds {
          settings := settings.(calendarIds := settings.calendarIds + [id]);
        }
      } else {
        settings := settings.(calendarIds := Without(settings.calendarIds, id));
      }
    }

    /** "Load Calendars": the discovered calendars replace the loaded ones;
        the notice discovery shows, if any, is returned. */
    method LoadCalendars(list: ListResponse) returns (notice: Option<string>)
      modifies this
      ensures availableCalendars == GoogleCalendar.AvailableCalendars(settings, list).calendars
      ensures notice == GoogleCalendar.AvailableCalendars(settings, list).notice
      ensures settings == old(settings)
    {
      var d := GoogleCalendar.AvailableCalendars(settings, list);
      availableCalendars := d.calendars;
      notice := d.notice;
    }
  }
}
