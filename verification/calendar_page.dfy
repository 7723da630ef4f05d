/**
 * The study calendar page: a month grid whose cells list the events stored
 * under each day's `YYYY-MM-DD` key, a dialog that adds an event for a chosen
 * day, and a side list of the five earliest events.
 */
module CalendarPage {
  import opened Wrappers
  import opened Text
  import opened Collections
  import opened CalendarDates

  datatype ActivityType = Content | Revision | Exercise | Rest

  datatype StudyEvent = StudyEvent(
    id: string,
    date: string,
    title: string,
    kind: ActivityType,
    volume: Option<int>,
    notes: string)

  /** The dialog's form: the volume is the text of the chosen option, `""` for none. */
  datatype EventDraft = EventDraft(title: string, kind: ActivityType, volume: string, notes: string)

  const BlankDraft := EventDraft("", Content, "", "")

  /** The events stored under a key. */
  function EventsOnKey(events: seq<StudyEvent>, key: string): (r: seq<StudyEvent>)
    ensures |r| <= |events|
    ensures forall e :: e in r <==> e in events && e.date == key
  {
    FilterMembers(events, (e: StudyEvent) => e.date == key);
    Filter(events, (e: StudyEvent) => e.date == key)
  }

  /** `getEventForDate`: the events of day `day` of the shown month, in stored order. */
  function EventsOn(events: seq<StudyEvent>, ym: YearMonth, day: nat): (r: seq<StudyEvent>)
    ensures |r| <= |events|
    ensures forall e :: e in r <==> e in events && e.date == DateKey(ym, day)
  {
    EventsOnKey(events, DateKey(ym, day))
  }

  /** No event is listed under two different days of the grid. */
  lemma EventInOneCell(events: seq<StudyEvent>, ym: YearMonth, d1: nat, d2: nat, e: StudyEvent)
    requires ym.year >= 0 && d1 != d2
    requires e in EventsOn(events, ym, d1)
    ensures e !in EventsOn(events, ym, d2)
  {
    if e in EventsOn(events, ym, d2) {
      DateKeyInjective(ym, d1, ym, d2);
    }
  }

  // ---------------------------------------------------------------------------
  // The month grid

  /** The `days` array: `firstDay` blank cells, then the days 1..`daysInMonth`. */
  method BuildDays(firstDay: nat, daysInMonth: nat) returns (days: seq<Option<nat>>)
    ensures |days| == firstDay + daysInMonth
    ensures forall i :: 0 <= i < firstDay ==> days[i].None?
    ensures forall i :: firstDay <= i < |days| ==> days[i] == Some(i - firstDay + 1)
  {
    days := [];
    var i := 0;
    while i < firstDay
      invariant 0 <= i <= firstDay && |days| == i
      invariant forall k :: 0 <= k < i ==> days[k].None?
    {
      days := days + [None];
      i := i + 1;
    }
    i := 1;
    while i <= daysInMonth
      invariant 1 <= i <= daysInMonth + 1
      invariant |days| == firstDay + i - 1
      invariant forall k :: 0 <= k < firstDay ==> days[k].None?
      invariant forall k :: firstDay <= k < |days| ==> days[k] == Some(k - firstDay + 1)
    {
      days := days + [Some(i)];
      i := i + 1;
    }
  }

  /**
   * The grid of the shown month under the header Dom..Sab: every day of the
   * month appears once, in the column of its weekday, and the grid fits in
   * six rows.
   */
  method MonthGrid(ym: YearMonth) returns (days: seq<Option<nat>>)
    ensures |days| == FirstDayOfMonth(ym) + DaysInMonth(ym.year, ym.month) <= 37
    ensures forall d :: 1 <= d <= DaysInMonth(ym.year, ym.month) ==> days[FirstDayOfMonth(ym) + d - 1] == Some(d)
    ensures forall i :: 0 <= i < |days| && days[i].Some? ==> i % 7 == Weekday(ym.year, ym.month, days[i].value)
    ensures forall i :: 0 <= i < |days| && days[i].Some? ==> 1 <= days[i].value <= DaysInMonth(ym.year, ym.month)
  {
    var first, n := FirstDayOfMonth(ym), DaysInMonth(ym.year, ym.month);
    days := BuildDays(first, n);
    var weekday := (d: int) => Weekday(ym.year, ym.month, d);
    forall d | 1 <= d <= n ensures weekday(d) == (first + d - 1) % 7 {
      WeekdayOfDay(ym, d);
    }
    GridColumns(days, first, n, weekday);
  }

  /** When day `d` falls in column `(first + d - 1) % 7`, every cell of the grid sits under its weekday. */
  lemma GridColumns(days: seq<Option<nat>>, first: nat, n: nat, weekday: int -> int)
    requires |days| == first + n
    requires forall i :: 0 <= i < first ==> days[i].None?
    requires forall i :: first <= i < |days| ==> days[i] == Some(i - first + 1)
    requires forall d :: 1 <= d <= n ==> weekday(d) == (first + d - 1) % 7
    ensures forall i :: 0 <= i < |days| && days[i].Some? ==> i % 7 == weekday(days[i].value)
    ensures forall i :: 0 <= i < |days| && days[i].Some? ==> 1 <= days[i].value <= n
  {
    forall i | 0 <= i < |days| && days[i].Some?
      ensures i % 7 == weekday(days[i].value) && 1 <= days[i].value <= n
    {
      assert i >= first;
    }
  }

  /** What a day cell shows: at most two events, then "+n mais" for the rest. */
  datatype CellView = CellView(shown: seq<StudyEvent>, more: Option<nat>)

  function DayCell(dayEvents: seq<StudyEvent>): (r: CellView)
    ensures |r.shown| <= 2 && |r.shown| <= |dayEvents| && r.shown == dayEvents[..|r.shown|]
    ensures r.more.Some? <==> |dayEvents| > 2
    ensures |r.shown| + (if r.more.Some? then r.more.value else 0) == |dayEvents|
  {
    if |dayEvents| > 2 then CellView(dayEvents[..2], Some(|dayEvents| - 2))
    else CellView(dayEvents, None)
  }

  // ---------------------------------------------------------------------------
  // Adding and deleting events

  /** `newEvent.volume ? parseInt(newEvent.volume) : undefined` for the texts the volume select offers. */
  function ParseVolume(text: string): (r: Option<int>)
    ensures text == "" ==> r.None?
  {
    if text != "" && AllDigits(text) then Some(DigitsValue(text)) else None
  }

  /** Each option `Volume 1` .. `Volume 11` of the select reads back as its number. */
  lemma VolumeOptionRoundTrip(volume: nat)
    ensures ParseVolume(NatToString(volume)) == Some(volume)
  {
    NatToStringRoundTrip(volume);
  }

  /** The event `handleAddEvent` builds from the form, with `Date.now()` as id. */
  function NewEvent(draft: EventDraft, date: string, now: nat): (e: StudyEvent)
    ensures e.id == NatToString(now) && e.date == date
    ensures e.title == draft.title && e.kind == draft.kind && e.notes == draft.notes
    ensures e.volume == ParseVolume(draft.volume)
  {
    StudyEvent(NatToString(now), date, draft.title, draft.kind, ParseVolume(draft.volume), draft.notes)
  }

  /** `events.filter((e) => e.id !== id)`. */
  function EventsWithout(events: seq<StudyEvent>, id: string): (r: seq<StudyEvent>)
    ensures |r| <= |events|
    ensures forall e :: e in r <==> e in events && e.id != id
  {
    FilterMembers(events, (e: StudyEvent) => e.id != id);
    Filter(events, (e: StudyEvent) => e.id != id)
  }

  /** Deleting an event just added under a fresh id gives back the events from before. */
  lemma DeleteUndoesAdd(events: seq<StudyEvent>, e: StudyEvent)
    requires forall x :: x in events ==> x.id != e.id
    ensures EventsWithout(events + [e], e.id) == events
  {
    var p := (x: StudyEvent) => x.id != e.id;
    FilterConcat(events, [e], p);
    FilterAll(events, p);
    FilterNone([e], p);
    AppendNil(events);
  }

  /** The side list's order: the day the event's key names. */
  function EventDay(e: StudyEvent): int {
    KeyDay(e.date)
  }

  function Min(a: int, b: int): int {
    if a <= b then a else b
  }

  class CalendarState {
    /** The shown month (`currentDate`; its day of the month is never read). */
    var current: YearMonth
    var events: seq<StudyEvent>
    var dialogOpen: bool
    var selectedDate: string
    var draft: EventDraft

    /** The page opens on January 2026 with no events and an empty form. */
    constructor()
      ensures current == YearMonth(2026, 0) && events == []
      ensures !dialogOpen && selectedDate == "" && draft == BlankDraft
    {
      current := YearMonth(2026, 0);
      events := [];
      dialogOpen := false;
      selectedDate := "";
      draft := BlankDraft;
    }

    /** Loading the saved events, when there are any, replaces the list. */
    method RestoreEvents(saved: Option<seq<StudyEvent>>)
      modifies this
      ensures events == if saved.Some? then saved.value else old(events)
      ensures current == old(current) && dialogOpen == old(dialogOpen)
      ensures selectedDate == old(selectedDate) && draft == old(draft)
    {
      if saved.Some? {
        events := saved.value;
      }
    }

    /** `handlePrevMonth`. */
    method ShowPrevMonth()
      modifies this
      ensures current == PrevMonth(old(current)) && MonthIndex(current) == MonthIndex(old(current)) - 1
      ensures events == old(events) && dialogOpen == old(dialogOpen)
      ensures selectedDate == old(selectedDate) && draft == old(draft)
    {
      current := PrevMonth(current);
    }

    /** `handleNextMonth`. */
    method ShowNextMonth()
      modifies this
      ensures current == NextMonth(old(current)) && MonthIndex(current) == MonthIndex(old(current)) + 1
      ensures events == old(events) && dialogOpen == old(dialogOpen)
      ensures selectedDate == old(selectedDate) && draft == old(draft)
    {
      current := NextMonth(current);
    }

    /** `handleDateClick`: the dialog opens on the clicked day of the shown month. */
    method DateClick(day: nat)
      modifies this
      ensures selectedDate == DateKey(old(current), day) && dialogOpen
      ensures current == old(current) && events == old(events) && draft == old(draft)
    {
      OpenDialog(DateKey(current, day));
    }

    /** The "Adicionar Atividade" button, given today's month and day: the dialog opens on that date. */
    method OpenDialogOn(today: YearMonth, day: nat)
      modifies this
      ensures selectedDate == DateKey(today, day) && dialogOpen
      ensures current == old(current) && events == old(events) && draft == old(draft)
    {
      OpenDialog(DateKey(today, day));
    }

    method OpenDialog(date: string)
      modifies this
      ensures selectedDate == date && dialogOpen
      ensures current == old(current) && events == old(events) && draft == old(draft)
    {
      selectedDate := date;
      dialogOpen := true;
    }

    /** Typing in the date field or in the form. */
    method EditForm(date: string, newDraft: EventDraft)
      modifies this
      ensures selectedDate == date && draft == newDraft
      ensures current == old(current) && events == old(events) && dialogOpen == old(dialogOpen)
    {
      selectedDate := date;
      draft := newDraft;
    }

    /**
     * `handleAddEvent`: nothing happens without a title and a date; otherwise
     * exactly one event is appended, the form is cleared and the dialog closes.
     */
    method AddEvent(now: nat) returns (added: bool)
      modifies this
      ensures added <==> old(draft).title != "" && old(selectedDate) != ""
      ensures added ==> events == old(events) + [NewEvent(old(draft), old(selectedDate), now)]
      ensures added ==> draft == BlankDraft && !dialogOpen
      ensures !added ==> events == old(events) && draft == old(draft) && dialogOpen == old(dialogOpen)
      ensures current == old(current) && selectedDate == old(selectedDate)
    {
      if draft.title == "" || selectedDate == "" {
        return false;
      }
      events := events + [NewEvent(draft, selectedDate, now)];
      draft := BlankDraft;
      dialogOpen := false;
      added := true;
    }

    /** `handleDeleteEvent`: every event with that id goes, every other stays in order. */
    method DeleteEvent(id: string)
      modifies this
      ensures events == EventsWithout(old(events), id)
      ensures current == old(current) && dialogOpen == old(dialogOpen)
      ensures selectedDate == old(selectedDate) && draft == old(draft)
    {
      events := EventsWithout(events, id);
    }

    /**
     * "Próximas Atividades": the events are sorted in place by date (events of
     * the same day keep their order) and the first five are shown.
     */
    method Upcoming() returns (shown: seq<StudyEvent>)
      modifies this
      ensures events == SortBy(old(events), EventDay) && multiset(events) == multiset(old(events))
      ensures |shown| == Min(5, |events|) && shown == events[..|shown|]
      ensures forall i, j :: 0 <= i < j < |shown| ==> EventDay(shown[i]) <= EventDay(shown[j])
      ensures forall i, j :: 0 <= i < |shown| <= j < |events| ==> EventDay(shown[i]) <= EventDay(events[j])
      ensures current == old(current) && dialogOpen == old(dialogOpen)
      ensures selectedDate == old(selectedDate) && draft == old(draft)
    {
      events := SortBy(events, EventDay);
      shown := events[..Min(5, |events|)];
    }
  }

  /** After an event is added, the cell of its day lists it. */
  lemma AddedEventShown(events: seq<StudyEvent>, draft: EventDraft, ym: YearMonth, day: nat, now: nat)
    ensures NewEvent(draft, DateKey(ym, day), now) in EventsOn(events + [NewEvent(draft, DateKey(ym, day), now)], ym, day)
  {
  }
}
