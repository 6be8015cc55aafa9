/**
 * The calendar window: events on days, the form that adds one, the list
 * for the chosen day in order of start time, and the reminder check that
 * runs every minute. Days are day numbers and the present moment is a day
 * number and the milliseconds since that day's midnight.
 */
module Calendar {
  import opened Options
  import opened Strings
  import opened Lists

  datatype Event = Event(id: string, title: string, day: nat, time: string, color: string, reminder: bool)

  const DefaultTime: string := "09:00"
  const EventColors: seq<string> := ["bg-blue-500", "bg-green-500", "bg-red-500", "bg-purple-500", "bg-orange-500", "bg-pink-500"]
  const MsPerMinute: nat := 60000
  /** A reminder fires up to this long before the event. */
  const ReminderLead: nat := 15 * 60000

  /** Start times compare as strings, character by character; for 'HH:MM' times that is chronological order. */
  predicate TimeLe(a: string, b: string)
    decreases |a|
  {
    a == [] || (b != [] && (a[0] < b[0] || (a[0] == b[0] && TimeLe(a[1..], b[1..]))))
  }

  lemma {:induction false} TimeLeTotal(a: string, b: string)
    ensures TimeLe(a, b) || TimeLe(b, a)
    decreases |a|
  {
    if a != [] && b != [] && a[0] == b[0] {
      TimeLeTotal(a[1..], b[1..]);
    }
  }

  lemma {:induction false} TimeLeTransitive(a: string, b: string, c: string)
    requires TimeLe(a, b) && TimeLe(b, c)
    ensures TimeLe(a, c)
    decreases |a|
  {
    if a != [] && a[0] == b[0] && b[0] == c[0] {
      TimeLeTransitive(a[1..], b[1..], c[1..]);
    }
  }

  predicate SortedByTime(s: seq<Event>) {
    forall i, j :: 0 <= i < j < |s| ==> TimeLe(s[i].time, s[j].time)
  }

  /** Put an event before the first event that does not start earlier. */
  function Insert(x: Event, s: seq<Event>): (r: seq<Event>)
    ensures |r| == |s| + 1
    ensures multiset(r) == multiset(s) + multiset{x}
  {
    if s == [] then [x]
    else if TimeLe(x.time, s[0].time) then [x] + s
    else
      assert s == [s[0]] + s[1..];
      [s[0]] + Insert(x, s[1..])
  }

  lemma {:induction false} InsertSorted(x: Event, s: seq<Event>)
    requires SortedByTime(s)
    ensures SortedByTime(Insert(x, s))
  {
    if s != [] {
      if TimeLe(x.time, s[0].time) {
        PrependSorted(x, s);
      } else {
        InsertSorted(x, s[1..]);
        TimeLeTotal(x.time, s[0].time);
        InsertBehind(x, s);
      }
    }
  }

  /** An event no later than the first of a sorted list can go in front. */
  lemma PrependSorted(x: Event, s: seq<Event>)
    requires SortedByTime(s) && s != [] && TimeLe(x.time, s[0].time)
    ensures SortedByTime([x] + s)
  {
    var r := [x] + s;
    forall i, j | 0 <= i < j < |r|
      ensures TimeLe(r[i].time, r[j].time)
    {
      if i == 0 && j > 1 {
        TimeLeTransitive(x.time, s[0].time, s[j - 1].time);
      }
    }
  }

  /** An event later than the first of a sorted list goes into the rest. */
  lemma InsertBehind(x: Event, s: seq<Event>)
    requires SortedByTime(s) && s != [] && !TimeLe(x.time, s[0].time) && TimeLe(s[0].time, x.time)
    requires SortedByTime(Insert(x, s[1..]))
    ensures SortedByTime(Insert(x, s))
  {
    var tail := s[1..];
    var rest := Insert(x, tail);
    assert Insert(x, s) == [s[0]] + rest;
    forall k | 0 <= k < |rest|
      ensures TimeLe(s[0].time, rest[k].time)
    {
      assert rest[k] in multiset(rest);
      if rest[k] != x {
        assert rest[k] in multiset(tail);
        var j :| 0 <= j < |tail| && tail[j] == rest[k];
        assert s[j + 1] == rest[k];
      }
    }
    HeadSorted(s[0], rest);
  }

  lemma HeadSorted(y: Event, rest: seq<Event>)
    requires SortedByTime(rest)
    requires forall k :: 0 <= k < |rest| ==> TimeLe(y.time, rest[k].time)
    ensures SortedByTime([y] + rest)
  {
    var r := [y] + rest;
    forall i, j | 0 <= i < j < |r|
      ensures TimeLe(r[i].time, r[j].time)
    {
      if i == 0 {
        assert r[j] == rest[j - 1];
      } else {
        assert r[i] == rest[i - 1] && r[j] == rest[j - 1];
      }
    }
  }

  /** The events ordered by start time, keeping the given order among equal times as a stable sort does. */
  function SortByTime(s: seq<Event>): (r: seq<Event>)
    ensures multiset(r) == multiset(s) && |r| == |s|
  {
    if s == [] then []
    else
      assert s == [s[0]] + s[1..];
      Insert(s[0], SortByTime(s[1..]))
  }

  lemma {:induction false} TimeLeReflexive(a: string)
    ensures TimeLe(a, a)
    decreases |a|
  {
    if a != [] {
      TimeLeReflexive(a[1..]);
    }
  }

  /** Among the events of one start time, inserting puts the new event first and moves none of the others. */
  lemma {:induction false} InsertKeepsTies(x: Event, s: seq<Event>, t: string)
    ensures Filter(Insert(x, s), (e: Event) => e.time == t)
      == (if x.time == t then [x] else []) + Filter(s, (e: Event) => e.time == t)
  {
    if s != [] && !TimeLe(x.time, s[0].time) {
      TimeLeReflexive(x.time);
      assert s[0].time != x.time;
      InsertKeepsTies(x, s[1..], t);
      assert ([s[0]] + Insert(x, s[1..]))[1..] == Insert(x, s[1..]);
    }
  }

  /** The sort is stable: the events of any one start time keep their given order. */
  lemma {:induction false} SortByTimeStable(s: seq<Event>, t: string)
    ensures Filter(SortByTime(s), (e: Event) => e.time == t) == Filter(s, (e: Event) => e.time == t)
  {
    if s != [] {
      SortByTimeStable(s[1..], t);
      InsertKeepsTies(s[0], SortByTime(s[1..]), t);
    }
  }

  lemma {:induction false} SortByTimeSorted(s: seq<Event>)
    ensures SortedByTime(SortByTime(s))
  {
    if s != [] {
      SortByTimeSorted(s[1..]);
      InsertSorted(s[0], SortByTime(s[1..]));
    }
  }

  /** The chosen day's list: exactly the day's events, ordered by start time. */
  function DayEvents(events: seq<Event>, day: nat): (r: seq<Event>)
    ensures multiset(r) == multiset(Filter(events, (e: Event) => e.day == day))
    ensures forall e :: e in r <==> e in events && e.day == day
  {
    var onDay := Filter(events, (e: Event) => e.day == day);
    var r := SortByTime(onDay);
    SameMembers(r, onDay);
    r
  }

  /** Two lists with the same multiset hold the same events. */
  lemma SameMembers(a: seq<Event>, b: seq<Event>)
    requires multiset(a) == multiset(b)
    ensures forall e :: e in a <==> e in b
  {
    forall e
      ensures e in a <==> e in b
    {
      assert e in a <==> e in multiset(a);
      assert e in b <==> e in multiset(b);
    }
  }

  lemma DayEventsSorted(events: seq<Event>, day: nat)
    ensures SortedByTime(DayEvents(events, day))
  {
    SortByTimeSorted(Filter(events, (e: Event) => e.day == day));
  }

  /** `time.split(':').map(Number)` read as minutes after midnight; a time without two numeric parts has none. */
  function MinutesOf(time: string): (r: Option<nat>)
    ensures r.Some? ==> |Split(time, ':')| >= 2
  {
    var parts := Split(time, ':');
    if |parts| >= 2 then
      match (ParseNat(parts[0]), ParseNat(parts[1]))
      case (Some(h), Some(m)) => Some(h * 60 + m)
      case _ => None
    else None
  }

  /** A reminder is due for an event with reminders on, today, starting after now and at most 15 minutes away. */
  predicate ReminderDue(e: Event, today: nat, nowMs: nat) {
    && e.reminder && e.day == today
    && MinutesOf(e.time).Some?
    && var diff := MinutesOf(e.time).value * MsPerMinute - nowMs;
    && 0 < diff <= ReminderLead
  }

  /** An 'HH:MM' start is read as that many minutes. */
  lemma MinutesOfTime(h: nat, m: nat)
    requires h < 24 && m < 60
    ensures MinutesOf(TwoDigits(h) + ":" + TwoDigits(m)) == Some(h * 60 + m)
  {
    var t := TwoDigits(h) + ":" + TwoDigits(m);
    assert t == TwoDigits(h) + [':'] + TwoDigits(m);
    SplitNoSeparator(TwoDigits(m), ':');
    SplitAtSeparator(TwoDigits(h), ':', TwoDigits(m));
    TwoDigitsValue(h);
    TwoDigitsValue(m);
  }

  class CalendarApp {
    var selectedDay: nat
    var events: seq<Event>
    var newEventTitle: string
    var newEventTime: string
    var newEventColor: string
    var newEventReminder: bool
    var isDialogOpen: bool

    constructor (today: nat)
      ensures selectedDay == today && events == [] && newEventTitle == "" && newEventTime == DefaultTime
      ensures newEventColor == EventColors[0] && !newEventReminder && !isDialogOpen
    {
      selectedDay := today;
      events := [];
      newEventTitle := "";
      newEventTime := DefaultTime;
      newEventColor := EventColors[0];
      newEventReminder := false;
      isDialogOpen := false;
    }

    method SelectDate(day: nat)
      modifies this`selectedDay
      ensures selectedDay == day
    {
      selectedDay := day;
    }

    /**
     * Add: a blank title does nothing; otherwise one event with the trimmed
     * title on the chosen day is appended, and the form goes back to 09:00,
     * the first colour, no reminder, and closes.
     */
    method AddEvent(now: nat)
      modifies this`events, this`newEventTitle, this`newEventTime, this`newEventColor, this`newEventReminder, this`isDialogOpen
      ensures IsBlank(old(newEventTitle)) ==>
        && events == old(events) && newEventTitle == old(newEventTitle) && newEventTime == old(newEventTime)
        && newEventColor == old(newEventColor) && newEventReminder == old(newEventReminder) && isDialogOpen == old(isDialogOpen)
      ensures !IsBlank(old(newEventTitle)) ==>
        && events == old(events) + [Event("event-" + NatToString(now), Trim(old(newEventTitle)), selectedDay,
                                          old(newEventTime), old(newEventColor), old(newEventReminder))]
        && Trim(old(newEventTitle)) != ""
        && newEventTitle == "" && newEventTime == DefaultTime && newEventColor == EventColors[0]
        && !newEventReminder && !isDialogOpen
    {
      var title := Trim(newEventTitle);
      TrimEmptyIffBlank(newEventTitle);
      if title == [] {
        return;
      }
      var e := Event("event-" + NatToString(now), title, selectedDay, newEventTime, newEventColor, newEventReminder);
      events := events + [e];
      newEventTitle := "";
      newEventTime := DefaultTime;
      newEventColor := EventColors[0];
      newEventReminder := false;
      isDialogOpen := false;
    }

    method DeleteEvent(id: string)
      modifies this`events
      ensures events == Filter(old(events), (e: Event) => e.id != id)
      ensures forall e :: e in events <==> e in old(events) && e.id != id
    {
      events := Filter(events, (e: Event) => e.id != id);
    }

    /** The chosen day's list as the window shows it. */
    function SelectedDateEvents(): (r: seq<Event>)
      reads this
      ensures forall e :: e in r <==> e in events && e.day == selectedDay
    {
      DayEvents(events, selectedDay)
    }

    /** The per-minute check: walk the events and collect each one whose reminder is due. */
    method CheckReminders(today: nat, nowMs: nat) returns (due: seq<Event>)
      ensures due == Filter(events, (e: Event) => ReminderDue(e, today, nowMs))
      ensures forall e :: e in due <==> e in events && ReminderDue(e, today, nowMs)
    {
      due := [];
      var i := 0;
      while i < |events|
        invariant 0 <= i <= |events|
        invariant due == Filter(events[..i], (e: Event) => ReminderDue(e, today, nowMs))
      {
        FilterAppend(events[..i], events[i], (e: Event) => ReminderDue(e, today, nowMs));
        assert events[..i + 1] == events[..i] + [events[i]];
        if ReminderDue(events[i], today, nowMs) {
          due := due + [events[i]];
        }
        i := i + 1;
      }
      assert events[..i] == events;
    }
  }
}
