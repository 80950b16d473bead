/** The calendar view: the events of one day, the month grid of placeholder
    and day cells, adding an event on the selected day, and the drag-and-drop
    reorder. The calendar itself stays abstract: `dayOf` maps a timestamp to
    its calendar day, `dateOf(d)` is the timestamp of day `d` of the month
    shown, and the month's length and first weekday are inputs. */
module CalendarView {
  import opened Common
  import opened Entities
  import opened Repository
  import opened Reorder
  import opened Codec
  import opened DataContext

  // ---------------------------------------------------------------------------
  // Events of a day

  function SameDay(date: Timestamp, dayOf: Timestamp -> int): CalendarEvent -> bool {
    (e: CalendarEvent) => dayOf(e.date) == dayOf(date)
  }

  /** `getEventsForDate`: the events on the calendar day of `date`, in
      collection order. */
  function EventsForDate(es: seq<CalendarEvent>, date: Timestamp, dayOf: Timestamp -> int): (r: seq<CalendarEvent>)
    ensures forall e :: e in r <==> e in es && dayOf(e.date) == dayOf(date)
    ensures |r| <= |es|
  {
    Filter(es, SameDay(date, dayOf))
  }

  /** The day's events keep the collection order: the events of two lists
      put together are those of the first followed by those of the second. */
  lemma EventsForDateOrder(es: seq<CalendarEvent>, fs: seq<CalendarEvent>, date: Timestamp, dayOf: Timestamp -> int)
    ensures EventsForDate(es + fs, date, dayOf) == EventsForDate(es, date, dayOf) + EventsForDate(fs, date, dayOf)
  {
    FilterConcat(es, fs, SameDay(date, dayOf));
  }

  // ---------------------------------------------------------------------------
  // The month grid

  /** A grid cell: an empty placeholder before the first day, or a day with
      the events it lists, the "+k more" count when there is one, and
      whether it is today and the selected day. */
  datatype Cell =
    | Placeholder
    | DayCell(day: nat, shown: seq<CalendarEvent>, more: Option<nat>, isToday: bool, isSelected: bool)

  const ShownPerDay := 3

  /** The cell of day `d`: at most three of the day's events, in order, and
      "+k more" exactly when the day has more than three, with k the rest. */
  function DayCellFor(es: seq<CalendarEvent>, d: nat, dateOf: nat -> Timestamp, dayOf: Timestamp -> int,
                      now: Timestamp, selected: Option<Timestamp>): (c: Cell)
    ensures c.DayCell? && c.day == d
    ensures var events := EventsForDate(es, dateOf(d), dayOf);
      && |c.shown| <= ShownPerDay && |c.shown| <= |events|
      && |c.shown| == (if |events| > ShownPerDay then ShownPerDay else |events|)
      && c.shown == events[..|c.shown|]
      && (c.more.Some? <==> |events| > ShownPerDay)
      && |c.shown| + c.more.GetOr(0) == |events|
    ensures c.isToday <==> dayOf(dateOf(d)) == dayOf(now)
    ensures c.isSelected <==> selected.Some? && dayOf(dateOf(d)) == dayOf(selected.value)
  {
    var events := EventsForDate(es, dateOf(d), dayOf);
    var shown := if |events| > ShownPerDay then events[..ShownPerDay] else events;
    var more := if |events| > ShownPerDay then Some(|events| - ShownPerDay) else None;
    DayCell(d, shown, more, dayOf(dateOf(d)) == dayOf(now),
            selected.Some? && dayOf(dateOf(d)) == dayOf(selected.value))
  }

  /** `renderCalendarGrid`: `firstDay` placeholders, then the cells of days
      1 to `daysInMonth` in order. */
  method RenderCalendarGrid(es: seq<CalendarEvent>, firstDay: nat, daysInMonth: nat,
                            dateOf: nat -> Timestamp, dayOf: Timestamp -> int,
                            now: Timestamp, selected: Option<Timestamp>) returns (days: seq<Cell>)
    ensures |days| == firstDay + daysInMonth
    ensures forall i :: 0 <= i < firstDay ==> days[i] == Placeholder
    ensures forall d :: 1 <= d <= daysInMonth ==> days[firstDay + d - 1] == DayCellFor(es, d, dateOf, dayOf, now, selected)
  {
    days := [];
    for i := 0 to firstDay
      invariant |days| == i
      invariant forall j :: 0 <= j < i ==> days[j] == Placeholder
    {
      days := days + [Placeholder];
    }
    var day := 1;
    while day <= daysInMonth
      invariant 1 <= day <= daysInMonth + 1
      invariant |days| == firstDay + day - 1
      invariant forall j :: 0 <= j < firstDay ==> days[j] == Placeholder
      invariant forall d :: 1 <= d < day ==> days[firstDay + d - 1] == DayCellFor(es, d, dateOf, dayOf, now, selected)
    {
      days := days + [DayCellFor(es, day, dateOf, dayOf, now, selected)];
      day := day + 1;
    }
  }

  /** Every cell after the placeholders is a day cell, and day cells carry
      the numbers 1 to `daysInMonth` in order. */
  lemma GridDayNumbers(days: seq<Cell>, es: seq<CalendarEvent>, firstDay: nat, daysInMonth: nat,
                       dateOf: nat -> Timestamp, dayOf: Timestamp -> int,
                       now: Timestamp, selected: Option<Timestamp>)
    requires |days| == firstDay + daysInMonth
    requires forall d :: 1 <= d <= daysInMonth ==> days[firstDay + d - 1] == DayCellFor(es, d, dateOf, dayOf, now, selected)
    ensures forall i :: firstDay <= i < |days| ==> days[i].DayCell? && days[i].day == i - firstDay + 1
  {
    forall i | firstDay <= i < |days|
      ensures days[i].DayCell? && days[i].day == i - firstDay + 1
    {
      var d := i - firstDay + 1;
      assert days[firstDay + d - 1] == DayCellFor(es, d, dateOf, dayOf, now, selected);
    }
  }

  // ---------------------------------------------------------------------------
  // Adding

  /** `handleAddEvent`: adds the form as an event only when the title is
      non-blank, dated on the selected day when one is selected and at now
      otherwise. */
  method HandleAddEvent(p: DataProvider, d: EventDraft, selected: Option<Timestamp>, now: nat)
    modifies p
    ensures IsBlank(d.title) ==> p.events == old(p.events) && p.store == old(p.store)
    ensures !IsBlank(d.title) ==>
      && |p.events| == |old(p.events)| + 1
      && p.events[..|old(p.events)|] == old(p.events)
      && p.events[|old(p.events)|] == NewEvent(d.(date := if selected.Some? then selected.value else now), now)
      && p.store == old(p.store)[EventsKey := Records(Map(p.events, EventEncoder(p.codec)))]
    ensures p.notes == old(p.notes) && p.reminders == old(p.reminders) && p.inventory == old(p.inventory) && p.lending == old(p.lending)
  {
    if !IsBlank(d.title) {
      p.AddEvent(d.(date := selected.GetOr(now)), now);
    }
  }

  // ---------------------------------------------------------------------------
  // Drag and drop

  /** `handleEventDrop`: nothing happens unless a dragged id is set and
      differs from the target and both are in the collection; otherwise the
      collection is copied, the dragged event moved in front of the target
      position, and every event of the copy written back through
      `updateCalendarEvent`. The ids, and so the order of the stored
      collection, never change; with distinct ids the list itself
      stays as it was, and a drop that applies always saves it. */
  method HandleEventDrop(p: DataProvider, dragged: Option<Id>, target: Id)
    modifies p
    ensures Ids(p.events, EventId) == Ids(old(p.events), EventId)
    ensures Distinct(Ids(old(p.events), EventId)) ==> p.events == old(p.events)
    ensures p.store == old(p.store) || p.store == old(p.store)[EventsKey := Records(Map(p.events, EventEncoder(p.codec)))]
    ensures (dragged.Some? && dragged.value != "" && dragged.value != target &&
             HasId(old(p.events), dragged.value, EventId) && HasId(old(p.events), target, EventId)) ==>
      p.store == old(p.store)[EventsKey := Records(Map(p.events, EventEncoder(p.codec)))]
    ensures dragged.None? || dragged.value == "" || dragged.value == target ==>
      p.events == old(p.events) && p.store == old(p.store)
    ensures p.notes == old(p.notes) && p.reminders == old(p.reminders) && p.inventory == old(p.inventory) && p.lending == old(p.lending)
  {
    if dragged.None? || dragged.value == "" || dragged.value == target {
      return;
    }
    var xs := p.events;
    var from := FindIndex(xs, dragged.value, EventId);
    var to := FindIndex(xs, target, EventId);
    FindIndexFound(xs, dragged.value, EventId);
    FindIndexFound(xs, target, EventId);
    if from < 0 || to < 0 {
      return;
    }
    var reordered := SpliceCopy(xs, from, to);
    MovedPermutation(xs, from, to);
    WriteAllBack(p, reordered[..], xs);
  }

  /** The `forEach` of the drop: every event of `ys`, a rearrangement of the
      collection `xs` the provider holds, is written back in turn. */
  method WriteAllBack(p: DataProvider, ys: seq<CalendarEvent>, ghost xs: seq<CalendarEvent>)
    requires multiset(ys) == multiset(xs)
    requires p.events == xs
    modifies p
    ensures Ids(p.events, EventId) == Ids(xs, EventId)
    ensures Distinct(Ids(xs, EventId)) ==> p.events == xs
    ensures p.store == old(p.store) || p.store == old(p.store)[EventsKey := Records(Map(p.events, EventEncoder(p.codec)))]
    ensures |ys| > 0 ==> p.store == old(p.store)[EventsKey := Records(Map(p.events, EventEncoder(p.codec)))]
    ensures p.notes == old(p.notes) && p.reminders == old(p.reminders) && p.inventory == old(p.inventory) && p.lending == old(p.lending)
  {
    for k := 0 to |ys|
      invariant Ids(p.events, EventId) == Ids(xs, EventId)
      invariant Distinct(Ids(xs, EventId)) ==> p.events == xs
      invariant p.store == old(p.store) || p.store == old(p.store)[EventsKey := Records(Map(p.events, EventEncoder(p.codec)))]
      invariant k > 0 ==> p.store == old(p.store)[EventsKey := Records(Map(p.events, EventEncoder(p.codec)))]
      invariant p.notes == old(p.notes) && p.reminders == old(p.reminders) && p.inventory == old(p.inventory) && p.lending == old(p.lending)
    {
      assert ys[k] in multiset(xs);
      WriteBack(p, ys[k], xs, old(p.store));
    }
  }

  /** One `updateCalendarEvent(event.id, { ...event })` of the drop over the
      collection `xs`: the ids stay those of `xs`, with distinct ids the
      collection stays `xs`, and the store ends up holding the current
      collection over `store`. */
  method WriteBack(p: DataProvider, e: CalendarEvent, ghost xs: seq<CalendarEvent>, ghost store: map<string, Stored>)
    requires e in xs
    requires Ids(p.events, EventId) == Ids(xs, EventId)
    requires Distinct(Ids(xs, EventId)) ==> p.events == xs
    requires p.store == store || p.store == store[EventsKey := Records(Map(p.events, EventEncoder(p.codec)))]
    modifies p
    ensures Ids(p.events, EventId) == Ids(xs, EventId)
    ensures Distinct(Ids(xs, EventId)) ==> p.events == xs
    ensures p.store == store[EventsKey := Records(Map(p.events, EventEncoder(p.codec)))]
    ensures p.notes == old(p.notes) && p.reminders == old(p.reminders) && p.inventory == old(p.inventory) && p.lending == old(p.lending)
  {
    ghost var before := p.events;
    ghost var s0 := p.store;
    ghost var saved := Records(Map(before, EventEncoder(p.codec)));
    p.UpdateEvent(e.id, EventFields(e));
    WriteBackStep(before, e, xs);
    OverwriteKey(store, s0, EventsKey, saved, Records(Map(p.events, EventEncoder(p.codec))));
  }

  /** Writing back an element of `xs` with all of its own fields keeps the
      ids of `xs`, and with distinct ids keeps the collection `xs` itself. */
  lemma WriteBackStep(before: seq<CalendarEvent>, e: CalendarEvent, xs: seq<CalendarEvent>)
    requires e in xs
    requires Ids(before, EventId) == Ids(xs, EventId)
    requires Distinct(Ids(xs, EventId)) ==> before == xs
    ensures Ids(UpdateWhere(before, e.id, EventId, EventMerger(EventFields(e))), EventId) == Ids(xs, EventId)
    ensures Distinct(Ids(xs, EventId)) ==> UpdateWhere(before, e.id, EventId, EventMerger(EventFields(e))) == xs
  {
    var merge := EventMerger(EventFields(e));
    forall i | 0 <= i < |before| && EventId(before[i]) == e.id
      ensures EventId(merge(before[i])) == e.id
    {
      MergeEventLaws(before[i], e, NoEventFields);
    }
    UpdateKeepsIds(before, e.id, EventId, merge);
    if Distinct(Ids(xs, EventId)) {
      MergeEventLaws(e, e, NoEventFields);
      UpdateWithMember(before, e, EventId, merge);
    }
  }
}
