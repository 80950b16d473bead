/** The dashboard's figures: the total purchase price of the inventory, the
    number of pending reminders and of unreturned lending entries, and the
    number of events in the coming week. Prices are whole numbers (cents). */
module Dashboard {
  import opened Common
  import opened Entities

  // ---------------------------------------------------------------------------
  // Total revenue

  /** `inventory.reduce((sum, item) => sum + item.purchasePrice, 0)`: the
      fold runs left to right from 0. */
  function TotalRevenue(xs: seq<InventoryItem>): (total: int)
    ensures xs == [] ==> total == 0
    ensures |xs| == 1 ==> total == xs[0].purchasePrice
  {
    if xs == [] then 0 else TotalRevenue(xs[..|xs| - 1]) + xs[|xs| - 1].purchasePrice
  }

  /** The total of two inventories put together is the sum of their totals. */
  lemma {:induction false} TotalRevenueConcat(xs: seq<InventoryItem>, ys: seq<InventoryItem>)
    ensures TotalRevenue(xs + ys) == TotalRevenue(xs) + TotalRevenue(ys)
    decreases |ys|
  {
    if ys != [] {
      var last := |ys| - 1;
      assert (xs + ys)[..|xs + ys| - 1] == xs + ys[..last];
      TotalRevenueConcat(xs, ys[..last]);
    } else {
      assert xs + ys == xs;
    }
  }

  /** With no negative price the total is never negative, and it is at least
      the price of each item. */
  lemma {:induction false} TotalRevenueBounds(xs: seq<InventoryItem>)
    requires forall i :: 0 <= i < |xs| ==> xs[i].purchasePrice >= 0
    ensures TotalRevenue(xs) >= 0
    ensures forall i :: 0 <= i < |xs| ==> xs[i].purchasePrice <= TotalRevenue(xs)
  {
    if xs != [] {
      var init := xs[..|xs| - 1];
      TotalRevenueBounds(init);
      assert forall i :: 0 <= i < |init| ==> xs[i] == init[i];
    }
  }

  // ---------------------------------------------------------------------------
  // Counts

  function Pending(): Reminder -> bool { (r: Reminder) => !r.completed }
  function Completed(): Reminder -> bool { (r: Reminder) => r.completed }

  /** `activeReminders`: the pending reminders, which with the completed
      ones make up every reminder. */
  function ActiveReminders(rs: seq<Reminder>): (n: nat)
    ensures n <= |rs|
    ensures n + Count(rs, Completed()) == |rs|
    ensures n == |Filter(rs, Pending())|
  {
    CountSplit(rs, Pending(), Completed());
    CountIsFilterLength(rs, Pending());
    Count(rs, Pending())
  }

  function Unreturned(): LendingItem -> bool { (l: LendingItem) => !l.returned }
  function Returned(): LendingItem -> bool { (l: LendingItem) => l.returned }

  /** `activeLending`: the unreturned entries, which with the returned ones
      make up every entry. */
  function ActiveLending(ls: seq<LendingItem>): (n: nat)
    ensures n <= |ls|
    ensures n + Count(ls, Returned()) == |ls|
    ensures n == |Filter(ls, Unreturned())|
  {
    CountSplit(ls, Unreturned(), Returned());
    CountIsFilterLength(ls, Unreturned());
    Count(ls, Unreturned())
  }

  // ---------------------------------------------------------------------------
  // Upcoming events

  const Week := 7 * MsPerDay

  predicate InComingWeek(e: CalendarEvent, now: Timestamp) {
    now <= e.date <= now + Week
  }

  function ComingWeek(now: Timestamp): CalendarEvent -> bool {
    e => InComingWeek(e, now)
  }

  /** `upcomingEvents`: how many events lie between now and seven days from
      now, both ends included. */
  function UpcomingEvents(es: seq<CalendarEvent>, now: Timestamp): (n: nat)
    ensures n <= |es|
    ensures n == |Filter(es, ComingWeek(now))|
  {
    CountIsFilterLength(es, ComingWeek(now));
    Count(es, ComingWeek(now))
  }

  /** The counted events are exactly those in the window. */
  lemma UpcomingEventsMembers(es: seq<CalendarEvent>, now: Timestamp)
    ensures forall e :: e in Filter(es, ComingWeek(now)) <==> e in es && now <= e.date <= now + Week
  {
  }

  /** Past events and events more than a week ahead are never counted. */
  lemma UpcomingEventsNone(es: seq<CalendarEvent>, now: Timestamp)
    requires forall i :: 0 <= i < |es| ==> es[i].date < now || es[i].date > now + Week
    ensures UpcomingEvents(es, now) == 0
  {
    CountNoneZero(es, ComingWeek(now));
  }

  /** The count over two lists put together is the sum of their counts. */
  lemma UpcomingEventsConcat(es: seq<CalendarEvent>, fs: seq<CalendarEvent>, now: Timestamp)
    ensures UpcomingEvents(es + fs, now) == UpcomingEvents(es, now) + UpcomingEvents(fs, now)
  {
    CountConcat(es, fs, ComingWeek(now));
    CountIsFilterLength(es + fs, ComingWeek(now));
    CountIsFilterLength(es, ComingWeek(now));
    CountIsFilterLength(fs, ComingWeek(now));
  }
}
