/** The reminders view: the tabbed and sorted list, the overdue and
    due-today markers, the tab counts, adding a reminder, marking one
    completed or pending, and the drag-and-drop reorder. */
module RemindersView {
  import opened Common
  import opened Entities
  import opened Repository
  import opened Reorder
  import opened Sorting
  import opened Codec
  import opened DataContext

  // ---------------------------------------------------------------------------
  // The list

  datatype ReminderTab = AllReminders | PendingTab | CompletedTab

  /** Which reminders the selected tab keeps. */
  predicate InTab(tab: ReminderTab, r: Reminder) {
    match tab
    case PendingTab => !r.completed
    case CompletedTab => r.completed
    case AllReminders => true
  }

  function TabTest(tab: ReminderTab): Reminder -> bool {
    r => InTab(tab, r)
  }

  /** Incomplete reminders first, then by due date. */
  function DueOrder(r: Reminder): Key {
    Key(r.completed, r.dueDate)
  }

  /** `filteredReminders`: the reminders of the tab, sorted by the comparator. */
  function FilteredReminders(xs: seq<Reminder>, tab: ReminderTab): (r: seq<Reminder>)
    ensures multiset(r) == multiset(Filter(xs, TabTest(tab)))
    ensures Sorted(r, DueOrder)
  {
    SortByKey(Filter(xs, TabTest(tab)), DueOrder)
  }

  /** The list shows exactly the reminders of the selected tab. */
  lemma FilteredRemindersMembers(xs: seq<Reminder>, tab: ReminderTab)
    ensures forall x :: x in FilteredReminders(xs, tab) <==> x in xs && InTab(tab, x)
  {
    FilterMembers(xs, TabTest(tab));
    SortKeepsMembers(Filter(xs, TabTest(tab)), DueOrder);
  }

  /** Every incomplete reminder comes ahead of every completed one, and
      within each group the due dates ascend. */
  lemma FilteredRemindersOrder(xs: seq<Reminder>, tab: ReminderTab, i: int, j: int)
    requires 0 <= i < j < |FilteredReminders(xs, tab)|
    ensures var r := FilteredReminders(xs, tab);
      && (r[i].completed ==> r[j].completed)
      && (r[i].completed == r[j].completed ==> r[i].dueDate <= r[j].dueDate)
  {
    SortedGroups(FilteredReminders(xs, tab), DueOrder, i, j);
  }

  // ---------------------------------------------------------------------------
  // Tab counts

  datatype TabCounts = TabCounts(all: nat, pending: nat, completed: nat)

  /** The counts shown on the three tab buttons: every reminder is either
      pending or completed, and each count is the length of its tab. */
  function Counts(xs: seq<Reminder>): (c: TabCounts)
    ensures c.all == |xs|
    ensures c.pending + c.completed == c.all
    ensures c.pending == |Filter(xs, TabTest(PendingTab))|
    ensures c.completed == |Filter(xs, TabTest(CompletedTab))|
  {
    CountIsFilterLength(xs, TabTest(PendingTab));
    CountIsFilterLength(xs, TabTest(CompletedTab));
    CountSplit(xs, TabTest(PendingTab), TabTest(CompletedTab));
    TabCounts(|xs|, Count(xs, TabTest(PendingTab)), Count(xs, TabTest(CompletedTab)))
  }

  // ---------------------------------------------------------------------------
  // Markers

  /** `isOverdue`: due before now and not on today's calendar day. */
  predicate IsOverdue(due: Timestamp, now: Timestamp, dayOf: Timestamp -> int) {
    due < now && dayOf(due) != dayOf(now)
  }

  /** `isDueToday`: due on today's calendar day. */
  predicate IsDueToday(due: Timestamp, now: Timestamp, dayOf: Timestamp -> int) {
    dayOf(due) == dayOf(now)
  }

  /** The two markers never show together: a reminder due earlier today is
      due today and not overdue; a reminder due in the future is never
      overdue; one due in the past is overdue exactly when it is not due today. */
  lemma MarkersExclusive(due: Timestamp, now: Timestamp, dayOf: Timestamp -> int)
    ensures !(IsOverdue(due, now, dayOf) && IsDueToday(due, now, dayOf))
    ensures due >= now ==> !IsOverdue(due, now, dayOf)
    ensures due < now ==> (IsOverdue(due, now, dayOf) <==> !IsDueToday(due, now, dayOf))
  {
  }

  // ---------------------------------------------------------------------------
  // Adding

  /** `handleAddReminder`: adds the form as a reminder only when the title
      is non-blank. */
  method HandleAddReminder(p: DataProvider, d: ReminderDraft, now: nat)
    modifies p
    ensures IsBlank(d.title) ==> p.reminders == old(p.reminders) && p.store == old(p.store)
    ensures !IsBlank(d.title) ==> p.reminders == old(p.reminders) + [NewReminder(d, now)]
    ensures !IsBlank(d.title) ==> p.store == old(p.store)[RemindersKey := Records(Map(p.reminders, ReminderEncoder(p.codec)))]
    ensures p.notes == old(p.notes) && p.events == old(p.events) && p.inventory == old(p.inventory) && p.lending == old(p.lending)
  {
    if !IsBlank(d.title) {
      p.AddReminder(d, now);
    }
  }

  // ---------------------------------------------------------------------------
  // Completion

  /** `toggleReminderCompletion`'s partial record. */
  function CompletionPatch(r: Reminder): ReminderPatch {
    NoReminderFields.(completed := Some(!r.completed))
  }

  /** Toggling flips `completed` and changes no other field; toggling twice
      restores the reminder. */
  lemma CompletionToggle(r: Reminder)
    ensures var t := MergeReminder(r, CompletionPatch(r));
      t.completed == !r.completed && t.(completed := r.completed) == r
    ensures var t := MergeReminder(r, CompletionPatch(r));
      MergeReminder(t, CompletionPatch(t)) == r
  {
  }

  method ToggleReminderCompletion(p: DataProvider, r: Reminder)
    modifies p
    ensures p.reminders == UpdateWhere(old(p.reminders), r.id, ReminderId, ReminderMerger(CompletionPatch(r)))
    ensures forall i :: 0 <= i < |p.reminders| && old(p.reminders)[i].id == r.id ==>
      p.reminders[i] == old(p.reminders)[i].(completed := !r.completed)
    ensures p.store == old(p.store)[RemindersKey := Records(Map(p.reminders, ReminderEncoder(p.codec)))]
    ensures p.notes == old(p.notes) && p.events == old(p.events) && p.inventory == old(p.inventory) && p.lending == old(p.lending)
  {
    p.UpdateReminder(r.id, CompletionPatch(r));
  }

  // ---------------------------------------------------------------------------
  // Drag and drop

  /** `handleReminderDrop`: nothing happens unless a dragged id is set and
      differs from the target and both are in the list; otherwise the list
      is copied, the dragged reminder moved in front of the target position,
      and every reminder of the copy written back through `updateReminder`.
      The ids, and so the order of the stored list, never change; with
      distinct ids the list itself stays as it was, and a drop that applies
      always saves it. */
  method HandleReminderDrop(p: DataProvider, dragged: Option<Id>, target: Id)
    modifies p
    ensures Ids(p.reminders, ReminderId) == Ids(old(p.reminders), ReminderId)
    ensures Distinct(Ids(old(p.reminders), ReminderId)) ==> p.reminders == old(p.reminders)
    ensures p.store == old(p.store) || p.store == old(p.store)[RemindersKey := Records(Map(p.reminders, ReminderEncoder(p.codec)))]
    ensures (dragged.Some? && dragged.value != "" && dragged.value != target &&
             HasId(old(p.reminders), dragged.value, ReminderId) && HasId(old(p.reminders), target, ReminderId)) ==>
      p.store == old(p.store)[RemindersKey := Records(Map(p.reminders, ReminderEncoder(p.codec)))]
    ensures dragged.None? || dragged.value == "" || dragged.value == target ==>
      p.reminders == old(p.reminders) && p.store == old(p.store)
    ensures p.notes == old(p.notes) && p.events == old(p.events) && p.inventory == old(p.inventory) && p.lending == old(p.lending)
  {
    if dragged.None? || dragged.value == "" || dragged.value == target {
      return;
    }
    var xs := p.reminders;
    var from := FindIndex(xs, dragged.value, ReminderId);
    var to := FindIndex(xs, target, ReminderId);
    FindIndexFound(xs, dragged.value, ReminderId);
    FindIndexFound(xs, target, ReminderId);
    if from < 0 || to < 0 {
      return;
    }
    var reordered := SpliceCopy(xs, from, to);
    MovedPermutation(xs, from, to);
    WriteAllBack(p, reordered[..], xs);
  }

  /** The `forEach` of the drop: every reminder of `ys`, a rearrangement of
      the list `xs` the provider holds, is written back in turn. */
  method WriteAllBack(p: DataProvider, ys: seq<Reminder>, ghost xs: seq<Reminder>)
    requires multiset(ys) == multiset(xs)
    requires p.reminders == xs
    modifies p
    ensures Ids(p.reminders, ReminderId) == Ids(xs, ReminderId)
    ensures Distinct(Ids(xs, ReminderId)) ==> p.reminders == xs
    ensures p.store == old(p.store) || p.store == old(p.store)[RemindersKey := Records(Map(p.reminders, ReminderEncoder(p.codec)))]
    ensures |ys| > 0 ==> p.store == old(p.store)[RemindersKey := Records(Map(p.reminders, ReminderEncoder(p.codec)))]
    ensures p.notes == old(p.notes) && p.events == old(p.events) && p.inventory == old(p.inventory) && p.lending == old(p.lending)
  {
    for k := 0 to |ys|
      invariant Ids(p.reminders, ReminderId) == Ids(xs, ReminderId)
      invariant Distinct(Ids(xs, ReminderId)) ==> p.reminders == xs
      invariant p.store == old(p.store) || p.store == old(p.store)[RemindersKey := Records(Map(p.reminders, ReminderEncoder(p.codec)))]
      invariant k > 0 ==> p.store == old(p.store)[RemindersKey := Records(Map(p.reminders, ReminderEncoder(p.codec)))]
      invariant p.notes == old(p.notes) && p.events == old(p.events) && p.inventory == old(p.inventory) && p.lending == old(p.lending)
    {
      assert ys[k] in multiset(xs);
      WriteBack(p, ys[k], xs, old(p.store));
    }
  }

  /** One `updateReminder(reminder.id, { ...reminder })` of the drop over
      the list `xs`: the ids stay those of `xs`, with distinct ids the list
      stays `xs`, and the store ends up holding the current list over `store`. */
  method WriteBack(p: DataProvider, r: Reminder, ghost xs: seq<Reminder>, ghost store: map<string, Stored>)
    requires r in xs
    requires Ids(p.reminders, ReminderId) == Ids(xs, ReminderId)
    requires Distinct(Ids(xs, ReminderId)) ==> p.reminders == xs
    requires p.store == store || p.store == store[RemindersKey := Records(Map(p.reminders, ReminderEncoder(p.codec)))]
    modifies p
    ensures Ids(p.reminders, ReminderId) == Ids(xs, ReminderId)
    ensures Distinct(Ids(xs, ReminderId)) ==> p.reminders == xs
    ensures p.store == store[RemindersKey := Records(Map(p.reminders, ReminderEncoder(p.codec)))]
    ensures p.notes == old(p.notes) && p.events == old(p.events) && p.inventory == old(p.inventory) && p.lending == old(p.lending)
  {
    ghost var before := p.reminders;
    ghost var s0 := p.store;
    ghost var saved := Records(Map(before, ReminderEncoder(p.codec)));
    p.UpdateReminder(r.id, ReminderFields(r));
    WriteBackStep(before, r, xs);
    OverwriteKey(store, s0, RemindersKey, saved, Records(Map(p.reminders, ReminderEncoder(p.codec))));
  }

  /** Writing back an element of `xs` with all of its own fields keeps the
      ids of `xs`, and with distinct ids keeps the list `xs` itself. */
  lemma WriteBackStep(before: seq<Reminder>, r: Reminder, xs: seq<Reminder>)
    requires r in xs
    requires Ids(before, ReminderId) == Ids(xs, ReminderId)
    requires Distinct(Ids(xs, ReminderId)) ==> before == xs
    ensures Ids(UpdateWhere(before, r.id, ReminderId, ReminderMerger(ReminderFields(r))), ReminderId) == Ids(xs, ReminderId)
    ensures Distinct(Ids(xs, ReminderId)) ==> UpdateWhere(before, r.id, ReminderId, ReminderMerger(ReminderFields(r))) == xs
  {
    var merge := ReminderMerger(ReminderFields(r));
    forall i | 0 <= i < |before| && ReminderId(before[i]) == r.id
      ensures ReminderId(merge(before[i])) == r.id
    {
      MergeReminderLaws(before[i], r, NoReminderFields);
    }
    UpdateKeepsIds(before, r.id, ReminderId, merge);
    if Distinct(Ids(xs, ReminderId)) {
      MergeReminderLaws(r, r, NoReminderFields);
      UpdateWithMember(before, r, ReminderId, merge);
    }
  }
}
