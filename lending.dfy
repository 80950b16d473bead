/** The lending view: the tabbed and sorted list, the overdue and due-soon
    badges, the summary counts, adding an entry from the form, marking an
    entry returned or active again, and the drag-and-drop reorder. */
module LendingView {
  import opened Common
  import opened Entities
  import opened Repository
  import opened Reorder
  import opened Sorting
  import opened Codec
  import opened DataContext

  // ---------------------------------------------------------------------------
  // The list

  datatype LendingTab = AllItems | LentTab | BorrowedTab | ActiveTab | ReturnedTab

  /** Which entries the selected tab keeps. */
  predicate InTab(tab: LendingTab, item: LendingItem) {
    match tab
    case LentTab => item.kind == Lent
    case BorrowedTab => item.kind == Borrowed
    case ActiveTab => !item.returned
    case ReturnedTab => item.returned
    case AllItems => true
  }

  function TabTest(tab: LendingTab): LendingItem -> bool {
    item => InTab(tab, item)
  }

  /** Unreturned entries first, then by expected return date. */
  function ReturnOrder(item: LendingItem): Key {
    Key(item.returned, item.expectedReturnDate)
  }

  /** `filteredLending`: the entries of the tab, sorted by the comparator. */
  function FilteredLending(xs: seq<LendingItem>, tab: LendingTab): (r: seq<LendingItem>)
    ensures multiset(r) == multiset(Filter(xs, TabTest(tab)))
    ensures Sorted(r, ReturnOrder)
  {
    SortByKey(Filter(xs, TabTest(tab)), ReturnOrder)
  }

  /** The list shows exactly the entries of the selected tab. */
  lemma FilteredLendingMembers(xs: seq<LendingItem>, tab: LendingTab)
    ensures forall x :: x in FilteredLending(xs, tab) <==> x in xs && InTab(tab, x)
  {
    FilterMembers(xs, TabTest(tab));
    SortKeepsMembers(Filter(xs, TabTest(tab)), ReturnOrder);
  }

  /** Every unreturned entry comes ahead of every returned one, and within
      each group the expected return dates ascend. */
  lemma FilteredLendingOrder(xs: seq<LendingItem>, tab: LendingTab, i: int, j: int)
    requires 0 <= i < j < |FilteredLending(xs, tab)|
    ensures var r := FilteredLending(xs, tab);
      && (r[i].returned ==> r[j].returned)
      && (r[i].returned == r[j].returned ==> r[i].expectedReturnDate <= r[j].expectedReturnDate)
  {
    SortedGroups(FilteredLending(xs, tab), ReturnOrder, i, j);
  }

  /** The tabs of one kind split the list: every entry is lent or borrowed,
      and active or returned. */
  lemma TabsPartition(xs: seq<LendingItem>)
    ensures |Filter(xs, TabTest(LentTab))| + |Filter(xs, TabTest(BorrowedTab))| == |xs|
    ensures |Filter(xs, TabTest(ActiveTab))| + |Filter(xs, TabTest(ReturnedTab))| == |xs|
    ensures Filter(xs, TabTest(AllItems)) == xs
  {
    CountIsFilterLength(xs, TabTest(LentTab));
    CountIsFilterLength(xs, TabTest(BorrowedTab));
    CountSplit(xs, TabTest(LentTab), TabTest(BorrowedTab));
    CountIsFilterLength(xs, TabTest(ActiveTab));
    CountIsFilterLength(xs, TabTest(ReturnedTab));
    CountSplit(xs, TabTest(ActiveTab), TabTest(ReturnedTab));
    FilterAll(xs, TabTest(AllItems));
  }

  // ---------------------------------------------------------------------------
  // Badges

  const DueSoonWindow := 3 * MsPerDay

  /** `isOverdue`: not returned and expected before now. */
  predicate IsOverdue(expected: Timestamp, returned: bool, now: Timestamp) {
    !returned && expected < now
  }

  /** `isDueSoon`: not returned and expected no later than three days from now. */
  predicate IsDueSoon(expected: Timestamp, returned: bool, now: Timestamp) {
    !returned && expected <= now + DueSoonWindow
  }

  /** The "Due Soon" badge shows only when the entry is due soon and not overdue. */
  predicate ShowsDueSoonBadge(expected: Timestamp, returned: bool, now: Timestamp) {
    IsDueSoon(expected, returned, now) && !IsOverdue(expected, returned, now)
  }

  /** An overdue entry is also due soon, so the two badges never show
      together; the "Due Soon" badge means the expected date lies in the next
      three days; a returned entry shows neither. */
  lemma BadgesExclusive(expected: Timestamp, returned: bool, now: Timestamp)
    ensures IsOverdue(expected, returned, now) ==> IsDueSoon(expected, returned, now)
    ensures !(IsOverdue(expected, returned, now) && ShowsDueSoonBadge(expected, returned, now))
    ensures ShowsDueSoonBadge(expected, returned, now) <==> !returned && now <= expected <= now + DueSoonWindow
    ensures returned ==> !IsOverdue(expected, returned, now) && !ShowsDueSoonBadge(expected, returned, now)
  {
  }

  // ---------------------------------------------------------------------------
  // Summary counts

  datatype LendingStats = LendingStats(total: nat, lent: nat, borrowed: nat, active: nat, overdue: nat)

  function OverdueTest(now: Timestamp): LendingItem -> bool {
    (item: LendingItem) => IsOverdue(item.expectedReturnDate, item.returned, now)
  }

  /** `stats`: every entry is lent or borrowed, so those two add up to the
      total; the overdue entries are among the active ones. */
  function Stats(xs: seq<LendingItem>, now: Timestamp): (s: LendingStats)
    ensures s.total == |xs|
    ensures s.lent + s.borrowed == s.total
    ensures s.overdue <= s.active <= s.total
  {
    CountSplit(xs, TabTest(LentTab), TabTest(BorrowedTab));
    CountMonotone(xs, OverdueTest(now), TabTest(ActiveTab));
    LendingStats(|xs|, Count(xs, TabTest(LentTab)), Count(xs, TabTest(BorrowedTab)),
                 Count(xs, TabTest(ActiveTab)), Count(xs, OverdueTest(now)))
  }

  // ---------------------------------------------------------------------------
  // The add form

  /** The form's fields: an entry without id and without return date. */
  datatype LendingForm = LendingForm(
    itemName: string, personName: string, kind: LendingKind,
    lentDate: Timestamp, expectedReturnDate: Timestamp, notes: string, returned: bool)

  function FormDraft(f: LendingForm): LendingDraft {
    LendingDraft(f.itemName, f.personName, f.kind, f.lentDate, None,
                 f.expectedReturnDate, f.notes, f.returned)
  }

  /** `selectFromInventory`: the form takes the inventory item's name and
      keeps every other field. */
  function SelectFromInventory(f: LendingForm, source: InventoryItem): (r: LendingForm)
    ensures r.itemName == source.name
    ensures r.(itemName := f.itemName) == f
  {
    f.(itemName := source.name)
  }

  /** `handleAddItem`: adds the form as an entry only when both the item name
      and the person name are non-blank. */
  method HandleAddItem(p: DataProvider, f: LendingForm, now: nat)
    modifies p
    ensures IsBlank(f.itemName) || IsBlank(f.personName) ==>
      p.lending == old(p.lending) && p.store == old(p.store)
    ensures !IsBlank(f.itemName) && !IsBlank(f.personName) ==>
      && p.lending == old(p.lending) + [NewLendingItem(FormDraft(f), now)]
      && p.store == old(p.store)[LendingKey := Records(Map(p.lending, LendingEncoder(p.codec)))]
    ensures p.notes == old(p.notes) && p.events == old(p.events) && p.reminders == old(p.reminders) && p.inventory == old(p.inventory)
  {
    if !IsBlank(f.itemName) && !IsBlank(f.personName) {
      p.AddLendingItem(FormDraft(f), now);
    }
  }

  // ---------------------------------------------------------------------------
  // Returning

  /** `toggleItemReturn`'s partial record. */
  function ReturnPatch(item: LendingItem, now: Timestamp): LendingPatch {
    NoLendingFields.(returned := Some(!item.returned),
                     returnDate := Some(if !item.returned then Some(now) else None))
  }

  /** Toggling flips `returned`, stamps the return date when the entry
      becomes returned and clears it when it becomes active, and changes no
      other field; toggling twice restores everything but the return date. */
  lemma ReturnToggle(item: LendingItem, now: Timestamp, later: Timestamp)
    ensures var t := MergeLendingItem(item, ReturnPatch(item, now));
      && t.returned == !item.returned
      && t.returnDate == (if t.returned then Some(now) else None)
      && t.(returned := item.returned, returnDate := item.returnDate) == item
    ensures var t := MergeLendingItem(item, ReturnPatch(item, now));
      var u := MergeLendingItem(t, ReturnPatch(t, later));
      u.(returnDate := item.returnDate) == item
  {
  }

  method ToggleItemReturn(p: DataProvider, item: LendingItem, now: Timestamp)
    modifies p
    ensures p.lending == UpdateWhere(old(p.lending), item.id, LendingId, LendingMerger(ReturnPatch(item, now)))
    ensures forall i :: 0 <= i < |p.lending| && old(p.lending)[i].id == item.id ==>
      p.lending[i].returned == !item.returned && p.lending[i].id == item.id
    ensures p.store == old(p.store)[LendingKey := Records(Map(p.lending, LendingEncoder(p.codec)))]
    ensures p.notes == old(p.notes) && p.events == old(p.events) && p.reminders == old(p.reminders) && p.inventory == old(p.inventory)
  {
    p.UpdateLendingItem(item.id, ReturnPatch(item, now));
  }

  // ---------------------------------------------------------------------------
  // Drag and drop

  /** `handleLendingDrop`: nothing happens unless a dragged id is set and
      differs from the target and both are in the list; otherwise the list
      is copied, the dragged entry moved in front of the target position,
      and every entry of the copy written back through `updateLendingItem`.
      The ids, and so the order of the stored list, never change; with
      distinct ids the list itself stays as it was, and a drop that applies
      always saves it. */
  method HandleLendingDrop(p: DataProvider, dragged: Option<Id>, target: Id)
    modifies p
    ensures Ids(p.lending, LendingId) == Ids(old(p.lending), LendingId)
    ensures Distinct(Ids(old(p.lending), LendingId)) ==> p.lending == old(p.lending)
    ensures p.store == old(p.store) || p.store == old(p.store)[LendingKey := Records(Map(p.lending, LendingEncoder(p.codec)))]
    ensures (dragged.Some? && dragged.value != "" && dragged.value != target &&
             HasId(old(p.lending), dragged.value, LendingId) && HasId(old(p.lending), target, LendingId)) ==>
      p.store == old(p.store)[LendingKey := Records(Map(p.lending, LendingEncoder(p.codec)))]
    ensures dragged.None? || dragged.value == "" || dragged.value == target ==>
      p.lending == old(p.lending) && p.store == old(p.store)
    ensures p.notes == old(p.notes) && p.events == old(p.events) && p.reminders == old(p.reminders) && p.inventory == old(p.inventory)
  {
    if dragged.None? || dragged.value == "" || dragged.value == target {
      return;
    }
    var xs := p.lending;
    var from := FindIndex(xs, dragged.value, LendingId);
    var to := FindIndex(xs, target, LendingId);
    FindIndexFound(xs, dragged.value, LendingId);
    FindIndexFound(xs, target, LendingId);
    if from < 0 || to < 0 {
      return;
    }
    var reordered := SpliceCopy(xs, from, to);
    MovedPermutation(xs, from, to);
    WriteAllBack(p, reordered[..], xs);
  }

  /** The `forEach` of the drop: every entry of `ys`, a rearrangement of
      the list `xs` the provider holds, is written back in turn. */
  method WriteAllBack(p: DataProvider, ys: seq<LendingItem>, ghost xs: seq<LendingItem>)
    requires multiset(ys) == multiset(xs)
    requires p.lending == xs
    modifies p
    ensures Ids(p.lending, LendingId) == Ids(xs, LendingId)
    ensures Distinct(Ids(xs, LendingId)) ==> p.lending == xs
    ensures p.store == old(p.store) || p.store == old(p.store)[LendingKey := Records(Map(p.lending, LendingEncoder(p.codec)))]
    ensures |ys| > 0 ==> p.store == old(p.store)[LendingKey := Records(Map(p.lending, LendingEncoder(p.codec)))]
    ensures p.notes == old(p.notes) && p.events == old(p.events) && p.reminders == old(p.reminders) && p.inventory == old(p.inventory)
  {
    for k := 0 to |ys|
      invariant Ids(p.lending, LendingId) == Ids(xs, LendingId)
      invariant Distinct(Ids(xs, LendingId)) ==> p.lending == xs
      invariant p.store == old(p.store) || p.store == old(p.store)[LendingKey := Records(Map(p.lending, LendingEncoder(p.codec)))]
      invariant k > 0 ==> p.store == old(p.store)[LendingKey := Records(Map(p.lending, LendingEncoder(p.codec)))]
      invariant p.notes == old(p.notes) && p.events == old(p.events) && p.reminders == old(p.reminders) && p.inventory == old(p.inventory)
    {
      assert ys[k] in multiset(xs);
      WriteBack(p, ys[k], xs, old(p.store));
    }
  }

  /** One `updateLendingItem(item.id, { ...item })` of the drop over the
      list `xs`: the ids stay those of `xs`, with distinct ids the list stays
      `xs`, and the store ends up holding the current list over `store`. */
  method WriteBack(p: DataProvider, item: LendingItem, ghost xs: seq<LendingItem>, ghost store: map<string, Stored>)
    requires item in xs
    requires Ids(p.lending, LendingId) == Ids(xs, LendingId)
    requires Distinct(Ids(xs, LendingId)) ==> p.lending == xs
    requires p.store == store || p.store == store[LendingKey := Records(Map(p.lending, LendingEncoder(p.codec)))]
    modifies p
    ensures Ids(p.lending, LendingId) == Ids(xs, LendingId)
    ensures Distinct(Ids(xs, LendingId)) ==> p.lending == xs
    ensures p.store == store[LendingKey := Records(Map(p.lending, LendingEncoder(p.codec)))]
    ensures p.notes == old(p.notes) && p.events == old(p.events) && p.reminders == old(p.reminders) && p.inventory == old(p.inventory)
  {
    ghost var before := p.lending;
    ghost var s0 := p.store;
    ghost var saved := Records(Map(before, LendingEncoder(p.codec)));
    p.UpdateLendingItem(item.id, LendingFields(item));
    WriteBackStep(before, item, xs);
    OverwriteKey(store, s0, LendingKey, saved, Records(Map(p.lending, LendingEncoder(p.codec))));
  }
  /** Writing back an element of `xs` with all of its own fields keeps the
      ids of `xs`, and with distinct ids keeps the list `xs` itself. */
  lemma WriteBackStep(before: seq<LendingItem>, item: LendingItem, xs: seq<LendingItem>)
    requires item in xs
    requires Ids(before, LendingId) == Ids(xs, LendingId)
    requires Distinct(Ids(xs, LendingId)) ==> before == xs
    ensures Ids(UpdateWhere(before, item.id, LendingId, LendingMerger(LendingFields(item))), LendingId) == Ids(xs, LendingId)
    ensures Distinct(Ids(xs, LendingId)) ==> UpdateWhere(before, item.id, LendingId, LendingMerger(LendingFields(item))) == xs
  {
    var merge := LendingMerger(LendingFields(item));
    forall i | 0 <= i < |before| && LendingId(before[i]) == item.id
      ensures LendingId(merge(before[i])) == item.id
    {
      MergeLendingLaws(before[i], item, NoLendingFields);
    }
    UpdateKeepsIds(before, item.id, LendingId, merge);
    if Distinct(Ids(xs, LendingId)) {
      MergeLendingLaws(item, item, NoLendingFields);
      UpdateWithMember(before, item, LendingId, merge);
    }
  }
}
