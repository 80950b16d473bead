/** The inventory view: the search and category filter, the expiring-soon
    test and the alert status it drives, adding an item, and the
    drag-and-drop reorder. */
module InventoryView {
  import opened Common
  import opened Entities
  import opened Repository
  import opened Reorder
  import opened Codec
  import opened DataContext

  // ---------------------------------------------------------------------------
  // The list

  /** An item is shown when its name or its notes contain the search term,
      ignoring case, and its category is the selected one, if any. */
  predicate Shown(item: InventoryItem, search: string, selected: string) {
    (MatchesSearch(item.name, search) || MatchesSearch(item.notes, search))
    && CategoryMatches(selected, item.category)
  }

  function ShownTest(search: string, selected: string): InventoryItem -> bool {
    item => Shown(item, search, selected)
  }

  /** `filteredInventory`: the items shown, in inventory order. */
  function FilteredInventory(xs: seq<InventoryItem>, search: string, selected: string): (r: seq<InventoryItem>)
    ensures forall x :: x in r <==> x in xs && Shown(x, search, selected)
  {
    Filter(xs, ShownTest(search, selected))
  }

  /** With no search term and no category every item is shown, in order;
      the case of the search term does not matter. */
  lemma FilteredInventoryLaws(xs: seq<InventoryItem>, search: string, selected: string)
    ensures FilteredInventory(xs, "", "") == xs
    ensures FilteredInventory(xs, Lower(search), selected) == FilteredInventory(xs, search, selected)
  {
    forall i | 0 <= i < |xs|
      ensures Shown(xs[i], "", "")
    {
      MatchesSearchLaws(xs[i].name, "");
    }
    FilterAll(xs, ShownTest("", ""));
    FilterSameTest(xs, search, selected);
  }

  /** Lower-casing the search term keeps the test of every item. */
  lemma {:induction false} FilterSameTest(xs: seq<InventoryItem>, search: string, selected: string)
    ensures Filter(xs, ShownTest(Lower(search), selected)) == Filter(xs, ShownTest(search, selected))
  {
    if xs != [] {
      MatchesSearchLaws(xs[0].name, search);
      MatchesSearchLaws(xs[0].notes, search);
      FilterSameTest(xs[1..], search, selected);
    }
  }

  // ---------------------------------------------------------------------------
  // Expiry

  const ExpiryWindow := 30 * MsPerDay

  /** `isExpiringSoon`: an absent date never is; a present one is when it
      lies no later than thirty days from now, so past dates count too. */
  predicate IsExpiringSoon(date: Option<Timestamp>, now: Timestamp) {
    date.Some? && date.value <= now + ExpiryWindow
  }

  /** A date that is expiring soon stays so as time passes, and every date
      already past is expiring soon. */
  lemma ExpiringSoonLaws(date: Option<Timestamp>, now: Timestamp, later: Timestamp)
    requires now <= later
    ensures IsExpiringSoon(date, now) ==> IsExpiringSoon(date, later)
    ensures date.Some? && date.value <= now ==> IsExpiringSoon(date, now)
    ensures date.None? ==> !IsExpiringSoon(date, now)
  {
  }

  datatype Status = Alert | Normal

  /** `getStatusColor`: the red status marks an item whose warranty or
      return deadline is expiring soon. */
  function StatusOf(item: InventoryItem, now: Timestamp): (s: Status)
    ensures s == Alert <==>
      (item.warrantyExpiry.Some? && item.warrantyExpiry.value <= now + 30 * MsPerDay) ||
      (item.returnDeadline.Some? && item.returnDeadline.value <= now + 30 * MsPerDay)
  {
    if IsExpiringSoon(item.warrantyExpiry, now) || IsExpiringSoon(item.returnDeadline, now) then Alert else Normal
  }

  // ---------------------------------------------------------------------------
  // Adding

  /** `handleAddItem`: adds the form as an item only when the name is non-blank. */
  method HandleAddItem(p: DataProvider, d: InventoryDraft, now: nat)
    modifies p
    ensures IsBlank(d.name) ==> p.inventory == old(p.inventory) && p.store == old(p.store)
    ensures !IsBlank(d.name) ==> p.inventory == old(p.inventory) + [NewInventoryItem(d, now)]
    ensures !IsBlank(d.name) ==> p.store == old(p.store)[InventoryKey := Records(Map(p.inventory, InventoryEncoder(p.codec)))]
    ensures p.notes == old(p.notes) && p.events == old(p.events) && p.reminders == old(p.reminders) && p.lending == old(p.lending)
  {
    if !IsBlank(d.name) {
      p.AddInventoryItem(d, now);
    }
  }

  // ---------------------------------------------------------------------------
  // Drag and drop

  /** `handleItemDrop`: nothing happens unless a dragged id is set and
      differs from the target and both are in the inventory; otherwise the
      inventory is copied, the dragged item moved in front of the target
      position, and every item of the copy written back through
      `updateInventoryItem`. The ids, and so the order of the stored
      inventory, never change; with distinct ids the list itself
      stays as it was, and a drop that applies always saves it. */
  method HandleItemDrop(p: DataProvider, dragged: Option<Id>, target: Id)
    modifies p
    ensures Ids(p.inventory, InventoryId) == Ids(old(p.inventory), InventoryId)
    ensures Distinct(Ids(old(p.inventory), InventoryId)) ==> p.inventory == old(p.inventory)
    ensures p.store == old(p.store) || p.store == old(p.store)[InventoryKey := Records(Map(p.inventory, InventoryEncoder(p.codec)))]
    ensures (dragged.Some? && dragged.value != "" && dragged.value != target &&
             HasId(old(p.inventory), dragged.value, InventoryId) && HasId(old(p.inventory), target, InventoryId)) ==>
      p.store == old(p.store)[InventoryKey := Records(Map(p.inventory, InventoryEncoder(p.codec)))]
    ensures dragged.None? || dragged.value == "" || dragged.value == target ==>
      p.inventory == old(p.inventory) && p.store == old(p.store)
    ensures p.notes == old(p.notes) && p.events == old(p.events) && p.reminders == old(p.reminders) && p.lending == old(p.lending)
  {
    if dragged.None? || dragged.value == "" || dragged.value == target {
      return;
    }
    var xs := p.inventory;
    var from := FindIndex(xs, dragged.value, InventoryId);
    var to := FindIndex(xs, target, InventoryId);
    FindIndexFound(xs, dragged.value, InventoryId);
    FindIndexFound(xs, target, InventoryId);
    if from < 0 || to < 0 {
      return;
    }
    var reordered := SpliceCopy(xs, from, to);
    MovedPermutation(xs, from, to);
    WriteAllBack(p, reordered[..], xs);
  }

  /** The `forEach` of the drop: every item of `ys`, a rearrangement of the
      inventory `xs` the provider holds, is written back in turn. */
  method WriteAllBack(p: DataProvider, ys: seq<InventoryItem>, ghost xs: seq<InventoryItem>)
    requires multiset(ys) == multiset(xs)
    requires p.inventory == xs
    modifies p
    ensures Ids(p.inventory, InventoryId) == Ids(xs, InventoryId)
    ensures Distinct(Ids(xs, InventoryId)) ==> p.inventory == xs
    ensures p.store == old(p.store) || p.store == old(p.store)[InventoryKey := Records(Map(p.inventory, InventoryEncoder(p.codec)))]
    ensures |ys| > 0 ==> p.store == old(p.store)[InventoryKey := Records(Map(p.inventory, InventoryEncoder(p.codec)))]
    ensures p.notes == old(p.notes) && p.events == old(p.events) && p.reminders == old(p.reminders) && p.lending == old(p.lending)
  {
    for k := 0 to |ys|
      invariant Ids(p.inventory, InventoryId) == Ids(xs, InventoryId)
      invariant Distinct(Ids(xs, InventoryId)) ==> p.inventory == xs
      invariant p.store == old(p.store) || p.store == old(p.store)[InventoryKey := Records(Map(p.inventory, InventoryEncoder(p.codec)))]
      invariant k > 0 ==> p.store == old(p.store)[InventoryKey := Records(Map(p.inventory, InventoryEncoder(p.codec)))]
      invariant p.notes == old(p.notes) && p.events == old(p.events) && p.reminders == old(p.reminders) && p.lending == old(p.lending)
    {
      assert ys[k] in multiset(xs);
      WriteBack(p, ys[k], xs, old(p.store));
    }
  }

  /** One `updateInventoryItem(item.id, { ...item })` of the drop over the
      inventory `xs`: the ids stay those of `xs`, with distinct ids the
      inventory stays `xs`, and the store ends up holding the current
      inventory over `store`. */
  method WriteBack(p: DataProvider, item: InventoryItem, ghost xs: seq<InventoryItem>, ghost store: map<string, Stored>)
    requires item in xs
    requires Ids(p.inventory, InventoryId) == Ids(xs, InventoryId)
    requires Distinct(Ids(xs, InventoryId)) ==> p.inventory == xs
    requires p.store == store || p.store == store[InventoryKey := Records(Map(p.inventory, InventoryEncoder(p.codec)))]
    modifies p
    ensures Ids(p.inventory, InventoryId) == Ids(xs, InventoryId)
    ensures Distinct(Ids(xs, InventoryId)) ==> p.inventory == xs
    ensures p.store == store[InventoryKey := Records(Map(p.inventory, InventoryEncoder(p.codec)))]
    ensures p.notes == old(p.notes) && p.events == old(p.events) && p.reminders == old(p.reminders) && p.lending == old(p.lending)
  {
    ghost var before := p.inventory;
    ghost var s0 := p.store;
    ghost var saved := Records(Map(before, InventoryEncoder(p.codec)));
    p.UpdateInventoryItem(item.id, InventoryFields(item));
    WriteBackStep(before, item, xs);
    OverwriteKey(store, s0, InventoryKey, saved, Records(Map(p.inventory, InventoryEncoder(p.codec))));
  }

  /** Writing back an element of `xs` with all of its own fields keeps the
      ids of `xs`, and with distinct ids keeps the inventory `xs` itself. */
  lemma WriteBackStep(before: seq<InventoryItem>, item: InventoryItem, xs: seq<InventoryItem>)
    requires item in xs
    requires Ids(before, InventoryId) == Ids(xs, InventoryId)
    requires Distinct(Ids(xs, InventoryId)) ==> before == xs
    ensures Ids(UpdateWhere(before, item.id, InventoryId, InventoryMerger(InventoryFields(item))), InventoryId) == Ids(xs, InventoryId)
    ensures Distinct(Ids(xs, InventoryId)) ==> UpdateWhere(before, item.id, InventoryId, InventoryMerger(InventoryFields(item))) == xs
  {
    var merge := InventoryMerger(InventoryFields(item));
    forall i | 0 <= i < |before| && InventoryId(before[i]) == item.id
      ensures InventoryId(merge(before[i])) == item.id
    {
      MergeInventoryLaws(before[i], item, NoInventoryFields);
    }
    UpdateKeepsIds(before, item.id, InventoryId, merge);
    if Distinct(Ids(xs, InventoryId)) {
      MergeInventoryLaws(item, item, NoInventoryFields);
      UpdateWithMember(before, item, InventoryId, merge);
    }
  }
}
