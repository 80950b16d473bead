/** The data provider: five entity collections held as state, each changed
    only through its `add`, `update` and `delete` operations, each of which
    replaces the collection and writes the whole of it to the collection's
    key in the browser store; and the one-off load that reads the store back
    when the provider starts. */
module DataContext {
  import opened Common
  import opened Entities
  import opened Codec
  import opened Repository

  // The store keys, one per collection.
  const NotesKey := "productivity-notes"
  const EventsKey := "productivity-events"
  const RemindersKey := "productivity-reminders"
  const InventoryKey := "productivity-inventory"
  const LendingKey := "productivity-lending"

  function NoteId(n: Note): Id { n.id }
  function EventId(e: CalendarEvent): Id { e.id }
  function ReminderId(r: Reminder): Id { r.id }
  function InventoryId(i: InventoryItem): Id { i.id }
  function LendingId(l: LendingItem): Id { l.id }

  function NoteMerger(p: NotePatch, now: Timestamp): Note -> Note { n => MergeNote(n, p, now) }
  function EventMerger(p: EventPatch): CalendarEvent -> CalendarEvent { e => MergeEvent(e, p) }
  function ReminderMerger(p: ReminderPatch): Reminder -> Reminder { r => MergeReminder(r, p) }
  function InventoryMerger(p: InventoryPatch): InventoryItem -> InventoryItem { i => MergeInventoryItem(i, p) }
  function LendingMerger(p: LendingPatch): LendingItem -> LendingItem { l => MergeLendingItem(l, p) }

  // ---------------------------------------------------------------------------
  // `loadData(key, setter)`

  /** Every record stored under `key` reads back as an entity of the kind. */
  predicate Loadable<T>(c: DateCodec, store: map<string, Stored>, key: string, decode: LiveRecord -> Option<T>) {
    key in store && store[key].Records? ==> DecodeAll(c, store[key].records, decode).Some?
  }

  /** The collection after `loadData`: untouched when nothing is stored under
      the key or the stored text does not parse as a list; otherwise the
      stored records with their dates revived. */
  function Loaded<T>(c: DateCodec, store: map<string, Stored>, key: string,
                     decode: LiveRecord -> Option<T>, current: seq<T>): seq<T>
    requires Loadable(c, store, key, decode)
  {
    if key in store && store[key].Records? then DecodeAll(c, store[key].records, decode).value
    else current
  }

  /** What `saveData` wrote for the notes, `loadData` reads back, whatever the
      collection held before; only the todos' creation times come back as text. */
  lemma NotesSurviveReload(c: DateCodec, store: map<string, Stored>, ns: seq<Note>, current: seq<Note>)
    requires Sound(c)
    ensures var saved := store[NotesKey := Records(Map(ns, NoteEncoder(c)))];
      Loadable(c, saved, NotesKey, DecodeNote) && Loaded(c, saved, NotesKey, DecodeNote, current) == Map(ns, NoteSettler(c))
  {
    NotesRoundTrip(c, ns);
  }

  lemma EventsSurviveReload(c: DateCodec, store: map<string, Stored>, es: seq<CalendarEvent>, current: seq<CalendarEvent>)
    requires Sound(c)
    ensures var saved := store[EventsKey := Records(Map(es, EventEncoder(c)))];
      Loadable(c, saved, EventsKey, DecodeEvent) && Loaded(c, saved, EventsKey, DecodeEvent, current) == es
  {
    EventsRoundTrip(c, es);
  }

  lemma RemindersSurviveReload(c: DateCodec, store: map<string, Stored>, rs: seq<Reminder>, current: seq<Reminder>)
    requires Sound(c)
    ensures var saved := store[RemindersKey := Records(Map(rs, ReminderEncoder(c)))];
      Loadable(c, saved, RemindersKey, DecodeReminder) && Loaded(c, saved, RemindersKey, DecodeReminder, current) == rs
  {
    RemindersRoundTrip(c, rs);
  }

  lemma InventorySurvivesReload(c: DateCodec, store: map<string, Stored>, items: seq<InventoryItem>, current: seq<InventoryItem>)
    requires Sound(c)
    ensures var saved := store[InventoryKey := Records(Map(items, InventoryEncoder(c)))];
      Loadable(c, saved, InventoryKey, DecodeInventoryItem)
      && Loaded(c, saved, InventoryKey, DecodeInventoryItem, current) == items
  {
    InventoryCollectionRoundTrip(c, items);
  }

  lemma LendingSurvivesReload(c: DateCodec, store: map<string, Stored>, ls: seq<LendingItem>, current: seq<LendingItem>)
    requires Sound(c)
    ensures var saved := store[LendingKey := Records(Map(ls, LendingEncoder(c)))];
      Loadable(c, saved, LendingKey, DecodeLendingItem) && Loaded(c, saved, LendingKey, DecodeLendingItem, current) == ls
  {
    LendingCollectionRoundTrip(c, ls);
  }

  class DataProvider {
    var notes: seq<Note>
    var events: seq<CalendarEvent>
    var reminders: seq<Reminder>
    var inventory: seq<InventoryItem>
    var lending: seq<LendingItem>
    /** `localStorage`: what is stored under each key. */
    var store: map<string, Stored>
    /** How dates are written to and read from the store. */
    const codec: DateCodec

    /** The provider starts with five empty collections over the given store. */
    constructor(codec: DateCodec, store: map<string, Stored>)
      ensures this.codec == codec && this.store == store
      ensures notes == [] && events == [] && reminders == [] && inventory == [] && lending == []
    {
      this.codec := codec;
      this.store := store;
      notes, events, reminders, inventory, lending := [], [], [], [], [];
    }

    /** `saveData(key, data)` */
    method SaveData(key: string, records: seq<Record>)
      modifies this
      ensures store == old(store)[key := Records(records)]
      ensures notes == old(notes) && events == old(events) && reminders == old(reminders)
      ensures inventory == old(inventory) && lending == old(lending)
    {
      store := store[key := Records(records)];
    }

    // -------------------------------------------------------------------------
    // Loading

    /** The start-up effect: `loadData` for each of the five keys in turn. */
    method Load()
      requires Loadable(codec, store, NotesKey, DecodeNote)
      requires Loadable(codec, store, EventsKey, DecodeEvent)
      requires Loadable(codec, store, RemindersKey, DecodeReminder)
      requires Loadable(codec, store, InventoryKey, DecodeInventoryItem)
      requires Loadable(codec, store, LendingKey, DecodeLendingItem)
      modifies this
      ensures store == old(store)
      ensures notes == Loaded(codec, store, NotesKey, DecodeNote, old(notes))
      ensures events == Loaded(codec, store, EventsKey, DecodeEvent, old(events))
      ensures reminders == Loaded(codec, store, RemindersKey, DecodeReminder, old(reminders))
      ensures inventory == Loaded(codec, store, InventoryKey, DecodeInventoryItem, old(inventory))
      ensures lending == Loaded(codec, store, LendingKey, DecodeLendingItem, old(lending))
    {
      LoadNotes();
      LoadEvents();
      LoadReminders();
      LoadInventory();
      LoadLending();
    }

    /** `loadData('productivity-notes', ...)` */
    method LoadNotes()
      requires Loadable(codec, store, NotesKey, DecodeNote)
      modifies this
      ensures store == old(store) && notes == Loaded(codec, store, NotesKey, DecodeNote, old(notes))
      ensures events == old(events) && reminders == old(reminders) && inventory == old(inventory) && lending == old(lending)
    {
      notes := Loaded(codec, store, NotesKey, DecodeNote, notes);
    }

    /** `loadData('productivity-events', ...)` */
    method LoadEvents()
      requires Loadable(codec, store, EventsKey, DecodeEvent)
      modifies this
      ensures store == old(store) && events == Loaded(codec, store, EventsKey, DecodeEvent, old(events))
      ensures notes == old(notes) && reminders == old(reminders) && inventory == old(inventory) && lending == old(lending)
    {
      events := Loaded(codec, store, EventsKey, DecodeEvent, events);
    }

    /** `loadData('productivity-reminders', ...)` */
    method LoadReminders()
      requires Loadable(codec, store, RemindersKey, DecodeReminder)
      modifies this
      ensures store == old(store) && reminders == Loaded(codec, store, RemindersKey, DecodeReminder, old(reminders))
      ensures notes == old(notes) && events == old(events) && inventory == old(inventory) && lending == old(lending)
    {
      reminders := Loaded(codec, store, RemindersKey, DecodeReminder, reminders);
    }

    /** `loadData('productivity-inventory', ...)` */
    method LoadInventory()
      requires Loadable(codec, store, InventoryKey, DecodeInventoryItem)
      modifies this
      ensures store == old(store) && inventory == Loaded(codec, store, InventoryKey, DecodeInventoryItem, old(inventory))
      ensures notes == old(notes) && events == old(events) && reminders == old(reminders) && lending == old(lending)
    {
      inventory := Loaded(codec, store, InventoryKey, DecodeInventoryItem, inventory);
    }

    /** `loadData('productivity-lending', ...)` */
    method LoadLending()
      requires Loadable(codec, store, LendingKey, DecodeLendingItem)
      modifies this
      ensures store == old(store) && lending == Loaded(codec, store, LendingKey, DecodeLendingItem, old(lending))
      ensures notes == old(notes) && events == old(events) && reminders == old(reminders) && inventory == old(inventory)
    {
      lending := Loaded(codec, store, LendingKey, DecodeLendingItem, lending);
    }

    // -------------------------------------------------------------------------
    // Notes

    /** `addNote`: appends the draft as a new note stamped with `now`. */
    method AddNote(d: NoteDraft, now: nat)
      modifies this
      ensures notes == old(notes) + [NewNote(d, now)]
      ensures notes[..|old(notes)|] == old(notes)
      ensures Distinct(Ids(old(notes), NoteId)) && IssuedBefore(Ids(old(notes), NoteId), now) ==> Distinct(Ids(notes, NoteId))
      ensures store == old(store)[NotesKey := Records(Map(notes, NoteEncoder(codec)))]
      ensures events == old(events) && reminders == old(reminders) && inventory == old(inventory) && lending == old(lending)
    {
      var updated := notes + [NewNote(d, now)];
      AppendFresh(notes, NewNote(d, now), NoteId, now);
      notes := updated;
      SaveData(NotesKey, Map(updated, NoteEncoder(codec)));
    }

    /** `updateNote`: merges the patch into every note carrying the id and
        stamps those notes with `now`; positions do not change. */
    method UpdateNote(id: Id, p: NotePatch, now: Timestamp)
      modifies this
      ensures notes == UpdateWhere(old(notes), id, NoteId, NoteMerger(p, now))
      ensures |notes| == |old(notes)|
      ensures p.id.None? ==> Ids(notes, NoteId) == Ids(old(notes), NoteId)
      ensures !HasId(old(notes), id, NoteId) ==> notes == old(notes)
      ensures store == old(store)[NotesKey := Records(Map(notes, NoteEncoder(codec)))]
      ensures events == old(events) && reminders == old(reminders) && inventory == old(inventory) && lending == old(lending)
    {
      var updated := UpdateWhere(notes, id, NoteId, NoteMerger(p, now));
      if !HasId(notes, id, NoteId) {
        UpdateAbsent(notes, id, NoteId, NoteMerger(p, now));
      }
      if p.id.None? {
        UpdateKeepsIds(notes, id, NoteId, NoteMerger(p, now));
      }
      notes := updated;
      SaveData(NotesKey, Map(updated, NoteEncoder(codec)));
    }

    /** `deleteNote`: drops every note carrying the id. */
    method DeleteNote(id: Id)
      modifies this
      ensures notes == DeleteWhere(old(notes), id, NoteId)
      ensures !HasId(notes, id, NoteId)
      ensures !HasId(old(notes), id, NoteId) ==> notes == old(notes)
      ensures store == old(store)[NotesKey := Records(Map(notes, NoteEncoder(codec)))]
      ensures events == old(events) && reminders == old(reminders) && inventory == old(inventory) && lending == old(lending)
    {
      var updated := DeleteWhere(notes, id, NoteId);
      DeleteExact(notes, id, NoteId);
      DeleteAbsentIdempotent(notes, id, NoteId);
      notes := updated;
      SaveData(NotesKey, Map(updated, NoteEncoder(codec)));
    }

    // -------------------------------------------------------------------------
    // Calendar events

    method AddEvent(d: EventDraft, now: nat)
      modifies this
      ensures events == old(events) + [NewEvent(d, now)]
      ensures events[..|old(events)|] == old(events)
      ensures Distinct(Ids(old(events), EventId)) && IssuedBefore(Ids(old(events), EventId), now) ==> Distinct(Ids(events, EventId))
      ensures store == old(store)[EventsKey := Records(Map(events, EventEncoder(codec)))]
      ensures notes == old(notes) && reminders == old(reminders) && inventory == old(inventory) && lending == old(lending)
    {
      var updated := events + [NewEvent(d, now)];
      AppendFresh(events, NewEvent(d, now), EventId, now);
      events := updated;
      SaveData(EventsKey, Map(updated, EventEncoder(codec)));
    }

    method UpdateEvent(id: Id, p: EventPatch)
      modifies this
      ensures events == UpdateWhere(old(events), id, EventId, EventMerger(p))
      ensures |events| == |old(events)|
      ensures p.id.None? ==> Ids(events, EventId) == Ids(old(events), EventId)
      ensures !HasId(old(events), id, EventId) ==> events == old(events)
      ensures store == old(store)[EventsKey := Records(Map(events, EventEncoder(codec)))]
      ensures notes == old(notes) && reminders == old(reminders) && inventory == old(inventory) && lending == old(lending)
    {
      var updated := UpdateWhere(events, id, EventId, EventMerger(p));
      if !HasId(events, id, EventId) {
        UpdateAbsent(events, id, EventId, EventMerger(p));
      }
      if p.id.None? {
        UpdateKeepsIds(events, id, EventId, EventMerger(p));
      }
      events := updated;
      SaveData(EventsKey, Map(updated, EventEncoder(codec)));
    }

    method DeleteEvent(id: Id)
      modifies this
      ensures events == DeleteWhere(old(events), id, EventId)
      ensures !HasId(events, id, EventId)
      ensures !HasId(old(events), id, EventId) ==> events == old(events)
      ensures store == old(store)[EventsKey := Records(Map(events, EventEncoder(codec)))]
      ensures notes == old(notes) && reminders == old(reminders) && inventory == old(inventory) && lending == old(lending)
    {
      var updated := DeleteWhere(events, id, EventId);
      DeleteExact(events, id, EventId);
      DeleteAbsentIdempotent(events, id, EventId);
      events := updated;
      SaveData(EventsKey, Map(updated, EventEncoder(codec)));
    }

    // -------------------------------------------------------------------------
    // Reminders

    method AddReminder(d: ReminderDraft, now: nat)
      modifies this
      ensures reminders == old(reminders) + [NewReminder(d, now)]
      ensures reminders[..|old(reminders)|] == old(reminders)
      ensures Distinct(Ids(old(reminders), ReminderId)) && IssuedBefore(Ids(old(reminders), ReminderId), now) ==> Distinct(Ids(reminders, ReminderId))
      ensures store == old(store)[RemindersKey := Records(Map(reminders, ReminderEncoder(codec)))]
      ensures notes == old(notes) && events == old(events) && inventory == old(inventory) && lending == old(lending)
    {
      var updated := reminders + [NewReminder(d, now)];
      AppendFresh(reminders, NewReminder(d, now), ReminderId, now);
      reminders := updated;
      SaveData(RemindersKey, Map(updated, ReminderEncoder(codec)));
    }

    method UpdateReminder(id: Id, p: ReminderPatch)
      modifies this
      ensures reminders == UpdateWhere(old(reminders), id, ReminderId, ReminderMerger(p))
      ensures |reminders| == |old(reminders)|
      ensures p.id.None? ==> Ids(reminders, ReminderId) == Ids(old(reminders), ReminderId)
      ensures !HasId(old(reminders), id, ReminderId) ==> reminders == old(reminders)
      ensures store == old(store)[RemindersKey := Records(Map(reminders, ReminderEncoder(codec)))]
      ensures notes == old(notes) && events == old(events) && inventory == old(inventory) && lending == old(lending)
    {
      var updated := UpdateWhere(reminders, id, ReminderId, ReminderMerger(p));
      if !HasId(reminders, id, ReminderId) {
        UpdateAbsent(reminders, id, ReminderId, ReminderMerger(p));
      }
      if p.id.None? {
        UpdateKeepsIds(reminders, id, ReminderId, ReminderMerger(p));
      }
      reminders := updated;
      SaveData(RemindersKey, Map(updated, ReminderEncoder(codec)));
    }

    method DeleteReminder(id: Id)
      modifies this
      ensures reminders == DeleteWhere(old(reminders), id, ReminderId)
      ensures !HasId(reminders, id, ReminderId)
      ensures !HasId(old(reminders), id, ReminderId) ==> reminders == old(reminders)
      ensures store == old(store)[RemindersKey := Records(Map(reminders, ReminderEncoder(codec)))]
      ensures notes == old(notes) && events == old(events) && inventory == old(inventory) && lending == old(lending)
    {
      var updated := DeleteWhere(reminders, id, ReminderId);
      DeleteExact(reminders, id, ReminderId);
      DeleteAbsentIdempotent(reminders, id, ReminderId);
      reminders := updated;
      SaveData(RemindersKey, Map(updated, ReminderEncoder(codec)));
    }

    // -------------------------------------------------------------------------
    // Inventory

    method AddInventoryItem(d: InventoryDraft, now: nat)
      modifies this
      ensures inventory == old(inventory) + [NewInventoryItem(d, now)]
      ensures inventory[..|old(inventory)|] == old(inventory)
      ensures Distinct(Ids(old(inventory), InventoryId)) && IssuedBefore(Ids(old(inventory), InventoryId), now) ==> Distinct(Ids(inventory, InventoryId))
      ensures store == old(store)[InventoryKey := Records(Map(inventory, InventoryEncoder(codec)))]
      ensures notes == old(notes) && events == old(events) && reminders == old(reminders) && lending == old(lending)
    {
      var updated := inventory + [NewInventoryItem(d, now)];
      AppendFresh(inventory, NewInventoryItem(d, now), InventoryId, now);
      inventory := updated;
      SaveData(InventoryKey, Map(updated, InventoryEncoder(codec)));
    }

    method UpdateInventoryItem(id: Id, p: InventoryPatch)
      modifies this
      ensures inventory == UpdateWhere(old(inventory), id, InventoryId, InventoryMerger(p))
      ensures |inventory| == |old(inventory)|
      ensures p.id.None? ==> Ids(inventory, InventoryId) == Ids(old(inventory), InventoryId)
      ensures !HasId(old(inventory), id, InventoryId) ==> inventory == old(inventory)
      ensures store == old(store)[InventoryKey := Records(Map(inventory, InventoryEncoder(codec)))]
      ensures notes == old(notes) && events == old(events) && reminders == old(reminders) && lending == old(lending)
    {
      var updated := UpdateWhere(inventory, id, InventoryId, InventoryMerger(p));
      if !HasId(inventory, id, InventoryId) {
        UpdateAbsent(inventory, id, InventoryId, InventoryMerger(p));
      }
      if p.id.None? {
        UpdateKeepsIds(inventory, id, InventoryId, InventoryMerger(p));
      }
      inventory := updated;
      SaveData(InventoryKey, Map(updated, InventoryEncoder(codec)));
    }

    method DeleteInventoryItem(id: Id)
      modifies this
      ensures inventory == DeleteWhere(old(inventory), id, InventoryId)
      ensures !HasId(inventory, id, InventoryId)
      ensures !HasId(old(inventory), id, InventoryId) ==> inventory == old(inventory)
      ensures store == old(store)[InventoryKey := Records(Map(inventory, InventoryEncoder(codec)))]
      ensures notes == old(notes) && events == old(events) && reminders == old(reminders) && lending == old(lending)
    {
      var updated := DeleteWhere(inventory, id, InventoryId);
      DeleteExact(inventory, id, InventoryId);
      DeleteAbsentIdempotent(inventory, id, InventoryId);
      inventory := updated;
      SaveData(InventoryKey, Map(updated, InventoryEncoder(codec)));
    }

    // -------------------------------------------------------------------------
    // Lending

    method AddLendingItem(d: LendingDraft, now: nat)
      modifies this
      ensures lending == old(lending) + [NewLendingItem(d, now)]
      ensures lending[..|old(lending)|] == old(lending)
      ensures Distinct(Ids(old(lending), LendingId)) && IssuedBefore(Ids(old(lending), LendingId), now) ==> Distinct(Ids(lending, LendingId))
      ensures store == old(store)[LendingKey := Records(Map(lending, LendingEncoder(codec)))]
      ensures notes == old(notes) && events == old(events) && reminders == old(reminders) && inventory == old(inventory)
    {
      var updated := lending + [NewLendingItem(d, now)];
      AppendFresh(lending, NewLendingItem(d, now), LendingId, now);
      lending := updated;
      SaveData(LendingKey, Map(updated, LendingEncoder(codec)));
    }

    method UpdateLendingItem(id: Id, p: LendingPatch)
      modifies this
      ensures lending == UpdateWhere(old(lending), id, LendingId, LendingMerger(p))
      ensures |lending| == |old(lending)|
      ensures p.id.None? ==> Ids(lending, LendingId) == Ids(old(lending), LendingId)
      ensures !HasId(old(lending), id, LendingId) ==> lending == old(lending)
      ensures store == old(store)[LendingKey := Records(Map(lending, LendingEncoder(codec)))]
      ensures notes == old(notes) && events == old(events) && reminders == old(reminders) && inventory == old(inventory)
    {
      var updated := UpdateWhere(lending, id, LendingId, LendingMerger(p));
      if !HasId(lending, id, LendingId) {
        UpdateAbsent(lending, id, LendingId, LendingMerger(p));
      }
      if p.id.None? {
        UpdateKeepsIds(lending, id, LendingId, LendingMerger(p));
      }
      lending := updated;
      SaveData(LendingKey, Map(updated, LendingEncoder(codec)));
    }

    method DeleteLendingItem(id: Id)
      modifies this
      ensures lending == DeleteWhere(old(lending), id, LendingId)
      ensures !HasId(lending, id, LendingId)
      ensures !HasId(old(lending), id, LendingId) ==> lending == old(lending)
      ensures store == old(store)[LendingKey := Records(Map(lending, LendingEncoder(codec)))]
      ensures notes == old(notes) && events == old(events) && reminders == old(reminders) && inventory == old(inventory)
    {
      var updated := DeleteWhere(lending, id, LendingId);
      DeleteExact(lending, id, LendingId);
      DeleteAbsentIdempotent(lending, id, LendingId);
      lending := updated;
      SaveData(LendingKey, Map(updated, LendingEncoder(codec)));
    }
  }

  /** An entity appended with the clock-derived id keeps the ids distinct
      while the clock has moved past every earlier id. */
  lemma AppendFresh<T>(xs: seq<T>, x: T, idOf: T -> Id, now: nat)
    requires idOf(x) == Decimal(now)
    ensures Distinct(Ids(xs, idOf)) && IssuedBefore(Ids(xs, idOf), now) ==> Distinct(Ids(xs + [x], idOf))
  {
    AppendKeeps(xs, x, idOf);
    if Distinct(Ids(xs, idOf)) && IssuedBefore(Ids(xs, idOf), now) {
      ClockIdFresh(Ids(xs, idOf), now);
    }
  }
}
