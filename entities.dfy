/** The five entity kinds of the data layer, the drafts the views pass to
    `add*` (the entity without the fields the repository assigns), the
    partial records they pass to `update*`, and the shallow merge
    `{ ...entity, ...partial }` that `update*` performs. */
module Entities {
  import opened Common

  // ---------------------------------------------------------------------------
  // Notes and their todo lists

  datatype NoteKind = PlainNote | TodoList   // 'note' | 'todo'

  /** A todo's creation time: a date when created in this session; the ISO
      text it was stored as after a reload, since loading does not revive
      dates nested inside a note. */
  datatype TodoStamp = AsDate(t: Timestamp) | AsText(text: string)

  datatype TodoItem = TodoItem(id: Id, text: string, completed: bool, createdAt: TodoStamp)

  datatype Note = Note(
    id: Id, title: string, content: string, category: string,
    createdAt: Timestamp, updatedAt: Timestamp, color: string,
    kind: NoteKind, todos: Option<seq<TodoItem>>)

  datatype NoteDraft = NoteDraft(
    title: string, content: string, category: string, color: string,
    kind: NoteKind, todos: Option<seq<TodoItem>>)

  /** `Partial<Note>`: `None` leaves the field out; for the optional `todos`,
      `Some(None)` writes an explicit `undefined`. */
  datatype NotePatch = NotePatch(
    id: Option<Id>, title: Option<string>, content: Option<string>,
    category: Option<string>, createdAt: Option<Timestamp>,
    updatedAt: Option<Timestamp>, color: Option<string>,
    kind: Option<NoteKind>, todos: Option<Option<seq<TodoItem>>>)

  /** `addNote`: the draft with a clock-derived id and both timestamps at `now`. */
  function NewNote(d: NoteDraft, now: nat): (n: Note)
    ensures n.id == Decimal(now) && n.createdAt == now && n.updatedAt == n.createdAt
    ensures DraftOf(n) == d
  {
    Note(Decimal(now), d.title, d.content, d.category, now, now, d.color, d.kind, d.todos)
  }

  function DraftOf(n: Note): NoteDraft {
    NoteDraft(n.title, n.content, n.category, n.color, n.kind, n.todos)
  }

  /** `{ ...note, ...p, updatedAt: new Date() }` */
  function MergeNote(n: Note, p: NotePatch, now: Timestamp): Note {
    Note(p.id.GetOr(n.id), p.title.GetOr(n.title), p.content.GetOr(n.content),
         p.category.GetOr(n.category), p.createdAt.GetOr(n.createdAt), now,
         p.color.GetOr(n.color), p.kind.GetOr(n.kind), p.todos.GetOr(n.todos))
  }

  const NoNoteFields := NotePatch(None, None, None, None, None, None, None, None, None)

  /** `{ ...note }`: every field of the note. */
  function NoteFields(n: Note): NotePatch {
    NotePatch(Some(n.id), Some(n.title), Some(n.content), Some(n.category),
              Some(n.createdAt), Some(n.updatedAt), Some(n.color), Some(n.kind), Some(n.todos))
  }

  function TodosPatch(todos: seq<TodoItem>): NotePatch {
    NoNoteFields.(todos := Some(Some(todos)))
  }

  function ContentPatch(content: string): NotePatch {
    NoNoteFields.(content := Some(content))
  }

  /** The note merge always stamps `updatedAt` with `now`, even when the patch
      supplies its own `updatedAt`; every field the patch leaves out is kept;
      merging all of another note's fields yields that note, freshly stamped. */
  lemma MergeNoteLaws(n: Note, m: Note, p: NotePatch, now: Timestamp)
    ensures MergeNote(n, p, now).updatedAt == now
    ensures MergeNote(n, NoNoteFields, now) == n.(updatedAt := now)
    ensures MergeNote(n, NoteFields(m), now) == m.(updatedAt := now)
    ensures p.id.None? ==> MergeNote(n, p, now).id == n.id
    ensures p.createdAt.None? ==> MergeNote(n, p, now).createdAt == n.createdAt
    ensures MergeNote(MergeNote(n, p, now), p, now) == MergeNote(n, p, now)
  {
  }

  // ---------------------------------------------------------------------------
  // Calendar events

  datatype CalendarEvent = CalendarEvent(
    id: Id, title: string, description: string, date: Timestamp,
    time: string, category: string, color: string)

  datatype EventDraft = EventDraft(
    title: string, description: string, date: Timestamp,
    time: string, category: string, color: string)

  datatype EventPatch = EventPatch(
    id: Option<Id>, title: Option<string>, description: Option<string>,
    date: Option<Timestamp>, time: Option<string>, category: Option<string>,
    color: Option<string>)

  function NewEvent(d: EventDraft, now: nat): (e: CalendarEvent)
    ensures e.id == Decimal(now)
    ensures EventDraftOf(e) == d
  {
    CalendarEvent(Decimal(now), d.title, d.description, d.date, d.time, d.category, d.color)
  }

  function EventDraftOf(e: CalendarEvent): EventDraft {
    EventDraft(e.title, e.description, e.date, e.time, e.category, e.color)
  }

  /** `{ ...event, ...p }` */
  function MergeEvent(e: CalendarEvent, p: EventPatch): CalendarEvent {
    CalendarEvent(p.id.GetOr(e.id), p.title.GetOr(e.title),
                  p.description.GetOr(e.description), p.date.GetOr(e.date),
                  p.time.GetOr(e.time), p.category.GetOr(e.category),
                  p.color.GetOr(e.color))
  }

  function EventFields(e: CalendarEvent): EventPatch {
    EventPatch(Some(e.id), Some(e.title), Some(e.description), Some(e.date),
               Some(e.time), Some(e.category), Some(e.color))
  }

  const NoEventFields := EventPatch(None, None, None, None, None, None, None)

  /** The event merge touches no timestamp of its own: the empty patch changes
      nothing and merging all fields of `f` yields `f`. */
  lemma MergeEventLaws(e: CalendarEvent, f: CalendarEvent, p: EventPatch)
    ensures MergeEvent(e, NoEventFields) == e
    ensures MergeEvent(e, EventFields(f)) == f
    ensures p.id.None? ==> MergeEvent(e, p).id == e.id
    ensures MergeEvent(MergeEvent(e, p), p) == MergeEvent(e, p)
  {
  }

  // ---------------------------------------------------------------------------
  // Reminders

  datatype Priority = Low | Medium | High

  datatype Reminder = Reminder(
    id: Id, title: string, description: string, dueDate: Timestamp,
    priority: Priority, completed: bool, createdAt: Timestamp)

  datatype ReminderDraft = ReminderDraft(
    title: string, description: string, dueDate: Timestamp,
    priority: Priority, completed: bool)

  datatype ReminderPatch = ReminderPatch(
    id: Option<Id>, title: Option<string>, description: Option<string>,
    dueDate: Option<Timestamp>, priority: Option<Priority>,
    completed: Option<bool>, createdAt: Option<Timestamp>)

  /** `addReminder`: the draft with a clock-derived id, created at `now`. */
  function NewReminder(d: ReminderDraft, now: nat): (r: Reminder)
    ensures r.id == Decimal(now) && r.createdAt == now
    ensures ReminderDraftOf(r) == d
  {
    Reminder(Decimal(now), d.title, d.description, d.dueDate, d.priority, d.completed, now)
  }

  function ReminderDraftOf(r: Reminder): ReminderDraft {
    ReminderDraft(r.title, r.description, r.dueDate, r.priority, r.completed)
  }

  function MergeReminder(r: Reminder, p: ReminderPatch): Reminder {
    Reminder(p.id.GetOr(r.id), p.title.GetOr(r.title),
             p.description.GetOr(r.description), p.dueDate.GetOr(r.dueDate),
             p.priority.GetOr(r.priority), p.completed.GetOr(r.completed),
             p.createdAt.GetOr(r.createdAt))
  }

  function ReminderFields(r: Reminder): ReminderPatch {
    ReminderPatch(Some(r.id), Some(r.title), Some(r.description), Some(r.dueDate),
                  Some(r.priority), Some(r.completed), Some(r.createdAt))
  }

  const NoReminderFields := ReminderPatch(None, None, None, None, None, None, None)

  lemma MergeReminderLaws(r: Reminder, s: Reminder, p: ReminderPatch)
    ensures MergeReminder(r, NoReminderFields) == r
    ensures MergeReminder(r, ReminderFields(s)) == s
    ensures p.id.None? ==> MergeReminder(r, p).id == r.id
    ensures MergeReminder(MergeReminder(r, p), p) == MergeReminder(r, p)
  {
  }

  // ---------------------------------------------------------------------------
  // Inventory

  datatype InventoryItem = InventoryItem(
    id: Id, name: string, category: string, purchaseDate: Timestamp,
    purchasePrice: int, warrantyExpiry: Option<Timestamp>,
    returnDeadline: Option<Timestamp>, receiptImage: Option<string>,
    notes: string, location: string)

  datatype InventoryDraft = InventoryDraft(
    name: string, category: string, purchaseDate: Timestamp,
    purchasePrice: int, warrantyExpiry: Option<Timestamp>,
    returnDeadline: Option<Timestamp>, receiptImage: Option<string>,
    notes: string, location: string)

  datatype InventoryPatch = InventoryPatch(
    id: Option<Id>, name: Option<string>, category: Option<string>,
    purchaseDate: Option<Timestamp>, purchasePrice: Option<int>,
    warrantyExpiry: Option<Option<Timestamp>>,
    returnDeadline: Option<Option<Timestamp>>,
    receiptImage: Option<Option<string>>,
    notes: Option<string>, location: Option<string>)

  function NewInventoryItem(d: InventoryDraft, now: nat): (i: InventoryItem)
    ensures i.id == Decimal(now)
    ensures InventoryDraftOf(i) == d
  {
    InventoryItem(Decimal(now), d.name, d.category, d.purchaseDate, d.purchasePrice,
                  d.warrantyExpiry, d.returnDeadline, d.receiptImage, d.notes, d.location)
  }

  function InventoryDraftOf(i: InventoryItem): InventoryDraft {
    InventoryDraft(i.name, i.category, i.purchaseDate, i.purchasePrice,
                   i.warrantyExpiry, i.returnDeadline, i.receiptImage, i.notes, i.location)
  }

  function MergeInventoryItem(i: InventoryItem, p: InventoryPatch): InventoryItem {
    InventoryItem(p.id.GetOr(i.id), p.name.GetOr(i.name), p.category.GetOr(i.category),
                  p.purchaseDate.GetOr(i.purchaseDate), p.purchasePrice.GetOr(i.purchasePrice),
                  p.warrantyExpiry.GetOr(i.warrantyExpiry), p.returnDeadline.GetOr(i.returnDeadline),
                  p.receiptImage.GetOr(i.receiptImage), p.notes.GetOr(i.notes),
                  p.location.GetOr(i.location))
  }

  function InventoryFields(i: InventoryItem): InventoryPatch {
    InventoryPatch(Some(i.id), Some(i.name), Some(i.category), Some(i.purchaseDate),
                   Some(i.purchasePrice), Some(i.warrantyExpiry), Some(i.returnDeadline),
                   Some(i.receiptImage), Some(i.notes), Some(i.location))
  }

  const NoInventoryFields := InventoryPatch(None, None, None, None, None, None, None, None, None, None)

  lemma MergeInventoryLaws(i: InventoryItem, j: InventoryItem, p: InventoryPatch)
    ensures MergeInventoryItem(i, NoInventoryFields) == i
    ensures MergeInventoryItem(i, InventoryFields(j)) == j
    ensures p.id.None? ==> MergeInventoryItem(i, p).id == i.id
    ensures MergeInventoryItem(MergeInventoryItem(i, p), p) == MergeInventoryItem(i, p)
  {
  }

  // ---------------------------------------------------------------------------
  // Lending

  datatype LendingKind = Lent | Borrowed   // 'lent' | 'borrowed'

  datatype LendingItem = LendingItem(
    id: Id, itemName: string, personName: string, kind: LendingKind,
    lentDate: Timestamp, returnDate: Option<Timestamp>,
    expectedReturnDate: Timestamp, notes: string, returned: bool)

  datatype LendingDraft = LendingDraft(
    itemName: string, personName: string, kind: LendingKind,
    lentDate: Timestamp, returnDate: Option<Timestamp>,
    expectedReturnDate: Timestamp, notes: string, returned: bool)

  datatype LendingPatch = LendingPatch(
    id: Option<Id>, itemName: Option<string>, personName: Option<string>,
    kind: Option<LendingKind>, lentDate: Option<Timestamp>,
    returnDate: Option<Option<Timestamp>>, expectedReturnDate: Option<Timestamp>,
    notes: Option<string>, returned: Option<bool>)

  function NewLendingItem(d: LendingDraft, now: nat): (l: LendingItem)
    ensures l.id == Decimal(now)
    ensures LendingDraftOf(l) == d
  {
    LendingItem(Decimal(now), d.itemName, d.personName, d.kind, d.lentDate,
                d.returnDate, d.expectedReturnDate, d.notes, d.returned)
  }

  function LendingDraftOf(l: LendingItem): LendingDraft {
    LendingDraft(l.itemName, l.personName, l.kind, l.lentDate, l.returnDate,
                 l.expectedReturnDate, l.notes, l.returned)
  }

  function MergeLendingItem(l: LendingItem, p: LendingPatch): LendingItem {
    LendingItem(p.id.GetOr(l.id), p.itemName.GetOr(l.itemName),
                p.personName.GetOr(l.personName), p.kind.GetOr(l.kind),
                p.lentDate.GetOr(l.lentDate), p.returnDate.GetOr(l.returnDate),
                p.expectedReturnDate.GetOr(l.expectedReturnDate),
                p.notes.GetOr(l.notes), p.returned.GetOr(l.returned))
  }

  function LendingFields(l: LendingItem): LendingPatch {
    LendingPatch(Some(l.id), Some(l.itemName), Some(l.personName), Some(l.kind),
                 Some(l.lentDate), Some(l.returnDate), Some(l.expectedReturnDate),
                 Some(l.notes), Some(l.returned))
  }

  const NoLendingFields := LendingPatch(None, None, None, None, None, None, None, None, None)

  lemma MergeLendingLaws(l: LendingItem, m: LendingItem, p: LendingPatch)
    ensures MergeLendingItem(l, NoLendingFields) == l
    ensures MergeLendingItem(l, LendingFields(m)) == m
    ensures p.id.None? ==> MergeLendingItem(l, p).id == l.id
    ensures MergeLendingItem(MergeLendingItem(l, p), p) == MergeLendingItem(l, p)
  {
  }
}
