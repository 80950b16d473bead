/** The persisted form of the collections. `saveData` writes each collection
    as a JSON array of records, dates rendered as ISO-8601 text; `loadData`
    parses it back and runs every record through one fixed revival that turns
    the ten date-bearing keys back into dates. This module states both
    directions and how they compose. */
module Codec {
  import opened Common
  import opened Entities

  datatype Json =
    | JNull
    | JBool(b: bool)
    | JNum(n: int)
    | JStr(s: string)
    | JArr(items: seq<Json>)
    | JObj(fields: map<string, Json>)

  /** One element of a stored array. */
  type Record = map<string, Json>

  /** What a key of the store holds, as `loadData` sees it after `JSON.parse`:
      text that fails to parse or to map as an array, or the array of records. */
  datatype Stored = Unparseable | Records(records: seq<Record>)

  /** The runtime's date text conversions: `render` is what `JSON.stringify`
      writes for a date (`toISOString`), `parse` is `new Date(text)`, with
      `None` for an Invalid Date. */
  datatype DateCodec = DateCodec(render: Timestamp -> string, parse: string -> Option<Timestamp>)

  /** Rendered dates are non-empty and parse back to themselves. */
  ghost predicate Sound(c: DateCodec) {
    forall t :: c.render(t) != [] && c.parse(c.render(t)) == Some(t)
  }

  /** A value of a record in memory after loading. */
  datatype Live = Undefined | Raw(j: Json) | Date(t: Timestamp) | InvalidDate

  type LiveRecord = map<string, Live>

  /** The keys `loadData` revives, whatever the entity kind. */
  const DateKeys: set<string> := {
    "createdAt", "updatedAt", "date", "dueDate", "purchaseDate",
    "warrantyExpiry", "returnDeadline", "lentDate", "returnDate",
    "expectedReturnDate"
  }

  /** Which record keys are date keys, established once for the keys the
      five entity kinds use. */
  lemma DateKeyFacts()
    ensures "id" !in DateKeys && "title" !in DateKeys && "content" !in DateKeys
    ensures "category" !in DateKeys && "color" !in DateKeys && "type" !in DateKeys
    ensures "todos" !in DateKeys && "description" !in DateKeys && "time" !in DateKeys
    ensures "priority" !in DateKeys && "completed" !in DateKeys && "name" !in DateKeys
    ensures "purchasePrice" !in DateKeys && "receiptImage" !in DateKeys
    ensures "notes" !in DateKeys && "location" !in DateKeys && "itemName" !in DateKeys
    ensures "personName" !in DateKeys && "returned" !in DateKeys
    ensures "createdAt" in DateKeys && "updatedAt" in DateKeys && "date" in DateKeys
    ensures "dueDate" in DateKeys && "purchaseDate" in DateKeys && "warrantyExpiry" in DateKeys
    ensures "returnDeadline" in DateKeys && "lentDate" in DateKeys && "returnDate" in DateKeys
    ensures "expectedReturnDate" in DateKeys
  {
  }

  /** JavaScript truthiness of a parsed JSON value. */
  predicate Truthy(j: Json) {
    match j
    case JNull => false
    case JBool(b) => b
    case JNum(n) => n != 0
    case JStr(s) => s != []
    case _ => true
  }

  /** The largest distance from the epoch, in milliseconds, that a date
      can hold; a number further out makes an Invalid Date. */
  const MaxTime: int := 8_640_000_000_000_000

  /** `new Date(value)` on a parsed JSON value: text is parsed, a number is
      a time value when it is in range, and a boolean converts to the
      number 1 or 0. */
  function ToDate(c: DateCodec, j: Json): Live
  {
    match j
    case JStr(s) => (match c.parse(s) case Some(t) => Date(t) case None => InvalidDate)
    case JNum(n) => if -MaxTime <= n <= MaxTime then Date(n) else InvalidDate
    case JBool(b) => Date(if b then 1 else 0)
    case _ => InvalidDate
  }

  /** `item.k ? new Date(item.k) : undefined` */
  function ReviveField(c: DateCodec, r: Record, k: string): Live {
    if k in r && Truthy(r[k]) then ToDate(c, r[k]) else Undefined
  }

  /** The per-record map of `loadData`: every field of the record, then every
      date key overwritten by its revived value. */
  function Revive(c: DateCodec, r: Record): (l: LiveRecord)
    ensures l.Keys == r.Keys + DateKeys
    ensures forall k :: k in r && k !in DateKeys ==> l[k] == Raw(r[k])
    ensures forall k :: k in DateKeys && k !in r ==> l[k] == Undefined
    ensures forall k :: k in DateKeys && k in r && !Truthy(r[k]) ==> l[k] == Undefined
    ensures forall k :: k in DateKeys && k in r && Truthy(r[k]) ==> l[k] == ToDate(c, r[k])
  {
    map k | k in r.Keys + DateKeys :: if k in DateKeys then ReviveField(c, r, k) else Raw(r[k])
  }

  // ---------------------------------------------------------------------------
  // Reading typed fields out of a loaded record

  function TextAt(l: LiveRecord, k: string): Option<string> {
    if k in l then (match l[k] case Raw(JStr(s)) => Some(s) case _ => None) else None
  }

  function FlagAt(l: LiveRecord, k: string): Option<bool> {
    if k in l then (match l[k] case Raw(JBool(b)) => Some(b) case _ => None) else None
  }

  function NumberAt(l: LiveRecord, k: string): Option<int> {
    if k in l then (match l[k] case Raw(JNum(n)) => Some(n) case _ => None) else None
  }

  function DateAt(l: LiveRecord, k: string): Option<Timestamp> {
    if k in l then (match l[k] case Date(t) => Some(t) case _ => None) else None
  }

  /** An optional date: `Some(None)` when undefined, `None` when ill-typed. */
  function OptionalDateAt(l: LiveRecord, k: string): Option<Option<Timestamp>> {
    if k !in l then Some(None)
    else match l[k]
      case Undefined => Some(None)
      case Date(t) => Some(Some(t))
      case _ => None
  }

  function OptionalTextAt(l: LiveRecord, k: string): Option<Option<string>> {
    if k !in l then Some(None)
    else match l[k]
      case Undefined => Some(None)
      case Raw(JStr(s)) => Some(Some(s))
      case _ => None
  }

  function EncodeDate(c: DateCodec, t: Timestamp): Json {
    JStr(c.render(t))
  }

  /** A number under a date key loads as that date when it is in range and
      as an Invalid Date otherwise; `true` loads as the date 1 ms after the
      epoch. */
  lemma ReviveNumberOrFlag(c: DateCodec, r: Record, k: string)
    requires k in DateKeys && k in r
    ensures r[k].JNum? && r[k].n != 0 ==>
      (Revive(c, r)[k] == Date(r[k].n) <==> -MaxTime <= r[k].n <= MaxTime)
    ensures r[k].JNum? && r[k].n != 0 ==>
      (Revive(c, r)[k] == InvalidDate <==> r[k].n < -MaxTime || MaxTime < r[k].n)
    ensures r[k] == JNum(0) || r[k] == JBool(false) ==> Revive(c, r)[k] == Undefined
    ensures r[k] == JBool(true) ==> Revive(c, r)[k] == Date(1)
  {
  }

  /** A non-date field is read back as it was written. */
  lemma ReviveKeepsText(c: DateCodec, r: Record, k: string, s: string)
    requires k in r && r[k] == JStr(s) && k !in DateKeys
    ensures TextAt(Revive(c, r), k) == Some(s)
  {
  }

  lemma ReviveKeepsFlag(c: DateCodec, r: Record, k: string, b: bool)
    requires k in r && r[k] == JBool(b) && k !in DateKeys
    ensures FlagAt(Revive(c, r), k) == Some(b)
  {
  }

  /** A rendered date is read back as the same date. */
  lemma ReviveDate(c: DateCodec, r: Record, k: string, t: Timestamp)
    requires Sound(c)
    requires k in DateKeys && k in r && r[k] == EncodeDate(c, t)
    ensures DateAt(Revive(c, r), k) == Some(t)
  {
    assert c.render(t) != [] && c.parse(c.render(t)) == Some(t);
  }

  /** An optional date is read back as it was written, absent or present. */
  lemma ReviveOptionalDate(c: DateCodec, r: Record, k: string, t: Option<Timestamp>)
    requires Sound(c)
    requires k in DateKeys
    requires t.None? ==> k !in r
    requires t.Some? ==> k in r && r[k] == EncodeDate(c, t.value)
    ensures OptionalDateAt(Revive(c, r), k) == Some(t)
  {
    if t.Some? {
      ReviveDate(c, r, k, t.value);
    }
  }

  // ---------------------------------------------------------------------------
  // Notes and todos

  function NoteKindText(k: NoteKind): string {
    match k
    case PlainNote => "note"
    case TodoList => "todo"
  }

  function NoteKindOf(s: string): Option<NoteKind> {
    if s == "note" then Some(PlainNote) else if s == "todo" then Some(TodoList) else None
  }

  function StampText(c: DateCodec, s: TodoStamp): string {
    match s
    case AsDate(t) => c.render(t)
    case AsText(x) => x
  }

  function EncodeTodo(c: DateCodec, t: TodoItem): Json {
    JObj(map["id" := JStr(t.id), "text" := JStr(t.text),
             "completed" := JBool(t.completed),
             "createdAt" := JStr(StampText(c, t.createdAt))])
  }

  /** Nested todos are not revived: their `createdAt` stays text. */
  function DecodeTodo(j: Json): Option<TodoItem> {
    match j
    case JObj(m) =>
      if "id" in m && m["id"].JStr? && "text" in m && m["text"].JStr?
         && "completed" in m && m["completed"].JBool?
         && "createdAt" in m && m["createdAt"].JStr?
      then Some(TodoItem(m["id"].s, m["text"].s, m["completed"].b, AsText(m["createdAt"].s)))
      else None
    case _ => None
  }

  function EncodeTodos(c: DateCodec, ts: seq<TodoItem>): (js: seq<Json>)
    ensures |js| == |ts|
  {
    if ts == [] then [] else [EncodeTodo(c, ts[0])] + EncodeTodos(c, ts[1..])
  }

  function DecodeTodos(js: seq<Json>): Option<seq<TodoItem>> {
    if js == [] then Some([])
    else match (DecodeTodo(js[0]), DecodeTodos(js[1..]))
      case (Some(t), Some(ts)) => Some([t] + ts)
      case _ => None
  }

  /** What a todo looks like after one save and reload. */
  function SettleTodo(c: DateCodec, t: TodoItem): TodoItem {
    t.(createdAt := AsText(StampText(c, t.createdAt)))
  }

  function SettleTodos(c: DateCodec, ts: seq<TodoItem>): (r: seq<TodoItem>)
    ensures |r| == |ts|
  {
    if ts == [] then [] else [SettleTodo(c, ts[0])] + SettleTodos(c, ts[1..])
  }

  lemma {:induction false} TodosRoundTrip(c: DateCodec, ts: seq<TodoItem>)
    ensures DecodeTodos(EncodeTodos(c, ts)) == Some(SettleTodos(c, ts))
  {
    if ts != [] {
      TodosRoundTrip(c, ts[1..]);
      assert EncodeTodos(c, ts)[1..] == EncodeTodos(c, ts[1..]);
    }
  }

  function EncodeNote(c: DateCodec, n: Note): Record {
    var base := map["id" := JStr(n.id), "title" := JStr(n.title), "content" := JStr(n.content),
        "category" := JStr(n.category), "createdAt" := EncodeDate(c, n.createdAt),
        "updatedAt" := EncodeDate(c, n.updatedAt), "color" := JStr(n.color),
        "type" := JStr(NoteKindText(n.kind))];
    match n.todos
    case None => base
    case Some(ts) => base["todos" := JArr(EncodeTodos(c, ts))]
  }

  function TodosAt(l: LiveRecord): Option<Option<seq<TodoItem>>> {
    if "todos" !in l then Some(None)
    else match l["todos"]
      case Undefined => Some(None)
      case Raw(JArr(items)) =>
        (match DecodeTodos(items) case Some(ts) => Some(Some(ts)) case None => None)
      case _ => None
  }

  function DecodeNote(l: LiveRecord): Option<Note> {
    var id, title, content, category := TextAt(l, "id"), TextAt(l, "title"), TextAt(l, "content"), TextAt(l, "category");
    var createdAt, updatedAt, color, kind := DateAt(l, "createdAt"), DateAt(l, "updatedAt"), TextAt(l, "color"), TextAt(l, "type");
    var todos := TodosAt(l);
    if id.Some? && title.Some? && content.Some? && category.Some? && createdAt.Some?
       && updatedAt.Some? && color.Some? && kind.Some? && NoteKindOf(kind.value).Some? && todos.Some?
    then Some(Note(id.value, title.value, content.value, category.value, createdAt.value,
                   updatedAt.value, color.value, NoteKindOf(kind.value).value, todos.value))
    else None
  }

  /** What a note looks like after one save and reload: its todos' dates
      have become text, everything else is as it was. */
  function SettleNote(c: DateCodec, n: Note): Note {
    match n.todos
    case None => n
    case Some(ts) => n.(todos := Some(SettleTodos(c, ts)))
  }

  /** Saving and reloading a note gives it back, except that its todos keep
      their creation time as text; a second round changes nothing more. */
  lemma NoteRoundTrip(c: DateCodec, n: Note)
    requires Sound(c)
    ensures DecodeNote(Revive(c, EncodeNote(c, n))) == Some(SettleNote(c, n))
    ensures SettleNote(c, SettleNote(c, n)) == SettleNote(c, n)
  {
    RevivedNoteText(c, n);
    RevivedNoteDates(c, n);
    RevivedNoteTodos(c, n);
    DecodeNoteFields(Revive(c, EncodeNote(c, n)), SettleNote(c, n));
    if n.todos.Some? {
      SettleTodosIdempotent(c, n.todos.value);
    }
  }

  lemma EncodedNoteFields(c: DateCodec, n: Note)
    ensures var r := EncodeNote(c, n);
      && "id" in r && r["id"] == JStr(n.id)
      && "title" in r && r["title"] == JStr(n.title)
      && "content" in r && r["content"] == JStr(n.content)
      && "category" in r && r["category"] == JStr(n.category)
      && "createdAt" in r && r["createdAt"] == EncodeDate(c, n.createdAt)
      && "updatedAt" in r && r["updatedAt"] == EncodeDate(c, n.updatedAt)
      && "color" in r && r["color"] == JStr(n.color)
      && "type" in r && r["type"] == JStr(NoteKindText(n.kind))
      && (n.todos.None? ==> "todos" !in r)
      && (n.todos.Some? ==> "todos" in r && r["todos"] == JArr(EncodeTodos(c, n.todos.value)))
  {
    EncodedNoteText(c, n);
    EncodedNoteRest(c, n);
  }

  lemma EncodedNoteText(c: DateCodec, n: Note)
    ensures var r := EncodeNote(c, n);
      && "id" in r && r["id"] == JStr(n.id)
      && "title" in r && r["title"] == JStr(n.title)
      && "content" in r && r["content"] == JStr(n.content)
      && "category" in r && r["category"] == JStr(n.category)
  {
  }

  lemma EncodedNoteRest(c: DateCodec, n: Note)
    ensures var r := EncodeNote(c, n);
      && "createdAt" in r && r["createdAt"] == EncodeDate(c, n.createdAt)
      && "updatedAt" in r && r["updatedAt"] == EncodeDate(c, n.updatedAt)
      && "color" in r && r["color"] == JStr(n.color)
      && "type" in r && r["type"] == JStr(NoteKindText(n.kind))
      && (n.todos.None? ==> "todos" !in r)
      && (n.todos.Some? ==> "todos" in r && r["todos"] == JArr(EncodeTodos(c, n.todos.value)))
  {
  }

  lemma RevivedNoteText(c: DateCodec, n: Note)
    ensures var l := Revive(c, EncodeNote(c, n));
      && TextAt(l, "id") == Some(n.id) && TextAt(l, "title") == Some(n.title)
      && TextAt(l, "content") == Some(n.content) && TextAt(l, "category") == Some(n.category)
      && TextAt(l, "color") == Some(n.color) && TextAt(l, "type") == Some(NoteKindText(n.kind))
  {
    var r := EncodeNote(c, n);
    EncodedNoteFields(c, n);
    DateKeyFacts();
    ReviveKeepsText(c, r, "id", n.id);
    ReviveKeepsText(c, r, "title", n.title);
    ReviveKeepsText(c, r, "content", n.content);
    ReviveKeepsText(c, r, "category", n.category);
    ReviveKeepsText(c, r, "color", n.color);
    ReviveKeepsText(c, r, "type", NoteKindText(n.kind));
  }

  lemma RevivedNoteDates(c: DateCodec, n: Note)
    requires Sound(c)
    ensures var l := Revive(c, EncodeNote(c, n));
      && DateAt(l, "createdAt") == Some(n.createdAt) && DateAt(l, "updatedAt") == Some(n.updatedAt)
  {
    var r := EncodeNote(c, n);
    EncodedNoteFields(c, n);
    DateKeyFacts();
    ReviveDate(c, r, "createdAt", n.createdAt);
    ReviveDate(c, r, "updatedAt", n.updatedAt);
  }

  lemma RevivedNoteTodos(c: DateCodec, n: Note)
    ensures TodosAt(Revive(c, EncodeNote(c, n))) == Some(SettleNote(c, n).todos)
  {
    var r := EncodeNote(c, n);
    EncodedNoteRest(c, n);
    DateKeyFacts();
    match n.todos
    case None =>
      ReviveAbsent(c, r, "todos");
    case Some(ts) =>
      TodosRoundTrip(c, ts);
      ReviveKeepsRaw(c, r, "todos");
      TodosAtArray(Revive(c, r), EncodeTodos(c, ts));
  }

  /** A loaded todo list is read as what its items decode to. */
  lemma TodosAtArray(l: LiveRecord, js: seq<Json>)
    requires "todos" in l && l["todos"] == Raw(JArr(js))
    ensures DecodeTodos(js).Some? ==> TodosAt(l) == Some(DecodeTodos(js))
  {
  }

  /** A non-date key the record lacks is absent after loading. */
  lemma ReviveAbsent(c: DateCodec, r: Record, k: string)
    requires k !in r && k !in DateKeys
    ensures k !in Revive(c, r)
  {
  }

  /** A non-date key is loaded as the raw value it was written with. */
  lemma ReviveKeepsRaw(c: DateCodec, r: Record, k: string)
    requires k in r && k !in DateKeys
    ensures k in Revive(c, r) && Revive(c, r)[k] == Raw(r[k])
  {
  }

  lemma DecodeNoteFields(l: LiveRecord, n: Note)
    requires TextAt(l, "id") == Some(n.id) && TextAt(l, "title") == Some(n.title)
    requires TextAt(l, "content") == Some(n.content) && TextAt(l, "category") == Some(n.category)
    requires TextAt(l, "color") == Some(n.color) && TextAt(l, "type") == Some(NoteKindText(n.kind))
    requires DateAt(l, "createdAt") == Some(n.createdAt) && DateAt(l, "updatedAt") == Some(n.updatedAt)
    requires TodosAt(l) == Some(n.todos)
    ensures DecodeNote(l) == Some(n)
  {
    assert NoteKindOf(NoteKindText(n.kind)) == Some(n.kind);
  }

  lemma {:induction false} SettleTodosIdempotent(c: DateCodec, ts: seq<TodoItem>)
    ensures SettleTodos(c, SettleTodos(c, ts)) == SettleTodos(c, ts)
  {
    if ts != [] {
      SettleTodosIdempotent(c, ts[1..]);
    }
  }

  // ---------------------------------------------------------------------------
  // Calendar events

  function EncodeEvent(c: DateCodec, e: CalendarEvent): Record {
    map["id" := JStr(e.id), "title" := JStr(e.title), "description" := JStr(e.description),
        "date" := EncodeDate(c, e.date), "time" := JStr(e.time),
        "category" := JStr(e.category), "color" := JStr(e.color)]
  }

  function DecodeEvent(l: LiveRecord): Option<CalendarEvent> {
    var id, title, description, date := TextAt(l, "id"), TextAt(l, "title"), TextAt(l, "description"), DateAt(l, "date");
    var time, category, color := TextAt(l, "time"), TextAt(l, "category"), TextAt(l, "color");
    if id.Some? && title.Some? && description.Some? && date.Some? && time.Some?
       && category.Some? && color.Some?
    then Some(CalendarEvent(id.value, title.value, description.value, date.value,
                            time.value, category.value, color.value))
    else None
  }

  lemma EventRoundTrip(c: DateCodec, e: CalendarEvent)
    requires Sound(c)
    ensures DecodeEvent(Revive(c, EncodeEvent(c, e))) == Some(e)
  {
    var r := EncodeEvent(c, e);
    EncodedEventFields(c, e);
    DateKeyFacts();
    ReviveKeepsText(c, r, "id", e.id);
    ReviveKeepsText(c, r, "title", e.title);
    ReviveKeepsText(c, r, "description", e.description);
    ReviveDate(c, r, "date", e.date);
    ReviveKeepsText(c, r, "time", e.time);
    ReviveKeepsText(c, r, "category", e.category);
    ReviveKeepsText(c, r, "color", e.color);
  }

  lemma EncodedEventFields(c: DateCodec, e: CalendarEvent)
    ensures var r := EncodeEvent(c, e);
      && "id" in r && r["id"] == JStr(e.id)
      && "title" in r && r["title"] == JStr(e.title)
      && "description" in r && r["description"] == JStr(e.description)
      && "date" in r && r["date"] == EncodeDate(c, e.date)
      && "time" in r && r["time"] == JStr(e.time)
      && "category" in r && r["category"] == JStr(e.category)
      && "color" in r && r["color"] == JStr(e.color)
  {
  }

  // ---------------------------------------------------------------------------
  // Reminders

  function PriorityText(p: Priority): string {
    match p
    case Low => "low"
    case Medium => "medium"
    case High => "high"
  }

  function PriorityOf(s: string): Option<Priority> {
    if s == "low" then Some(Low)
    else if s == "medium" then Some(Medium)
    else if s == "high" then Some(High)
    else None
  }

  function EncodeReminder(c: DateCodec, r: Reminder): Record {
    map["id" := JStr(r.id), "title" := JStr(r.title), "description" := JStr(r.description),
        "dueDate" := EncodeDate(c, r.dueDate), "priority" := JStr(PriorityText(r.priority)),
        "completed" := JBool(r.completed), "createdAt" := EncodeDate(c, r.createdAt)]
  }

  function DecodeReminder(l: LiveRecord): Option<Reminder> {
    var id, title, description, dueDate := TextAt(l, "id"), TextAt(l, "title"), TextAt(l, "description"), DateAt(l, "dueDate");
    var priority, completed, createdAt := TextAt(l, "priority"), FlagAt(l, "completed"), DateAt(l, "createdAt");
    if id.Some? && title.Some? && description.Some? && dueDate.Some? && priority.Some?
       && PriorityOf(priority.value).Some? && completed.Some? && createdAt.Some?
    then Some(Reminder(id.value, title.value, description.value, dueDate.value,
                       PriorityOf(priority.value).value, completed.value, createdAt.value))
    else None
  }

  lemma ReminderRoundTrip(c: DateCodec, r: Reminder)
    requires Sound(c)
    ensures DecodeReminder(Revive(c, EncodeReminder(c, r))) == Some(r)
  {
    RevivedReminderText(c, r);
    RevivedReminderDates(c, r);
    DecodeReminderFields(Revive(c, EncodeReminder(c, r)), r);
  }

  lemma RevivedReminderText(c: DateCodec, r: Reminder)
    ensures var l := Revive(c, EncodeReminder(c, r));
      && TextAt(l, "id") == Some(r.id) && TextAt(l, "title") == Some(r.title)
      && TextAt(l, "description") == Some(r.description)
      && TextAt(l, "priority") == Some(PriorityText(r.priority))
      && FlagAt(l, "completed") == Some(r.completed)
  {
    var m := EncodeReminder(c, r);
    EncodedReminderFields(c, r);
    DateKeyFacts();
    ReviveKeepsText(c, m, "id", r.id);
    ReviveKeepsText(c, m, "title", r.title);
    ReviveKeepsText(c, m, "description", r.description);
    ReviveKeepsText(c, m, "priority", PriorityText(r.priority));
    ReviveKeepsFlag(c, m, "completed", r.completed);
  }

  lemma RevivedReminderDates(c: DateCodec, r: Reminder)
    requires Sound(c)
    ensures var l := Revive(c, EncodeReminder(c, r));
      && DateAt(l, "dueDate") == Some(r.dueDate) && DateAt(l, "createdAt") == Some(r.createdAt)
  {
    var m := EncodeReminder(c, r);
    EncodedReminderFields(c, r);
    DateKeyFacts();
    ReviveDate(c, m, "dueDate", r.dueDate);
    ReviveDate(c, m, "createdAt", r.createdAt);
  }

  lemma DecodeReminderFields(l: LiveRecord, r: Reminder)
    requires TextAt(l, "id") == Some(r.id) && TextAt(l, "title") == Some(r.title)
    requires TextAt(l, "description") == Some(r.description)
    requires TextAt(l, "priority") == Some(PriorityText(r.priority))
    requires FlagAt(l, "completed") == Some(r.completed)
    requires DateAt(l, "dueDate") == Some(r.dueDate) && DateAt(l, "createdAt") == Some(r.createdAt)
    ensures DecodeReminder(l) == Some(r)
  {
    assert PriorityOf(PriorityText(r.priority)) == Some(r.priority);
  }

  lemma EncodedReminderFields(c: DateCodec, r: Reminder)
    ensures var m := EncodeReminder(c, r);
      && "id" in m && m["id"] == JStr(r.id)
      && "title" in m && m["title"] == JStr(r.title)
      && "description" in m && m["description"] == JStr(r.description)
      && "dueDate" in m && m["dueDate"] == EncodeDate(c, r.dueDate)
      && "priority" in m && m["priority"] == JStr(PriorityText(r.priority))
      && "completed" in m && m["completed"] == JBool(r.completed)
      && "createdAt" in m && m["createdAt"] == EncodeDate(c, r.createdAt)
  {
  }

  // ---------------------------------------------------------------------------
  // Inventory

  function EncodeInventoryItem(c: DateCodec, i: InventoryItem): Record {
    var base := map["id" := JStr(i.id), "name" := JStr(i.name), "category" := JStr(i.category),
        "purchaseDate" := EncodeDate(c, i.purchaseDate), "purchasePrice" := JNum(i.purchasePrice),
        "notes" := JStr(i.notes), "location" := JStr(i.location)];
    var withWarranty := match i.warrantyExpiry
      case None => base
      case Some(t) => base["warrantyExpiry" := EncodeDate(c, t)];
    var withDeadline := match i.returnDeadline
      case None => withWarranty
      case Some(t) => withWarranty["returnDeadline" := EncodeDate(c, t)];
    match i.receiptImage
    case None => withDeadline
    case Some(s) => withDeadline["receiptImage" := JStr(s)]
  }

  function DecodeInventoryItem(l: LiveRecord): Option<InventoryItem> {
    var id, name, category, purchaseDate := TextAt(l, "id"), TextAt(l, "name"), TextAt(l, "category"), DateAt(l, "purchaseDate");
    var price, warranty, deadline := NumberAt(l, "purchasePrice"), OptionalDateAt(l, "warrantyExpiry"), OptionalDateAt(l, "returnDeadline");
    var receipt, notes, location := OptionalTextAt(l, "receiptImage"), TextAt(l, "notes"), TextAt(l, "location");
    if id.Some? && name.Some? && category.Some? && purchaseDate.Some? && price.Some?
       && warranty.Some? && deadline.Some? && receipt.Some? && notes.Some? && location.Some?
    then Some(InventoryItem(id.value, name.value, category.value, purchaseDate.value,
                            price.value, warranty.value, deadline.value, receipt.value,
                            notes.value, location.value))
    else None
  }

  /** Absent optional dates stay absent across a save and reload. */
  lemma InventoryRoundTrip(c: DateCodec, i: InventoryItem)
    requires Sound(c)
    ensures DecodeInventoryItem(Revive(c, EncodeInventoryItem(c, i))) == Some(i)
  {
    RevivedInventoryText(c, i);
    RevivedInventoryDates(c, i);
    DecodeInventoryFields(Revive(c, EncodeInventoryItem(c, i)), i);
  }

  lemma EncodedInventoryFields(c: DateCodec, i: InventoryItem)
    ensures var r := EncodeInventoryItem(c, i);
      && "id" in r && r["id"] == JStr(i.id)
      && "name" in r && r["name"] == JStr(i.name)
      && "category" in r && r["category"] == JStr(i.category)
      && "purchaseDate" in r && r["purchaseDate"] == EncodeDate(c, i.purchaseDate)
      && "purchasePrice" in r && r["purchasePrice"] == JNum(i.purchasePrice)
      && "notes" in r && r["notes"] == JStr(i.notes)
      && "location" in r && r["location"] == JStr(i.location)
      && (i.warrantyExpiry.None? ==> "warrantyExpiry" !in r)
      && (i.warrantyExpiry.Some? ==> "warrantyExpiry" in r && r["warrantyExpiry"] == EncodeDate(c, i.warrantyExpiry.value))
      && (i.returnDeadline.None? ==> "returnDeadline" !in r)
      && (i.returnDeadline.Some? ==> "returnDeadline" in r && r["returnDeadline"] == EncodeDate(c, i.returnDeadline.value))
      && (i.receiptImage.None? ==> "receiptImage" !in r)
      && (i.receiptImage.Some? ==> "receiptImage" in r && r["receiptImage"] == JStr(i.receiptImage.value))
  {
    EncodedInventoryRequired(c, i);
    EncodedInventoryOptional(c, i);
  }

  lemma EncodedInventoryRequired(c: DateCodec, i: InventoryItem)
    ensures var r := EncodeInventoryItem(c, i);
      && "id" in r && r["id"] == JStr(i.id)
      && "name" in r && r["name"] == JStr(i.name)
      && "category" in r && r["category"] == JStr(i.category)
      && "purchaseDate" in r && r["purchaseDate"] == EncodeDate(c, i.purchaseDate)
      && "purchasePrice" in r && r["purchasePrice"] == JNum(i.purchasePrice)
      && "notes" in r && r["notes"] == JStr(i.notes)
      && "location" in r && r["location"] == JStr(i.location)
  {
    EncodedInventoryNames(c, i);
    EncodedInventoryDetails(c, i);
  }

  lemma EncodedInventoryNames(c: DateCodec, i: InventoryItem)
    ensures var r := EncodeInventoryItem(c, i);
      && "id" in r && r["id"] == JStr(i.id)
      && "name" in r && r["name"] == JStr(i.name)
      && "category" in r && r["category"] == JStr(i.category)
  {
  }

  lemma EncodedInventoryDetails(c: DateCodec, i: InventoryItem)
    ensures var r := EncodeInventoryItem(c, i);
      && "purchaseDate" in r && r["purchaseDate"] == EncodeDate(c, i.purchaseDate)
      && "purchasePrice" in r && r["purchasePrice"] == JNum(i.purchasePrice)
      && "notes" in r && r["notes"] == JStr(i.notes)
      && "location" in r && r["location"] == JStr(i.location)
  {
  }

  lemma EncodedInventoryOptional(c: DateCodec, i: InventoryItem)
    ensures var r := EncodeInventoryItem(c, i);
      && (i.warrantyExpiry.None? ==> "warrantyExpiry" !in r)
      && (i.warrantyExpiry.Some? ==> "warrantyExpiry" in r && r["warrantyExpiry"] == EncodeDate(c, i.warrantyExpiry.value))
      && (i.returnDeadline.None? ==> "returnDeadline" !in r)
      && (i.returnDeadline.Some? ==> "returnDeadline" in r && r["returnDeadline"] == EncodeDate(c, i.returnDeadline.value))
      && (i.receiptImage.None? ==> "receiptImage" !in r)
      && (i.receiptImage.Some? ==> "receiptImage" in r && r["receiptImage"] == JStr(i.receiptImage.value))
  {
  }

  lemma RevivedInventoryText(c: DateCodec, i: InventoryItem)
    ensures var l := Revive(c, EncodeInventoryItem(c, i));
      && TextAt(l, "id") == Some(i.id) && TextAt(l, "name") == Some(i.name)
      && TextAt(l, "category") == Some(i.category) && NumberAt(l, "purchasePrice") == Some(i.purchasePrice)
      && OptionalTextAt(l, "receiptImage") == Some(i.receiptImage)
      && TextAt(l, "notes") == Some(i.notes) && TextAt(l, "location") == Some(i.location)
  {
    var r := EncodeInventoryItem(c, i);
    EncodedInventoryFields(c, i);
    DateKeyFacts();
    ReviveKeepsText(c, r, "id", i.id);
    ReviveKeepsText(c, r, "name", i.name);
    ReviveKeepsText(c, r, "category", i.category);
    ReviveKeepsText(c, r, "notes", i.notes);
    ReviveKeepsText(c, r, "location", i.location);
    assert Revive(c, r)["purchasePrice"] == Raw(JNum(i.purchasePrice));
    if i.receiptImage.Some? {
      ReviveKeepsText(c, r, "receiptImage", i.receiptImage.value);
    }
  }

  lemma RevivedInventoryDates(c: DateCodec, i: InventoryItem)
    requires Sound(c)
    ensures var l := Revive(c, EncodeInventoryItem(c, i));
      && DateAt(l, "purchaseDate") == Some(i.purchaseDate)
      && OptionalDateAt(l, "warrantyExpiry") == Some(i.warrantyExpiry)
      && OptionalDateAt(l, "returnDeadline") == Some(i.returnDeadline)
  {
    var r := EncodeInventoryItem(c, i);
    EncodedInventoryFields(c, i);
    DateKeyFacts();
    ReviveDate(c, r, "purchaseDate", i.purchaseDate);
    ReviveOptionalDate(c, r, "warrantyExpiry", i.warrantyExpiry);
    ReviveOptionalDate(c, r, "returnDeadline", i.returnDeadline);
  }

  lemma DecodeInventoryFields(l: LiveRecord, i: InventoryItem)
    requires TextAt(l, "id") == Some(i.id) && TextAt(l, "name") == Some(i.name)
    requires TextAt(l, "category") == Some(i.category) && NumberAt(l, "purchasePrice") == Some(i.purchasePrice)
    requires OptionalTextAt(l, "receiptImage") == Some(i.receiptImage)
    requires TextAt(l, "notes") == Some(i.notes) && TextAt(l, "location") == Some(i.location)
    requires DateAt(l, "purchaseDate") == Some(i.purchaseDate)
    requires OptionalDateAt(l, "warrantyExpiry") == Some(i.warrantyExpiry)
    requires OptionalDateAt(l, "returnDeadline") == Some(i.returnDeadline)
    ensures DecodeInventoryItem(l) == Some(i)
  {
  }

  // ---------------------------------------------------------------------------
  // Lending

  function LendingKindText(k: LendingKind): string {
    match k
    case Lent => "lent"
    case Borrowed => "borrowed"
  }

  function LendingKindOf(s: string): Option<LendingKind> {
    if s == "lent" then Some(Lent) else if s == "borrowed" then Some(Borrowed) else None
  }

  function EncodeLendingItem(c: DateCodec, x: LendingItem): Record {
    var base := map["id" := JStr(x.id), "itemName" := JStr(x.itemName), "personName" := JStr(x.personName),
        "type" := JStr(LendingKindText(x.kind)), "lentDate" := EncodeDate(c, x.lentDate),
        "expectedReturnDate" := EncodeDate(c, x.expectedReturnDate),
        "notes" := JStr(x.notes), "returned" := JBool(x.returned)];
    match x.returnDate
    case None => base
    case Some(t) => base["returnDate" := EncodeDate(c, t)]
  }

  function DecodeLendingItem(l: LiveRecord): Option<LendingItem> {
    var id, itemName, personName, kind := TextAt(l, "id"), TextAt(l, "itemName"), TextAt(l, "personName"), TextAt(l, "type");
    var lentDate, returnDate, expected := DateAt(l, "lentDate"), OptionalDateAt(l, "returnDate"), DateAt(l, "expectedReturnDate");
    var notes, returned := TextAt(l, "notes"), FlagAt(l, "returned");
    if id.Some? && itemName.Some? && personName.Some? && kind.Some? && LendingKindOf(kind.value).Some?
       && lentDate.Some? && returnDate.Some? && expected.Some? && notes.Some? && returned.Some?
    then Some(LendingItem(id.value, itemName.value, personName.value, LendingKindOf(kind.value).value,
                          lentDate.value, returnDate.value, expected.value, notes.value, returned.value))
    else None
  }

  lemma LendingRoundTrip(c: DateCodec, x: LendingItem)
    requires Sound(c)
    ensures DecodeLendingItem(Revive(c, EncodeLendingItem(c, x))) == Some(x)
  {
    RevivedLendingText(c, x);
    RevivedLendingDates(c, x);
    DecodeLendingFields(Revive(c, EncodeLendingItem(c, x)), x);
  }

  lemma RevivedLendingText(c: DateCodec, x: LendingItem)
    ensures var l := Revive(c, EncodeLendingItem(c, x));
      && TextAt(l, "id") == Some(x.id) && TextAt(l, "itemName") == Some(x.itemName)
      && TextAt(l, "personName") == Some(x.personName)
      && TextAt(l, "type") == Some(LendingKindText(x.kind))
      && TextAt(l, "notes") == Some(x.notes) && FlagAt(l, "returned") == Some(x.returned)
  {
    var r := EncodeLendingItem(c, x);
    EncodedLendingFields(c, x);
    DateKeyFacts();
    ReviveKeepsText(c, r, "id", x.id);
    ReviveKeepsText(c, r, "itemName", x.itemName);
    ReviveKeepsText(c, r, "personName", x.personName);
    ReviveKeepsText(c, r, "type", LendingKindText(x.kind));
    ReviveKeepsText(c, r, "notes", x.notes);
    ReviveKeepsFlag(c, r, "returned", x.returned);
  }

  lemma RevivedLendingDates(c: DateCodec, x: LendingItem)
    requires Sound(c)
    ensures var l := Revive(c, EncodeLendingItem(c, x));
      && DateAt(l, "lentDate") == Some(x.lentDate)
      && OptionalDateAt(l, "returnDate") == Some(x.returnDate)
      && DateAt(l, "expectedReturnDate") == Some(x.expectedReturnDate)
  {
    var r := EncodeLendingItem(c, x);
    EncodedLendingFields(c, x);
    DateKeyFacts();
    ReviveDate(c, r, "lentDate", x.lentDate);
    ReviveOptionalDate(c, r, "returnDate", x.returnDate);
    ReviveDate(c, r, "expectedReturnDate", x.expectedReturnDate);
  }

  lemma EncodedLendingFields(c: DateCodec, x: LendingItem)
    ensures var r := EncodeLendingItem(c, x);
      && "id" in r && r["id"] == JStr(x.id)
      && "itemName" in r && r["itemName"] == JStr(x.itemName)
      && "personName" in r && r["personName"] == JStr(x.personName)
      && "type" in r && r["type"] == JStr(LendingKindText(x.kind))
      && "lentDate" in r && r["lentDate"] == EncodeDate(c, x.lentDate)
      && "expectedReturnDate" in r && r["expectedReturnDate"] == EncodeDate(c, x.expectedReturnDate)
      && "notes" in r && r["notes"] == JStr(x.notes)
      && "returned" in r && r["returned"] == JBool(x.returned)
      && (x.returnDate.None? ==> "returnDate" !in r)
      && (x.returnDate.Some? ==> "returnDate" in r && r["returnDate"] == EncodeDate(c, x.returnDate.value))
  {
  }

  lemma DecodeLendingFields(l: LiveRecord, x: LendingItem)
    requires TextAt(l, "id") == Some(x.id) && TextAt(l, "itemName") == Some(x.itemName)
    requires TextAt(l, "personName") == Some(x.personName)
    requires TextAt(l, "type") == Some(LendingKindText(x.kind))
    requires DateAt(l, "lentDate") == Some(x.lentDate)
    requires OptionalDateAt(l, "returnDate") == Some(x.returnDate)
    requires DateAt(l, "expectedReturnDate") == Some(x.expectedReturnDate)
    requires TextAt(l, "notes") == Some(x.notes) && FlagAt(l, "returned") == Some(x.returned)
    ensures DecodeLendingItem(l) == Some(x)
  {
    assert LendingKindOf(LendingKindText(x.kind)) == Some(x.kind);
  }

  // ---------------------------------------------------------------------------
  // Whole collections

  /** The `parsed.map(...)` of `loadData` followed by reading each record as
      an entity; `None` when some record does not have the entity's shape. */
  function DecodeAll<T>(c: DateCodec, rs: seq<Record>, decode: LiveRecord -> Option<T>): (r: Option<seq<T>>)
    ensures r.Some? <==> forall i :: 0 <= i < |rs| ==> decode(Revive(c, rs[i])).Some?
    ensures r.Some? ==> |r.value| == |rs|
    ensures r.Some? ==> forall i :: 0 <= i < |rs| ==> Some(r.value[i]) == decode(Revive(c, rs[i]))
  {
    if rs == [] then Some([])
    else match (decode(Revive(c, rs[0])), DecodeAll(c, rs[1..], decode))
      case (Some(x), Some(xs)) => Some([x] + xs)
      case _ => None
  }

  /** A collection written by `saveData` and read back by `loadData` is the
      collection each of whose entities went through its own round trip. */
  lemma {:induction false} CollectionRoundTrip<T>(c: DateCodec, xs: seq<T>, encode: T -> Record,
                                                 decode: LiveRecord -> Option<T>, settle: T -> T)
    requires forall i :: 0 <= i < |xs| ==> decode(Revive(c, encode(xs[i]))) == Some(settle(xs[i]))
    ensures DecodeAll(c, Map(xs, encode), decode) == Some(Map(xs, settle))
  {
    if xs != [] {
      CollectionRoundTrip(c, xs[1..], encode, decode, settle);
      assert Map(xs, encode)[1..] == Map(xs[1..], encode);
      assert Map(xs, settle) == [settle(xs[0])] + Map(xs[1..], settle);
    }
  }

  // ---------------------------------------------------------------------------
  // Each kind's collection as `saveData` writes it and `loadData` reads it.

  function NoteEncoder(c: DateCodec): Note -> Record { n => EncodeNote(c, n) }
  function EventEncoder(c: DateCodec): CalendarEvent -> Record { e => EncodeEvent(c, e) }
  function ReminderEncoder(c: DateCodec): Reminder -> Record { r => EncodeReminder(c, r) }
  function InventoryEncoder(c: DateCodec): InventoryItem -> Record { i => EncodeInventoryItem(c, i) }
  function LendingEncoder(c: DateCodec): LendingItem -> Record { l => EncodeLendingItem(c, l) }

  /** The notes as they read back: each with its todos' times as text. */
  function NoteSettler(c: DateCodec): Note -> Note { n => SettleNote(c, n) }

  lemma NotesRoundTrip(c: DateCodec, ns: seq<Note>)
    requires Sound(c)
    ensures DecodeAll(c, Map(ns, NoteEncoder(c)), DecodeNote) == Some(Map(ns, NoteSettler(c)))
  {
    forall i | 0 <= i < |ns|
      ensures DecodeNote(Revive(c, NoteEncoder(c)(ns[i]))) == Some(NoteSettler(c)(ns[i]))
    {
      NoteRoundTrip(c, ns[i]);
    }
    CollectionRoundTrip(c, ns, NoteEncoder(c), DecodeNote, NoteSettler(c));
  }

  lemma EventsRoundTrip(c: DateCodec, es: seq<CalendarEvent>)
    requires Sound(c)
    ensures DecodeAll(c, Map(es, EventEncoder(c)), DecodeEvent) == Some(es)
  {
    forall i | 0 <= i < |es|
      ensures DecodeEvent(Revive(c, EventEncoder(c)(es[i]))) == Some(es[i])
    {
      EventRoundTrip(c, es[i]);
    }
    CollectionRoundTrip(c, es, EventEncoder(c), DecodeEvent, e => e);
    MapIdentity(es, (e: CalendarEvent) => e);
  }

  lemma RemindersRoundTrip(c: DateCodec, rs: seq<Reminder>)
    requires Sound(c)
    ensures DecodeAll(c, Map(rs, ReminderEncoder(c)), DecodeReminder) == Some(rs)
  {
    forall i | 0 <= i < |rs|
      ensures DecodeReminder(Revive(c, ReminderEncoder(c)(rs[i]))) == Some(rs[i])
    {
      ReminderRoundTrip(c, rs[i]);
    }
    CollectionRoundTrip(c, rs, ReminderEncoder(c), DecodeReminder, r => r);
    MapIdentity(rs, (r: Reminder) => r);
  }

  lemma InventoryCollectionRoundTrip(c: DateCodec, items: seq<InventoryItem>)
    requires Sound(c)
    ensures DecodeAll(c, Map(items, InventoryEncoder(c)), DecodeInventoryItem) == Some(items)
  {
    forall i | 0 <= i < |items|
      ensures DecodeInventoryItem(Revive(c, InventoryEncoder(c)(items[i]))) == Some(items[i])
    {
      InventoryRoundTrip(c, items[i]);
    }
    CollectionRoundTrip(c, items, InventoryEncoder(c), DecodeInventoryItem, i => i);
    MapIdentity(items, (i: InventoryItem) => i);
  }

  lemma LendingCollectionRoundTrip(c: DateCodec, ls: seq<LendingItem>)
    requires Sound(c)
    ensures DecodeAll(c, Map(ls, LendingEncoder(c)), DecodeLendingItem) == Some(ls)
  {
    forall i | 0 <= i < |ls|
      ensures DecodeLendingItem(Revive(c, LendingEncoder(c)(ls[i]))) == Some(ls[i])
    {
      LendingRoundTrip(c, ls[i]);
    }
    CollectionRoundTrip(c, ls, LendingEncoder(c), DecodeLendingItem, l => l);
    MapIdentity(ls, (l: LendingItem) => l);
  }
}
