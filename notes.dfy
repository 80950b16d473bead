/** The notes view: the search and category filter, adding a note, the todo
    lists inside notes, the per-note display size, links appended to a
    note's content, and the drag-and-drop reorder. */
module NotesView {
  import opened Common
  import opened Entities
  import opened Repository
  import opened Reorder
  import opened Codec
  import opened DataContext
  import opened NoteLinks

  // ---------------------------------------------------------------------------
  // The list

  /** A note is shown when its title or its content contains the search
      term, ignoring case, and its category is the selected one, if any. */
  predicate Shown(note: Note, search: string, selected: string) {
    (MatchesSearch(note.title, search) || MatchesSearch(note.content, search))
    && CategoryMatches(selected, note.category)
  }

  function ShownTest(search: string, selected: string): Note -> bool {
    note => Shown(note, search, selected)
  }

  /** `filteredNotes`: the notes shown, in collection order. */
  function FilteredNotes(xs: seq<Note>, search: string, selected: string): (r: seq<Note>)
    ensures |r| <= |xs|
    ensures forall x :: x in r <==> x in xs && Shown(x, search, selected)
  {
    Filter(xs, ShownTest(search, selected))
  }

  /** With no search term and no category every note is shown, in order;
      the case of the search term does not matter. */
  lemma FilteredNotesLaws(xs: seq<Note>, search: string, selected: string)
    ensures FilteredNotes(xs, "", "") == xs
    ensures FilteredNotes(xs, Lower(search), selected) == FilteredNotes(xs, search, selected)
  {
    forall i | 0 <= i < |xs|
      ensures Shown(xs[i], "", "")
    {
      MatchesSearchLaws(xs[i].title, "");
    }
    FilterAll(xs, ShownTest("", ""));
    FilterSameTest(xs, search, selected);
  }

  /** Lower-casing the search term keeps the test of every note. */
  lemma {:induction false} FilterSameTest(xs: seq<Note>, search: string, selected: string)
    ensures Filter(xs, ShownTest(Lower(search), selected)) == Filter(xs, ShownTest(search, selected))
  {
    if xs != [] {
      MatchesSearchLaws(xs[0].title, search);
      MatchesSearchLaws(xs[0].content, search);
      FilterSameTest(xs[1..], search, selected);
    }
  }

  // ---------------------------------------------------------------------------
  // Adding

  /** `handleAddNote`: adds the form as a note only when the title is non-blank. */
  method HandleAddNote(p: DataProvider, d: NoteDraft, now: nat)
    modifies p
    ensures IsBlank(d.title) ==> p.notes == old(p.notes) && p.store == old(p.store)
    ensures !IsBlank(d.title) ==> p.notes == old(p.notes) + [NewNote(d, now)]
    ensures !IsBlank(d.title) ==> p.store == old(p.store)[NotesKey := Records(Map(p.notes, NoteEncoder(p.codec)))]
    ensures p.events == old(p.events) && p.reminders == old(p.reminders) && p.inventory == old(p.inventory) && p.lending == old(p.lending)
  {
    if !IsBlank(d.title) {
      p.AddNote(d, now);
    }
  }

  // ---------------------------------------------------------------------------
  // Todo lists

  function TodoId(t: TodoItem): Id { t.id }

  /** The todo `addTodoToNote` creates: a clock-derived id, not completed,
      created now. */
  function NewTodo(text: string, now: nat): TodoItem {
    TodoItem(Decimal(now), text, false, AsDate(now))
  }

  /** `[...(note.todos || []), newTodo]`: the old list, or an empty one when
      the note has none, followed by the new todo. */
  function AppendedTodos(todos: Option<seq<TodoItem>>, t: TodoItem): (r: seq<TodoItem>)
    ensures |r| == |todos.GetOr([])| + 1
    ensures r[..|r| - 1] == todos.GetOr([]) && r[|r| - 1] == t
  {
    todos.GetOr([]) + [t]
  }

  function Flip(): TodoItem -> TodoItem {
    (t: TodoItem) => t.(completed := !t.completed)
  }

  /** `toggleTodo`'s new list: the todos carrying the id change their
      completion and nothing else; the others stay as they are. */
  function ToggledTodos(todos: seq<TodoItem>, todoId: Id): (r: seq<TodoItem>)
    ensures |r| == |todos|
    ensures forall i :: 0 <= i < |todos| ==> r[i].(completed := todos[i].completed) == todos[i]
    ensures forall i :: 0 <= i < |todos| ==> (r[i].completed <==> (todos[i].completed != (todos[i].id == todoId)))
  {
    UpdateWhere(todos, todoId, TodoId, Flip())
  }

  /** Toggling the same todo twice restores the list. */
  lemma ToggleTwice(todos: seq<TodoItem>, todoId: Id)
    ensures ToggledTodos(ToggledTodos(todos, todoId), todoId) == todos
  {
    var once := ToggledTodos(todos, todoId);
    var twice := ToggledTodos(once, todoId);
    forall i | 0 <= i < |todos|
      ensures twice[i] == todos[i]
    {
      assert once[i].id == todos[i].id;
    }
  }

  /** `deleteTodo`'s new list: the todos without the id, in order. */
  function RemovedTodos(todos: seq<TodoItem>, todoId: Id): (r: seq<TodoItem>)
    ensures |r| <= |todos|
    ensures forall t :: t in r <==> t in todos && t.id != todoId
  {
    DeleteExact(todos, todoId, TodoId);
    DeleteWhere(todos, todoId, TodoId)
  }

  /** Removing a todo just appended under an id no other todo carries
      gives back the list it was appended to. */
  lemma RemoveAppended(todos: Option<seq<TodoItem>>, t: TodoItem)
    requires forall i :: 0 <= i < |todos.GetOr([])| ==> todos.GetOr([])[i].id != t.id
    ensures RemovedTodos(AppendedTodos(todos, t), t.id) == todos.GetOr([])
  {
    var xs := todos.GetOr([]);
    DeleteKeepsOrder(xs, [t], t.id, TodoId);
    DeleteAbsentIdempotent(xs, t.id, TodoId);
    assert DeleteWhere([t], t.id, TodoId) == [];
  }

  /** `addTodoToNote`: nothing happens when no note carries the id;
      otherwise the first such note's todo list, with the new todo appended,
      is written into every note carrying the id, which are stamped `now`. */
  method AddTodoToNote(p: DataProvider, noteId: Id, text: string, now: nat)
    modifies p
    ensures !HasId(old(p.notes), noteId, NoteId) ==> p.notes == old(p.notes) && p.store == old(p.store)
    ensures HasId(old(p.notes), noteId, NoteId) ==>
      var first := old(p.notes)[FindIndex(old(p.notes), noteId, NoteId)];
      && |p.notes| == |old(p.notes)|
      && (forall j :: 0 <= j < |p.notes| ==>
           p.notes[j] == (if old(p.notes)[j].id == noteId
                          then old(p.notes)[j].(todos := Some(AppendedTodos(first.todos, NewTodo(text, now))), updatedAt := now)
                          else old(p.notes)[j]))
      && p.store == old(p.store)[NotesKey := Records(Map(p.notes, NoteEncoder(p.codec)))]
    ensures p.events == old(p.events) && p.reminders == old(p.reminders) && p.inventory == old(p.inventory) && p.lending == old(p.lending)
  {
    var i := FindIndex(p.notes, noteId, NoteId);
    if i < 0 {
      return;
    }
    var note := p.notes[i];
    ghost var before := p.notes;
    var todos := AppendedTodos(note.todos, NewTodo(text, now));
    p.UpdateNote(noteId, TodosPatch(todos), now);
    TodosUpdated(before, p.notes, noteId, todos, now);
  }

  /** Patching the todos of the notes carrying an id replaces their todo
      list and stamps them, and leaves the other notes alone. */
  lemma TodosUpdated(before: seq<Note>, after: seq<Note>, noteId: Id, todos: seq<TodoItem>, now: nat)
    requires after == UpdateWhere(before, noteId, NoteId, NoteMerger(TodosPatch(todos), now))
    ensures |after| == |before|
    ensures forall j :: 0 <= j < |after| ==>
      after[j] == (if before[j].id == noteId then before[j].(todos := Some(todos), updatedAt := now) else before[j])
  {
    forall j | 0 <= j < |after|
      ensures after[j] == (if before[j].id == noteId then before[j].(todos := Some(todos), updatedAt := now) else before[j])
    {
      assert NoteId(before[j]) == before[j].id;
    }
  }

  /** The todo input: Enter or the add button adds the trimmed input as a
      todo, and nothing happens when the input is blank. */
  method SubmitTodo(p: DataProvider, noteId: Id, input: string, now: nat)
    modifies p
    ensures IsBlank(input) ==> p.notes == old(p.notes) && p.store == old(p.store)
    ensures !HasId(old(p.notes), noteId, NoteId) ==> p.notes == old(p.notes) && p.store == old(p.store)
    ensures !IsBlank(input) && HasId(old(p.notes), noteId, NoteId) ==>
      var first := old(p.notes)[FindIndex(old(p.notes), noteId, NoteId)];
      && |p.notes| == |old(p.notes)|
      && (forall j :: 0 <= j < |p.notes| ==>
           p.notes[j] == (if old(p.notes)[j].id == noteId
                          then old(p.notes)[j].(todos := Some(AppendedTodos(first.todos, NewTodo(Trim(input), now))), updatedAt := now)
                          else old(p.notes)[j]))
      && p.store == old(p.store)[NotesKey := Records(Map(p.notes, NoteEncoder(p.codec)))]
    ensures p.events == old(p.events) && p.reminders == old(p.reminders) && p.inventory == old(p.inventory) && p.lending == old(p.lending)
  {
    if !IsBlank(input) {
      AddTodoToNote(p, noteId, Trim(input), now);
    }
  }

  /** `updateNote(noteId, { todos })`: the list is written into every note
      carrying the id, stamped now, and the notes are saved. */
  method WriteTodos(p: DataProvider, noteId: Id, todos: seq<TodoItem>, now: nat)
    modifies p
    ensures |p.notes| == |old(p.notes)|
    ensures forall j :: 0 <= j < |p.notes| ==>
      p.notes[j] == (if old(p.notes)[j].id == noteId
                     then old(p.notes)[j].(todos := Some(todos), updatedAt := now)
                     else old(p.notes)[j])
    ensures p.store == old(p.store)[NotesKey := Records(Map(p.notes, NoteEncoder(p.codec)))]
    ensures p.events == old(p.events) && p.reminders == old(p.reminders) && p.inventory == old(p.inventory) && p.lending == old(p.lending)
  {
    ghost var before := p.notes;
    p.UpdateNote(noteId, TodosPatch(todos), now);
    TodosUpdated(before, p.notes, noteId, todos, now);
  }

  /** `toggleTodo`: nothing happens when no note carries the id or the
      first such note has no todo list; otherwise that list, with the todo
      toggled, is written into every note carrying the id. */
  method ToggleTodo(p: DataProvider, noteId: Id, todoId: Id, now: nat)
    modifies p
    ensures !HasId(old(p.notes), noteId, NoteId) ==> p.notes == old(p.notes) && p.store == old(p.store)
    ensures HasId(old(p.notes), noteId, NoteId) ==>
      var first := old(p.notes)[FindIndex(old(p.notes), noteId, NoteId)];
      && (first.todos.None? ==> p.notes == old(p.notes) && p.store == old(p.store))
      && (first.todos.Some? ==>
            && |p.notes| == |old(p.notes)|
            && (forall j :: 0 <= j < |p.notes| ==>
                 p.notes[j] == (if old(p.notes)[j].id == noteId
                                then old(p.notes)[j].(todos := Some(ToggledTodos(first.todos.value, todoId)), updatedAt := now)
                                else old(p.notes)[j]))
            && p.store == old(p.store)[NotesKey := Records(Map(p.notes, NoteEncoder(p.codec)))])
    ensures p.events == old(p.events) && p.reminders == old(p.reminders) && p.inventory == old(p.inventory) && p.lending == old(p.lending)
  {
    var i := FindIndex(p.notes, noteId, NoteId);
    if i < 0 {
      return;
    }
    var note := p.notes[i];
    if note.todos.None? {
      return;
    }
    WriteTodos(p, noteId, ToggledTodos(note.todos.value, todoId), now);
  }

  /** `deleteTodo`: nothing happens when no note carries the id or the
      first such note has no todo list; otherwise that list, without the
      todo, is written into every note carrying the id. */
  method DeleteTodo(p: DataProvider, noteId: Id, todoId: Id, now: nat)
    modifies p
    ensures !HasId(old(p.notes), noteId, NoteId) ==> p.notes == old(p.notes) && p.store == old(p.store)
    ensures HasId(old(p.notes), noteId, NoteId) ==>
      var first := old(p.notes)[FindIndex(old(p.notes), noteId, NoteId)];
      && (first.todos.None? ==> p.notes == old(p.notes) && p.store == old(p.store))
      && (first.todos.Some? ==>
            && |p.notes| == |old(p.notes)|
            && (forall j :: 0 <= j < |p.notes| ==>
                 p.notes[j] == (if old(p.notes)[j].id == noteId
                                then old(p.notes)[j].(todos := Some(RemovedTodos(first.todos.value, todoId)), updatedAt := now)
                                else old(p.notes)[j]))
            && p.store == old(p.store)[NotesKey := Records(Map(p.notes, NoteEncoder(p.codec)))])
    ensures p.events == old(p.events) && p.reminders == old(p.reminders) && p.inventory == old(p.inventory) && p.lending == old(p.lending)
  {
    var i := FindIndex(p.notes, noteId, NoteId);
    if i < 0 {
      return;
    }
    var note := p.notes[i];
    if note.todos.None? {
      return;
    }
    WriteTodos(p, noteId, RemovedTodos(note.todos.value, todoId), now);
  }

  // ---------------------------------------------------------------------------
  // Display size

  datatype NoteSize = Small | Medium | Large

  /** A note without a recorded size is shown medium. */
  function SizeOf(sizes: map<Id, NoteSize>, id: Id): NoteSize {
    if id in sizes then sizes[id] else NoteSize.Medium
  }

  /** Small, then medium, then large, then small again. */
  function NextSize(s: NoteSize): (t: NoteSize)
    ensures t != s
  {
    match s
    case Small => NoteSize.Medium
    case Medium => Large
    case Large => Small
  }

  /** `toggleNoteSize`: the note's size moves one step along the cycle and
      every other note keeps its size. */
  function ToggleNoteSize(sizes: map<Id, NoteSize>, id: Id): (r: map<Id, NoteSize>)
    ensures SizeOf(r, id) == NextSize(SizeOf(sizes, id))
    ensures forall other :: other != id ==> SizeOf(r, other) == SizeOf(sizes, other)
    ensures r.Keys == sizes.Keys + {id}
  {
    sizes[id := NextSize(SizeOf(sizes, id))]
  }

  /** Three toggles bring a note back to the size it had. */
  lemma SizeCycle(sizes: map<Id, NoteSize>, id: Id)
    ensures SizeOf(ToggleNoteSize(ToggleNoteSize(ToggleNoteSize(sizes, id), id), id), id) == SizeOf(sizes, id)
  {
    var s := SizeOf(sizes, id);
    assert NextSize(NextSize(NextSize(s))) == s by {
      match s
      case Small =>
      case Medium =>
      case Large =>
    }
  }

  /** `getSizeClasses`: a large note spans two columns and two rows; small
      and medium notes both span one of each. */
  function SizeClasses(sizes: map<Id, NoteSize>, id: Id): (c: string)
    ensures c == (if SizeOf(sizes, id) == Large then "col-span-2 row-span-2" else "col-span-1 row-span-1")
  {
    match SizeOf(sizes, id)
    case Small => "col-span-1 row-span-1"
    case Large => "col-span-2 row-span-2"
    case Medium => "col-span-1 row-span-1"
  }

  // ---------------------------------------------------------------------------
  // Links

  /** `addHyperlinkToNote`: nothing happens when no note carries the id;
      otherwise the first such note's content, with the markup of the link
      appended on a line of its own, is written into every note carrying
      the id. */
  method AddHyperlinkToNote(p: DataProvider, noteId: Id, url: string, text: string, now: nat)
    modifies p
    ensures !HasId(old(p.notes), noteId, NoteId) ==> p.notes == old(p.notes) && p.store == old(p.store)
    ensures HasId(old(p.notes), noteId, NoteId) ==>
      var first := old(p.notes)[FindIndex(old(p.notes), noteId, NoteId)];
      && |p.notes| == |old(p.notes)|
      && (forall j :: 0 <= j < |p.notes| ==>
           p.notes[j] == (if old(p.notes)[j].id == noteId
                          then old(p.notes)[j].(content := WithLink(first.content, url, text), updatedAt := now)
                          else old(p.notes)[j]))
      && p.store == old(p.store)[NotesKey := Records(Map(p.notes, NoteEncoder(p.codec)))]
    ensures p.events == old(p.events) && p.reminders == old(p.reminders) && p.inventory == old(p.inventory) && p.lending == old(p.lending)
  {
    var i := FindIndex(p.notes, noteId, NoteId);
    if i < 0 {
      return;
    }
    var note := p.notes[i];
    ghost var before := p.notes;
    var content := WithLink(note.content, url, text);
    p.UpdateNote(noteId, ContentPatch(content), now);
    ContentUpdated(before, p.notes, noteId, content, now);
  }

  /** Patching the content of the notes carrying an id replaces their
      content and stamps them, and leaves the other notes alone. */
  lemma ContentUpdated(before: seq<Note>, after: seq<Note>, noteId: Id, content: string, now: nat)
    requires after == UpdateWhere(before, noteId, NoteId, NoteMerger(ContentPatch(content), now))
    ensures |after| == |before|
    ensures forall j :: 0 <= j < |after| ==>
      after[j] == (if before[j].id == noteId then before[j].(content := content, updatedAt := now) else before[j])
  {
    forall j | 0 <= j < |after|
      ensures after[j] == (if before[j].id == noteId then before[j].(content := content, updatedAt := now) else before[j])
    {
      assert NoteId(before[j]) == before[j].id;
    }
  }

  /** The link button: asks for an address and a text; without an address
      nothing happens, and a missing text becomes `Link`. The source renders
      this button only for a plain note inside the view shown only for a todo
      list, so no user reaches it; this is what its handler would do. */
  method InsertLink(p: DataProvider, noteId: Id, url: Option<string>, entered: Option<string>, now: nat)
    modifies p
    ensures url.None? || url.value == "" ==> p.notes == old(p.notes) && p.store == old(p.store)
    ensures !HasId(old(p.notes), noteId, NoteId) ==> p.notes == old(p.notes) && p.store == old(p.store)
    ensures url.Some? && url.value != "" && HasId(old(p.notes), noteId, NoteId) ==>
      var first := old(p.notes)[FindIndex(old(p.notes), noteId, NoteId)];
      && |p.notes| == |old(p.notes)|
      && (forall j :: 0 <= j < |p.notes| ==>
           p.notes[j] == (if old(p.notes)[j].id == noteId
                          then old(p.notes)[j].(content := WithLink(first.content, url.value, LinkText(entered)), updatedAt := now)
                          else old(p.notes)[j]))
      && p.store == old(p.store)[NotesKey := Records(Map(p.notes, NoteEncoder(p.codec)))]
    ensures p.events == old(p.events) && p.reminders == old(p.reminders) && p.inventory == old(p.inventory) && p.lending == old(p.lending)
  {
    if url.Some? && url.value != "" {
      AddHyperlinkToNote(p, noteId, url.value, LinkText(entered), now);
    }
  }

  // ---------------------------------------------------------------------------
  // Drag and drop

  /** Whether `handleDrop` reorders at all: a dragged id is set, differs
      from the target, and both are among the notes shown. */
  predicate DropApplies(xs: seq<Note>, dragged: Option<Id>, target: Id, search: string, selected: string) {
    && dragged.Some? && dragged.value != "" && dragged.value != target
    && HasId(FilteredNotes(xs, search, selected), dragged.value, NoteId)
    && HasId(FilteredNotes(xs, search, selected), target, NoteId)
  }

  /** Each note of `ns` is the note of `xs` at the same position, either
      untouched or stamped `now`. */
  predicate UpToStamp(ns: seq<Note>, xs: seq<Note>, now: Timestamp) {
    && |ns| == |xs|
    && forall j :: 0 <= j < |xs| ==> ns[j] == xs[j] || ns[j] == xs[j].(updatedAt := now)
  }

  /** `handleDrop`: nothing happens unless the drop applies; otherwise the
      notes are copied, the dragged note moved in front of the target's
      position in the whole collection, and every note of the copy written
      back through `updateNote`. The ids, and so the order of the stored
      notes, never change; with distinct ids a note changes at most by
      being stamped `now`. */
  method HandleDrop(p: DataProvider, dragged: Option<Id>, target: Id, search: string, selected: string, now: nat)
    modifies p
    ensures Ids(p.notes, NoteId) == Ids(old(p.notes), NoteId)
    ensures !DropApplies(old(p.notes), dragged, target, search, selected) ==>
      p.notes == old(p.notes) && p.store == old(p.store)
    ensures Distinct(Ids(old(p.notes), NoteId)) ==> UpToStamp(p.notes, old(p.notes), now)
    ensures p.store == old(p.store) || p.store == old(p.store)[NotesKey := Records(Map(p.notes, NoteEncoder(p.codec)))]
    ensures DropApplies(old(p.notes), dragged, target, search, selected) ==>
      p.store == old(p.store)[NotesKey := Records(Map(p.notes, NoteEncoder(p.codec)))]
    ensures p.events == old(p.events) && p.reminders == old(p.reminders) && p.inventory == old(p.inventory) && p.lending == old(p.lending)
  {
    if dragged.None? || dragged.value == "" || dragged.value == target {
      return;
    }
    var xs := p.notes;
    var shown := FilteredNotes(xs, search, selected);
    var draggedIndex := FindIndex(shown, dragged.value, NoteId);
    var targetIndex := FindIndex(shown, target, NoteId);
    DropGuard(xs, dragged.value, target, search, selected);
    if draggedIndex == -1 || targetIndex == -1 {
      return;
    }
    var from := FindIndex(xs, dragged.value, NoteId);
    var to := FindIndex(xs, target, NoteId);
    var reordered := SpliceCopy(xs, from, to);
    MovedPermutation(xs, from, to);
    WriteAllBack(p, reordered[..], xs, now);
  }

  /** The guard of the drop: the search over the notes shown finds both
      ids exactly when the drop applies, and then the search over all the
      notes finds them too. */
  lemma DropGuard(xs: seq<Note>, dragged: Id, target: Id, search: string, selected: string)
    requires dragged != "" && dragged != target
    ensures var shown := FilteredNotes(xs, search, selected);
      DropApplies(xs, Some(dragged), target, search, selected) <==>
        FindIndex(shown, dragged, NoteId) != -1 && FindIndex(shown, target, NoteId) != -1
    ensures DropApplies(xs, Some(dragged), target, search, selected) ==>
      FindIndex(xs, dragged, NoteId) >= 0 && FindIndex(xs, target, NoteId) >= 0
  {
    var shown := FilteredNotes(xs, search, selected);
    if DropApplies(xs, Some(dragged), target, search, selected) {
      var i :| 0 <= i < |shown| && shown[i].id == dragged;
      var j :| 0 <= j < |shown| && shown[j].id == target;
      assert shown[i] in xs && shown[j] in xs;
    }
  }

  /** The `forEach` of the drop: every note of `ys`, a rearrangement of the
      notes `xs` the provider holds, is written back in turn. */
  method WriteAllBack(p: DataProvider, ys: seq<Note>, ghost xs: seq<Note>, now: Timestamp)
    requires multiset(ys) == multiset(xs)
    requires p.notes == xs
    modifies p
    ensures Ids(p.notes, NoteId) == Ids(xs, NoteId)
    ensures Distinct(Ids(xs, NoteId)) ==> UpToStamp(p.notes, xs, now)
    ensures p.store == old(p.store) || p.store == old(p.store)[NotesKey := Records(Map(p.notes, NoteEncoder(p.codec)))]
    ensures |ys| > 0 ==> p.store == old(p.store)[NotesKey := Records(Map(p.notes, NoteEncoder(p.codec)))]
    ensures p.events == old(p.events) && p.reminders == old(p.reminders) && p.inventory == old(p.inventory) && p.lending == old(p.lending)
  {
    for k := 0 to |ys|
      invariant Ids(p.notes, NoteId) == Ids(xs, NoteId)
      invariant Distinct(Ids(xs, NoteId)) ==> UpToStamp(p.notes, xs, now)
      invariant p.store == old(p.store) || p.store == old(p.store)[NotesKey := Records(Map(p.notes, NoteEncoder(p.codec)))]
      invariant k > 0 ==> p.store == old(p.store)[NotesKey := Records(Map(p.notes, NoteEncoder(p.codec)))]
      invariant p.events == old(p.events) && p.reminders == old(p.reminders) && p.inventory == old(p.inventory) && p.lending == old(p.lending)
    {
      assert ys[k] in multiset(xs);
      WriteBack(p, ys[k], xs, now, old(p.store));
    }
  }

  /** One `updateNote(note.id, { ...note })` of the drop over the notes
      `xs`: the ids stay those of `xs`, with distinct ids every note stays
      its own or stamped, and the store ends up holding the current notes
      over `store`. */
  method WriteBack(p: DataProvider, note: Note, ghost xs: seq<Note>, now: Timestamp, ghost store: map<string, Stored>)
    requires note in xs
    requires Ids(p.notes, NoteId) == Ids(xs, NoteId)
    requires Distinct(Ids(xs, NoteId)) ==> UpToStamp(p.notes, xs, now)
    requires p.store == store || p.store == store[NotesKey := Records(Map(p.notes, NoteEncoder(p.codec)))]
    modifies p
    ensures Ids(p.notes, NoteId) == Ids(xs, NoteId)
    ensures Distinct(Ids(xs, NoteId)) ==> UpToStamp(p.notes, xs, now)
    ensures p.store == store[NotesKey := Records(Map(p.notes, NoteEncoder(p.codec)))]
    ensures p.events == old(p.events) && p.reminders == old(p.reminders) && p.inventory == old(p.inventory) && p.lending == old(p.lending)
  {
    ghost var before := p.notes;
    ghost var s0 := p.store;
    ghost var saved := Records(Map(before, NoteEncoder(p.codec)));
    p.UpdateNote(note.id, NoteFields(note), now);
    WriteBackIds(before, note, xs, now);
    if Distinct(Ids(xs, NoteId)) {
      WriteBackStamped(before, note, xs, now);
    }
    OverwriteKey(store, s0, NotesKey, saved, Records(Map(p.notes, NoteEncoder(p.codec))));
  }

  /** Writing back an element of `xs` with all of its own fields keeps the
      ids of `xs`. */
  lemma WriteBackIds(before: seq<Note>, note: Note, xs: seq<Note>, now: Timestamp)
    requires Ids(before, NoteId) == Ids(xs, NoteId)
    ensures Ids(UpdateWhere(before, note.id, NoteId, NoteMerger(NoteFields(note), now)), NoteId) == Ids(xs, NoteId)
  {
    var merge := NoteMerger(NoteFields(note), now);
    forall i | 0 <= i < |before| && NoteId(before[i]) == note.id
      ensures NoteId(merge(before[i])) == note.id
    {
      MergeNoteLaws(before[i], note, NoteFields(note), now);
    }
    UpdateKeepsIds(before, note.id, NoteId, merge);
  }

  /** With distinct ids, writing back an element of `xs` leaves every note
      its own, possibly stamped `now`. */
  lemma WriteBackStamped(before: seq<Note>, note: Note, xs: seq<Note>, now: Timestamp)
    requires note in xs
    requires Distinct(Ids(xs, NoteId))
    requires UpToStamp(before, xs, now)
    ensures UpToStamp(UpdateWhere(before, note.id, NoteId, NoteMerger(NoteFields(note), now)), xs, now)
  {
    var after := UpdateWhere(before, note.id, NoteId, NoteMerger(NoteFields(note), now));
    forall j | 0 <= j < |xs|
      ensures after[j] == xs[j] || after[j] == xs[j].(updatedAt := now)
    {
      if before[j].id == note.id {
        SameIdSameNote(xs, j, note);
        MergeNoteLaws(before[j], note, NoteFields(note), now);
      }
    }
  }

  /** With distinct ids, the element of `xs` carrying a member's id is
      that member. */
  lemma SameIdSameNote(xs: seq<Note>, j: nat, note: Note)
    requires note in xs && j < |xs| && xs[j].id == note.id
    requires Distinct(Ids(xs, NoteId))
    ensures xs[j] == note
  {
    var k :| 0 <= k < |xs| && xs[k] == note;
    assert Ids(xs, NoteId)[k] == Ids(xs, NoteId)[j];
  }
}
