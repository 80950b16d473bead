# Productivity app data layer and view logic, in Dafny

This project models the core of a single-page productivity app (notes with
todo lists, a calendar, reminders, an inventory of purchases and a lending
log). The app keeps five entity collections in a React context provider and
persists each one as a JSON array under a fixed key of the browser's local
storage. The views derive filtered, sorted and counted lists from the
collections and call the provider's `add*`, `update*` and `delete*`
operations.

The model has three parts:

- **The data layer** (`src/contexts/DataContext.tsx`):
  - The entity records and their shallow merges are in `entities.dfy`.
  - The JSON records and the date revival of `loadData` are in `codec.dfy`.
  - The list transforms behind `add`/`update`/`delete` are in `repository.dfy`.
  - The provider is in `data_context.dfy`: a class with five `seq` fields and
    a store map. Every mutating method replaces one field and writes that
    collection to its key.
- **The view logic** of the six components, one module each: `notes.dfy`,
  `note_links.dfy` (the markdown link append and the `[text](url)`
  tokenizer), `lending.dfy`, `reminders.dfy`, `inventory.dfy`,
  `dashboard.dfy` and `calendar.dfy`. Shared pieces are in other modules:
  - `reorder.dfy`: the in-place `splice` move that every drag-and-drop runs
    on its copy of a collection.
  - `sorting.dfy`: the "open first, then by date" sort.
  - `common.dfy`: lower-casing, substring search, trimming, decimal ids and
    filter/count.
- **The environment as parameters.** Dates are integer timestamps in
  milliseconds. "Now" is a parameter. "The same calendar day" is an
  uninterpreted `dayOf` function. The text form of dates in the store is a
  `DateCodec` parameter; `Sound(c)` says rendered dates are non-empty and
  parse back to themselves.

In these details the model follows the code as written:

- `updateNote` stamps `updatedAt` even when the patch carries its own.
- `loadData` does not revive the `createdAt` of todos nested inside a note,
  so they come back as text (`TodoStamp.AsText`).
- A drop writes each shown entity back with `update*` and never changes the
  order of the stored collection.

## Model

| member | source | states |
|---|---|---|
| Common.Lower | src/components/Notes.tsx:39-40 | `toLowerCase` keeps the length and maps each character, changing only `A`-`Z` |
| Common.LowerIdempotent | src/components/Notes.tsx:39-40 | lower-casing twice is lower-casing once |
| Common.IncludesIff | src/components/Notes.tsx:39-40 | `includes` holds exactly when the needle occurs at some position |
| Common.IncludesEmpty | src/components/Notes.tsx:39-40 | every text includes the empty search |
| Common.MatchesSearchLaws | src/components/Notes.tsx:39-40 | the case-insensitive search ignores the case of text and search, and the empty search matches everything |
| Common.TrimStart | src/components/Notes.tsx:46 | the result is a suffix of the input that does not start with white space |
| Common.TrimEnd | src/components/Notes.tsx:46 | the result is a prefix of the input that does not end with white space |
| Common.BlankIff | src/components/Notes.tsx:46 | a text is blank after `trim()` exactly when every character is white space |
| Common.TrimStartAllSpace | src/components/Notes.tsx:46 | trimming the start empties a text exactly when it is all white space |
| Common.TrimEndAllSpace | src/components/Notes.tsx:46 | a text whose end-trim is empty is all white space |
| Common.Decimal | src/contexts/DataContext.tsx:143 | `toString()` of a clock value is non-empty, one digit exactly below ten |
| Common.DecimalInjective | src/contexts/DataContext.tsx:143 | distinct clock values give distinct ids |
| Common.Map | src/contexts/DataContext.tsx:153-155 | `map` keeps the length and applies the function at every position |
| Common.MapIdentity | src/contexts/DataContext.tsx:153-155 | mapping a function that fixes every element returns the list |
| Common.Filter | src/contexts/DataContext.tsx:161 | `filter` keeps exactly the elements passing the test and grows nothing |
| Common.FilterMembers | src/contexts/DataContext.tsx:161 | an element is in the filtered list exactly when it is in the list and passes the test |
| Common.FilterConcat | src/contexts/DataContext.tsx:161 | filtering distributes over concatenation, so relative order is kept |
| Common.FilterAll | src/contexts/DataContext.tsx:161 | filtering with a test every element passes returns the list |
| Common.FilterIdempotent | src/contexts/DataContext.tsx:161 | filtering twice is filtering once |
| Common.Count | src/components/Dashboard.tsx:22 | `filter(...).length` is at most the length |
| Common.CountIsFilterLength | src/components/Dashboard.tsx:22 | the count is the length of the filtered list |
| Common.CountNoneZero | src/components/Dashboard.tsx:22 | nothing passing the test counts zero |
| Common.CountMonotone | src/components/Dashboard.tsx:22 | a weaker test counts at least as many |
| Common.CountSplit | src/components/Reminders.tsx:142-146 | complementary tests count to the length |
| Common.CountConcat | src/components/Dashboard.tsx:22 | counts add over concatenation |
| Common.OverwriteKey | src/contexts/DataContext.tsx:135-137 | a second `saveData` to a key overwrites the first |
| Entities.NewNote | src/contexts/DataContext.tsx:140-146 | a new note takes the draft's fields, the clock id and `createdAt == updatedAt == now` |
| Entities.MergeNoteLaws | src/contexts/DataContext.tsx:152-155 | `{...note, ...p, updatedAt: now}` always stamps now, keeps id and `createdAt` unless `p` sets them, is a no-op but for the stamp on an empty patch, writes a whole note's fields, and is idempotent |
| Entities.NewEvent | src/contexts/DataContext.tsx:167-172 | a new event takes the draft's fields and the clock id |
| Entities.MergeEventLaws | src/contexts/DataContext.tsx:177-180 | `{...e, ...p}` is a no-op on an empty patch, writes a whole event's fields, keeps the id unless `p` sets it, and is idempotent |
| Entities.NewReminder | src/contexts/DataContext.tsx:192-198 | a new reminder takes the draft's fields, the clock id and `createdAt == now` |
| Entities.MergeReminderLaws | src/contexts/DataContext.tsx:203-206 | the reminder merge is a no-op on an empty patch, writes a whole reminder's fields, keeps the id unless `p` sets it, and is idempotent |
| Entities.NewInventoryItem | src/contexts/DataContext.tsx:218-223 | a new item takes the draft's fields and the clock id |
| Entities.MergeInventoryLaws | src/contexts/DataContext.tsx:228-231 | the item merge is a no-op on an empty patch, writes a whole item's fields, keeps the id unless `p` sets it, and is idempotent |
| Entities.NewLendingItem | src/contexts/DataContext.tsx:243-248 | a new lending record takes the draft's fields and the clock id |
| Entities.MergeLendingLaws | src/contexts/DataContext.tsx:253-256 | the lending merge is a no-op on an empty patch, writes a whole record's fields, keeps the id unless `p` sets it, and is idempotent |
| Codec.DateKeyFacts | src/contexts/DataContext.tsx:107-119 | exactly the ten date keys are revived; no other key any entity uses is among them |
| Codec.Revive | src/contexts/DataContext.tsx:105-119 | revival keeps every non-date key, turns present truthy date keys into dates, and makes the others undefined |
| Codec.ReviveNumberOrFlag | src/contexts/DataContext.tsx:105-119 | a non-zero number under a date key becomes that time when within ±8.64e15 ms and an Invalid Date beyond; `true` becomes time 1; `0` and `false` become undefined |
| Codec.ReviveKeepsText | src/contexts/DataContext.tsx:105-119 | a stored text under a non-date key reads back unchanged |
| Codec.ReviveKeepsFlag | src/contexts/DataContext.tsx:105-119 | a stored boolean under a non-date key reads back unchanged |
| Codec.ReviveDate | src/contexts/DataContext.tsx:107-119 | a date written by `JSON.stringify` is revived to the same timestamp |
| Codec.ReviveOptionalDate | src/contexts/DataContext.tsx:110-118 | an optional date that was left out reads back as undefined, a present one as itself |
| Codec.EncodeTodos | src/contexts/DataContext.tsx:135-137 | every todo is written as one JSON element |
| Codec.SettleTodos | src/contexts/DataContext.tsx:105-119 | settling, the todo dates turning into their stored text, keeps the list's length |
| Codec.TodosRoundTrip | src/contexts/DataContext.tsx:15-20 | a saved todo list reads back with only the creation dates turned to text |
| Codec.NoteRoundTrip | src/contexts/DataContext.tsx:101-137 | a saved note loads back as itself with its todos settled, and settling is stable |
| Codec.DecodeNoteFields | src/contexts/DataContext.tsx:3-13 | a record holding every field of a note decodes to that note |
| Codec.SettleTodosIdempotent | src/contexts/DataContext.tsx:105-119 | a second save and load changes the todos no further |
| Codec.EventRoundTrip | src/contexts/DataContext.tsx:101-137 | a saved event loads back as itself |
| Codec.ReminderRoundTrip | src/contexts/DataContext.tsx:101-137 | a saved reminder loads back as itself |
| Codec.DecodeReminderFields | src/contexts/DataContext.tsx:32-40 | a record holding every field of a reminder decodes to it |
| Codec.InventoryRoundTrip | src/contexts/DataContext.tsx:101-137 | a saved inventory item, with its optional dates and receipt, loads back as itself |
| Codec.DecodeInventoryFields | src/contexts/DataContext.tsx:42-53 | a record holding every field of an item decodes to it |
| Codec.LendingRoundTrip | src/contexts/DataContext.tsx:101-137 | a saved lending record loads back as itself |
| Codec.DecodeLendingFields | src/contexts/DataContext.tsx:55-65 | a record holding every field of a lending record decodes to it |
| Codec.DecodeAll | src/contexts/DataContext.tsx:105-121 | a stored array loads exactly when every record decodes, element by element |
| Codec.CollectionRoundTrip | src/contexts/DataContext.tsx:101-137 | a collection saved by mapping an encoder loads back element-wise as the decoder returns each record |
| Codec.NotesRoundTrip | src/contexts/DataContext.tsx:101-137 | the saved notes load back with their todos settled |
| Codec.EventsRoundTrip | src/contexts/DataContext.tsx:101-137 | the saved events load back unchanged |
| Codec.RemindersRoundTrip | src/contexts/DataContext.tsx:101-137 | the saved reminders load back unchanged |
| Codec.InventoryCollectionRoundTrip | src/contexts/DataContext.tsx:101-137 | the saved inventory loads back unchanged |
| Codec.LendingCollectionRoundTrip | src/contexts/DataContext.tsx:101-137 | the saved lending log loads back unchanged |
| Repository.ClockIdFresh | src/contexts/DataContext.tsx:143 | with ids issued by a clock before `now` and all distinct, the id of `now` is new and keeps them distinct |
| Repository.AppendKeeps | src/contexts/DataContext.tsx:147 | `[...xs, x]` puts `x` last and keeps every earlier element and id |
| Repository.UpdateWhere | src/contexts/DataContext.tsx:153-155 | `map` with a merge keeps the length, leaves every other id's element unchanged and merges every element with the id |
| Repository.UpdateAbsent | src/contexts/DataContext.tsx:153-155 | updating an absent id changes nothing |
| Repository.UpdateKeepsIds | src/contexts/DataContext.tsx:153-155 | a merge that keeps ids keeps the list of ids, so positions do not move |
| Repository.UpdateUnique | src/contexts/DataContext.tsx:153-155 | with distinct ids the update changes the one position |
| Repository.UpdateWithMember | src/contexts/DataContext.tsx:153-155 | with distinct ids, writing an element's own fields back is a no-op |
| Repository.DeleteExact | src/contexts/DataContext.tsx:161-163 | delete leaves no element with the id, keeps every other one, and removes exactly the matching count |
| Repository.DeleteKeepsOrder | src/contexts/DataContext.tsx:161-163 | delete distributes over concatenation, so the rest keep their order |
| Repository.DeleteAbsentIdempotent | src/contexts/DataContext.tsx:161-163 | deleting an absent id changes nothing, and deleting twice is deleting once |
| Reorder.FindIndex | src/components/Notes.tsx:121-122 | `findIndex` gives -1 exactly when no element has the id, and otherwise the first position with it |
| Reorder.MovedIndex | src/components/Notes.tsx:135-136 | after the two splices each position holds the element from its computed source position |
| Reorder.MovedPermutation | src/components/Notes.tsx:127-136 | the spliced copy is a permutation of the same length with the dragged element at the target's index |
| Reorder.MovedSame | src/components/Notes.tsx:135-136 | moving an element onto its own index changes nothing |
| Reorder.MoveInPlace | src/components/Notes.tsx:135-136 | the in-place move leaves the array as the specified move of its old contents |
| Reorder.ShiftDown | src/components/Notes.tsx:135-136 | moving forward shifts the elements in between one place down |
| Reorder.ShiftUp | src/components/Notes.tsx:135-136 | moving backward shifts the elements in between one place up |
| Reorder.SpliceCopy | src/components/Notes.tsx:127-136 | `[...notes]` followed by the two splices yields a fresh array holding the moved sequence |
| Sorting.Insert | src/components/Lending.tsx:31-35 | insertion adds exactly the one element |
| Sorting.InsertLowerBound | src/components/Lending.tsx:31-35 | insertion keeps a common lower bound |
| Sorting.InsertSorted | src/components/Lending.tsx:31-35 | insertion into a sorted list keeps it sorted |
| Sorting.SortByKey | src/components/Lending.tsx:31-35 | the sort returns a sorted permutation of its input |
| Sorting.SortKeepsMembers | src/components/Lending.tsx:31-35 | sorting neither adds nor drops an entity |
| Sorting.InsertStable | src/components/Lending.tsx:31-35 | insertion keeps the entities of each key in order and puts the new one first among those sharing its key |
| Sorting.SortStable | src/components/Lending.tsx:31-35 | like `Array.prototype.sort`, the sort keeps entities with equal keys in their input order |
| Sorting.SortedGroups | src/components/Reminders.tsx:27-31 | in a sorted list every open entry precedes every closed one, and dates ascend within a group |
| DataContext.NotesSurviveReload | src/contexts/DataContext.tsx:101-149 | what `saveData` wrote for the notes, `loadData` reads back, whatever was loaded before, with todo dates settled |
| DataContext.EventsSurviveReload | src/contexts/DataContext.tsx:101-137 | the saved events are what loading yields |
| DataContext.RemindersSurviveReload | src/contexts/DataContext.tsx:101-137 | the saved reminders are what loading yields |
| DataContext.InventorySurvivesReload | src/contexts/DataContext.tsx:101-137 | the saved inventory is what loading yields |
| DataContext.LendingSurvivesReload | src/contexts/DataContext.tsx:101-137 | the saved lending log is what loading yields |
| DataContext.AppendFresh | src/contexts/DataContext.tsx:140-147 | appending an entity with the id of a clock beyond every earlier id keeps ids distinct |
| DataContext.DataProvider.constructor | src/contexts/DataContext.tsx:92-97 | the provider starts with five empty collections over the given store |
| DataContext.DataProvider.SaveData | src/contexts/DataContext.tsx:135-137 | `saveData` writes the records under the key and touches no collection |
| DataContext.DataProvider.Load | src/contexts/DataContext.tsx:99-132 | the start-up effect loads each of the five keys and leaves the store alone |
| DataContext.DataProvider.LoadNotes | src/contexts/DataContext.tsx:101-125 | absent or unparseable data leaves the notes as they were; otherwise they become the revived records |
| DataContext.DataProvider.LoadEvents | src/contexts/DataContext.tsx:101-125 | the same for the events |
| DataContext.DataProvider.LoadReminders | src/contexts/DataContext.tsx:101-125 | the same for the reminders |
| DataContext.DataProvider.LoadInventory | src/contexts/DataContext.tsx:101-125 | the same for the inventory |
| DataContext.DataProvider.LoadLending | src/contexts/DataContext.tsx:101-125 | the same for the lending log |
| DataContext.DataProvider.AddNote | src/contexts/DataContext.tsx:140-150 | appends exactly the new note and keeps the earlier ones; ids stay distinct under a strictly increasing clock; the store holds the new notes under `productivity-notes`; no other collection changes |
| DataContext.DataProvider.UpdateNote | src/contexts/DataContext.tsx:152-158 | merges the patch and the `now` stamp into every note with the id, keeps the length and positions, is a no-op on an absent id, and saves |
| DataContext.DataProvider.DeleteNote | src/contexts/DataContext.tsx:160-164 | removes exactly the notes with the id, is a no-op on an absent id, and saves |
| DataContext.DataProvider.AddEvent | src/contexts/DataContext.tsx:167-175 | appends exactly the new event and saves under `productivity-events` |
| DataContext.DataProvider.UpdateEvent | src/contexts/DataContext.tsx:177-183 | merges the patch into every event with the id without any stamp and saves |
| DataContext.DataProvider.DeleteEvent | src/contexts/DataContext.tsx:185-189 | removes exactly the events with the id and saves |
| DataContext.DataProvider.AddReminder | src/contexts/DataContext.tsx:192-201 | appends exactly the new reminder and saves under `productivity-reminders` |
| DataContext.DataProvider.UpdateReminder | src/contexts/DataContext.tsx:203-209 | merges the patch into every reminder with the id and saves |
| DataContext.DataProvider.DeleteReminder | src/contexts/DataContext.tsx:211-215 | removes exactly the reminders with the id and saves |
| DataContext.DataProvider.AddInventoryItem | src/contexts/DataContext.tsx:218-226 | appends exactly the new item and saves under `productivity-inventory` |
| DataContext.DataProvider.UpdateInventoryItem | src/contexts/DataContext.tsx:228-234 | merges the patch into every item with the id and saves |
| DataContext.DataProvider.DeleteInventoryItem | src/contexts/DataContext.tsx:236-240 | removes exactly the items with the id and saves |
| DataContext.DataProvider.AddLendingItem | src/contexts/DataContext.tsx:243-251 | appends exactly the new record and saves under `productivity-lending` |
| DataContext.DataProvider.UpdateLendingItem | src/contexts/DataContext.tsx:253-259 | merges the patch into every record with the id and saves |
| DataContext.DataProvider.DeleteLendingItem | src/contexts/DataContext.tsx:261-265 | removes exactly the records with the id and saves |
| NotesView.FilteredNotes | src/components/Notes.tsx:38-43 | a note is shown exactly when its lower-cased title or content contains the lower-cased search and the category matches or none is selected |
| NotesView.FilteredNotesLaws | src/components/Notes.tsx:38-43 | the empty search with no category shows every note in order, and the case of the search does not matter |
| NotesView.FilterSameTest | src/components/Notes.tsx:38-43 | filtering with the lower-cased search gives the same list |
| NotesView.HandleAddNote | src/components/Notes.tsx:45-58 | a title blank after trimming adds nothing; otherwise exactly the new note is appended and the notes are saved under `productivity-notes` |
| NotesView.AppendedTodos | src/components/Notes.tsx:77-78 | `[...(note.todos \|\| []), newTodo]` keeps the old todos in order and puts the new one last |
| NotesView.ToggledTodos | src/components/Notes.tsx:86-88 | the toggle keeps the length, flips `completed` exactly on todos with the id and changes no other field |
| NotesView.ToggleTwice | src/components/Notes.tsx:82-90 | toggling twice restores the list |
| NotesView.RemovedTodos | src/components/Notes.tsx:96 | a todo survives the removal exactly when it was there and has another id |
| NotesView.RemoveAppended | src/components/Notes.tsx:67-98 | removing a just-added todo with a fresh id restores the list |
| NotesView.AddTodoToNote | src/components/Notes.tsx:67-80 | a missing note changes nothing; otherwise every note with the id gets the first such note's todos plus a new open todo, stamped now, and nothing else changes |
| NotesView.TodosUpdated | src/components/Notes.tsx:67-80 | patching the todos of the notes with an id replaces their list and stamps them, and leaves the other notes alone |
| NotesView.SubmitTodo | src/components/Notes.tsx:528-546 | a blank input adds nothing, and neither does a missing note; otherwise the trimmed text is added as a todo and the notes are saved |
| NotesView.WriteTodos | src/components/Notes.tsx:82-98 | `updateNote(noteId, { todos })` writes the list into every note with the id, stamped now, keeps the others, and saves under `productivity-notes` |
| NotesView.ToggleTodo | src/components/Notes.tsx:82-90 | a missing note, or one without todos, changes nothing; otherwise the toggled list of the first such note is written, stamped and saved under `productivity-notes` |
| NotesView.DeleteTodo | src/components/Notes.tsx:92-98 | a missing note, or one without todos, changes nothing; otherwise the filtered list of the first such note is written, stamped and saved under `productivity-notes` |
| NotesView.NextSize | src/components/Notes.tsx:147-151 | the size cycle always moves to another size |
| NotesView.ToggleNoteSize | src/components/Notes.tsx:147-151 | the note's size advances from its current one, medium by default, and no other note's size changes |
| NotesView.SizeCycle | src/components/Notes.tsx:147-151 | three toggles return to the starting size |
| NotesView.SizeClasses | src/components/Notes.tsx:153-160 | only a large note spans two columns and rows; small and medium span one |
| NotesView.AddHyperlinkToNote | src/components/Notes.tsx:162-169 | a missing note changes nothing; otherwise the content gets the link markup appended after a newline when non-empty |
| NotesView.ContentUpdated | src/components/Notes.tsx:162-169 | patching the content of the notes with an id replaces it and stamps them, and leaves the other notes alone |
| NotesView.InsertLink | src/components/Notes.tsx:553-558 | no URL or an empty one changes nothing, and neither does a missing note; a missing link text becomes `Link`; otherwise the markup is appended and the notes are saved (the button is unreachable in the source: see "Left out") |
| NotesView.HandleDrop | src/components/Notes.tsx:116-145 | a drop that does not apply in the filtered view changes nothing; a drop never changes ids or their order, and with distinct ids each note is at most stamped now; an applying drop leaves the store holding the final notes |
| NotesView.DropGuard | src/components/Notes.tsx:119-133 | both ids are found in the filtered view exactly when the drop applies, and then they are found among all the notes |
| NotesView.WriteAllBack | src/components/Notes.tsx:139-141 | the `forEach` of `updateNote(note.id, {...note})` keeps ids and order, and with distinct ids each note is at most stamped; a non-empty write-back leaves the store holding the final notes |
| NotesView.WriteBack | src/components/Notes.tsx:140 | one such write keeps ids, each note at most stamped, and leaves the store holding the current notes |
| NotesView.WriteBackIds | src/components/Notes.tsx:140 | writing a note's own fields back keeps the id list |
| NotesView.WriteBackStamped | src/components/Notes.tsx:140 | with distinct ids, writing a note's own fields back leaves each note itself or stamped |
| NotesView.SameIdSameNote | src/components/Notes.tsx:140 | with distinct ids the element carrying a member's id is that member |
| NoteLinks.WithLink | src/components/Notes.tsx:166-167 | the content is kept as a prefix; the markup follows, after a newline exactly when the content was non-empty |
| NoteLinks.LinkText | src/components/Notes.tsx:556 | the link text is the entered text, or `Link` when none or empty was entered |
| NoteLinks.IndexOf | src/components/Notes.tsx:172 | the scan stops at the first occurrence of the character, or at the end |
| NoteLinks.MatchAt | src/components/Notes.tsx:172 | a match found at a position is a well-formed `[text](url)` there |
| NoteLinks.NextMatch | src/components/Notes.tsx:177 | `exec` from `lastIndex` finds a well-formed match at or after it |
| NoteLinks.MatchAtComplete | src/components/Notes.tsx:172 | wherever a well-formed `[text](url)` starts, the match found at that position is exactly it |
| NoteLinks.NextMatchFirst | src/components/Notes.tsx:177 | no position between `lastIndex` and the match found holds a match, and none from `lastIndex` on when nothing is found |
| NoteLinks.NextMatchLeftmost | src/components/Notes.tsx:177 | the match found starts no later than any well-formed match at or after `lastIndex`, and none found means every well-formed match starts before it |
| NoteLinks.TokenizeWellFormed | src/components/Notes.tsx:171-200 | every segment is non-empty text, or a link whose text has no `]` and whose URL has no `)` |
| NoteLinks.JoinConcat | src/components/Notes.tsx:171-200 | the source text of segments adds over concatenation |
| NoteLinks.MatchSource | src/components/Notes.tsx:172 | a match's span is exactly the markup of its text and URL |
| NoteLinks.TokenizeFound | src/components/Notes.tsx:177-196 | a found match contributes the text before it, then the link, then the segments after it |
| NoteLinks.TokenizeDone | src/components/Notes.tsx:198-200 | with no further match, only the remaining text is a segment |
| NoteLinks.JoinFound | src/components/Notes.tsx:178-196 | the segments of one step spell the content from `lastIndex` to the match's end |
| NoteLinks.Reconstruct | src/components/Notes.tsx:171-200 | joining the segments' source text reconstructs the content |
| NoteLinks.MarkupRoundTrip | src/components/Notes.tsx:166-177 | the markup of a link text without `]` and a URL without `)` tokenizes back to that one link |
| NoteLinks.PushMatch | src/components/Notes.tsx:178-195 | one turn of the loop pushes the text between `lastIndex` and the match, when non-empty, then the link |
| NoteLinks.TakeMatch | src/components/Notes.tsx:178-195 | one turn of the loop keeps the pushed segments followed by the segments still to come equal to all the segments, and resumes the search strictly after where it was |
| NoteLinks.RenderContentWithLinks | src/components/Notes.tsx:171-200 | the `while` loop yields exactly the tokenizer's segments |
| LendingView.FilteredLending | src/components/Lending.tsx:25-35 | the list is a sorted permutation of the tab's items |
| LendingView.FilteredLendingMembers | src/components/Lending.tsx:25-30 | an item is listed exactly when it is in the collection and on the tab |
| LendingView.FilteredLendingOrder | src/components/Lending.tsx:31-35 | unreturned items come before returned ones, ascending by expected return date within each group |
| LendingView.TabsPartition | src/components/Lending.tsx:25-30 | lent and borrowed, or active and returned, split the items; "all" keeps every item |
| LendingView.BadgesExclusive | src/components/Lending.tsx:60-69 | overdue implies due soon; the due-soon badge shows exactly when unreturned and not overdue within three days; a returned item has no badge |
| LendingView.Stats | src/components/Lending.tsx:71-77 | lent + borrowed = total and overdue ≤ active ≤ total |
| LendingView.SelectFromInventory | src/components/Lending.tsx:124-130 | picking an inventory item changes only the draft's item name, to that item's name |
| LendingView.HandleAddItem | src/components/Lending.tsx:37-51 | a blank item or person name adds nothing; otherwise exactly the new record is appended and the log is saved under `productivity-lending` |
| LendingView.ReturnToggle | src/components/Lending.tsx:53-58 | the toggle negates `returned`, sets `returnDate` to now or clears it, changes nothing else, and twice restores all but the return date |
| LendingView.ToggleItemReturn | src/components/Lending.tsx:53-58 | every record with the item's id gets the toggled state, and the log is saved under `productivity-lending` |
| LendingView.HandleLendingDrop | src/components/Lending.tsx:89-112 | a drop never changes ids or their order, and with distinct ids changes nothing; a drop with both ids present, distinct and non-empty saves the final list under `productivity-lending` |
| LendingView.WriteAllBack | src/components/Lending.tsx:105-108 | writing every record back keeps ids, and with distinct ids the collection; writing back a non-empty list saves the final list under `productivity-lending` |
| LendingView.WriteBack | src/components/Lending.tsx:107 | one write-back keeps ids, and with distinct ids the collection, and saves |
| LendingView.WriteBackStep | src/components/Lending.tsx:107 | writing a record's own fields back keeps ids, and with distinct ids the list |
| RemindersView.FilteredReminders | src/components/Reminders.tsx:23-31 | the list is a sorted permutation of the tab's reminders |
| RemindersView.FilteredRemindersMembers | src/components/Reminders.tsx:23-26 | a reminder is listed exactly when it is in the collection and on the tab |
| RemindersView.FilteredRemindersOrder | src/components/Reminders.tsx:27-31 | incomplete reminders come before completed ones, ascending by due date within each group |
| RemindersView.Counts | src/components/Reminders.tsx:142-146 | the tab counts are the filtered lengths and pending + completed = all |
| RemindersView.MarkersExclusive | src/components/Reminders.tsx:67-73 | never both overdue and due today; a future date is never overdue; a past date is overdue exactly when not today |
| RemindersView.HandleAddReminder | src/components/Reminders.tsx:33-45 | a blank title adds nothing; otherwise exactly the new reminder is appended and the reminders are saved under `productivity-reminders` |
| RemindersView.CompletionToggle | src/components/Reminders.tsx:54-56 | the toggle flips `completed` only, and twice restores the reminder |
| RemindersView.ToggleReminderCompletion | src/components/Reminders.tsx:54-56 | every reminder with the id gets the toggled state, and the reminders are saved under `productivity-reminders` |
| RemindersView.HandleReminderDrop | src/components/Reminders.tsx:85-108 | a drop never changes ids or their order, and with distinct ids changes nothing; a drop with both ids present, distinct and non-empty saves the final list under `productivity-reminders` |
| RemindersView.WriteAllBack | src/components/Reminders.tsx:101-104 | writing every reminder back keeps ids, and with distinct ids the collection; writing back a non-empty list saves the final list under `productivity-reminders` |
| RemindersView.WriteBack | src/components/Reminders.tsx:103 | one write-back keeps ids, and with distinct ids the collection, and saves |
| RemindersView.WriteBackStep | src/components/Reminders.tsx:103 | writing a reminder's own fields back keeps ids, and with distinct ids the list |
| InventoryView.FilteredInventory | src/components/Inventory.tsx:30-35 | an item is shown exactly when its name or notes contain the search case-insensitively and the category matches or none is selected |
| InventoryView.FilteredInventoryLaws | src/components/Inventory.tsx:30-35 | the empty search with no category shows every item, and the case of the search does not matter |
| InventoryView.FilterSameTest | src/components/Inventory.tsx:30-35 | filtering with the lower-cased search gives the same list |
| InventoryView.ExpiringSoonLaws | src/components/Inventory.tsx:55-60 | an undefined date never expires soon, a past date does, and a later now keeps it so |
| InventoryView.StatusOf | src/components/Inventory.tsx:62-70 | the alert colour shows exactly when the warranty or return deadline falls within 30 days of now |
| InventoryView.HandleAddItem | src/components/Inventory.tsx:37-53 | a blank name adds nothing; otherwise exactly the new item is appended and the inventory is saved under `productivity-inventory` |
| InventoryView.HandleItemDrop | src/components/Inventory.tsx:82-105 | a drop never changes ids or their order, and with distinct ids changes nothing; a drop with both ids present, distinct and non-empty saves the final list under `productivity-inventory` |
| InventoryView.WriteAllBack | src/components/Inventory.tsx:98-101 | writing every item back keeps ids, and with distinct ids the collection; writing back a non-empty list saves the final list under `productivity-inventory` |
| InventoryView.WriteBack | src/components/Inventory.tsx:100 | one write-back keeps ids, and with distinct ids the collection, and saves |
| InventoryView.WriteBackStep | src/components/Inventory.tsx:100 | writing an item's own fields back keeps ids, and with distinct ids the list |
| Dashboard.TotalRevenue | src/components/Dashboard.tsx:16 | the sum of prices is 0 for no items and the price for one |
| Dashboard.TotalRevenueConcat | src/components/Dashboard.tsx:16 | the sum adds over concatenation |
| Dashboard.TotalRevenueBounds | src/components/Dashboard.tsx:16 | with non-negative prices the sum is non-negative and at least every price |
| Dashboard.ActiveReminders | src/components/Dashboard.tsx:22 | the open reminders counted with the completed ones make up all of them |
| Dashboard.ActiveLending | src/components/Dashboard.tsx:25 | the unreturned records counted with the returned ones make up all of them |
| Dashboard.UpcomingEvents | src/components/Dashboard.tsx:28-33 | the count is the length of the coming week's events |
| Dashboard.UpcomingEventsMembers | src/components/Dashboard.tsx:28-33 | an event counts exactly when now ≤ date ≤ now + 7 days |
| Dashboard.UpcomingEventsNone | src/components/Dashboard.tsx:28-33 | no event in the window counts zero |
| Dashboard.UpcomingEventsConcat | src/components/Dashboard.tsx:28-33 | the count adds over concatenation |
| CalendarView.EventsForDate | src/components/Calendar.tsx:49-53 | exactly the events on the same calendar day are listed |
| CalendarView.EventsForDateOrder | src/components/Calendar.tsx:49-53 | the day filter distributes over concatenation, so collection order is kept |
| CalendarView.DayCellFor | src/components/Calendar.tsx:129-163 | a day cell shows the first min(n, 3) of the day's n events in order and "+k more" exactly when k = n - 3 > 0, and marks today and the selected day |
| CalendarView.RenderCalendarGrid | src/components/Calendar.tsx:118-166 | the grid holds the first-weekday placeholders followed by the day cells 1..days, in order |
| CalendarView.GridDayNumbers | src/components/Calendar.tsx:129-163 | the cells after the placeholders are numbered 1, 2, … in order |
| CalendarView.HandleAddEvent | src/components/Calendar.tsx:55-71 | a blank title adds nothing; otherwise the event is appended with the selected date, or now when none is selected, and the events are saved under `productivity-events` |
| CalendarView.HandleEventDrop | src/components/Calendar.tsx:83-106 | a drop never changes ids or their order, and with distinct ids changes nothing; a drop with both ids present, distinct and non-empty saves the final list under `productivity-events` |
| CalendarView.WriteAllBack | src/components/Calendar.tsx:99-102 | writing every event back keeps ids, and with distinct ids the collection; writing back a non-empty list saves the final list under `productivity-events` |
| CalendarView.WriteBack | src/components/Calendar.tsx:101 | one write-back keeps ids, and with distinct ids the collection, and saves |
| CalendarView.WriteBackStep | src/components/Calendar.tsx:101 | writing an event's own fields back keeps ids, and with distinct ids the list |

## Left out

- Browser storage and JSON text are abstracted. The store is a map from key to
  either an unparseable value or an array of records. `JSON.parse` and
  `JSON.stringify` are not modelled beyond that, and the text form of dates is
  the `DateCodec` parameter.
- DataContext.DataProvider.Load: requires every stored array to have the shape
  of its entity kind. The source would load such records untyped, which a
  typed collection cannot hold.
- DataContext.DataProvider.LoadNotes: requires the same of the stored notes.
- DataContext.DataProvider.LoadEvents: requires the same of the stored events.
- DataContext.DataProvider.LoadReminders: requires the same of the stored
  reminders.
- DataContext.DataProvider.LoadInventory: requires the same of the stored
  inventory.
- DataContext.DataProvider.LoadLending: requires the same of the stored
  lending log.
- Codec.NoteRoundTrip: the creation dates of todos inside a note come back as
  text, because the source's revival only looks at a record's top-level keys.
- Invalid dates are left out: the codec is required to be sound (`Sound`) wherever a
  round trip is claimed.
- Codec.Revive: a JSON array under a date key becomes an Invalid Date, whereas
  `new Date([...])` parses the array's joined text. Numbers are integers, so
  fractional time values are not modelled.
- NotesView.InsertLink: models the link button of the todo detail view
  (src/components/Notes.tsx:550-560), which the source never shows. That
  button is guarded by `editingNote.type === 'note'`, but it sits inside the
  block rendered only when `editingNote.type === 'todo'`
  (src/components/Notes.tsx:470), so no user can press it. The model states
  what the handler would do if it were reached.
- Lower-casing and `trim()` cover ASCII only. Unicode case mapping and
  Unicode white space are not modelled.
- Every clock read of one user action (`Date.now()`, `new Date()`) is the same
  `now` parameter. The real clock, `toDateString`, `toLocaleDateString` and
  the calendar's `dayOf` are parameters.
- NotesView.HandleDrop: states only that, with distinct ids, each note is
  unchanged or stamped now. The drop is modelled as sequential `updateNote`
  calls. React's stale closure, where each call maps the same captured
  notes, is not modelled, so the model claims nothing about which notes end
  up stamped.
- The drops of the other views are modelled the same way, as sequential
  updates; React state batching and re-rendering are not modelled.
- `navigateMonth` (src/components/Calendar.tsx:37-47) is not modelled.
  `setMonth` overflows at the end of a month, and the date library is outside
  the model.
- Settings, the theme, the sidebar and the app shell are presentation or
  browser I/O, and are not part of this model.
- Floating point is left out. Prices are integers for the revenue sum;
  `totalExpenses` (0.7 times revenue), `parseFloat` and `toFixed` are not
  modelled.
- The edit handlers `handleUpdateNote` (src/components/Notes.tsx:60-65) and
  `handleUpdateReminder` (src/components/Reminders.tsx:47-52) are not
  modelled. Each is a blank-title guard around a single `update*` call,
  which `DataContext.DataProvider.UpdateNote` and
  `DataContext.DataProvider.UpdateReminder` cover.
- `window.confirm` before deletes, `prompt` for links and the DOM drag events
  are user interaction ahead of the modelled calls. Their answers are
  parameters.
- NoteLinks.RenderContentWithLinks: returns the segment list even when it is
  empty. The source returns the content string itself in that case, which is
  the empty string.
- JSX rendering, CSS classes other than the size classes, and icons are not
  modelled.
