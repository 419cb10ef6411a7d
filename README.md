# Memento pages: task list, diary and dashboard state in Dafny

Memento is a single-page React site. Three of its pages keep a collection in
component state and change it in event handlers:

- the to-do page (`TodoPage.tsx`) holds an ordered list of tasks. It adds a
  task from a form, toggles completion, deletes, edits through an inline editor,
  and shows the list through a status filter and a category filter;
- the diary page (`DiaryPage.tsx`) holds entries, newest first. One form is
  used both to write a new entry and to edit an old one. The form has a tag
  editor (tags are lower-cased, no duplicates). The page also has a search box
  and one expandable entry;
- the dashboard (`Dashboard.tsx`) has its own task list with toggle, add and
  delete, and shows the completed count and the completion percentage.

This project models those three pages:

- `Collections.dfy`: `Array.prototype.filter` as a function, the
  `[...new Set(xs)]` idiom, and the notions used to state properties
  (order-preserving subsequence, no duplicates, distinct keys).
- `Text.dfy`: `trim` (as used for the blank-input test), `toLowerCase` and
  `includes`.
- `Todo.dfy`, `Diary.dfy`, `Dashboard.dfy`: one module per page.
  - Each record shape is a `datatype`.
  - Each `map`/`filter` transform is a function with its properties.
  - Each page is a `class` whose fields are the page's `useState` variables.
  - Each event handler is a method. Its frame names the fields the handler
    sets, and its `ensures` gives the whole new state.

Things the browser supplies are method parameters:

- the new id (`Date.now()`);
- today's date (`format(new Date(), 'yyyy-MM-dd')`);
- the sample data each page starts with.

## Model

| member | source | states |
|---|---|---|
| `Collections.Filter` | src/pages/TodoPage.tsx:76 | `filter` keeps exactly the elements that pass the test, as an order-preserving subsequence, never longer than the input |
| `Collections.FilterKeepsAll` | src/pages/TodoPage.tsx:76 | the filter returns its input unchanged exactly when every element passes, and is strictly shorter otherwise |
| `Collections.FilterMultiplicity` | src/pages/TodoPage.tsx:76 | a passing value is kept as many times as it occurs; a failing value is dropped entirely |
| `Collections.FilterFilter` | src/pages/TodoPage.tsx:97-104 | two filters in a row keep what one filter by both tests keeps |
| `Collections.FilterAppend` | src/pages/DiaryPage.tsx:148 | filtering distributes over concatenation |
| `Collections.Distinct` | src/pages/TodoPage.tsx:106 | `[...new Set(xs)]` has no duplicates, holds exactly the values of `xs`, and orders them by first occurrence |
| `Text.Trim` | src/pages/TodoPage.tsx:54 | `trim()` is empty exactly when the input is all white space (the `IsBlank` test the handlers use); otherwise it starts and ends with a visible character; it always occurs in the input |
| `Text.Lower` | src/pages/DiaryPage.tsx:135 | `toLowerCase()` keeps the length, leaves no upper-case ASCII letter, and changes only upper-case letters (into their lower-case forms) |
| `Text.LowerIdempotent` | src/pages/DiaryPage.tsx:173 | lower-casing twice is the same as lower-casing once |
| `Text.ContainsEmpty` | src/pages/DiaryPage.tsx:175-177 | every string `includes` the empty string |
| `Todo.Toggled` | src/pages/TodoPage.tsx:69-73 | toggling keeps length and order, flips `completed` on exactly the tasks with the id, and leaves every other field unchanged |
| `Todo.ToggledTwice` | src/pages/TodoPage.tsx:69-73 | toggling the same id twice restores the list |
| `Todo.ToggledUnknown` | src/pages/TodoPage.tsx:69-73 | toggling an id no task carries leaves the list unchanged |
| `Todo.WithoutTask` | src/pages/TodoPage.tsx:75-77 | deleting keeps exactly the tasks whose id differs, in order and with all their copies, and no task with the id remains |
| `Todo.WithoutTaskAbsent` | src/pages/TodoPage.tsx:75-77 | deleting leaves the list unchanged exactly when the id is absent, and otherwise shortens it |
| `Todo.Replaced` | src/pages/TodoPage.tsx:87-95 | saving an edit keeps length and order; every task with the edited id becomes the edited copy and all other tasks stay |
| `Todo.ReplacedIdempotent` | src/pages/TodoPage.tsx:87-95 | saving the same edit twice equals saving it once; an edit whose id is absent changes nothing |
| `Todo.UniqueIdsPreserved` | src/pages/TodoPage.tsx:56-92 | if no two tasks share an id, toggle, delete and save-edit keep it that way, and so does add with a fresh id |
| `Todo.FilterTasks` | src/pages/TodoPage.tsx:97-104 | a task is shown exactly when it passes the status test ('completed', 'active', anything else = no restriction) and the category test ('all' or exact equality); a shown task appears as often as in the list |
| `Todo.FilterTasksOrder` | src/pages/TodoPage.tsx:97-104 | the shown tasks are an order-preserving subsequence of the list; with status 'all' and category 'all' they are the whole list |
| `Todo.CategoriesOf` | src/pages/TodoPage.tsx:106 | each category that some task carries appears exactly once, in order of the first task that carries it |
| `Todo.TodoPage.constructor` | src/pages/TodoPage.tsx:43-50 | the initial page state: sample tasks, empty title, today's due date, 'medium', 'personal', filters 'all', no editor |
| `Todo.TodoPage.AddTask` | src/pages/TodoPage.tsx:52-67 | a blank title changes nothing. Otherwise one incomplete task (untrimmed title, form's due date, priority and category) is appended and only the title input is cleared |
| `Todo.TodoPage.ToggleTaskCompletion` | src/pages/TodoPage.tsx:69-73 | replaces `tasks` by its toggled form; distinct ids stay distinct |
| `Todo.TodoPage.DeleteTask` | src/pages/TodoPage.tsx:75-77 | replaces `tasks` by the tasks with other ids; distinct ids stay distinct |
| `Todo.TodoPage.StartEditingTask` | src/pages/TodoPage.tsx:79-81 | the editor holds the chosen task |
| `Todo.TodoPage.CancelEditing` | src/pages/TodoPage.tsx:83-85 | the editor is closed |
| `Todo.TodoPage.SaveEditedTask` | src/pages/TodoPage.tsx:87-95 | with no editor open nothing changes. Otherwise the edited copy replaces the tasks carrying its id. Either way the editor ends closed |
| `Todo.TodoPage.FilteredTasks` | src/pages/TodoPage.tsx:97-104 | the displayed tasks are an order-preserving subsequence of `tasks`, holding exactly those passing both filters, each as often as in `tasks` |
| `Todo.TodoPage.Categories` | src/pages/TodoPage.tsx:106 | the sidebar's category buttons are the tasks' categories, without duplicates |
| `Diary.ToggledExpansion` | src/pages/DiaryPage.tsx:79-81 | after `toggleExpand(id)` the entry `id` is expanded exactly when it was not; otherwise nothing is |
| `Diary.ToggledExpansionTwice` | src/pages/DiaryPage.tsx:79-81 | toggling the same id twice restores the previous value exactly when that was "none" or this id; if another entry was expanded, the result is "none" |
| `Diary.Edited` | src/pages/DiaryPage.tsx:105-115 | saving an edit keeps length and order; entries with the id keep it and take every other field from the form; the rest are untouched |
| `Diary.EditedProperties` | src/pages/DiaryPage.tsx:105-115 | saving an edit is idempotent, a no-op for an absent id, and never changes an id |
| `Diary.WithoutEntry` | src/pages/DiaryPage.tsx:127-129 | deleting keeps exactly the entries with other ids, in order and with all their copies |
| `Diary.WithoutEntryAbsent` | src/pages/DiaryPage.tsx:127-129 | deleting leaves the entries unchanged exactly when the id is absent |
| `Diary.WithTag` | src/pages/DiaryPage.tsx:131-143 | a blank or already-present tag leaves the list unchanged. Otherwise the lower-cased tag ends up in the list. Earlier tags keep their places, at most one tag is added, and a duplicate-free list stays duplicate-free |
| `Diary.WithoutTag` | src/pages/DiaryPage.tsx:145-150 | removing a tag drops every copy of it and keeps every copy of the others, in order; a duplicate-free list stays duplicate-free |
| `Diary.WithoutTagAbsent` | src/pages/DiaryPage.tsx:145-150 | removing a tag leaves the list unchanged exactly when the tag is absent |
| `Diary.WithTagThenWithoutTag` | src/pages/DiaryPage.tsx:131-150 | removing a tag that was just added (and not present before) restores the tag list |
| `Diary.SearchEntries` | src/pages/DiaryPage.tsx:172-179 | the search result is an order-preserving subsequence. It holds exactly the entries whose lower-cased title or content, or one of whose stored tags, contains the lower-cased term, each as often as in the diary |
| `Diary.SearchProperties` | src/pages/DiaryPage.tsx:172-179 | an empty term keeps every entry; an empty diary yields nothing; the term's case does not matter |
| `Diary.DiaryPage.constructor` | src/pages/DiaryPage.tsx:65-77 | the initial page state: sample entries, form closed and blank, no tag input, no search, nothing expanded or edited |
| `Diary.DiaryPage.ToggleExpand` | src/pages/DiaryPage.tsx:79-81 | `expandedEntryId` becomes its toggled value |
| `Diary.DiaryPage.StartEditing` | src/pages/DiaryPage.tsx:83-92 | the entry's id is marked as being edited and its fields are loaded into the form |
| `Diary.DiaryPage.CancelEditing` | src/pages/DiaryPage.tsx:94-103 | no entry is being edited and the form is reset |
| `Diary.DiaryPage.SaveEditedEntry` | src/pages/DiaryPage.tsx:105-125 | the form is written over the entries with the id (no blank check), then the editor closes and the form is reset; duplicate-free tags stay so |
| `Diary.DiaryPage.DeleteEntry` | src/pages/DiaryPage.tsx:127-129 | `entries` becomes the entries with other ids |
| `Diary.DiaryPage.AddTag` | src/pages/DiaryPage.tsx:131-143 | a blank input changes neither the tags nor the input. Otherwise the tags become `WithTag` of the old ones and the input is cleared. A duplicate-free tag list stays duplicate-free |
| `Diary.DiaryPage.RemoveTag` | src/pages/DiaryPage.tsx:145-150 | the form's tags lose every copy of the tag; the other form fields are unchanged; a duplicate-free tag list stays duplicate-free |
| `Diary.StoredTagsDistinctPrepend` | src/pages/DiaryPage.tsx:156-161 | putting a new entry with a duplicate-free tag list in front keeps every stored tag list duplicate-free |
| `Diary.DiaryPage.SaveNewEntry` | src/pages/DiaryPage.tsx:152-170 | a blank title or content changes nothing. Otherwise one entry built from the form is put first, the old entries follow unchanged, the form is reset and closed |
| `Diary.DiaryPage.FilteredEntries` | src/pages/DiaryPage.tsx:172-179 | the listed entries are an order-preserving subsequence of `entries`: exactly the matching ones, each as often as in `entries` |
| `Dashboard.CompletedCount` | src/pages/Dashboard.tsx:39 | `completedTasks` is at most the number of tasks; it is zero exactly when none is completed and equals the total exactly when all are |
| `Dashboard.CompletedCountAppend` | src/pages/Dashboard.tsx:39 | appending a task raises the count by one if it is completed and by nothing otherwise |
| `Dashboard.CompletionRate` | src/pages/Dashboard.tsx:41 | the rate is 0 without tasks. Otherwise it lies in 0..100, is 0 when none is done and 100 when all are, and is within one half of the exact percentage |
| `Dashboard.RateBounds` | src/pages/Dashboard.tsx:41 | rounding `100 * c / t` half up stays in 0..100, hits both endpoints, and is off by at most one half |
| `Dashboard.Toggled` | src/pages/Dashboard.tsx:43-47 | toggling keeps length and order and flips `completed` on exactly the tasks with the id; other fields are unchanged |
| `Dashboard.ToggledTwice` | src/pages/Dashboard.tsx:43-47 | toggling twice restores the list; toggling an unknown id changes nothing |
| `Dashboard.WithoutTask` | src/pages/Dashboard.tsx:64-66 | deleting keeps exactly the tasks with other ids, in order and with all their copies |
| `Dashboard.WithoutTaskAbsent` | src/pages/Dashboard.tsx:64-66 | deleting leaves the list unchanged exactly when the id is absent |
| `Dashboard.DashboardPage.constructor` | src/pages/Dashboard.tsx:31-34 | the initial state: sample tasks and entries, empty input |
| `Dashboard.DashboardPage.CompletedTasks` | src/pages/Dashboard.tsx:39-40 | the completed count never exceeds `totalTasks` |
| `Dashboard.DashboardPage.CompletionPercent` | src/pages/Dashboard.tsx:39-41 | the percentage shown lies in 0..100. It is 0 when nothing is complete and 100 when a non-empty list is all complete |
| `Dashboard.DashboardPage.ToggleTaskCompletion` | src/pages/Dashboard.tsx:43-47 | `tasks` becomes its toggled form; `diaryEntries` and `newTask` are outside the frame |
| `Dashboard.DashboardPage.AddTask` | src/pages/Dashboard.tsx:49-62 | a blank title changes nothing. Otherwise one incomplete task due today is appended, the input is cleared, and the completed count is unchanged; `diaryEntries` is outside the frame |
| `Dashboard.DashboardPage.DeleteTask` | src/pages/Dashboard.tsx:64-66 | `tasks` becomes the tasks with other ids; `diaryEntries` is outside the frame |

## Left out

- Rendering is not modelled: JSX, CSS class choice and the framer-motion
  animations. The display lookups `getPriorityColor` and `getMoodEmoji` are out
  too, and so are `LandingPage.tsx` and `NotFound.tsx`, which are static markup.
- The route table in `App.tsx` is a constant handed to react-router, whose
  matching is not part of this model. `Navbar.tsx` (a window scroll listener and
  a menu toggle) is browser plumbing.
- Id generation with `Date.now()` is a method parameter. The code does not
  guarantee unique ids (two adds in the same millisecond collide). So unique ids
  are a hypothesis of `Todo.UniqueIdsPreserved`, never a postcondition.
- Today's date and the sample arrays are parameters. The date-fns
  `format`/`parseISO` display formatting is not modelled.
- The input `onChange` setters are not methods. This covers the task form
  fields, the filter and category buttons, the inline task editor's fields, the
  diary form fields, the search box and the "New Entry" button that flips
  `isWriting`. Each only stores a value in one field, and the model's fields are
  public and assigned directly.
- React's asynchronous batching of `setState` and stale closures are not
  modelled. Each handler is one atomic state step.
- The task page's new tasks take their due date from the form field, which
  starts as today's date. The date is not filled in at submit time.
- Text.Lower: lower-cases ASCII letters only, not the full Unicode mapping of
  `toLowerCase`. Strings are sequences of characters, not UTF-16 code units.
- Text.Trim: white space is the ECMAScript WhiteSpace and LineTerminator set.
  The string is a sequence of characters, not UTF-16 code units.
- Dashboard.CompletionRate: computes `Math.round((c / t) * 100)` exactly, as
  `(200c + t) div 2t` (half rounds up), not in IEEE double arithmetic. The
  floating-point result can differ from it at an exact half. Only the bounds,
  the endpoints and the one-half accuracy are claimed.
- Dashboard.DashboardPage.CompletionPercent: 100 is claimed only when every
  task is complete. The converse does not hold: 999 of 1000 also rounds to 100.
