# Kanban and calendar task lists

A model of the client-side task-list handling of a task-management web app's
dashboard. The app keeps the signed-in user's tasks in a React component's state
and shows them in two views:

- the **kanban board** (`app/dashboard/kanban.tsx`): three columns `todo`,
  `doing` and `done`, a column cursor with left and right arrows, move and
  delete buttons on every task, an add form with a title draft and a date
  draft, and a pie chart that counts the tasks of each status;
- the **calendar** (`app/dashboard/calendar.tsx`): one event per task with a
  due date, and a handler that adds a task for a selected slot after
  prompting for its title.

Modules:

- `Text` (text.dfy): JavaScript's `String.prototype.trim`, over the ECMAScript
  whitespace and line-terminator code points.
- `Seqs` (seqs.dfy): `filter` and `map` on sequences, and the subsequence
  relation that says a filter keeps order.
- `Store` (store.dfy): the remote `tasks` table as the views see it. This covers
  the three-valued status, the inserted row, the store's replies, the writes
  the handlers send, and the two reply-handling idioms `[...tasks, data[0]]`
  and `data || []`.
- `Kanban` (kanban.dfy): the board's `Task` record and `columns` table. The
  list transformations (`map` for a move, `filter` for a delete and for the
  visible column, the filter-length pie counts) are functions with lemmas. The
  cursor clamp and the move buttons are functions too. The component's state
  is the class `Board`: fields for `tasks`, `user`, the two drafts, `loading`
  and `currentColumn`, and one method per handler.
- `Calendar` (calendar.dfy): the calendar's own `Task` type (id, title, due
  date), the `events` projection and its lemmas, and the class `View` with the
  fetch and add-from-slot handlers.

The hosted store and the auth service are not modelled. A handler receives the
store's reply as a parameter: a function from request to reply for `select`
and `insert`, and an `Outcome` value for `update` and `delete`. It returns the
request it sent, if any. `update` and `delete` take their `Outcome` and never
look at it, which is what the source does. Each handler is one sequential step
on the current list.

A move or delete awaits the store call, never reads its reply, and patches the
list whatever the reply (`kanban.tsx:57-65`). `Board.MoveTask` and
`Board.DeleteTask` take the reply and ignore it.

No button ever moves a task to `doing`. New tasks are created as `todo`, and the
move buttons offer only `todo` and `done` (`kanban.tsx:136-145`). So the board
cannot put a task into the "En progreso" column; `MoveTargets` proves this.

The board renders no task while `loading` is true (`kanban.tsx:122`). Without a
signed-in user the mount effect never fetches, so `loading` stays true and the
board shows only its loading message. `Board.Shown` and `Board.Mount` state both
halves of this.

## Model

| member | source | states |
|---|---|---|
| `Kanban.ColumnOf` | app/dashboard/kanban.tsx:24-28 | every status has exactly one column in the `columns` table |
| `Kanban.SetStatus` | app/dashboard/kanban.tsx:59 | a move keeps the length and the ids in order; tasks with the id get the new status and keep title, due date and owner; every other task is unchanged |
| `Kanban.MoveTwice` | app/dashboard/kanban.tsx:57-60 | of two moves of the same id, the later one decides the list |
| `Kanban.MovedTaskChangesColumn` | app/dashboard/kanban.tsx:59 | after a move every task with the id appears in the target column and no task with the id is left in any other column |
| `Kanban.WithoutId` | app/dashboard/kanban.tsx:64 | after a delete no task with that id remains, and the list is no longer |
| `Kanban.DeleteKeepsOthers` | app/dashboard/kanban.tsx:62-65 | a delete keeps exactly the tasks with another id, in their original relative order |
| `Kanban.DeleteLength` | app/dashboard/kanban.tsx:64 | a delete shortens the list by exactly the number of tasks carrying the id |
| `Kanban.OfStatus` | app/dashboard/kanban.tsx:68-70 | a status filter holds only tasks of that status and is no longer than the list |
| `Kanban.Visible` | app/dashboard/kanban.tsx:126 | the column filter holds only tasks of the column's status and is no longer than the list |
| `Kanban.VisibleExactly` | app/dashboard/kanban.tsx:125-126 | the column filter is exactly the tasks whose status is the column's key, in list order |
| `Kanban.PieData` | app/dashboard/kanban.tsx:67-71 | three slices, one per column in column order, named by the column titles |
| `Kanban.CountIsMultiplicity` | app/dashboard/kanban.tsx:68-70 | each filter-length count is the number of tasks with that status |
| `Kanban.CountsSum` | app/dashboard/kanban.tsx:67-71 | the three status counts add up to the list length because status has exactly three values |
| `Kanban.PieCounts` | app/dashboard/kanban.tsx:67-71 | each pie value counts its column's status and the three values sum to the number of tasks |
| `Kanban.MovePreservesTotal` | app/dashboard/kanban.tsx:57-60 | after a move the pie values still sum to the number of tasks |
| `Kanban.Prev` | app/dashboard/kanban.tsx:105 | the left step stays in [0, 2], stays at 0, and otherwise moves exactly one column left |
| `Kanban.Next` | app/dashboard/kanban.tsx:115 | the right step stays in [0, 2], stays at 2, and otherwise moves exactly one column right |
| `Kanban.PrevEnabled` | app/dashboard/kanban.tsx:104 | the left arrow is disabled exactly where clicking it would not move the cursor |
| `Kanban.NextEnabled` | app/dashboard/kanban.tsx:114 | the right arrow is disabled exactly where clicking it would not move the cursor |
| `Kanban.CursorSteps` | app/dashboard/kanban.tsx:104-115 | an arrow is enabled exactly when its step moves the cursor, and a step one way is undone by a step the other way |
| `Kanban.MoveTargets` | app/dashboard/kanban.tsx:136-145 | a column offers `todo` and `done` except itself: only `done` from `todo`, only `todo` from `done`, both from `doing` |
| `Kanban.MoveLeavesColumn` | app/dashboard/kanban.tsx:125-145 | a move button on a shown task never targets the task's current status |
| `Kanban.DraftRow` | app/dashboard/kanban.tsx:47-50 | no insert when the draft title is blank or nobody is signed in; otherwise the row has the trimmed non-empty title, the user's id, status `todo`, and the draft date, or no date when the draft date is empty |
| `Kanban.Board.constructor` | app/dashboard/kanban.tsx:17-22 | the initial state: no tasks, no user, empty drafts, loading, first column |
| `Kanban.Board.Current` | app/dashboard/kanban.tsx:73 | the current column is the table entry under the cursor, and its status maps back to the cursor |
| `Kanban.Board.Shown` | app/dashboard/kanban.tsx:122-126 | no task while loading; otherwise exactly the tasks of the current column, in list order |
| `Kanban.Board.Mount` | app/dashboard/kanban.tsx:30-37 | with a signed-in user, stores it and fetches that user's tasks; without one, changes nothing |
| `Kanban.Board.FetchTasks` | app/dashboard/kanban.tsx:39-44 | the list becomes the rows the store returns for the user, or empty on no data, and loading ends |
| `Kanban.Board.EditTitle` | app/dashboard/kanban.tsx:83 | the title draft becomes the typed value |
| `Kanban.Board.EditDate` | app/dashboard/kanban.tsx:89 | the date draft becomes the picked value |
| `Kanban.Board.AddTask` | app/dashboard/kanban.tsx:46-55 | declines on a blank draft or no user, with nothing sent and nothing changed; otherwise sends the draft row, appends the returned row only when one comes back, and always clears both drafts |
| `Kanban.Board.MoveTask` | app/dashboard/kanban.tsx:57-60 | sends the status update for the id and sets the list to the moved list whatever the reply |
| `Kanban.Board.DeleteTask` | app/dashboard/kanban.tsx:62-65 | sends the delete for the id and sets the list to the filtered list whatever the reply |
| `Kanban.Board.PrevColumn` | app/dashboard/kanban.tsx:103-109 | the left arrow keeps the cursor in range and applies the clamped step |
| `Kanban.Board.NextColumn` | app/dashboard/kanban.tsx:113-119 | the right arrow keeps the cursor in range and applies the clamped step |
| `Store.OrEmpty` | app/dashboard/kanban.tsx:42 | the fetched rows when the store returned some, the empty list when no data came back |
| `Store.Appended` | app/dashboard/kanban.tsx:52 | with a returned row, the old list followed by exactly that row; with none, the old list |
| `Text.Trim` | app/dashboard/kanban.tsx:47 | `trim()` is the contiguous middle of its input left after removing a blank prefix and a blank suffix, and neither of its ends is whitespace |
| `Text.TrimEmptyIffBlank` | app/dashboard/calendar.tsx:50 | a trimmed string is empty exactly when the string is whitespace only |
| `Seqs.Filter` | app/dashboard/kanban.tsx:64 | `filter` keeps only elements that pass and never lengthens the list |
| `Seqs.FilterMember` | app/dashboard/kanban.tsx:126 | an element survives `filter` exactly when it occurs and passes |
| `Seqs.FilterSubsequence` | app/dashboard/kanban.tsx:64 | `filter` keeps the relative order of what it keeps |
| `Seqs.Map` | app/dashboard/kanban.tsx:59 | `map` gives one result per element, position by position |
| `Calendar.HasDate` | app/dashboard/calendar.tsx:77 | a due date is truthy exactly when it is neither null/undefined nor the empty string |
| `Calendar.EventOf` | app/dashboard/calendar.tsx:78-82 | an event carries its task's id and title, and both its start and its end are the task's due date |
| `Calendar.Events` | app/dashboard/calendar.tsx:76-83 | there are never more events than tasks |
| `Calendar.EventsAppend` | app/dashboard/calendar.tsx:76-83 | the events of a list are the events of its parts in order, so list order is kept |
| `Calendar.EventsOne` | app/dashboard/calendar.tsx:77 | one task gives one event when its due date is truthy and none otherwise |
| `Calendar.EventsExactly` | app/dashboard/calendar.tsx:76-83 | every event comes from a dated task of the list and starts when it ends; every dated task has its event |
| `Calendar.EventCount` | app/dashboard/calendar.tsx:76-83 | the number of events is the number of tasks with a truthy due date |
| `Calendar.UndatedDropped` | app/dashboard/calendar.tsx:77 | a task whose due date is null, missing or empty contributes no event wherever it sits |
| `Calendar.PromptedRow` | app/dashboard/calendar.tsx:49-60 | no insert when the prompt is cancelled or blank; otherwise the row has the trimmed non-empty title, the user's id, status `todo`, and the slot's date |
| `Calendar.AddedRowEvents` | app/dashboard/calendar.tsx:70-71 | adding a returned row adds at most its one event, at the end |
| `Calendar.View.constructor` | app/dashboard/calendar.tsx:26-29 | the initial state: no tasks, no user |
| `Calendar.View.Mount` | app/dashboard/calendar.tsx:31-38 | with a signed-in user, stores it and fetches that user's tasks; without one, changes nothing |
| `Calendar.View.FetchTasks` | app/dashboard/calendar.tsx:40-43 | the list becomes the rows the store returns for the user, or empty on no data |
| `Calendar.View.AddTaskFromCalendar` | app/dashboard/calendar.tsx:46-74 | without a user, asks to sign in and changes nothing; on a cancelled or blank prompt, sends nothing; otherwise sends the slot row; on an error the list is unchanged; a returned row is appended at the end |

## Left out

- Calls to the hosted store and auth service (`supabase.from('tasks')`, `auth.getUser`). Their replies are parameters. Nothing checks that `select` really returns only the given user's rows.
- An insert that answers with an empty array is not modelled. `if (data) setTasks([...tasks, data[0]])` would then append `undefined`. The store answers a one-row insert with that row, with no data, or with an error, and those are the three replies modelled.
- Dates: `selectedDate.toISOString()`, `new Date(t.due_date!)` and the prompt's `toLocaleDateString()`. A due date is an uninterpreted string, and so is a slot's date. An event's start and end are that string, not a parsed date.
- The calendar's `view` and `date` state and its `onView`, `onNavigate` and `onSelectEvent` callbacks. These are widget navigation and an alert with no effect on the list.
- `console.error`, the alert texts and the prompt text. The alerts are reduced to the `Notice` value that says which one shows.
- Rendering, animation, the pie chart's colours and layout, the loading message, and CSS classes.
- The other files of the app: the dashboard page, login, signup, profile and the layout. They are routing, session and markup glue.
- Interleaving of asynchronous handlers. The real handlers read `tasks` from a closure captured before `await`, so two overlapping handlers can lose an update. Each handler here is one atomic step on the current list.
