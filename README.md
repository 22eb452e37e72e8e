# Checklist stores, modelled and verified in Dafny

The repository holds two small checklist applications, and this project models the state-changing core of both.

**The desktop checklist store (`app.py`, class `ChecklistApp`).** The state is a dictionary from checklist name to a record holding `daily_refresh`, `last_refresh` and a list of tasks (`text`, `done`).
- `DesktopSpec` gives the record types and, as pure functions, what each handler does to one list or to the dictionary: flip, set text, remove at an index, mark all done or not done, rename, and the daily refresh applied when the data is loaded. It also proves their properties: involution, idempotence, inverses and "nothing else changes".
- `DesktopApp` holds the class `ChecklistApp`. Its field `checklists` is the dictionary, and one method per handler changes it in place. Each method's `ensures` states the whole new dictionary and, where the handler reports one, the outcome: changed, silently unchanged, a warning, or `KeyMissing` (the `KeyError` of a selection that names a deleted checklist, which tkinter reports and swallows).
- The loops of `load_data`, `refresh_checklist` and `complete_all_tasks` are methods with loop invariants: `LoadData` and `MarkAll`.
- What the tkinter dialogs supply is a parameter: the dialog answer is an `Option<string>`, the combobox selection is a string, and the delete confirmation is a boolean. The date is a parameter `today`.

**The per-user call-checklist task store (`your_project/app.py`).** The state is the `Task` table: id, owner, call type, checklist type, text, done, optional parent id. The table also carries the id the database assigns next.
- `Templates` holds the constant catalogue (`DEFAULT_TASKS`, `DEFAULT_OBJECTION_SUBTASKS`).
- `TaskTable` states, as functions on `Table(rows, nextId)`, what `populate_default_tasks` and each route do. It also states the table invariant `WellFormed`:
  - ids are unique, ascending and below the counter;
  - every subtask has an older parent in the same user's checklist.
- `TaskFacts` proves three groups of facts about those functions: every route keeps the invariant, the seeding and objection rules, and the ownership, toggle, edit, delete and new-call properties.
- `TaskStore` holds the class `TaskStore`, with fields `rows` and `nextId`. Its route methods change the table one added or deleted row at a time. Each is proved to keep `Valid()` and to end in exactly the state the matching `TaskTable` function gives.
- The logged-in user is a parameter `user`. A posted form field is a string, and `edit_task`'s GET is `None`.

`Strings` models Python's `str.strip()` with its Unicode white-space set, and `str.lower()` on ASCII letters.

In three places the code of the web application does less than a user of its routes would expect. The model follows the code:
- The objection task and its four subtasks are appended on every `populate_default_tasks` for a lower-cased sales or support "start call", not only when the checklist was just seeded. So every visit to such a checklist adds one more "Objection" task (`PopulateAgain`).
- `delete_task` removes the task and its direct subtasks only, and it does not recurse. One might expect the listing to shrink by exactly one task. That holds when no subtask of the deleted task has subtasks (`DeleteTopLevelListing`). A deeper row arises when a subtask is edited to read "Objection" and then toggled with `toggle_task`. Such a row survives with its parent cleared and is listed as a new top-level task, so the listing does not shrink. With the four objection subtasks it grows by three. In the three-row example of `DeletePromotesGrandchildren` it keeps its length.
- In `toggle_task` the `else` belongs to the objection test, not to the test for missing subtasks. An objection task that already has subtasks is therefore never flipped (`ToggleObjectionWithSubtasks`).

`toggle_subtask` commits the flip and only then looks up the parent, and it fails when there is none. The model keeps the committed flip and reports the failure as the result `parentMissing`. It does not exclude parentless rows by a precondition.

## Model

| member | source | states |
|---|---|---|
| DesktopSpec.NewChecklist | app.py:175-179 | a new checklist has `daily_refresh` false, no tasks and `last_refresh` today |
| DesktopSpec.WithAllDone | app.py:327-328 | every task gets `done` = v, texts and count unchanged (the same loop with `True` is at app.py:340-341) |
| DesktopSpec.WithAllDoneIdempotent | app.py:320-344 | refreshing or completing a checklist twice equals doing it once |
| DesktopSpec.Flip | app.py:239-240 | task i's `done` is negated; its text, the length and every other task are unchanged |
| DesktopSpec.FlipTwice | app.py:239-240 | toggling the same task twice restores the list |
| DesktopSpec.SetText | app.py:304-307 | task i's text is replaced and its `done` kept; every other task is unchanged |
| DesktopSpec.SetTextBack | app.py:303-309 | editing a task and then typing its old text back restores the list |
| DesktopSpec.RemoveAt | app.py:312 | exactly element i is removed: one shorter, the tasks before i in place, the later ones shifted down by one |
| DesktopSpec.RemoveAppended | app.py:223-237 | deleting the task just added by `add_task` restores the list |
| DesktopSpec.Renamed | app.py:195 | the old name is gone, the new name holds the identical record, other entries are unchanged, the count is unchanged |
| DesktopSpec.RenameBack | app.py:184-197 | renaming a checklist and renaming it back restores the dictionary |
| DesktopSpec.CreateThenDelete | app.py:167-209 | creating a checklist under a fresh name and deleting it restores the dictionary |
| DesktopSpec.DailyRefreshEffect | app.py:154-159 | the refresh keeps the names; a due checklist has every task not done, `last_refresh` today and its `daily_refresh` flag kept; any other is unchanged |
| DesktopSpec.DailyRefreshIdempotent | app.py:154-159 | the refresh applied twice on the same day equals once |
| DesktopApp.MarkAll | app.py:340-341 | the loop that sets `done` task by task yields `WithAllDone` |
| DesktopApp.LoadData | app.py:150-161 | no data file gives `{}`; otherwise the loaded dictionary with the daily refresh applied to each due checklist |
| DesktopApp.ChecklistApp.constructor | app.py:150-161 | the app starts with the loaded, refreshed dictionary |
| DesktopApp.ChecklistApp.CreateChecklist | app.py:167-181 | an empty or cancelled name changes nothing; an existing name warns and changes nothing; otherwise exactly one key is added, holding the new record |
| DesktopApp.ChecklistApp.EditChecklist | app.py:184-197 | no selection warns; a cancelled, empty or identical name changes nothing; a taken name warns; a selection no longer in the dictionary raises `KeyError` (`KeyMissing`) and changes nothing; otherwise the checklist is renamed and the count kept |
| DesktopApp.ChecklistApp.DeleteChecklist | app.py:199-209 | no selection warns; no confirmation changes nothing; a confirmed selection no longer in the dictionary raises `KeyError` and changes nothing; otherwise exactly the selected key is removed |
| DesktopApp.ChecklistApp.AddTask | app.py:223-237 | text that strips to "" warns first, then no selection warns, then a selection no longer in the dictionary raises `KeyError` and changes nothing; otherwise the selected list gains one last task, holding the stripped text and not done |
| DesktopApp.ChecklistApp.ToggleTask | app.py:239-242 | only the given task of the given checklist is flipped |
| DesktopApp.ChecklistApp.EditTask | app.py:303-309 | a cancel changes nothing; any other answer, even "" or padded, becomes the task's text as typed |
| DesktopApp.ChecklistApp.DeleteTask | app.py:311-314 | only the given task of the given checklist is removed |
| DesktopApp.ChecklistApp.RefreshChecklist | app.py:320-331 | no selection warns; a selection no longer in the dictionary raises `KeyError` and changes nothing; otherwise every task of the selected checklist only is set not done |
| DesktopApp.ChecklistApp.CompleteAllTasks | app.py:333-344 | no selection warns; a selection no longer in the dictionary raises `KeyError` and changes nothing; otherwise every task of the selected checklist only is set done |
| Strings.SkipLeft | your_project/app.py:267 | the first index that is not white space; everything skipped is white space |
| Strings.SkipRight | your_project/app.py:267 | the end once trailing white space is dropped; everything dropped is white space |
| Strings.Strip | your_project/app.py:267 | the result is a slice of the input, everything cut off on either side is white space, and neither end of the result is white space |
| Strings.StripEmptyIff | your_project/app.py:267-268 | `strip()` gives "" exactly when the text is all white space |
| Strings.StripIdempotent | app.py:224 | a fact for the reader, not a promise of the code: stripping twice equals stripping once, so the stored stripped text is already in the form `strip()` gives |
| Templates.DefaultTasksCatalogue | your_project/app.py:124-137 | every voicemail pair gives Purpose, Call to Action, Timeframe; every known start call gives at least seven labels; an unknown pair gives none |
| Templates.StartTemplatesHoldObjection | your_project/app.py:64-74 | the sales, support and at-risk start-call templates already hold "Objection" as their fifth label |
| TaskTable.FilterMembers | your_project/app.py:150-152 | a query returns exactly the rows that match it |
| TaskTable.IndexOf | your_project/app.py:225 | `get_or_404`: the position of the row with that id, the first one; None exactly when no row has it |
| TaskTable.AccessTo | your_project/app.py:225-228 | NotFound exactly when no row has the id; Granted only when that row belongs to the user |
| TaskTable.NewRowsAt | your_project/app.py:155-163 | the k-th inserted row has id first + k, the k-th label, the given owner, checklist and parent, and is not done |
| TaskTable.Detach | your_project/app.py:291-295 | rows left behind by a deletion keep everything but lose a parent id that was deleted |
| TaskTable.Toggled | your_project/app.py:225-228 | a missing or foreign task leaves the table unchanged |
| TaskTable.SubtaskToggled | your_project/app.py:254-258 | a missing or foreign row leaves the table unchanged; the counter and the row count never change |
| TaskTable.WithTaskAdded | your_project/app.py:267-279 | all-white-space text changes nothing; other text adds one top-level row, owned by the user, holding the stripped text, not done, under the next id, and the counter moves on by one |
| TaskTable.Edited | your_project/app.py:303-315 | a missing or foreign task, a GET or all-white-space text changes nothing; the counter and the row count never change |
| TaskTable.Deleted | your_project/app.py:287-290 | a missing or foreign task leaves the table unchanged; the counter never changes |
| TaskFacts.FilterConcat | your_project/app.py:213-218 | querying a concatenation queries each part |
| TaskFacts.FilterAscending | your_project/app.py:218 | a query keeps id order |
| TaskFacts.FilterUniform | your_project/app.py:213-218 | a query that every row answers alike returns all rows or none |
| TaskFacts.FilterSplit | your_project/app.py:291-295 | a query splits the rows into kept and removed, losing none |
| TaskFacts.FilterOfThree | your_project/app.py:213-218 | querying three concatenated parts queries each part |
| TaskFacts.IndexOfRow | your_project/app.py:225 | in an id-ordered table, a row's id finds exactly that row |
| TaskFacts.SameIdSameRow | your_project/app.py:40 | proof helper for the primary key `id`: under ascending ids, two rows with one id are one row |
| TaskFacts.InsertWellFormed | your_project/app.py:155-164 | inserting rows whose parent, if any, is an existing row of the same checklist keeps the invariant |
| TaskFacts.UpdateWellFormed | your_project/app.py:246-247 | replacing a row by one with the same id, parent and checklist keeps the invariant |
| TaskFacts.UpdateKeepsParent | your_project/app.py:309-311 | after such a replacement every subtask still finds its parent |
| TaskFacts.DeleteWellFormed | your_project/app.py:291-295 | deleting rows, with the parents of survivors cleared, keeps the invariant |
| TaskFacts.DeleteKeepsOrder | your_project/app.py:291-295 | the rows left keep ascending ids below the counter |
| TaskFacts.DeleteKeepsParent | your_project/app.py:291-295 | a row left that keeps a parent id still finds that parent |
| TaskFacts.PopulatedWellFormed | your_project/app.py:148-191 | `populate_default_tasks` keeps the invariant |
| TaskFacts.PopulatedWithWellFormed | your_project/app.py:148-191 | the same for any template and either outcome of the objection test |
| TaskFacts.ToggledWellFormed | your_project/app.py:222-248 | `toggle_task` keeps the invariant |
| TaskFacts.SubtaskToggledWellFormed | your_project/app.py:251-261 | `toggle_subtask` keeps the invariant |
| TaskFacts.WithTaskAddedWellFormed | your_project/app.py:264-281 | `add_task` keeps the invariant |
| TaskFacts.EditedWellFormed | your_project/app.py:300-316 | `edit_task` keeps the invariant |
| TaskFacts.DeletedWellFormed | your_project/app.py:284-297 | `delete_task` keeps the invariant |
| TaskFacts.ResetWellFormed | your_project/app.py:319-332 | `new_call` keeps the invariant |
| TaskFacts.PopulateOnlyAppends | your_project/app.py:148-191 | populating never changes an existing row; it only appends, one id per row |
| TaskFacts.PopulateFresh | your_project/app.py:150-191 | with no top-level task in the checklist, the template labels are appended in order as not-done top-level rows; for a sales or support start call they are followed by "Objection" and its four subtasks |
| TaskFacts.PopulateWithFresh | your_project/app.py:150-191 | the same for any template and either outcome of the objection test |
| TaskFacts.SeedAndObjection | your_project/app.py:153-191 | seeding then the objection part gives the template rows, "Objection", then its four subtasks, with consecutive ids |
| TaskFacts.SeedThenObjection | your_project/app.py:155-174 | the template rows followed by the "Objection" row are the template with "Objection" appended |
| TaskFacts.PopulateAgain | your_project/app.py:150-191 | with a top-level task present, nothing is seeded; a sales or support start call still gains one more "Objection" and four subtasks; any other checklist is unchanged |
| TaskFacts.PopulateTwiceNoOp | your_project/app.py:150-164 | outside sales and support start calls, a second populate adds nothing |
| TaskFacts.NoSubtasksOfUnassigned | your_project/app.py:178-187 | no row hangs under an id not yet assigned |
| TaskFacts.ObjectionBatchListing | your_project/app.py:211-218 | after a fresh seed with objection, the listing is exactly the top-level batch |
| TaskFacts.ObjectionBatchSubtasks | your_project/app.py:178-187 | the new "Objection" task's subtasks are exactly the second batch |
| TaskFacts.PopulateFreshObjection | your_project/app.py:167-191 | on a first visit to a sales or support start call, the listing is the template plus "Objection", and that task holds exactly the four objection subtasks |
| TaskFacts.PopulateWithObjectionListing | your_project/app.py:167-191 | the listing half of the above, for any template |
| TaskFacts.PopulateWithObjectionSubtasks | your_project/app.py:167-191 | the subtask half of the above, for any template |
| TaskFacts.SalesStartCall | your_project/app.py:124-126 | the sales start-call template has nine labels and passes the lower-cased objection test |
| TaskFacts.FreshSalesStartCall | your_project/app.py:148-191 | a fresh sales start call has 14 rows and two top-level "Objection" tasks; only the second has the four subtasks |
| TaskFacts.SalesBatchShape | your_project/app.py:64-74 | the rows of a fresh sales start call are laid out with the objection tasks at positions 4 and 9 |
| TaskFacts.ToggleOrdinary | your_project/app.py:245-247 | toggling a task that is not an objection task flips its `done` only |
| TaskFacts.ToggleTwice | your_project/app.py:245-247 | toggling such a task twice restores the table |
| TaskFacts.ToggleObjectionExpands | your_project/app.py:230-243 | the first toggle of an objection task without subtasks appends exactly the four subtasks under it, keeps its `done`, and a second toggle changes nothing |
| TaskFacts.ToggleObjectionWithSubtasks | your_project/app.py:230-245 | an objection task that has subtasks is never flipped |
| TaskFacts.SubtaskToggleFlips | your_project/app.py:259 | `toggle_subtask` by the owner flips that row's `done` only |
| TaskFacts.AddThenDelete | your_project/app.py:264-297 | deleting the task just added restores the rows |
| TaskFacts.DeleteNewest | your_project/app.py:291-295 | deleting the family of a just-appended top-level row removes that row only |
| TaskFacts.IdsOfOne | your_project/app.py:40 | proof helper for the primary key `id`: the ids of a one-row table are that row's id |
| TaskFacts.DetachNothing | your_project/app.py:291-295 | proof helper for the ORM's parent clearing: it changes nothing when no row hangs under a deleted id |
| TaskFacts.NoneOfFamilyUnassigned | your_project/app.py:40 | proof helper for the primary key `id`: in a well-formed table no row has, or hangs under, the id the next insert receives |
| TaskFacts.EditAccepted | your_project/app.py:308-311 | accepted text replaces the owner's task text with the stripped text, nothing else |
| TaskFacts.FamilyCount | your_project/app.py:291-294 | a family deletion selects the task and its direct subtasks |
| TaskFacts.DeleteFamilyCount | your_project/app.py:291-295 | deleting a task with N subtasks removes N + 1 rows |
| TaskFacts.DetachKeepsIds | your_project/app.py:291-295 | clearing parents does not change the set of ids |
| TaskFacts.DeleteFamilyIds | your_project/app.py:291-295 | the ids left are the old ids minus the task's own and its direct subtasks' |
| TaskFacts.DeleteWithoutGrandchildren | your_project/app.py:291-295 | when nothing hangs under a deleted subtask, the rows left are the other rows unchanged and in order |
| TaskFacts.FilterCommute | your_project/app.py:213-218 | proof helper for the listing query: two filters give the same rows in either order |
| TaskFacts.DeleteTopLevelListing | your_project/app.py:284-297 | deleting an owned top-level task none of whose subtasks has subtasks shortens its checklist's listing by exactly that task, the rest in order |
| TaskFacts.PromotionExampleWellFormed | your_project/app.py:222-316 | the three-row example (an objection task, a subtask edited to "Objection" and toggled, and the subtask that toggle added) satisfies the table invariant |
| TaskFacts.PromotionExampleFamily | your_project/app.py:291-294 | in the example, task 1's family is its first two rows and only the third row survives the filter |
| TaskFacts.PromotionExampleDeleted | your_project/app.py:284-297 | deleting task 1 of the example leaves only the grandchild, with its parent id cleared |
| TaskFacts.DeletePromotesGrandchildren | your_project/app.py:284-297 | in the example, the listing has one task before and one task after deleting its only listed task: the grandchild is promoted |
| TaskFacts.DeleteChecklistDetachesNothing | your_project/app.py:323-326 | deleting a whole checklist detaches no surviving row |
| TaskFacts.PopulatedAddsToChecklist | your_project/app.py:155-187 | every row populate adds belongs to that user's checklist |
| TaskFacts.InsertAppends | your_project/app.py:155-164 | inserting after existing rows adds what inserting into an empty table adds |
| TaskFacts.PopulateIgnoresOtherRows | your_project/app.py:148-191 | on a checklist without a top-level task, what populate adds does not depend on the rows already there |
| TaskFacts.NewCallResets | your_project/app.py:323-329 | after `new_call` the checklist's rows are exactly a fresh seed, and all other rows are untouched |
| TaskStore.Partition | your_project/app.py:291-294 | the loop splits the rows into the kept and the deleted, each in id order |
| TaskStore.ClearParents | your_project/app.py:295 | the loop clears the parent id of every row left whose parent was deleted |
| TaskStore.TaskStore.constructor | your_project/app.py:39-50 | an empty table whose ids start at 1 is well formed |
| TaskStore.TaskStore.AddRows | your_project/app.py:155-164 | adding rows one by one ends in `Insert` of the old table |
| TaskStore.TaskStore.DeleteRows | your_project/app.py:291-295 | deleting the selected rows ends in `Delete` of the old rows, counter unchanged |
| TaskStore.TaskStore.PopulateDefaultTasks | your_project/app.py:148-191 | keeps the invariant and ends in `Populated` of the old table |
| TaskStore.TaskStore.Checklist | your_project/app.py:209-219 | populates, then returns the user's top-level tasks of the checklist in id order |
| TaskStore.TaskStore.ToggleTask | your_project/app.py:222-248 | reports not found or unauthorized, keeps the invariant and ends in `Toggled` |
| TaskStore.TaskStore.ToggleSubtask | your_project/app.py:251-261 | reports access and, exactly for an owned row without a parent, `parentMissing`; ends in `SubtaskToggled` |
| TaskStore.TaskStore.AddTask | your_project/app.py:264-281 | "Task added" exactly when the text is not all white space; ends in `WithTaskAdded` |
| TaskStore.TaskStore.DeleteTask | your_project/app.py:284-297 | reports access, keeps the invariant and ends in `Deleted` |
| TaskStore.TaskStore.EditTask | your_project/app.py:300-316 | "Task updated" exactly for an owned task, a POST and text that is not all white space; ends in `Edited` |
| TaskStore.TaskStore.NewCall | your_project/app.py:319-332 | keeps the invariant and ends in `ResetForNewCall` |

## Left out

- The tkinter widgets, styling, scrolling and the redrawing in `display_tasks`, `update_checklist_display` and `clear_tasks_display`: these are user interface only.
- Reading and writing the JSON file (`load_data`, `save_data`): the stored dictionary and its absence are the parameter `stored`. Malformed JSON and I/O errors are not modelled.
- `date.today()`: it is the parameter `today`. Dates are compared as strings, as the code compares ISO strings.
- DesktopApp.ChecklistApp.ToggleTask, DesktopApp.ChecklistApp.EditTask, DesktopApp.ChecklistApp.DeleteTask: they require an existing checklist and a valid index. The buttons that call them are built from the current list, so the code's `KeyError` and `IndexError` paths are not modelled.
- The combobox selection may be a name that is no longer in the dictionary: after the last checklist is deleted, the combobox keeps its text. `edit_checklist`, `delete_checklist`, `add_task`, `refresh_checklist` and `complete_all_tasks` then raise `KeyError`, which tkinter reports and swallows. The model returns the outcome `KeyMissing` with the dictionary unchanged and does not model the traceback.
- Python dictionaries keep insertion order, so a renamed checklist moves to the end. The model's `map` has no order, and the combobox sorts names anyway.
- Flask routing, redirects, flash messages, rendered templates, `login_required` and the session mechanics: each route is one atomic change to the table. The current user is the parameter `user`.
- Registration, login, logout and password hashing: these are calls into foreign libraries.
- `created_at` timestamps: listing is by id.
- Ids come from a counter that starts at 1 and never goes back. SQLite may reuse the largest id after that row is deleted. Either way ids ascend in insertion order, and the table lists by id.
- Column lengths (`String(50)`, `String(250)`) are not enforced.
- TaskStore.TaskStore.ToggleSubtask: after the committed flip, the code fails with an exception when the row has no parent. The model returns `parentMissing` instead of raising.
- Strings.Lower: `str.lower()` is modelled on ASCII letters only, which is all the objection test compares against. White space for `strip()` is the full `str.isspace()` set.
