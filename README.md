# TaskFlow board — a Dafny model

TaskFlow is a single-page task board. A page (`src/pages/Home.jsx`) keeps a copy of the task and category lists. It derives the filtered list, the three kanban columns and the header counts from that copy. It calls two in-memory mock stores (`src/services/api/taskService.js`, `src/services/api/categoryService.js`) and reconciles its copy with their replies. A panel component (`src/components/MainFeature.jsx`) adds the add-task form, inline title editing, selection checkboxes, the check button and the due-date badge.

This project models those four files:

- `wrappers.dfy`: `Option` and `Result`.
- `seqs.dfy`: `Array.prototype.filter` and order-preserving subsequences.
- `text.dfy`: `toLowerCase`, `includes` and `trim`.
- `dates.dfy`: the date-fns tests `isToday`, `isTomorrow`, `isThisWeek` and `isPast` over millisecond timestamps and UTC days.
- `records.dfy`: task and category records, patches, and the object spread that applies a patch.
- `tables.dfy`: `findIndex`, `find`, `splice` and `map(r => r.id)`.
- `task_service.dfy`, `category_service.dfy`: the stores, as classes whose list is a `seq` field changed in place.
- `home.dfy`: the page's derivations, the reconciliation rules, the bulk actions, and the page state as a class `Board`.
- `main_feature.dfy`: the panel's pure helpers and its state as a class `Panel`.

The stores' `Date.now()` ids and `toISOString()` timestamps are parameters of the operations, and so is the current time `now`. Ids are never assumed unique. The lemmas that need unique ids say so, and `Home.DuplicateIdsDiverge` shows what goes wrong without them.

The page's handlers catch every store error and give no result. In the model they return `ok` (or the created task), which stands for the toast the page shows.

Where the intended behaviour and the code disagree, the model follows the code:

- **The add form resets after every non-blank submit.** The page's `handleTaskCreate` catches its own errors, so the panel's `catch` never runs.
- **The title editor closes after every edit.** `handleTaskUpdate` swallows the failure (see "## Findings").
- **The page and the store reconcile differently.** The page replaces or removes every task with the id. The store changes only the first one with that id. The two agree only while ids are unique.

## Model

| member | source | states |
|---|---|---|
| Records.MergeTask | src/services/api/taskService.js:39 | `{ ...task, ...updates }` keeps the id and creation time of the stored task (the patch type has no such fields) |
| Records.MergeNoChanges | src/services/api/taskService.js:39 | an empty patch leaves the task unchanged |
| Records.MergeIdempotent | src/services/api/taskService.js:39 | applying the same patch twice equals applying it once |
| Records.MergeTwice | src/services/api/taskService.js:39 | two successive updates equal one update with the combined patch, later fields winning |
| Records.MergeCategory | src/services/api/categoryService.js:39 | a category update keeps the id |
| Records.MergeCategoryIdempotent | src/services/api/categoryService.js:39 | applying a category patch twice equals applying it once |
| Tables.FindIndex | src/services/api/taskService.js:36 | -1 exactly when no record has the id; otherwise the first record with it |
| Tables.Find | src/services/api/taskService.js:19 | `None` exactly when no record has the id; otherwise the first record with it |
| Tables.RemoveAt | src/services/api/taskService.js:48 | `splice(i, 1)`: one element shorter; the elements before `i` are kept and the later ones shift down by one |
| Tables.Keys | src/components/MainFeature.jsx:290 | `map(t => t.id)`: same length, one id per record, in order |
| Tables.FindIndexUnique | src/services/api/taskService.js:36 | with unique ids, the index found is the only index holding that id |
| Tables.RemoveAtIsSubsequence | src/services/api/taskService.js:48 | `splice(i, 1)` leaves the remaining records in their order |
| Seqs.Filter | src/pages/Home.jsx:43 | `filter`: never longer; keeps exactly the elements passing the test |
| Seqs.FilterIsSubsequence | src/pages/Home.jsx:43 | `filter` keeps the list order |
| Seqs.FilterKeepsAll | src/pages/Home.jsx:43 | when every element passes, the filter returns the list itself |
| Seqs.FilterMonotone | src/pages/Home.jsx:152-153 | a weaker test keeps at least as many elements |
| Seqs.FilterDisjoint | src/pages/Home.jsx:154 | two exclusive tests together keep at most the whole list |
| Seqs.FilterAppend | src/pages/Home.jsx:43 | filtering a concatenation is concatenating the filters |
| Seqs.FilterMultiset | src/pages/Home.jsx:94 | `filter` keeps each passing element exactly as often as it occurs and drops every copy of a failing one |
| Seqs.SubsequenceReflexive | src/services/api/taskService.js:45-46 | every list is a subsequence of itself (the case of a failed delete) |
| Seqs.FilterCountsIndices | src/pages/Home.jsx:152-154 | `filter(p).length` is the number of positions whose element satisfies `p` |
| Seqs.FilterSnocLength | src/pages/Home.jsx:152-154 | one more element adds one to the filtered length exactly when it passes the test |
| Seqs.FilterSnoc | src/pages/Home.jsx:152-154 | a list ending in `x` filters to one more element than the list before `x` exactly when `x` passes |
| Seqs.FilterSingleton | src/pages/Home.jsx:43 | a one-element list keeps its element exactly when it passes the test |
| Seqs.IndicesSnocSize | src/pages/Home.jsx:152-154 | one more element adds one matching position exactly when it passes the test |
| Text.Lower | src/pages/Home.jsx:44 | `toLowerCase`: same length, mapped character by character |
| Text.Includes | src/pages/Home.jsx:44-45 | `includes`: a match needs a query no longer than the string, and the empty query always matches (exactly when, by `IncludesIffOccurs`) |
| Text.LowerIdempotent | src/pages/Home.jsx:44 | lower-casing twice equals lower-casing once |
| Text.IncludesIffOccurs | src/pages/Home.jsx:44-45 | `includes` holds if and only if the query occurs at some index |
| Text.IncludesOnlyIfOccurs | src/pages/Home.jsx:44-45 | when `includes` holds, the query occurs at some index |
| Text.OccursOnlyIfIncludes | src/pages/Home.jsx:44-45 | a query occurring at any index makes `includes` hold |
| Text.IncludesEmpty | src/pages/Home.jsx:44 | the empty search is included in every title |
| Text.TrimStart | src/components/MainFeature.jsx:35 | the result is a suffix of the input; what was dropped is all whitespace; the result is empty or starts with a non-whitespace character |
| Text.TrimEnd | src/components/MainFeature.jsx:35 | the result is a prefix of the input; what was dropped is all whitespace; the result is empty or ends with a non-whitespace character |
| Text.Trim | src/components/MainFeature.jsx:35 | `trim()` is a slice of the input with only whitespace on either side, and neither starts nor ends with whitespace |
| Text.TrimmedTwice | src/components/MainFeature.jsx:35 | dropping leading then trailing whitespace leaves a slice of the input framed by whitespace, starting where the first result starts |
| Text.TrimStartEmptyIffBlank | src/components/MainFeature.jsx:35 | stripping leading whitespace leaves nothing if and only if the string is all whitespace |
| Text.TrimEndEmptyOnlyIfBlank | src/components/MainFeature.jsx:35 | stripping trailing whitespace leaves nothing only for all-whitespace strings |
| Text.TrimEmptyIffBlank | src/components/MainFeature.jsx:35 | `!title.trim()` holds if and only if the title is all whitespace (or empty) |
| Dates.DayOfMonotone | src/components/MainFeature.jsx:72-74 | a later instant never falls on an earlier day |
| Dates.TodayIsThisWeek | src/pages/Home.jsx:152-153 | a date today is also a date this week |
| Dates.PastIsNotAfterToday | src/components/MainFeature.jsx:74 | a past instant is on today or an earlier day |
| Dates.TomorrowIsNotPast | src/components/MainFeature.jsx:73-74 | a date tomorrow is never in the past |
| Dates.TodayCanBePast | src/components/MainFeature.jsx:83-84 | an instant earlier today is both today and past |
| TaskService.NewRecord | src/services/api/taskService.js:25-29 | the new record is the input with the assigned id and creation time written over its own |
| TaskService.UpdateFirst | src/services/api/taskService.js:36-39 | same length; only the first task with the id changes, to its merge with the patch; no change when the id is missing |
| TaskService.DeleteFirst | src/services/api/taskService.js:45-48 | with the id present, the tasks before the first one with it are kept in place and the later ones shift down by one (so one shorter, same multiset less that task); otherwise no change |
| TaskService.UpdateFirstKeepsIds | src/services/api/taskService.js:39 | an update never changes which ids the list holds, or their order |
| TaskService.UpdateFirstKeepsIndex | src/services/api/taskService.js:36-39 | the position found for every id survives an update |
| TaskService.SameIdsSameIndex | src/services/api/taskService.js:36 | lists with the same ids position by position give the same `findIndex` |
| TaskService.DeleteFirstIsSubsequence | src/services/api/taskService.js:48 | the remaining tasks keep their relative order |
| TaskService.UpdateKeepsUniqueIds | src/services/api/taskService.js:39 | unique ids stay unique under update |
| TaskService.DeleteKeepsUniqueIds | src/services/api/taskService.js:48 | unique ids stay unique under delete |
| TaskService.CreateKeepsUniqueIds | src/services/api/taskService.js:30 | appending a task with a new id keeps ids unique |
| TaskService.TaskStore.constructor | src/services/api/taskService.js:4-6 | the store starts with a copy of the seed data |
| TaskService.TaskStore.GetAll | src/services/api/taskService.js:12-15 | returns the whole list and changes nothing |
| TaskService.TaskStore.GetById | src/services/api/taskService.js:17-21 | `null` exactly for a missing id; otherwise the first task with it |
| TaskService.TaskStore.Create | src/services/api/taskService.js:23-32 | returns the new record and appends exactly it to the list |
| TaskService.TaskStore.Update | src/services/api/taskService.js:34-41 | fails with "Task not found" exactly for a missing id; the list becomes `UpdateFirst`; on success returns the updated record |
| TaskService.TaskStore.Delete | src/services/api/taskService.js:43-50 | `true` when the id is present, "Task not found" otherwise; the list becomes `DeleteFirst` |
| CategoryService.NewRecord | src/services/api/categoryService.js:25-29 | the new category has the assigned id and a task count of 0, and keeps its name and colour |
| CategoryService.UpdateFirst | src/services/api/categoryService.js:36-39 | only the first category with the id changes, to its merge with the patch |
| CategoryService.DeleteFirst | src/services/api/categoryService.js:45-48 | with the id present, the categories before the first one with it are kept in place and the later ones shift down by one; otherwise no change |
| CategoryService.DeleteFirstIsSubsequence | src/services/api/categoryService.js:48 | the remaining categories keep their relative order |
| CategoryService.UpdateFirstKeepsIds | src/services/api/categoryService.js:39 | an update never changes which ids the list holds |
| CategoryService.CategoryStore.constructor | src/services/api/categoryService.js:4-6 | the store starts with a copy of the seed data |
| CategoryService.CategoryStore.GetAll | src/services/api/categoryService.js:12-15 | returns the whole list and changes nothing |
| CategoryService.CategoryStore.GetById | src/services/api/categoryService.js:17-21 | `null` exactly for a missing id; otherwise the first category with it |
| CategoryService.CategoryStore.Create | src/services/api/categoryService.js:23-32 | returns the new record and appends exactly it |
| CategoryService.CategoryStore.Update | src/services/api/categoryService.js:34-41 | fails with "Category not found" exactly for a missing id; the list becomes `UpdateFirst` |
| CategoryService.CategoryStore.Delete | src/services/api/categoryService.js:43-50 | `true` when the id is present, "Category not found" otherwise; the list becomes `DeleteFirst` |
| Home.FilteredTasks | src/pages/Home.jsx:43-56 | a task is shown if and only if it is in the list and passes search, category and view; every copy of a passing task is kept and list order is kept |
| Home.UndatedTasksOnlyInAllView | src/pages/Home.jsx:49-53 | under the 'today' and 'week' views a task without a due date is hidden |
| Home.InitialFiltersShowEverything | src/pages/Home.jsx:15-17 | with the initial filter state every task is shown, in order |
| Home.SearchIgnoresCase | src/pages/Home.jsx:44-45 | the search result is the same for a query and its lower-cased form |
| Home.TasksByStatus | src/pages/Home.jsx:58-62 | each column holds exactly the filtered tasks of its status, in order |
| Home.ColumnsPartition | src/pages/Home.jsx:58-62 | the columns are disjoint; with the other-status tasks they count every filtered task once |
| Home.ColumnSizes | src/pages/Home.jsx:58-62 | the four status groups' sizes sum to the list length |
| Home.GetCategoryById | src/pages/Home.jsx:147-149 | the fallback is returned exactly for an unknown id, and is named "Uncategorized" with colour #6b7280; otherwise the first category with the id |
| Home.GetTaskCounts | src/pages/Home.jsx:151-157 | today, week and overdue are the numbers of positions holding a task due today, due this week, or dated in the past and not done; total is the list length; today ≤ week ≤ total; overdue and done tasks together are at most the total |
| Home.UndatedTaskCountsOnlyInTotal | src/pages/Home.jsx:152-154 | adding an undated task raises the total and no other count |
| Home.PriorityColor | src/pages/Home.jsx:138-145 | the gray dot is shown if and only if the priority is not high, medium or low |
| Home.CreateRequest | src/pages/Home.jsx:66-70 | the request carries the draft's fields with status 'todo' and no completion time |
| Home.DropPatch | src/pages/Home.jsx:130-133 | the patch sets the target status; it carries a completion time exactly when the target is 'done'; it has no other field |
| Home.DropChangesOnlyStatus | src/pages/Home.jsx:130-133 | a dropped task gets the new status and, only for 'done', the new completion time; every other field is kept |
| Home.DonePatch | src/pages/Home.jsx:105-108 | the bulk completion patch sets status 'done' and the completion time, and nothing else |
| Home.ReplaceById | src/pages/Home.jsx:82-84 | same length; every task with the id is replaced by the reply and every other task is kept |
| Home.RemoveById | src/pages/Home.jsx:94 | exactly the tasks with another id remain, each with all its copies, in order; the length is the number of positions holding another id |
| Home.AfterUpdate | src/pages/Home.jsx:81-84 | the page list after an update: unchanged when the store had no such task; otherwise same length, with every task of that id replaced by the store's updated record |
| Home.AfterDelete | src/pages/Home.jsx:93-94 | the page list after a delete: unchanged when the store had no such task; otherwise exactly the tasks with another id, each with all its copies, as many as the positions holding another id; order kept in both cases |
| Home.UpdateKeepsMirror | src/pages/Home.jsx:81-84 | with unique ids, the page's update of a copy of the store equals the store's update |
| Home.DeleteKeepsMirror | src/pages/Home.jsx:93-94 | with unique ids, the page's delete of a copy of the store equals the store's delete |
| Home.FilterOutOnlyMatch | src/pages/Home.jsx:94 | filtering out an id held at one position is `splice` at that position |
| Home.DuplicateIdsDiverge | src/pages/Home.jsx:82-84 | with two tasks sharing an id, the page and the store disagree after an update |
| Home.Bulk | src/pages/Home.jsx:101-122 | the number of successful calls is at most the selection size; the batch fails exactly when fewer succeeded; the id that failed is missing from the store |
| Home.BulkStep | src/pages/Home.jsx:105-113 | one call: no change for a missing id; completion keeps the store's ids; a delete of a present id removes one task |
| Home.NextOutcome | src/pages/Home.jsx:104-114 | one more id: nothing happens after a failure; the batch fails exactly when it had failed or the id is missing; the success count grows by one and the store takes one step otherwise |
| Home.ReachedStep | src/pages/Home.jsx:104-109 | a successful store call extends the succeeded prefix of the batch by one id |
| Home.ReachedFailure | src/pages/Home.jsx:119-120 | a store call that throws ends the whole batch where it stands, as failed |
| Home.BulkStopsAtFailure | src/pages/Home.jsx:104-109 | once a prefix of the selection has failed, later ids are never tried |
| Home.BulkKeepsDonePrefix | src/pages/Home.jsx:104-114 | the calls before the failing one all succeeded and their effects stay in the store (no rollback) |
| Home.PrefixStep | src/pages/Home.jsx:104-114 | the no-rollback property carries from all ids but the last to all ids |
| Home.PrefixUnchanged | src/pages/Home.jsx:119-120 | when the last id fails or follows a failure, the store and the success count stay as the earlier ids left them, so the property carries over |
| Home.PrefixGrown | src/pages/Home.jsx:104-114 | when every id succeeded, the succeeded prefix is the whole selection |
| Home.BulkCompleteMarksDone | src/pages/Home.jsx:104-109 | after bulk completion, every id whose call succeeded names a task with status 'done' |
| Home.MarkedDoneExtend | src/pages/Home.jsx:104 | ids already marked done stay so when the selection grows |
| Home.MarkedDoneStep | src/pages/Home.jsx:105-108 | one more successful completion extends the done prefix by one id |
| Home.DoneSurvivesUpdate | src/pages/Home.jsx:105-108 | a completion marks its task done and leaves done tasks done |
| Home.BulkCompleteKeepsIds | src/pages/Home.jsx:104-109 | bulk completion never changes the store's ids |
| Home.BulkDeleteShrinks | src/pages/Home.jsx:112-114 | bulk deletion removes exactly one task per successful call |
| Home.Board.constructor | src/pages/Home.jsx:11-20 | the page's initial state: empty lists, 'all' view and category, empty search, form closed, nothing selected or dragged |
| Home.Board.Visible | src/pages/Home.jsx:391 | the tasks handed to the panel: exactly the page's tasks that pass the current filters, every copy kept, in order |
| Home.Board.LoadData | src/pages/Home.jsx:26-41 | both lists become copies of the stores' lists |
| Home.Board.HandleTaskCreate | src/pages/Home.jsx:64-77 | the store appends the new record built from the draft; the page appends the same record and closes the form |
| Home.Board.HandleTaskUpdate | src/pages/Home.jsx:79-89 | reports success exactly when the store had the id; the store list becomes `UpdateFirst`; the page list changes only after success |
| Home.Board.HandleTaskDelete | src/pages/Home.jsx:91-99 | reports success exactly when the store had the id; the store list becomes `DeleteFirst`; the page list changes only after success |
| Home.Board.BulkCall | src/pages/Home.jsx:105-108 | one call succeeds exactly when the store holds the id, and then applies one bulk step; otherwise the store is unchanged |
| Home.Board.BulkCalls | src/pages/Home.jsx:104-114 | the loop leaves the store as `Bulk` says, and reports failure exactly when `Bulk` failed |
| Home.Board.HandleBulkAction | src/pages/Home.jsx:101-122 | the store ends as `Bulk` says; after full success the page reloads and clears the selection; after a failure the page state is untouched |
| Home.Board.HandleDragStart | src/pages/Home.jsx:124-126 | the task is remembered as dragged |
| Home.Board.HandleDrop | src/pages/Home.jsx:128-136 | the update is sent only when a task is dragged onto another status; the drag is cleared in every case |
| MainFeature.ToggleSelection | src/components/MainFeature.jsx:60-66 | a selected id is removed entirely while every copy of every other id stays (same multiset minus that id, order kept); an unselected id is appended; other ids keep their membership |
| MainFeature.UntickKeepsDuplicates | src/components/MainFeature.jsx:63 | unticking an id from a selection holding another id twice keeps both copies |
| MainFeature.ToggleTwiceRestores | src/components/MainFeature.jsx:60-66 | ticking and unticking an unselected id restores the selection exactly |
| MainFeature.SelectAll | src/components/MainFeature.jsx:289-293 | empty when the selection is as long as the visible list; otherwise the visible ids in order |
| MainFeature.SelectAllThenDeselect | src/components/MainFeature.jsx:289-293 | from a partial selection, one press selects every visible task and a second press clears the selection |
| MainFeature.SelectAllComparesLengthsOnly | src/components/MainFeature.jsx:292 | a selection of hidden ids as long as the visible list is cleared, not completed |
| MainFeature.TogglePatch | src/components/MainFeature.jsx:179-182 | the check button sends 'todo' for a done task and 'done' otherwise, with a completion time only when completing |
| MainFeature.CheckIsDropOnOtherColumn | src/components/MainFeature.jsx:179-182 | the check button sends the same patch as a drop on the other column |
| MainFeature.CheckTwice | src/components/MainFeature.jsx:179-182 | two presses leave a done task done and any other task 'todo'; re-opening keeps the old completion time; nothing else changes |
| MainFeature.FormatDueDate | src/components/MainFeature.jsx:68-77 | no label exactly without a date; "Today" exactly for today; "Tomorrow" exactly for tomorrow; "Overdue" exactly for a past instant on an earlier day; a plain date is at least two days ahead |
| MainFeature.DueDateColor | src/components/MainFeature.jsx:79-87 | muted exactly for no date or a done task; red exactly for an open task in the past; amber exactly for an open task later today |
| MainFeature.BadgeColourFollowsLabel | src/components/MainFeature.jsx:68-87 | for an open task, "Overdue" is red, and "Tomorrow" or a plain date is in the plain colour |
| MainFeature.TodayBadgeCanBeRed | src/components/MainFeature.jsx:72-84 | a date earlier today is labelled "Today" and coloured red |
| MainFeature.FieldPatchChangesOneField | src/components/MainFeature.jsx:53 | `{ [field]: value }` sets that field and keeps every other one |
| MainFeature.FieldPatch | src/components/MainFeature.jsx:53 | `{ [field]: value }` carries the value in the named field and no other field |
| MainFeature.Panel.constructor | src/components/MainFeature.jsx:23-30 | an empty draft with priority 'medium', and no task being edited |
| MainFeature.Panel.HandleSubmit | src/components/MainFeature.jsx:33-49 | a blank title sends nothing and changes nothing; otherwise the task is created as the page does, and the draft is reset |
| MainFeature.Panel.StartEditing | src/components/MainFeature.jsx:135 | a click on a title opens it for editing |
| MainFeature.Panel.HandleTaskEdit | src/components/MainFeature.jsx:51-58 | the edit goes through the page's update; the editor closes whatever happened |
| MainFeature.Panel.HandleTaskEditIntended | src/components/MainFeature.jsx:51-58 | the same update, but the editor closes only when the store had the task |
| MainFeature.Panel.HandleTaskToggle | src/components/MainFeature.jsx:60-66 | the page's selection becomes the toggled selection |
| MainFeature.Panel.HandleSelectAll | src/components/MainFeature.jsx:289-293 | the page's selection becomes select-all over the tasks on screen |
| MainFeature.Panel.HandleCheck | src/components/MainFeature.jsx:177-183 | the check button's patch goes through the page's update |
| MainFeature.EditOfMissingTaskClosesEditor | src/components/MainFeature.jsx:51-58 | editing a task the store lacks leaves the store unchanged and the editor closed |
| MainFeature.EditOfMissingTaskKeepsEditor | src/components/MainFeature.jsx:51-58 | the same edit under the intended handling keeps the editor open |

## Left out

- The stores' artificial delay (`setTimeout` with `Math.random`) is left out. The clock-derived id and `toISOString()` timestamps are parameters.
- The seed data is a constructor argument, because the mock JSON files are not part of this model.
- `Promise.all` in `loadData` is modelled as two calls in sequence. The mock stores' `getAll` never fails, so the load-error path and the `loading` flag are not modelled.
- Toasts and `console.error` are not modelled. The handlers' `ok` result stands for which toast is shown.
- Home.Bulk: the source evaluates `new Date()` once per selected task. The model gives the whole batch one completion time.
- Home.Bulk: an action string other than 'complete' or 'delete' is not modelled. The actions are a datatype, so the case where neither loop runs and the page still reloads is out of the model.
- Dates are millisecond timestamps read in UTC. `isToday`, `isTomorrow` and `isThisWeek` compare UTC days and Sunday-start weeks, with no time zones. The `new Date(string)` parse and `format(date, 'MMM dd')` are also outside the model: `OnDate` keeps the timestamp, not the formatted text.
- Text.Lower: `toLowerCase` is modelled for ASCII letters only.
- Task titles and descriptions are always strings. The optional chaining `task?.title?.` for missing fields is not modelled.
- Records.TaskPatch has no `id` or `createdAt` field, and Records.CategoryPatch has no `id` field, because no caller sends those. A patch that overwrote them is outside the model.
- Records.Draft: the form's empty due-date string `''` is `None`. The page sends it on unchanged.
- MainFeature.Panel.HandleSubmit: the page's create handler never rethrows, and the mock store's `create` never fails. So the panel's `catch` path cannot be reached, and the model has no failure case.
- The view, category and search setters in Home.jsx and their buttons are not modelled: they only assign a field. The same goes for the list/kanban `viewMode`, dark mode, the "clear selection" button, the draft's `onChange` setters, the `showAddForm` toggles and `NotFound.jsx`.
- JSX rendering, animation and styles are not modelled, apart from the colour classes returned by the helpers above.

## Findings

| source | as written | input that shows it | evidently intended | confidence | as-written member | corrected member |
|---|---|---|---|---|---|---|
| src/components/MainFeature.jsx:51-58 | `setEditingTask(null)` runs after `await onTaskUpdate(...)`. The page's `handleTaskUpdate` (src/pages/Home.jsx:79-89) catches the store's error and returns normally, so the `catch` never runs and the editor always closes. | Open a task's title for editing and commit it after the task is gone from the store (e.g. deleted elsewhere): the store throws "Task not found", an error toast appears, and the editor closes anyway. | The `try`/`catch` shows the intent: close the editor only when the update succeeded, and keep it open on failure. | medium, not executed | MainFeature.Panel.HandleTaskEdit, MainFeature.EditOfMissingTaskClosesEditor | MainFeature.Panel.HandleTaskEditIntended, MainFeature.EditOfMissingTaskKeepsEditor |
