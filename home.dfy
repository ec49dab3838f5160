/** The task board page (src/pages/Home.jsx): the views it derives from the
    task and category lists, and the controller that calls the stores and
    reconciles its own copy of the tasks with their replies. */
module Home {
  import opened Wrappers
  import opened Records
  import opened Seqs
  import Text
  import Dates
  import Tables
  import TaskService
  import CategoryService

  // ---------------------------------------------------------------------
  // The combined filter (`filteredTasks`)

  /** The date-range buttons: 'all', 'today' and 'week'. */
  datatype View = AllDates | Today | ThisWeek

  /** The filter state: the search box, the category chip ('all' or an id) and the view. */
  datatype Filters = Filters(query: string, category: string, view: View)

  const AllCategories := "all"

  predicate MatchesSearch(t: Task, query: string) {
    Text.Includes(Text.Lower(t.title), Text.Lower(query))
    || Text.Includes(Text.Lower(t.description), Text.Lower(query))
  }

  predicate MatchesCategory(t: Task, category: string) {
    category == AllCategories || t.category == category
  }

  predicate MatchesView(t: Task, view: View, now: int) {
    match view
    case AllDates => true
    case Today => t.dueDate.Some? && Dates.IsToday(t.dueDate.value, now)
    case ThisWeek => t.dueDate.Some? && Dates.IsThisWeek(t.dueDate.value, now)
  }

  predicate Matches(t: Task, f: Filters, now: int) {
    MatchesSearch(t, f.query) && MatchesCategory(t, f.category) && MatchesView(t, f.view, now)
  }

  function Matching(f: Filters, now: int): Task -> bool {
    (t: Task) => Matches(t, f, now)
  }

  /** `filteredTasks`: the tasks passing all three tests, in list order. */
  function FilteredTasks(ts: seq<Task>, f: Filters, now: int): (r: seq<Task>)
    ensures forall t :: t in r <==> t in ts && Matches(t, f, now)
    ensures forall t :: multiset(r)[t] == if Matches(t, f, now) then multiset(ts)[t] else 0
    ensures IsSubsequence(r, ts)
  {
    FilterIsSubsequence(ts, Matching(f, now));
    FilterMultiset(ts, Matching(f, now));
    Filter(ts, Matching(f, now))
  }

  /** Under the 'today' and 'week' views a task without a due date is never shown. */
  lemma UndatedTasksOnlyInAllView(ts: seq<Task>, t: Task, f: Filters, now: int)
    requires t.dueDate.None? && f.view != AllDates
    ensures t !in FilteredTasks(ts, f, now)
  {
  }

  /** With an empty search, the 'all' category and the 'all' view, every task is shown. */
  lemma InitialFiltersShowEverything(ts: seq<Task>, now: int)
    ensures FilteredTasks(ts, Filters("", AllCategories, AllDates), now) == ts
  {
    forall i | 0 <= i < |ts| ensures Matching(Filters("", AllCategories, AllDates), now)(ts[i]) {
      Text.IncludesEmpty(Text.Lower(ts[i].title));
    }
    FilterKeepsAll(ts, Matching(Filters("", AllCategories, AllDates), now));
  }

  /** The search ignores case: upper-casing letters of the query changes nothing. */
  lemma SearchIgnoresCase(t: Task, query: string)
    ensures MatchesSearch(t, Text.Lower(query)) == MatchesSearch(t, query)
  {
    Text.LowerIdempotent(query);
  }

  // ---------------------------------------------------------------------
  // The kanban columns (`tasksByStatus`)

  predicate IsTodo(t: Task) { t.status == "todo" }
  predicate IsInProgress(t: Task) { t.status == "inProgress" }
  predicate IsDone(t: Task) { t.status == "done" }
  predicate HasOtherStatus(t: Task) { !IsTodo(t) && !IsInProgress(t) && !IsDone(t) }

  datatype StatusGroups = StatusGroups(todo: seq<Task>, inProgress: seq<Task>, done: seq<Task>)

  /** `tasksByStatus`: one order-preserving column per status; a task with
      any other status is in no column. */
  function TasksByStatus(filtered: seq<Task>): (g: StatusGroups)
    ensures forall t :: t in g.todo <==> t in filtered && t.status == "todo"
    ensures forall t :: t in g.inProgress <==> t in filtered && t.status == "inProgress"
    ensures forall t :: t in g.done <==> t in filtered && t.status == "done"
    ensures IsSubsequence(g.todo, filtered) && IsSubsequence(g.inProgress, filtered) && IsSubsequence(g.done, filtered)
  {
    FilterIsSubsequence(filtered, IsTodo);
    FilterIsSubsequence(filtered, IsInProgress);
    FilterIsSubsequence(filtered, IsDone);
    StatusGroups(Filter(filtered, IsTodo), Filter(filtered, IsInProgress), Filter(filtered, IsDone))
  }

  /** The columns are pairwise disjoint, and together with the tasks of any
      other status they account for every filtered task exactly once. */
  lemma ColumnsPartition(filtered: seq<Task>)
    ensures var g := TasksByStatus(filtered);
      (forall t :: !(t in g.todo && t in g.inProgress) && !(t in g.todo && t in g.done) && !(t in g.inProgress && t in g.done))
      && |g.todo| + |g.inProgress| + |g.done| + |Filter(filtered, HasOtherStatus)| == |filtered|
  {
    ColumnSizes(filtered);
  }

  lemma {:induction false} ColumnSizes(s: seq<Task>)
    ensures |Filter(s, IsTodo)| + |Filter(s, IsInProgress)| + |Filter(s, IsDone)| + |Filter(s, HasOtherStatus)| == |s|
    decreases |s|
  {
    if s != [] {
      ColumnSizes(s[1..]);
    }
  }

  // ---------------------------------------------------------------------
  // Category lookup (`getCategoryById`)

  /** What the lookup yields: a stored category, or the fallback object. */
  datatype CategoryLabel = Known(category: Category) | Uncategorized {
    function Name(): string {
      match this
      case Known(c) => c.name
      case Uncategorized => "Uncategorized"
    }
    function Color(): string {
      match this
      case Known(c) => c.color
      case Uncategorized => "#6b7280"
    }
  }

  /** `getCategoryById`: the first category with that id, else the fallback; never fails. */
  function GetCategoryById(cats: seq<Category>, id: string): (r: CategoryLabel)
    ensures r.Uncategorized? <==> !CategoryService.HasCategory(cats, id)
    ensures r.Known? ==> r.category == cats[CategoryService.IndexOf(cats, id)]
    ensures r.Uncategorized? ==> r.Name() == "Uncategorized" && r.Color() == "#6b7280"
  {
    match Tables.Find(cats, CategoryId, id)
    case Some(c) => Known(c)
    case None => Uncategorized
  }

  // ---------------------------------------------------------------------
  // Header statistics (`getTaskCounts`)

  predicate DueToday(t: Task, now: int) {
    t.dueDate.Some? && Dates.IsToday(t.dueDate.value, now)
  }

  predicate DueThisWeek(t: Task, now: int) {
    t.dueDate.Some? && Dates.IsThisWeek(t.dueDate.value, now)
  }

  predicate IsOverdue(t: Task, now: int) {
    t.dueDate.Some? && Dates.IsPast(t.dueDate.value, now) && t.status != "done"
  }

  function DueTodayAt(now: int): Task -> bool { (t: Task) => DueToday(t, now) }
  function DueThisWeekAt(now: int): Task -> bool { (t: Task) => DueThisWeek(t, now) }
  function OverdueAt(now: int): Task -> bool { (t: Task) => IsOverdue(t, now) }

  datatype TaskCounts = TaskCounts(today: nat, week: nat, overdue: nat, total: nat)

  /** `getTaskCounts`, over the whole unfiltered list (no filter state is an
      argument): each count is the number of positions holding a task of
      its kind. What is due today is due this week; an overdue task is
      never done. */
  function GetTaskCounts(ts: seq<Task>, now: int): (c: TaskCounts)
    ensures c.today == |IndicesWhere(ts, DueTodayAt(now))|
    ensures c.week == |IndicesWhere(ts, DueThisWeekAt(now))|
    ensures c.overdue == |IndicesWhere(ts, OverdueAt(now))|
    ensures c.total == |ts|
    ensures c.today <= c.week <= c.total
    ensures c.overdue + |Filter(ts, IsDone)| <= c.total
  {
    FilterCountsIndices(ts, DueTodayAt(now));
    FilterCountsIndices(ts, DueThisWeekAt(now));
    FilterCountsIndices(ts, OverdueAt(now));
    FilterMonotone(ts, DueTodayAt(now), DueThisWeekAt(now));
    FilterDisjoint(ts, OverdueAt(now), IsDone);
    TaskCounts(|Filter(ts, DueTodayAt(now))|, |Filter(ts, DueThisWeekAt(now))|, |Filter(ts, OverdueAt(now))|, |ts|)
  }

  /** A task without a due date adds to the total and to no other count. */
  lemma UndatedTaskCountsOnlyInTotal(ts: seq<Task>, t: Task, now: int)
    requires t.dueDate.None?
    ensures GetTaskCounts(ts + [t], now) == GetTaskCounts(ts, now).(total := |ts| + 1)
  {
    FilterAppend(ts, [t], DueTodayAt(now));
    FilterAppend(ts, [t], DueThisWeekAt(now));
    FilterAppend(ts, [t], OverdueAt(now));
  }

  // ---------------------------------------------------------------------
  // Priority dot (`getPriorityColor`)

  function PriorityColor(priority: string): (c: string)
    ensures c == "bg-gray-400" <==> priority != "high" && priority != "medium" && priority != "low"
  {
    match priority
    case "high" => "bg-red-500"
    case "medium" => "bg-yellow-500"
    case "low" => "bg-green-500"
    case _ => "bg-gray-400"
  }

  // ---------------------------------------------------------------------
  // Requests the page sends

  /** What `handleTaskCreate` sends for a draft: the draft's fields, status
      'todo' and its own creation time (which the store then overrides). */
  function CreateRequest(d: Draft, sentAt: string): (t: Task)
    ensures t.status == "todo" && t.completedAt.None?
    ensures t.title == d.title && t.description == d.description && t.category == d.category
    ensures t.priority == d.priority && t.dueDate == d.dueDate
  {
    Task("", d.title, d.description, d.category, d.priority, d.dueDate, "todo", sentAt, None)
  }

  /** The patch `handleDrop` sends: the target status, and a completion time
      only when the target is 'done'. */
  function DropPatch(status: string, now: string): (p: TaskPatch)
    ensures p.status == Some(status)
    ensures p.completedAt.Some? <==> status == "done"
    ensures p.completedAt.Some? ==> p.completedAt.value == now
    ensures p.(status := None, completedAt := None) == NoTaskChanges
  {
    NoTaskChanges.(status := Some(status), completedAt := if status == "done" then Some(now) else None)
  }

  /** A drop changes the status, sets the completion time only when entering
      'done', and keeps every other field. */
  lemma DropChangesOnlyStatus(t: Task, status: string, now: string)
    ensures var r := MergeTask(t, DropPatch(status, now));
      r.status == status
      && r.completedAt == (if status == "done" then Some(now) else t.completedAt)
      && r.(status := t.status, completedAt := t.completedAt) == t
  {
  }

  /** The patch the bulk 'complete' action sends for each task. */
  function DonePatch(completedAt: string): (p: TaskPatch)
    ensures p == NoTaskChanges.(status := Some("done"), completedAt := Some(completedAt))
  {
    DropPatch("done", completedAt)
  }

  // ---------------------------------------------------------------------
  // Reconciling the page's copy with the store's replies

  /** `prev.map(task => task.id === id ? updated : task)`. */
  function ReplaceById(ts: seq<Task>, id: string, updated: Task): (r: seq<Task>)
    ensures |r| == |ts|
    ensures forall j :: 0 <= j < |ts| ==> r[j] == if ts[j].id == id then updated else ts[j]
    decreases |ts|
  {
    if ts == [] then []
    else [if ts[0].id == id then updated else ts[0]] + ReplaceById(ts[1..], id, updated)
  }

  function IdIsNot(id: string): Task -> bool {
    (t: Task) => t.id != id
  }

  /** `prev.filter(task => task.id !== id)`. */
  function RemoveById(ts: seq<Task>, id: string): (r: seq<Task>)
    ensures forall t :: t in r <==> t in ts && t.id != id
    ensures forall t :: multiset(r)[t] == if t.id != id then multiset(ts)[t] else 0
    ensures |r| == |IndicesWhere(ts, IdIsNot(id))|
    ensures IsSubsequence(r, ts)
  {
    FilterIsSubsequence(ts, IdIsNot(id));
    FilterMultiset(ts, IdIsNot(id));
    FilterCountsIndices(ts, IdIsNot(id));
    Filter(ts, IdIsNot(id))
  }

  /** The page's list after `handleTaskUpdate(id, p)` against a store that
      held `stored`: changed only when the store succeeded, every task with
      that id then replaced by the store's reply. */
  function AfterUpdate(local: seq<Task>, stored: seq<Task>, id: string, p: TaskPatch): (r: seq<Task>)
    ensures !TaskService.HasTask(stored, id) ==> r == local
    ensures |r| == |local|
    ensures TaskService.HasTask(stored, id) ==> forall j :: 0 <= j < |local| ==>
      r[j] == if local[j].id == id then TaskService.UpdateFirst(stored, id, p)[TaskService.IndexOf(stored, id)] else local[j]
  {
    if !TaskService.HasTask(stored, id) then local
    else ReplaceById(local, id, MergeTask(stored[TaskService.IndexOf(stored, id)], p))
  }

  /** The page's list after `handleTaskDelete(id)`: changed only when the
      store succeeded, every task with that id then dropped. */
  function AfterDelete(local: seq<Task>, stored: seq<Task>, id: string): (r: seq<Task>)
    ensures !TaskService.HasTask(stored, id) ==> r == local
    ensures TaskService.HasTask(stored, id) ==> forall t :: t in r <==> t in local && t.id != id
    ensures TaskService.HasTask(stored, id) ==>
      forall t :: multiset(r)[t] == if t.id != id then multiset(local)[t] else 0
    ensures TaskService.HasTask(stored, id) ==> |r| == |IndicesWhere(local, IdIsNot(id))|
    ensures IsSubsequence(r, local)
  {
    SubsequenceReflexive(local);
    if !TaskService.HasTask(stored, id) then local else RemoveById(local, id)
  }

  /** While ids are unique, a page list equal to the store's stays equal to
      it after an update. */
  lemma UpdateKeepsMirror(ts: seq<Task>, id: string, p: TaskPatch)
    requires Tables.UniqueKeys(ts, TaskId)
    ensures AfterUpdate(ts, ts, id, p) == TaskService.UpdateFirst(ts, id, p)
  {
    if TaskService.HasTask(ts, id) {
      var i := TaskService.IndexOf(ts, id);
      forall j | 0 <= j < |ts| && ts[j].id == id ensures j == i {
        Tables.FindIndexUnique(ts, TaskId, id, j);
      }
    }
  }

  /** While ids are unique, a page list equal to the store's stays equal to
      it after a delete. */
  lemma DeleteKeepsMirror(ts: seq<Task>, id: string)
    requires Tables.UniqueKeys(ts, TaskId)
    ensures AfterDelete(ts, ts, id) == TaskService.DeleteFirst(ts, id)
  {
    if TaskService.HasTask(ts, id) {
      var i := TaskService.IndexOf(ts, id);
      forall j | 0 <= j < |ts| && j != i ensures ts[j].id != id {
        if ts[j].id == id {
          Tables.FindIndexUnique(ts, TaskId, id, j);
        }
      }
      FilterOutOnlyMatch(ts, id, i);
    }
  }

  /** Filtering out an id held at exactly one position removes that position. */
  lemma {:induction false} FilterOutOnlyMatch(ts: seq<Task>, id: string, i: int)
    requires 0 <= i < |ts| && ts[i].id == id
    requires forall j :: 0 <= j < |ts| && j != i ==> ts[j].id != id
    ensures Filter(ts, IdIsNot(id)) == Tables.RemoveAt(ts, i)
    decreases |ts|
  {
    if i == 0 {
      FilterKeepsAll(ts[1..], IdIsNot(id));
    } else {
      FilterOutOnlyMatch(ts[1..], id, i - 1);
      assert Tables.RemoveAt(ts, i) == [ts[0]] + Tables.RemoveAt(ts[1..], i - 1);
    }
  }

  /** Ids are not guaranteed unique (they come from the clock). With two
      tasks sharing an id, the store updates the first and the page
      replaces both. */
  lemma DuplicateIdsDiverge()
    ensures var t := Task("1", "a", "", "", "medium", None, "todo", "t0", None);
      var ts := [t, t.(title := "b")];
      var p := NoTaskChanges.(title := Some("c"));
      AfterUpdate(ts, ts, "1", p) != TaskService.UpdateFirst(ts, "1", p)
  {
    var t := Task("1", "a", "", "", "medium", None, "todo", "t0", None);
    var ts := [t, t.(title := "b")];
    var p := NoTaskChanges.(title := Some("c"));
    assert TaskService.IndexOf(ts, "1") == 0;
    assert TaskService.UpdateFirst(ts, "1", p)[1].title == "b";
    assert AfterUpdate(ts, ts, "1", p)[1].title == "c";
  }

  // ---------------------------------------------------------------------
  // Bulk actions (`handleBulkAction`)

  datatype BulkAction = Complete(completedAt: string) | Delete

  /** How far a batch got: the store's list afterwards, how many calls
      succeeded, and whether one threw. */
  datatype Batch = Batch(tasks: seq<Task>, done: nat, failed: bool)

  /** One call of the loop: the store's list after it, which the store
      leaves as it was when the id is missing. */
  function BulkStep(ts: seq<Task>, id: string, a: BulkAction): (r: seq<Task>)
    ensures !TaskService.HasTask(ts, id) ==> r == ts
    ensures a.Complete? ==> Tables.Keys(r, TaskId) == Tables.Keys(ts, TaskId)
    ensures a.Delete? && TaskService.HasTask(ts, id) ==> |r| == |ts| - 1
  {
    match a
    case Complete(at) =>
      TaskService.UpdateFirstKeepsIds(ts, id, DonePatch(at));
      TaskService.UpdateFirst(ts, id, DonePatch(at))
    case Delete => TaskService.DeleteFirst(ts, id)
  }

  /** One more id of a batch: skipped once the batch has failed, a failure
      when the store has no such task, otherwise one step further. */
  function Next(b: Batch, id: string, a: BulkAction): Batch {
    if b.failed then b
    else if !TaskService.HasTask(b.tasks, id) then Batch(b.tasks, b.done, true)
    else Batch(BulkStep(b.tasks, id, a), b.done + 1, false)
  }

  /** A step leaves a failed batch alone, fails exactly when the id is
      missing, and otherwise counts one more success. */
  lemma NextOutcome(b: Batch, id: string, a: BulkAction)
    ensures b.failed ==> Next(b, id, a) == b
    ensures Next(b, id, a).failed <==> b.failed || !TaskService.HasTask(b.tasks, id)
    ensures Next(b, id, a).done == if Next(b, id, a).failed then b.done else b.done + 1
    ensures !Next(b, id, a).failed ==> Next(b, id, a).tasks == BulkStep(b.tasks, id, a)
  {
  }

  /** The store calls of a bulk action, one per selected id in order,
      stopping at the first that throws; nothing is rolled back. */
  function Bulk(ts: seq<Task>, ids: seq<string>, a: BulkAction): (b: Batch)
    ensures b.done <= |ids|
    ensures b.failed <==> b.done < |ids|
    ensures b.failed ==> !TaskService.HasTask(b.tasks, ids[b.done])
    decreases |ids|
  {
    if ids == [] then Batch(ts, 0, false)
    else Next(Bulk(ts, ids[..|ids| - 1], a), ids[|ids| - 1], a)
  }

  /** The first `i` calls of a batch over `ids` all succeeded and left the store at `now`. */
  predicate Reached(ts: seq<Task>, ids: seq<string>, i: nat, a: BulkAction, now: seq<Task>)
    requires i <= |ids|
  {
    Bulk(ts, ids[..i], a) == Batch(now, i, false)
  }

  /** A successful call extends the reached prefix by one id. */
  lemma ReachedStep(ts: seq<Task>, ids: seq<string>, i: nat, a: BulkAction, now: seq<Task>)
    requires i < |ids| && Reached(ts, ids, i, a, now) && TaskService.HasTask(now, ids[i])
    ensures Reached(ts, ids, i + 1, a, BulkStep(now, ids[i], a))
  {
    assert ids[..i + 1][..i] == ids[..i];
  }

  /** A failing call ends the whole batch where it stands. */
  lemma ReachedFailure(ts: seq<Task>, ids: seq<string>, i: nat, a: BulkAction, now: seq<Task>)
    requires i < |ids| && Reached(ts, ids, i, a, now) && !TaskService.HasTask(now, ids[i])
    ensures Bulk(ts, ids, a) == Batch(now, i, true)
  {
    assert ids[..i + 1][..i] == ids[..i];
    BulkStopsAtFailure(ts, ids, i + 1, a);
  }

  /** Once a prefix of the batch has failed, the rest of the ids are never tried. */
  lemma {:induction false} BulkStopsAtFailure(ts: seq<Task>, ids: seq<string>, k: nat, a: BulkAction)
    requires k <= |ids|
    requires Bulk(ts, ids[..k], a).failed
    ensures Bulk(ts, ids, a) == Bulk(ts, ids[..k], a)
    decreases |ids|
  {
    if k < |ids| {
      var pre := ids[..|ids| - 1];
      assert pre[..k] == ids[..k];
      BulkStopsAtFailure(ts, pre, k, a);
    } else {
      assert ids[..k] == ids;
    }
  }

  /** The calls before the failing one all succeeded, and their effects stay
      in the store. */
  lemma {:induction false} BulkKeepsDonePrefix(ts: seq<Task>, ids: seq<string>, a: BulkAction)
    ensures var b := Bulk(ts, ids, a);
      Bulk(ts, ids[..b.done], a) == Batch(b.tasks, b.done, false)
    decreases |ids|
  {
    if ids == [] {
      assert ids[..0] == [];
    } else {
      BulkKeepsDonePrefix(ts, ids[..|ids| - 1], a);
      PrefixStep(ts, ids, a);
    }
  }

  /** The calls before the one that failed (or all of them) leave the store
      where the whole batch leaves it. */
  predicate DonePrefixKept(ts: seq<Task>, ids: seq<string>, a: BulkAction) {
    var b := Bulk(ts, ids, a);
    Bulk(ts, ids[..b.done], a) == Batch(b.tasks, b.done, false)
  }

  /** The step case: the property carries from all ids but the last to all
      ids, whether the last one fails, succeeds or follows a failure. */
  lemma PrefixStep(ts: seq<Task>, ids: seq<string>, a: BulkAction)
    requires ids != [] && DonePrefixKept(ts, ids[..|ids| - 1], a)
    ensures DonePrefixKept(ts, ids, a)
  {
    var bp := Bulk(ts, ids[..|ids| - 1], a);
    var b := Bulk(ts, ids, a);
    if b.done == bp.done {
      PrefixUnchanged(ts, ids, a, bp, b);
    } else {
      PrefixGrown(ts, ids, a, b);
    }
  }

  /** The last id changed nothing (it failed, or followed a failure). */
  lemma PrefixUnchanged(ts: seq<Task>, ids: seq<string>, a: BulkAction, bp: Batch, b: Batch)
    requires ids != [] && bp == Bulk(ts, ids[..|ids| - 1], a) && b == Bulk(ts, ids, a)
    requires b.done == bp.done && b.tasks == bp.tasks
    requires DonePrefixKept(ts, ids[..|ids| - 1], a)
    ensures DonePrefixKept(ts, ids, a)
  {
    assert ids[..b.done] == ids[..|ids| - 1][..bp.done];
  }

  /** Every id, the last one included, succeeded. */
  lemma PrefixGrown(ts: seq<Task>, ids: seq<string>, a: BulkAction, b: Batch)
    requires b == Bulk(ts, ids, a) && !b.failed
    ensures DonePrefixKept(ts, ids, a)
  {
    assert ids[..b.done] == ids;
  }

  /** Each of the first `n` ids names a task whose status is 'done'. */
  predicate MarkedDone(ts: seq<Task>, ids: seq<string>, n: nat)
    requires n <= |ids|
  {
    forall j :: 0 <= j < n ==>
      TaskService.HasTask(ts, ids[j]) && ts[TaskService.IndexOf(ts, ids[j])].status == "done"
  }

  /** After bulk completion, every id whose call succeeded names a task
      whose status is 'done'. */
  lemma {:induction false} BulkCompleteMarksDone(ts: seq<Task>, ids: seq<string>, at: string)
    ensures var b := Bulk(ts, ids, Complete(at)); MarkedDone(b.tasks, ids, b.done)
    decreases |ids|
  {
    if ids != [] {
      var pre := ids[..|ids| - 1];
      var bp := Bulk(ts, pre, Complete(at));
      BulkCompleteMarksDone(ts, pre, at);
      var id := ids[|ids| - 1];
      var b := Bulk(ts, ids, Complete(at));
      if !bp.failed && TaskService.HasTask(bp.tasks, id) {
        MarkedDoneStep(bp.tasks, pre, ids, at);
      } else {
        assert b.tasks == bp.tasks && b.done == bp.done;
        MarkedDoneExtend(b.tasks, pre, ids, b.done);
      }
    }
  }

  lemma MarkedDoneExtend(ts: seq<Task>, pre: seq<string>, ids: seq<string>, n: nat)
    requires |ids| > 0 && pre == ids[..|ids| - 1] && n <= |pre|
    requires MarkedDone(ts, pre, n)
    ensures MarkedDone(ts, ids, n)
  {
    forall j | 0 <= j < n ensures ids[j] == pre[j] { }
  }

  lemma MarkedDoneStep(ts: seq<Task>, pre: seq<string>, ids: seq<string>, at: string)
    requires |ids| > 0 && pre == ids[..|ids| - 1]
    requires MarkedDone(ts, pre, |pre|)
    requires TaskService.HasTask(ts, ids[|ids| - 1])
    ensures MarkedDone(TaskService.UpdateFirst(ts, ids[|ids| - 1], DonePatch(at)), ids, |ids|)
  {
    var id := ids[|ids| - 1];
    forall j | 0 <= j < |ids|
      ensures var r := TaskService.UpdateFirst(ts, id, DonePatch(at));
        TaskService.HasTask(r, ids[j]) && r[TaskService.IndexOf(r, ids[j])].status == "done"
    {
      if j < |pre| {
        assert ids[j] == pre[j];
      }
      DoneSurvivesUpdate(ts, id, at, ids[j]);
    }
  }

  /** One completion step: the task it names is done afterwards, and a task
      that was done stays done. */
  lemma DoneSurvivesUpdate(ts: seq<Task>, id: string, at: string, other: string)
    requires TaskService.HasTask(ts, id)
    requires other == id || (TaskService.HasTask(ts, other) && ts[TaskService.IndexOf(ts, other)].status == "done")
    ensures var r := TaskService.UpdateFirst(ts, id, DonePatch(at));
      TaskService.HasTask(r, other) && r[TaskService.IndexOf(r, other)].status == "done"
  {
    TaskService.UpdateFirstKeepsIndex(ts, id, DonePatch(at), other);
  }

  /** Bulk completion never changes which ids the store holds. */
  lemma {:induction false} BulkCompleteKeepsIds(ts: seq<Task>, ids: seq<string>, at: string)
    ensures Tables.Keys(Bulk(ts, ids, Complete(at)).tasks, TaskId) == Tables.Keys(ts, TaskId)
    decreases |ids|
  {
    if ids != [] {
      var pre := ids[..|ids| - 1];
      var bp := Bulk(ts, pre, Complete(at));
      BulkCompleteKeepsIds(ts, pre, at);
      TaskService.UpdateFirstKeepsIds(bp.tasks, ids[|ids| - 1], DonePatch(at));
    }
  }

  /** Bulk deletion removes exactly one task per successful call. */
  lemma {:induction false} BulkDeleteShrinks(ts: seq<Task>, ids: seq<string>)
    ensures var b := Bulk(ts, ids, Delete); |b.tasks| == |ts| - b.done
    decreases |ids|
  {
    if ids != [] {
      BulkDeleteShrinks(ts, ids[..|ids| - 1]);
    }
  }

  // ---------------------------------------------------------------------
  // The page's state and handlers

  class Board {
    const taskApi: TaskService.TaskStore
    const categoryApi: CategoryService.CategoryStore
    var tasks: seq<Task>
    var categories: seq<Category>
    var view: View
    var selectedCategory: string
    var searchQuery: string
    var showAddForm: bool
    var selectedTasks: seq<string>
    var draggedTask: Option<Task>

    /** The page's initial state, before the first load. */
    constructor (taskApi: TaskService.TaskStore, categoryApi: CategoryService.CategoryStore)
      ensures this.taskApi == taskApi && this.categoryApi == categoryApi
      ensures tasks == [] && categories == [] && view == AllDates && selectedCategory == AllCategories
      ensures searchQuery == "" && !showAddForm && selectedTasks == [] && draggedTask == None
    {
      this.taskApi := taskApi;
      this.categoryApi := categoryApi;
      tasks, categories := [], [];
      view, selectedCategory, searchQuery := AllDates, AllCategories, "";
      showAddForm, selectedTasks, draggedTask := false, [], None;
    }

    /** The tasks on screen: `filteredTasks` of the current state. */
    function Visible(now: int): (r: seq<Task>)
      reads this
      ensures forall t :: t in r <==> t in tasks && Matches(t, Filters(searchQuery, selectedCategory, view), now)
      ensures forall t :: multiset(r)[t] == if Matches(t, Filters(searchQuery, selectedCategory, view), now) then multiset(tasks)[t] else 0
      ensures IsSubsequence(r, tasks)
    {
      FilteredTasks(tasks, Filters(searchQuery, selectedCategory, view), now)
    }

    /** `loadData`: both lists copied from the stores. */
    method LoadData()
      modifies this`tasks, this`categories
      ensures tasks == taskApi.tasks && categories == categoryApi.categories
    {
      tasks := taskApi.GetAll();
      categories := categoryApi.GetAll();
    }

    /** `handleTaskCreate`: sends the draft as a 'todo' task and appends the
        store's reply; closes the add form. */
    method HandleTaskCreate(draft: Draft, id: string, sentAt: string, assignedAt: string) returns (t: Task)
      modifies this`tasks, this`showAddForm, taskApi
      ensures t == TaskService.NewRecord(CreateRequest(draft, sentAt), id, assignedAt)
      ensures taskApi.tasks == old(taskApi.tasks) + [t]
      ensures tasks == old(tasks) + [t] && !showAddForm
    {
      t := taskApi.Create(CreateRequest(draft, sentAt), id, assignedAt);
      tasks := tasks + [t];
      showAddForm := false;
    }

    /** `handleTaskUpdate`: the store call, then the page's list reconciled
        with the reply; `ok` tells which toast is shown. */
    method HandleTaskUpdate(taskId: string, updates: TaskPatch) returns (ok: bool)
      modifies this`tasks, taskApi
      ensures ok == TaskService.HasTask(old(taskApi.tasks), taskId)
      ensures taskApi.tasks == TaskService.UpdateFirst(old(taskApi.tasks), taskId, updates)
      ensures tasks == AfterUpdate(old(tasks), old(taskApi.tasks), taskId, updates)
    {
      var r := taskApi.Update(taskId, updates);
      ok := r.Success?;
      if ok {
        tasks := ReplaceById(tasks, taskId, r.value);
      }
    }

    /** `handleTaskDelete`: the store call, then the task dropped from the
        page's list only if the store confirmed. */
    method HandleTaskDelete(taskId: string) returns (ok: bool)
      modifies this`tasks, taskApi
      ensures ok == TaskService.HasTask(old(taskApi.tasks), taskId)
      ensures taskApi.tasks == TaskService.DeleteFirst(old(taskApi.tasks), taskId)
      ensures tasks == AfterDelete(old(tasks), old(taskApi.tasks), taskId)
    {
      var r := taskApi.Delete(taskId);
      ok := r.Success?;
      if ok {
        tasks := RemoveById(tasks, taskId);
      }
    }

    /** One store call of a bulk action. */
    method BulkCall(id: string, a: BulkAction) returns (ok: bool)
      modifies taskApi
      ensures ok == TaskService.HasTask(old(taskApi.tasks), id)
      ensures taskApi.tasks == if ok then BulkStep(old(taskApi.tasks), id, a) else old(taskApi.tasks)
    {
      match a {
        case Complete(at) =>
          var r := taskApi.Update(id, DonePatch(at));
          ok := r.Success?;
        case Delete =>
          var r := taskApi.Delete(id);
          ok := r.Success?;
      }
    }

    /** The `for ... of` loop of a bulk action: one call per id, in order,
        leaving the loop at the first call that throws. */
    method BulkCalls(ids: seq<string>, a: BulkAction) returns (ok: bool)
      modifies taskApi
      ensures var b := Bulk(old(taskApi.tasks), ids, a); taskApi.tasks == b.tasks && ok == !b.failed
    {
      ghost var start := taskApi.tasks;
      var i := 0;
      ok := true;
      assert ids[..0] == [];
      while i < |ids|
        modifies taskApi
        invariant 0 <= i <= |ids|
        invariant Reached(start, ids, i, a, taskApi.tasks)
      {
        ghost var before := taskApi.tasks;
        ok := BulkCall(ids[i], a);
        if !ok {
          ReachedFailure(start, ids, i, a, before);
          return;
        }
        ReachedStep(start, ids, i, a, before);
        i := i + 1;
      }
      assert ids[..i] == ids;
    }

    /** `handleBulkAction`: the store calls for the selected ids; after full
        success the lists are reloaded and the selection emptied; after a
        failure the page's state is untouched. */
    method HandleBulkAction(a: BulkAction) returns (ok: bool)
      modifies this`tasks, this`categories, this`selectedTasks, taskApi
      ensures var b := Bulk(old(taskApi.tasks), old(selectedTasks), a);
        taskApi.tasks == b.tasks && ok == !b.failed
        && (b.failed ==> tasks == old(tasks) && categories == old(categories) && selectedTasks == old(selectedTasks))
        && (!b.failed ==> tasks == b.tasks && categories == categoryApi.categories && selectedTasks == [])
    {
      ok := BulkCalls(selectedTasks, a);
      if ok {
        LoadData();
        selectedTasks := [];
      }
    }

    /** `handleDragStart`. */
    method HandleDragStart(t: Task)
      modifies this`draggedTask
      ensures draggedTask == Some(t)
    {
      draggedTask := Some(t);
    }

    /** `handleDrop`: an update only when a task is dragged onto another
        status's column; the drag is cleared in every case. */
    method HandleDrop(status: string, now: string)
      modifies this`tasks, this`draggedTask, taskApi
      ensures draggedTask == None
      ensures var d := old(draggedTask);
        if d.Some? && d.value.status != status then
          taskApi.tasks == TaskService.UpdateFirst(old(taskApi.tasks), d.value.id, DropPatch(status, now))
          && tasks == AfterUpdate(old(tasks), old(taskApi.tasks), d.value.id, DropPatch(status, now))
        else
          taskApi.tasks == old(taskApi.tasks) && tasks == old(tasks)
    {
      if draggedTask.Some? && draggedTask.value.status != status {
        var _ := HandleTaskUpdate(draggedTask.value.id, DropPatch(status, now));
      }
      draggedTask := None;
    }
  }
}
