/** The task panel (src/components/MainFeature.jsx): the add-task form,
    inline title editing, the selection checkboxes, the check button and
    the due-date badge. */
module MainFeature {
  import opened Wrappers
  import opened Records
  import opened Seqs
  import Text
  import Dates
  import Tables
  import TaskService
  import CategoryService
  import opened Home

  // ---------------------------------------------------------------------
  // Selection (`handleTaskToggle` and the select-all button)

  /** `prev.includes(id) ? prev.filter(x => x !== id) : [...prev, id]`. */
  function ToggleSelection(sel: seq<string>, id: string): (r: seq<string>)
    ensures id in sel ==> id !in r && IsSubsequence(r, sel)
    ensures id in sel ==> multiset(r) == multiset(sel)[id := 0]
    ensures id !in sel ==> r == sel + [id]
    ensures forall x :: x != id ==> (x in r <==> x in sel)
  {
    if id in sel then
      FilterIsSubsequence(sel, IsNot(id));
      FilterMultiset(sel, IsNot(id));
      assert multiset(Filter(sel, IsNot(id))) == multiset(sel)[id := 0];
      Filter(sel, IsNot(id))
    else sel + [id]
  }

  function IsNot(id: string): string -> bool {
    (x: string) => x != id
  }

  /** Unticking one id keeps every copy of the others: two tasks made in the
      same millisecond share an id, and select-all lists it twice. */
  lemma UntickKeepsDuplicates()
    ensures ToggleSelection(["x", "x", "i"], "i") == ["x", "x"]
  {
    var r := ToggleSelection(["x", "x", "i"], "i");
    assert multiset(r) == multiset(["x", "x"]);
  }

  /** Ticking a box and unticking it again restores the selection. */
  lemma ToggleTwiceRestores(sel: seq<string>, id: string)
    requires id !in sel
    ensures ToggleSelection(ToggleSelection(sel, id), id) == sel
  {
    FilterAppend(sel, [id], IsNot(id));
    FilterKeepsAll(sel, IsNot(id));
  }

  /** The select-all button: empty when the selection is as long as the
      visible list, otherwise the visible ids in order. */
  function SelectAll(sel: seq<string>, visible: seq<Task>): (r: seq<string>)
    ensures |sel| == |visible| ==> r == []
    ensures |sel| != |visible| ==> |r| == |visible| && forall j :: 0 <= j < |visible| ==> r[j] == visible[j].id
  {
    if |sel| == |Tables.Keys(visible, TaskId)| then [] else Tables.Keys(visible, TaskId)
  }

  /** A press on a partial selection selects every visible task, and a
      second press clears the selection. */
  lemma SelectAllThenDeselect(sel: seq<string>, visible: seq<Task>)
    requires |sel| != |visible|
    ensures forall t :: t in visible ==> t.id in SelectAll(sel, visible)
    ensures SelectAll(SelectAll(sel, visible), visible) == []
  {
    var r := SelectAll(sel, visible);
    forall t | t in visible
      ensures t.id in r
    {
      var j :| 0 <= j < |visible| && visible[j] == t;
      assert r[j] == t.id;
    }
  }

  /** Only the lengths are compared: a selection of one hidden id, over one
      visible task that is not selected, is cleared rather than completed. */
  lemma SelectAllComparesLengthsOnly()
    ensures var t := Task("2", "b", "", "", "medium", None, "todo", "t0", None);
      "2" !in ["1"] && SelectAll(["1"], [t]) == []
  {
  }

  // ---------------------------------------------------------------------
  // The check button

  /** `{ status: done ? 'todo' : 'done', ...(not done ? { completedAt: now } : {}) }`. */
  function TogglePatch(status: string, now: string): (p: TaskPatch)
    ensures p.status == Some(if status == "done" then "todo" else "done")
    ensures p.completedAt.Some? <==> status != "done"
    ensures p.completedAt.Some? ==> p.completedAt.value == now
    ensures p.(status := None, completedAt := None) == NoTaskChanges
  {
    if status == "done" then NoTaskChanges.(status := Some("todo"))
    else NoTaskChanges.(status := Some("done"), completedAt := Some(now))
  }

  /** The check button sends the same patch as dropping the task on the
      other column ('todo' for a done task, 'done' otherwise). */
  lemma CheckIsDropOnOtherColumn(status: string, now: string)
    ensures TogglePatch(status, now) == DropPatch(if status == "done" then "todo" else "done", now)
  {
  }

  /** Two presses: a done task is done again; any other task ends as
      'todo', not its former status. Un-completing keeps the old
      completion time, and nothing but status and completion time changes. */
  lemma CheckTwice(t: Task, first: string, second: string)
    ensures var t1 := MergeTask(t, TogglePatch(t.status, first));
      var t2 := MergeTask(t1, TogglePatch(t1.status, second));
      (t1.status == "done" <==> t.status != "done")
      && t2.status == (if t.status == "done" then "done" else "todo")
      && t2.completedAt.Some?
      && (t.status == "done" ==> t1.completedAt == t.completedAt)
      && t2.(status := t.status, completedAt := t.completedAt) == t
  {
  }

  // ---------------------------------------------------------------------
  // The due-date badge (`formatDueDate` and `getDueDateColor`)

  /** The badge text. For `OnDate` the text is `format(date, 'MMM dd')`,
      the month and day of the date (such as "Mar 05"); date formatting is
      not modelled, so `Text` returns the pattern itself in its place and
      the label keeps the timestamp. */
  datatype DueLabel = NoDate | DueTodayLabel | DueTomorrowLabel | OverdueLabel | OnDate(t: int) {
    function Text(): string {
      match this
      case NoDate => ""
      case DueTodayLabel => "Today"
      case DueTomorrowLabel => "Tomorrow"
      case OverdueLabel => "Overdue"
      case OnDate(_) => "MMM dd"
    }
  }

  /** `formatDueDate`: tests today, tomorrow, past, in that order. A date
      today is never "Overdue"; "Overdue" is exactly a past date on an
      earlier day; a plain date is at least two days ahead. */
  function FormatDueDate(dueDate: Option<int>, now: int): (r: DueLabel)
    ensures r.NoDate? <==> dueDate.None?
    ensures r.DueTodayLabel? <==> dueDate.Some? && Dates.IsToday(dueDate.value, now)
    ensures r.DueTomorrowLabel? <==> dueDate.Some? && Dates.IsTomorrow(dueDate.value, now)
    ensures r.OverdueLabel? <==> dueDate.Some? && Dates.IsPast(dueDate.value, now) && !Dates.IsToday(dueDate.value, now)
    ensures r.OnDate? ==> r.t == dueDate.value && Dates.DayOf(r.t) >= Dates.DayOf(now) + 2
  {
    match dueDate
    case None => NoDate
    case Some(t) =>
      if Dates.IsToday(t, now) then DueTodayLabel
      else if Dates.IsTomorrow(t, now) then (Dates.TomorrowIsNotPast(t, now); DueTomorrowLabel)
      else if Dates.IsPast(t, now) then OverdueLabel
      else (Dates.DayOfMonotone(now, t); OnDate(t))
  }

  /** The badge colour. */
  datatype DueColor = Muted | Red | Amber | Plain {
    function ClassName(): string {
      match this
      case Muted => "text-surface-500"
      case Red => "text-red-500"
      case Amber => "text-amber-500"
      case Plain => "text-surface-600 dark:text-surface-400"
    }
  }

  /** `getDueDateColor`: muted without a date or for a done task; then past
      (red) is tested before today (amber). */
  function DueDateColor(dueDate: Option<int>, status: string, now: int): (r: DueColor)
    ensures r.Muted? <==> dueDate.None? || status == "done"
    ensures r.Red? <==> dueDate.Some? && status != "done" && Dates.IsPast(dueDate.value, now)
    ensures r.Amber? <==> dueDate.Some? && status != "done" && Dates.IsToday(dueDate.value, now) && !Dates.IsPast(dueDate.value, now)
  {
    if dueDate.None? || status == "done" then Muted
    else if Dates.IsPast(dueDate.value, now) then Red
    else if Dates.IsToday(dueDate.value, now) then Amber
    else Plain
  }

  /** For an open task, an "Overdue" badge is red, and "Tomorrow" or a
      plain date is in the plain colour. */
  lemma BadgeColourFollowsLabel(dueDate: Option<int>, status: string, now: int)
    requires status != "done"
    ensures FormatDueDate(dueDate, now).OverdueLabel? ==> DueDateColor(dueDate, status, now).Red?
    ensures FormatDueDate(dueDate, now).DueTomorrowLabel? || FormatDueDate(dueDate, now).OnDate? ==>
      DueDateColor(dueDate, status, now).Plain?
  {
    if FormatDueDate(dueDate, now).DueTomorrowLabel? {
      Dates.TomorrowIsNotPast(dueDate.value, now);
    }
  }

  /** The two tests disagree on a date earlier today: labelled "Today", coloured red. */
  lemma TodayBadgeCanBeRed()
    ensures FormatDueDate(Some(0), Dates.MsPerDay / 2) == DueTodayLabel
    ensures DueDateColor(Some(0), "todo", Dates.MsPerDay / 2) == Red
  {
  }

  // ---------------------------------------------------------------------
  // Inline editing (`handleTaskEdit`)

  /** The field of `{ [field]: value }`; the panel only ever edits the title. */
  datatype EditField = TitleField | DescriptionField | CategoryField | PriorityField | StatusField

  function FieldOf(t: Task, f: EditField): string {
    match f
    case TitleField => t.title
    case DescriptionField => t.description
    case CategoryField => t.category
    case PriorityField => t.priority
    case StatusField => t.status
  }

  /** The string field of a patch that `f` names. */
  function PatchField(p: TaskPatch, f: EditField): Option<string> {
    match f
    case TitleField => p.title
    case DescriptionField => p.description
    case CategoryField => p.category
    case PriorityField => p.priority
    case StatusField => p.status
  }

  /** `{ [field]: value }`: the named field carries the value and the patch
      carries nothing else. */
  function FieldPatch(f: EditField, value: string): (p: TaskPatch)
    ensures PatchField(p, f) == Some(value)
    ensures forall g :: g != f ==> PatchField(p, g) == None
    ensures p.dueDate == None && p.completedAt == None
  {
    match f
    case TitleField => NoTaskChanges.(title := Some(value))
    case DescriptionField => NoTaskChanges.(description := Some(value))
    case CategoryField => NoTaskChanges.(category := Some(value))
    case PriorityField => NoTaskChanges.(priority := Some(value))
    case StatusField => NoTaskChanges.(status := Some(value))
  }

  /** A single-field patch sets that field and leaves every other one as it was. */
  lemma FieldPatchChangesOneField(t: Task, f: EditField, value: string)
    ensures var r := MergeTask(t, FieldPatch(f, value));
      FieldOf(r, f) == value
      && (forall g :: g != f ==> FieldOf(r, g) == FieldOf(t, g))
      && r.dueDate == t.dueDate && r.completedAt == t.completedAt
  {
  }

  // ---------------------------------------------------------------------
  // The panel's own state and handlers

  class Panel {
    var newTask: Draft
    var editingTask: Option<string>

    constructor ()
      ensures newTask == EmptyDraft && editingTask == None
    {
      newTask := EmptyDraft;
      editingTask := None;
    }

    /** `handleSubmit`: nothing is sent for a blank title. Otherwise the
        page creates the task and the draft is reset; the page's handler
        never rethrows, so the reset follows every non-blank submit. */
    method HandleSubmit(board: Board, id: string, sentAt: string, assignedAt: string) returns (created: Option<Task>)
      modifies this`newTask, board`tasks, board`showAddForm, board.taskApi
      ensures Text.IsBlank(old(newTask.title)) ==>
        created == None && newTask == old(newTask) && board.tasks == old(board.tasks)
        && board.taskApi.tasks == old(board.taskApi.tasks) && board.showAddForm == old(board.showAddForm)
      ensures !Text.IsBlank(old(newTask.title)) ==>
        var t := TaskService.NewRecord(CreateRequest(old(newTask), sentAt), id, assignedAt);
        created == Some(t) && newTask == EmptyDraft && !board.showAddForm
        && board.tasks == old(board.tasks) + [t] && board.taskApi.tasks == old(board.taskApi.tasks) + [t]
    {
      Text.TrimEmptyIffBlank(newTask.title);
      if Text.Trim(newTask.title) == "" {
        return None;
      }
      var t := board.HandleTaskCreate(newTask, id, sentAt, assignedAt);
      newTask := EmptyDraft;
      created := Some(t);
    }

    /** A click on a title opens it for editing. */
    method StartEditing(taskId: string)
      modifies this`editingTask
      ensures editingTask == Some(taskId)
    {
      editingTask := Some(taskId);
    }

    /** `handleTaskEdit` as written: the page's update handler catches every
        error, so the editor closes whether or not the update succeeded. */
    method HandleTaskEdit(board: Board, taskId: string, field: EditField, value: string)
      modifies this`editingTask, board`tasks, board.taskApi
      ensures board.taskApi.tasks == TaskService.UpdateFirst(old(board.taskApi.tasks), taskId, FieldPatch(field, value))
      ensures board.tasks == AfterUpdate(old(board.tasks), old(board.taskApi.tasks), taskId, FieldPatch(field, value))
      ensures editingTask == None
    {
      var _ := board.HandleTaskUpdate(taskId, FieldPatch(field, value));
      editingTask := None;
    }

    /** `handleTaskEdit` as its error handling intends: the editor closes
        only when the update succeeded. */
    method HandleTaskEditIntended(board: Board, taskId: string, field: EditField, value: string)
      modifies this`editingTask, board`tasks, board.taskApi
      ensures board.taskApi.tasks == TaskService.UpdateFirst(old(board.taskApi.tasks), taskId, FieldPatch(field, value))
      ensures board.tasks == AfterUpdate(old(board.tasks), old(board.taskApi.tasks), taskId, FieldPatch(field, value))
      ensures editingTask == if TaskService.HasTask(old(board.taskApi.tasks), taskId) then None else old(editingTask)
    {
      var ok := board.HandleTaskUpdate(taskId, FieldPatch(field, value));
      if ok {
        editingTask := None;
      }
    }

    /** `handleTaskToggle`. */
    method HandleTaskToggle(board: Board, taskId: string)
      modifies board`selectedTasks
      ensures board.selectedTasks == ToggleSelection(old(board.selectedTasks), taskId)
    {
      board.selectedTasks := ToggleSelection(board.selectedTasks, taskId);
    }

    /** The select-all button, over the tasks on screen. */
    method HandleSelectAll(board: Board, now: int)
      modifies board`selectedTasks
      ensures board.selectedTasks == SelectAll(old(board.selectedTasks), board.Visible(now))
    {
      board.selectedTasks := SelectAll(board.selectedTasks, board.Visible(now));
    }

    /** The check button on a card. */
    method HandleCheck(board: Board, task: Task, now: string)
      modifies board`tasks, board.taskApi
      ensures board.taskApi.tasks == TaskService.UpdateFirst(old(board.taskApi.tasks), task.id, TogglePatch(task.status, now))
      ensures board.tasks == AfterUpdate(old(board.tasks), old(board.taskApi.tasks), task.id, TogglePatch(task.status, now))
    {
      var _ := board.HandleTaskUpdate(task.id, TogglePatch(task.status, now));
    }
  }

  /** Editing a task the store no longer holds: the update fails, and the
      editor closes anyway. */
  method EditOfMissingTaskClosesEditor() returns (editing: Option<string>, stored: seq<Task>)
    ensures editing == None && stored == []
  {
    var tasksApi := new TaskService.TaskStore([]);
    var categoriesApi := new CategoryService.CategoryStore([]);
    var board := new Board(tasksApi, categoriesApi);
    var panel := new Panel();
    panel.StartEditing("1");
    panel.HandleTaskEdit(board, "1", TitleField, "renamed");
    editing, stored := panel.editingTask, tasksApi.tasks;
  }

  /** The same edit under the intended handling keeps the editor open. */
  method EditOfMissingTaskKeepsEditor() returns (editing: Option<string>, stored: seq<Task>)
    ensures editing == Some("1") && stored == []
  {
    var tasksApi := new TaskService.TaskStore([]);
    var categoriesApi := new CategoryService.CategoryStore([]);
    var board := new Board(tasksApi, categoriesApi);
    var panel := new Panel();
    panel.StartEditing("1");
    panel.HandleTaskEditIntended(board, "1", TitleField, "renamed");
    editing, stored := panel.editingTask, tasksApi.tasks;
  }
}
