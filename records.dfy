/** The records the two stores hold, the patches `update` merges into them,
    and the add-task draft. */
module Records {
  import opened Wrappers

  /** A task record. A missing due date is `None`; a due date is a
      timestamp in milliseconds. `createdAt` and `completedAt` are ISO
      strings, as `toISOString` writes them. */
  datatype Task = Task(
    id: string,
    title: string,
    description: string,
    category: string,
    priority: string,
    dueDate: Option<int>,
    status: string,
    createdAt: string,
    completedAt: Option<string>)

  /** The fields an `update` may carry; a field left `None` is absent from
      the patch object. No patch in the repository removes a field. */
  datatype TaskPatch = TaskPatch(
    title: Option<string>,
    description: Option<string>,
    category: Option<string>,
    priority: Option<string>,
    dueDate: Option<int>,
    status: Option<string>,
    completedAt: Option<string>)

  const NoTaskChanges := TaskPatch(None, None, None, None, None, None, None)

  function TaskId(t: Task): string {
    t.id
  }

  /** `{ ...t, ...p }`: every field the patch carries wins, every other
      field of `t` is kept. */
  function MergeTask(t: Task, p: TaskPatch): (r: Task)
    ensures r.id == t.id && r.createdAt == t.createdAt
  {
    Task(
      t.id,
      p.title.GetOr(t.title),
      p.description.GetOr(t.description),
      p.category.GetOr(t.category),
      p.priority.GetOr(t.priority),
      if p.dueDate.Some? then p.dueDate else t.dueDate,
      p.status.GetOr(t.status),
      t.createdAt,
      if p.completedAt.Some? then p.completedAt else t.completedAt)
  }

  /** `{ ...p, ...q }`: the fields of `q` override those of `p`. */
  function ThenTask(p: TaskPatch, q: TaskPatch): TaskPatch {
    TaskPatch(
      if q.title.Some? then q.title else p.title,
      if q.description.Some? then q.description else p.description,
      if q.category.Some? then q.category else p.category,
      if q.priority.Some? then q.priority else p.priority,
      if q.dueDate.Some? then q.dueDate else p.dueDate,
      if q.status.Some? then q.status else p.status,
      if q.completedAt.Some? then q.completedAt else p.completedAt)
  }

  lemma MergeNoChanges(t: Task)
    ensures MergeTask(t, NoTaskChanges) == t
  {
  }

  /** Merging a patch twice is merging it once. */
  lemma MergeIdempotent(t: Task, p: TaskPatch)
    ensures MergeTask(MergeTask(t, p), p) == MergeTask(t, p)
  {
  }

  /** Two successive updates are one update with the combined patch. */
  lemma MergeTwice(t: Task, p: TaskPatch, q: TaskPatch)
    ensures MergeTask(MergeTask(t, p), q) == MergeTask(t, ThenTask(p, q))
  {
  }

  /** A category record. */
  datatype Category = Category(id: string, name: string, color: string, taskCount: int)

  datatype CategoryPatch = CategoryPatch(name: Option<string>, color: Option<string>, taskCount: Option<int>)

  function CategoryId(c: Category): string {
    c.id
  }

  /** `{ ...c, ...p }` for categories. */
  function MergeCategory(c: Category, p: CategoryPatch): (r: Category)
    ensures r.id == c.id
  {
    Category(c.id, p.name.GetOr(c.name), p.color.GetOr(c.color), p.taskCount.GetOr(c.taskCount))
  }

  lemma MergeCategoryIdempotent(c: Category, p: CategoryPatch)
    ensures MergeCategory(MergeCategory(c, p), p) == MergeCategory(c, p)
  {
  }

  /** The add-task form's state. The form's empty due-date string is `None`. */
  datatype Draft = Draft(title: string, description: string, category: string, priority: string, dueDate: Option<int>)

  /** The form's initial and reset value. */
  const EmptyDraft := Draft("", "", "", "medium", None)
}
