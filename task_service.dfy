/** The mock task store (src/services/api/taskService.js): a list of task
    records held in a field and changed in place. The artificial delay is
    not modelled; the id and the creation timestamp, which the store reads
    from the clock, are parameters. */
module TaskService {
  import opened Wrappers
  import opened Records
  import Tables
  import Seqs

  const TaskNotFound := "Task not found"

  /** The position `update` and `delete` act on: the first task with that id, or -1. */
  function IndexOf(ts: seq<Task>, id: string): int {
    Tables.FindIndex(ts, TaskId, id)
  }

  predicate HasTask(ts: seq<Task>, id: string) {
    IndexOf(ts, id) >= 0
  }

  /** The record `create` stores: the input's fields, with the assigned id
      and creation time written over any the input carried. */
  function NewRecord(data: Task, id: string, createdAt: string): (t: Task)
    ensures t.id == id && t.createdAt == createdAt
    ensures t.(id := data.id, createdAt := data.createdAt) == data
  {
    data.(id := id, createdAt := createdAt)
  }

  /** The list after `update(id, p)` succeeds or fails: only the first task
      with that id changes, to its merge with the patch. */
  function UpdateFirst(ts: seq<Task>, id: string, p: TaskPatch): (r: seq<Task>)
    ensures |r| == |ts|
    ensures forall j :: 0 <= j < |ts| && j != IndexOf(ts, id) ==> r[j] == ts[j]
    ensures HasTask(ts, id) ==> r[IndexOf(ts, id)] == MergeTask(ts[IndexOf(ts, id)], p)
  {
    var i := IndexOf(ts, id);
    if i < 0 then ts else ts[i := MergeTask(ts[i], p)]
  }

  /** The list after `delete(id)` succeeds or fails: only the first task
      with that id is gone. */
  function DeleteFirst(ts: seq<Task>, id: string): (r: seq<Task>)
    ensures HasTask(ts, id) ==> |r| == |ts| - 1 && multiset(r) + multiset{ts[IndexOf(ts, id)]} == multiset(ts)
    ensures HasTask(ts, id) ==> var i := IndexOf(ts, id); r[..i] == ts[..i] && r[i..] == ts[i + 1..]
    ensures !HasTask(ts, id) ==> r == ts
  {
    var i := IndexOf(ts, id);
    if i < 0 then ts
    else
      assert ts == ts[..i] + [ts[i]] + ts[i + 1..];
      Tables.RemoveAt(ts, i)
  }

  /** An update never changes which ids the list holds, or where. */
  lemma UpdateFirstKeepsIds(ts: seq<Task>, id: string, p: TaskPatch)
    ensures Tables.Keys(UpdateFirst(ts, id, p), TaskId) == Tables.Keys(ts, TaskId)
  {
  }

  /** Hence the position of every id survives an update. */
  lemma UpdateFirstKeepsIndex(ts: seq<Task>, id: string, p: TaskPatch, other: string)
    ensures IndexOf(UpdateFirst(ts, id, p), other) == IndexOf(ts, other)
  {
    var r := UpdateFirst(ts, id, p);
    assert forall j :: 0 <= j < |ts| ==> TaskId(r[j]) == TaskId(ts[j]);
    SameIdsSameIndex(r, ts, other);
  }

  lemma {:induction false} SameIdsSameIndex(a: seq<Task>, b: seq<Task>, id: string)
    requires |a| == |b|
    requires forall j :: 0 <= j < |a| ==> TaskId(a[j]) == TaskId(b[j])
    ensures IndexOf(a, id) == IndexOf(b, id)
    decreases |a|
  {
    if a != [] {
      SameIdsSameIndex(a[1..], b[1..], id);
    }
  }

  /** The tasks kept by a delete stay in their relative order. */
  lemma DeleteFirstIsSubsequence(ts: seq<Task>, id: string)
    ensures Seqs.IsSubsequence(DeleteFirst(ts, id), ts)
  {
    var i := IndexOf(ts, id);
    if i >= 0 {
      Tables.RemoveAtIsSubsequence(ts, i);
    } else {
      Seqs.SubsequenceReflexive(ts);
    }
  }

  /** Unique ids stay unique under update. */
  lemma UpdateKeepsUniqueIds(ts: seq<Task>, id: string, p: TaskPatch)
    requires Tables.UniqueKeys(ts, TaskId)
    ensures Tables.UniqueKeys(UpdateFirst(ts, id, p), TaskId)
  {
    var r := UpdateFirst(ts, id, p);
    assert forall j :: 0 <= j < |ts| ==> TaskId(r[j]) == TaskId(ts[j]);
  }

  /** Unique ids stay unique under delete. */
  lemma DeleteKeepsUniqueIds(ts: seq<Task>, id: string)
    requires Tables.UniqueKeys(ts, TaskId)
    ensures Tables.UniqueKeys(DeleteFirst(ts, id), TaskId)
  {
    var i := IndexOf(ts, id);
    if i >= 0 {
      var r := Tables.RemoveAt(ts, i);
      forall a, b | 0 <= a < b < |r| ensures TaskId(r[a]) != TaskId(r[b]) {
        var a' := if a < i then a else a + 1;
        var b' := if b < i then b else b + 1;
        assert r[a] == ts[a'] && r[b] == ts[b'] && a' < b';
      }
    }
  }

  /** Unique ids stay unique under a create whose assigned id is new. */
  lemma CreateKeepsUniqueIds(ts: seq<Task>, t: Task)
    requires Tables.UniqueKeys(ts, TaskId)
    requires !HasTask(ts, t.id)
    ensures Tables.UniqueKeys(ts + [t], TaskId)
  {
  }

  class TaskStore {
    var tasks: seq<Task>

    /** `this.tasks = [...taskData]`. */
    constructor (seed: seq<Task>)
      ensures tasks == seed
    {
      tasks := seed;
    }

    /** `getAll`: a copy of the whole list, in order. */
    method GetAll() returns (r: seq<Task>)
      ensures r == tasks
    {
      r := tasks;
    }

    /** `getById`: the first task with that id, or null; never throws. */
    method GetById(id: string) returns (r: Option<Task>)
      ensures r.None? <==> !HasTask(tasks, id)
      ensures r.Some? ==> r.value == tasks[IndexOf(tasks, id)]
    {
      r := Tables.Find(tasks, TaskId, id);
    }

    /** `create`: appends the new record and returns it. */
    method Create(data: Task, id: string, createdAt: string) returns (t: Task)
      modifies this
      ensures t == NewRecord(data, id, createdAt)
      ensures tasks == old(tasks) + [t]
    {
      t := data.(id := id, createdAt := createdAt);
      tasks := tasks + [t];
    }

    /** `update`: throws "Task not found" for a missing id; otherwise merges
        the patch into the first task with that id and returns the result. */
    method Update(id: string, updates: TaskPatch) returns (r: Result<Task>)
      modifies this
      ensures tasks == UpdateFirst(old(tasks), id, updates)
      ensures !HasTask(old(tasks), id) ==> r == Failure(TaskNotFound)
      ensures HasTask(old(tasks), id) ==> r == Success(tasks[IndexOf(old(tasks), id)])
    {
      var index := Tables.FindIndex(tasks, TaskId, id);
      if index == -1 {
        return Failure(TaskNotFound);
      }
      tasks := tasks[index := MergeTask(tasks[index], updates)];
      r := Success(tasks[index]);
    }

    /** `delete`: throws "Task not found" for a missing id; otherwise removes
        the first task with that id and returns true. */
    method Delete(id: string) returns (r: Result<bool>)
      modifies this
      ensures tasks == DeleteFirst(old(tasks), id)
      ensures r == if HasTask(old(tasks), id) then Success(true) else Failure(TaskNotFound)
    {
      var index := Tables.FindIndex(tasks, TaskId, id);
      if index == -1 {
        return Failure(TaskNotFound);
      }
      tasks := tasks[..index] + tasks[index + 1..];
      r := Success(true);
    }
  }
}
