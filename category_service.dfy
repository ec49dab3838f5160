/** The mock category store (src/services/api/categoryService.js), the same
    five operations as the task store over a list of categories. The id is
    a parameter; the delay is not modelled. */
module CategoryService {
  import opened Wrappers
  import opened Records
  import Tables
  import Seqs

  const CategoryNotFound := "Category not found"

  function IndexOf(cs: seq<Category>, id: string): int {
    Tables.FindIndex(cs, CategoryId, id)
  }

  predicate HasCategory(cs: seq<Category>, id: string) {
    IndexOf(cs, id) >= 0
  }

  /** The record `create` stores: the input's name and colour, the assigned
      id and a task count of 0, whatever the input carried for those two. */
  function NewRecord(data: Category, id: string): (c: Category)
    ensures c.id == id && c.taskCount == 0
    ensures c.name == data.name && c.color == data.color
  {
    data.(id := id, taskCount := 0)
  }

  /** The list after `update(id, p)`: only the first category with that id changes. */
  function UpdateFirst(cs: seq<Category>, id: string, p: CategoryPatch): (r: seq<Category>)
    ensures |r| == |cs|
    ensures forall j :: 0 <= j < |cs| && j != IndexOf(cs, id) ==> r[j] == cs[j]
    ensures HasCategory(cs, id) ==> r[IndexOf(cs, id)] == MergeCategory(cs[IndexOf(cs, id)], p)
  {
    var i := IndexOf(cs, id);
    if i < 0 then cs else cs[i := MergeCategory(cs[i], p)]
  }

  /** The list after `delete(id)`: only the first category with that id is gone. */
  function DeleteFirst(cs: seq<Category>, id: string): (r: seq<Category>)
    ensures HasCategory(cs, id) ==> |r| == |cs| - 1 && multiset(r) + multiset{cs[IndexOf(cs, id)]} == multiset(cs)
    ensures HasCategory(cs, id) ==> var i := IndexOf(cs, id); r[..i] == cs[..i] && r[i..] == cs[i + 1..]
    ensures !HasCategory(cs, id) ==> r == cs
  {
    var i := IndexOf(cs, id);
    if i < 0 then cs
    else
      assert cs == cs[..i] + [cs[i]] + cs[i + 1..];
      Tables.RemoveAt(cs, i)
  }

  /** The categories kept by a delete stay in their relative order. */
  lemma DeleteFirstIsSubsequence(cs: seq<Category>, id: string)
    ensures Seqs.IsSubsequence(DeleteFirst(cs, id), cs)
  {
    var i := IndexOf(cs, id);
    if i >= 0 {
      Tables.RemoveAtIsSubsequence(cs, i);
    } else {
      Seqs.SubsequenceReflexive(cs);
    }
  }

  /** An update never changes which ids the list holds, or where. */
  lemma UpdateFirstKeepsIds(cs: seq<Category>, id: string, p: CategoryPatch)
    ensures Tables.Keys(UpdateFirst(cs, id, p), CategoryId) == Tables.Keys(cs, CategoryId)
  {
  }

  class CategoryStore {
    var categories: seq<Category>

    /** `this.categories = [...categoryData]`. */
    constructor (seed: seq<Category>)
      ensures categories == seed
    {
      categories := seed;
    }

    /** `getAll`: a copy of the whole list, in order. */
    method GetAll() returns (r: seq<Category>)
      ensures r == categories
    {
      r := categories;
    }

    /** `getById`: the first category with that id, or null; never throws. */
    method GetById(id: string) returns (r: Option<Category>)
      ensures r.None? <==> !HasCategory(categories, id)
      ensures r.Some? ==> r.value == categories[IndexOf(categories, id)]
    {
      r := Tables.Find(categories, CategoryId, id);
    }

    /** `create`: appends the new record and returns it. */
    method Create(data: Category, id: string) returns (c: Category)
      modifies this
      ensures c == NewRecord(data, id)
      ensures categories == old(categories) + [c]
    {
      c := data.(id := id, taskCount := 0);
      categories := categories + [c];
    }

    /** `update`: throws "Category not found" for a missing id; otherwise
        merges the patch into the first match and returns the result. */
    method Update(id: string, updates: CategoryPatch) returns (r: Result<Category>)
      modifies this
      ensures categories == UpdateFirst(old(categories), id, updates)
      ensures !HasCategory(old(categories), id) ==> r == Failure(CategoryNotFound)
      ensures HasCategory(old(categories), id) ==> r == Success(categories[IndexOf(old(categories), id)])
    {
      var index := Tables.FindIndex(categories, CategoryId, id);
      if index == -1 {
        return Failure(CategoryNotFound);
      }
      categories := categories[index := MergeCategory(categories[index], updates)];
      r := Success(categories[index]);
    }

    /** `delete`: throws "Category not found" for a missing id; otherwise
        removes the first match and returns true. */
    method Delete(id: string) returns (r: Result<bool>)
      modifies this
      ensures categories == DeleteFirst(old(categories), id)
      ensures r == if HasCategory(old(categories), id) then Success(true) else Failure(CategoryNotFound)
    {
      var index := Tables.FindIndex(categories, CategoryId, id);
      if index == -1 {
        return Failure(CategoryNotFound);
      }
      categories := categories[..index] + categories[index + 1..];
      r := Success(true);
    }
  }
}
