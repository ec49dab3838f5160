/** `findIndex`, `find` and `splice(i, 1)` over a list of records keyed by
    their id, shared by the two stores and the board. */
module Tables {
  import opened Wrappers
  import Seqs

  /** `rs.findIndex(r => key(r) === id)`: the first index whose record has
      that id, or -1. */
  function FindIndex<R>(rs: seq<R>, key: R -> string, id: string): (i: int)
    ensures -1 <= i < |rs|
    ensures i == -1 <==> forall j :: 0 <= j < |rs| ==> key(rs[j]) != id
    ensures 0 <= i ==> key(rs[i]) == id && forall j :: 0 <= j < i ==> key(rs[j]) != id
    decreases |rs|
  {
    if rs == [] then -1
    else if key(rs[0]) == id then 0
    else
      var k := FindIndex(rs[1..], key, id);
      if k == -1 then -1 else k + 1
  }

  /** `rs.find(r => key(r) === id)`, with null as `None`. */
  function Find<R>(rs: seq<R>, key: R -> string, id: string): (r: Option<R>)
    ensures r.None? <==> forall j :: 0 <= j < |rs| ==> key(rs[j]) != id
    ensures r.Some? ==> exists i :: 0 <= i < |rs| && rs[i] == r.value && key(rs[i]) == id
                                    && forall j :: 0 <= j < i ==> key(rs[j]) != id
  {
    var i := FindIndex(rs, key, id);
    if i < 0 then None else Some(rs[i])
  }

  /** `rs.splice(i, 1)`: the list without position `i`. */
  function RemoveAt<R>(rs: seq<R>, i: int): (r: seq<R>)
    requires 0 <= i < |rs|
    ensures |r| == |rs| - 1
    ensures forall j :: 0 <= j < i ==> r[j] == rs[j]
    ensures forall j :: i <= j < |r| ==> r[j] == rs[j + 1]
  {
    rs[..i] + rs[i + 1..]
  }

  /** The ids of a list of records, in order (`rs.map(key)`). */
  function Keys<R>(rs: seq<R>, key: R -> string): (ks: seq<string>)
    ensures |ks| == |rs|
    ensures forall j :: 0 <= j < |rs| ==> ks[j] == key(rs[j])
    decreases |rs|
  {
    if rs == [] then [] else [key(rs[0])] + Keys(rs[1..], key)
  }

  /** No two records share an id. */
  predicate UniqueKeys<R>(rs: seq<R>, key: R -> string) {
    forall i, j :: 0 <= i < j < |rs| ==> key(rs[i]) != key(rs[j])
  }

  /** Where ids are unique, the record found is the only one with that id. */
  lemma FindIndexUnique<R>(rs: seq<R>, key: R -> string, id: string, j: int)
    requires UniqueKeys(rs, key)
    requires 0 <= j < |rs| && key(rs[j]) == id
    ensures FindIndex(rs, key, id) == j
  {
  }

  /** `splice(i, 1)` keeps the order of the records it leaves. */
  lemma {:induction false} RemoveAtIsSubsequence<R>(rs: seq<R>, i: int)
    requires 0 <= i < |rs|
    ensures Seqs.IsSubsequence(RemoveAt(rs, i), rs)
    decreases i
  {
    if i == 0 {
      assert RemoveAt(rs, 0) == rs[1..];
      Seqs.SubsequenceReflexive(rs[1..]);
    } else {
      RemoveAtIsSubsequence(rs[1..], i - 1);
      assert RemoveAt(rs, i)[1..] == RemoveAt(rs[1..], i - 1);
    }
  }
}
