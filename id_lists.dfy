/** Lists of records that carry an `id`, updated the way both stores do:
    `findIndex` on the id, then an assignment at that index. */
module IdLists {

  /** `list.findIndex(x => x.id === id)`: the first index whose element
      has that id, or -1 when there is none. */
  function IndexOfId<T>(list: seq<T>, idOf: T -> string, id: string): (index: int)
    ensures -1 <= index < |list|
    ensures index == -1 <==> forall j :: 0 <= j < |list| ==> idOf(list[j]) != id
    ensures 0 <= index ==> idOf(list[index]) == id
    ensures 0 <= index ==> forall j :: 0 <= j < index ==> idOf(list[j]) != id
    decreases |list|
  {
    if |list| == 0 then -1
    else if idOf(list[0]) == id then 0
    else
      var rest := IndexOfId(list[1..], idOf, id);
      if rest == -1 then -1 else rest + 1
  }

  /** `const index = list.findIndex(…); if (index !== -1) list[index] = item`. */
  function UpdateById<T>(list: seq<T>, idOf: T -> string, id: string, item: T): (updated: seq<T>)
    ensures |updated| == |list|
    ensures (forall j :: 0 <= j < |list| ==> idOf(list[j]) != id) ==> updated == list
  {
    var index := IndexOfId(list, idOf, id);
    if index == -1 then list else list[index := item]
  }

  /** The update puts `item` at the first matching position, whatever
      `item`'s own id is, and keeps every other element. */
  lemma UpdateByIdSpec<T>(list: seq<T>, idOf: T -> string, id: string, item: T, i: int)
    requires 0 <= i < |list| && idOf(list[i]) == id
    requires forall j :: 0 <= j < i ==> idOf(list[j]) != id
    ensures UpdateById(list, idOf, id, item) == list[i := item]
  {
  }

  /** Only the first element with the id is replaced: a later element with
      the same id is left as it was. */
  lemma UpdateByIdFirstOnly<T>(list: seq<T>, idOf: T -> string, id: string, item: T, i: int, k: int)
    requires 0 <= i < k < |list| && idOf(list[i]) == id
    ensures UpdateById(list, idOf, id, item)[k] == list[k]
  {
  }
}
