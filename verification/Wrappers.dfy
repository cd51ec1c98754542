/** Optional values, success-or-error results, picking an element of a collection, and searching a sequence. */
module Wrappers {
  datatype Option<+T> = None | Some(value: T)

  datatype Result<+T, +E> = Ok(value: T) | Err(error: E)

  method Pick<T(==)>(items: set<T>) returns (item: T)
    requires items != {}
    ensures item in items
  {
    item :| item in items;
  }

  lemma Member<T>(items: set<T>) returns (item: T)
    requires items != {}
    ensures item in items
  {
    item :| item in items;
  }

  lemma KeyOf<K, V>(entries: map<K, V>, value: V) returns (key: K)
    requires value in entries.Values
    ensures key in entries && entries[key] == value
  {
    key :| key in entries && entries[key] == value;
  }

  /** The first element that satisfies `wanted`. */
  function First<T>(items: seq<T>, wanted: T -> bool): (index: Option<nat>)
    ensures index.None? <==> forall i :: 0 <= i < |items| ==> !wanted(items[i])
    ensures index.Some? ==> index.value < |items| && wanted(items[index.value])
                            && forall i :: 0 <= i < index.value ==> !wanted(items[i])
  {
    FirstFrom(items, wanted, 0)
  }

  function FirstFrom<T>(items: seq<T>, wanted: T -> bool, start: nat): (index: Option<nat>)
    requires start <= |items|
    ensures index.None? <==> forall i :: start <= i < |items| ==> !wanted(items[i])
    ensures index.Some? ==> start <= index.value < |items| && wanted(items[index.value])
                            && forall i :: start <= i < index.value ==> !wanted(items[i])
    decreases |items| - start
  {
    if start == |items| then None
    else if wanted(items[start]) then Some(start)
    else FirstFrom(items, wanted, start + 1)
  }
}
