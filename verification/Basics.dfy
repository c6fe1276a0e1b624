/** What every model here is written with. */
module Basics {

  datatype Option<+T> = None | Some(value: T)

  /** Nothing is named twice. */
  ghost predicate Distinct<T>(items: seq<T>)
  {
    forall i, j :: 0 <= i < j < |items| ==> items[i] != items[j]
  }

  function Least(one: nat, other: nat): nat
  {
    if one < other then one else other
  }
}
