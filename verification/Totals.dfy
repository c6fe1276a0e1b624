/** Totals of the sizes a map holds. */
module Totals {

  ghost function Sum<K>(sizes: map<K, nat>): nat
  {
    if sizes == map[] then 0
    else
      var key :| key in sizes;
      sizes[key] + Sum(sizes - {key})
  }

  /** The total does not depend on which entry is taken first. */
  lemma {:induction false} SumTakes<K>(sizes: map<K, nat>, key: K)
    requires key in sizes
    ensures Sum(sizes) == sizes[key] + Sum(sizes - {key})
    decreases |sizes|
  {
    var first :| first in sizes && Sum(sizes) == sizes[first] + Sum(sizes - {first});
    if first != key {
      SumTakes(sizes - {first}, key);
      SumTakes(sizes - {key}, first);
      assert sizes - {first} - {key} == sizes - {key} - {first};
    }
  }

  lemma SumAdds<K>(sizes: map<K, nat>, key: K, size: nat)
    ensures Sum(sizes[key := size]) + (if key in sizes then sizes[key] else 0) == Sum(sizes) + size
  {
    var more := sizes[key := size];
    SumTakes(more, key);
    if key in sizes {
      SumTakes(sizes, key);
    }
    assert more - {key} == sizes - {key};
    assert key !in sizes ==> sizes - {key} == sizes;
  }

  /** Maps over disjoint keys total what they total apart. */
  lemma {:induction false} SumJoins<K>(first: map<K, nat>, second: map<K, nat>)
    requires first.Keys !! second.Keys
    ensures Sum(first + second) == Sum(first) + Sum(second)
    decreases |first|
  {
    hide Sum;
    if first == map[] {
      assert first + second == second;
      SumOfNone<K>();
    } else {
      var key :| key in first;
      JoinTakes(first, second, key);
      SumTakes(first, key);
      SumTakes(first + second, key);
      SumJoins(first - {key}, second);
    }
  }

  lemma JoinTakes<K>(first: map<K, nat>, second: map<K, nat>, key: K)
    requires key in first && first.Keys !! second.Keys
    ensures (first + second) - {key} == (first - {key}) + second
  {
    assert ((first + second) - {key}).Keys == ((first - {key}) + second).Keys;
  }

  lemma SumOfNone<K>()
    ensures Sum<K>(map[]) == 0
  {
  }

  /** Entries no larger, and one of them smaller, total less. */
  lemma {:induction false} SumFalls<K>(after: map<K, nat>, before: map<K, nat>, key: K)
    requires after.Keys == before.Keys && key in before && after[key] < before[key]
    requires forall other :: other in before ==> after[other] <= before[other]
    ensures Sum(after) < Sum(before)
    decreases |before|
  {
    SumTakes(after, key);
    SumTakes(before, key);
    if other :| other in before && other != key {
      SumTakes(after - {key}, other);
      SumTakes(before - {key}, other);
      SumTakes(after, other);
      SumTakes(before, other);
      SumFalls(after - {other}, before - {other}, key);
    } else {
      assert after - {key} == before - {key};
    }
  }
}
