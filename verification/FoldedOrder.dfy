/** Lists sorted as they are spelled and then compared with case folded: when
    the two agree. */
module FoldedOrder {
  import opened Basics
  import opened Texts
  import opened Sorting

  function Folded(texts: seq<string>): seq<string>
  {
    Each(Lower, texts)
  }

  /** How many of the texts fold as one does and come before it. */
  function Before(texts: seq<string>, text: string): nat
  {
    if texts == [] then 0 else Before(texts[1..], text) + if Precedes(texts[0], text) then 1 else 0
  }

  predicate Precedes(one: string, other: string)
  {
    Lower(one) == Lower(other) && one != other && AtMost(one, other)
  }

  /** The same text of two lists, but for case: where a list spells one more
      than one way, its spellings are paired with the other's in order. */
  predicate Paired(one: seq<string>, text: string, other: seq<string>, again: string)
  {
    Lower(text) == Lower(again) && Before(one, text) == Before(other, again)
  }

  /** The two lists put every two texts in the same order, each as it spells them. */
  ghost predicate OrderedAlike(one: seq<string>, other: seq<string>)
  {
    forall x, y, again, twin ::
      x in one && y in one && again in other && twin in other && Paired(one, x, other, again) && Paired(one, y, other, twin) ==>
        (AtMost(x, y) <==> AtMost(again, twin))
  }

  // ------------------------------------------------- the texts of a list alike

  /** How many items before one are the same as it. */
  function Rank(items: seq<string>, at: nat): nat
    requires at < |items|
  {
    multiset(items[..at])[items[at]]
  }

  lemma RankRises(items: seq<string>, i: nat, j: nat)
    requires i < j < |items| && items[i] == items[j]
    ensures Rank(items, i) < Rank(items, j)
  {
    assert items[..j] == items[..i] + [items[i]] + items[i + 1..j];
  }

  lemma RankIsBelow(items: seq<string>, at: nat)
    requires at < |items|
    ensures Rank(items, at) < multiset(items)[items[at]]
  {
    assert items == items[..at] + [items[at]] + items[at + 1..];
  }

  /** Where an item is for the time after so many. */
  function RankedAt(items: seq<string>, item: string, rank: nat): (at: nat)
    requires rank < multiset(items)[item]
    ensures at < |items| && items[at] == item && Rank(items, at) == rank
  {
    var fewer := items[..|items| - 1];
    assert items == fewer + [items[|items| - 1]];
    if rank < multiset(fewer)[item] then
      var at := RankedAt(fewer, item, rank);
      assert items[..at] == fewer[..at];
      at
    else |items| - 1
  }

  lemma {:induction false} RisesBy(places: seq<nat>, at: nat)
    requires at < |places| && forall i, j :: 0 <= i < j < |places| ==> places[i] < places[j]
    ensures places[at] >= at && places[|places| - 1] >= places[at] + (|places| - 1 - at)
  {
    if at > 0 {
      RisesBy(places[..|places| - 1], at - 1);
      RisesBy(places[1..], at - 1);
    } else if |places| > 1 {
      RisesBy(places[1..], 0);
    }
  }

  /** The only rising numbering of a list within itself is its own. */
  lemma RisesWithin(places: seq<nat>)
    requires forall i, j :: 0 <= i < j < |places| ==> places[i] < places[j]
    requires forall i :: 0 <= i < |places| ==> places[i] < |places|
    ensures forall i :: 0 <= i < |places| ==> places[i] == i
  {
    forall i | 0 <= i < |places|
      ensures places[i] == i
    {
      RisesBy(places, i);
    }
  }

  // ------------------------------------------------------------- lists in order

  lemma InOrderAt(texts: seq<string>, i: nat, j: nat)
    requires InOrder(texts) && Distinct(texts) && i < |texts| && j < |texts|
    ensures AtMost(texts[i], texts[j]) <==> i <= j
  {
    OneIsAtMost(texts[i], texts[j]);
    hide AtMost;
  }

  lemma {:induction false} BeforeJoined(head: seq<string>, tail: seq<string>, text: string)
    ensures Before(head + tail, text) == Before(head, text) + Before(tail, text)
  {
    hide Precedes;
    if head == [] {
      assert head + tail == tail;
    } else {
      assert (head + tail)[1..] == head[1..] + tail;
      BeforeJoined(head[1..], tail, text);
    }
  }

  lemma {:induction false} BeforeNone(texts: seq<string>, text: string)
    requires forall i :: 0 <= i < |texts| ==> !Precedes(texts[i], text)
    ensures Before(texts, text) == 0
  {
    hide Precedes;
    if texts != [] {
      BeforeNone(texts[1..], text);
    }
  }

  /** Among texts that all come before one, those that precede it are those
      that fold alike. */
  lemma {:induction false} BeforeAll(texts: seq<string>, text: string)
    requires forall i :: 0 <= i < |texts| ==> (Precedes(texts[i], text) <==> Lower(texts[i]) == Lower(text))
    ensures Before(texts, text) == multiset(Folded(texts))[Lower(text)]
  {
    hide Precedes, Lower;
    if texts != [] {
      BeforeAll(texts[1..], text);
      assert texts == [texts[0]] + texts[1..];
      EachJoined(Lower, [texts[0]], texts[1..]);
      EachOne(Lower, texts[0]);
    }
  }

  lemma RankIsBefore(texts: seq<string>, at: nat)
    requires InOrder(texts) && Distinct(texts) && at < |texts|
    ensures Before(texts, texts[at]) == Rank(Folded(texts), at)
  {
    var head, tail := texts[..at], texts[at..];
    assert texts == head + tail;
    BeforeJoined(head, tail, texts[at]);
    hide Before, Lower, AtMost;
    forall i | 0 <= i < |texts|
      ensures AtMost(texts[i], texts[at]) <==> i <= at
    {
      InOrderAt(texts, i, at);
    }
    BeforeNone(tail, texts[at]);
    BeforeAll(head, texts[at]);
    assert Folded(texts)[..at] == Folded(head);
  }

  lemma {:induction false} BeforeInserted(texts: seq<string>, more: string, text: string)
    ensures Before(Inserted(texts, more), text) == Before(texts, text) + if Precedes(more, text) then 1 else 0
  {
    hide Precedes, AtMost;
    if texts != [] && !AtMost(more, texts[0]) {
      BeforeInserted(texts[1..], more, text);
    }
  }

  lemma {:induction false} BeforeSorted(texts: seq<string>, text: string)
    ensures Before(Sorted(texts), text) == Before(texts, text)
  {
    hide Precedes, AtMost, Inserted;
    if texts != [] {
      BeforeSorted(texts[1..], text);
      BeforeInserted(Sorted(texts[1..]), texts[0], text);
    }
  }

  lemma DistinctAlike(one: seq<string>, other: seq<string>)
    requires Distinct(one) && multiset(one) == multiset(other)
    ensures Distinct(other)
  {
    forall i, j | 0 <= i < j < |other|
      ensures other[i] != other[j]
    {
      if other[i] == other[j] {
        assert other == other[..i] + [other[i]] + other[i + 1..j] + [other[j]] + other[j + 1..];
        assert multiset(other)[other[i]] >= 2;
        OnceEach(one, other[i]);
      }
    }
  }

  lemma DistinctFolded(texts: seq<string>)
    requires Distinct(Folded(texts))
    ensures Distinct(texts)
  {
    hide Lower;
    assert forall i :: 0 <= i < |texts| ==> Folded(texts)[i] == Lower(texts[i]);
  }

  lemma SortedDistinct(texts: seq<string>)
    requires Distinct(texts)
    ensures Distinct(Sorted(texts))
  {
    hide Sorted, Distinct;
    DistinctAlike(texts, Sorted(texts));
  }

  lemma {:induction false} OnceEach(texts: seq<string>, text: string)
    requires Distinct(texts)
    ensures multiset(texts)[text] <= 1
  {
    if texts != [] {
      assert texts == [texts[0]] + texts[1..];
      OnceEach(texts[1..], text);
    }
  }

  // ------------------------------------------------------------ the two lists

  /** Paired in the lists is paired in the sorted ones, where it is by place. */
  lemma PairedAt(one: seq<string>, i: nat, other: seq<string>, j: nat)
    requires Distinct(one) && Distinct(other) && i < |Sorted(one)| && j < |Sorted(other)|
    ensures var first, second := Folded(Sorted(one)), Folded(Sorted(other));
            Paired(one, Sorted(one)[i], other, Sorted(other)[j]) <==> first[i] == second[j] && Rank(first, i) == Rank(second, j)
  {
    SortedInOrder(one);
    SortedInOrder(other);
    SortedDistinct(one);
    SortedDistinct(other);
    BeforeSorted(one, Sorted(one)[i]);
    BeforeSorted(other, Sorted(other)[j]);
    RankIsBefore(Sorted(one), i);
    RankIsBefore(Sorted(other), j);
    hide Sorted, Before, Rank, AtMost, Lower;
  }

  lemma AlikePairs(one: seq<string>, other: seq<string>, i: nat, again: nat)
    requires Distinct(one) && Distinct(other) && Folded(Sorted(one)) == Folded(Sorted(other))
    requires i < |Sorted(one)| && again < |Sorted(other)| && Paired(one, Sorted(one)[i], other, Sorted(other)[again])
    ensures i == again
  {
    PairedAt(one, i, other, again);
    hide Sorted, Paired, Rank;
    if i < again {
      RankRises(Folded(Sorted(one)), i, again);
    } else if again < i {
      RankRises(Folded(Sorted(one)), again, i);
    }
  }

  lemma SortedAt(texts: seq<string>, text: string) returns (at: nat)
    requires text in texts
    ensures at < |Sorted(texts)| && Sorted(texts)[at] == text
  {
    hide Sorted;
    assert text in multiset(texts);
    at :| 0 <= at < |Sorted(texts)| && Sorted(texts)[at] == text;
  }

  lemma SortedOrder(texts: seq<string>, i: nat, j: nat)
    requires Distinct(texts) && i < |Sorted(texts)| && j < |Sorted(texts)|
    ensures AtMost(Sorted(texts)[i], Sorted(texts)[j]) <==> i <= j
  {
    SortedInOrder(texts);
    SortedDistinct(texts);
    InOrderAt(Sorted(texts), i, j);
  }

  lemma AlikeIsOrdered(one: seq<string>, other: seq<string>)
    requires Distinct(one) && Distinct(other) && Folded(Sorted(one)) == Folded(Sorted(other))
    ensures OrderedAlike(one, other)
  {
    hide Sorted, Folded, Paired, Distinct, AtMost;
    forall x, y, again, twin | x in one && y in one && again in other && twin in other
      && Paired(one, x, other, again) && Paired(one, y, other, twin)
      ensures AtMost(x, y) <==> AtMost(again, twin)
    {
      var i := SortedAt(one, x);
      var j := SortedAt(one, y);
      var k := SortedAt(other, again);
      var l := SortedAt(other, twin);
      AlikePairs(one, other, i, k);
      AlikePairs(one, other, j, l);
      SortedOrder(one, i, j);
      SortedOrder(other, k, l);
    }
  }

  lemma SortedIn(texts: seq<string>, at: nat)
    requires at < |Sorted(texts)|
    ensures Sorted(texts)[at] in texts
  {
    hide Sorted;
    assert Sorted(texts)[at] in multiset(texts);
  }

  lemma PlacesRise(one: seq<string>, other: seq<string>, i: nat, j: nat, k: nat, l: nat)
    requires Distinct(one) && Distinct(other) && OrderedAlike(one, other)
    requires i < j < |Sorted(one)| && k < |Sorted(other)| && l < |Sorted(other)|
    requires Paired(one, Sorted(one)[i], other, Sorted(other)[k]) && Paired(one, Sorted(one)[j], other, Sorted(other)[l])
    ensures k < l
  {
    hide Sorted, Paired, Distinct, AtMost;
    SortedIn(one, i);
    SortedIn(one, j);
    SortedIn(other, k);
    SortedIn(other, l);
    var x, y, again, twin := Sorted(one)[i], Sorted(one)[j], Sorted(other)[k], Sorted(other)[l];
    assert AtMost(y, x) <==> AtMost(twin, again);
    SortedOrder(one, j, i);
    SortedOrder(other, l, k);
  }

  /** Where the other list, sorted, has what one has at a place. */
  function PlaceOf(first: seq<string>, second: seq<string>, at: nat): (place: nat)
    requires at < |first| && multiset(first) == multiset(second)
    ensures place < |second| && second[place] == first[at] && Rank(second, place) == Rank(first, at)
  {
    RankIsBelow(first, at);
    RankedAt(second, first[at], Rank(first, at))
  }

  /** Lists of the same items are the same where places rise. */
  lemma PlacedAlike(first: seq<string>, second: seq<string>)
    requires |first| == |second| && multiset(first) == multiset(second)
    requires forall i, j :: 0 <= i < j < |first| ==> PlaceOf(first, second, i) < PlaceOf(first, second, j)
    ensures first == second
  {
    hide Rank, PlaceOf;
    var places := seq(|first|, i requires 0 <= i < |first| => PlaceOf(first, second, i));
    RisesWithin(places);
    forall i | 0 <= i < |first|
      ensures first[i] == second[i]
    {
      assert places[i] == i;
    }
  }

  lemma OrderedAt(one: seq<string>, other: seq<string>, first: seq<string>, second: seq<string>, i: nat, j: nat)
    requires Distinct(one) && Distinct(other) && OrderedAlike(one, other)
    requires first == Folded(Sorted(one)) && second == Folded(Sorted(other)) && multiset(first) == multiset(second)
    requires i < j < |first|
    ensures PlaceOf(first, second, i) < PlaceOf(first, second, j)
  {
    hide Sorted, Rank, PlaceOf, Distinct, AtMost, OrderedAlike, Paired, Lower;
    var k, l := PlaceOf(first, second, i), PlaceOf(first, second, j);
    PairedAt(one, i, other, k);
    PairedAt(one, j, other, l);
    PlacesRise(one, other, i, j, k, l);
  }

  lemma OrderedIsAlike(one: seq<string>, other: seq<string>)
    requires Distinct(one) && Distinct(other) && OrderedAlike(one, other)
    requires multiset(Folded(Sorted(one))) == multiset(Folded(Sorted(other)))
    ensures Folded(Sorted(one)) == Folded(Sorted(other))
  {
    hide Sorted, Folded, Rank, PlaceOf, Distinct, AtMost, OrderedAlike, Paired;
    var first, second := Folded(Sorted(one)), Folded(Sorted(other));
    assert |first| == |multiset(first)| == |multiset(second)| == |second|;
    forall i, j | 0 <= i < j < |first|
      ensures PlaceOf(first, second, i) < PlaceOf(first, second, j)
    {
      OrderedAt(one, other, first, second, i, j);
    }
    PlacedAlike(first, second);
  }

  /** Two lists sorted as spelled agree when folded exactly when they are the
      same texts but for case and order them alike. */
  lemma SortedFoldsAlike(one: seq<string>, other: seq<string>)
    requires Distinct(one) && Distinct(other)
    ensures Folded(Sorted(one)) == Folded(Sorted(other)) <==>
              multiset(Folded(one)) == multiset(Folded(other)) && OrderedAlike(one, other)
  {
    EachAlike(Lower, one, Sorted(one));
    EachAlike(Lower, other, Sorted(other));
    hide Sorted, Each, Distinct, OrderedAlike;
    if Folded(Sorted(one)) == Folded(Sorted(other)) {
      AlikeIsOrdered(one, other);
    } else if multiset(Folded(one)) == multiset(Folded(other)) && OrderedAlike(one, other) {
      OrderedIsAlike(one, other);
    }
  }

  /** Where no list spells a text two ways, texts are paired by folding alone. */
  lemma PairedByFolding(one: seq<string>, text: string, other: seq<string>, again: string)
    requires text in one && Distinct(Folded(one)) && again in other && Distinct(Folded(other))
    ensures Paired(one, text, other, again) <==> Lower(text) == Lower(again)
  {
    BeforeNothing(one, text);
    BeforeNothing(other, again);
  }

  lemma BeforeNothing(texts: seq<string>, text: string)
    requires text in texts && Distinct(Folded(texts))
    ensures Before(texts, text) == 0
  {
    var at :| 0 <= at < |texts| && texts[at] == text;
    hide Lower, AtMost;
    forall i | 0 <= i < |texts|
      ensures !Precedes(texts[i], text)
    {
      assert Folded(texts)[i] == Lower(texts[i]) && Folded(texts)[at] == Lower(text);
    }
    BeforeNone(texts, text);
  }

  /** The two lists put every two texts in the same order, whatever their case. */
  ghost predicate RecasedInOrder(one: seq<string>, other: seq<string>)
  {
    forall x, y, again, twin ::
      x in one && y in one && again in other && twin in other && Lower(x) == Lower(again) && Lower(y) == Lower(twin) ==>
        (AtMost(x, y) <==> AtMost(again, twin))
  }

  lemma RecasedIsOrdered(one: seq<string>, other: seq<string>)
    requires Distinct(Folded(one)) && Distinct(Folded(other))
    ensures RecasedInOrder(one, other) <==> OrderedAlike(one, other)
  {
    hide Lower, AtMost, Folded, Distinct, Paired;
    forall x, again | x in one && again in other
      ensures Paired(one, x, other, again) <==> Lower(x) == Lower(again)
    {
      PairedByFolding(one, x, other, again);
    }
  }
}
