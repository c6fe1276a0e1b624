/** Text in order: what the programs' sorts come to, whatever their steps. */
module Sorting {

  /** The order of text: by its first character that differs, shorter first. */
  predicate AtMost(one: string, other: string)
  {
    one == "" || (other != "" && (one[0] < other[0] || (one[0] == other[0] && AtMost(one[1..], other[1..]))))
  }

  lemma {:induction false} OneIsAtMost(one: string, other: string)
    ensures AtMost(one, other) || AtMost(other, one)
    ensures AtMost(one, other) && AtMost(other, one) ==> one == other
  {
    if one != "" && other != "" && one[0] == other[0] {
      OneIsAtMost(one[1..], other[1..]);
      assert one == [one[0]] + one[1..] && other == [other[0]] + other[1..];
    }
  }

  lemma {:induction false} AtMostTwice(one: string, middle: string, other: string)
    requires AtMost(one, middle) && AtMost(middle, other)
    ensures AtMost(one, other)
  {
    if one != "" && one[0] == middle[0] == other[0] {
      AtMostTwice(one[1..], middle[1..], other[1..]);
    }
  }

  ghost predicate InOrder(texts: seq<string>)
  {
    forall i, j :: 0 <= i < j < |texts| ==> AtMost(texts[i], texts[j])
  }

  function Inserted(texts: seq<string>, text: string): (more: seq<string>)
    ensures multiset(more) == multiset(texts) + multiset{text}
  {
    if texts == [] then [text]
    else if AtMost(text, texts[0]) then [text] + texts
    else
      assert texts == [texts[0]] + texts[1..];
      [texts[0]] + Inserted(texts[1..], text)
  }

  /** The text of a list, in order. */
  function Sorted(texts: seq<string>): (sorted: seq<string>)
    ensures multiset(sorted) == multiset(texts)
  {
    if texts == [] then []
    else
      assert texts == [texts[0]] + texts[1..];
      Inserted(Sorted(texts[1..]), texts[0])
  }

  lemma {:induction false} InsertedInOrder(texts: seq<string>, text: string)
    requires InOrder(texts)
    ensures InOrder(Inserted(texts, text))
  {
    hide AtMost;
    if texts != [] {
      OneIsAtMost(text, texts[0]);
      if AtMost(text, texts[0]) {
        forall i | 0 <= i < |texts|
          ensures AtMost(text, texts[i])
        {
          if i > 0 {
            AtMostTwice(text, texts[0], texts[i]);
          }
        }
      } else {
        InsertedInOrder(texts[1..], text);
        var more := Inserted(texts[1..], text);
        forall i | 0 <= i < |more|
          ensures AtMost(texts[0], more[i])
        {
          assert more[i] in multiset(more);
          assert more[i] == text || more[i] in texts[1..];
        }
      }
    }
  }

  lemma {:induction false} SortedInOrder(texts: seq<string>)
    ensures InOrder(Sorted(texts))
  {
    if texts != [] {
      SortedInOrder(texts[1..]);
      InsertedInOrder(Sorted(texts[1..]), texts[0]);
    }
  }

  /** There is one way to put text in order. */
  lemma {:induction false} OneOrder(one: seq<string>, other: seq<string>)
    requires InOrder(one) && InOrder(other) && multiset(one) == multiset(other)
    ensures one == other
    decreases |one|
  {
    assert |one| == |multiset(one)| == |multiset(other)| == |other|;
    if one != [] {
      FirstIsLeast(one, other);
      FirstIsLeast(other, one);
      OneIsAtMost(one[0], other[0]);
      RestInOrder(one);
      RestInOrder(other);
      hide AtMost, InOrder;
      OneOrder(one[1..], other[1..]);
    }
  }

  lemma RestInOrder(texts: seq<string>)
    requires InOrder(texts) && texts != []
    ensures InOrder(texts[1..]) && texts == [texts[0]] + texts[1..]
    ensures multiset(texts[1..]) == multiset(texts) - multiset{texts[0]}
  {
    hide AtMost;
    assert texts == [texts[0]] + texts[1..];
  }

  lemma FirstIsLeast(one: seq<string>, other: seq<string>)
    requires InOrder(one) && one != [] && other != [] && multiset(one) == multiset(other)
    ensures AtMost(one[0], other[0])
  {
    assert other[0] in multiset(other);
    assert other[0] in one;
    var at :| 0 <= at < |one| && one[at] == other[0];
    if at == 0 {
      OneIsAtMost(one[0], other[0]);
    }
  }

  /** Sorting forgets everything of a list but how often it names each text. */
  lemma SortedAlike(one: seq<string>, other: seq<string>)
    ensures Sorted(one) == Sorted(other) <==> multiset(one) == multiset(other)
  {
    SortedInOrder(one);
    SortedInOrder(other);
    if multiset(one) == multiset(other) {
      OneOrder(Sorted(one), Sorted(other));
    }
  }
}
