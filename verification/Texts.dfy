/** The few things the programs do with text. */
module Texts {

  function LowerChar(c: char): char
  {
    if 'A' <= c <= 'Z' then ((c as int - 'A' as int) + 'a' as int) as char else c
  }

  /** Text with its ASCII letters lowered: what folding case comes to on the
      names GitHub allows. */
  function Lower(text: string): (lowered: string)
    ensures |lowered| == |text|
    ensures forall i :: 0 <= i < |text| ==> lowered[i] == LowerChar(text[i])
  {
    seq(|text|, i requires 0 <= i < |text| => LowerChar(text[i]))
  }

  lemma LowerTwice(text: string)
    ensures Lower(Lower(text)) == Lower(text)
  {
  }

  /** Where a character first is, or the length when it is not there. */
  function Find(text: string, c: char): (at: nat)
    ensures at <= |text|
    ensures at < |text| ==> text[at] == c
    ensures forall i :: 0 <= i < at ==> text[i] != c
  {
    if text == [] || text[0] == c then 0 else 1 + Find(text[1..], c)
  }

  /** The text before the first separator and after it; all of it and nothing
      when there is none. */
  function Cut(text: string, c: char): (parts: (string, string))
    ensures c !in parts.0
    ensures c in text ==> text == parts.0 + [c] + parts.1
    ensures c !in text ==> parts == (text, "")
  {
    var at := Find(text, c);
    if at < |text| then (text[..at], text[at + 1..]) else (text, "")
  }

  /** A cut is undone by joining, and nothing else cuts the same way. */
  lemma CutJoined(head: string, c: char, tail: string)
    requires c !in head
    ensures Cut(head + [c] + tail, c) == (head, tail)
  {
    var text := head + [c] + tail;
    assert text[|head|] == c;
    var at := Find(text, c);
    assert forall i :: 0 <= i < |head| ==> text[i] == head[i];
    assert at == |head|;
    assert text[..at] == head && text[at + 1..] == tail;
  }

  /** What a function makes of each item of a list. */
  function Each<T, U>(f: T -> U, items: seq<T>): (made: seq<U>)
    ensures |made| == |items| && forall i :: 0 <= i < |items| ==> made[i] == f(items[i])
  {
    seq(|items|, i requires 0 <= i < |items| => f(items[i]))
  }

  lemma EachJoined<T, U>(f: T -> U, head: seq<T>, tail: seq<T>)
    ensures Each(f, head + tail) == Each(f, head) + Each(f, tail)
  {
  }

  lemma EachOne<T, U>(f: T -> U, item: T)
    ensures Each(f, [item]) == [f(item)]
  {
  }

  /** A list is one of its items and the rest. */
  lemma EachTaken<T, U>(f: T -> U, items: seq<T>, at: nat)
    requires at < |items|
    ensures multiset(items[..at] + items[at + 1..]) == multiset(items) - multiset{items[at]}
    ensures multiset(Each(f, items)) == multiset(Each(f, items[..at] + items[at + 1..])) + multiset{f(items[at])}
  {
    var head, tail := items[..at], items[at + 1..];
    assert items == head + [items[at]] + tail;
    EachJoined(f, head + [items[at]], tail);
    EachJoined(f, head, [items[at]]);
    EachJoined(f, head, tail);
    EachOne(f, items[at]);
    hide Each;
  }

  /** Lists of the same items, in any order, make lists of the same. */
  lemma {:induction false} EachAlike<T, U>(f: T -> U, one: seq<T>, other: seq<T>)
    requires multiset(one) == multiset(other)
    ensures multiset(Each(f, one)) == multiset(Each(f, other))
    decreases |one|
  {
    assert |one| == |multiset(one)| == |multiset(other)| == |other|;
    if one != [] {
      assert one[0] in multiset(other);
      var at :| 0 <= at < |other| && other[at] == one[0];
      EachTaken(f, one, 0);
      EachTaken(f, other, at);
      hide Each;
      EachAlike(f, one[..0] + one[1..], other[..at] + other[at + 1..]);
    }
  }
}
