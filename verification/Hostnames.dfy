/** A hostname's one spelling, and when it is one. */
module Hostnames {
  import opened Texts

  predicate Space(c: char)
  {
    c == ' ' || '\t' <= c <= '\r'
  }

  function TrimLeft(text: string): (trimmed: string)
    ensures trimmed != "" ==> !Space(trimmed[0])
    ensures text != "" && !Space(text[0]) ==> trimmed == text
  {
    if text != "" && Space(text[0]) then TrimLeft(text[1..]) else text
  }

  function TrimEnd(text: string, trims: char -> bool): (trimmed: string)
    ensures trimmed <= text
    ensures trimmed != "" ==> !trims(trimmed[|trimmed| - 1])
    ensures text == "" || !trims(text[|text| - 1]) ==> trimmed == text
  {
    if text != "" && trims(text[|text| - 1]) then TrimEnd(text[..|text| - 1], trims) else text
  }

  function Trim(text: string): string
  {
    TrimEnd(TrimLeft(text), Space)
  }

  function TrimDots(text: string): string
  {
    TrimEnd(text, c => c == '.')
  }

  /** Spaces trimmed, lowered, and then the dots at the end trimmed. */
  function Hostname(value: string): string
  {
    TrimDots(Lower(Trim(value)))
  }

  /** A space, a tab or what else moves on: line feed, vertical tab, form feed
      and carriage return. */
  predicate Blank(c: char)
  {
    c as int in {9, 10, 11, 12, 13, 32}
  }

  /** What a spelling is of: the part between the spaces before and, after it,
      dots and then spaces, in small letters. */
  lemma HostnameIs(value: string) returns (before: string, middle: string, dots: string, after: string)
    ensures value == before + middle + dots + after && Hostname(value) == Lower(middle)
    ensures (forall c :: c in before ==> Blank(c)) && (forall c :: c in after ==> Blank(c)) && forall c :: c in dots ==> c == '.'
    ensures middle != "" ==> middle[|middle| - 1] != '.'
    ensures var kept := middle + dots;
            kept != "" ==> !Blank(kept[0]) && !Blank(kept[|kept| - 1])
  {
    hide *;
    var left, trimmed;
    before, left := LeftOf(value);
    trimmed, after := Trimmed(left);
    dots, middle := DotsOf(trimmed);
    Spelled(value);
    SpaceIs();
    Rejoined(before, left, trimmed, after, middle, dots);
  }

  lemma Rejoined(before: string, left: string, trimmed: string, after: string, middle: string, dots: string)
    requires left == trimmed + after && trimmed == middle + dots
    ensures before + left == before + middle + dots + after
  {
  }

  lemma Spelled(value: string)
    ensures Hostname(value) == Lower(TrimDots(TrimEnd(TrimLeft(value), Space)))
  {
    LowerDots(Trim(value));
  }

  lemma Trimmed(left: string) returns (trimmed: string, after: string)
    requires left != "" ==> !Space(left[0])
    ensures trimmed == TrimEnd(left, Space) && left == trimmed + after && forall c :: c in after ==> Space(c)
    ensures trimmed != "" ==> !Space(trimmed[0]) && !Space(trimmed[|trimmed| - 1])
  {
    trimmed := TrimEnd(left, Space);
    after := EndOf(left, Space);
  }

  lemma SpaceIs()
    ensures forall c :: Space(c) <==> Blank(c)
  {
  }

  lemma DotsOf(text: string) returns (dots: string, middle: string)
    ensures middle == TrimDots(text) && text == middle + dots && forall c :: c in dots ==> c == '.'
    ensures middle != "" ==> middle[|middle| - 1] != '.'
  {
    dots := EndOf(text, c => c == '.');
    middle := TrimDots(text);
  }

  lemma {:induction false} LeftOf(text: string) returns (before: string, left: string)
    ensures left == TrimLeft(text) && text == before + left && forall c :: c in before ==> Space(c)
    ensures left != "" ==> !Space(left[0])
  {
    if text != "" && Space(text[0]) {
      before, left := LeftOf(text[1..]);
      assert text == [text[0]] + text[1..];
      before := [text[0]] + before;
    } else {
      before, left := "", text;
    }
  }

  lemma {:induction false} EndOf(text: string, trims: char -> bool) returns (after: string)
    ensures text == TrimEnd(text, trims) + after && forall c :: c in after ==> trims(c)
  {
    if text != "" && trims(text[|text| - 1]) {
      after := EndOf(text[..|text| - 1], trims);
      assert text == text[..|text| - 1] + [text[|text| - 1]];
      after := after + [text[|text| - 1]];
    } else {
      after := "";
    }
  }

  lemma {:induction false} LowerDots(text: string)
    ensures TrimDots(Lower(text)) == Lower(TrimDots(text))
  {
    if text != "" && text[|text| - 1] == '.' {
      LowerDots(text[..|text| - 1]);
      assert Lower(text)[..|text| - 1] == Lower(text[..|text| - 1]);
    }
  }

  /** Trimming the dots last can leave a space at the end, so a second spelling
      may differ: it is the same exactly when no space is left there. */
  lemma HostnameTwice(value: string)
    ensures var once := Hostname(value);
            Hostname(once) == once <==> once == "" || !Space(once[|once| - 1])
  {
    var once := Hostname(value);
    var lowered := Lower(Trim(value));
    assert once <= lowered;
    if once != "" {
      assert once[0] == lowered[0] == LowerChar(Trim(value)[0]);
      assert Trim(value) <= TrimLeft(value);
      assert !Space(once[0]);
      assert TrimLeft(once) == once;
      if Space(once[|once| - 1]) {
        assert |TrimEnd(once, Space)| < |once|;
      } else {
        assert Trim(once) == once;
        LowerTwice(Trim(value));
        assert Lower(once) == once;
      }
    }
  }

  /** `a .` is spelled `a ` once and `a` from then on. */
  lemma DotAfterSpace()
    ensures Hostname("a .") == "a " && Hostname("a ") == "a"
  {
    var text := "a .";
    assert Trim(text) == text;
    assert Lower(text) == text;
    assert text[..2] == "a ";
    var dots := (c: char) => c == '.';
    assert TrimEnd("a ", dots) == "a ";
    assert "a "[..1] == "a";
    assert TrimEnd("a", Space) == "a";
    assert TrimEnd("a ", Space) == "a";
    assert Lower("a") == "a";
  }
}
