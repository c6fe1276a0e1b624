/** TXT values in bytes: cut into character-strings, quoted and joined. */
module TxtStrings {
  import opened Basics

  type Byte = b: int | 0 <= b < 256 witness 0
  type Bytes = seq<Byte>

  const QUOTE: Byte := 34
  const SPACE: Byte := 32
  // The most bytes one character-string of a TXT record holds (RFC 1035, section 3.3).
  const STRING_BYTES := 255

  // ------------------------------------------------------------------- UTF-8

  predicate Tail(b: Byte)
  {
    0x80 <= b <= 0xBF
  }

  /** A character's bytes, by the table of RFC 3629, section 3. */
  function Utf8(scalar: nat): Bytes
    requires Scalar(scalar)
  {
    if scalar < 0x80 then [scalar]
    else if scalar < 0x800 then [0xC0 + scalar / 64, 0x80 + scalar % 64]
    else if scalar < 0x1_0000 then [0xE0 + scalar / 4096, 0x80 + scalar / 64 % 64, 0x80 + scalar % 64]
    else [0xF0 + scalar / 262144, 0x80 + scalar / 4096 % 64, 0x80 + scalar / 64 % 64, 0x80 + scalar % 64]
  }

  predicate Scalar(scalar: nat)
  {
    scalar < 0xD800 || 0xDFFF < scalar <= 0x10_FFFF
  }

  /** A byte a character may start with, as far as one byte tells. */
  predicate RuneStart(b: Byte)
  {
    !Tail(b)
  }

  /** How many bytes the first character takes, by the grammar of RFC 3629,
      section 4; none when no character is there. */
  function First(value: Bytes): (n: nat)
    ensures n <= 4 && n <= |value|
  {
    if |value| >= 1 && value[0] <= 0x7F then 1
    else if |value| >= 2 && 0xC2 <= value[0] <= 0xDF && Tail(value[1]) then 2
    else if |value| >= 3 && Tail(value[1]) && Tail(value[2]) && (
        (value[0] == 0xE0 && 0xA0 <= value[1]) || (0xE1 <= value[0] <= 0xEC)
        || (value[0] == 0xED && value[1] <= 0x9F) || (0xEE <= value[0] <= 0xEF)) then 3
    else if |value| >= 4 && Tail(value[1]) && Tail(value[2]) && Tail(value[3]) && (
        (value[0] == 0xF0 && 0x90 <= value[1]) || (0xF1 <= value[0] <= 0xF3)
        || (value[0] == 0xF4 && value[1] <= 0x8F)) then 4
    else 0
  }

  /** A character is there exactly when its bytes are, whatever follows. */
  lemma FirstOfScalar(scalar: nat, rest: Bytes)
    requires Scalar(scalar)
    ensures First(Utf8(scalar) + rest) == |Utf8(scalar)|
  {
  }

  lemma ScalarOfFirst(value: Bytes) returns (scalar: nat)
    requires First(value) > 0
    ensures Scalar(scalar) && Utf8(scalar) == value[..First(value)]
  {
    var bytes := value[..First(value)];
    FirstIsAll(value);
    match |bytes|
    case 1 => return bytes[0];
    case 2 => scalar := ScalarOfTwo(bytes[0], bytes[1]);
    case 3 => scalar := ScalarOfThree(bytes[0], bytes[1], bytes[2]);
    case 4 => scalar := ScalarOfFour(bytes[0], bytes[1], bytes[2], bytes[3]);
    hide First, Utf8;
  }

  lemma FirstIsAll(value: Bytes)
    ensures First(value[..First(value)]) == First(value)
    ensures var n := First(value);
            && (n == 1 ==> value[0] < 0x80)
            && (n == 2 ==> value[..n] == [value[0], value[1]] && First([value[0], value[1]]) == 2)
            && (n == 3 ==> value[..n] == [value[0], value[1], value[2]] && First([value[0], value[1], value[2]]) == 3)
            && (n == 4 ==> value[..n] == [value[0], value[1], value[2], value[3]] && First([value[0], value[1], value[2], value[3]]) == 4)
  {
  }

  lemma ScalarOfTwo(first: Byte, second: Byte) returns (scalar: nat)
    requires First([first, second]) == 2
    ensures Scalar(scalar) && Utf8(scalar) == [first, second]
  {
    var high, low := first as int - 0xC0, second as int - 0x80;
    scalar := high * 64 + low;
    assert scalar / 64 == high && scalar % 64 == low;
  }

  lemma ScalarOfThree(first: Byte, second: Byte, third: Byte) returns (scalar: nat)
    requires First([first, second, third]) == 3
    ensures Scalar(scalar) && Utf8(scalar) == [first, second, third]
  {
    var high, middle, low := first as int - 0xE0, second as int - 0x80, third as int - 0x80;
    scalar := high * 4096 + middle * 64 + low;
    assert scalar / 64 == high * 64 + middle && scalar % 64 == low && scalar / 4096 == high;
  }

  lemma ScalarOfFour(first: Byte, second: Byte, third: Byte, fourth: Byte) returns (scalar: nat)
    requires First([first, second, third, fourth]) == 4
    ensures Scalar(scalar) && Utf8(scalar) == [first, second, third, fourth]
  {
    var high, middle, lower, low := first as int - 0xF0, second as int - 0x80, third as int - 0x80, fourth as int - 0x80;
    scalar := high * 262144 + middle * 4096 + lower * 64 + low;
    assert scalar / 64 == high * 4096 + middle * 64 + lower && scalar % 64 == low;
    assert scalar / 4096 == high * 64 + middle && scalar / 262144 == high;
  }

  /** Text: characters one after another to the end. */
  predicate Valid(value: Bytes)
  {
    value == [] || (First(value) > 0 && Valid(value[First(value)..]))
  }

  /** Where a character starts, and the end. */
  predicate Boundary(value: Bytes, at: nat)
  {
    at == |value| || (at < |value| && RuneStart(value[at]))
  }

  lemma FirstStarts(value: Bytes)
    requires First(value) > 0
    ensures RuneStart(value[0]) && forall i :: 0 < i < First(value) ==> Tail(value[i])
  {
  }

  lemma FirstOfLonger(value: Bytes, more: Bytes)
    requires First(value) > 0 && value <= more
    ensures First(more) == First(value)
  {
  }

  lemma FirstOfShorter(value: Bytes, at: nat)
    requires First(value) <= at <= |value|
    ensures First(value) > 0 ==> First(value[..at]) == First(value)
  {
  }

  /** A boundary past the first character is a boundary of the rest. */
  lemma BoundaryOfRest(value: Bytes, at: nat)
    requires First(value) > 0 && 0 < at <= |value| && Boundary(value, at)
    ensures First(value) <= at && Boundary(value[First(value)..], at - First(value))
  {
    FirstStarts(value);
  }

  lemma Sliced<T>(items: seq<T>, n: nat, at: nat)
    requires n <= at <= |items|
    ensures items[n..][at - n..] == items[at..] && items[..at][n..] == items[n..][..at - n]
    ensures items == items[..at] + items[at..]
  {
  }

  /** Text cut where a character starts is text on both sides. */
  lemma {:induction false} CutIsValid(value: Bytes, at: nat)
    requires Valid(value) && at <= |value| && Boundary(value, at)
    ensures Valid(value[..at]) && Valid(value[at..])
  {
    if at > 0 {
      var n := First(value);
      BoundaryOfRest(value, at);
      FirstOfShorter(value, at);
      hide First, Boundary;
      CutIsValid(value[n..], at - n);
      Sliced(value, n, at);
    } else {
      assert value[..0] == [] && value[0..] == value;
    }
  }

  /** At most three bytes in a row are not the start of a character. */
  lemma {:induction false} StartIsNear(value: Bytes, at: nat)
    requires Valid(value) && 3 <= at < |value|
    ensures RuneStart(value[at]) || RuneStart(value[at - 1]) || RuneStart(value[at - 2]) || RuneStart(value[at - 3])
  {
    var n := First(value);
    FirstStarts(value);
    if at >= n + 3 {
      StartIsNear(value[n..], at - n);
    } else if at >= n {
      assert value[n..][0] == value[n];
      FirstStarts(value[n..]);
    }
  }

  /** Text without its first or its last byte, when that is a quote, is text. */
  lemma InsideIsValid(value: Bytes)
    requires Valid(value) && |value| >= 2 && value[0] == QUOTE && value[|value| - 1] == QUOTE
    ensures Valid(value[1..|value| - 1])
  {
    AfterQuoteIsValid(value);
    hide Valid, First;
    var rest := value[1..];
    CutIsValid(rest, |rest| - 1);
    assert rest[..|rest| - 1] == value[1..|value| - 1];
  }

  lemma AfterQuoteIsValid(value: Bytes)
    requires Valid(value) && value != [] && value[0] == QUOTE
    ensures Valid(value[1..])
  {
    assert First(value) == 1;
  }

  // -------------------------------------------------------------- the strings

  /** Where one string ends: as far as it may, back to where a character starts. */
  function Cut(value: Bytes, at: nat): (cut: nat)
    requires Valid(value) && at <= |value|
    ensures cut <= at && Boundary(value, cut)
    ensures forall i :: cut < i <= at ==> !Boundary(value, i)
  {
    if Boundary(value, at) then at
    else
      assert at > 0 by { if value != [] { FirstStarts(value); } }
      Cut(value, at - 1)
  }

  lemma CutIsLong(value: Bytes)
    requires Valid(value)
    ensures value != [] ==> 0 < Cut(value, Least(|value|, STRING_BYTES))
    ensures |value| <= STRING_BYTES ==> Cut(value, Least(|value|, STRING_BYTES)) == |value|
    ensures |value| > STRING_BYTES ==> Cut(value, STRING_BYTES) > STRING_BYTES - 4
  {
    if |value| > STRING_BYTES {
      StartIsNear(value, STRING_BYTES);
      assert Boundary(value, 255) || Boundary(value, 254) || Boundary(value, 253) || Boundary(value, 252);
    } else {
      assert Boundary(value, |value|);
    }
  }

  /** The strings a value is cut into. */
  function Pieces(value: Bytes): (pieces: seq<Bytes>)
    requires Valid(value)
    ensures pieces != []
    decreases |value|
  {
    var cut := Cut(value, Least(|value|, STRING_BYTES));
    if value[cut..] == [] then [value]
    else
      CutIsLong(value);
      CutIsValid(value, cut);
      [value[..cut]] + Pieces(value[cut..])
  }

  function Concat(pieces: seq<Bytes>): Bytes
  {
    if pieces == [] then [] else pieces[0] + Concat(pieces[1..])
  }

  /** Every string is text of at most 255 bytes, together they are the value,
      and each but the last is as long as it can be without splitting a
      character: at least 252 bytes. None is empty but of the empty value. */
  lemma {:induction false} PiecesHold(value: Bytes)
    requires Valid(value)
    ensures value != [] ==> forall i :: 0 <= i < |Pieces(value)| ==> Pieces(value)[i] != []
    ensures Concat(Pieces(value)) == value
    ensures forall i :: 0 <= i < |Pieces(value)| ==> |Pieces(value)[i]| <= STRING_BYTES && Valid(Pieces(value)[i])
    ensures forall i :: 0 <= i < |Pieces(value)| - 1 ==> |Pieces(value)[i]| > STRING_BYTES - 4
    ensures |value| <= STRING_BYTES ==> Pieces(value) == [value]
    decreases |value|
  {
    var cut := Cut(value, Least(|value|, STRING_BYTES));
    CutIsValid(value, cut);
    CutIsLong(value);
    PiecesMore(value);
    Sliced(value, cut, cut);
    assert |value| <= STRING_BYTES ==> Boundary(value, |value|);
    hide Valid, First, Cut, Boundary, Pieces;
    if value[cut..] != [] {
      PiecesHold(value[cut..]);
      ConcatOne(value[..cut], Pieces(value[cut..]));
    } else {
      ConcatOne(value[..cut], []);
      assert Pieces(value) == [value[..cut]] + [];
    }
  }

  lemma ConcatOne(piece: Bytes, pieces: seq<Bytes>)
    ensures Concat([piece] + pieces) == piece + Concat(pieces)
  {
    assert ([piece] + pieces)[1..] == pieces;
  }

  function Quoted(piece: Bytes): Bytes
  {
    [QUOTE] + piece + [QUOTE]
  }

  /** The strings, each quoted, with a space between. */
  function Join(pieces: seq<Bytes>): (joined: Bytes)
    requires pieces != []
    ensures |joined| >= 2 && joined[0] == QUOTE && joined[|joined| - 1] == QUOTE
  {
    if |pieces| == 1 then Quoted(pieces[0])
    else Quoted(pieces[0]) + [SPACE] + Join(pieces[1..])
  }

  /** One string is what it is between two quotes, and each after it follows a space. */
  lemma JoinIs(pieces: seq<Bytes>, last: Bytes)
    ensures Join([last]) == [34] + last + [34]
    ensures pieces != [] ==> Join(pieces + [last]) == Join(pieces) + ([32] + ([34] + last + [34]))
  {
    if pieces != [] {
      JoinOneMore(pieces, last);
    }
  }

  lemma {:induction false} JoinOneMore(pieces: seq<Bytes>, last: Bytes)
    requires pieces != []
    ensures Join(pieces + [last]) == Join(pieces) + ([SPACE] + Quoted(last))
    decreases |pieces|
  {
    hide Quoted;
    var whole := pieces + [last];
    if |pieces| == 1 {
      assert whole[1..] == [last];
    } else {
      JoinOneMore(pieces[1..], last);
      assert whole[0] == pieces[0] && whole[1..] == pieces[1..] + [last];
      ThreeParts(Quoted(pieces[0]) + [SPACE], Join(pieces[1..]), [SPACE] + Quoted(last));
    }
  }

  lemma ThreeParts(one: Bytes, two: Bytes, three: Bytes)
    ensures (one + two) + three == one + (two + three)
  {
  }

  predicate InQuotes(value: Bytes)
  {
    value != [] && value[0] == QUOTE && value[|value| - 1] == QUOTE
  }

  /** A value to keep as it is: between quotes with another inside, or one quote
      alone. */
  predicate AsWritten(value: Bytes)
  {
    InQuotes(value) && (|value| < 2 || QUOTE in value[1..|value| - 1])
  }

  /** What is to be cut: a value in quotes of its own is what is inside them. */
  function Inside(value: Bytes): Bytes
  {
    if InQuotes(value) && |value| >= 2 then value[1..|value| - 1] else value
  }

  function Stored(value: Bytes): Bytes
    requires Valid(value)
  {
    if AsWritten(value) then value
    else
      assert Valid(Inside(value)) by { if InQuotes(value) { InsideIsValid(value); } }
      Join(Pieces(Inside(value)))
  }

  /** Where the next string ends: at most three steps back from as far as it
      may, so never past the start. */
  method Back(value: Bytes) returns (cut: nat)
    requires Valid(value)
    ensures cut == Cut(value, Least(|value|, STRING_BYTES)) && cut <= |value|
  {
    hide Valid, First;
    cut := Least(|value|, STRING_BYTES);
    ghost var most: nat := cut;
    while cut < |value| && !RuneStart(value[cut])
      invariant cut <= most && Cut(value, cut) == Cut(value, most)
      invariant forall i :: cut < i <= most ==> !Boundary(value, i)
      invariant most - cut <= 3
      decreases cut
    {
      assert !Boundary(value, cut);
      BackIsNear(value, most, cut);
      cut := cut - 1;
    }
    assert Boundary(value, cut);
  }

  lemma PiecesMore(value: Bytes)
    requires Valid(value)
    ensures var cut := Cut(value, Least(|value|, STRING_BYTES));
            && (value[cut..] == [] ==> Pieces(value) == [value[..cut]])
            && (value[cut..] != [] ==> cut > 0 && Valid(value[cut..]) && Pieces(value) == [value[..cut]] + Pieces(value[cut..]))
  {
    var cut := Cut(value, Least(|value|, STRING_BYTES));
    CutIsValid(value, cut);
    if value[cut..] != [] {
      CutIsLong(value);
    } else {
      assert value[..cut] == value;
    }
  }

  lemma Regrouped(pieces: seq<Bytes>, piece: Bytes, rest: seq<Bytes>)
    ensures pieces + ([piece] + rest) == (pieces + [piece]) + rest
  {
  }

  /** The value cut into strings, one after another. */
  method Split(given: Bytes) returns (pieces: seq<Bytes>)
    requires Valid(given)
    ensures pieces == Pieces(given)
  {
    hide Valid, Pieces, Cut, Boundary, Least;
    var value := given;
    pieces := [];
    while true
      invariant Valid(value) && pieces + Pieces(value) == Pieces(given)
      decreases |value|
    {
      var cut := Back(value);
      PiecesMore(value);
      var piece, rest := value[..cut], value[cut..];
      if rest == [] {
        return pieces + [piece];
      }
      Regrouped(pieces, piece, Pieces(rest));
      pieces := pieces + [piece];
      value := rest;
    }
  }

  method TxtStrings(given: Bytes) returns (stored: Bytes)
    requires Valid(given)
    ensures stored == Stored(given)
  {
    var value := given;
    if InQuotes(value) {
      if |value| < 2 || QUOTE in value[1..|value| - 1] {
        return value;
      }
      InsideIsValid(value);
      value := value[1..|value| - 1];
    }
    var quoted := Split(value);
    return Join(quoted);
  }

  lemma BoundaryIsNear(value: Bytes, most: nat)
    requires Valid(value) && 3 <= most < |value|
    ensures Boundary(value, most) || Boundary(value, most - 1) || Boundary(value, most - 2) || Boundary(value, most - 3)
  {
    StartIsNear(value, most);
  }

  lemma BackIsNear(value: Bytes, most: nat, cut: nat)
    requires Valid(value) && most == Least(|value|, STRING_BYTES) && cut <= most && cut < |value|
    requires forall i :: cut <= i <= most ==> !Boundary(value, i)
    ensures cut > 0 && most - cut < 3
  {
    assert !Boundary(value, most) && !Boundary(value, cut);
    FirstStarts(value);
    if most >= 3 {
      BoundaryIsNear(value, most);
    }
  }

  // ------------------------------------------------------------ idempotence

  lemma JoinHasQuote(pieces: seq<Bytes>)
    requires |pieces| > 1
    ensures AsWritten(Join(pieces))
  {
    var joined := Join(pieces);
    assert joined == Quoted(pieces[0]) + [SPACE] + Join(pieces[1..]);
    assert joined[|pieces[0]| + 1] == QUOTE;
    assert joined[1..|joined| - 1][|pieces[0]|] == QUOTE;
  }

  lemma {:induction false} JoinIsValid(pieces: seq<Bytes>)
    requires pieces != [] && forall i :: 0 <= i < |pieces| ==> Valid(pieces[i])
    ensures Valid(Join(pieces))
    decreases |pieces|
  {
    QuotedIsValid(pieces[0]);
    SpaceIsValid();
    hide Valid, Quoted;
    if |pieces| > 1 {
      JoinIsValid(pieces[1..]);
      BothAreValid(Quoted(pieces[0]), [SPACE]);
      BothAreValid(Quoted(pieces[0]) + [SPACE], Join(pieces[1..]));
    }
  }

  lemma SpaceIsValid()
    ensures Valid([SPACE])
  {
    assert [SPACE][1..] == [];
  }

  lemma {:induction false} BothAreValid(one: Bytes, other: Bytes)
    requires Valid(one) && Valid(other)
    ensures Valid(one + other)
  {
    if one == [] {
      assert one + other == other;
    } else {
      var n := First(one);
      FirstOfLonger(one, one + other);
      assert (one + other)[n..] == one[n..] + other;
      BothAreValid(one[n..], other);
    }
  }

  lemma QuotedIsValid(piece: Bytes)
    requires Valid(piece)
    ensures Valid(Quoted(piece))
  {
    assert [QUOTE][1..] == [];
    assert Valid([QUOTE]);
    BothAreValid([QUOTE], piece);
    BothAreValid([QUOTE] + piece, [QUOTE]);
  }

  /** What is stored is text, in quotes, and is stored again as it is, whether
      the value came quoted, half quoted, unquoted or as several strings. */
  lemma StoredAgain(value: Bytes)
    requires Valid(value)
    ensures Valid(Stored(value)) && InQuotes(Stored(value)) && Stored(Stored(value)) == Stored(value)
  {
    if !AsWritten(value) {
      if InQuotes(value) {
        InsideIsValid(value);
      }
      var pieces := Pieces(Inside(value));
      PiecesHold(Inside(value));
      JoinIsValid(pieces);
      hide Valid, Pieces, Quoted;
      if |pieces| > 1 {
        JoinHasQuote(pieces);
      } else {
        QuotedAgain(pieces[0]);
      }
    }
  }

  lemma QuotedAgain(piece: Bytes)
    requires Valid(piece) && |piece| <= STRING_BYTES
    ensures Valid(Quoted(piece)) && Stored(Quoted(piece)) == Quoted(piece)
  {
    QuotedIsValid(piece);
    PiecesHold(piece);
    var stored := Quoted(piece);
    hide Valid, Pieces;
    assert stored[1..|stored| - 1] == piece;
    assert Inside(stored) == piece;
    assert Join([piece]) == stored;
  }

  /** Normalising a TXT value: spaces trimmed, then as stored. Trimming leaves
      text text, and a value in quotes alone. */
  lemma NormalisedAgain(trim: Bytes -> Bytes, value: Bytes)
    requires Valid(trim(value))
    requires forall any :: InQuotes(any) ==> trim(any) == any
    ensures var once := Stored(trim(value)); trim(once) == once && Valid(once) && Stored(trim(once)) == once
  {
    StoredAgain(trim(value));
  }
}
