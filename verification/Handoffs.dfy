/** The hand-off: what the controller leaves for root, what root takes it for,
    and where root puts the tokens in it. */
module Handoffs {
  import opened Basics
  import opened Texts

  // ------------------------------------------------------------------ JSON

  /** The keys the contract names, as spelled, and any other. */
  datatype Key = Version | Runs | Owner | Repositories | Token | ExpiresAt | Unnamed(text: string)

  datatype Json =
    | Null
    | Number(number: int)
    | Text(text: string)
    | List(items: seq<Json>)
    | Object(fields: map<Key, Json>)
    | Other

  type Time = int

  /** How a time is written in a hand-off, and read from one. */
  datatype Clock = Clock(format: Time -> string, parse: string -> Option<Time>)

  ghost predicate Reads(clock: Clock)
  {
    forall at: Time :: clock.parse(clock.format(at)) == Some(at)
  }

  // What a time is when the value is null: a time long past.
  const ZERO_TIME: Time := -62135596800

  // What a decoder makes of a value for a target of each type; null leaves the
  // target as it was, empty.
  function TextOf(value: Json): Option<string>
  {
    match value
    case Null => Some("")
    case Text(text) => Some(text)
    case _ => None
  }

  function TextsOf(items: seq<Json>): (texts: Option<seq<string>>)
    ensures texts.Some? ==> |texts.value| == |items| && forall i :: 0 <= i < |items| ==> TextOf(items[i]) == Some(texts.value[i])
    ensures texts == None ==> exists i :: 0 <= i < |items| && TextOf(items[i]) == None
  {
    if items == [] then Some([])
    else
      var first, rest := TextOf(items[0]), TextsOf(items[1..]);
      if first == None || rest == None then None else Some([first.value] + rest.value)
  }

  function ListOf(value: Json): Option<seq<string>>
  {
    match value
    case Null => Some([])
    case List(items) => TextsOf(items)
    case _ => None
  }

  function TimeOf(clock: Clock, value: Json): Option<Time>
  {
    match value
    case Null => Some(ZERO_TIME)
    case Text(text) => clock.parse(text)
    case _ => None
  }

  // ---------------------------------------------------------------- shapes

  const OWNER_LIMIT := 39
  const TOKEN_LIFE: int := 3600
  const TOKEN_REFRESH: int := TOKEN_LIFE / 2
  const CLOCK_SKEW: int := 120

  predicate Alphanumeric(c: char)
  {
    'a' <= c <= 'z' || 'A' <= c <= 'Z' || '0' <= c <= '9'
  }

  /** A GitHub account: alphanumeric words joined by one hyphen each. */
  predicate OwnerShape(owner: string)
  {
    owner != ""
    && (forall i :: 0 <= i < |owner| ==> Alphanumeric(owner[i]) || owner[i] == '-')
    && forall i :: 0 <= i < |owner| && owner[i] == '-' ==> 0 < i < |owner| - 1 && owner[i - 1] != '-'
  }

  predicate Word(word: string)
  {
    word != "" && forall i :: 0 <= i < |word| ==> Alphanumeric(word[i])
  }

  function Hyphened(words: seq<string>): string
    requires words != []
  {
    if |words| == 1 then words[0] else words[0] + ['-'] + Hyphened(words[1..])
  }

  /** An account's shape is that of words with one hyphen between each two. */
  lemma {:induction false} WordsAreOwner(words: seq<string>)
    requires words != [] && forall i :: 0 <= i < |words| ==> Word(words[i])
    ensures OwnerShape(Hyphened(words)) && Hyphened(words)[0] != '-'
  {
    if |words| > 1 {
      WordsAreOwner(words[1..]);
      var head, rest := words[0], Hyphened(words[1..]);
      var owner := head + ['-'] + rest;
      forall i | 0 <= i < |owner| && owner[i] == '-'
        ensures 0 < i < |owner| - 1 && owner[i - 1] != '-'
      {
        if i > |head| {
          assert rest[i - |head| - 1] == '-';
        }
      }
    }
  }

  lemma {:induction false} OwnerIsWords(owner: string) returns (words: seq<string>)
    requires OwnerShape(owner)
    ensures words != [] && (forall i :: 0 <= i < |words| ==> Word(words[i])) && owner == Hyphened(words)
    decreases |owner|
  {
    var at := Find(owner, '-');
    if at == |owner| {
      words := [owner];
    } else {
      var head, rest := owner[..at], owner[at + 1..];
      assert owner == head + ['-'] + rest;
      forall i | 0 <= i < |rest|
        ensures Alphanumeric(rest[i]) || (rest[i] == '-' && 0 < i < |rest| - 1 && rest[i - 1] != '-')
      {
        assert rest[i] == owner[at + 1 + i];
      }
      words := OwnerIsWords(rest);
      assert ([head] + words)[1..] == words;
      words := [head] + words;
    }
  }

  predicate NameShape(name: string)
  {
    1 <= |name| <= 100 && name != "." && name != ".."
    && forall i :: 0 <= i < |name| ==> Alphanumeric(name[i]) || name[i] == '_' || name[i] == '.' || name[i] == '-'
  }

  /** One line of printable characters. */
  predicate TokenShape(token: string)
  {
    1 <= |token| <= 512 && forall i :: 0 <= i < |token| ==> '!' <= token[i] <= '~'
  }

  function Of(repository: string): string
  {
    Cut(repository, '/').0
  }

  function Called(repository: string): string
  {
    Cut(repository, '/').1
  }

  datatype Run = Run(owner: string, repositories: seq<string>, token: string, expires: Time)

  datatype Handoff = Handoff(runs: seq<Run>)

  /** A run the contract admits: a GitHub account, at least one repository and
      each once, all its owner's as spelled, and a token of one printable line. */
  ghost predicate RunIsSound(run: Run)
  {
    && |run.owner| <= OWNER_LIMIT && OwnerShape(run.owner)
    && run.repositories != [] && Distinct(run.repositories)
    && AllOf(run.repositories, run.owner)
    && TokenShape(run.token)
  }

  /** Each owner has one run, however it is cased. */
  ghost predicate IsSound(handoff: Handoff)
  {
    && handoff.runs != []
    && (forall i :: 0 <= i < |handoff.runs| ==> RunIsSound(handoff.runs[i]))
    && forall i, j :: 0 <= i < j < |handoff.runs| ==> Lower(handoff.runs[i].owner) != Lower(handoff.runs[j].owner)
  }

  // What each side writes.

  function EncodeTexts(texts: seq<string>): (items: seq<Json>)
    ensures |items| == |texts| && forall i :: 0 <= i < |texts| ==> items[i] == Text(texts[i])
  {
    seq(|texts|, i requires 0 <= i < |texts| => Text(texts[i]))
  }

  function EncodeRun(clock: Clock, run: Run): Json
  {
    Object(map[Owner := Text(run.owner), Repositories := List(EncodeTexts(run.repositories)),
               Token := Text(run.token), ExpiresAt := Text(clock.format(run.expires))])
  }

  function EncodeRuns(clock: Clock, runs: seq<Run>): (items: seq<Json>)
    ensures |items| == |runs| && forall i :: 0 <= i < |runs| ==> items[i] == EncodeRun(clock, runs[i])
  {
    seq(|runs|, i requires 0 <= i < |runs| => EncodeRun(clock, runs[i]))
  }

  function Encode(clock: Clock, handoff: Handoff): Json
  {
    Object(map[Version := Number(1), Runs := List(EncodeRuns(clock, handoff.runs))])
  }

  // --------------------------------------------------------------- parsing

  const RUN_KEYS: set<Key> := {Owner, Repositories, Token, ExpiresAt}

  /** What one run says, before it is checked. */
  function Said(clock: Clock, value: Json): (run: Option<Run>)
  {
    if !value.Object? || value.fields.Keys != RUN_KEYS then None
    else
      var owner, repositories := TextOf(value.fields[Owner]), ListOf(value.fields[Repositories]);
      var token, expires := TextOf(value.fields[Token]), TimeOf(clock, value.fields[ExpiresAt]);
      if owner == None || repositories == None || token == None || expires == None then None
      else Some(Run(owner.value, repositories.value, token.value, expires.value))
  }

  /** Every repository is one of this owner's, by a name a repository can have. */
  ghost predicate AllOf(repositories: seq<string>, owner: string)
  {
    forall i :: 0 <= i < |repositories| ==> Of(repositories[i]) == owner && NameShape(Called(repositories[i]))
  }

  method AreAllOf(repositories: seq<string>, owner: string) returns (all: bool)
    ensures all <==> AllOf(repositories, owner)
  {
    hide NameShape, Cut;
    for i := 0 to |repositories|
      invariant forall j :: 0 <= j < i ==> Of(repositories[j]) == owner && NameShape(Called(repositories[j]))
    {
      if Of(repositories[i]) != owner || !NameShape(Called(repositories[i])) {
        return false;
      }
    }
    return true;
  }

  method ParseRun(clock: Clock, value: Json) returns (run: Option<Run>)
    ensures run.Some? ==> Said(clock, value) == run && RunIsSound(run.value)
    ensures run == None ==> Said(clock, value) == None || !RunIsSound(Said(clock, value).value)
  {
    hide OwnerShape, NameShape, TokenShape, AllOf, Distinct;
    var said := Said(clock, value);
    hide Said;
    if said == None || |said.value.owner| > OWNER_LIMIT || !OwnerShape(said.value.owner) || said.value.repositories == [] {
      return None;
    }
    var theirs := AreAllOf(said.value.repositories, said.value.owner);
    if !theirs {
      return None;
    }
    var once := EachOnce(said.value.repositories);
    if !once || !TokenShape(said.value.token) {
      return None;
    }
    return said;
  }

  /** Whether nothing is named twice. */
  method EachOnce(names: seq<string>) returns (once: bool)
    ensures once <==> Distinct(names)
  {
    var seen: set<string> := {};
    for i := 0 to |names|
      invariant forall name :: name in seen <==> name in names[..i]
      invariant Distinct(names[..i])
    {
      if names[i] in seen {
        var j :| 0 <= j < i && names[j] == names[i];
        return false;
      }
      seen := seen + {names[i]};
      assert names[..i + 1] == names[..i] + [names[i]];
    }
    assert names[..|names|] == names;
    return true;
  }

  ghost predicate SaidEach(clock: Clock, items: seq<Json>, runs: seq<Run>)
  {
    |runs| == |items| && forall i :: 0 <= i < |items| ==> Said(clock, items[i]) == Some(runs[i])
  }

  /** A value says a hand-off when every key is one it names, and it names
      every one. */
  ghost predicate Says(clock: Clock, value: Json, handoff: Handoff)
  {
    && value.Object? && value.fields.Keys == {Version, Runs}
    && value.fields[Version] == Number(1) && value.fields[Runs].List?
    && SaidEach(clock, value.fields[Runs].items, handoff.runs)
  }

  method ParseRuns(clock: Clock, items: seq<Json>) returns (handoff: Option<Handoff>)
    requires items != []
    ensures handoff.Some? ==> SaidEach(clock, items, handoff.value.runs) && IsSound(handoff.value)
    ensures handoff == None ==> forall any: Handoff :: SaidEach(clock, items, any.runs) ==> !IsSound(any)
  {
    var runs: seq<Run>, owners: set<string> := [], {};
    hide RunIsSound, Said, Lower;
    for i := 0 to |items|
      invariant |runs| == i
      invariant forall j :: 0 <= j < i ==> Said(clock, items[j]) == Some(runs[j]) && RunIsSound(runs[j])
      invariant forall j :: 0 <= j < i ==> Lower(runs[j].owner) in owners
      invariant forall owner :: owner in owners ==> exists j :: 0 <= j < i && Lower(runs[j].owner) == owner
      invariant forall j, k :: 0 <= j < k < i ==> Lower(runs[j].owner) != Lower(runs[k].owner)
    {
      var run := ParseRun(clock, items[i]);
      if run == None {
        return None;
      }
      var owner := Lower(run.value.owner);
      if owner in owners {
        ghost var j :| 0 <= j < i && Lower(runs[j].owner) == owner;
        return None;
      }
      owners := owners + {owner};
      runs := runs + [run.value];
    }
    return Some(Handoff(runs));
  }

  /** A hand-off, exactly when the data says one and it is sound. */
  method ParseHandoff(clock: Clock, data: Option<Json>) returns (handoff: Option<Handoff>)
    ensures handoff.Some? ==> data.Some? && Says(clock, data.value, handoff.value) && IsSound(handoff.value)
    ensures handoff == None ==> data == None || forall any :: Says(clock, data.value, any) ==> !IsSound(any)
  {
    if data == None || !data.value.Object? || data.value.fields.Keys != {Version, Runs} {
      return None;
    }
    var fields := data.value.fields;
    if fields[Version] != Number(1) || !fields[Runs].List? || fields[Runs].items == [] {
      return None;
    }
    hide RunIsSound, Said, Lower;
    handoff := ParseRuns(clock, fields[Runs].items);
  }

  lemma SaidOfEncoded(clock: Clock, run: Run)
    requires Reads(clock)
    ensures Said(clock, EncodeRun(clock, run)) == Some(run)
  {
    var value := EncodeRun(clock, run);
    assert value.fields.Keys == RUN_KEYS;
    var items := EncodeTexts(run.repositories);
    assert TextsOf(items).Some?;
    assert TextsOf(items).value == run.repositories;
  }

  /** What is written says what it was written from, and nothing else. */
  lemma SaysOfEncoded(clock: Clock, handoff: Handoff)
    requires Reads(clock)
    ensures forall any :: Says(clock, Encode(clock, handoff), any) <==> any == handoff
  {
    var value := Encode(clock, handoff);
    assert value.fields.Keys == {Version, Runs};
    forall i | 0 <= i < |handoff.runs|
      ensures Said(clock, value.fields[Runs].items[i]) == Some(handoff.runs[i])
    {
      SaidOfEncoded(clock, handoff.runs[i]);
    }
    forall any | Says(clock, value, any)
      ensures any == handoff
    {
      assert any.runs == handoff.runs;
    }
  }

  /** A value says at most one hand-off. */
  lemma SaysOne(clock: Clock, value: Json, one: Handoff, other: Handoff)
    requires Says(clock, value, one) && Says(clock, value, other)
    ensures one == other
  {
    assert one.runs == other.runs;
  }

  /** The round trip: what is written is parsed again as what it was exactly
      when it is sound, so what root re-encodes for its spool is claimed as it was. */
  method Reparsed(clock: Clock, handoff: Handoff) returns (parsed: Option<Handoff>)
    requires Reads(clock)
    ensures IsSound(handoff) <==> parsed == Some(handoff)
    ensures !IsSound(handoff) ==> parsed == None
  {
    SaysOfEncoded(clock, handoff);
    parsed := ParseHandoff(clock, Some(Encode(clock, handoff)));
  }
}
