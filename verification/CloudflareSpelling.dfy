/** The spellings Cloudflare's records are compared by, and kind by kind when
    what is declared is spelled the same once more. */
module CloudflareSpelling {
  import opened Basics
  import opened Texts
  import opened Hostnames
  import Txt = TxtStrings
  import opened CloudflareRecords

  // -------------------------------------------------------- text and its bytes

  /** Each character a byte, as the programs hold text. */
  predicate InBytes(text: string)
  {
    forall i :: 0 <= i < |text| ==> text[i] as int < 256
  }

  function AsBytes(text: string): (bytes: Txt.Bytes)
    requires InBytes(text)
    ensures |bytes| == |text| && forall i :: 0 <= i < |text| ==> bytes[i] == text[i] as int
  {
    seq(|text|, i requires 0 <= i < |text| => text[i] as int)
  }

  function AsText(bytes: Txt.Bytes): (text: string)
    ensures |text| == |bytes| && InBytes(text) && forall i :: 0 <= i < |bytes| ==> text[i] as int == bytes[i]
    ensures AsBytes(text) == bytes
  {
    seq(|bytes|, i requires 0 <= i < |bytes| => bytes[i] as char)
  }

  predicate IsText(text: string)
  {
    InBytes(text) && Txt.Valid(AsBytes(text))
  }

  /** Trimming spaces leaves text text. */
  lemma {:induction false} TrimLeftIsText(text: string)
    requires IsText(text)
    ensures IsText(TrimLeft(text))
  {
    if text != "" && Space(text[0]) {
      var bytes := AsBytes(text);
      assert Txt.First(bytes) == 1;
      assert AsBytes(text[1..]) == bytes[1..];
      TrimLeftIsText(text[1..]);
    }
  }

  lemma {:induction false} TrimEndIsText(text: string)
    requires IsText(text)
    ensures IsText(TrimEnd(text, Space))
  {
    if text != "" && Space(text[|text| - 1]) {
      var bytes, cut := AsBytes(text), |text| - 1;
      assert Txt.Boundary(bytes, cut);
      Txt.CutIsValid(bytes, cut);
      assert AsBytes(text[..cut]) == bytes[..cut];
      TrimEndIsText(text[..cut]);
    }
  }

  lemma TrimIsText(text: string)
    requires IsText(text)
    ensures IsText(Trim(text))
  {
    TrimLeftIsText(text);
    TrimEndIsText(TrimLeft(text));
  }

  lemma Trimmed(text: string)
    ensures var once := Trim(text); once == "" || (!Space(once[0]) && !Space(once[|once| - 1]))
    ensures Trim(Trim(text)) == Trim(text)
  {
    var left, once := TrimLeft(text), Trim(text);
    if once != "" {
      assert once[0] == left[0];
    }
  }

  // -------------------------------------------------------------- the spellings

  /** A CAA value's rules: how the contract's pattern takes one apart, wherever
      it is trimmed, how its parts are written to compare, and how Cloudflare
      writes them. */
  datatype Rules = Rules(parts: string -> Option<Parts>, joined: Parts -> string, written: Parts -> string)

  function Normal(rules: Rules, kind: Kind, content: string): string
  {
    var value := Trim(content);
    match kind
    case TXT => if IsText(value) then AsText(Txt.Stored(AsBytes(value))) else value
    case CNAME => Hostname(value)
    case MX => Hostname(value)
    case CAA => (match rules.parts(value) case None => value case Some(parts) => rules.joined(parts))
    case _ => value
  }

  function Spelled(rules: Rules): Spelling
  {
    Spelling((name: Text) => Text(Hostname(name.text)),
             (kind: Kind, content: Text) => Text(Normal(rules, kind, content.text)),
             (content: Text) => rules.parts(content.text),
             (parts: Parts) => Text(rules.written(parts)))
  }

  /** A hostname's spelling that is its own: trimming its dots left no space. */
  predicate Ends(value: string)
  {
    var once := Hostname(value);
    once == "" || !Space(once[|once| - 1])
  }

  lemma HostnameOfTrimmed(value: string)
    ensures Hostname(Trim(value)) == Hostname(value)
  {
    Trimmed(value);
  }

  lemma TxtAgain(rules: Rules, content: string)
    requires IsText(content)
    ensures Normal(rules, TXT, Normal(rules, TXT, content)) == Normal(rules, TXT, content)
  {
    TrimIsText(content);
    var value := Trim(content);
    Txt.StoredAgain(AsBytes(value));
    var stored := Txt.Stored(AsBytes(value));
    hide Txt.Valid, Txt.Stored;
    var once := AsText(stored);
    QuotedIsTrimmed(once, stored);
  }

  lemma QuotedIsTrimmed(once: string, stored: Txt.Bytes)
    requires InBytes(once) && AsBytes(once) == stored && Txt.InQuotes(stored)
    ensures Trim(once) == once
  {
    assert once[0] as int == stored[0] == Txt.QUOTE && once[|once| - 1] as int == stored[|stored| - 1] == Txt.QUOTE;
    assert !Space(once[0]) && !Space(once[|once| - 1]);
  }

  lemma ContentAgain(rules: Rules, kind: Kind, content: string)
    requires kind != CAA && (kind == TXT ==> IsText(content))
    ensures Normal(rules, kind, Normal(rules, kind, content)) == Normal(rules, kind, content) <==>
              (kind in {CNAME, MX} ==> Ends(content))
  {
    TargetAgain(content);
    TrimAgain(content);
    if kind == TXT {
      TxtAgain(rules, content);
    }
    hide Hostname, Trim, Txt.Stored, IsText, Ends;
  }

  lemma TargetAgain(content: string)
    ensures Hostname(Trim(Hostname(Trim(content)))) == Hostname(Trim(content)) <==> Ends(content)
  {
    HostnameTwice(content);
    HostnameOfTrimmed(content);
    HostnameOfTrimmed(Hostname(content));
    hide Hostname, Trim;
  }

  lemma NameAgain(name: string)
    ensures Hostname(Hostname(name)) == Hostname(name) <==> Ends(name)
  {
    HostnameTwice(name);
  }

  lemma TrimAgain(content: string)
    ensures Trim(Trim(content)) == Trim(content)
  {
    Trimmed(content);
  }

  lemma TextsAlike(one: string, other: string)
    ensures Text(one) == Text(other) <==> one == other
  {
  }

  /** Kind by kind, when a declaration is settled: its name's spelling is its
      own; of a name it points at too; and of a CAA value, Cloudflare's writing
      of it compares as it does. Text, an address and any other content always
      is. */
  lemma SettledWhen(rules: Rules, spec: Spec)
    requires spec.kind == TXT ==> IsText(spec.content.text)
    ensures Settled(Spelled(rules), spec) <==>
              && Ends(spec.name.text)
              && (spec.kind in {CNAME, MX} ==> Ends(spec.content.text))
              && (spec.kind == CAA && rules.parts(spec.content.text).Some? ==>
                    Normal(rules, CAA, rules.written(rules.parts(spec.content.text).value)) == Normal(rules, CAA, spec.content.text))
  {
    var name, content := spec.name.text, spec.content.text;
    NameAgain(name);
    if spec.kind != CAA {
      ContentAgain(rules, spec.kind, content);
    }
    hide Hostname, Normal, IsText, Ends, Trim;
    TextsAlike(Hostname(Hostname(name)), Hostname(name));
    TextsAlike(Normal(rules, spec.kind, Normal(rules, spec.kind, content)), Normal(rules, spec.kind, content));
  }

  /** Where the form values are compared in is told apart by its parts, a CAA
      value is settled exactly when what Cloudflare writes of its parts is
      taken apart into them again. */
  lemma CaaSettledWhen(rules: Rules, content: string, parts: Parts)
    requires rules.parts(Trim(content)) == rules.parts(content) == Some(parts)
    requires rules.parts(rules.joined(parts)).Some? && forall other :: rules.joined(other) == rules.joined(parts) ==> other == parts
    ensures Normal(rules, CAA, rules.written(parts)) == Normal(rules, CAA, content) <==>
              rules.parts(Trim(rules.written(parts))) == Some(parts)
  {
    hide Trim;
  }
}
