/** Public DNS records at Cloudflare, made to match their declarations, against
    a server that stores what it is sent. */
module CloudflareRecords {
  import opened Basics

  datatype Kind = A | AAAA | CNAME | MX | TXT | CAA | OtherKind(name: string)
  datatype Text = Text(text: string)
  datatype Id = Id(text: string)

  /** What a CAA value is made of. */
  datatype Parts = Parts(flags: nat, tag: Text, target: Text)

  const AUTO_TTL := 1

  /** How values are spelled: a hostname's one spelling, a content's by its
      kind, a CAA value's parts, and how Cloudflare writes those back. */
  datatype Spelling = Spelling(
    hostname: Text -> Text,
    normal: (Kind, Text) -> Text,
    parts: Text -> Option<Parts>,
    written: Parts -> Text)

  datatype Record = Record(id: Id, kind: Kind, name: Text, content: Text, ttl: nat, priority: Option<nat>, proxied: bool, data: Option<Parts>)

  datatype Spec = Spec(kind: Kind, name: Text, content: Text, ttl: nat, priority: Option<nat>, proxied: bool)

  datatype Payload = Payload(kind: Kind, name: Text, ttl: nat, data: Option<Parts>, content: Option<Text>, priority: Option<nat>, proxied: Option<bool>)

  datatype Problem = NotCAA | NeedsPriority

  datatype Sending = Refused(why: Problem) | Sends(payload: Payload)

  /** What a create or an update sends: a CAA value taken apart and any other as
      its content, unless the value is no CAA one or an MX one has no priority. */
  function Sent(spelling: Spelling, spec: Spec): (sending: Sending)
    ensures sending == Refused(NotCAA) <==> spec.kind == CAA && spelling.parts(spec.content) == None
    ensures sending == Refused(NeedsPriority) <==> spec.kind == MX && spec.priority == None
    ensures sending.Sends? ==> (sending.payload.priority.Some? <==> spec.kind == MX)
    ensures sending.Sends? ==> (sending.payload.proxied.Some? <==> spec.kind in {A, AAAA, CNAME})
    ensures sending.Sends? ==> (sending.payload.data.Some? <==> spec.kind == CAA) && (sending.payload.content.Some? <==> spec.kind != CAA)
  {
    var data := if spec.kind == CAA then spelling.parts(spec.content) else None;
    if spec.kind == CAA && data == None then Refused(NotCAA)
    else if spec.kind == MX && spec.priority == None then Refused(NeedsPriority)
    else Sends(Payload(
                 spec.kind, spelling.hostname(spec.name), if spec.ttl == 0 then AUTO_TTL else spec.ttl, data,
                 if spec.kind == CAA then None else Some(spelling.normal(spec.kind, spec.content)),
                 if spec.kind == MX then spec.priority else None,
                 if spec.kind in {A, AAAA, CNAME} then Some(spec.proxied) else None))
  }

  predicate Matches(spelling: Spelling, live: Record, spec: Spec)
  {
    live.kind == spec.kind && spelling.hostname(live.name) == spelling.hostname(spec.name)
    && spelling.normal(spec.kind, live.content) == spelling.normal(spec.kind, spec.content)
  }

  /** The record there is already what sending this would make it, as far as
      what is sent says. */
  predicate Current(spelling: Spelling, live: Record, desired: Payload)
    requires desired.data == None ==> desired.content.Some?
  {
    && live.kind == desired.kind && spelling.hostname(live.name) == desired.name && live.ttl == desired.ttl
    && (if desired.data.Some? then live.data == desired.data else spelling.normal(desired.kind, live.content) == desired.content.value)
    && (desired.priority.Some? ==> live.priority == desired.priority)
    && (desired.proxied.Some? ==> live.proxied == desired.proxied.value)
  }

  /** A record is as a declaration says, whichever of its own fields that leaves
      alone: a priority is only an MX record's, and Cloudflare stands in front
      only of addresses and aliases. */
  ghost predicate AsDeclared(spelling: Spelling, live: Record, spec: Spec)
  {
    && live.kind == spec.kind && spelling.hostname(live.name) == spelling.hostname(spec.name)
    && live.ttl == (if spec.ttl > 0 then spec.ttl else 1)
    && (spec.kind == CAA ==> live.data.Some? && live.data == spelling.parts(spec.content))
    && (spec.kind != CAA ==> spelling.normal(spec.kind, live.content) == spelling.normal(spec.kind, spec.content))
    && (spec.kind == MX ==> live.priority.Some? && live.priority == spec.priority)
    && (spec.kind == A || spec.kind == AAAA || spec.kind == CNAME ==> live.proxied == spec.proxied)
  }

  lemma CurrentIsAsDeclared(spelling: Spelling, live: Record, spec: Spec)
    requires Sent(spelling, spec).Sends?
    ensures Current(spelling, live, Sent(spelling, spec).payload) <==> AsDeclared(spelling, live, spec)
  {
  }

  /** What the server makes of what it is sent. */
  function Stored(spelling: Spelling, id: Id, payload: Payload): Record
    requires payload.data == None ==> payload.content.Some?
  {
    Record(id, payload.kind, payload.name, if payload.data.Some? then spelling.written(payload.data.value) else payload.content.value,
           payload.ttl, payload.priority, payload.proxied == Some(true), payload.data)
  }

  /** A declaration whose name, and content where it is sent as such, are
      spelled the same once more. */
  predicate SpelledAgain(spelling: Spelling, spec: Spec)
  {
    && spelling.hostname(spelling.hostname(spec.name)) == spelling.hostname(spec.name)
    && (spec.kind != CAA ==>
          spelling.normal(spec.kind, spelling.normal(spec.kind, spec.content)) == spelling.normal(spec.kind, spec.content))
  }

  /** And of which a CAA value comes back as one that reads the same. */
  predicate Settled(spelling: Spelling, spec: Spec)
  {
    && SpelledAgain(spelling, spec)
    && (spec.kind == CAA && spelling.parts(spec.content).Some? ==>
          spelling.normal(CAA, spelling.written(spelling.parts(spec.content).value)) == spelling.normal(CAA, spec.content))
  }

  function ById(records: seq<Record>, id: Id): (at: Option<nat>)
    ensures at.Some? ==> at.value < |records| && records[at.value].id == id
    ensures at == None ==> forall i :: 0 <= i < |records| ==> records[i].id != id
  {
    if records == [] then None
    else
      var last := |records| - 1;
      if records[last].id == id then Some(last) else ById(records[..last], id)
  }

  /** The first record of a name, kind and content. */
  function FirstMatch(spelling: Spelling, records: seq<Record>, spec: Spec): (at: Option<nat>)
    ensures at.Some? ==> at.value < |records| && Matches(spelling, records[at.value], spec)
    ensures at.Some? ==> forall i :: 0 <= i < at.value ==> !Matches(spelling, records[i], spec)
    ensures at == None ==> forall i :: 0 <= i < |records| ==> !Matches(spelling, records[i], spec)
  {
    if records == [] then None
    else
      var last := |records| - 1;
      var before := FirstMatch(spelling, records[..last], spec);
      if before.Some? then before else if Matches(spelling, records[last], spec) then Some(last) else None
  }

  /** The record a declaration owns: the one it recorded, or else the first
      that matches it. */
  function Found(spelling: Spelling, records: seq<Record>, recorded: Option<Id>, spec: Spec): (at: Option<nat>)
    ensures at.Some? ==> at.value < |records|
  {
    if recorded.Some? && ById(records, recorded.value).Some? then ById(records, recorded.value)
    else FirstMatch(spelling, records, spec)
  }

  /** That record is the one of the recorded id, or, where none has it, the
      first of the declared kind whose name and content are spelled alike. */
  lemma FoundIs(spelling: Spelling, records: seq<Record>, recorded: Option<Id>, spec: Spec)
    ensures var at := Found(spelling, records, recorded, spec);
            if recorded.Some? && exists i :: 0 <= i < |records| && records[i].id == recorded.value
            then at.Some? && records[at.value].id == recorded.value
            else && (at.Some? ==> IsOf(spelling, records[at.value], spec))
                 && forall i :: 0 <= i < (if at.Some? then at.value else |records|) ==> !IsOf(spelling, records[i], spec)
  {
    assert forall live :: Matches(spelling, live, spec) <==> IsOf(spelling, live, spec);
    hide Matches, IsOf;
  }

  ghost predicate IsOf(spelling: Spelling, live: Record, spec: Spec)
  {
    && (live.kind, spelling.hostname(live.name)) == (spec.kind, spelling.hostname(spec.name))
    && spelling.normal(live.kind, live.content) == spelling.normal(spec.kind, spec.content)
  }

  /** An outcome: what changed, and the id of the record it is now about. */
  datatype Outcome = Failed(why: Problem) | WriteFailed | Done(changed: bool, id: Option<Id>)

  /** Each record has an id of its own. */
  ghost predicate OwnIds(records: seq<Record>)
  {
    forall i, j :: 0 <= i < j < |records| ==> records[i].id != records[j].id
  }

  function Verdict(spelling: Spelling, records: seq<Record>, recorded: Option<Id>, spec: Spec): Outcome
  {
    var at, sending := Found(spelling, records, recorded, spec), Sent(spelling, spec);
    if sending.Refused? then Failed(sending.why)
    else if at == None then Done(true, None)
    else Done(!Current(spelling, records[at.value], sending.payload), Some(records[at.value].id))
  }

  class Zone {
    const spelling: Spelling
    const fails: nat -> bool
    var records: seq<Record>
    var writes: nat

    constructor (spelling: Spelling, records: seq<Record>, fails: nat -> bool)
      ensures this.spelling == spelling && this.records == records && this.fails == fails && writes == 0
    {
      this.spelling, this.records, this.fails, writes := spelling, records, fails, 0;
    }

    method Put(at: nat, payload: Payload) returns (ok: bool)
      requires OwnIds(records) && at < |records| && (payload.data == None ==> payload.content.Some?)
      modifies this
      ensures writes == old(writes) + 1 && ok == !fails(old(writes)) && OwnIds(records)
      ensures records == if ok then old(records)[at := Stored(spelling, old(records)[at].id, payload)] else old(records)
    {
      ok := !fails(writes);
      writes := writes + 1;
      if ok {
        records := records[at := Stored(spelling, records[at].id, payload)];
      }
    }

    /** A record created gets an id that no other has. */
    method Post(payload: Payload, unused: Id) returns (ok: bool)
      requires OwnIds(records) && (payload.data == None ==> payload.content.Some?)
      requires forall i :: 0 <= i < |records| ==> records[i].id != unused
      modifies this
      ensures writes == old(writes) + 1 && ok == !fails(old(writes)) && OwnIds(records)
      ensures records == if ok then old(records) + [Stored(spelling, unused, payload)] else old(records)
    {
      ok := !fails(writes);
      writes := writes + 1;
      if ok {
        records := records + [Stored(spelling, unused, payload)];
      }
    }

    /** Makes one record match its declaration. With `apply` off it says the
        same and writes nothing. `unused` is the id a new record would get. */
    method Reconcile(spec: Spec, recorded: Option<Id>, unused: Id, apply: bool) returns (outcome: Outcome)
      requires OwnIds(records) && forall i :: 0 <= i < |records| ==> records[i].id != unused
      modifies this
      ensures OwnIds(records)
      // Nothing is to change exactly when the record that is found is as declared.
      ensures outcome.Done? && !outcome.changed ==>
                exists i :: 0 <= i < |records| && Some(records[i].id) == outcome.id && AsDeclared(spelling, records[i], spec)
      ensures outcome.Done? && outcome.changed && Found(spelling, old(records), recorded, spec).Some? ==>
                !AsDeclared(spelling, old(records)[Found(spelling, old(records), recorded, spec).value], spec)
      ensures outcome == WriteFailed ==>
                apply && fails(old(writes)) && Verdict(spelling, old(records), recorded, spec).Done?
                && Verdict(spelling, old(records), recorded, spec).changed
      ensures outcome != WriteFailed ==>
                outcome == Verdict(spelling, old(records), recorded, spec)
                || (apply && outcome == Done(true, Some(unused)) && Verdict(spelling, old(records), recorded, spec) == Done(true, None))
      ensures !(apply && outcome.Done? && outcome.changed) ==> records == old(records)
      ensures !apply || outcome.Failed? || (outcome.Done? && !outcome.changed) ==> writes == old(writes)
      ensures apply && outcome.Done? && outcome.changed ==>
                Takes(spelling, old(records), records, recorded, spec, unused) && outcome.id == Some(Owned(spelling, old(records), recorded, spec, unused))
    {
      hide Sent, Current, Matches, Stored, ById, FirstMatch, AsDeclared;
      var at := Found(spelling, records, recorded, spec);
      var sending := Sent(spelling, spec);
      if sending.Refused? {
        return Failed(sending.why);
      }
      if at == None {
        if apply {
          var ok := Post(sending.payload, unused);
          return if ok then Done(true, Some(unused)) else WriteFailed;
        }
        return Done(true, None);
      }
      var live := records[at.value];
      var changed := !Current(spelling, live, sending.payload);
      CurrentIsAsDeclared(spelling, live, spec);
      if changed && apply {
        var ok := Put(at.value, sending.payload);
        if !ok {
          return WriteFailed;
        }
      }
      return Done(changed, Some(live.id));
    }

    /** One applied reconcile and then another, with the id it had recorded or
        the one the first answered. After one that changes nothing the second
        changes nothing and is about the same record. After one that does,
        the second changes nothing exactly when the declaration is spelled the
        same once more, as long as the record is found by an id; and of a
        settled one however it is found. */
    method Settles(spec: Spec, recorded: Option<Id>, unused: Id, next: Id, keeps: bool, apply: bool) returns (first: Outcome, second: Outcome)
      requires OwnIds(records)
      requires unused != next && forall i :: 0 <= i < |records| ==> records[i].id != unused && records[i].id != next
      modifies this
      ensures first.Done? && first.changed ==> Takes(spelling, old(records), records, recorded, spec, unused) || (apply && !Settled(spelling, spec))
      ensures first.Done? && !first.changed ==> second == first
      ensures first.Done? && first.changed
              && (!keeps || (recorded.Some? && exists i :: 0 <= i < |old(records)| && old(records)[i].id == recorded.value)) ==>
                if SpelledAgain(spelling, spec) then second == Done(false, first.id)
                else second == Done(true, first.id) || (apply && second == WriteFailed)
      ensures first.Done? && Settled(spelling, spec) ==> second == Done(false, first.id)
    {
      hide Sent, Current, Matches, Stored, ById, FirstMatch, Takes, Found, Settled, SpelledAgain, Recorded;
      RecordedIs(records, recorded);
      first := Reconcile(spec, recorded, unused, true);
      ghost var middle := records;
      if first.Done? {
        if first.changed {
          TakenIsKnown(spelling, old(records), records, recorded, spec, unused);
          TakenIds(spelling, old(records), records, recorded, spec, unused, next);
          if Settled(spelling, spec) {
            TakenIsCurrent(spelling, old(records), records, recorded, spec, unused);
          }
        } else {
          RecordedIsFound(spelling, records, recorded, spec);
        }
      }
      var again := if keeps || !first.Done? then recorded else first.id;
      second := Reconcile(spec, again, next, apply);
    }
  }

  /** A record of the recorded id is there. */
  predicate Recorded(records: seq<Record>, recorded: Option<Id>)
  {
    recorded.Some? && ById(records, recorded.value).Some?
  }

  lemma RecordedIs(records: seq<Record>, recorded: Option<Id>)
    ensures Recorded(records, recorded) <==> recorded.Some? && exists i :: 0 <= i < |records| && records[i].id == recorded.value
  {
  }

  /** What is stored of a declaration, part by part. */
  lemma StoredIs(spelling: Spelling, id: Id, spec: Spec)
    requires Sent(spelling, spec).Sends?
    ensures var stored := Stored(spelling, id, Sent(spelling, spec).payload);
            && stored.id == id && stored.kind == spec.kind && stored.name == spelling.hostname(spec.name)
            && stored.ttl == (if spec.ttl > 0 then spec.ttl else 1)
            && (spec.kind == CAA ==> stored.data == spelling.parts(spec.content) && stored.content == spelling.written(stored.data.value))
            && (spec.kind != CAA ==> stored.data == None && stored.content == spelling.normal(spec.kind, spec.content))
            && stored.priority == (if spec.kind == MX then spec.priority else None)
            && stored.proxied == (spec.kind in {A, AAAA, CNAME} && spec.proxied)
  {
  }

  /** The id of the record a declaration owns, or of the new one. */
  function Owned(spelling: Spelling, records: seq<Record>, recorded: Option<Id>, spec: Spec, unused: Id): Id
  {
    var at := Found(spelling, records, recorded, spec);
    if at == None then unused else records[at.value].id
  }

  /** What an applied change does: the one record the declaration owns becomes
      it, its id kept, or a new one is added; every other is as it was. */
  ghost predicate Takes(spelling: Spelling, before: seq<Record>, after: seq<Record>, recorded: Option<Id>, spec: Spec, unused: Id)
  {
    var at, sending := Found(spelling, before, recorded, spec), Sent(spelling, spec);
    sending.Sends?
    && after == if at == None then before + [Stored(spelling, unused, sending.payload)]
                else before[at.value := Stored(spelling, before[at.value].id, sending.payload)]
  }

  /** What is stored of a declaration is current exactly when its name, and a
      content that is sent as such, are spelled the same once more; of one whose
      spellings are settled it is found again as well. */
  lemma StoredIsCurrent(spelling: Spelling, id: Id, spec: Spec)
    requires Sent(spelling, spec).Sends?
    ensures var payload := Sent(spelling, spec).payload;
            Current(spelling, Stored(spelling, id, payload), payload) <==> SpelledAgain(spelling, spec)
    ensures Settled(spelling, spec) ==> Matches(spelling, Stored(spelling, id, Sent(spelling, spec).payload), spec)
  {
  }

  lemma ByIdIs(records: seq<Record>, at: nat)
    requires OwnIds(records) && at < |records|
    ensures ById(records, records[at].id) == Some(at)
  {
    var found := ById(records, records[at].id);
    assert found.Some?;
  }

  lemma TakenIds(spelling: Spelling, before: seq<Record>, after: seq<Record>, recorded: Option<Id>, spec: Spec, unused: Id, next: Id)
    requires Takes(spelling, before, after, recorded, spec, unused) && next != unused
    requires forall i :: 0 <= i < |before| ==> before[i].id != next
    ensures forall i :: 0 <= i < |after| ==> after[i].id != next
  {
    hide Sent, Found;
  }

  lemma FirstMatchIs(spelling: Spelling, records: seq<Record>, spec: Spec, at: nat)
    requires at < |records| && Matches(spelling, records[at], spec)
    requires forall i :: 0 <= i < at ==> !Matches(spelling, records[i], spec)
    ensures FirstMatch(spelling, records, spec) == Some(at)
  {
    hide Matches;
    var found := FirstMatch(spelling, records, spec);
    assert found.Some?;
  }

  lemma NoId(records: seq<Record>, id: Id)
    requires forall i :: 0 <= i < |records| ==> records[i].id != id
    ensures ById(records, id) == None
  {
  }

  /** After an applied change the record that was owned is found by its id, and
      by the id recorded where it was found by that, and is current exactly when
      the declaration is spelled the same once more. */
  lemma TakenIsKnown(spelling: Spelling, before: seq<Record>, after: seq<Record>, recorded: Option<Id>, spec: Spec, unused: Id)
    requires OwnIds(before) && OwnIds(after) && Takes(spelling, before, after, recorded, spec, unused)
    ensures var id := Owned(spelling, before, recorded, spec, unused);
            && Verdict(spelling, after, Some(id), spec) == Done(!SpelledAgain(spelling, spec), Some(id))
            && (Recorded(before, recorded) ==> recorded == Some(id))
  {
    var found := Found(spelling, before, recorded, spec);
    var at := if found == None then |before| else found.value;
    var id := Owned(spelling, before, recorded, spec, unused);
    StoredIsCurrent(spelling, id, spec);
    ByIdIs(after, at);
    hide Sent, Current, Matches, ById, FirstMatch, Settled, SpelledAgain;
  }

  /** After an applied change the record that was owned is found again, by what
      was recorded or by its id, and is current. */
  lemma TakenIsCurrent(spelling: Spelling, before: seq<Record>, after: seq<Record>, recorded: Option<Id>, spec: Spec, unused: Id)
    requires Settled(spelling, spec) && OwnIds(before) && OwnIds(after) && Takes(spelling, before, after, recorded, spec, unused)
    ensures var id := Owned(spelling, before, recorded, spec, unused);
            Verdict(spelling, after, recorded, spec) == Done(false, Some(id)) && Verdict(spelling, after, Some(id), spec) == Done(false, Some(id))
  {
    var found := Found(spelling, before, recorded, spec);
    var at := if found == None then |before| else found.value;
    var id := Owned(spelling, before, recorded, spec, unused);
    StoredIsCurrent(spelling, id, spec);
    ByIdIs(after, at);
    TakenIsFound(spelling, before, after, recorded, spec, at);
    hide Sent, Current, Matches, ById, FirstMatch, Settled;
  }

  lemma TakenIsFound(spelling: Spelling, before: seq<Record>, after: seq<Record>, recorded: Option<Id>, spec: Spec, at: nat)
    requires OwnIds(after) && at < |after| && Matches(spelling, after[at], spec)
    requires match Found(spelling, before, recorded, spec)
             case None => at == |before| && after[..at] == before && |after| == at + 1
             case Some(was) => at == was && |after| == |before| && after == before[at := after[at]] && after[at].id == before[at].id
    ensures Found(spelling, after, recorded, spec) == Some(at)
  {
    var found := Found(spelling, before, recorded, spec);
    assert forall i :: 0 <= i < |before| && i != at ==> after[i] == before[i] by {
      assert found == None ==> forall i :: 0 <= i < |before| ==> after[..at][i] == after[i];
    }
    hide Matches;
    if recorded.Some? && ById(before, recorded.value).Some? {
      ByIdIs(after, at);
    } else {
      if recorded.Some? && after[at].id != recorded.value {
        NoId(after, recorded.value);
      }
      if recorded.Some? && after[at].id == recorded.value {
        ByIdIs(after, at);
      }
      FirstMatchIs(spelling, after, spec, at);
    }
  }

  lemma RecordedIsFound(spelling: Spelling, records: seq<Record>, recorded: Option<Id>, spec: Spec)
    requires OwnIds(records) && Found(spelling, records, recorded, spec).Some?
    ensures var at := Found(spelling, records, recorded, spec).value;
            Found(spelling, records, Some(records[at].id), spec) == Some(at)
  {
    ByIdIs(records, Found(spelling, records, recorded, spec).value);
  }
}
