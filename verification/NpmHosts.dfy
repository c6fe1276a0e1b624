/** Proxy hosts in Nginx Proxy Manager, made to match their declarations,
    against a server that stores what it is sent. */
module NpmHosts {
  import opened Basics
  import opened Sorting

  /** Everything of a host HQ decides beside its names and certificate. */
  datatype Settings = Settings(forward: string, forceSSL: bool, rest: string)

  /** What NPM keeps of its own in a host. */
  datatype Raw = Raw(text: string)

  const NO_LOCATIONS := Raw("[]")
  const NO_META := Raw("{}")

  /** A set of domain names, however it was listed: sorted, as it is compared. */
  datatype Domains = Domains(sorted: seq<string>)

  function Of(names: seq<string>): Domains
  {
    Domains(Sorted(names))
  }

  datatype Host = Host(id: Option<nat>, names: seq<string>, certificate: nat, settings: Settings, locations: Raw, meta: Raw)

  datatype Request = Request(names: seq<string>, certificate: nat, settings: Settings, locations: Raw, meta: Raw)

  datatype Spec = Spec(names: seq<string>, certificate: nat, settings: Settings)

  datatype Problem = Duplicate | WithoutId | NeedsCertificate | NeedsIssued | WriteFailed

  datatype Outcome = Failed(why: Problem) | Done(changed: bool)

  /** The hosts of one set of names, by where they are in the list. */
  function Matching(hosts: seq<Host>, names: Domains): seq<nat>
  {
    if hosts == [] then []
    else
      var last := |hosts| - 1;
      Matching(hosts[..last], names) + if Of(hosts[last].names) == names then [last] else []
  }

  ghost predicate Rises(found: seq<nat>)
  {
    forall i, j :: 0 <= i < j < |found| ==> found[i] < found[j]
  }

  lemma {:induction false} MatchingIs(hosts: seq<Host>, names: Domains)
    ensures forall i: nat :: i in Matching(hosts, names) <==> i < |hosts| && Of(hosts[i].names) == names
    ensures Rises(Matching(hosts, names))
  {
    hide Of;
    if hosts != [] {
      var last := |hosts| - 1;
      var before := Matching(hosts[..last], names);
      MatchingIs(hosts[..last], names);
      assert forall i :: 0 <= i < |before| ==> before[i] in before;
      assert forall i: nat :: i < last ==> hosts[..last][i] == hosts[i];
    }
  }

  lemma MatchingTwice(hosts: seq<Host>, names: Domains)
    ensures var found := Matching(hosts, names);
            && (found == [] <==> forall i :: 0 <= i < |hosts| ==> Of(hosts[i].names) != names)
            && (|found| > 1 <==> exists i, j :: 0 <= i < j < |hosts| && Of(hosts[i].names) == Of(hosts[j].names) == names)
            && (found != [] ==> found[0] < |hosts|)
  {
    MatchingIs(hosts, names);
    hide Of, Matching;
    var found := Matching(hosts, names);
    if |found| > 1 {
      assert found[0] in found && found[1] in found && found[0] < found[1];
    }
    if i, j :| 0 <= i < j < |hosts| && Of(hosts[i].names) == Of(hosts[j].names) == names {
      assert i in found && j in found;
    }
    assert found != [] ==> found[0] in found;
  }

  /** The hosts a spec is about: by its own names, or by the ones it was
      observed under when none has its own. */
  function About(hosts: seq<Host>, spec: Spec, observed: seq<string>): seq<nat>
  {
    var found := Matching(hosts, Of(spec.names));
    if found == [] && observed != [] && Of(observed) != Of(spec.names) then Matching(hosts, Of(observed)) else found
  }

  lemma AboutIsThere(hosts: seq<Host>, spec: Spec, observed: seq<string>)
    ensures forall i: nat :: i in About(hosts, spec, observed) ==> i < |hosts|
    ensures forall i: nat :: i < |hosts| && Of(hosts[i].names) == Of(spec.names) ==> i in About(hosts, spec, observed)
    // By the names it was observed under only where no host has its own.
    ensures (exists i :: 0 <= i < |hosts| && Of(hosts[i].names) == Of(spec.names)) ==>
              forall i: nat :: i in About(hosts, spec, observed) ==> Of(hosts[i].names) == Of(spec.names)
    ensures (forall i :: 0 <= i < |hosts| ==> Of(hosts[i].names) != Of(spec.names)) ==>
              forall i: nat :: i in About(hosts, spec, observed) <==> observed != [] && i < |hosts| && Of(hosts[i].names) == Of(observed)
    ensures var own := Matching(hosts, Of(spec.names)); own == [] || About(hosts, spec, observed) == own
    ensures Rises(About(hosts, spec, observed))
  {
    MatchingIs(hosts, Of(spec.names));
    MatchingIs(hosts, Of(observed));
    hide Of, Matching, Rises;
    var own := Matching(hosts, Of(spec.names));
    assert own != [] ==> own[0] in own;
  }

  lemma SortedTwice(names: seq<string>)
    ensures Of(Sorted(names)) == Of(names) && Domains(Sorted(names)) == Of(names)
  {
    SortedAlike(Sorted(names), names);
  }

  /** The request that would leave a host as NPM holds it. */
  function Held(host: Host): Request
  {
    Request(Sorted(host.names), host.certificate, host.settings, host.locations, host.meta)
  }

  /** A host is to change when any part of it differs but its locations and its
      meta, which are left as they are. */
  predicate Differs(held: Request, desired: Request)
  {
    held.(locations := NO_LOCATIONS, meta := NO_META) != desired.(locations := NO_LOCATIONS, meta := NO_META)
  }

  function Kept(own: Raw, none: Raw): Raw
  {
    if own.text != "" then own else none
  }

  /** What is sent for a host that is there: its certificate when the spec has
      none, and what NPM keeps of its own. */
  function Onto(spec: Spec, current: Host): Request
  {
    Request(Sorted(spec.names), if spec.certificate == 0 then current.certificate else spec.certificate, spec.settings,
            Kept(current.locations, NO_LOCATIONS), Kept(current.meta, NO_META))
  }

  function Afresh(spec: Spec): Request
  {
    Request(Sorted(spec.names), spec.certificate, spec.settings, NO_LOCATIONS, NO_META)
  }

  function Stored(id: nat, request: Request): Host
  {
    Host(Some(id), request.names, request.certificate, request.settings, request.locations, request.meta)
  }

  lemma DiffersWhenNotAs(current: Host, spec: Spec)
    requires current.id.Some? && !(spec.settings.forceSSL && current.certificate == 0)
    ensures Differs(Held(current), Onto(spec, current)) <==> !IsAs(current, spec)
  {
    hide Sorted;
  }

  lemma OntoIsAs(current: Host, spec: Spec)
    requires current.id.Some? && !(spec.settings.forceSSL && current.certificate == 0)
    ensures var after := Stored(current.id.value, Onto(spec, current));
            && IsAs(after, spec) && after.id == current.id
            && (spec.certificate == 0 ==> after.certificate == current.certificate)
            && after.locations == (if current.locations.text == "" then NO_LOCATIONS else current.locations)
            && after.meta == (if current.meta.text == "" then NO_META else current.meta)
  {
    SortedTwice(spec.names);
    hide Sorted;
  }

  lemma AfreshIsAs(id: nat, spec: Spec)
    requires !(spec.settings.forceSSL && spec.certificate == 0)
    ensures IsAs(Stored(id, Afresh(spec)), spec)
  {
    SortedTwice(spec.names);
    hide Sorted;
  }

  /** What a host is when it is as its spec declares. */
  predicate IsAs(host: Host, spec: Spec)
  {
    && host.id.Some? && Of(host.names) == Of(spec.names) && host.settings == spec.settings
    && (spec.certificate != 0 ==> host.certificate == spec.certificate)
    && (spec.settings.forceSSL ==> host.certificate != 0)
  }

  /** Ids are the server's to give, one each. */
  ghost predicate OwnIds(hosts: seq<Host>)
  {
    forall i, j :: 0 <= i < j < |hosts| && hosts[i].id.Some? ==> hosts[j].id != hosts[i].id
  }

  class Npm {
    var hosts: seq<Host>
    var last: nat
    var writes: nat
    // Whether the nth write fails.
    const fails: nat -> bool

    ghost predicate Valid()
      reads this
    {
      OwnIds(hosts) && forall i :: 0 <= i < |hosts| && hosts[i].id.Some? ==> hosts[i].id.value <= last
    }

    constructor (hosts: seq<Host>, last: nat, fails: nat -> bool)
      requires OwnIds(hosts) && forall i :: 0 <= i < |hosts| && hosts[i].id.Some? ==> hosts[i].id.value <= last
      ensures Valid() && this.hosts == hosts && this.last == last && this.fails == fails && writes == 0
    {
      this.hosts, this.last, this.fails, writes := hosts, last, fails, 0;
    }

    method Post(request: Request) returns (ok: bool)
      requires Valid()
      modifies this
      ensures Valid() && writes == old(writes) + 1 && ok == !fails(old(writes))
      ensures !ok ==> hosts == old(hosts)
      ensures ok ==> |hosts| == |old(hosts)| + 1 && hosts[..|old(hosts)|] == old(hosts)
      ensures ok ==> hosts[|old(hosts)|].id.Some? && hosts[|old(hosts)|] == Stored(hosts[|old(hosts)|].id.value, request)
    {
      ok := !fails(writes);
      writes := writes + 1;
      if ok {
        last := last + 1;
        hosts := hosts + [Stored(last, request)];
      }
    }

    /** Replaces the host of an id. */
    method Put(id: nat, request: Request) returns (ok: bool)
      requires Valid() && exists i :: 0 <= i < |hosts| && hosts[i].id == Some(id)
      modifies this
      ensures Valid() && writes == old(writes) + 1 && ok == !fails(old(writes)) && |hosts| == |old(hosts)|
      ensures !ok ==> hosts == old(hosts)
      ensures ok ==> forall i :: 0 <= i < |hosts| ==>
                hosts[i] == if old(hosts)[i].id == Some(id) then Stored(id, request) else old(hosts)[i]
    {
      ok := !fails(writes);
      writes := writes + 1;
      if ok {
        var at := 0;
        while hosts[at].id != Some(id)
          invariant at < |hosts| && forall i :: 0 <= i < at ==> hosts[i].id != Some(id)
          decreases |hosts| - at
        {
          at := at + 1;
        }
        hosts := hosts[at := Stored(id, request)];
      }
    }

    /** Makes one host match its declaration. With `apply` off it only says
        what it would do: the same outcome, but for a write that fails. */
    method Reconcile(spec: Spec, observed: seq<string>, apply: bool) returns (outcome: Outcome)
      requires Valid()
      modifies this
      ensures Valid()
      ensures outcome == Verdict(old(hosts), spec, observed)
              || (apply && Verdict(old(hosts), spec, observed) == Done(true) && outcome == Failed(WriteFailed) && fails(old(writes)))
      ensures !(apply && outcome == Done(true)) ==> hosts == old(hosts)
      ensures !apply || outcome == Done(false) || (outcome.Failed? && outcome.why != WriteFailed) ==> writes == old(writes)
      ensures apply && outcome == Done(true) ==> Takes(old(hosts), hosts, spec, observed)
    {
      hide Of, Sorted, Matching, About, Differs, Held, Onto, Stored, IsAs, Afresh;
      ghost var before := hosts;
      var found := About(hosts, spec, observed);
      AboutIsThere(hosts, spec, observed);
      if |found| > 1 {
        return Failed(Duplicate);
      }
      if |found| == 1 {
        assert found[0] in found;
        var current := hosts[found[0]];
        if current.id == None {
          return Failed(WithoutId);
        }
        if spec.settings.forceSSL && current.certificate == 0 {
          return Failed(NeedsCertificate);
        }
        var desired := Onto(spec, current);
        var changed := Differs(Held(current), desired);
        DiffersWhenNotAs(current, spec);
        if changed && apply {
          var ok := Put(current.id.value, desired);
          if !ok {
            return Failed(WriteFailed);
          }
          OntoIsAs(current, spec);
        }
        return Done(changed);
      }
      if spec.settings.forceSSL && spec.certificate == 0 {
        return Failed(NeedsIssued);
      }
      if apply {
        var ok := Post(Afresh(spec));
        if !ok {
          return Failed(WriteFailed);
        }
        AfreshIsAs(hosts[|before|].id.value, spec);
      }
      return Done(true);
    }

    /** One applied reconcile and then another, planned or applied, with the
        same spec: the second changes nothing, and nothing else was touched. */
    method Settles(spec: Spec, observed: seq<string>, again: seq<string>, apply: bool) returns (first: Outcome, second: Outcome)
      requires Valid()
      modifies this
      ensures Valid()
      ensures first.Done? ==> second == Done(false)
      ensures first == Done(true) ==> Takes(old(hosts), hosts, spec, observed)
    {
      hide Of, Sorted, Sole, Takes, IsAs, About, Matching;
      first := Reconcile(spec, observed, true);
      if first == Done(true) {
        TakenIsAs(old(hosts), hosts, spec, observed);
      } else if first == Done(false) {
        CurrentIsAs(hosts, spec, observed);
      }
      if first.Done? {
        SoleIsCurrent(hosts, spec, again);
      }
      second := Reconcile(spec, again, apply);
    }

    /** Removes the one host of a spec's names; more than one of them, or one
        without an id, is refused before anything is written, planned or not. */
    method Delete(spec: Spec, apply: bool) returns (outcome: Outcome)
      requires Valid()
      modifies this
      ensures Valid()
      ensures outcome == Removal(old(hosts), spec) || (outcome == Failed(WriteFailed) && Removal(old(hosts), spec) == Done(true))
      ensures outcome == Failed(WriteFailed) <==> apply && Removal(old(hosts), spec) == Done(true) && fails(old(writes))
      ensures writes == old(writes) + if apply && Removal(old(hosts), spec) == Done(true) then 1 else 0
      ensures !(apply && outcome == Done(true)) ==> hosts == old(hosts)
      ensures outcome == Done(false) ==> NoneNamed(hosts, Of(spec.names))
      ensures apply && outcome == Done(true) ==>
                NoneNamed(hosts, Of(spec.names)) && Without(old(hosts), hosts, Of(spec.names))
    {
      hide Of, Sorted, Matching;
      var found := Matching(hosts, Of(spec.names));
      MatchingIs(hosts, Of(spec.names));
      if |found| > 1 {
        return Failed(Duplicate);
      }
      if found == [] {
        return Done(false);
      }
      var at := found[0];
      assert at in found;
      if hosts[at].id == None {
        return Failed(WithoutId);
      }
      if apply {
        var ok := !fails(writes);
        writes := writes + 1;
        if !ok {
          return Failed(WriteFailed);
        }
        NoneLeft(hosts, at, Of(spec.names));
        hosts := hosts[..at] + hosts[at + 1..];
      }
      return Done(true);
    }
  }

  /** What a delete comes to, from what NPM holds: there is nothing to remove
      exactly when no host has the names. */
  function Removal(hosts: seq<Host>, spec: Spec): (outcome: Outcome)
    ensures outcome == Done(false) <==> forall i :: 0 <= i < |hosts| ==> Of(hosts[i].names) != Of(spec.names)
    ensures outcome == Failed(Duplicate) <==>
              exists i, j :: 0 <= i < j < |hosts| && Of(hosts[i].names) == Of(hosts[j].names) == Of(spec.names)
  {
    MatchingTwice(hosts, Of(spec.names));
    hide Of, Matching;
    var found := Matching(hosts, Of(spec.names));
    if |found| > 1 then Failed(Duplicate)
    else if found == [] then Done(false)
    else if hosts[found[0]].id == None then Failed(WithoutId)
    else Done(true)
  }

  ghost predicate NoneNamed(hosts: seq<Host>, names: Domains)
  {
    forall i :: 0 <= i < |hosts| ==> Of(hosts[i].names) != names
  }

  /** One host of these names gone, and no other touched. */
  ghost predicate Without(before: seq<Host>, after: seq<Host>, names: Domains)
  {
    exists at :: 0 <= at < |before| && Of(before[at].names) == names && after == before[..at] + before[at + 1..]
  }

  /** What a reconcile comes to, from what NPM holds. */
  function Verdict(hosts: seq<Host>, spec: Spec, observed: seq<string>): Outcome
  {
    AboutIsThere(hosts, spec, observed);
    var found := About(hosts, spec, observed);
    if |found| > 1 then Failed(Duplicate)
    else if |found| == 1 then
      assert found[0] in found;
      var current := hosts[found[0]];
      if current.id == None then Failed(WithoutId)
      else if spec.settings.forceSSL && current.certificate == 0 then Failed(NeedsCertificate)
      else Done(!IsAs(current, spec))
    else if spec.settings.forceSSL && spec.certificate == 0 then Failed(NeedsIssued)
    else Done(true)
  }

  /** What an applied change does: the one host the spec is about is as it
      declares, with its certificate kept when the spec has none and NPM's own
      parts kept; or a new one is. Every other host is as it was. */
  ghost predicate Takes(before: seq<Host>, after: seq<Host>, spec: Spec, observed: seq<string>)
  {
    var found := About(before, spec, observed);
    if found == [] then
      |after| == |before| + 1 && after[..|before|] == before && IsAs(after[|before|], spec)
    else
      && |found| == 1 && found[0] < |before| == |after| && IsAs(after[found[0]], spec)
      && after[found[0]].id == before[found[0]].id
      && (spec.certificate == 0 ==> after[found[0]].certificate == before[found[0]].certificate)
      && (before[found[0]].locations.text != "" ==> after[found[0]].locations == before[found[0]].locations)
      && (before[found[0]].meta.text != "" ==> after[found[0]].meta == before[found[0]].meta)
      && forall i :: 0 <= i < |before| && i != found[0] ==> after[i] == before[i]
  }

  /** Exactly one host has the spec's names, and it is as the spec declares. */
  ghost predicate Sole(hosts: seq<Host>, spec: Spec)
  {
    exists at :: 0 <= at < |hosts| && IsAs(hosts[at], spec)
      && forall i :: 0 <= i < |hosts| && i != at ==> Of(hosts[i].names) != Of(spec.names)
  }

  lemma OneFound(found: seq<nat>, at: nat)
    requires at in found && Rises(found) && forall i :: i in found ==> i == at
    ensures found == [at]
  {
    assert |found| >= 1;
    assert found[0] in found && found[|found| - 1] in found;
  }

  lemma TakenIsAs(before: seq<Host>, after: seq<Host>, spec: Spec, observed: seq<string>)
    requires Takes(before, after, spec, observed)
    ensures Sole(after, spec)
  {
    AboutIsThere(before, spec, observed);
    hide Of, Sorted, About, Matching;
    var found := About(before, spec, observed);
    var at := if found == [] then |before| else found[0];
    forall i | 0 <= i < |after| && i != at
      ensures Of(after[i].names) != Of(spec.names)
    {
      assert found == [] ==> after[i] == after[..|before|][i];
      assert after[i] == before[i];
    }
  }

  lemma CurrentIsAs(hosts: seq<Host>, spec: Spec, observed: seq<string>)
    requires Verdict(hosts, spec, observed) == Done(false)
    ensures Sole(hosts, spec)
  {
    AboutIsThere(hosts, spec, observed);
    hide Of, Sorted, About, Matching;
    var found := About(hosts, spec, observed);
    assert found[0] in found && IsAs(hosts[found[0]], spec);
  }

  lemma SoleIsCurrent(hosts: seq<Host>, spec: Spec, observed: seq<string>)
    requires Sole(hosts, spec)
    ensures Verdict(hosts, spec, observed) == Done(false)
  {
    hide Of, Sorted;
    var at :| 0 <= at < |hosts| && IsAs(hosts[at], spec)
      && forall i :: 0 <= i < |hosts| && i != at ==> Of(hosts[i].names) != Of(spec.names);
    var own := Matching(hosts, Of(spec.names));
    MatchingIs(hosts, Of(spec.names));
    assert at in own;
    hide Matching, Rises;
    OneFound(own, at);
  }

  lemma NoneLeft(hosts: seq<Host>, at: nat, names: Domains)
    requires Matching(hosts, names) == [at]
    ensures at < |hosts| && NoneNamed(hosts[..at] + hosts[at + 1..], names)
  {
    hide Of, Sorted;
    MatchingIs(hosts, names);
    assert at in Matching(hosts, names);
    var rest := hosts[..at] + hosts[at + 1..];
    hide Matching;
    forall i | 0 <= i < |rest|
      ensures Of(rest[i].names) != names
    {
      var was := if i < at then i else i + 1;
      assert rest[i] == hosts[was];
      assert was !in Matching(hosts, names);
    }
  }
}
