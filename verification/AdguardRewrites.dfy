/** DNS rewrites in AdGuard Home, made to match their declarations, against a
    server that stores what it is sent. */
module AdguardRewrites {
  import opened Basics

  datatype Domain = Domain(name: string)
  datatype Answer = Answer(text: string)

  // What a domain that is not set reads as.
  const UNSET := Domain("")

  datatype Pair = Pair(domain: Domain, answer: Answer)

  /** A rewrite, and its switch: not said, it is on. */
  datatype Entry = Entry(pair: Pair, enabled: Option<bool>)

  predicate Enabled(entry: Entry)
  {
    entry.enabled != Some(false)
  }

  /** The rewrites of a domain, in the list's order. */
  function Matching(entries: seq<Entry>, domain: Domain): seq<Entry>
  {
    if entries == [] then []
    else
      var last := |entries| - 1;
      Matching(entries[..last], domain) + if entries[last].pair.domain == domain then [entries[last]] else []
  }

  /** The rewrites a declaration is about: its domain's, or those of the one it
      was observed under when its own has none. */
  function About(entries: seq<Entry>, spec: Pair, observed: Domain): seq<Entry>
  {
    var found := Matching(entries, spec.domain);
    if found == [] && observed != UNSET && observed != spec.domain then Matching(entries, observed) else found
  }

  /** The domain's own rewrites whenever it has any, and otherwise those of the
      domain it was observed under, where that is set. */
  lemma AboutIs(entries: seq<Entry>, spec: Pair, observed: Domain)
    ensures (exists i :: 0 <= i < |entries| && entries[i].pair.domain == spec.domain) ==>
              forall entry :: entry in About(entries, spec, observed) <==> entry in entries && entry.pair.domain == spec.domain
    ensures (forall i :: 0 <= i < |entries| ==> entries[i].pair.domain != spec.domain) ==>
              forall entry :: entry in About(entries, spec, observed) <==>
                entry in entries && observed != Domain("") && entry.pair.domain == observed
  {
    MatchingIs(entries, spec.domain);
    MatchingIs(entries, observed);
    hide Matching;
    if i :| 0 <= i < |entries| && entries[i].pair.domain == spec.domain {
      assert entries[i] in Matching(entries, spec.domain);
    } else {
      NoneMatches(entries, spec.domain);
    }
  }

  datatype Outcome = Duplicate | WriteFailed | Done(changed: bool, enabled: bool)

  function Verdict(entries: seq<Entry>, spec: Pair, observed: Domain): Outcome
  {
    var found := About(entries, spec, observed);
    if |found| > 1 then Duplicate
    else if |found| == 1 then Done(found[0].pair != spec, Enabled(found[0]))
    else Done(true, true)
  }

  /** The server's update: the entry of a pair gets another, its switch alone. */
  function Updated(entries: seq<Entry>, target: Pair, pair: Pair): (updated: seq<Entry>)
    ensures |updated| == |entries|
    ensures forall i :: 0 <= i < |entries| ==>
              updated[i] == if entries[i].pair == target then entries[i].(pair := pair) else entries[i]
  {
    seq(|entries|, i requires 0 <= i < |entries| => if entries[i].pair == target then entries[i].(pair := pair) else entries[i])
  }

  /** The server's delete: every entry of a pair gone, the rest in order. */
  function Without(entries: seq<Entry>, pair: Pair): seq<Entry>
  {
    if entries == [] then []
    else (if entries[0].pair == pair then [] else [entries[0]]) + Without(entries[1..], pair)
  }

  function Elsewhere(entries: seq<Entry>, domain: Domain): seq<Entry>
  {
    if entries == [] then []
    else (if entries[0].pair.domain == domain then [] else [entries[0]]) + Elsewhere(entries[1..], domain)
  }

  lemma {:induction false} MatchingIs(entries: seq<Entry>, domain: Domain)
    ensures forall entry :: entry in Matching(entries, domain) <==> entry in entries && entry.pair.domain == domain
  {
    if entries != [] {
      var last := |entries| - 1;
      MatchingIs(entries[..last], domain);
      assert entries == entries[..last] + [entries[last]];
    }
  }

  lemma {:induction false} OneMatches(entries: seq<Entry>, domain: Domain, at: nat)
    requires at < |entries| && entries[at].pair.domain == domain
    requires forall i :: 0 <= i < |entries| && i != at ==> entries[i].pair.domain != domain
    ensures Matching(entries, domain) == [entries[at]]
  {
    var last := |entries| - 1;
    if at < last {
      OneMatches(entries[..last], domain, at);
    } else {
      NoneMatches(entries[..last], domain);
    }
  }

  lemma {:induction false} NoneMatches(entries: seq<Entry>, domain: Domain)
    requires forall i :: 0 <= i < |entries| ==> entries[i].pair.domain != domain
    ensures Matching(entries, domain) == []
  {
    if entries != [] {
      NoneMatches(entries[..|entries| - 1], domain);
    }
  }

  /** One rewrite of a domain is one entry of the list. */
  lemma {:induction false} WhereItIs(entries: seq<Entry>, domain: Domain) returns (at: nat)
    requires |Matching(entries, domain)| == 1
    ensures at < |entries| && entries[at] == Matching(entries, domain)[0] && entries[at].pair.domain == domain
    ensures forall i :: 0 <= i < |entries| && i != at ==> entries[i].pair.domain != domain
  {
    var last := |entries| - 1;
    if entries[last].pair.domain == domain {
      at := last;
      var before := Matching(entries[..last], domain);
      assert before == [];
      forall i | 0 <= i < last
        ensures entries[i].pair.domain != domain
      {
        MatchingIs(entries[..last], domain);
        assert entries[i] in entries[..last];
        assert entries[i] !in before;
      }
    } else {
      at := WhereItIs(entries[..last], domain);
      assert forall i :: 0 <= i < last ==> entries[..last][i] == entries[i];
    }
  }

  class Adguard {
    var entries: seq<Entry>
    var writes: nat
    const fails: nat -> bool

    constructor (entries: seq<Entry>, fails: nat -> bool)
      ensures this.entries == entries && this.fails == fails && writes == 0
    {
      this.entries, this.fails, writes := entries, fails, 0;
    }

    ghost predicate NoneFails(first: nat, count: nat)
    {
      forall n :: first <= n < first + count ==> !fails(n)
    }

    method Write(after: seq<Entry>) returns (ok: bool)
      modifies this
      ensures writes == old(writes) + 1 && ok == !fails(old(writes)) && entries == if ok then after else old(entries)
    {
      ok := !fails(writes);
      writes := writes + 1;
      if ok {
        entries := after;
      }
    }

    /** Makes one rewrite match its declaration. With `apply` off it says the
        same and writes nothing. */
    method Reconcile(spec: Pair, observed: Domain, apply: bool) returns (outcome: Outcome)
      modifies this
      ensures outcome == Verdict(old(entries), spec, observed)
              || (apply && outcome == WriteFailed && fails(old(writes))
                  && Verdict(old(entries), spec, observed).Done? && Verdict(old(entries), spec, observed).changed)
      ensures !(apply && outcome.Done? && outcome.changed) ==> entries == old(entries)
      ensures !apply || outcome.Duplicate? || (outcome.Done? && !outcome.changed) ==> writes == old(writes)
      ensures apply && outcome.Done? && outcome.changed ==> Takes(old(entries), entries, spec, observed)
    {
      var found := About(entries, spec, observed);
      if |found| > 1 {
        return Duplicate;
      }
      var live := if |found| == 1 then found[0] else Entry(Pair(UNSET, Answer("")), None);
      var changed := found == [] || live.pair != spec;
      if changed && apply {
        ghost var before := entries;
        var ok;
        if |found| == 1 {
          UpdateTakes(entries, spec, observed);
          ok := Write(Updated(entries, live.pair, spec));
        } else {
          ok := Write(entries + [Entry(spec, None)]);
          assert entries == before + [Entry(spec, None)] || !ok;
        }
        if !ok {
          return WriteFailed;
        }
      }
      return Done(changed, Enabled(live));
    }

    /** One applied reconcile and then another, planned or applied, with the
        same declaration: the second changes nothing. */
    method Settles(spec: Pair, observed: Domain, again: Domain, apply: bool) returns (first: Outcome, second: Outcome)
      modifies this
      ensures first.Done? ==> second == Done(false, first.enabled)
      ensures first.Done? && first.changed ==> Takes(old(entries), entries, spec, observed)
    {
      first := Reconcile(spec, observed, true);
      if first.Done? {
        if first.changed {
          TakenIsCurrent(old(entries), entries, spec, observed, again);
        } else {
          CurrentStays(entries, spec, observed, again);
        }
      }
      second := Reconcile(spec, again, apply);
    }

    /** Removes every rewrite of a domain, one request each. */
    method Delete(domain: Domain, apply: bool) returns (outcome: Outcome)
      modifies this
      ensures !apply || outcome == Done(false, true) ==> entries == old(entries)
      ensures outcome == Done(false, true) ==> Matching(entries, domain) == []
      ensures apply && outcome.Done? ==> entries == Elsewhere(old(entries), domain)
      // One request for each rewrite there is, until one fails.
      ensures !apply ==> writes == old(writes)
      ensures outcome == if !apply || NoneFails(old(writes), |Matching(old(entries), domain)|)
                         then Done(Matching(old(entries), domain) != [], true) else WriteFailed
      ensures Elsewhere(entries, domain) == Elsewhere(old(entries), domain)
    {
      var found := Matching(entries, domain);
      if found == [] {
        ElsewhereIsAll(entries, domain);
        return Done(false, true);
      }
      if apply {
        AllLeft(entries, domain);
        hide LeftFrom, Elsewhere, Without, Matching;
        for i := 0 to |found|
          invariant Elsewhere(entries, domain) == Elsewhere(old(entries), domain)
          invariant LeftFrom(entries, domain, found, i)
          invariant writes == old(writes) + i && NoneFails(old(writes), i)
        {
          OneFewer(old(entries), entries, domain, found, i);
          var ok := Write(Without(entries, found[i].pair));
          if !ok {
            return WriteFailed;
          }
        }
        NoneLeft(entries, domain, found);
      }
      return Done(true, true);
    }
  }

  /** Every rewrite of the domain that is still there is one found from `i` on. */
  ghost predicate LeftFrom(entries: seq<Entry>, domain: Domain, found: seq<Entry>, i: nat)
  {
    forall entry :: entry in entries && entry.pair.domain == domain ==> exists j :: i <= j < |found| && found[j].pair == entry.pair
  }

  lemma AllLeft(entries: seq<Entry>, domain: Domain)
    ensures LeftFrom(entries, domain, Matching(entries, domain), 0)
  {
    MatchingIs(entries, domain);
    var found := Matching(entries, domain);
    hide Matching;
    forall entry | entry in entries && entry.pair.domain == domain
      ensures exists j :: 0 <= j < |found| && found[j].pair == entry.pair
    {
      assert entry in found;
    }
  }

  lemma OneFewer(before: seq<Entry>, entries: seq<Entry>, domain: Domain, found: seq<Entry>, i: nat)
    requires found == Matching(before, domain) && i < |found| && LeftFrom(entries, domain, found, i)
    ensures LeftFrom(Without(entries, found[i].pair), domain, found, i + 1)
    ensures Elsewhere(Without(entries, found[i].pair), domain) == Elsewhere(entries, domain)
  {
    MatchingIs(before, domain);
    assert found[i] in found;
    WithoutIs(entries, found[i].pair);
    WithoutStaysElsewhere(entries, found[i].pair);
  }

  lemma NoneLeft(entries: seq<Entry>, domain: Domain, found: seq<Entry>)
    requires LeftFrom(entries, domain, found, |found|)
    ensures Elsewhere(entries, domain) == entries
  {
    NoneIsElsewhere(entries, domain);
  }

  /** What an applied change does: the one rewrite the declaration is about
      becomes it, its switch left alone, or a new one is added; every other is
      as it was. */
  ghost predicate Takes(before: seq<Entry>, after: seq<Entry>, spec: Pair, observed: Domain)
  {
    var found := About(before, spec, observed);
    if found == [] then after == before + [Entry(spec, None)]
    else
      |found| == 1 && |after| == |before|
      && exists at :: 0 <= at < |before| && before[at] == found[0] && after == before[at := before[at].(pair := spec)]
  }

  lemma UpdateTakes(entries: seq<Entry>, spec: Pair, observed: Domain)
    requires |About(entries, spec, observed)| == 1
    ensures Takes(entries, Updated(entries, About(entries, spec, observed)[0].pair, spec), spec, observed)
  {
    var live := About(entries, spec, observed)[0];
    var at := WhereItIs(entries, if Matching(entries, spec.domain) == [] then observed else spec.domain);
    assert Updated(entries, live.pair, spec) == entries[at := entries[at].(pair := spec)];
  }

  lemma TakenIsCurrent(before: seq<Entry>, after: seq<Entry>, spec: Pair, observed: Domain, again: Domain)
    requires Takes(before, after, spec, observed)
    ensures Verdict(after, spec, again) == Done(false, Verdict(before, spec, observed).enabled)
  {
    var found := About(before, spec, observed);
    var own := Matching(before, spec.domain);
    MatchingIs(before, spec.domain);
    if found == [] {
      forall i | 0 <= i < |before|
        ensures after[i].pair.domain != spec.domain
      {
        assert before[i] in before && before[i] !in own;
      }
      OneMatches(after, spec.domain, |before|);
    } else {
      var at :| 0 <= at < |before| && before[at] == found[0] && after == before[at := before[at].(pair := spec)];
      forall i | 0 <= i < |after| && i != at
        ensures after[i].pair.domain != spec.domain
      {
        if own == [] {
          assert before[i] in before && before[i] !in own;
        } else {
          var there := WhereItIs(before, spec.domain);
        }
      }
      OneMatches(after, spec.domain, at);
    }
  }

  lemma CurrentStays(entries: seq<Entry>, spec: Pair, observed: Domain, again: Domain)
    requires Verdict(entries, spec, observed).Done? && !Verdict(entries, spec, observed).changed
    ensures Verdict(entries, spec, again) == Verdict(entries, spec, observed)
  {
    var found := About(entries, spec, observed);
    MatchingIs(entries, spec.domain);
    MatchingIs(entries, observed);
    assert found[0] in found;
  }

  lemma {:induction false} ElsewhereIsAll(entries: seq<Entry>, domain: Domain)
    requires Matching(entries, domain) == []
    ensures Elsewhere(entries, domain) == entries
  {
    MatchingIs(entries, domain);
    forall entry | entry in entries
      ensures entry.pair.domain != domain
    {
      assert entry !in Matching(entries, domain);
    }
    NoneIsElsewhere(entries, domain);
  }

  lemma {:induction false} NoneIsElsewhere(entries: seq<Entry>, domain: Domain)
    requires forall entry :: entry in entries ==> entry.pair.domain != domain
    ensures Elsewhere(entries, domain) == entries
  {
    if entries != [] {
      NoneIsElsewhere(entries[1..], domain);
    }
  }

  lemma {:induction false} WithoutIs(entries: seq<Entry>, pair: Pair)
    ensures forall entry :: entry in Without(entries, pair) <==> entry in entries && entry.pair != pair
  {
    if entries != [] {
      WithoutIs(entries[1..], pair);
      assert entries == [entries[0]] + entries[1..];
    }
  }

  lemma {:induction false} WithoutStaysElsewhere(entries: seq<Entry>, pair: Pair)
    ensures Elsewhere(Without(entries, pair), pair.domain) == Elsewhere(entries, pair.domain)
  {
    if entries != [] {
      WithoutStaysElsewhere(entries[1..], pair);
      var rest := Without(entries[1..], pair);
      assert ([entries[0]] + rest)[1..] == rest;
      assert [] + rest == rest;
    }
  }
}
