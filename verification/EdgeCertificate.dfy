/** The edge's receiver: a certificate and its key, or the routes HQ declares,
    put in files Caddy reads, with the previous ones put back when the reload
    fails. Each write and each command does what it is for, or fails. */
module EdgeCertificate {
  import opened Basics

  datatype Bytes = Bytes(text: string)
  type Time = int

  // ----------------------------------------------------------------- bundles

  datatype FileName = Fullchain | PrivateKey | Unexpected(text: string)

  /** What a tar reader comes to next: a file with its data, if it can be read;
      something that is no regular file; or an archive that does not go on. */
  datatype Entry = File(name: FileName, data: Option<Bytes>) | Irregular(name: FileName) | Broken

  datatype Refusal = Invalid | Stray | Incomplete

  datatype Reading = Read(chain: Bytes, key: Bytes) | Refused(why: Refusal)

  /** What a deploy sends: two files, the chain first. */
  function Bundle(chain: Bytes, key: Bytes): seq<Entry>
  {
    [File(Fullchain, Some(chain)), File(PrivateKey, Some(key))]
  }

  /** The two files and no other entry, whichever comes first. */
  predicate Holds(entries: seq<Entry>, chain: Bytes, key: Bytes)
  {
    entries == Bundle(chain, key) || entries == [Bundle(chain, key)[1], Bundle(chain, key)[0]]
  }

  /** Both names, each once and nothing unread, but not both regular files. */
  predicate HalfHolds(entries: seq<Entry>)
  {
    && |entries| == 2
    && (forall i :: 0 <= i < 2 ==> !entries[i].Broken? && !entries[i].name.Unexpected? && (entries[i].File? ==> entries[i].data.Some?))
    && entries[0].name != entries[1].name
    && (entries[0].Irregular? || entries[1].Irregular?)
  }

  method ReadBundle(payload: seq<Entry>) returns (reading: Reading)
    ensures reading.Read? ==> Holds(payload, reading.chain, reading.key)
    ensures reading.Refused? ==> forall chain, key :: !Holds(payload, chain, key)
    ensures reading == Refused(Incomplete) <==> HalfHolds(payload)
    ensures payload == [] ==> reading == Refused(Invalid)
  {
    var files: map<FileName, Option<Bytes>> := map[];
    var irregular := false;
    for i := 0 to |payload|
      invariant forall j :: 0 <= j < i ==> !payload[j].Broken? && !payload[j].name.Unexpected? && (payload[j].File? ==> payload[j].data.Some?)
      invariant forall j, k :: 0 <= j < k < i ==> payload[j].name != payload[k].name
      invariant forall name :: name in files <==> exists j :: 0 <= j < i && payload[j].name == name
      invariant forall j :: 0 <= j < i && payload[j].File? ==> files[payload[j].name] == payload[j].data
      invariant irregular <==> exists j :: 0 <= j < i && payload[j].Irregular?
    {
      var entry := payload[i];
      if entry.Broken? {
        return Refused(Invalid);
      }
      if entry.name.Unexpected? || entry.name in files {
        return Refused(Stray);
      }
      if entry.Irregular? {
        files := files[entry.name := None];
        irregular := true;
        continue;
      }
      if entry.data == None {
        return Refused(Invalid);
      }
      files := files[entry.name := entry.data];
    }
    if payload == [] {
      return Refused(Invalid);
    }
    if |payload| != 2 {
      return Refused(Stray);
    }
    if irregular {
      return Refused(Incomplete);
    }
    assert payload[0].name in files && payload[1].name in files;
    return Read(files[Fullchain].value, files[PrivateKey].value);
  }

  /** A bundle says one chain and one key. */
  lemma HoldsOne(entries: seq<Entry>, chain: Bytes, key: Bytes, otherChain: Bytes, otherKey: Bytes)
    requires Holds(entries, chain, key) && Holds(entries, otherChain, otherKey)
    ensures chain == otherChain && key == otherKey
  {
    var bundle, other := Bundle(chain, key), Bundle(otherChain, otherKey);
    assert entries[0].name == Fullchain ==> entries == bundle && entries == other;
    assert entries[0].name == PrivateKey ==> entries == [bundle[1], bundle[0]] && entries == [other[1], other[0]];
    assert bundle[0] == File(Fullchain, Some(chain)) && other[0] == File(Fullchain, Some(otherChain));
  }

  /** The round trip: what is bundled is read as what it was made of. */
  method Rebundled(chain: Bytes, key: Bytes) returns (reading: Reading)
    ensures reading == Read(chain, key)
  {
    reading := ReadBundle(Bundle(chain, key));
    assert Holds(Bundle(chain, key), chain, key);
    HoldsOne(Bundle(chain, key), chain, key, reading.chain, reading.key);
  }

  // ------------------------------------------------------------------- pairs

  /** What a chain and a key are to each other: the leaf's key, until its
      certificate expires, or a pair that is refused. */
  datatype Pairing = Leaf(expires: Time) | Mismatched | Unreadable

  /** The pair on disk. */
  datatype Pair = Pair(chain: Option<Bytes>, key: Option<Bytes>)

  /** A pair Caddy may be told to load. */
  predicate Matched(pairing: (Bytes, Bytes) -> Pairing, pair: Pair)
  {
    pair.chain.Some? && pair.key.Some? && pairing(pair.chain.value, pair.key.value).Leaf?
  }

  /** What the receiver does, one thing after another, and how each went. */
  datatype Step =
    | ReadChain | ReadKey | PutChain(data: Bytes) | PutKey(data: Bytes)
    | CopyIn | Validate | ReadRoutes | PutRoutes(data: Bytes)
    | Told

  datatype Did = Did(step: Step, ok: bool)

  /** The steps in order, up to the first that fails. */
  ghost predicate Tries(steps: seq<Step>, did: seq<Did>)
  {
    && |did| <= |steps|
    && (forall i :: 0 <= i < |did| ==> did[i].step == steps[i])
    && (forall i :: 0 <= i < |did| - 1 ==> did[i].ok)
    && (|did| < |steps| ==> did != [] && !did[|did| - 1].ok)
  }

  /** All of them done. */
  ghost predicate Done(steps: seq<Step>, did: seq<Did>)
  {
    |did| == |steps| && forall i :: 0 <= i < |did| ==> did[i] == Did(steps[i], true)
  }

  /** It came to nothing with this step. */
  predicate FailedAt(did: seq<Did>, step: Step)
  {
    did != [] && did[|did| - 1] == Did(step, false)
  }

  /** A file could not be put. */
  ghost predicate PutFailed(did: seq<Did>)
  {
    exists one :: one in did && !one.ok && one.step != Told
  }

  /** What is done to put a pair back: a key that could not be put has its
      chain put back; a reload that failed has both, and Caddy told of them. */
  ghost predicate PutsBack(were: Pair, did: seq<Did>, back: seq<Did>)
  {
    if did == [] || did[|did| - 1].ok || were.chain == None || were.key == None then back == []
    else match did[|did| - 1].step
         case PutKey(_) => Tries([PutChain(were.chain.value)], back)
         case Told => Tries([PutChain(were.chain.value), PutKey(were.key.value), Told], back)
         case _ => back == []
  }

  lemma Nothing()
    ensures Done([], []) && !PutFailed([])
  {
  }

  /** One more step after all before it are done. */
  lemma OneMore(steps: seq<Step>, did: seq<Did>, step: Step, ok: bool, rest: seq<Step>)
    requires Done(steps, did)
    ensures Tries(steps + [step], did + [Did(step, ok)]) && (ok <==> Done(steps + [step], did + [Did(step, ok)]))
    ensures !ok ==> Tries(steps + [step] + rest, did + [Did(step, ok)]) && !Done(steps + [step] + rest, did + [Did(step, ok)])
    ensures PutFailed(did + [Did(step, ok)]) <==> !ok && step != Told
  {
    var more := did + [Did(step, ok)];
    assert forall one :: one in did ==> one.ok;
    assert more[|did|] in more;
    assert forall one :: one in more <==> one in did || one == Did(step, ok);
  }

  /** The first step. */
  lemma First(step: Step, ok: bool, rest: seq<Step>)
    ensures Tries([step], [Did(step, ok)]) && (ok <==> Done([step], [Did(step, ok)]))
    ensures !ok ==> Tries([step] + rest, [Did(step, ok)]) && !Done([step] + rest, [Did(step, ok)])
    ensures PutFailed([Did(step, ok)]) <==> !ok && step != Told
  {
    assert [Did(step, ok)][0] in [Did(step, ok)];
  }

  /** Steps that came to nothing, whatever was to follow. */
  lemma Ended(steps: seq<Step>, did: seq<Did>, rest: seq<Step>)
    requires Tries(steps, did) && !Done(steps, did)
    ensures Tries(steps + rest, did) && !Done(steps + rest, did)
  {
    var i :| 0 <= i < |did| && did[i] != Did(steps[i], true);
    assert !did[i].ok;
  }

  /** What follows steps that are all done. */
  lemma Onward(steps: seq<Step>, did: seq<Did>, more: seq<Step>, next: seq<Did>)
    requires Done(steps, did) && Tries(more, next)
    ensures Tries(steps + more, did + next)
    ensures Done(more, next) <==> Done(steps + more, did + next)
  {
    var all := did + next;
    if Done(steps + more, all) {
      forall i | 0 <= i < |next|
        ensures next[i] == Did(more[i], true)
      {
        assert next[i] == all[|did| + i] && more[i] == (steps + more)[|did| + i];
      }
    }
  }

  class Receiver {
    const pairing: (Bytes, Bytes) -> Pairing
    // Whether the nth command or write fails.
    const fails: nat -> bool

    var journal: seq<Did>
    var chain: Option<Bytes>
    var key: Option<Bytes>
    var routes: Option<Bytes>
    // What Caddy runs on, and the pair on disk each time it was told to reload.
    var served: Pair
    var reloads: seq<Pair>
    // Whether a file that was to be put back could not be.
    var putBackFailed: bool

    constructor (pairing: (Bytes, Bytes) -> Pairing, fails: nat -> bool, chain: Option<Bytes>, key: Option<Bytes>, routes: Option<Bytes>)
      ensures this.pairing == pairing && this.fails == fails && this.chain == chain && this.key == key && this.routes == routes
      ensures served == Pair(chain, key) && reloads == [] && !putBackFailed && journal == []
    {
      this.pairing, this.fails, journal := pairing, fails, [];
      this.chain, this.key, this.routes := chain, key, routes;
      served, reloads, putBackFailed := Pair(chain, key), [], false;
    }

    function OnDisk(): Pair
      reads this`chain, this`key
    {
      Pair(chain, key)
    }

    ghost predicate Faultless(from: nat, to: nat)
    {
      forall n :: from <= n < to ==> !fails(n)
    }

    /** Every reload since found a matched pair on disk. */
    ghost predicate ReloadsMatched(from: nat)
      reads this`reloads
    {
      forall i :: from <= i < |reloads| ==> Matched(pairing, reloads[i])
    }

    method Try(step: Step) returns (ok: bool)
      modifies `journal
      ensures ok == !fails(|old(journal)|) && journal == old(journal) + [Did(step, ok)]
    {
      ok := !fails(|journal|);
      journal := journal + [Did(step, ok)];
    }

    /** A write is whole or leaves the file as it was. */
    method InstallChain(data: Bytes) returns (ok: bool)
      modifies `journal, `chain
      ensures ok == !fails(|old(journal)|) && journal == old(journal) + [Did(PutChain(data), ok)]
      ensures chain == if ok then Some(data) else old(chain)
    {
      ok := Try(PutChain(data));
      if ok {
        chain := Some(data);
      }
    }

    method InstallKey(data: Bytes) returns (ok: bool)
      modifies `journal, `key
      ensures ok == !fails(|old(journal)|) && journal == old(journal) + [Did(PutKey(data), ok)]
      ensures key == if ok then Some(data) else old(key)
    {
      ok := Try(PutKey(data));
      if ok {
        key := Some(data);
      }
    }

    method InstallRoutes(data: Bytes) returns (ok: bool)
      modifies `journal, `routes
      ensures ok == !fails(|old(journal)|) && journal == old(journal) + [Did(PutRoutes(data), ok)]
      ensures routes == if ok then Some(data) else old(routes)
    {
      ok := Try(PutRoutes(data));
      if ok {
        routes := Some(data);
      }
    }

    /** Caddy takes what is on disk, or goes on with what it had. */
    method Reload() returns (ok: bool)
      modifies `journal, `served, `reloads
      ensures ok == !fails(|old(journal)|) && journal == old(journal) + [Did(Told, ok)]
      ensures reloads == old(reloads) + [OnDisk()] && served == if ok then OnDisk() else old(served)
    {
      reloads := reloads + [OnDisk()];
      ok := Try(Told);
      if ok {
        served := OnDisk();
      }
    }

    /** The pair on disk, each of the two read in turn. */
    method Installed() returns (previous: Option<(Bytes, Bytes)>, ghost did: seq<Did>)
      modifies `journal
      ensures journal == old(journal) + did && Tries([ReadChain, ReadKey], did)
      ensures did != [] && !did[|did| - 1].step.PutKey? && did[|did| - 1].step != Told
      ensures Faultless(|old(journal)|, |journal|) ==> Done([ReadChain, ReadKey], did)
      ensures previous == if Done([ReadChain, ReadKey], did) && chain.Some? && key.Some? then Some((chain.value, key.value)) else None
    {
      hide Tries, Done;
      var ok := Try(ReadChain);
      did := [Did(ReadChain, ok)];
      First(ReadChain, ok, [ReadKey]);
      assert [ReadChain] + [ReadKey] == [ReadChain, ReadKey];
      if !ok {
        assert !Faultless(|old(journal)|, |journal|);
        return None, did;
      }
      ok := Try(ReadKey);
      OneMore([ReadChain], did, ReadKey, ok, []);
      did := did + [Did(ReadKey, ok)];
      assert [ReadChain] + [ReadKey] == [ReadChain, ReadKey];
      if !ok || chain == None || key == None {
        return None, did;
      }
      previous := Some((chain.value, key.value));
    }

    /** A certificate and its key installed and Caddy reloaded, or everything
        as it was: `ok` is a clean exit. `did` is what was done for it in order,
        `back` what was done to put the previous pair back. */
    method Deploy(body: seq<Entry>, now: Time) returns (ok: bool, ghost did: seq<Did>, ghost back: seq<Did>)
      requires !putBackFailed
      modifies `journal, `chain, `key, `served, `reloads, `putBackFailed
      // What a clean exit says: the pair that was sent is on disk and served,
      // the key is the leaf's, and the leaf has not expired.
      ensures ok ==> Matched(pairing, OnDisk()) && Holds(body, chain.value, key.value)
      ensures ok ==> now < pairing(chain.value, key.value).expires && served == OnDisk() && !putBackFailed
      // What a failure says: the previous pair is on disk unless putting it
      // back failed, and Caddy runs on what it did or on that pair.
      ensures !ok && !putBackFailed ==> OnDisk() == old(OnDisk())
      ensures !ok ==> served == old(served) || served == old(OnDisk())
      // Caddy is only ever told to reload a matched pair.
      ensures old(reloads) <= reloads && (Matched(pairing, old(OnDisk())) ==> ReloadsMatched(|old(reloads)|))
      // And it succeeds when nothing fails.
      ensures Faultless(|old(journal)|, |journal|) && old(chain).Some? && old(key).Some?
              && (exists sent, secret :: Holds(body, sent, secret) && pairing(sent, secret).Leaf? && now < pairing(sent, secret).expires)
              ==> ok
      // Nothing is done for a body that is refused. Otherwise the previous
      // pair is read, the new one put and Caddy told, in order up to the first
      // that fails, and what was put is put back.
      ensures journal == old(journal) + did + back && PutsBack(old(OnDisk()), did, back) && (putBackFailed <==> PutFailed(back))
      ensures (forall sent, secret ::
                 Holds(body, sent, secret) ==> !pairing(sent, secret).Leaf? || now >= pairing(sent, secret).expires) ==> did == []
      ensures forall sent, secret ::
                Holds(body, sent, secret) && pairing(sent, secret).Leaf? && now < pairing(sent, secret).expires ==>
                  var steps := [ReadChain, ReadKey] + if old(chain).Some? && old(key).Some? then [PutChain(sent), PutKey(secret), Told] else [];
                  Tries(steps, did) && (ok <==> Done(steps, did) && old(chain).Some? && old(key).Some?)
    {
      hide Holds, Tries, Done, PutFailed;
      Nothing();
      did, back := [], [];
      var reading := ReadBundle(body);
      if reading.Refused? {
        return false, did, back;
      }
      var pair := pairing(reading.chain, reading.key);
      forall sent, secret | Holds(body, sent, secret)
        ensures sent == reading.chain && secret == reading.key
      {
        HoldsOne(body, sent, secret, reading.chain, reading.key);
      }
      if !pair.Leaf? || now >= pair.expires {
        return false, did, back;
      }
      var previous;
      previous, did := Installed();
      assert [ReadChain, ReadKey] + [] == [ReadChain, ReadKey];
      if previous == None {
        if !Done([ReadChain, ReadKey], did) {
          Ended([ReadChain, ReadKey], did, [PutChain(reading.chain), PutKey(reading.key), Told]);
        }
        return false, did, back;
      }
      ghost var put;
      ok, put, back := Replace(reading.chain, reading.key);
      Onward([ReadChain, ReadKey], did, [PutChain(reading.chain), PutKey(reading.key), Told], put);
      did := did + put;
    }

    /** A pair put in place of the one on disk, and Caddy told, or that one put back. */
    method Replace(sent: Bytes, secret: Bytes) returns (ok: bool, ghost did: seq<Did>, ghost back: seq<Did>)
      requires !putBackFailed && chain.Some? && key.Some?
      modifies `journal, `chain, `key, `served, `reloads, `putBackFailed
      ensures ok ==> OnDisk() == served == Pair(Some(sent), Some(secret)) && !putBackFailed
      ensures !ok && !putBackFailed ==> OnDisk() == old(OnDisk())
      ensures !ok ==> served == old(served) || served == old(OnDisk())
      ensures old(reloads) <= reloads
      ensures forall i :: |old(reloads)| <= i < |reloads| ==>
                reloads[i] == old(OnDisk()) || reloads[i] == Pair(Some(sent), Some(secret))
      ensures Faultless(|old(journal)|, |journal|) ==> ok
      ensures journal == old(journal) + did + back && did != [] && PutsBack(old(OnDisk()), did, back) && (putBackFailed <==> PutFailed(back))
      ensures Tries([PutChain(sent), PutKey(secret), Told], did) && (ok <==> Done([PutChain(sent), PutKey(secret), Told], did))
    {
      hide Tries, Done, PutFailed;
      Nothing();
      var previousChain, previousKey := chain.value, key.value;
      back := [];
      ok := InstallChain(sent);
      did := [Did(PutChain(sent), ok)];
      First(PutChain(sent), ok, [PutKey(secret), Told]);
      assert [PutChain(sent)] + [PutKey(secret), Told] == [PutChain(sent), PutKey(secret), Told];
      if !ok {
        assert fails(|old(journal)|);
        return;
      }
      ok := InstallKey(secret);
      OneMore([PutChain(sent)], did, PutKey(secret), ok, [Told]);
      did := did + [Did(PutKey(secret), ok)];
      assert [PutChain(sent)] + [PutKey(secret)] + [Told] == [PutChain(sent), PutKey(secret), Told];
      if !ok {
        assert fails(|old(journal)| + 1);
        var again := InstallChain(previousChain);
        putBackFailed := !again;
        back := [Did(PutChain(previousChain), again)];
        First(PutChain(previousChain), again, []);
        return;
      }
      ok := Reload();
      OneMore([PutChain(sent), PutKey(secret)], did, Told, ok, []);
      did := did + [Did(Told, ok)];
      assert [PutChain(sent), PutKey(secret)] + [Told] == [PutChain(sent), PutKey(secret), Told];
      if !ok {
        assert fails(|old(journal)| + 2);
        back := RestorePair(previousChain, previousKey);
      }
    }

    /** The previous pair put back after a failed reload, and reloaded. */
    method RestorePair(previousChain: Bytes, previousKey: Bytes) returns (ghost back: seq<Did>)
      modifies `journal, `chain, `key, `served, `reloads, `putBackFailed
      ensures !putBackFailed ==> OnDisk() == Pair(Some(previousChain), Some(previousKey))
      ensures served == if Done([PutChain(previousChain), PutKey(previousKey), Told], back)
                        then Pair(Some(previousChain), Some(previousKey)) else old(served)
      ensures reloads == if putBackFailed then old(reloads) else old(reloads) + [Pair(Some(previousChain), Some(previousKey))]
      ensures |journal| > |old(journal)| && journal == old(journal) + back
      ensures Tries([PutChain(previousChain), PutKey(previousKey), Told], back) && (putBackFailed <==> PutFailed(back))
    {
      hide Tries, Done, PutFailed;
      var again := InstallChain(previousChain);
      back := [Did(PutChain(previousChain), again)];
      First(PutChain(previousChain), again, [PutKey(previousKey), Told]);
      assert [PutChain(previousChain)] + [PutKey(previousKey), Told] == [PutChain(previousChain), PutKey(previousKey), Told];
      if again {
        again := InstallKey(previousKey);
        OneMore([PutChain(previousChain)], back, PutKey(previousKey), again, [Told]);
        back := back + [Did(PutKey(previousKey), again)];
        assert [PutChain(previousChain)] + [PutKey(previousKey)] + [Told] == [PutChain(previousChain), PutKey(previousKey), Told];
      }
      putBackFailed := !again;
      if again {
        var reloaded := Reload();
        OneMore([PutChain(previousChain), PutKey(previousKey)], back, Told, reloaded, []);
        back := back + [Did(Told, reloaded)];
        assert [PutChain(previousChain), PutKey(previousKey)] + [Told] == [PutChain(previousChain), PutKey(previousKey), Told];
      }
    }

    /** The routes HQ declares in their own file, checked alone first and then
        reloaded, with the previous ones put back when that fails. */
    method WriteRoutes(body: Bytes) returns (ok: bool, ghost did: seq<Did>, ghost back: seq<Did>)
      requires !putBackFailed
      modifies `journal, `routes, `served, `reloads, `putBackFailed
      ensures ok ==> routes == Some(body) && body.text != "" && !putBackFailed
      ensures !ok && !putBackFailed ==> routes == old(routes) || (old(routes) == None && routes == Some(Bytes("")))
      // An absent file is put back as an empty one once Caddy was told to reload.
      ensures !ok && !putBackFailed && |reloads| > |old(reloads)| ==> (routes == old(routes) <==> old(routes).Some?)
      ensures !ok && |reloads| == |old(reloads)| ==> routes == old(routes)
      ensures OnDisk() == old(OnDisk()) && old(reloads) <= reloads
      ensures Matched(pairing, OnDisk()) ==> ReloadsMatched(|old(reloads)|)
      ensures Faultless(|old(journal)|, |journal|) && body.text != "" ==> ok
      // The file is checked alone before anything is put, and what was there
      // read. A reload that fails has that put back, and Caddy told of it.
      ensures journal == old(journal) + did + back && (body.text == "" ==> did == [])
      ensures body.text != "" ==>
                Tries([CopyIn, Validate, ReadRoutes, PutRoutes(body), Told], did)
                && (ok <==> Done([CopyIn, Validate, ReadRoutes, PutRoutes(body), Told], did))
      ensures if FailedAt(did, Told) then Tries([PutRoutes(if old(routes) == None then Bytes("") else old(routes).value), Told], back)
              else back == []
      ensures putBackFailed <==> PutFailed(back)
    {
      hide Tries, Done, PutFailed;
      Nothing();
      did, back := [], [];
      if body.text == "" {
        return false, did, back;
      }
      ok, did := CheckAlone();
      assert [CopyIn, Validate] + [ReadRoutes, PutRoutes(body), Told] == [CopyIn, Validate, ReadRoutes, PutRoutes(body), Told];
      if !ok {
        Ended([CopyIn, Validate], did, [ReadRoutes, PutRoutes(body), Told]);
        return;
      }
      ghost var put;
      ok, put, back := ReplaceRoutes(body);
      Onward([CopyIn, Validate], did, [ReadRoutes, PutRoutes(body), Told], put);
      did := did + put;
    }

    /** The candidate is copied into the container and validated there. */
    method CheckAlone() returns (ok: bool, ghost did: seq<Did>)
      modifies `journal
      ensures journal == old(journal) + did && did != [] && Tries([CopyIn, Validate], did) && (ok <==> Done([CopyIn, Validate], did))
      ensures Faultless(|old(journal)|, |journal|) ==> ok
      ensures !FailedAt(did, Told)
    {
      hide Tries, Done;
      ok := Try(CopyIn);
      did := [Did(CopyIn, ok)];
      First(CopyIn, ok, [Validate]);
      assert [CopyIn] + [Validate] == [CopyIn, Validate];
      assert ok || fails(|old(journal)|);
      if ok {
        ok := Try(Validate);
        OneMore([CopyIn], did, Validate, ok, []);
        did := did + [Did(Validate, ok)];
        assert [CopyIn] + [Validate] == [CopyIn, Validate];
        assert ok || fails(|old(journal)| + 1);
      }
    }

    /** The routes put in place of those there, and Caddy told, or those put back. */
    method ReplaceRoutes(body: Bytes) returns (ok: bool, ghost did: seq<Did>, ghost back: seq<Did>)
      requires !putBackFailed
      modifies `journal, `routes, `served, `reloads, `putBackFailed
      ensures ok ==> routes == Some(body) && !putBackFailed
      ensures !ok && !putBackFailed ==>
                routes == if |reloads| == |old(reloads)| || old(routes).Some? then old(routes) else Some(Bytes(""))
      ensures !ok && |reloads| == |old(reloads)| ==> routes == old(routes)
      ensures old(reloads) <= reloads && forall i :: |old(reloads)| <= i < |reloads| ==> reloads[i] == OnDisk()
      ensures Faultless(|old(journal)|, |journal|) ==> ok
      ensures journal == old(journal) + did + back && did != []
      ensures Tries([ReadRoutes, PutRoutes(body), Told], did) && (ok <==> Done([ReadRoutes, PutRoutes(body), Told], did))
      ensures if FailedAt(did, Told) then Tries([PutRoutes(if old(routes) == None then Bytes("") else old(routes).value), Told], back)
              else back == []
      ensures putBackFailed <==> PutFailed(back)
    {
      hide Tries, Done, PutFailed;
      Nothing();
      back := [];
      // What was there; a file that cannot be read, though there, ends it.
      ok := Try(ReadRoutes);
      did := [Did(ReadRoutes, ok)];
      First(ReadRoutes, ok, [PutRoutes(body), Told]);
      assert [ReadRoutes] + [PutRoutes(body), Told] == [ReadRoutes, PutRoutes(body), Told];
      assert ok || fails(|old(journal)|);
      if !ok {
        return;
      }
      var previous := if routes == None then Bytes("") else routes.value;
      ok := InstallRoutes(body);
      OneMore([ReadRoutes], did, PutRoutes(body), ok, [Told]);
      did := did + [Did(PutRoutes(body), ok)];
      assert [ReadRoutes] + [PutRoutes(body)] + [Told] == [ReadRoutes, PutRoutes(body), Told];
      assert ok || fails(|old(journal)| + 1);
      if !ok {
        return;
      }
      ok := Reload();
      OneMore([ReadRoutes, PutRoutes(body)], did, Told, ok, []);
      did := did + [Did(Told, ok)];
      assert [ReadRoutes, PutRoutes(body)] + [Told] == [ReadRoutes, PutRoutes(body), Told];
      assert ok || fails(|old(journal)| + 2);
      if !ok {
        back := RestoreRoutes(previous);
      }
    }

    /** The previous routes put back after a failed reload, and reloaded. */
    method RestoreRoutes(previous: Bytes) returns (ghost back: seq<Did>)
      modifies `journal, `routes, `served, `reloads, `putBackFailed
      ensures routes == if putBackFailed then old(routes) else Some(previous)
      ensures reloads == if putBackFailed then old(reloads) else old(reloads) + [OnDisk()]
      ensures |journal| > |old(journal)| && journal == old(journal) + back
      ensures Tries([PutRoutes(previous), Told], back) && (putBackFailed <==> PutFailed(back))
    {
      hide Tries, Done, PutFailed;
      var again := InstallRoutes(previous);
      putBackFailed := !again;
      back := [Did(PutRoutes(previous), again)];
      First(PutRoutes(previous), again, [Told]);
      assert [PutRoutes(previous)] + [Told] == [PutRoutes(previous), Told];
      if again {
        var reloaded := Reload();
        OneMore([PutRoutes(previous)], back, Told, reloaded, []);
        back := back + [Did(Told, reloaded)];
        assert [PutRoutes(previous)] + [Told] == [PutRoutes(previous), Told];
      }
    }
  }
}
