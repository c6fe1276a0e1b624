/** Root's side of a pass: the hand-offs the pass left, taken as untrusted, and
    the tokens in them put where root's own grants say and nowhere else. */
module HandoffTaking {
  import opened Basics
  import opened Texts
  import opened Handoffs
  import opened Grants
  import opened FoldedOrder

  /** A file of the out directory: a grant's own hand-off, by its name, or any other. */
  datatype EntryName = For(grant: string) | Stray(text: string)

  /** What is found under a name: a file with so many names of its own and so
      many bytes, holding a value if they are one, or something that is no file. */
  datatype Entry = Regular(data: Option<Json>, links: nat, size: nat) | Irregular

  /** What root writes: a token alone, or a hand-off as it encodes it. */
  datatype Content = TokenAlone(token: string) | Spooled(data: Json)

  const HANDOFF_LIMIT := 65536

  /** What untrusted bytes are read as: a link, a file of two names or one too
      large is not read at all. */
  function Untrusted(entry: Entry): Option<Json>
  {
    if entry.Regular? && entry.links == 1 && entry.size <= HANDOFF_LIMIT then entry.data else None
  }

  /** An entry is a hand-off its grant takes, at this time. */
  ghost predicate Delivers(clock: Clock, grant: Grant, entry: Entry, now: Time, handoff: Handoff)
  {
    && Untrusted(entry).Some? && Says(clock, Untrusted(entry).value, handoff)
    && IsSound(handoff) && Fresh(handoff, now) && Admits(grant, handoff)
  }

  /** What root puts at the grant's path for a hand-off it takes. */
  function Placing(clock: Clock, grant: Grant, handoff: Handoff): Content
    requires handoff.runs != []
  {
    if grant.planned then Spooled(Encode(clock, handoff)) else TokenAlone(handoff.runs[0].token)
  }

  type Out = map<EntryName, Entry>
  type Files = map<FilePath, Content>

  /** The file is what it was. */
  predicate SameAt(path: FilePath, before: Files, after: Files)
  {
    if path in before then path in after && after[path] == before[path] else path !in after
  }

  /** An entry's hand-off is at its grant's path, if the grant takes it and it
      can be written, and otherwise the path is as it was. */
  ghost predicate Placed(clock: Clock, grant: Grant, entry: Entry, now: Time, fails: FilePath -> bool, before: Files, after: Files)
  {
    && (forall handoff :: Delivers(clock, grant, entry, now, handoff) && !fails(grant.path) ==>
          grant.path in after && after[grant.path] == Placing(clock, grant, handoff))
    && ((fails(grant.path) || forall handoff :: !Delivers(clock, grant, entry, now, handoff)) ==> SameAt(grant.path, before, after))
  }

  /** What taking these entries comes to: each grant's own entry placed, and no
      other file touched. */
  ghost predicate Taken(clock: Clock, grants: seq<Grant>, out: Out, entries: set<EntryName>, now: Time, fails: FilePath -> bool,
                        before: Files, after: Files)
  {
    && (forall i :: 0 <= i < |grants| && For(grants[i].name) in out && For(grants[i].name) in entries ==>
          Placed(clock, grants[i], out[For(grants[i].name)], now, fails, before, after))
    && (forall path :: (forall i :: 0 <= i < |grants| && For(grants[i].name) in out && For(grants[i].name) in entries ==> grants[i].path != path) ==>
          SameAt(path, before, after))
  }

  /** Each grant has a name and a path of its own. */
  ghost predicate Apart(grants: seq<Grant>)
  {
    forall i, j :: 0 <= i < j < |grants| ==> grants[i].name != grants[j].name && grants[i].path != grants[j].path
  }

  /** A host's grants, HQ's own and the ones its configuration adds, are apart. */
  lemma HostsAreApart(configured: seq<Grant>)
    requires AreSound(configured)
    ensures Apart([DEPENDENCY_UPDATES] + configured)
  {
    TheSpoolIsReserved();
    hide UPDATES, SPOOL, Placeable;
    var all := [DEPENDENCY_UPDATES] + configured;
    forall i, j | 0 <= i < j < |all|
      ensures all[i].name != all[j].name && all[i].path != all[j].path
    {
      assert GrantIsSound(configured[j - 1]);
      assert i > 0 ==> all[i] == configured[i - 1];
    }
  }

  class Root {
    const clock: Clock
    const grants: seq<Grant>
    // Paths that cannot be written, and entries that cannot be removed.
    const fails: FilePath -> bool
    const stuck: EntryName -> bool

    var out: Out
    var files: Files

    constructor (clock: Clock, configured: seq<Grant>, fails: FilePath -> bool, stuck: EntryName -> bool, out: Out, files: Files)
      ensures this.clock == clock && this.grants == [DEPENDENCY_UPDATES] + configured
      ensures this.fails == fails && this.stuck == stuck && this.out == out && this.files == files
    {
      this.clock, this.grants := clock, [DEPENDENCY_UPDATES] + configured;
      this.fails, this.stuck, this.out, this.files := fails, stuck, out, files;
    }

    /** Which grant a file of the out directory is for, if any. */
    method GrantFor(name: EntryName) returns (at: Option<nat>)
      ensures at.Some? ==> at.value < |grants| && For(grants[at.value].name) == name
      ensures at == None ==> forall i :: 0 <= i < |grants| ==> For(grants[i].name) != name
    {
      for i := 0 to |grants|
        invariant forall j :: 0 <= j < i ==> For(grants[j].name) != name
      {
        if For(grants[i].name) == name {
          return Some(i);
        }
      }
      return None;
    }

    /** Takes one entry: reads it, checks it, and writes what it says at the
        grant's own path, or refuses it and writes nothing. */
    method Deliver(grant: Grant, now: Time) returns (ok: bool)
      requires For(grant.name) in out
      modifies `files
      ensures Placed(clock, grant, out[For(grant.name)], now, fails, old(files), files)
      ensures forall path :: path != grant.path ==> SameAt(path, old(files), files)
      ensures ok <==> !fails(grant.path) && exists handoff :: Delivers(clock, grant, out[For(grant.name)], now, handoff)
    {
      hide Says, IsSound, Fresh, Admits;
      var entry := out[For(grant.name)];
      var handoff := ParseHandoff(clock, Untrusted(entry));
      if handoff == None {
        return false;
      }
      assert handoff.value.runs != [] by { IsNotEmpty(handoff.value); }
      forall any | Delivers(clock, grant, entry, now, any)
        ensures any == handoff.value
      {
        SaysOne(clock, entry.data.value, any, handoff.value);
      }
      if !Fresh(handoff.value, now) || !Admits(grant, handoff.value) {
        return false;
      }
      assert Delivers(clock, grant, entry, now, handoff.value);
      if fails(grant.path) {
        return false;
      }
      files := files[grant.path := Placing(clock, grant, handoff.value)];
      return true;
    }

    /** Takes each hand-off the pass left, and removes everything it left. */
    method TakeHandoffs(now: Time)
      requires Apart(grants)
      modifies `out, `files
      ensures Taken(clock, grants, old(out), old(out).Keys, now, fails, old(files), files)
      ensures forall name :: name in out <==> name in old(out) && stuck(name)
    {
      hide Placed, SameAt, Apart;
      var left := out.Keys;
      ghost var given, were := out, files;
      NoneTaken(clock, grants, given, now, fails, files);
      assert given.Keys - left == {};
      while left != {}
        invariant left <= given.Keys
        invariant forall name :: name in left ==> name in out && out[name] == given[name]
        invariant forall name :: name in out && name !in left ==> name in given && stuck(name)
        invariant forall name :: name in given && name !in left && stuck(name) ==> name in out
        invariant Taken(clock, grants, given, given.Keys - left, now, fails, were, files)
        decreases left
      {
        var name :| name in left;
        var at := GrantFor(name);
        ghost var before := files;
        if at.Some? {
          var ok := Deliver(grants[at.value], now);
          OneTaken(clock, grants, given, given.Keys - left, at.value, now, fails, were, before, files);
        } else {
          OtherTaken(clock, grants, given, given.Keys - left, name, now, fails, were, files);
        }
        assert given.Keys - (left - {name}) == given.Keys - left + {name};
        left := left - {name};
        if !stuck(name) {
          out := out - {name};
        }
      }
      assert given.Keys - left == given.Keys;
    }
  }

  lemma IsNotEmpty(handoff: Handoff)
    requires IsSound(handoff)
    ensures handoff.runs != []
  {
  }

  lemma NoneTaken(clock: Clock, grants: seq<Grant>, out: Out, now: Time, fails: FilePath -> bool, files: Files)
    ensures Taken(clock, grants, out, {}, now, fails, files, files)
  {
  }

  lemma OtherTaken(clock: Clock, grants: seq<Grant>, out: Out, entries: set<EntryName>, name: EntryName, now: Time,
                   fails: FilePath -> bool, before: Files, after: Files)
    requires Taken(clock, grants, out, entries, now, fails, before, after)
    requires forall i :: 0 <= i < |grants| ==> For(grants[i].name) != name
    ensures Taken(clock, grants, out, entries + {name}, now, fails, before, after)
  {
    hide Placed, SameAt;
  }

  lemma OneTaken(clock: Clock, grants: seq<Grant>, out: Out, entries: set<EntryName>, at: nat, now: Time,
                 fails: FilePath -> bool, before: Files, middle: Files, after: Files)
    requires Apart(grants) && at < |grants| && For(grants[at].name) in out && For(grants[at].name) !in entries
    requires Taken(clock, grants, out, entries, now, fails, before, middle)
    requires Placed(clock, grants[at], out[For(grants[at].name)], now, fails, middle, after)
    requires forall path :: path != grants[at].path ==> SameAt(path, middle, after)
    ensures Taken(clock, grants, out, entries + {For(grants[at].name)}, now, fails, before, after)
  {
    var more := entries + {For(grants[at].name)};
    forall i | 0 <= i < |grants| && For(grants[i].name) in out && For(grants[i].name) in more
      ensures Placed(clock, grants[i], out[For(grants[i].name)], now, fails, before, after)
    {
      if i == at {
        assert SameAt(grants[at].path, before, middle);
        StillPlaced(clock, grants[at], out[For(grants[at].name)], now, fails, before, middle, after);
      } else {
        assert grants[i].name != grants[at].name && grants[i].path != grants[at].path;
        AlreadyPlaced(clock, grants[i], out[For(grants[i].name)], now, fails, before, middle, after);
      }
    }
    forall path | forall i :: 0 <= i < |grants| && For(grants[i].name) in out && For(grants[i].name) in more ==> grants[i].path != path
      ensures SameAt(path, before, after)
    {
      assert path != grants[at].path;
      assert SameAt(path, before, middle) && SameAt(path, middle, after);
    }
  }

  lemma StillPlaced(clock: Clock, grant: Grant, entry: Entry, now: Time, fails: FilePath -> bool, before: Files, middle: Files, after: Files)
    requires SameAt(grant.path, before, middle) && Placed(clock, grant, entry, now, fails, middle, after)
    ensures Placed(clock, grant, entry, now, fails, before, after)
  {
    hide Delivers;
  }

  lemma AlreadyPlaced(clock: Clock, grant: Grant, entry: Entry, now: Time, fails: FilePath -> bool, before: Files, middle: Files, after: Files)
    requires Placed(clock, grant, entry, now, fails, before, middle) && SameAt(grant.path, middle, after)
    ensures Placed(clock, grant, entry, now, fails, before, after)
  {
    hide Delivers;
  }

  /** Whatever a pass leaves, a file that changes is a grant's own path, HQ's
      spool or one outside its directories, and holds what a fresh hand-off
      that grant admits says: for a placed grant, the token of one run that
      reaches the grant's repositories and no other, up to case. */
  lemma OnlyWhatGrantsSay(clock: Clock, configured: seq<Grant>, out: Out, now: Time, fails: FilePath -> bool,
                          before: Files, after: Files, path: FilePath)
    returns (grant: Grant, handoff: Handoff)
    requires AreSound(configured) && !SameAt(path, before, after)
    requires Taken(clock, [DEPENDENCY_UPDATES] + configured, out, out.Keys, now, fails, before, after)
    ensures grant == DEPENDENCY_UPDATES || grant in configured
    ensures grant.path == path && (path == SPOOL || Placeable(path))
    ensures For(grant.name) in out && Delivers(clock, grant, out[For(grant.name)], now, handoff)
    ensures path in after && after[path] == Placing(clock, grant, handoff)
    // What was read is a file of one name and no more than so many bytes.
    ensures out[For(grant.name)].Regular? && out[For(grant.name)].links == 1 && out[For(grant.name)].size <= 65536
    ensures out[For(grant.name)].data.Some? && Says(clock, out[For(grant.name)].data.value, handoff)
    ensures forall i :: 0 <= i < |handoff.runs| ==> now < handoff.runs[i].expires <= now + 3600 + 120
    ensures !grant.planned ==> handoff.runs != [] && after[path] == TokenAlone(handoff.runs[0].token)
    ensures grant.planned ==> after[path] == Spooled(Encode(clock, handoff))
    ensures !grant.planned ==> |handoff.runs| == 1
    ensures !grant.planned ==> multiset(Folded(handoff.runs[0].repositories)) == multiset(Folded(grant.repositories))
  {
    hide DEPENDENCY_UPDATES, SPOOL, UPDATES, Placeable, Folded, Admits, Says, IsSound, Fresh, SameAt;
    var all := [DEPENDENCY_UPDATES] + configured;
    grant, handoff := WhoseFile(clock, all, out, now, fails, before, after, path);
    assert grant in configured ==> GrantIsSound(grant);
    ReadAsOne(clock, grant, out[For(grant.name)], now, handoff);
    UpdatesGoToTheSpool();
    if !grant.planned {
      AdmitsItsOwn(grant, handoff);
    }
  }

  lemma ReadAsOne(clock: Clock, grant: Grant, entry: Entry, now: Time, handoff: Handoff)
    requires Delivers(clock, grant, entry, now, handoff)
    ensures entry.Regular? && entry.links == 1 && entry.size <= 65536
    ensures entry.data.Some? && Says(clock, entry.data.value, handoff) && handoff.runs != []
    ensures forall i :: 0 <= i < |handoff.runs| ==> now < handoff.runs[i].expires <= now + 3600 + 120
  {
    hide Says, Admits;
  }

  lemma UpdatesGoToTheSpool()
    ensures DEPENDENCY_UPDATES.path == SPOOL
  {
  }

  lemma WhoseFile(clock: Clock, grants: seq<Grant>, out: Out, now: Time, fails: FilePath -> bool,
                  before: Files, after: Files, path: FilePath)
    returns (grant: Grant, handoff: Handoff)
    requires !SameAt(path, before, after) && Taken(clock, grants, out, out.Keys, now, fails, before, after)
    ensures grant in grants && grant.path == path
    ensures For(grant.name) in out && Delivers(clock, grant, out[For(grant.name)], now, handoff)
    ensures path in after && after[path] == Placing(clock, grant, handoff)
  {
    hide Placing, SameAt;
    var i :| 0 <= i < |grants| && For(grants[i].name) in out && For(grants[i].name) in out.Keys && grants[i].path == path;
    grant := grants[i];
    assert Placed(clock, grant, out[For(grant.name)], now, fails, before, after);
    handoff :| Delivers(clock, grant, out[For(grant.name)], now, handoff);
  }

  // -------------------------------------------------------------- end to end

  // What the contract lets a report of a run name, and so what is minted for:
  // small letters, digits and the marks of a login or a repository.
  predicate RunOwner(owner: string)
  {
    1 <= |owner| <= 39 && forall i :: 0 <= i < |owner| ==> 'a' <= owner[i] <= 'z' || '0' <= owner[i] <= '9' || owner[i] == '-'
  }

  predicate RunName(name: string)
  {
    1 <= |name| <= 100
    && forall i :: 0 <= i < |name| ==>
         'a' <= name[i] <= 'z' || '0' <= name[i] <= '9' || name[i] == '.' || name[i] == '_' || name[i] == '-'
  }

  predicate RunRepository(repository: string)
  {
    '/' in repository && RunOwner(Of(repository)) && RunName(Called(repository))
  }

  /** One account's repositories, all spelled under it. */
  ghost predicate RunOf(owner: string, repositories: seq<string>)
  {
    RunOwner(owner) && repositories != []
    && forall i :: 0 <= i < |repositories| ==> RunRepository(repositories[i]) && Of(repositories[i]) == owner
  }

  /** The controller's own check of what it is asked to mint. */
  method CheckRunRepositories(owner: string, repositories: seq<string>) returns (ok: bool)
    ensures ok <==> RunOf(owner, repositories)
  {
    if !RunOwner(owner) || repositories == [] {
      return false;
    }
    NoSlash(owner);
    hide Cut, RunOwner, RunName;
    for i := 0 to |repositories|
      invariant forall j :: 0 <= j < i ==> RunRepository(repositories[j]) && Of(repositories[j]) == owner
    {
      PrefixIsOwner(owner, repositories[i]);
      if !RunRepository(repositories[i]) || !(owner + "/" <= repositories[i]) {
        return false;
      }
    }
    return true;
  }

  lemma NoSlash(owner: string)
    requires RunOwner(owner)
    ensures '/' !in owner
  {
  }

  lemma PrefixIsOwner(owner: string, repository: string)
    requires '/' !in owner
    ensures owner + "/" <= repository <==> '/' in repository && Of(repository) == owner
  {
    if owner + "/" <= repository {
      var name := repository[|owner| + 1..];
      assert repository == owner + ['/'] + name;
      CutJoined(owner, '/', name);
      assert repository[|owner|] == '/';
    }
    if '/' in repository && Of(repository) == owner {
      assert repository == owner + ['/'] + Called(repository);
    }
  }

  /** A grant as root tells it to the controller, which refuses one of HQ's own
      name, of two accounts, or that a run may not name. */
  method CheckGrantRequest(name: string, scope: seq<Scope>) returns (ok: bool)
    ensures ok <==> name != UPDATES && OwnerShape(name) && Lower(name) == name
                    && |scope| == 1 && RunOf(scope[0].owner, scope[0].repositories)
  {
    if name == UPDATES || !OwnerShape(name) || Lower(name) != name || |scope| != 1 {
      return false;
    }
    ok := CheckRunRepositories(scope[0].owner, scope[0].repositories);
  }

  lemma LowerParts(head: string, name: string)
    ensures Lower(head + ['/'] + name) == head + ['/'] + name <==> Lower(head) == head && Lower(name) == name
  {
    var text := head + ['/'] + name;
    assert text[..|head|] == head && text[|head| + 1..] == name;
    assert Lower(text)[..|head|] == Lower(head);
    assert Lower(text)[|head| + 1..] == Lower(name);
    if Lower(head) == head && Lower(name) == name {
      assert Lower(text) == Lower(head) + ['/'] + Lower(name);
    }
  }

  lemma LowerSpelled(repository: string, owner: string)
    requires Lower(Of(repository)) == Lower(owner) && |owner| <= OWNER_LIMIT && OwnerShape(owner) && NameShape(Called(repository))
    ensures RunOwner(owner) && RunRepository(repository) && Of(repository) == owner <==> Lower(repository) == repository && Lower(owner) == owner
  {
    var head, name := Of(repository), Called(repository);
    assert name != "" && repository == head + ['/'] + name && '/' in repository;
    hide Cut, Lower;
    LowerParts(head, name);
    LowerOwner(owner);
    LowerName(name);
    hide OwnerShape, NameShape, RunOwner, RunName;
  }

  lemma LowerOwner(owner: string)
    requires |owner| <= OWNER_LIMIT && OwnerShape(owner)
    ensures RunOwner(owner) <==> Lower(owner) == owner
  {
    assert forall i :: 0 <= i < |owner| ==> Lower(owner)[i] == LowerChar(owner[i]);
  }

  lemma LowerName(name: string)
    requires NameShape(name)
    ensures RunName(name) <==> Lower(name) == name
  {
    assert forall i :: 0 <= i < |name| ==> Lower(name)[i] == LowerChar(name[i]);
  }

  /** No repository has a capital. */
  ghost predicate InSmallLetters(repositories: seq<string>)
  {
    forall i :: 0 <= i < |repositories| ==> Lower(repositories[i]) == repositories[i]
  }

  /** The gap between the host's check and the controller's: of the grants the
      first passes, the second mints for those that name no capital. */
  lemma MintedInSmallLetters(repositories: seq<string>)
    requires OneOwners(repositories)
    ensures RunOf(Of(repositories[0]), repositories) <==> InSmallLetters(repositories)
    ensures InSmallLetters(repositories) ==> forall i :: 0 <= i < |repositories| ==> Of(repositories[i]) == Of(repositories[0])
  {
    hide OwnerShape, NameShape, RunOwner, RunRepository, Lower, Of, Called;
    var owner := Of(repositories[0]);
    forall i | 0 <= i < |repositories|
      ensures RunOwner(owner) && RunRepository(repositories[i]) && Of(repositories[i]) == owner
              <==> Lower(repositories[i]) == repositories[i] && Lower(owner) == owner
    {
      LowerSpelled(repositories[i], owner);
    }
    OwnerIsLower(repositories[0]);
  }

  lemma OwnerIsLower(repository: string)
    ensures Lower(repository) == repository ==> Lower(Of(repository)) == Of(repository)
  {
    assert |Of(repository)| <= |repository| && Of(repository) == repository[..|Of(repository)|];
    hide Of;
  }

  /** What the pass is given besides the grants: the App's installations, if
      they can be listed, what GitHub answers, the permissions it knows, and
      whether the hand-off can be written, with its size. */
  datatype Surroundings = Surroundings(listed: Option<seq<Installation>>, mint: Mint, known: map<string, string> -> bool, writes: bool, size: nat)

  /** The token minted for a grant of one account's repositories. */
  function MintedFor(around: Surroundings, repositories: seq<string>): Option<Minted>
    requires repositories != []
  {
    if around.listed == None then None
    else MintFor(Covering(around.listed.value), around.mint, Scope(Of(repositories[0]), repositories))
  }

  /** What has to hold for a grant's token to be put: it names no capital, its
      permissions are GitHub's, its token is minted, one line and fresh, and
      neither the hand-off nor the file fails. */
  ghost predicate Puts(root: Root, grant: Grant, around: Surroundings, now: Time)
    requires grant.repositories != []
  {
    && InSmallLetters(grant.repositories) && around.known(grant.permissions)
    && around.writes && around.size <= HANDOFF_LIMIT && !root.fails(grant.path)
    && MintedFor(around, grant.repositories).Some?
    && var minted := MintedFor(around, grant.repositories).value;
       TokenShape(minted.token) && now < minted.expires <= now + TOKEN_LIFE + CLOCK_SKEW
  }

  /** From the grant to the file, through every check on the way: what is
      minted for a grant the host's check passes is put at that grant's path,
      exactly when it can be, and nothing is put anywhere else. */
  method HandedOff(root: Root, configured: seq<Grant>, grant: Grant, around: Surroundings, now: Time)
    requires Reads(root.clock) && root.grants == [DEPENDENCY_UPDATES] + configured && AreSound(configured)
    requires grant in configured && !grant.planned
    modifies root
    ensures forall path :: path != grant.path ==> SameAt(path, old(root.files), root.files)
    ensures grant.repositories != []
    ensures Puts(root, grant, around, now) ==>
              grant.path in root.files
              && root.files[grant.path] == TokenAlone(MintedFor(around, grant.repositories).value.token)
    ensures !Puts(root, grant, around, now) ==> SameAt(grant.path, old(root.files), root.files)
    // The token is of the last installation on the account, for the names
    // after the slash, and nothing is left but what cannot be removed.
    ensures Puts(root, grant, around, now) ==>
              exists i, names :: TokenOf(around, grant.repositories, i, names)
                && around.mint(around.listed.value[i].id, names).Some?
                && root.files[grant.path] == TokenAlone(around.mint(around.listed.value[i].id, names).value.token)
    ensures forall name :: name in root.out ==> name == For(grant.name) && root.stuck(name)
  {
    hide *;
    ItIsSound(configured, grant);
    HostsAreApart(configured);
    SoundRequest(grant);
    var scope := Owners(grant.repositories);
    OneOwnersScope(grant.repositories, scope);
    MintedInSmallLetters(grant.repositories);
    var passes := CheckGrantRequest(grant.name, scope);
    root.out := map[];
    PutsOnlyMinted(root, grant, around, now);
    SameAsWere(root.files);
    if !passes || !around.known(grant.permissions) {
      return;
    }
    var handoff := MintEach(scope, around.listed, around.mint, around.writes);
    MintedOne(grant.repositories, around);
    if handoff.Some? {
      PutsMinted(root, grant, around, handoff.value, now);
      LeftAndTaken(root, grant, handoff.value, around.size, now);
      if Puts(root, grant, around, now) {
        OwnerIsNamed(grant.repositories);
        var i, names := MintedForLast(around, grant.repositories);
      }
    }
  }

  /** The installation a grant's token is asked of, and the names it is asked for. */
  ghost predicate TokenOf(around: Surroundings, repositories: seq<string>, i: int, names: seq<string>)
  {
    && repositories != [] && around.listed.Some? && LastOn(around.listed.value, Of(repositories[0]), i)
    && |names| == |repositories| && forall k :: 0 <= k < |names| ==> names[k] == Called(repositories[k])
  }

  lemma MintedForLast(around: Surroundings, repositories: seq<string>) returns (i: int, names: seq<string>)
    requires repositories != [] && Of(repositories[0]) != "" && MintedFor(around, repositories).Some?
    ensures TokenOf(around, repositories, i, names)
    ensures around.mint(around.listed.value[i].id, names) == MintedFor(around, repositories)
  {
    hide Lower, Of, Called, MintFor;
    var scope, installations := Scope(Of(repositories[0]), repositories), around.listed.value;
    names := seq(|repositories|, k requires 0 <= k < |repositories| => Called(repositories[k]));
    if forall k :: 0 <= k < |installations| ==> Lower(installations[k].login) != Lower(scope.owner) {
      MintedByNone(installations, around.mint, scope);
      assert false;
    }
    i := LastThere(installations, scope.owner);
    MintedByLast(installations, around.mint, scope, i, names);
  }

  lemma {:induction false} LastThere(installations: seq<Installation>, owner: string) returns (i: int)
    requires exists k :: 0 <= k < |installations| && Lower(installations[k].login) == Lower(owner)
    ensures LastOn(installations, owner, i)
  {
    hide Lower;
    i := |installations| - 1;
    if Lower(installations[i].login) != Lower(owner) {
      var k :| 0 <= k < |installations| && Lower(installations[k].login) == Lower(owner);
      assert installations[..i][k] == installations[k];
      i := LastThere(installations[..i], owner);
    }
  }

  lemma ItIsSound(configured: seq<Grant>, grant: Grant)
    requires AreSound(configured) && grant in configured
    ensures GrantIsSound(grant)
  {
    hide GrantIsSound;
  }

  lemma SameAsWere(files: Files)
    ensures forall path :: SameAt(path, files, files)
  {
  }

  lemma PutsOnlyMinted(root: Root, grant: Grant, around: Surroundings, now: Time)
    requires grant.repositories != []
    ensures Puts(root, grant, around, now) ==> InSmallLetters(grant.repositories) && around.known(grant.permissions)
    ensures Puts(root, grant, around, now) ==> around.writes && around.listed.Some? && MintedFor(around, grant.repositories).Some?
  {
    hide InSmallLetters, MintFor, Of, TokenShape;
  }

  /** One owner's mint is one run, of all its repositories. */
  lemma MintedOne(repositories: seq<string>, around: Surroundings)
    requires repositories != []
    ensures around.listed.Some? ==>
              MintedRuns([Scope(Of(repositories[0]), repositories)], Covering(around.listed.value), around.mint) ==
              match MintedFor(around, repositories)
              case None => []
              case Some(minted) => [Run(Of(repositories[0]), repositories, minted.token, minted.expires)]
  {
    hide MintFor, Of, Covering;
    if around.listed.Some? {
      OneMinted(Scope(Of(repositories[0]), repositories), Covering(around.listed.value), around.mint);
    }
  }

  lemma PutsMinted(root: Root, grant: Grant, around: Surroundings, handoff: Handoff, now: Time)
    requires OneOwners(grant.repositories) && grant.repositories != [] && MintedFor(around, grant.repositories).Some?
    requires InSmallLetters(grant.repositories) && around.known(grant.permissions) && around.writes
    requires var minted := MintedFor(around, grant.repositories).value;
             handoff.runs == [Run(Of(grant.repositories[0]), grant.repositories, minted.token, minted.expires)]
    ensures Puts(root, grant, around, now) <==>
              IsSound(handoff) && Fresh(handoff, now) && around.size <= HANDOFF_LIMIT && !root.fails(grant.path)
  {
    MintedIsSound(grant.repositories, MintedFor(around, grant.repositories).value);
    MintedInSmallLetters(grant.repositories);
    assert handoff == Handoff(handoff.runs);
    assert Fresh(handoff, now) <==> now < handoff.runs[0].expires <= now + TOKEN_LIFE + CLOCK_SKEW;
    assert IsSound(handoff) <==> TokenShape(handoff.runs[0].token);
    hide IsSound, OneOwners, InSmallLetters, MintedFor, Of, TokenShape, RunOf;
  }

  lemma OwnerIsNamed(repositories: seq<string>)
    requires OneOwners(repositories)
    ensures Of(repositories[0]) != ""
  {
    hide Of, Called, NameShape, Lower, Distinct;
  }

  lemma SoundRequest(grant: Grant)
    requires GrantIsSound(grant)
    ensures grant.name != UPDATES && OwnerShape(grant.name) && Lower(grant.name) == grant.name
    ensures OneOwners(grant.repositories) && grant.repositories != []
  {
    hide OwnerShape, Lower, UPDATES;
  }

  /** One hand-off left for root, and the pass taken. */
  method LeftAndTaken(root: Root, grant: Grant, handoff: Handoff, size: nat, now: Time)
    requires Reads(root.clock) && Apart(root.grants) && grant in root.grants
    requires !grant.planned && |handoff.runs| == 1 && handoff.runs[0].repositories == grant.repositories
    modifies root
    ensures forall path :: path != grant.path ==> SameAt(path, old(root.files), root.files)
    ensures IsSound(handoff) && Fresh(handoff, now) && size <= HANDOFF_LIMIT && !root.fails(grant.path) ==>
              grant.path in root.files && root.files[grant.path] == TokenAlone(handoff.runs[0].token)
    ensures !(IsSound(handoff) && Fresh(handoff, now) && size <= HANDOFF_LIMIT && !root.fails(grant.path)) ==>
              SameAt(grant.path, old(root.files), root.files)
    ensures forall name :: name in root.out ==> name == For(grant.name) && root.stuck(name)
  {
    hide IsSound, Fresh, Says, Admits, SameAt;
    root.out := map[For(grant.name) := Regular(Some(Encode(root.clock, handoff)), 1, size)];
    ghost var entry := root.out[For(grant.name)];
    root.TakeHandoffs(now);
    HandedIsTaken(root.clock, grant, handoff, size, now);
    ghost var at :| 0 <= at < |root.grants| && root.grants[at] == grant;
    assert Placed(root.clock, root.grants[at], entry, now, root.fails, old(root.files), root.files);
    assert Delivers(root.clock, grant, entry, now, handoff) <==> IsSound(handoff) && Fresh(handoff, now) && size <= HANDOFF_LIMIT;
  }

  lemma OneMinted(scope: Scope, covering: map<string, int>, mint: Mint)
    ensures MintedRuns([scope], covering, mint) ==
              match MintFor(covering, mint, scope)
              case None => []
              case Some(minted) => [Run(scope.owner, scope.repositories, minted.token, minted.expires)]
  {
    assert [scope][..0] == [];
    assert MintedRuns([], covering, mint) == [];
  }

  lemma HandedIsTaken(clock: Clock, grant: Grant, handoff: Handoff, size: nat, now: Time)
    requires Reads(clock) && !grant.planned
    requires |handoff.runs| == 1 && handoff.runs[0].repositories == grant.repositories
    ensures var entry := Regular(Some(Encode(clock, handoff)), 1, size);
            forall any :: Delivers(clock, grant, entry, now, any) <==>
              any == handoff && IsSound(handoff) && Fresh(handoff, now) && size <= HANDOFF_LIMIT
  {
    SaysOfEncoded(clock, handoff);
    AdmitsItsOwn(grant, handoff);
    hide Says, Admits, Fresh, IsSound;
  }

  // ----------------------------------------------------------------- renewal

  /** A token is due when none was placed, or half a life after it was. */
  predicate Due(placed: Option<Time>, now: Time)
  {
    placed == None || now - placed.value >= TOKEN_REFRESH
  }

  /** A pass, and whether it could mint and place what was due. */
  datatype Pass = Pass(at: Time, mints: bool)

  /** When the token at the path was placed, after these passes. */
  function PlacedAt(passes: seq<Pass>): Option<Time>
  {
    if passes == [] then None
    else
      var last, before := passes[|passes| - 1], PlacedAt(passes[..|passes| - 1]);
      if Due(before, last.at) && last.mints then Some(last.at) else before
  }

  /** How many passes in a row, to the last, were due and could not mint. */
  function Missed(passes: seq<Pass>): nat
  {
    if passes == [] then 0
    else
      var last, before := passes[|passes| - 1], passes[..|passes| - 1];
      if Due(PlacedAt(before), last.at) && !last.mints then Missed(before) + 1 else 0
  }

  /** The token at the path is the last that was placed: by a pass that minted,
      when none was there or half an hour after the one that was, and no pass
      since has been so late and minted. */
  lemma {:induction false} PlacedBy(passes: seq<Pass>) returns (i: nat)
    requires PlacedAt(passes).Some?
    ensures i < |passes| && passes[i].at == PlacedAt(passes).value && passes[i].mints
    ensures PlacedAt(passes[..i]) == None || passes[i].at - PlacedAt(passes[..i]).value >= 1800
    ensures forall j :: i < j < |passes| ==> !(passes[j].mints && passes[j].at - passes[i].at >= 1800)
  {
    var n := |passes| - 1;
    if Due(PlacedAt(passes[..n]), passes[n].at) && passes[n].mints {
      i := n;
    } else {
      i := PlacedBy(passes[..n]);
      assert passes[..n][..i] == passes[..i];
    }
  }

  lemma {:induction false} NonePlaced(passes: seq<Pass>)
    ensures PlacedAt(passes) == None <==> forall i :: 0 <= i < |passes| ==> !passes[i].mints
  {
    if passes != [] {
      NonePlaced(passes[..|passes| - 1]);
    }
  }

  /** The passes that are missed are the last that came too late and did not
      mint, and the one before them did, or came in time. */
  lemma {:induction false} MissedAre(passes: seq<Pass>)
    ensures Missed(passes) <= |passes|
    ensures forall i :: |passes| - Missed(passes) <= i < |passes| ==> !passes[i].mints && IsLate(passes, i)
    ensures var i := |passes| - 1 - Missed(passes);
            i >= 0 ==> passes[i].mints || !IsLate(passes, i)
  {
    if passes != [] {
      var n := |passes| - 1;
      MissedAre(passes[..n]);
      forall i | 0 <= i < n
        ensures IsLate(passes[..n], i) == IsLate(passes, i)
      {
        assert passes[..n][..i] == passes[..i];
      }
    }
  }

  /** No token is there, or one placed half an hour before and more. */
  predicate IsLate(passes: seq<Pass>, i: int)
    requires 0 <= i < |passes|
  {
    PlacedAt(passes[..i]) == None || passes[i].at - PlacedAt(passes[..i]).value >= 1800
  }

  /** How long that many passes are apart. */
  function Spanning(passes: nat, gap: Time): Time
  {
    passes * gap
  }

  lemma SpanningMore(passes: nat, gap: Time)
    ensures Spanning(passes + 1, gap) == Spanning(passes, gap) + gap
  {
  }

  lemma {:induction false} SpanningMost(passes: nat, most: nat, gap: Time)
    requires passes <= most && gap >= 0
    ensures 0 <= Spanning(passes, gap) <= Spanning(most, gap)
    decreases most
  {
    if most > 0 {
      SpanningMost(if passes == most then passes - 1 else passes, most - 1, gap);
      SpanningMore(most - 1, gap);
    }
  }

  /** A token once placed is never past its life, while passes come no further
      apart than what is left of a life once it is due allows for the passes
      that fail in a row. */
  lemma {:induction false} NeverExpires(passes: seq<Pass>, gap: Time, misses: nat)
    requires passes != [] && PlacedAt(passes).Some?
    requires forall i :: 0 < i < |passes| ==> 0 <= passes[i].at - passes[i - 1].at <= gap
    requires forall n :: 0 <= n <= |passes| ==> Missed(passes[..n]) <= misses
    requires gap >= 0 && TOKEN_REFRESH + Spanning(misses + 1, gap) <= TOKEN_LIFE
    ensures passes[|passes| - 1].at - PlacedAt(passes).value <= TOKEN_REFRESH + Spanning(Missed(passes), gap)
    ensures passes[|passes| - 1].at + gap - PlacedAt(passes).value <= TOKEN_LIFE
  {
    hide Spanning;
    var n := |passes| - 1;
    var before := passes[..n];
    if PlacedAt(before).Some? {
      assert n > 0;
      forall k | 0 <= k <= n
        ensures Missed(before[..k]) <= misses
      {
        assert before[..k] == passes[..k];
      }
      NeverExpires(before, gap, misses);
      SpanningMore(Missed(before), gap);
    }
    assert passes[..n + 1] == passes;
    SpanningMost(0, Missed(passes), gap);
    SpanningMost(Missed(passes), misses, gap);
    SpanningMore(misses, gap);
  }
}
