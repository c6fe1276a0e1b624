/** What tokens a host declares, what the controller mints for them, and how
    root puts each, from a directory it does not trust, where its own copy of
    the grant says. */
module Grants {
  import opened Basics
  import opened Texts
  import opened Sorting
  import opened FoldedOrder
  import opened Handoffs

  // ------------------------------------------------------------------ paths

  /** A path that is absolute and already clean, by its parts, or any other. */
  datatype FilePath = Clean(parts: seq<string>) | Unclean(text: string)

  const RUN := "run"
  // The directories under /run no grant may place a token in.
  const RESERVED: seq<string> := ["severino-hq", "severino-hq-secrets", "severino-hq-renovate", "severino-hq-unit"]
  const SPOOL := Clean([RUN, "severino-hq-renovate", "handoff.json"])

  /** At or under a directory of HQ's own. */
  predicate Reserved(path: FilePath)
  {
    path.Clean? && exists i :: 0 <= i < |RESERVED| && [RUN, RESERVED[i]] <= path.parts
  }

  /** Where a token may be placed: two levels or more below /run, not hidden,
      and in none of those. */
  predicate Placeable(path: FilePath)
  {
    path.Clean? && |path.parts| >= 3 && path.parts[0] == RUN
    && !("." <= path.parts[|path.parts| - 1])
    && !Reserved(path)
  }

  /** So a token may go to a path of three parts or more: `run`, none of HQ's
      own directories, and at last a name that does not begin with a dot. */
  lemma PlaceableIs(parts: seq<string>)
    ensures Placeable(Clean(parts)) <==>
              |parts| > 2 && parts[0] == "run" && (parts[|parts| - 1] == "" || parts[|parts| - 1][0] != '.')
              && parts[1] !in {"severino-hq", "severino-hq-secrets", "severino-hq-renovate", "severino-hq-unit"}
  {
    if |parts| > 2 && parts[0] == "run" {
      forall i | 0 <= i < |RESERVED|
        ensures [RUN, RESERVED[i]] <= parts <==> parts[1] == RESERVED[i]
      {
        assert [RUN, RESERVED[i]][1] == RESERVED[i];
      }
      assert RESERVED[0] == "severino-hq" && RESERVED[1] == "severino-hq-secrets";
      assert RESERVED[2] == "severino-hq-renovate" && RESERVED[3] == "severino-hq-unit";
    }
  }

  lemma TheSpoolIsReserved()
    ensures Reserved(SPOOL) && !Placeable(SPOOL)
  {
    assert [RUN, RESERVED[2]] <= SPOOL.parts;
  }

  // ----------------------------------------------------------------- grants

  datatype Grant = Grant(name: string, repositories: seq<string>, permissions: map<string, string>, path: FilePath, planned: bool)

  const UPDATES := "dependency-updates"

  /** HQ's own grant, whose repositories are its plan's. */
  const DEPENDENCY_UPDATES := Grant(UPDATES, [], map[], SPOOL, true)

  /** A name that is an account's in small letters, and so safe as a file's. */
  predicate GrantNamed(name: string)
  {
    |name| <= 63 && OwnerShape(name) && Lower(name) == name
  }

  predicate PermissionNamed(name: string)
  {
    1 <= |name| <= 64 && 'a' <= name[0] <= 'z' && forall i :: 0 <= i < |name| ==> 'a' <= name[i] <= 'z' || name[i] == '_'
  }

  predicate Permitted(permissions: map<string, string>)
  {
    permissions != map[]
    && forall name :: name in permissions ==> PermissionNamed(name) && permissions[name] in {"read", "write", "admin"}
  }

  /** One owner's repositories, however they case its name. */
  ghost predicate OneOwners(repositories: seq<string>)
  {
    && repositories != []
    && |Of(repositories[0])| <= OWNER_LIMIT && OwnerShape(Of(repositories[0]))
    && (forall i :: 0 <= i < |repositories| ==>
          Lower(Of(repositories[i])) == Lower(Of(repositories[0])) && NameShape(Called(repositories[i])))
    && Distinct(repositories)
  }

  ghost predicate GrantIsSound(grant: Grant)
  {
    GrantNamed(grant.name) && grant.name != UPDATES && OneOwners(grant.repositories)
    && Permitted(grant.permissions) && Placeable(grant.path)
  }

  /** Each grant sound, by a name and a path of its own. */
  ghost predicate AreSound(grants: seq<Grant>)
  {
    && (forall i :: 0 <= i < |grants| ==> GrantIsSound(grants[i]))
    && (forall i, j :: 0 <= i < j < |grants| ==> grants[i].name != grants[j].name && grants[i].path != grants[j].path)
  }

  method CheckRepositories(repositories: seq<string>) returns (ok: bool)
    ensures ok <==> OneOwners(repositories)
  {
    hide OwnerShape, NameShape, Lower, Cut, Distinct;
    if repositories == [] {
      return false;
    }
    var owner := Of(repositories[0]);
    if |owner| > OWNER_LIMIT || !OwnerShape(owner) {
      return false;
    }
    for i := 0 to |repositories|
      invariant forall j :: 0 <= j < i ==> Lower(Of(repositories[j])) == Lower(owner) && NameShape(Called(repositories[j]))
    {
      if Lower(Of(repositories[i])) != Lower(owner) || !NameShape(Called(repositories[i])) {
        return false;
      }
    }
    ok := EachOnce(repositories);
  }

  method CheckGrants(grants: seq<Grant>) returns (ok: bool)
    ensures ok <==> AreSound(grants)
  {
    hide GrantNamed, OneOwners, Permitted, Placeable, UPDATES;
    var names: set<string>, paths: set<FilePath> := {UPDATES}, {};
    for i := 0 to |grants|
      invariant AreSound(grants[..i])
      invariant forall name :: name in names <==> name == UPDATES || exists j :: 0 <= j < i && grants[j].name == name
      invariant forall path :: path in paths <==> exists j :: 0 <= j < i && grants[j].path == path
    {
      var grant := grants[i];
      if !GrantNamed(grant.name) || grant.name in names {
        assert forall j :: 0 <= j < i ==> grants[..i][j] == grants[j];
        return false;
      }
      var known := CheckRepositories(grant.repositories);
      if !known || !Permitted(grant.permissions) || !Placeable(grant.path) || grant.path in paths {
        return false;
      }
      names, paths := names + {grant.name}, paths + {grant.path};
      assert grants[..i + 1] == grants[..i] + [grant];
    }
    assert grants[..|grants|] == grants;
    return true;
  }

  // --------------------------------------------------------------- the mint

  /** One owner's share of what is to be minted. */
  datatype Scope = Scope(owner: string, repositories: seq<string>)

  /** The account a repository is of, however it is cased. */
  function Account(repository: string): string
  {
    Lower(Of(repository))
  }

  /** The repositories of one account, in order. */
  function Under(repositories: seq<string>, account: string): seq<string>
  {
    if repositories == [] then []
    else
      var last := repositories[|repositories| - 1];
      Under(repositories[..|repositories| - 1], account) + if Account(last) == account then [last] else []
  }

  /** One account's repositories, the owner as the first of them spells it. */
  ghost predicate IsScope(repositories: seq<string>, scope: Scope)
  {
    && scope.repositories == Under(repositories, Lower(scope.owner))
    && scope.repositories != [] && Of(scope.repositories[0]) == scope.owner
  }

  ghost predicate Names(found: seq<Scope>, account: string)
  {
    exists j :: 0 <= j < |found| && Lower(found[j].owner) == account
  }

  ghost predicate EachOwnerOnce(found: seq<Scope>)
  {
    forall i, j :: 0 <= i < j < |found| ==> Lower(found[i].owner) != Lower(found[j].owner)
  }

  lemma StillOnce(found: seq<Scope>, more: seq<Scope>)
    requires EachOwnerOnce(found) && |more| == |found| && forall j :: 0 <= j < |found| ==> more[j].owner == found[j].owner
    ensures EachOwnerOnce(more)
  {
    hide Lower;
  }

  /** Repositories by account, each account once and each repository's there. */
  ghost predicate ByOwner(repositories: seq<string>, found: seq<Scope>)
  {
    && (forall i :: 0 <= i < |found| ==> IsScope(repositories, found[i]))
    && EachOwnerOnce(found)
    && (forall i :: 0 <= i < |repositories| ==> Names(found, Account(repositories[i])))
  }

  ghost predicate Indexes(index: map<string, nat>, found: seq<Scope>)
  {
    && (forall key :: key in index ==> index[key] < |found| && Lower(found[index[key]].owner) == key)
    && (forall j :: 0 <= j < |found| ==> Lower(found[j].owner) in index)
  }

  method Owners(repositories: seq<string>) returns (found: seq<Scope>)
    ensures ByOwner(repositories, found)
  {
    hide Lower, Of, IsScope, ByOwner, Names;
    found := [];
    var index: map<string, nat> := map[];
    NoneByOwner();
    assert repositories[..0] == [];
    for n := 0 to |repositories|
      invariant ByOwner(repositories[..n], found) && Indexes(index, found)
    {
      var repository := repositories[n];
      var owner := Of(repository);
      var key := Lower(owner);
      assert repositories[..n + 1] == repositories[..n] + [repository];
      if key !in index {
        NewOwner(repositories[..n], found, repository);
        index := index[key := |found|];
        found := found + [Scope(owner, [repository])];
      } else {
        var at := index[key];
        SameOwner(repositories[..n], found, repository, at);
        found := found[at := found[at].(repositories := found[at].repositories + [repository])];
      }
    }
    assert repositories[..|repositories|] == repositories;
  }

  lemma NoneByOwner()
    ensures ByOwner([], [])
  {
  }

  lemma {:induction false} UnderNone(repositories: seq<string>, account: string)
    requires forall i :: 0 <= i < |repositories| ==> Account(repositories[i]) != account
    ensures Under(repositories, account) == []
  {
    hide Account;
    if repositories != [] {
      UnderNone(repositories[..|repositories| - 1], account);
    }
  }

  lemma UnderMore(repositories: seq<string>, repository: string, account: string)
    ensures Under(repositories + [repository], account)
         == Under(repositories, account) + if Account(repository) == account then [repository] else []
  {
    assert (repositories + [repository])[..|repositories|] == repositories;
  }

  lemma NamesMore(found: seq<Scope>, more: seq<Scope>, account: string)
    requires Names(found, account) && |found| <= |more|
    requires forall j :: 0 <= j < |found| ==> more[j].owner == found[j].owner
    ensures Names(more, account)
  {
    var j :| 0 <= j < |found| && Lower(found[j].owner) == account;
    assert more[j].owner == found[j].owner;
  }

  lemma NewOwner(repositories: seq<string>, found: seq<Scope>, repository: string)
    requires ByOwner(repositories, found) && forall j :: 0 <= j < |found| ==> Lower(found[j].owner) != Account(repository)
    ensures ByOwner(repositories + [repository], found + [Scope(Of(repository), [repository])])
  {
    var key, more := Account(repository), found + [Scope(Of(repository), [repository])];
    assert Lower(more[|found|].owner) == key;
    assert !Names(found, key);
    UnderNone(repositories, key);
    UnderMore(repositories, repository, key);
    hide Account, Lower, Of, Names;
    forall j | 0 <= j < |found|
      ensures IsScope(repositories + [repository], found[j])
    {
      ScopeMore(repositories, found[j], repository);
    }
    forall i | 0 <= i < |repositories|
      ensures Names(more, Account(repositories[i]))
    {
      NamesMore(found, more, Account(repositories[i]));
    }
    ItIsNamed(more, |found|);
  }

  lemma ItIsNamed(found: seq<Scope>, at: nat)
    requires at < |found|
    ensures Names(found, Lower(found[at].owner))
  {
  }

  lemma SameOwner(repositories: seq<string>, found: seq<Scope>, repository: string, at: nat)
    requires ByOwner(repositories, found) && at < |found| && Lower(found[at].owner) == Account(repository)
    ensures ByOwner(repositories + [repository], found[at := found[at].(repositories := found[at].repositories + [repository])])
  {
    var more := found[at := found[at].(repositories := found[at].repositories + [repository])];
    forall j | 0 <= j < |found|
      ensures IsScope(repositories + [repository], more[j])
    {
      ScopeMore(repositories, found[j], repository);
    }
    StillOnce(found, more);
    hide Account, Lower, Of, Names, IsScope, EachOwnerOnce;
    forall i | 0 <= i < |repositories|
      ensures Names(more, Account(repositories[i]))
    {
      NamesMore(found, more, Account(repositories[i]));
    }
    ItIsNamed(more, at);
  }

  lemma ScopeMore(repositories: seq<string>, scope: Scope, repository: string)
    requires IsScope(repositories, scope)
    ensures if Lower(scope.owner) == Account(repository)
            then IsScope(repositories + [repository], scope.(repositories := scope.repositories + [repository]))
            else IsScope(repositories + [repository], scope)
  {
    hide Account, Lower, Of, Under;
    UnderMore(repositories, repository, Lower(scope.owner));
  }

  lemma {:induction false} UnderAll(repositories: seq<string>, account: string)
    requires forall i :: 0 <= i < |repositories| ==> Account(repositories[i]) == account
    ensures Under(repositories, account) == repositories
  {
    hide Account;
    if repositories != [] {
      var n := |repositories| - 1;
      UnderAll(repositories[..n], account);
      assert repositories == repositories[..n] + [repositories[n]];
    }
  }

  /** One owner's repositories are one scope, all of them, by the first's spelling. */
  lemma OneOwnersScope(repositories: seq<string>, found: seq<Scope>)
    requires OneOwners(repositories) && ByOwner(repositories, found)
    ensures found == [Scope(Of(repositories[0]), repositories)]
  {
    var account := Account(repositories[0]);
    assert forall i :: 0 <= i < |repositories| ==> Account(repositories[i]) == account;
    hide Account, Lower, Of, OneOwners, IsScope, NameShape, OwnerShape;
    assert Names(found, account);
    forall i | 0 <= i < |found|
      ensures found[i] == Scope(Of(repositories[0]), repositories) && Lower(found[i].owner) == account
    {
      ScopeIsAll(repositories, found[i], account);
    }
    assert |found| >= 1;
    assert Lower(found[0].owner) == Lower(found[|found| - 1].owner);
  }

  lemma ScopeIsAll(repositories: seq<string>, scope: Scope, account: string)
    requires repositories != [] && forall i :: 0 <= i < |repositories| ==> Account(repositories[i]) == account
    requires IsScope(repositories, scope)
    ensures scope == Scope(Of(repositories[0]), repositories) && Lower(scope.owner) == account
  {
    hide Account, Of;
    UnderHas(repositories, Lower(scope.owner), scope.repositories[0]);
    UnderAll(repositories, account);
  }

  lemma {:induction false} UnderHas(repositories: seq<string>, account: string, repository: string)
    requires repository in Under(repositories, account)
    ensures repository in repositories && Account(repository) == account
  {
    hide Account;
    if repositories != [] {
      var n := |repositories| - 1;
      if repository in Under(repositories[..n], account) {
        UnderHas(repositories[..n], account, repository);
      }
    }
  }

  /** A token GitHub minted, and when it says it expires. */
  datatype Minted = Minted(token: string, expires: Time)

  /** The App's installation on an account. */
  datatype Installation = Installation(login: string, id: int)

  /** What GitHub answers when asked for a token of an installation for
      repositories by these names. */
  type Mint = (int, seq<string>) -> Option<Minted>

  /** The installation on each account, by its login folded. */
  function Covering(installations: seq<Installation>): (covering: map<string, int>)
  {
    if installations == [] then map[]
    else
      var last, before := installations[|installations| - 1], Covering(installations[..|installations| - 1]);
      if last.login == "" then before else before[Lower(last.login) := last.id]
  }

  /** An account is covered exactly when an installation names it, by the last
      that does. */
  lemma {:induction false} CoversLast(installations: seq<Installation>, account: string)
    requires account != ""
    ensures account in Covering(installations) <==> exists i :: 0 <= i < |installations| && Lower(installations[i].login) == account
    ensures forall i ::
              0 <= i < |installations| && Lower(installations[i].login) == account
              && (forall j :: i < j < |installations| ==> Lower(installations[j].login) != account) ==>
                account in Covering(installations) && Covering(installations)[account] == installations[i].id
  {
    hide Lower;
    if installations != [] {
      var n := |installations| - 1;
      CoversLast(installations[..n], account);
      assert Lower(installations[n].login) != "" <==> installations[n].login != "" by {
        assert |Lower(installations[n].login)| == |installations[n].login|;
      }
    }
  }

  /** One owner's token: of the installation on that account, for exactly its
      repositories. */
  function MintFor(covering: map<string, int>, mint: Mint, scope: Scope): Option<Minted>
  {
    var account := Lower(scope.owner);
    if account in covering then mint(covering[account], Each(Called, scope.repositories)) else None
  }

  /** The last installation on an account, however its name is cased. */
  ghost predicate LastOn(installations: seq<Installation>, owner: string, i: int)
  {
    && 0 <= i < |installations| && Lower(installations[i].login) == Lower(owner)
    && forall j :: i < j < |installations| ==> Lower(installations[j].login) != Lower(owner)
  }

  /** An owner's token is asked of the last installation on it, by the names
      after the slash, and of none when no installation is. */
  lemma MintedByLast(installations: seq<Installation>, mint: Mint, scope: Scope, i: int, names: seq<string>)
    requires scope.owner != "" && LastOn(installations, scope.owner, i) && |names| == |scope.repositories|
    requires forall k :: 0 <= k < |names| ==> names[k] == Called(scope.repositories[k])
    ensures MintFor(Covering(installations), mint, scope) == mint(installations[i].id, names)
  {
    hide Lower, Called;
    OwnerFolds(scope.owner);
    CoversLast(installations, Lower(scope.owner));
    assert names == Each(Called, scope.repositories);
  }

  lemma MintedByNone(installations: seq<Installation>, mint: Mint, scope: Scope)
    requires scope.owner != "" && forall i :: 0 <= i < |installations| ==> Lower(installations[i].login) != Lower(scope.owner)
    ensures MintFor(Covering(installations), mint, scope) == None
  {
    hide Lower, Called;
    OwnerFolds(scope.owner);
    CoversLast(installations, Lower(scope.owner));
  }

  lemma OwnerFolds(owner: string)
    ensures owner != "" ==> Lower(owner) != ""
  {
    assert |Lower(owner)| == |owner|;
  }

  /** The runs of the scopes GitHub minted a token for, in order. */
  function MintedRuns(scope: seq<Scope>, covering: map<string, int>, mint: Mint): seq<Run>
  {
    if scope == [] then []
    else
      var last, before := scope[|scope| - 1], MintedRuns(scope[..|scope| - 1], covering, mint);
      before + match MintFor(covering, mint, last)
               case None => []
               case Some(minted) => [Run(last.owner, last.repositories, minted.token, minted.expires)]
  }

  /** A scope's run, by what was minted for it. */
  ghost predicate RunIs(covering: map<string, int>, mint: Mint, scope: Scope, run: Run)
  {
    run.owner == scope.owner && run.repositories == scope.repositories
    && MintFor(covering, mint, scope) == Some(Minted(run.token, run.expires))
  }

  /** Each scope a token was minted for has its run. */
  lemma {:induction false} RunIsThere(scope: seq<Scope>, covering: map<string, int>, mint: Mint, i: nat) returns (run: Run)
    requires i < |scope| && MintFor(covering, mint, scope[i]).Some?
    ensures run in MintedRuns(scope, covering, mint) && RunIs(covering, mint, scope[i], run)
    decreases |scope|
  {
    hide MintFor;
    var n := |scope| - 1;
    if i < n {
      run := RunIsThere(scope[..n], covering, mint, i);
    } else {
      var minted := MintFor(covering, mint, scope[n]).value;
      run := Run(scope[n].owner, scope[n].repositories, minted.token, minted.expires);
    }
  }

  /** Each run is of a scope, and runs are in the order of their scopes. */
  lemma {:induction false} RunIsMinted(scope: seq<Scope>, covering: map<string, int>, mint: Mint, k: nat, l: nat) returns (i: nat, j: nat)
    requires k <= l < |MintedRuns(scope, covering, mint)|
    ensures i <= j < |scope| && (k < l ==> i < j)
    ensures RunIs(covering, mint, scope[i], MintedRuns(scope, covering, mint)[k])
    ensures RunIs(covering, mint, scope[j], MintedRuns(scope, covering, mint)[l])
    decreases |scope|
  {
    hide MintFor;
    var n := |scope| - 1;
    var before := MintedRuns(scope[..n], covering, mint);
    if l < |before| {
      i, j := RunIsMinted(scope[..n], covering, mint, k, l);
    } else if k < |before| {
      i, j := RunIsMinted(scope[..n], covering, mint, k, k);
      j := n;
    } else {
      i, j := n, n;
    }
  }

  /** One token per owner; an owner that is refused is left out, and when every
      one is, or the installations cannot be listed, or the file cannot be
      written, nothing is handed off. */
  method MintEach(scope: seq<Scope>, listed: Option<seq<Installation>>, mint: Mint, writes: bool) returns (handoff: Option<Handoff>)
    ensures handoff.Some? <==> writes && listed.Some? && MintedRuns(scope, Covering(listed.value), mint) != []
    ensures handoff.Some? ==> handoff.value.runs == MintedRuns(scope, Covering(listed.value), mint)
  {
    if listed == None {
      return None;
    }
    var installations, covering := listed.value, map[];
    hide Lower, Each;
    for i := 0 to |installations|
      invariant covering == Covering(installations[..i])
    {
      assert installations[..i + 1][..i] == installations[..i];
      if installations[i].login != "" {
        covering := covering[Lower(installations[i].login) := installations[i].id];
      }
    }
    assert installations[..|installations|] == installations;
    var runs: seq<Run> := [];
    for i := 0 to |scope|
      invariant runs == MintedRuns(scope[..i], covering, mint)
    {
      assert scope[..i + 1][..i] == scope[..i];
      var minted := MintFor(covering, mint, scope[i]);
      if minted.Some? {
        runs := runs + [Run(scope[i].owner, scope[i].repositories, minted.value.token, minted.value.expires)];
      }
    }
    assert scope[..|scope|] == scope;
    return if runs == [] || !writes then None else Some(Handoff(runs));
  }

  /** The gap between the two checks: what is minted for a grant the host's
      check passes is a hand-off root parses exactly when its token is one line
      and every repository spells the owner as the first does, since that check
      folds case and the parse does not. */
  lemma MintedIsSound(repositories: seq<string>, mint: Minted)
    requires OneOwners(repositories)
    ensures var run := Run(Of(repositories[0]), repositories, mint.token, mint.expires);
            IsSound(Handoff([run])) <==>
              TokenShape(mint.token) && forall i :: 0 <= i < |repositories| ==> Of(repositories[i]) == Of(repositories[0])
  {
    hide Lower, Cut, OwnerShape, NameShape, TokenShape, Distinct;
    var handoff := Handoff([Run(Of(repositories[0]), repositories, mint.token, mint.expires)]);
    if TokenShape(mint.token) && forall i :: 0 <= i < |repositories| ==> Of(repositories[i]) == Of(repositories[0]) {
      assert AllOf(repositories, Of(repositories[0]));
      assert RunIsSound(handoff.runs[0]);
    } else {
      assert IsSound(handoff) ==> RunIsSound(handoff.runs[0]);
    }
  }

  // ----------------------------------------------------------- root's checks

  /** Every token is alive, and was minted within one token's life of now. */
  predicate Fresh(handoff: Handoff, now: Time)
  {
    forall i :: 0 <= i < |handoff.runs| ==> now < handoff.runs[i].expires <= now + TOKEN_LIFE + CLOCK_SKEW
  }

  /** Whether a hand-off is a grant's: for a placed one, one run of its
      repositories, each list sorted as spelled and then compared folded. */
  predicate Admits(grant: Grant, handoff: Handoff)
  {
    grant.planned
    || (|handoff.runs| == 1 && Folded(Sorted(handoff.runs[0].repositories)) == Folded(Sorted(grant.repositories)))
  }

  /** What a placed grant admits reaches its repositories and no other, up to
      case; and its repositories as it spells them, in any order, it admits. */
  lemma AdmitsItsOwn(grant: Grant, handoff: Handoff)
    requires !grant.planned
    ensures Admits(grant, handoff) ==>
              |handoff.runs| == 1 && multiset(Folded(handoff.runs[0].repositories)) == multiset(Folded(grant.repositories))
    ensures |handoff.runs| == 1 && multiset(handoff.runs[0].repositories) == multiset(grant.repositories) ==> Admits(grant, handoff)
  {
    if |handoff.runs| == 1 {
      var got := handoff.runs[0].repositories;
      EachAlike(Lower, got, Sorted(got));
      EachAlike(Lower, grant.repositories, Sorted(grant.repositories));
      SortedAlike(got, grant.repositories);
    }
  }

  /** Exactly what a placed grant admits: one run of its repositories, up to
      case, spelled so that the two lists order them alike. */
  lemma AdmitsExactly(grant: Grant, handoff: Handoff)
    requires !grant.planned && Distinct(grant.repositories) && forall run :: run in handoff.runs ==> Distinct(run.repositories)
    ensures Admits(grant, handoff) <==>
              |handoff.runs| == 1
              && multiset(Folded(handoff.runs[0].repositories)) == multiset(Folded(grant.repositories))
              && OrderedAlike(handoff.runs[0].repositories, grant.repositories)
  {
    if |handoff.runs| == 1 {
      assert handoff.runs[0] in handoff.runs;
      SortedFoldsAlike(handoff.runs[0].repositories, grant.repositories);
    }
  }

  /** And where no repository is named twice, however it is cased, that is to
      put every two repositories in the same order. */
  lemma AdmitsRecased(grant: Grant, got: seq<string>, handoff: Handoff)
    requires !grant.planned && Distinct(Folded(grant.repositories))
    requires |handoff.runs| == 1 && handoff.runs[0].repositories == got
    requires multiset(Folded(got)) == multiset(Folded(grant.repositories))
    ensures Admits(grant, handoff) <==> RecasedInOrder(got, grant.repositories)
  {
    var want := grant.repositories;
    DistinctAlike(Folded(want), Folded(got));
    DistinctFolded(want);
    DistinctFolded(got);
    SortedFoldsAlike(got, want);
    RecasedIsOrdered(got, want);
    hide Sorted, Lower, Folded, Distinct, RecasedInOrder, OrderedAlike;
  }

  const SPELLED := ["o/a", "o/B"]
  const CASED := ["o/a", "o/b"]

  /** The same repositories cased otherwise may be refused: sorted as spelled,
      the two lists need not pair up. The grant passes the host's check, and
      the hand-off the parse and the check of its life. */
  lemma AdmitsByOrder()
    ensures var grant := Grant("a", SPELLED, map["contents" := "read"], Clean([RUN, "a", "b"]), false);
            var handoff := Handoff([Run("o", CASED, "t", 1)]);
            && GrantIsSound(grant) && IsSound(handoff) && Fresh(handoff, 0)
            && multiset(Folded(CASED)) == multiset(Folded(SPELLED)) && !Admits(grant, handoff)
  {
    SpelledSorts();
    CasedFolds();
    SpelledIsSound();
    hide Sorted, Lower, Folded, Each, SPELLED, CASED, GrantIsSound, IsSound;
  }

  lemma SpelledIsSound()
    ensures GrantIsSound(Grant("a", SPELLED, map["contents" := "read"], Clean([RUN, "a", "b"]), false))
    ensures IsSound(Handoff([Run("o", CASED, "t", 1)]))
  {
    SpelledIsOnes();
    SpelledIsPlaceable();
    SpelledIsNamed();
    ReadIsPermitted();
    OneLetter('o');
    OneLetter('t');
    assert ['o'] == "o" && ['t'] == "t" && |"o"| == 1;
    hide OwnerShape, TokenShape, NameShape;
    hide SPELLED, CASED, Distinct, AllOf, Placeable, GrantNamed, Permitted, UPDATES, OneOwners;
    assert RunIsSound(Run("o", CASED, "t", 1));
  }

  lemma SpelledIsOnes()
    ensures OneOwners(SPELLED) && Distinct(CASED) && AllOf(CASED, "o")
  {
    OfOne('a');
    OfOne('b');
    OfOne('B');
    assert "o/" + ['a'] == "o/a" && "o/" + ['b'] == "o/b" && "o/" + ['B'] == "o/B";
    assert SPELLED[0][2] != SPELLED[1][2] && CASED[0][2] != CASED[1][2];
    hide *;
    OnesPair(SPELLED, "o/a", "o/B", 'o');
    OnesPair(CASED, "o/a", "o/b", 'o');
    assert ['o'] == "o";
  }

  lemma OnesPair(repositories: seq<string>, one: string, other: string, owner: char)
    requires repositories == [one, other] && one != other && 'a' <= owner <= 'z'
    requires Of(one) == Of(other) == [owner] && NameShape(Called(one)) && NameShape(Called(other))
    ensures OneOwners(repositories) && Distinct(repositories) && AllOf(repositories, [owner])
  {
    OneLetter(owner);
    hide Of, Called, Lower, NameShape, OwnerShape;
  }

  lemma OfOne(c: char)
    requires 'a' <= c <= 'z' || 'A' <= c <= 'Z'
    ensures Of("o/" + [c]) == "o" && NameShape(Called("o/" + [c]))
  {
    OneLetter(c);
    CutJoined("o", '/', [c]);
    assert "o" + ['/'] + [c] == "o/" + [c];
    hide Cut, NameShape;
  }

  lemma OneLetter(c: char)
    requires 'a' <= c <= 'z' || 'A' <= c <= 'Z'
    ensures OwnerShape([c]) && NameShape([c]) && TokenShape([c])
  {
    var text := [c];
    assert |text| == 1 && text[0] == c && |".."| == 2;
    assert Alphanumeric(text[0]) && '!' <= text[0] <= '~';
    assert text != ".";
    assert text != "..";
    assert NameShape(text);
    assert OwnerShape(text);
  }

  lemma ReadIsPermitted()
    ensures Permitted(map["contents" := "read"])
  {
    var permissions := map["contents" := "read"];
    assert "contents" in permissions;
    assert "contents"[0] == 'c';
  }

  lemma SpelledIsPlaceable()
    ensures Placeable(Clean([RUN, "a", "b"]))
  {
    var parts := [RUN, "a", "b"];
    assert parts[1][0] == 'a' && parts[2][0] == 'b';
    forall i | 0 <= i < |RESERVED|
      ensures !([RUN, RESERVED[i]] <= parts)
    {
      assert RESERVED[i][0] == 's';
      assert [RUN, RESERVED[i]][1] == RESERVED[i];
    }
  }

  lemma SpelledIsNamed()
    ensures GrantNamed("a") && "a" != UPDATES
  {
    OneLetter('a');
    assert ['a'] == "a" && Lower("a") == "a";
    assert |"a"| == 1 && |UPDATES| > 1;
  }

  lemma SpelledSorts()
    ensures Sorted(SPELLED) == ["o/B", "o/a"] && Sorted(CASED) == CASED
  {
    FirstDiffers("o/", 'B', 'a');
    FirstDiffers("o/", 'a', 'b');
    assert "o/" + "B" == "o/B" && "o/" + "a" == "o/a" && "o/" + "b" == "o/b";
    SortedPair("o/a", "o/B");
    SortedPair("o/a", "o/b");
    hide AtMost, Sorted;
  }

  lemma CasedFolds()
    ensures Folded(SPELLED) == Folded(CASED) == CASED && Folded(["o/B", "o/a"]) != CASED
  {
    FoldedPair("o/a", "o/b");
    FoldedPair("o/a", "o/B");
    FoldedPair("o/B", "o/a");
    assert Lower("o/a") == "o/a" && Lower("o/b") == "o/b" && Lower("o/B") == "o/b";
    hide Lower, Folded;
    assert ["o/a", "o/b"][0][2] != ["o/b", "o/a"][0][2];
  }

  lemma FoldedPair(one: string, other: string)
    ensures Folded([one, other]) == [Lower(one), Lower(other)]
  {
    hide Lower;
  }

  lemma {:induction false} FirstDiffers(head: string, one: char, other: char)
    requires one < other
    ensures AtMost(head + [one], head + [other]) && !AtMost(head + [other], head + [one])
  {
    var low, high := head + [one], head + [other];
    if head != [] {
      assert low[1..] == head[1..] + [one] && high[1..] == head[1..] + [other];
      FirstDiffers(head[1..], one, other);
    }
  }

  lemma SortedPair(one: string, other: string)
    ensures Sorted([one, other]) == if AtMost(one, other) then [one, other] else [other, one]
  {
    hide AtMost;
    assert [one, other][1..] == [other] && [other][1..] == [];
    assert Sorted([other]) == Inserted(Sorted([]), other) == [other];
    assert Inserted([], one) == [one];
    assert [other] + [one] == [other, one] && [one] + [other] == [one, other];
  }
}
