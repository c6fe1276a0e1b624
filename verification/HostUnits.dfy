/** A release's tree, the units among its files, and what systemd's directory
    holds of them after an install. */
module HostUnits {

  // Names, contents and references are compared whole, never taken apart
  // outside the predicates below.
  datatype Bytes = Bytes(text: string)
  datatype UnitName = Named(text: string)
  datatype Image = Image(reference: string)

  /** A path in the tree: under its unit directory, one of the two files that
      say where the tree came from, or anything else. */
  datatype Path = Unit(name: UnitName) | Source | SyncedAt | Other(place: string)

  type Tree = map<Path, Bytes>

  const PROVENANCE: set<Path> := {Source, SyncedAt}

  predicate HasSuffix(name: string, suffix: string)
  {
    |suffix| <= |name| && name[|name| - |suffix|..] == suffix
  }

  const UNIT_SUFFIXES := [".service", ".socket", ".mount", ".automount", ".swap", ".target", ".path", ".timer", ".slice"]

  predicate IsUnit(name: UnitName)
  {
    exists i :: 0 <= i < |UNIT_SUFFIXES| && HasSuffix(name.text, UNIT_SUFFIXES[i])
  }

  /** A drop-in: one directory down, in a directory ending in `.d`, ending in `.conf`. */
  predicate IsDropIn(name: UnitName)
  {
    exists i :: 0 <= i < |name.text| && name.text[i] == '/' && '/' !in name.text[..i] && '/' !in name.text[i + 1..]
             && HasSuffix(name.text[..i], ".d") && HasSuffix(name.text[i + 1..], ".conf")
  }

  predicate Nested(name: UnitName)
  {
    '/' in name.text
  }

  /** What an install places: whole units and the drop-ins in a unit's own
      directory, so never a file ending in `.example`. */
  predicate Ships(name: UnitName)
  {
    (!Nested(name) && IsUnit(name)) || IsDropIn(name)
  }

  /** A unit ships, and so does a drop-in; an example of either does not. */
  lemma WhatShips(folder: string, stem: string, suffix: string)
    requires '/' !in folder && '/' !in stem && suffix in UNIT_SUFFIXES
    ensures Ships(Named(stem + suffix)) && !Nested(Named(stem + suffix))
    ensures var name := Named(folder + ".d" + "/" + stem + ".conf"); Ships(name) && Nested(name)
    ensures !Ships(Named(stem + suffix + ".example"))
  {
    var i :| 0 <= i < |UNIT_SUFFIXES| && UNIT_SUFFIXES[i] == suffix;
    SuffixIs(i);
    DropInShips(folder, stem);
    NoExample(stem + suffix);
    hide UNIT_SUFFIXES, IsDropIn;
    assert HasSuffix(stem + suffix, UNIT_SUFFIXES[i]);
    assert IsUnit(Named(stem + suffix));
    var name := folder + ".d" + "/" + stem + ".conf";
    assert name[|folder| + 2] == '/';
  }

  lemma SuffixIs(i: nat)
    requires i < |UNIT_SUFFIXES|
    ensures var suffix := UNIT_SUFFIXES[i]; |suffix| >= 5 && '/' !in suffix && suffix[|suffix| - 2] != 'l'
  {
    var suffix := UNIT_SUFFIXES[i];
    assert i < 9;
  }

  lemma NoExample(stem: string)
    requires '/' !in stem
    ensures !Ships(Named(stem + ".example"))
  {
    var example := stem + ".example";
    forall i | 0 <= i < |UNIT_SUFFIXES|
      ensures !HasSuffix(example, UNIT_SUFFIXES[i])
    {
      SuffixIs(i);
      OtherEnd(example, UNIT_SUFFIXES[i]);
    }
    hide UNIT_SUFFIXES, HasSuffix;
    assert '/' !in ".example";
    assert '/' !in example;
  }

  lemma OtherEnd(text: string, suffix: string)
    requires |text| >= 2 && |suffix| >= 2 && text[|text| - 2] != suffix[|suffix| - 2]
    ensures !HasSuffix(text, suffix)
  {
  }

  lemma DropInShips(folder: string, stem: string)
    requires '/' !in folder && '/' !in stem
    ensures IsDropIn(Named(folder + ".d" + "/" + stem + ".conf"))
  {
    var text := folder + ".d" + "/" + stem + ".conf";
    var i := |folder| + 2;
    assert text[i] == '/';
    assert text[..i] == folder + ".d";
    assert text[i + 1..] == stem + ".conf";
  }

  /** And nothing else does. */
  lemma OnlyTheseShip(name: UnitName) returns (folder: string, stem: string, suffix: string)
    requires Ships(name)
    ensures '/' !in folder && '/' !in stem
    ensures if Nested(name) then name.text == folder + ".d" + "/" + stem + ".conf" else name.text == stem + suffix && suffix in UNIT_SUFFIXES
  {
    hide UNIT_SUFFIXES;
    folder, stem, suffix := "", "", "";
    if Nested(name) {
      folder, stem := DropInIs(name);
    } else {
      var i :| 0 <= i < |UNIT_SUFFIXES| && HasSuffix(name.text, UNIT_SUFFIXES[i]);
      suffix := UNIT_SUFFIXES[i];
      stem := name.text[..|name.text| - |suffix|];
      assert name.text == stem + suffix;
    }
  }

  lemma DropInIs(name: UnitName) returns (folder: string, stem: string)
    requires IsDropIn(name)
    ensures '/' !in folder && '/' !in stem && name.text == folder + ".d" + "/" + stem + ".conf"
  {
    hide HasSuffix;
    var i :| 0 <= i < |name.text| && name.text[i] == '/' && '/' !in name.text[..i] && '/' !in name.text[i + 1..]
             && HasSuffix(name.text[..i], ".d") && HasSuffix(name.text[i + 1..], ".conf");
    var before, after := name.text[..i], name.text[i + 1..];
    folder := Stem(before, ".d");
    stem := Stem(after, ".conf");
    assert name.text == before + "/" + after;
    Joined(name.text, before, "/", after, folder, ".d", stem, ".conf");
  }

  lemma Stem(text: string, suffix: string) returns (stem: string)
    requires HasSuffix(text, suffix)
    ensures text == stem + suffix && forall c :: c in stem ==> c in text
  {
    stem := text[..|text| - |suffix|];
  }

  lemma Joined(text: string, before: string, slash: string, after: string, folder: string, dot: string, stem: string, end: string)
    requires text == before + slash + after && before == folder + dot && after == stem + end
    ensures text == folder + dot + slash + stem + end
  {
  }

  function Shipped(tree: Tree): (names: set<UnitName>)
    ensures forall name :: name in names <==> Unit(name) in tree && Ships(name)
  {
    set path | path in tree && path.Unit? && Ships(path.name) :: path.name
  }

  const PREFIX := "severino-hq"

  /** The names a snapshot covers. A shipped name may be outside it, as
      SECRETS_MOUNT is. */
  predicate Ours(name: UnitName)
  {
    PREFIX <= name.text
  }

  function OursIn(units: map<UnitName, Bytes>): map<UnitName, Bytes>
  {
    map name | name in units && Ours(name) :: units[name]
  }

  const WEB := Named("severino-hq-web.service")
  const SECRETS := Named("severino-hq-secrets.service")
  const SECRETS_MOUNT := Named("run-severino\\x2dhq\\x2dsecrets" + ".mount")
  const LEFTOVERS: set<UnitName> := {
    Named(PREFIX + "-backup.service.d/10-root-owned-exec.conf"),
    Named(PREFIX + "-controller.service.d/10-root-owned-exec.conf"),
    Named(PREFIX + "-secrets.service.d/10-root-owned-exec.conf")
  }

  lemma LeftoversAreOurs()
    ensures forall name :: name in LEFTOVERS ==> Ours(name)
  {
  }

  /** Every drop-in of the shipped names, and the named unit. */
  function WithDropIns(shipped: seq<UnitName>, unit: UnitName): (kept: seq<UnitName>)
    ensures forall name :: name in kept <==> name in shipped && (Nested(name) || name == unit)
  {
    if shipped == [] then []
    else if !Nested(shipped[0]) && shipped[0] != unit then WithDropIns(shipped[1..], unit)
    else [shipped[0]] + WithDropIns(shipped[1..], unit)
  }

  /** The shipped names left for after the render. */
  function Rest(shipped: seq<UnitName>, render: seq<UnitName>): (kept: seq<UnitName>)
    ensures forall name :: name in kept <==> name in shipped && name !in render
  {
    if shipped == [] then []
    else if shipped[0] in render then Rest(shipped[1..], render)
    else [shipped[0]] + Rest(shipped[1..], render)
  }

  /** The units of ours, drop-ins aside, that are no longer shipped. */
  function Retired(shipped: set<UnitName>, units: map<UnitName, Bytes>): (names: set<UnitName>)
    ensures forall name :: name in names <==> name in units && Ours(name) && !Nested(name) && IsUnit(name) && name !in shipped
  {
    set name | name in units && Ours(name) && !Nested(name) && IsUnit(name) && name !in shipped
  }

  /** The unit directory after a committed install of a tree. */
  function Installed(units: map<UnitName, Bytes>, tree: Tree): map<UnitName, Bytes>
  {
    var shipped := Shipped(tree);
    var placed := units + map name | name in shipped :: tree[Unit(name)];
    placed - Retired(shipped, placed) - (LEFTOVERS - shipped)
  }

  /** The tree a sync leaves: the image's files, and where they came from. */
  function Synced(held: Tree, id: string, at: string): Tree
  {
    held[Source := Bytes(id)][SyncedAt := Bytes(at)]
  }

  // ------------------------------------------------------------------ verify

  datatype Finding =
    | OtherSource
    | Missing(path: Path)
    | Differs(path: Path)
    | NotTheImages(path: Path)
    | UnitDiffers(name: UnitName)
    | NotShipped(name: UnitName)
    | InstalledByNone(program: string)
    | RunnerMay(said: string)

  /** What is to be said of two trees: each file only one of them has, and each
      whose bytes differ; the two files that record the tree's origin are not
      held against it. */
  predicate TreeDiffers(want: Tree, have: Tree, finding: Finding)
  {
    match finding
    case Missing(path) => path in want && path !in have
    case Differs(path) => path in want && path in have && want[path] != have[path]
    case NotTheImages(path) => path in have && path !in want && path !in PROVENANCE
    case _ => false
  }

  method CompareTrees(want: Tree, have: Tree) returns (drift: set<Finding>)
    ensures forall finding :: finding in drift <==> TreeDiffers(want, have, finding)
  {
    drift := {};
    var left := want.Keys;
    while left != {}
      invariant left <= want.Keys
      invariant forall finding :: finding in drift <==>
                TreeDiffers(want, have, finding) && !finding.NotTheImages? && finding.path !in left
      decreases left
    {
      var path :| path in left;
      left := left - {path};
      if path !in have {
        drift := drift + {Missing(path)};
      } else if want[path] != have[path] {
        drift := drift + {Differs(path)};
      }
    }
    left := have.Keys;
    while left != {}
      invariant left <= have.Keys
      invariant forall finding :: finding in drift <==>
                TreeDiffers(want, have, finding) && (finding.NotTheImages? ==> finding.path !in left)
      decreases left
    {
      var path :| path in left;
      left := left - {path};
      if path !in want && path != Source && path != SyncedAt {
        drift := drift + {NotTheImages(path)};
      }
    }
  }

  /** Nothing is said exactly when the trees agree apart from those two files. */
  lemma TreesAgree(want: Tree, have: Tree)
    ensures (forall finding :: !TreeDiffers(want, have, finding)) <==>
              want.Keys <= have.Keys <= want.Keys + PROVENANCE && forall path :: path in want && path in have ==> want[path] == have[path]
  {
    if forall finding :: !TreeDiffers(want, have, finding) {
      assert forall path :: path in want ==> !TreeDiffers(want, have, Missing(path)) && !TreeDiffers(want, have, Differs(path));
      assert forall path :: path in have ==> !TreeDiffers(want, have, NotTheImages(path));
    }
  }

  predicate UnitsDiffer(tree: Tree, units: map<UnitName, Bytes>, finding: Finding)
  {
    match finding
    case UnitDiffers(name) => name in Shipped(tree) && (name !in units || units[name] != tree[Unit(name)])
    case NotShipped(name) => name in Retired(Shipped(tree), units)
    case _ => false
  }

  lemma UnitsAgree(tree: Tree, units: map<UnitName, Bytes>)
    ensures (forall finding :: !UnitsDiffer(tree, units, finding)) <==>
              (forall name :: name in Shipped(tree) ==> name in units && units[name] == tree[Unit(name)])
              && Retired(Shipped(tree), units) == {}
  {
    if forall finding :: !UnitsDiffer(tree, units, finding) {
      assert forall name :: name in Shipped(tree) ==> !UnitsDiffer(tree, units, UnitDiffers(name));
      assert forall name :: name in Retired(Shipped(tree), units) ==> UnitsDiffer(tree, units, NotShipped(name));
    }
  }

  predicate SourceDiffers(id: string, tree: Tree, finding: Finding)
  {
    finding == OtherSource && !(Source in tree && tree[Source] == Bytes(id))
  }

  /** A program of ours where no release installs one any more, and whatever is
      said of the runner's own rules. */
  predicate Foreign(programs: set<string>, rules: set<string>, finding: Finding)
  {
    match finding
    case InstalledByNone(program) => program in programs && PREFIX + "-" <= program
    case RunnerMay(said) => said in rules
    case _ => false
  }

  lemma SilenceIsClean(id: string, held: Tree, tree: Tree, units: map<UnitName, Bytes>)
    ensures (forall finding :: !TreeDiffers(held, tree, finding) && !UnitsDiffer(tree, units, finding) && !SourceDiffers(id, tree, finding))
            <==> Clean(id, held, tree, units)
  {
    TreesAgree(held, tree);
    UnitsAgree(tree, units);
    hide TreeDiffers, UnitsDiffer, Shipped, Retired;
    assert SourceDiffers(id, tree, OtherSource) <==> !(Source in tree && tree[Source] == Bytes(id));
  }

  lemma NothingForeign(programs: set<string>, rules: set<string>)
    ensures (forall finding :: !Foreign(programs, rules, finding)) <==>
              rules == {} && forall program :: program in programs ==> !(PREFIX + "-" <= program)
  {
    if forall finding :: !Foreign(programs, rules, finding) {
      assert forall program :: program in programs ==> !Foreign(programs, rules, InstalledByNone(program));
      assert forall said :: said in rules ==> Foreign(programs, rules, RunnerMay(said));
    }
  }

  /** What a host is verified for: `id` is the image HQ runs, `held` what that
      image holds, `programs` what is where releases once installed programs,
      and `rules` what is to be said of the runner's. Each difference is said,
      and nothing exactly when the host is what its release says. */
  method Verify(id: string, held: Tree, tree: Tree, units: map<UnitName, Bytes>, programs: set<string>, rules: set<string>)
    returns (drift: set<Finding>)
    ensures forall finding :: finding in drift <==>
              TreeDiffers(held, tree, finding) || UnitsDiffer(tree, units, finding) || SourceDiffers(id, tree, finding)
              || Foreign(programs, rules, finding)
    ensures drift == {} <==>
              Clean(id, held, tree, units) && rules == {} && forall program :: program in programs ==> !(PREFIX + "-" <= program)
  {
    drift := CompareTrees(held, tree);
    if Source !in tree || tree[Source] != Bytes(id) {
      drift := drift + {OtherSource};
    }
    var differs := CompareUnits(tree, units);
    drift := drift + differs + (set program | program in programs && PREFIX + "-" <= program :: InstalledByNone(program))
             + set said | said in rules :: RunnerMay(said);
    hide TreeDiffers, UnitsDiffer, SourceDiffers, Foreign, Clean;
    SilenceIsClean(id, held, tree, units);
    NothingForeign(programs, rules);
  }

  method CompareUnits(tree: Tree, units: map<UnitName, Bytes>) returns (drift: set<Finding>)
    ensures forall finding :: finding in drift <==> UnitsDiffer(tree, units, finding)
  {
    drift := {};
    var shipped := Shipped(tree);
    var left := shipped;
    while left != {}
      invariant left <= shipped
      invariant forall finding :: finding in drift <==>
                UnitsDiffer(tree, units, finding) && finding.UnitDiffers? && finding.name !in left
      decreases left
    {
      var name :| name in left;
      left := left - {name};
      if name !in units || units[name] != tree[Unit(name)] {
        drift := drift + {UnitDiffers(name)};
      }
    }
    left := Retired(shipped, units);
    while left != {}
      invariant left <= Retired(shipped, units)
      invariant forall finding :: finding in drift <==>
                UnitsDiffer(tree, units, finding) && (finding.NotShipped? ==> finding.name !in left)
      decreases left
    {
      var name :| name in left;
      left := left - {name};
      drift := drift + {NotShipped(name)};
    }
  }

  /** The tree and the units are the image's, and so is the recorded origin. */
  ghost predicate Clean(id: string, held: Tree, tree: Tree, units: map<UnitName, Bytes>)
  {
    && Source in tree && tree[Source] == Bytes(id)
    && held.Keys <= tree.Keys <= held.Keys + PROVENANCE
    && (forall path :: path in held ==> held[path] == tree[path])
    && (forall name :: name in Shipped(tree) ==> name in units && units[name] == tree[Unit(name)])
    && Retired(Shipped(tree), units) == {}
  }

  /** A host just synced and installed verifies clean, whatever units it held. */
  lemma SyncedAndInstalledIsClean(held: Tree, id: string, at: string, units: map<UnitName, Bytes>)
    requires held.Keys !! PROVENANCE
    ensures Clean(id, held, Synced(held, id, at), Installed(units, Synced(held, id, at)))
  {
    var tree := Synced(held, id, at);
    var shipped := Shipped(tree);
    var placed := units + map name | name in shipped :: tree[Unit(name)];
    var after := Installed(units, tree);
    assert forall name :: name in shipped ==> name in placed && placed[name] == tree[Unit(name)];
    assert forall name :: name in shipped ==> name !in Retired(shipped, placed) && name !in LEFTOVERS - shipped;
    assert forall name :: name in Retired(shipped, after) ==> name in Retired(shipped, placed);
  }

  /** And it stays clean only while the units it ships are left alone: losing
      or changing any of them is a finding. */
  lemma ChangedUnitIsFound(id: string, held: Tree, tree: Tree, units: map<UnitName, Bytes>, name: UnitName, bytes: Bytes)
    requires Clean(id, held, tree, units) && name in Shipped(tree)
    ensures !Clean(id, held, tree, units - {name})
    ensures bytes != tree[Unit(name)] ==> !Clean(id, held, tree, units[name := bytes])
  {
  }

  /** What an install takes away: the leftovers and every unit of ours at the
      top level, unless they are shipped. */
  predicate TakenAway(name: UnitName)
  {
    name in LEFTOVERS || (Ours(name) && !Nested(name) && IsUnit(name))
  }

  /** An install leaves every shipped name as shipped, nothing it takes away
      that is not shipped, and every other name as it was. */
  lemma InstalledHolds(units: map<UnitName, Bytes>, tree: Tree, name: UnitName)
    ensures name in Shipped(tree) ==> name in Installed(units, tree) && Installed(units, tree)[name] == tree[Unit(name)]
    ensures name !in Shipped(tree) && TakenAway(name) ==> name !in Installed(units, tree)
    ensures name !in Shipped(tree) && !TakenAway(name) ==> (name in Installed(units, tree) <==> name in units)
    ensures name !in Shipped(tree) && !TakenAway(name) && name in units ==> Installed(units, tree)[name] == units[name]
  {
  }

  /** A name that an install of the first tree wrote, which was not there so
      before, and that one of the second neither ships nor takes away. */
  predicate Lingers(units: map<UnitName, Bytes>, first: Tree, second: Tree, name: UnitName)
  {
    name in Shipped(first) && name !in Shipped(second) && !TakenAway(name)
    && !(name in units && units[name] == first[Unit(name)])
  }

  predicate Alike(once: map<UnitName, Bytes>, twice: map<UnitName, Bytes>, name: UnitName)
  {
    (name in once <==> name in twice) && (name in once ==> once[name] == twice[name])
  }

  lemma LingersOrAlike(units: map<UnitName, Bytes>, first: Tree, second: Tree, name: UnitName)
    ensures Alike(Installed(units, second), Installed(Installed(units, first), second), name) <==> !Lingers(units, first, second, name)
  {
    InstalledHolds(units, first, name);
    InstalledHolds(units, second, name);
    InstalledHolds(Installed(units, first), second, name);
    hide Installed, Shipped, TakenAway;
  }

  /** Releasing one tree over another forgets the first exactly when none of its
      names lingers: a drop-in, or a unit without the prefix, that a release
      drops is left behind. */
  lemma DroppedIsForgotten(units: map<UnitName, Bytes>, first: Tree, second: Tree)
    ensures Installed(Installed(units, first), second) == Installed(units, second) <==>
              forall name :: !Lingers(units, first, second, name)
  {
    var once, twice := Installed(units, second), Installed(Installed(units, first), second);
    forall name
      ensures Alike(once, twice, name) <==> !Lingers(units, first, second, name)
    {
      LingersOrAlike(units, first, second, name);
    }
    AlikeThroughout(once, twice);
  }

  lemma AlikeThroughout(once: map<UnitName, Bytes>, twice: map<UnitName, Bytes>)
    ensures twice == once <==> forall name :: Alike(once, twice, name)
  {
    if forall name :: Alike(once, twice, name) {
      assert forall name :: name in once ==> Alike(once, twice, name);
      assert forall name :: name in twice ==> Alike(once, twice, name);
    }
  }

  /** Installing what is installed changes nothing. */
  lemma InstalledAgain(units: map<UnitName, Bytes>, tree: Tree)
    ensures Installed(Installed(units, tree), tree) == Installed(units, tree)
  {
    DroppedIsForgotten(units, tree, tree);
  }

  /** The name is a unit's, so a tree that holds it ships it; and it is not
      ours, so no snapshot covers it and it is never retired. */
  lemma TheSecretsMountIsNotOurs()
    ensures Ships(SECRETS_MOUNT) && !Ours(SECRETS_MOUNT)
  {
    var text := "run-severino\\x2dhq\\x2dsecrets" + ".mount";
    assert text[|text| - 6..] == ".mount" == UNIT_SUFFIXES[2];
    assert HasSuffix(text, UNIT_SUFFIXES[2]);
    assert IsUnit(Named(text));
    hide IsUnit, IsDropIn, HasSuffix;
    assert forall i :: 0 <= i < |text| ==> text[i] != '/';
    assert !Nested(Named(text));
    assert text[0] == 'r' && PREFIX[0] == 's';
  }
}
