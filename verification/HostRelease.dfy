/** A release: the second half of a deploy, which replaces the tree, the units,
    the record and possibly the database's schema, and puts all of them back
    when a step fails. Every command is an oracle: it does what it is for, or
    fails, as it likes. */
module HostRelease {
  import opened Basics
  import opened HostUnits

  // --------------------------------------------------------------- outcomes

  datatype Outcome = Live | LiveCheckFailed | RollbackFailed | NotDeployed

  /** An error value: a message, one wrapped by another, several joined, or one
      that carries the outcome a deploy ended in. */
  datatype Error =
    | Message
    | Wrapped(inner: Error)
    | Joined(first: Error, second: Error)
    | Carrying(outcome: Outcome, inner: Error)

  /** The first error of the chain, outermost first, that carries an outcome. */
  function Carried(error: Error): Option<Outcome>
  {
    match error
    case Message => None
    case Wrapped(inner) => Carried(inner)
    case Joined(first, second) => if Carried(first).Some? then Carried(first) else Carried(second)
    case Carrying(outcome, _) => Some(outcome)
  }

  function OutcomeOf(error: Option<Error>): Outcome
  {
    if error == None then Live
    else if Carried(error.value).Some? then Carried(error.value).value
    else NotDeployed
  }

  /** A failure no step of which carried an outcome is not deployed, however
      it is wrapped and joined. */
  predicate Plain(error: Error)
  {
    match error
    case Message => true
    case Wrapped(inner) => Plain(inner)
    case Joined(first, second) => Plain(first) && Plain(second)
    case Carrying(_, _) => false
  }

  lemma {:induction false} PlainIsNotDeployed(error: Error)
    ensures Plain(error) <==> Carried(error) == None
    ensures Plain(error) ==> OutcomeOf(Some(error)) == NotDeployed
  {
    match error
    case Message =>
    case Wrapped(inner) => PlainIsNotDeployed(inner);
    case Joined(first, second) => PlainIsNotDeployed(first); PlainIsNotDeployed(second);
    case Carrying(_, _) =>
  }

  /** What a release answers: of its check, once it stands; of its rollback, once
      it was given up; or that it never began. */
  function OfCheck(passed: bool): (error: Option<Error>)
    ensures OutcomeOf(error) == if passed then Live else LiveCheckFailed
  {
    if passed then None else Some(Carrying(LiveCheckFailed, Wrapped(Message)))
  }

  function OfRollback(worked: bool): (error: Option<Error>)
    ensures OutcomeOf(error) == if worked then NotDeployed else RollbackFailed
  {
    var failed := Wrapped(Message);
    assert Carried(failed) == None;
    Some(if worked then failed else Carrying(RollbackFailed, Joined(failed, Message)))
  }

  function NotBegun(): (error: Option<Error>)
    ensures OutcomeOf(error) == NotDeployed
  {
    assert Carried(Message) == None;
    Some(Message)
  }

  // --------------------------------------------------------------- the host

  /** The database as a schema and whatever HQ has written to it. */
  datatype Database = Database(schema: nat, rows: nat)

  /** The schema of a database nothing was applied to yet, which no release
      could run on. */
  const UNAPPLIED := 0

  /** The copy a boot keeps before it migrates, and which boot kept it. */
  datatype Copy = Copy(database: Database, boot: nat)

  /** What a release does, in order, as far as its promises speak of it. */
  datatype Event =
    | Start(name: UnitName)
    | Restart(schema: nat)
    | Restored(copy: Copy)
    | DropKept
    | Checked(passed: bool)
    | RollBack

  /** The commands and the changes of files a release is made of. */
  datatype Step =
    | Rehearse
    | ListUnits | StopHeld | AwaitRuns | StartHeld(name: UnitName)
    | ReadUnits | CopyTree | NameSnapshot | RemoveSnapshot
    | InspectImage | StageTree | ExtractTree | SealTree | ResolveUnits | RecordSource | ClearAside
    | MoveAside | MoveIn | MoveBack | RemoveAside
    | PutUnit(name: UnitName) | RemoveUnit(name: UnitName) | Reload
    | WriteRecord | PrepareSeal
    | StartWeb | KeepDatabase | Migrate | Answer
    | CheckVerifier | VerifyUnits | Render | CheckConnections | PreflightController | PreflightContent
    | AskWeb(up: bool) | InspectRunning | EnableUnits | Tidy | AnswerInstall
    | StopWeb | PutDatabase | RemoveLogs
    | DropSnapshot | CheckDrift

  datatype Ran = Ran(step: Step, ok: bool)

  type Steps = seq<Step>

  /** These steps were taken, in this order, whatever was done between them. */
  predicate Did(ran: seq<Ran>, wanted: Steps)
    decreases |ran|
  {
    wanted == []
    || (ran != []
        && (Did(ran[..|ran| - 1], wanted)
            || (ran[|ran| - 1] == Ran(wanted[|wanted| - 1], true) && Did(ran[..|ran| - 1], wanted[..|wanted| - 1]))))
  }

  lemma {:induction false} DidBoth(first: seq<Ran>, second: seq<Ran>, one: Steps, other: Steps)
    requires Did(first, one) && Did(second, other)
    ensures Did(first + second, one + other)
    decreases |second|
  {
    var whole := first + second;
    if second == [] {
      assert whole == first && one + other == one;
    } else {
      var fewer := second[..|second| - 1];
      assert whole[..|whole| - 1] == first + fewer;
      if Did(fewer, other) {
        DidBoth(first, fewer, one, other);
      } else {
        assert (one + other)[..|one + other| - 1] == one + other[..|other| - 1];
        DidBoth(first, fewer, one, other[..|other| - 1]);
      }
    }
  }

  /** The journal went on, and by these steps. */
  predicate Went(was: seq<Ran>, now: seq<Ran>, wanted: Steps)
  {
    was <= now && Did(now[|was|..], wanted)
  }

  /** A step was at least tried. */
  predicate Tries(was: seq<Ran>, now: seq<Ran>, step: Step)
  {
    was <= now && exists ok :: Ran(step, ok) in now[|was|..]
  }

  lemma WentOn(was: seq<Ran>, middle: seq<Ran>, now: seq<Ran>, one: Steps, other: Steps)
    requires Went(was, middle, one) && Went(middle, now, other)
    ensures Went(was, now, one + other)
  {
    assert now[|was|..] == middle[|was|..] + now[|middle|..];
    DidBoth(middle[|was|..], now[|middle|..], one, other);
  }

  /** One part after another: as far as both worked. */
  lemma WentMore(was: seq<Ran>, middle: seq<Ran>, now: seq<Ran>, one: Steps, other: Steps, ok: bool)
    requires Went(was, middle, one) && Went(middle, now, []) && (ok ==> Went(middle, now, other))
    ensures Went(was, now, []) && Went(was, now, one) && (ok ==> Went(was, now, one + other))
  {
    WentOn(was, middle, now, one, []);
    assert one + [] == one;
    if ok {
      WentOn(was, middle, now, one, other);
    }
  }

  /** The same after a part that is not asked about. */
  lemma WentNext(was: seq<Ran>, middle: seq<Ran>, now: seq<Ran>, other: Steps, ok: bool)
    requires Went(was, middle, []) && Went(middle, now, []) && (ok ==> Went(middle, now, other))
    ensures Went(was, now, []) && (ok ==> Went(was, now, other))
  {
    WentMore(was, middle, now, [], other, ok);
    assert [] + other == other;
  }

  lemma WentOnward(was: seq<Ran>, now: seq<Ran>)
    requires Went(was, now, [])
    ensures |was| <= |now|
  {
  }

  lemma WentNowhere(journal: seq<Ran>)
    ensures Went(journal, journal, [])
  {
  }

  lemma WentOne(was: seq<Ran>, step: Step, ok: bool)
    ensures var now := was + [Ran(step, ok)];
            Went(was, now, []) && (ok ==> Went(was, now, [step])) && Tries(was, now, step)
  {
    var now := was + [Ran(step, ok)];
    var ran := now[|was|..];
    assert ran == [Ran(step, ok)] && ran[..0] == [] && [step][..0] == [];
    assert Did([], []);
    assert Ran(step, ok) in ran;
  }

  /** What was done is done still. */
  lemma AllWent(was: seq<Ran>, middle: seq<Ran>, now: seq<Ran>)
    requires Went(middle, now, [])
    ensures forall step :: Went(was, middle, [step]) ==> Went(was, now, [step])
  {
    hide Went;
    forall step | Went(was, middle, [step])
      ensures Went(was, now, [step])
    {
      WentMore(was, middle, now, [step], [], true);
    }
  }

  lemma AllNext(was: seq<Ran>, middle: seq<Ran>, now: seq<Ran>)
    requires Went(was, middle, [])
    ensures forall step :: Went(middle, now, [step]) ==> Went(was, now, [step])
  {
    hide Went;
    forall step | Went(middle, now, [step])
      ensures Went(was, now, [step])
    {
      WentOn(was, middle, now, [], [step]);
      assert [] + [step] == [step];
    }
  }

  lemma AllTried(was: seq<Ran>, middle: seq<Ran>, now: seq<Ran>)
    requires Went(middle, now, [])
    ensures forall step :: Tries(was, middle, step) ==> Tries(was, now, step)
  {
    hide Went, Tries;
    forall step | Tries(was, middle, step)
      ensures Tries(was, now, step)
    {
      TriesEver(was, middle, now, step);
    }
  }

  lemma TriesNext(was: seq<Ran>, middle: seq<Ran>, now: seq<Ran>, step: Step)
    requires Went(was, middle, []) && Tries(middle, now, step)
    ensures Tries(was, now, step)
  {
    WentNowhere(now);
    hide Went, Tries;
    TriesStill(was, middle, now, now, step);
  }

  /** What was added is gone and what was saved is back. */
  lemma BackToSaved(before: map<UnitName, Bytes>, cleared: map<UnitName, Bytes>, after: map<UnitName, Bytes>, saved: map<UnitName, Bytes>)
    requires forall name :: name in saved ==> Ours(name)
    requires forall name :: name in cleared ==> name in before
    requires forall name :: name in OursIn(before).Keys - saved.Keys ==> name !in cleared
    requires forall name :: name !in saved ==> (name in after <==> name in cleared)
    requires forall name :: name in saved ==> name in after && after[name] == saved[name]
    ensures OursIn(after) == saved
  {
    hide Ours;
    forall name
      ensures name in OursIn(after) <==> name in saved
    {
    }
    assert OursIn(after).Keys == saved.Keys;
  }

  lemma AllAfter(was: seq<Ran>, middle: seq<Ran>, now: seq<Ran>, first: Steps)
    requires Went(was, middle, first)
    ensures forall step :: Went(middle, now, [step]) ==> Went(was, now, first + [step])
  {
    hide Went;
    forall step | Went(middle, now, [step])
      ensures Went(was, now, first + [step])
    {
      WentOn(was, middle, now, first, [step]);
    }
  }

  lemma TriesStill(was: seq<Ran>, middle: seq<Ran>, now: seq<Ran>, later: seq<Ran>, step: Step)
    requires Went(was, middle, []) && Went(now, later, []) && Tries(middle, now, step)
    ensures Tries(was, later, step)
  {
    var ok :| Ran(step, ok) in now[|middle|..];
    var i :| 0 <= i < |now[|middle|..]| && now[|middle|..][i] == Ran(step, ok);
    assert later[|was|..][i + |middle| - |was|] == Ran(step, ok);
  }

  lemma TriesEver(was: seq<Ran>, middle: seq<Ran>, now: seq<Ran>, step: Step)
    requires Tries(was, middle, step) && Went(middle, now, [])
    ensures Tries(was, now, step)
  {
    WentNowhere(was);
    hide Went;
    TriesStill(was, was, middle, now, step);
  }

  /** Each of these files put, or removed. */
  function Puts(names: seq<UnitName>): (puts: Steps)
    ensures |puts| == |names|
  {
    seq(|names|, i requires 0 <= i < |names| => PutUnit(names[i]))
  }

  lemma PutsMore(names: seq<UnitName>, i: nat)
    requires i < |names|
    ensures Puts(names[..i + 1]) == Puts(names[..i]) + [PutUnit(names[i])]
  {
  }

  /** Fewer of the steps were taken too. */
  lemma {:induction false} DidFewer(ran: seq<Ran>, one: Steps, step: Step, other: Steps)
    requires Did(ran, one + [step] + other)
    ensures Did(ran, [step] + other) && Did(ran, one + other)
    decreases |ran|
  {
    var all := one + [step] + other;
    if ran != [] {
      var fewer := ran[..|ran| - 1];
      if Did(fewer, all) {
        DidFewer(fewer, one, step, other);
      } else if other == [] {
        assert all[..|all| - 1] == one && one + other == one && [step] + other == [step];
        DidNone(fewer);
        assert [step][..0] == [];
      } else {
        var less := other[..|other| - 1];
        assert all[..|all| - 1] == one + [step] + less;
        DidFewer(fewer, one, step, less);
        assert ([step] + other)[..|other|] == [step] + less && (one + other)[..|one + other| - 1] == one + less;
      }
    }
  }

  lemma DidNone(ran: seq<Ran>)
    ensures Did(ran, [])
  {
  }

  /** Each one of the files. */
  lemma {:induction false} WentPut(was: seq<Ran>, now: seq<Ran>, names: seq<UnitName>, name: UnitName, rest: Steps)
    requires name in names && Went(was, now, Puts(names) + rest)
    ensures Went(was, now, [PutUnit(name)] + rest)
    decreases |names|
  {
    var ran, last := now[|was|..], |names| - 1;
    assert Puts(names) + rest == Puts(names[..last]) + [PutUnit(names[last])] + rest;
    DidFewer(ran, Puts(names[..last]), PutUnit(names[last]), rest);
    if name != names[last] {
      assert name in names[..last];
      WentPut(was, now, names[..last], name, rest);
    }
  }

  /** How an install sees to the web unit: one that is not up is started. */
  function TakingOver(up: bool): Steps
  {
    if up then [AskWeb(true)] else [AskWeb(false)] + BOOT
  }

  // What each part of a release takes, when all of it works.
  const BOOT := [StartWeb] + [Answer]
  const HOLD := [ListUnits] + [AwaitRuns]
  const PREPARE := [ReadUnits] + [CopyTree] + [NameSnapshot]
  const STAGE := [InspectImage, StageTree, ExtractTree, SealTree, ResolveUnits, RecordSource, ClearAside]
  const SYNC := STAGE + [MoveAside] + [MoveIn] + [RemoveAside]
  const WEB_UNIT := [ListUnits] + [Reload]
  const SWITCH := SYNC + WEB_UNIT + [WriteRecord] + [PrepareSeal] + BOOT
  const CHECK_UNITS := [CheckVerifier, VerifyUnits, ReadUnits]
  const PREFLIGHT := [Reload, Render, CheckConnections, PreflightController, PreflightContent]
  const PLACE := PREFLIGHT + [Reload]
  const ENABLE := [EnableUnits] + [Tidy]
  const INSTALL := [ListUnits] + CHECK_UNITS + (PLACE + ENABLE)
  const SETTLE := INSTALL + [AnswerInstall]
  const REPLACE := SWITCH + SETTLE
  const RELEASE := [Rehearse] + HOLD + PREPARE + REPLACE
  const TREE_BACK := [CopyTree] + [MoveAside] + [MoveIn] + [RemoveAside]
  const FILES_BACK := [WriteRecord] + TREE_BACK + [ReadUnits] + [Reload]
  const BACK := FILES_BACK + BOOT

  /** The units a run of events asked to start, in order. */
  function Started(events: seq<Event>): seq<UnitName>
  {
    if events == [] then []
    else Started(events[..|events| - 1]) + match events[|events| - 1] case Start(name) => [name] case _ => []
  }

  lemma {:induction false} StartedSplits(first: seq<Event>, second: seq<Event>)
    ensures Started(first + second) == Started(first) + Started(second)
  {
    if second == [] {
      assert first + second == first;
    } else {
      assert (first + second)[..|first + second| - 1] == first + second[..|second| - 1];
      StartedSplits(first, second[..|second| - 1]);
    }
  }

  lemma {:induction false} StartsOf(names: seq<UnitName>)
    ensures Started(StartsFor(names)) == names
  {
    var events := StartsFor(names);
    if names != [] {
      var fewer := names[..|names| - 1];
      assert events[..|events| - 1] == StartsFor(fewer);
      StartsOf(fewer);
    }
  }

  predicate Holdable(name: UnitName)
  {
    HasSuffix(name.text, ".timer") || HasSuffix(name.text, ".path")
  }

  /** What could start work is a timer or a path unit, and nothing else is. */
  lemma WhatIsHeld(name: UnitName)
    ensures Holdable(name) <==> exists stem :: name.text == stem + ".timer" || name.text == stem + ".path"
  {
    if HasSuffix(name.text, ".timer") {
      assert name.text == name.text[..|name.text| - 6] + ".timer";
    }
    if HasSuffix(name.text, ".path") {
      assert name.text == name.text[..|name.text| - 5] + ".path";
    }
    if stem :| name.text == stem + ".timer" || name.text == stem + ".path" {
      assert (stem + ".timer")[|stem|..] == ".timer" && (stem + ".path")[|stem|..] == ".path";
    }
  }

  /** The units with the tree's files of these names in place. */
  function Placed(units: map<UnitName, Bytes>, names: seq<UnitName>, tree: Tree): map<UnitName, Bytes>
    requires forall name :: name in names ==> Unit(name) in tree
  {
    units + map name | name in names :: tree[Unit(name)]
  }

  lemma PlacedNone(units: map<UnitName, Bytes>, tree: Tree)
    ensures Placed(units, [], tree) == units && OthersKept(units, units, tree)
    ensures forall names :: PutOnly(units, units, names, tree)
  {
  }

  /** Every unit is as it was, but for those of these names that are the tree's. */
  ghost predicate PutOnly(before: map<UnitName, Bytes>, after: map<UnitName, Bytes>, names: seq<UnitName>, tree: Tree)
  {
    && (forall name :: name in before ==> name in after)
    && forall name :: name in after ==>
         (name in before && after[name] == before[name]) || (name in names && Unit(name) in tree && after[name] == tree[Unit(name)])
  }

  lemma PutOnlyMore(before: map<UnitName, Bytes>, after: map<UnitName, Bytes>, names: seq<UnitName>, name: UnitName, tree: Tree)
    requires PutOnly(before, after, names, tree) && name in names && Unit(name) in tree
    ensures PutOnly(before, after[name := tree[Unit(name)]], names, tree)
  {
  }

  /** The files of these names are in place. */
  ghost predicate Holding(units: map<UnitName, Bytes>, names: seq<UnitName>, tree: Tree)
  {
    forall name :: name in names ==> Unit(name) in tree && name in units && units[name] == tree[Unit(name)]
  }

  lemma PlacedHolds(before: map<UnitName, Bytes>, names: seq<UnitName>, tree: Tree)
    requires forall name :: name in names ==> Unit(name) in tree
    ensures Holding(Placed(before, names, tree), names, tree)
  {
  }

  /** Each of the files was put, and then the rest was done. */
  ghost predicate PutEach(was: seq<Ran>, now: seq<Ran>, names: seq<UnitName>, rest: Steps)
  {
    forall name :: name in names ==> Went(was, now, [PutUnit(name)] + rest)
  }

  lemma PutsAfter(was: seq<Ran>, now: seq<Ran>, first: Steps, names: seq<UnitName>, rest: Steps)
    requires |first| == 1 && Went(was, now, first + Puts(names) + rest)
    ensures PutEach(was, now, names, rest)
  {
    assert first + Puts(names) + rest == [] + [first[0]] + (Puts(names) + rest);
    DidFewer(now[|was|..], [], first[0], Puts(names) + rest);
    assert [] + (Puts(names) + rest) == Puts(names) + rest;
    PutsEach(was, now, names, rest);
  }

  /** Each of the files was put after the first steps and before the last. */
  lemma PutsBetween(was: seq<Ran>, now: seq<Ran>, first: Steps, names: seq<UnitName>, rest: Steps)
    requires Went(was, now, first + Puts(names) + rest)
    ensures forall name :: name in names ==> Went(was, now, first + [PutUnit(name)] + rest)
  {
    forall name | name in names
      ensures Went(was, now, first + [PutUnit(name)] + rest)
    {
      DidBetween(now[|was|..], first, names, name, rest);
    }
  }

  lemma {:induction false} DidBetween(ran: seq<Ran>, first: Steps, names: seq<UnitName>, name: UnitName, rest: Steps)
    requires name in names && Did(ran, first + Puts(names) + rest)
    ensures Did(ran, first + [PutUnit(name)] + rest)
    decreases |names|
  {
    hide Did;
    var head, tail := names[0], names[1..];
    assert Puts(names) == [PutUnit(head)] + Puts(tail);
    if name == head {
      assert first + Puts(names) + rest == first + [PutUnit(head)] + Puts(tail) + rest;
      DidWithout(ran, first + [PutUnit(head)], Puts(tail), rest);
    } else {
      assert first + Puts(names) + rest == first + [PutUnit(head)] + (Puts(tail) + rest);
      DidLess(ran, first, PutUnit(head), Puts(tail) + rest);
      assert first + (Puts(tail) + rest) == first + Puts(tail) + rest;
      DidBetween(ran, first, tail, name, rest);
    }
  }

  lemma DidLess(ran: seq<Ran>, one: Steps, step: Step, other: Steps)
    requires Did(ran, one + [step] + other)
    ensures Did(ran, one + other)
  {
    hide Did;
    DidFewer(ran, one, step, other);
  }

  lemma {:induction false} DidWithout(ran: seq<Ran>, one: Steps, middle: Steps, other: Steps)
    requires Did(ran, one + middle + other)
    ensures Did(ran, one + other)
    decreases |middle|
  {
    hide Did;
    if middle == [] {
      assert one + middle + other == one + other;
    } else {
      assert one + middle + other == one + [middle[0]] + (middle[1..] + other);
      DidLess(ran, one, middle[0], middle[1..] + other);
      assert one + (middle[1..] + other) == one + middle[1..] + other;
      DidWithout(ran, one, middle[1..], other);
    }
  }

  /** The render's files, the checks, the other files, and then systemd told. */
  lemma PlacedInTurn(begun: seq<Ran>, one: seq<Ran>, two: seq<Ran>, three: seq<Ran>, four: seq<Ran>, now: seq<Ran>,
                     render: seq<UnitName>, rest: seq<UnitName>)
    requires Went(begun, one, Puts(render)) && Went(one, two, PREFLIGHT) && Went(two, three, Puts(rest))
    requires Went(three, four, []) && Went(four, now, [Reload])
    ensures PutEach(begun, now, render, PREFLIGHT + [Reload])
    ensures forall name :: name in rest ==> Went(begun, now, PREFLIGHT + [PutUnit(name)] + [Reload])
  {
    hide Went, Puts, PREFLIGHT, PutEach;
    WentOn(three, four, now, [], [Reload]);
    assert [] + [Reload] == [Reload];
    WentOn(two, three, now, Puts(rest), [Reload]);
    WentOn(one, two, now, PREFLIGHT, Puts(rest) + [Reload]);
    WentOn(begun, one, now, Puts(render), PREFLIGHT + (Puts(rest) + [Reload]));
    assert Puts(render) + (PREFLIGHT + (Puts(rest) + [Reload])) == (Puts(render) + PREFLIGHT) + Puts(rest) + [Reload];
    WentWithout(begun, now, Puts(render) + PREFLIGHT, Puts(rest), [Reload]);
    assert Puts(render) + PREFLIGHT + [Reload] == Puts(render) + (PREFLIGHT + [Reload]);
    PutsEach(begun, now, render, PREFLIGHT + [Reload]);
    assert Puts(render) + PREFLIGHT + Puts(rest) + [Reload] == [] + Puts(render) + (PREFLIGHT + Puts(rest) + [Reload]);
    WentWithout(begun, now, [], Puts(render), PREFLIGHT + Puts(rest) + [Reload]);
    assert [] + (PREFLIGHT + Puts(rest) + [Reload]) == PREFLIGHT + Puts(rest) + [Reload];
    PutsBetween(begun, now, PREFLIGHT, rest, [Reload]);
  }

  lemma WentWithout(was: seq<Ran>, now: seq<Ran>, one: Steps, middle: Steps, other: Steps)
    requires Went(was, now, one + middle + other)
    ensures Went(was, now, one + other)
  {
    hide Did;
    DidWithout(now[|was|..], one, middle, other);
  }

  lemma OthersNone(units: map<UnitName, Bytes>)
    ensures OthersKept(units, units, map[])
  {
  }

  lemma PutsEach(was: seq<Ran>, now: seq<Ran>, names: seq<UnitName>, rest: Steps)
    requires Went(was, now, Puts(names) + rest)
    ensures PutEach(was, now, names, rest)
  {
    forall name | name in names
      ensures Went(was, now, [PutUnit(name)] + rest)
    {
      WentPut(was, now, names, name, rest);
    }
  }

  lemma PlacedOne(units: map<UnitName, Bytes>, names: seq<UnitName>, i: nat, tree: Tree)
    requires i < |names| && forall name :: name in names ==> Unit(name) in tree
    ensures Placed(units, names[..i + 1], tree) == Placed(units, names[..i], tree)[names[i] := tree[Unit(names[i])]]
  {
    var fewer, more := names[..i], names[..i + 1];
    assert forall name :: name in more <==> name in fewer || name == names[i];
    var before, after := Placed(units, fewer, tree), Placed(units, more, tree);
    assert after.Keys == before.Keys + {names[i]};
  }

  lemma PlacedKept(units: map<UnitName, Bytes>, placed: map<UnitName, Bytes>, name: UnitName, tree: Tree)
    requires name in Shipped(tree) && Unit(name) in tree && OthersKept(units, placed, tree)
    ensures OthersKept(units, placed[name := tree[Unit(name)]], tree)
  {
    hide Shipped;
  }

  /** Installing the render's units and then the rest installs what is shipped. */
  lemma RenderThenRest(units: map<UnitName, Bytes>, tree: Tree, render: seq<UnitName>, rest: seq<UnitName>)
    requires forall name :: name in Shipped(tree) <==> name in render || name in rest
    requires forall name :: name in Shipped(tree) ==> Unit(name) in tree
    ensures Placed(Placed(units, render, tree), rest, tree) == units + map name | name in Shipped(tree) :: tree[Unit(name)]
  {
  }

  /** Every unit outside the snapshot's prefix is as it was, or as the tree ships it. */
  ghost predicate OthersKept(before: map<UnitName, Bytes>, after: map<UnitName, Bytes>, tree: Tree)
  {
    forall name :: !Ours(name) ==>
      (name in before ==> name in after)
      && (name in after ==> (name in before && after[name] == before[name])
                            || (name in Shipped(tree) && after[name] == tree[Unit(name)]))
  }

  /** Every shipped name outside the snapshot's prefix is as it is shipped. */
  ghost predicate InPlace(units: map<UnitName, Bytes>, tree: Tree)
  {
    forall name :: name in Shipped(tree) && !Ours(name) ==> name in units && units[name] == tree[Unit(name)]
  }

  /** Putting back the units of the prefix puts back the units, when the others
      were as shipped before; and once the others are as shipped, only then. */
  lemma PutBackWhenInPlace(before: map<UnitName, Bytes>, after: map<UnitName, Bytes>, tree: Tree)
    requires OthersKept(before, after, tree) && OursIn(after) == OursIn(before)
    ensures InPlace(before, tree) ==> after == before
    ensures InPlace(after, tree) ==> (after == before <==> InPlace(before, tree))
  {
    hide Shipped, Ours;
    if InPlace(before, tree) {
      forall name
        ensures name in after <==> name in before
        ensures name in after ==> after[name] == before[name]
      {
        assert name in OursIn(after) <==> name in OursIn(before);
        if name in OursIn(after) {
          assert OursIn(after)[name] == OursIn(before)[name];
        }
      }
    }
  }

  /** A release that changes the secrets mount, or brings it, is one whose
      rollback cannot put the units back once its install has committed. */
  lemma ChangedMountIsNotInPlace(before: map<UnitName, Bytes>, tree: Tree)
    requires Unit(SECRETS_MOUNT) in tree
    ensures InPlace(before, tree) ==> SECRETS_MOUNT in before && before[SECRETS_MOUNT] == tree[Unit(SECRETS_MOUNT)]
  {
    TheSecretsMountIsNotOurs();
    hide Ships, Ours;
    assert SECRETS_MOUNT in Shipped(tree);
  }

  lemma InstalledIsInPlace(units: map<UnitName, Bytes>, tree: Tree, held: Tree, id: string)
    requires SyncedFrom(tree, held, id)
    ensures InPlace(Installed(units, tree), held)
  {
    var at :| SyncedWhen(tree, held, id, at);
    forall name | name in Shipped(held)
      ensures name in Installed(units, tree) && Installed(units, tree)[name] == held[Unit(name)]
    {
      InstalledHolds(units, tree, name);
    }
  }

  lemma RetiredKept(before: map<UnitName, Bytes>, placed: map<UnitName, Bytes>, after: map<UnitName, Bytes>, tree: Tree, gone: set<UnitName>)
    requires OthersKept(before, placed, tree) && forall name :: name in gone ==> Ours(name)
    requires forall name :: name in after ==> name in placed && after[name] == placed[name]
    requires forall name :: name in placed && name !in gone ==> name in after
    ensures OthersKept(before, after, tree)
  {
  }

  predicate SyncedWhen(tree: Tree, held: Tree, id: string, at: string)
  {
    tree == Synced(held, id, at)
  }

  ghost predicate SyncedFrom(tree: Tree, held: Tree, id: string)
  {
    exists at :: SyncedWhen(tree, held, id, at)
  }

  lemma ItIsSynced(tree: Tree, held: Tree, id: string, at: string)
    requires SyncedWhen(tree, held, id, at)
    ensures SyncedFrom(tree, held, id)
  {
  }

  lemma BackInTurn(begun: seq<Ran>, one: seq<Ran>, two: seq<Ran>, three: seq<Ran>, now: seq<Ran>,
                   recorded: bool, planted: bool, undone: bool, reloaded: bool)
    requires Went(begun, one, []) && (recorded ==> Went(begun, one, [WriteRecord]))
    requires Went(one, two, []) && (planted ==> Went(one, two, TREE_BACK)) && Tries(one, two, CopyTree)
    requires Went(two, three, []) && (undone ==> Went(two, three, [ReadUnits])) && Tries(two, three, ReadUnits)
    requires Went(three, now, []) && (reloaded ==> Went(three, now, [Reload])) && Tries(three, now, Reload)
    ensures Went(begun, now, []) && (recorded && planted && undone && reloaded ==> Went(begun, now, FILES_BACK))
    ensures Tries(begun, now, CopyTree) && Tries(begun, now, ReadUnits) && Tries(begun, now, Reload)
  {
    hide Went, Tries, TREE_BACK;
    WentNext(begun, one, two, [], true);
    WentNext(begun, two, three, [], true);
    WentNext(begun, three, now, [], true);
    WentNext(two, three, now, [], true);
    WentNowhere(now);
    TriesStill(begun, one, two, now, CopyTree);
    TriesStill(begun, two, three, now, ReadUnits);
    TriesStill(begun, three, now, now, Reload);
    if recorded && planted && undone && reloaded {
      WentOn(begun, one, two, [WriteRecord], TREE_BACK);
      WentOn(begun, two, three, [WriteRecord] + TREE_BACK, [ReadUnits]);
      WentOn(begun, three, now, [WriteRecord] + TREE_BACK + [ReadUnits], [Reload]);
    }
  }

  /** What a release did, as its journal and its log tell it. It is live exactly
      when its last event is a check that passed, and live but for the check
      exactly when that is one that failed; and then every step was taken in
      turn, the check the last of all. One that was given up was put back step
      by step, and each part was tried whatever became of the others. */
  ghost predicate Answers(was: seq<Ran>, now: seq<Ran>, events: seq<Event>, kept: Option<Copy>, outcome: Outcome, turned: bool, steps: Steps)
  {
    && (outcome == Live <==> EndsWith(events, Checked(true)))
    && (outcome == LiveCheckFailed <==> EndsWith(events, Checked(false)))
    && (outcome in {Live, LiveCheckFailed} ==> Stood(was, now, events, kept, outcome == Live) && Went(was, now, steps))
    && (outcome == Live ==> Went(was, now, steps + [CheckDrift]))
    && (turned && outcome == NotDeployed ==> Went(was, now, BACK))
    && (turned ==> Tries(was, now, CopyTree) && Tries(was, now, ReadUnits) && Tries(was, now, Reload))
  }

  lemma AnswersStood(was: seq<Ran>, now: seq<Ran>, events: seq<Event>, kept: Option<Copy>, passed: bool)
    requires Replaced(was, now, events, kept, true, passed)
    ensures Went(was, now, []) && Answers(was, now, events, kept, if passed then Live else LiveCheckFailed, false, REPLACE)
  {
    hide Went, REPLACE;
  }

  /** What is given up, put back. */
  lemma AnswersBack(was: seq<Ran>, one: seq<Ran>, now: seq<Ran>, tried: seq<Event>, back: seq<Event>, kept: Option<Copy>, worked: bool,
                    held: seq<UnitName>, schema: nat, since: nat)
    requires Went(was, one, []) && Went(one, now, []) && (worked ==> Went(one, now, BACK))
    requires Tries(one, now, CopyTree) && Tries(one, now, ReadUnits) && Tries(one, now, Reload)
    requires Tried(tried) && RollsBack(back, held, schema, since)
    ensures Went(was, now, [])
    ensures Answers(was, now, tried + back, kept, if worked then NotDeployed else RollbackFailed, true, REPLACE)
    ensures LogKeeps(tried + back, held, schema, since)
  {
    NeverChecked(tried, back, held, schema, since, true);
    NeverChecked(tried, back, held, schema, since, false);
    TriedThenBack(tried, back, held, schema, since);
    hide Went, Tries, BACK, REPLACE, LogKeeps, RollsBack, Tried, EndsWith, Stood;
    WentNext(was, one, now, BACK, worked);
    WentNowhere(now);
    TriesStill(was, one, now, now, CopyTree);
    TriesStill(was, one, now, now, ReadUnits);
    TriesStill(was, one, now, now, Reload);
  }

  lemma AnswersNothing(was: seq<Ran>, now: seq<Ran>, held: seq<UnitName>, kept: Option<Copy>, steps: Steps)
    ensures Answers(was, now, StartsFor(held), kept, NotDeployed, false, steps)
    ensures Answers(was, now, [], kept, NotDeployed, false, steps)
  {
  }

  lemma ReadyInTurn(begun: seq<Ran>, one: seq<Ran>, two: seq<Ran>, three: seq<Ran>, free: bool, ready: bool)
    requires Went(begun, one, [Rehearse]) && Went(one, two, []) && (free ==> Went(one, two, HOLD))
    requires Went(two, three, []) && (ready ==> free && Went(two, three, PREPARE))
    ensures Went(begun, three, [Rehearse]) && (ready ==> Went(begun, three, [Rehearse] + HOLD + PREPARE))
  {
    hide Went, HOLD, PREPARE;
    WentMore(begun, one, two, [Rehearse], HOLD, free);
    WentMore(begun, two, three, [Rehearse], [], true);
    if free {
      WentMore(begun, two, three, [Rehearse] + HOLD, PREPARE, ready);
    }
  }

  /** What is done after the preparations is done after the rehearsal. */
  lemma AnswersAfter(begun: seq<Ran>, three: seq<Ran>, now: seq<Ran>, events: seq<Event>, kept: Option<Copy>, outcome: Outcome, turned: bool)
    requires Went(begun, three, [Rehearse]) && Went(begun, three, [Rehearse] + HOLD + PREPARE) && Went(three, now, [])
    requires Answers(three, now, events, kept, outcome, turned, REPLACE)
    ensures Went(begun, now, [Rehearse]) && Answers(begun, now, events, kept, outcome, turned, RELEASE)
  {
    hide Went, Tries, Stood, HOLD, PREPARE, REPLACE, BACK, EndsWith;
    var ready := [Rehearse] + HOLD + PREPARE;
    WentNowhere(three);
    WentMore(begun, three, three, [Rehearse], [], true);
    WentMore(begun, three, now, [Rehearse], [], true);
    WentNext(begun, three, now, BACK, turned && outcome == NotDeployed);
    WentMore(begun, three, now, ready, REPLACE, outcome in {Live, LiveCheckFailed});
    WentMore(begun, three, now, ready, REPLACE + [CheckDrift], outcome == Live);
    assert ready + (REPLACE + [CheckDrift]) == ready + REPLACE + [CheckDrift];
    if outcome in {Live, LiveCheckFailed} {
      StoodSince(begun, three, now, events, kept, outcome == Live);
    }
    WentNowhere(now);
    if turned {
      TriesStill(begun, three, now, now, CopyTree);
      TriesStill(begun, three, now, now, ReadUnits);
      TriesStill(begun, three, now, now, Reload);
    }
  }

  class Host {
    // What each image holds of the tree, the id docker knows it by, the schema
    // it migrates to, whether it names its content, and whether this build
    // deploys it.
    const holds: Image -> Tree
    const ids: Image -> string
    const knows: Image -> nat
    const pinned: Image -> bool
    const deployable: Image -> bool
    // Whether the nth command this host is given fails.
    const fails: nat -> bool

    var commands: nat
    // Every command so far, and whether it worked.
    var journal: seq<Ran>
    var record: Option<Image>
    var tree: Option<Tree>
    var backup: Option<Tree>
    var units: map<UnitName, Bytes>
    var active: set<UnitName>
    var running: Option<Image>
    var database: Database
    var kept: Option<Copy>
    var boots: nat
    var log: seq<Event>

    constructor (holds: Image -> Tree, ids: Image -> string, knows: Image -> nat, pinned: Image -> bool, deployable: Image -> bool, fails: nat -> bool,
                 record: Option<Image>, tree: Option<Tree>, units: map<UnitName, Bytes>, active: set<UnitName>,
                 running: Option<Image>, database: Database, kept: Option<Copy>)
      ensures this.holds == holds && this.ids == ids && this.knows == knows && this.pinned == pinned && this.deployable == deployable
      ensures this.fails == fails && this.record == record && this.tree == tree && this.units == units && this.active == active
      ensures this.running == running && this.database == database && this.kept == kept
      ensures commands == 0 && journal == [] && backup == None && boots == 0 && log == []
    {
      this.holds, this.ids, this.knows, this.pinned, this.deployable := holds, ids, knows, pinned, deployable;
      this.fails, commands, journal := fails, 0, [];
      this.record, this.tree, this.backup, this.units, this.active := record, tree, None, units, active;
      this.running, this.database, this.kept, this.boots, this.log := running, database, kept, 0, [];
    }

    /** The tree an image's release leaves, whenever it was synced. */
    ghost predicate IsTreeOf(image: Image)
      reads this`tree
    {
      tree.Some? && SyncedFrom(tree.value, holds(image), ids(image))
    }

    /** A copy kept is a boot's since `since`; and the database is on `schema`,
        or the copy is, unless nothing was applied to what that boot found. */
    ghost predicate SchemaSafe(schema: nat, since: nat)
      reads this`database, this`kept, this`boots
    {
      since <= boots
      && (kept.Some? ==> since < kept.value.boot <= boots)
      && (schema != UNAPPLIED ==> schema == if kept == None then database.schema else kept.value.database.schema)
    }

    // ------------------------------------------------------------- commands

    /** No command in a range of them failed. */
    ghost predicate Faultless(from: nat, to: nat)
    {
      forall n :: from <= n < to ==> !fails(n)
    }

    /** One command, or one change of a file: it is done, or it fails. */
    method Try(step: Step) returns (ok: bool)
      modifies this`commands, this`journal
      ensures commands == old(commands) + 1 && ok == !fails(old(commands))
      ensures journal == old(journal) + [Ran(step, ok)]
      ensures Went(old(journal), journal, []) && (ok ==> Went(old(journal), journal, [step])) && Tries(old(journal), journal, step)
    {
      ok := !fails(commands);
      commands := commands + 1;
      journal := journal + [Ran(step, ok)];
      WentOne(old(journal), step, ok);
    }

    /** One step after others. */
    method TryNext(ghost was: seq<Ran>, ghost wanted: Steps, step: Step) returns (ok: bool)
      requires Went(was, journal, wanted)
      modifies this`commands, this`journal
      ensures commands == old(commands) + 1 && ok == !fails(old(commands))
      ensures journal == old(journal) + [Ran(step, ok)] && Went(old(journal), journal, []) && Tries(old(journal), journal, step)
      ensures ok ==> Went(old(journal), journal, [step])
      ensures Went(was, journal, []) && Went(was, journal, wanted) && (ok ==> Went(was, journal, wanted + [step]))
    {
      ok := Try(step);
      hide Went;
      WentMore(was, old(journal), journal, wanted, [step], ok);
    }

    /** One step after another, until one fails. */
    method TryEach(steps: Steps) returns (ok: bool)
      modifies this`commands, this`journal
      ensures Went(old(journal), journal, []) && (ok ==> Went(old(journal), journal, steps))
      ensures commands >= old(commands) && |journal| >= |old(journal)|
      ensures !ok ==> |journal| > |old(journal)| && !journal[|journal| - 1].ok && journal[|journal| - 1].step in steps
      ensures Faultless(old(commands), commands) ==> ok
    {
      hide Went, Tries;
      WentNowhere(journal);
      for i := 0 to |steps|
        invariant Went(old(journal), journal, steps[..i])
        invariant commands >= old(commands) && |journal| >= |old(journal)|
      {
        ok := TryNext(old(journal), steps[..i], steps[i]);
        if !ok {
          return;
        }
        assert steps[..i + 1] == steps[..i] + [steps[i]];
      }
      assert steps[..|steps|] == steps;
      WentNowhere(journal);
      WentMore(old(journal), journal, journal, steps, [], true);
      return true;
    }

    /** The web unit started, or started again, on the recorded image. The
        image's boot leaves a schema it reads alone; it keeps the database
        before it changes one that exists, and never replaces a copy already
        kept. */
    method Boot(ghost schema: nat, ghost since: nat) returns (ok: bool)
      requires SchemaSafe(schema, since)
      modifies this`running, this`database, this`kept, this`boots, this`commands, this`journal
      ensures SchemaSafe(schema, since) && boots >= old(boots) && commands >= old(commands)
      ensures ok ==> record.Some? && pinned(record.value) && running == record && database.schema == knows(record.value)
      ensures record.Some? && knows(record.value) == old(database.schema) ==>
                kept == old(kept) && database.schema == old(database.schema)
      // Only a running HQ writes; a boot alone changes no database it reads.
      ensures record.Some? && knows(record.value) == old(database.schema) && old(running) == None ==> database == old(database)
      ensures old(kept).Some? ==> kept == old(kept)
      ensures old(kept) == None && kept.Some? ==>
                kept.value.database.schema == old(database.schema) != UNAPPLIED && kept.value.boot == old(boots) + 1
                && (old(running) == None ==> kept.value.database == old(database))
      ensures Went(old(journal), journal, []) && (ok ==> Went(old(journal), journal, BOOT))
      ensures Faultless(old(commands), commands) && record.Some? && pinned(record.value) ==> ok
      // Nothing is kept or migrated but by a step that is, the copy first.
      ensures ok && knows(record.value) != old(database.schema) ==>
                Went(old(journal), journal, if old(kept) == None && old(database.schema) != UNAPPLIED
                                            then [StartWeb] + [KeepDatabase] + [Migrate] + [Answer]
                                            else [StartWeb] + [Migrate] + [Answer])
      ensures kept != old(kept) ==> Went(old(journal), journal, [StartWeb] + [KeepDatabase])
      ensures database.schema != old(database.schema) ==>
                Tries(old(journal), journal, Migrate) && (old(database.schema) == UNAPPLIED || kept.Some?)
      ensures !ok ==> running == None
    {
      hide Went, Tries, Did;
      WentNowhere(journal);
      // HQ may have written until it was stopped.
      if running.Some? {
        var rows: nat := *;
        database := database.(rows := rows);
      }
      running := None;
      if record == None || !pinned(record.value) {
        return false;
      }
      ok := Try(StartWeb);
      if !ok {
        return;
      }
      boots := boots + 1;
      ghost var steps := [StartWeb];
      if database.schema != knows(record.value) {
        ok, steps := Apply(old(journal));
        if !ok {
          return;
        }
      }
      ghost var applied := journal;
      ok := TryNext(old(journal), [StartWeb], Answer);
      WentMore(old(journal), applied, journal, steps, [Answer], ok);
      if kept != old(kept) {
        WentMore(old(journal), applied, journal, [StartWeb] + [KeepDatabase], [], ok);
      }
      if database.schema != old(database.schema) {
        TriesEver(old(journal), applied, journal, Migrate);
      }
      if ok {
        running := record;
      }
    }

    /** The database brought to the schema the recorded image knows: what is
        there is kept first, unless nothing was applied to it or a copy is kept. */
    method Apply(ghost was: seq<Ran>) returns (ok: bool, ghost steps: Steps)
      requires record.Some? && Went(was, journal, []) && Went(was, journal, [StartWeb])
      modifies this`database, this`kept, this`commands, this`journal
      ensures commands > old(commands) && Went(was, journal, []) && Went(was, journal, [StartWeb])
      ensures ok ==> database.schema == knows(record.value) && Went(was, journal, steps)
      ensures steps == if old(kept) == None && old(database.schema) != UNAPPLIED
                       then [StartWeb] + [KeepDatabase] + [Migrate] else [StartWeb] + [Migrate]
      ensures kept == old(kept) || (old(kept) == None && old(database.schema) != UNAPPLIED && kept == Some(Copy(old(database), boots)))
      ensures kept != old(kept) ==> Went(was, journal, [StartWeb] + [KeepDatabase])
      ensures database != old(database) ==> Tries(was, journal, Migrate) && (old(database.schema) == UNAPPLIED || kept.Some?)
      ensures Faultless(old(commands), commands) ==> ok
    {
      hide Went, Tries, Did;
      ghost var before := if kept == None && database.schema != UNAPPLIED then [StartWeb] + [KeepDatabase] else [StartWeb];
      steps := before + [Migrate];
      WentNowhere(was);
      if kept == None && database.schema != UNAPPLIED {
        ok := TryNext(was, [StartWeb], KeepDatabase);
        if !ok {
          return;
        }
        kept := Some(Copy(database, boots));
      }
      // A migration that fails leaves whatever schema it got to.
      var reached: Database := *;
      ghost var halfway := journal;
      ok := TryNext(was, [StartWeb], Migrate);
      database := if ok then reached.(schema := knows(record.value)) else reached;
      WentMore(was, halfway, journal, before, [Migrate], ok);
      WentNowhere(journal);
      TriesStill(was, halfway, journal, journal, Migrate);
    }

    /** Records the image the web unit is to run from its next start. */
    method Record(image: Image) returns (ok: bool)
      modifies this`record, this`commands, this`journal
      ensures ok ==> pinned(image) && record == Some(image)
      ensures !ok ==> record == old(record)
      ensures commands >= old(commands)
      ensures Went(old(journal), journal, []) && (ok ==> Went(old(journal), journal, [WriteRecord]))
      ensures Faultless(old(commands), commands) && pinned(image) ==> ok
    {
      if !pinned(image) {
        WentNowhere(journal);
        return false;
      }
      ok := Try(WriteRecord);
      if ok {
        record := Some(image);
      }
    }

    /** The shipped names, each once, in some order; a tree without its unit
        directory ships nothing and is refused. */
    method ListShipped() returns (ok: bool, names: seq<UnitName>)
      modifies this`commands, this`journal
      ensures ok ==> tree.Some? && (forall name :: name in names <==> name in Shipped(tree.value))
      ensures ok ==> forall i, j :: 0 <= i < j < |names| ==> names[i] != names[j]
      ensures commands == old(commands) + 1
      ensures Went(old(journal), journal, []) && (ok ==> Went(old(journal), journal, [ListUnits]))
      ensures Faultless(old(commands), commands) && tree.Some? ==> ok
    {
      names := [];
      ok := Try(ListUnits);
      hide Went, Tries;
      if tree == None || !ok {
        return false, [];
      }
      var left := Shipped(tree.value);
      while left != {}
        invariant left <= Shipped(tree.value)
        invariant forall name :: name in names <==> name in Shipped(tree.value) - left
        invariant forall i, j :: 0 <= i < j < |names| ==> names[i] != names[j]
        decreases left
      {
        var name :| name in left;
        assert name !in names;
        left := left - {name};
        names := names + [name];
      }
    }

    /** Copies shipped files into the systemd directory, until one fails. */
    method InstallUnits(names: seq<UnitName>) returns (ok: bool)
      requires tree.Some? && forall name :: name in names ==> name in Shipped(tree.value) && Unit(name) in tree.value
      modifies this`units, this`commands, this`journal
      ensures ok ==> units == Placed(old(units), names, tree.value)
      ensures OthersKept(old(units), units, tree.value) && PutOnly(old(units), units, names, tree.value)
      ensures commands >= old(commands)
      ensures Went(old(journal), journal, []) && (ok ==> Went(old(journal), journal, Puts(names)))
      ensures Faultless(old(commands), commands) ==> ok
    {
      hide PREFIX, LEFTOVERS, UNIT_SUFFIXES, WEB, SECRETS, SECRETS_MOUNT, PROVENANCE, Went, Tries, Placed, OthersKept, Shipped, Puts;
      assert Puts(names[..0]) == [];
      hide PutOnly;
      WentNowhere(journal);
      PlacedNone(units, tree.value);
      for i := 0 to |names|
        invariant PutOnly(old(units), units, names, tree.value)
        invariant units == Placed(old(units), names[..i], tree.value)
        invariant OthersKept(old(units), units, tree.value)
        invariant commands >= old(commands) && Went(old(journal), journal, Puts(names[..i]))
      {
        ok := TryNext(old(journal), Puts(names[..i]), PutUnit(names[i]));
        if !ok {
          return;
        }
        PutsMore(names, i);
        PlacedOne(old(units), names, i, tree.value);
        PlacedKept(old(units), units, names[i], tree.value);
        PutOnlyMore(old(units), units, names, names[i], tree.value);
        units := units[names[i] := tree.value[Unit(names[i])]];
      }
      assert names[..|names|] == names;
      WentNowhere(journal);
      WentMore(old(journal), journal, journal, Puts(names), [], true);
      return true;
    }

    /** What a snapshot's closure does: each saved file written back, each one
        added since removed. Every file is tried, and any failure is the answer. */
    method RestoreUnits(saved: map<UnitName, Bytes>) returns (ok: bool)
      requires forall name :: name in saved ==> Ours(name)
      modifies this`units, this`commands, this`journal
      ensures ok ==> OursIn(units) == saved
      ensures OthersAlone(old(units), units)
      ensures commands >= old(commands)
      ensures Went(old(journal), journal, []) && (ok ==> Went(old(journal), journal, [ReadUnits]))
      ensures Tries(old(journal), journal, ReadUnits)
      ensures Faultless(old(commands), commands) ==> ok
      // Nothing is said to be put back that no step put back.
      ensures ok ==> forall name :: name in saved ==> Went(old(journal), journal, [ReadUnits] + [PutUnit(name)])
      ensures ok ==> forall name :: name in OursIn(old(units)).Keys - saved.Keys ==> Went(old(journal), journal, [ReadUnits] + [RemoveUnit(name)])
    {
      hide Went, Tries;
      ok := Try(ReadUnits);
      if !ok {
        return;
      }
      ghost var read := journal;
      var removed := RemoveEach(OursIn(units).Keys - saved.Keys);
      ghost var cleared, halfway := units, journal;
      var written := WriteEach(saved);
      ok := removed && written;
      WentNext(read, halfway, journal, [], true);
      WentMore(old(journal), read, journal, [ReadUnits], [], true);
      TriesEver(old(journal), read, journal, ReadUnits);
      AllWent(read, halfway, journal);
      AllNext(read, halfway, journal);
      AllAfter(old(journal), read, journal, [ReadUnits]);
      if ok {
        BackToSaved(old(units), cleared, units, saved);
      }
    }

    /** Removes these units, whichever of them stay. */
    method RemoveEach(names: set<UnitName>) returns (ok: bool)
      modifies this`units, this`commands, this`journal
      ensures forall name :: name in units ==> name in old(units) && units[name] == old(units)[name]
      ensures forall name :: name in old(units) && name !in names ==> name in units
      ensures ok ==> forall name :: name in names ==> name !in units && Went(old(journal), journal, [RemoveUnit(name)])
      ensures commands >= old(commands) && Went(old(journal), journal, [])
      ensures forall name :: name in names ==> Tries(old(journal), journal, RemoveUnit(name))
      ensures Faultless(old(commands), commands) ==> ok
    {
      hide Went, Tries;
      WentNowhere(journal);
      ok := true;
      var left := names;
      while left != {}
        invariant left <= names && commands >= old(commands) && Went(old(journal), journal, [])
        invariant forall name :: name in units ==> name in old(units) && units[name] == old(units)[name]
        invariant forall name :: name in old(units) && name !in units ==> name in names
        invariant ok ==> forall name :: name in names - left ==> name !in units && Went(old(journal), journal, [RemoveUnit(name)])
        invariant forall name :: name in names - left ==> Tries(old(journal), journal, RemoveUnit(name))
        invariant Faultless(old(commands), commands) ==> ok
        decreases left
      {
        var name :| name in left;
        left := left - {name};
        ghost var before := journal;
        var removed := TryNext(old(journal), [], RemoveUnit(name));
        AllWent(old(journal), before, journal);
        AllTried(old(journal), before, journal);
        WentNext(old(journal), before, journal, [RemoveUnit(name)], removed);
        TriesNext(old(journal), before, journal, RemoveUnit(name));
        if removed {
          units := units - {name};
        } else {
          ok := false;
        }
      }
    }

    /** Writes these units back, whichever of them cannot be. */
    method WriteEach(saved: map<UnitName, Bytes>) returns (ok: bool)
      modifies this`units, this`commands, this`journal
      ensures forall name :: name !in saved ==> (name in units <==> name in old(units))
      ensures forall name :: name !in saved && name in units ==> units[name] == old(units)[name]
      ensures ok ==> forall name :: name in saved ==> name in units && units[name] == saved[name] && Went(old(journal), journal, [PutUnit(name)])
      ensures commands >= old(commands) && Went(old(journal), journal, [])
      ensures forall name :: name in saved ==> Tries(old(journal), journal, PutUnit(name))
      ensures Faultless(old(commands), commands) ==> ok
    {
      hide Went, Tries;
      WentNowhere(journal);
      ok := true;
      var left := saved.Keys;
      while left != {}
        invariant left <= saved.Keys && commands >= old(commands) && Went(old(journal), journal, [])
        invariant forall name :: name !in saved ==> (name in units <==> name in old(units))
        invariant forall name :: name !in saved && name in units ==> units[name] == old(units)[name]
        invariant ok ==> forall name :: name in saved.Keys - left ==>
                    name in units && units[name] == saved[name] && Went(old(journal), journal, [PutUnit(name)])
        invariant forall name :: name in saved.Keys - left ==> Tries(old(journal), journal, PutUnit(name))
        invariant Faultless(old(commands), commands) ==> ok
        decreases left
      {
        var name :| name in left;
        left := left - {name};
        ghost var before := journal;
        var written := TryNext(old(journal), [], PutUnit(name));
        AllWent(old(journal), before, journal);
        AllTried(old(journal), before, journal);
        WentNext(old(journal), before, journal, [PutUnit(name)], written);
        TriesNext(old(journal), before, journal, PutUnit(name));
        if written {
          units := units[name := saved[name]];
        } else {
          ok := false;
        }
      }
    }

    /** Removes units, until one stays; a name that is not there is no failure. */
    method Retire(names: set<UnitName>) returns (ok: bool)
      modifies this`units, this`commands, this`journal
      ensures ok ==> units == old(units) - names
      ensures forall name :: name in units ==> name in old(units) && units[name] == old(units)[name]
      ensures forall name :: name in old(units) && name !in names ==> name in units
      ensures commands >= old(commands)
      ensures Went(old(journal), journal, []) && (ok ==> forall name :: name in names ==> Went(old(journal), journal, [RemoveUnit(name)]))
      ensures Faultless(old(commands), commands) ==> ok
    {
      hide Went, Tries;
      WentNowhere(journal);
      var left := names;
      while left != {}
        invariant left <= names && commands >= old(commands) && Went(old(journal), journal, [])
        invariant units == old(units) - (names - left)
        invariant forall name :: name in names - left ==> Went(old(journal), journal, [RemoveUnit(name)])
        decreases left
      {
        var name :| name in left;
        ghost var before := journal;
        ok := TryNext(old(journal), [], RemoveUnit(name));
        AllWent(old(journal), before, journal);
        WentNext(old(journal), before, journal, [RemoveUnit(name)], ok);
        if !ok {
          return;
        }
        left := left - {name};
        units := units - {name};
      }
      return true;
    }

    // -------------------------------------------------------------- install

    /** Installs the tree's units; if any step fails every unit of ours is put
        back, and `restored` is whether that worked. */
    method Install(ghost schema: nat, ghost since: nat) returns (ok: bool, ghost restored: bool)
      requires SchemaSafe(schema, since)
      modifies this`units, this`active, this`record, this`running, this`database, this`kept, this`boots, this`commands, this`journal
      ensures SchemaSafe(schema, since)
      ensures ok ==> tree.Some? && units == Installed(old(units), tree.value)
      ensures !ok && restored ==> OursIn(units) == OursIn(old(units))
      ensures OthersKept(old(units), units, if tree.Some? then tree.value else map[])
      // What is running is the truth: the record changes only to that.
      ensures record == old(record) || (old(running).Some? && record == old(running))
      ensures commands >= old(commands)
      ensures Went(old(journal), journal, []) && (ok ==> Went(old(journal), journal, INSTALL))
      ensures Faultless(old(commands), commands) ==> restored && (Installable() ==> ok)
    {
      hide Went, Tries;
      hide BOOT, PREFLIGHT, PLACE;
      var before := units;
      var listed, shipped := ListShipped();
      if !listed {
        return false, true;
      }
      ghost var one := journal;
      ok := TryEach([CheckVerifier, VerifyUnits, ReadUnits]);
      WentMore(old(journal), one, journal, [ListUnits], CHECK_UNITS, ok);
      if !ok {
        return false, true;
      }
      ghost var two := journal;
      var saved := OursIn(units);
      var up;
      ok, up := Installing(shipped, schema, since);
      WentMore(old(journal), two, journal, [ListUnits] + CHECK_UNITS, PLACE + ENABLE, ok);
      restored := true;
      if !ok {
        ghost var after := units;
        ghost var three := journal;
        var undone := RestoreUnits(saved);
        WentMore(old(journal), three, journal, [], [], true);
        restored := undone;
        AloneKept(before, after, units, tree.value);
      }
    }

    /** What an install needs of the host beyond its commands working. */
    twostate predicate Installable()
      reads this
    {
      old(tree.Some? && record.Some? && pinned(record.value) && (running.Some? ==> pinned(running.value)))
    }

    /** The steps between the snapshot and the commit. */
    method Installing(shipped: seq<UnitName>, ghost schema: nat, ghost since: nat) returns (committed: bool, up: bool)
      requires SchemaSafe(schema, since)
      requires tree.Some? && forall name :: name in shipped <==> name in Shipped(tree.value)
      modifies this`units, this`active, this`record, this`running, this`database, this`kept, this`boots, this`commands, this`journal
      ensures SchemaSafe(schema, since)
      ensures committed ==> units == Installed(old(units), tree.value)
      ensures OthersKept(old(units), units, tree.value)
      ensures record == old(record) || (old(running).Some? && record == old(running))
      ensures commands >= old(commands)
      ensures Went(old(journal), journal, []) && (committed ==> Went(old(journal), journal, PLACE + ENABLE))
      ensures committed ==> Went(old(journal), journal, PLACE + TakingOver(up) + ENABLE)
      ensures committed ==> if up then running == old(running) else running == record
      ensures Faultless(old(commands), commands) && Installable() ==> committed
    {
      hide Went, Tries, PLACE, ENABLE, BOOT;
      committed := Placing(shipped);
      up := true;
      if !committed {
        return;
      }
      ghost var placed, one := units, journal;
      hide Shipped, Retired, Ours, OthersKept, TakingOver;
      var inspected;
      committed, up, inspected := TakeOver(schema, since);
      WentMore(old(journal), one, journal, PLACE, TakingOver(up), committed);
      if !committed {
        return;
      }
      ghost var two := journal;
      committed := Enabling();
      RetiredKept(old(units), placed, units, tree.value, LEFTOVERS - Shipped(tree.value));
      WentMore(old(journal), two, journal, PLACE, ENABLE, committed);
      WentMore(old(journal), two, journal, PLACE + TakingOver(up), ENABLE, committed);
    }

    /** The shipped units enabled, and started, and the host tidied. */
    method Enabling() returns (ok: bool)
      requires tree.Some?
      modifies this`units, this`active, this`commands, this`journal
      ensures ok ==> units == old(units) - (LEFTOVERS - Shipped(tree.value)) && active == old(active) + Shipped(tree.value)
      ensures active != old(active) ==> active == old(active) + Shipped(tree.value) && Went(old(journal), journal, [EnableUnits])
      ensures forall name :: name in units ==> name in old(units) && units[name] == old(units)[name]
      ensures forall name :: name in old(units) && name !in LEFTOVERS - Shipped(tree.value) ==> name in units
      ensures forall name :: name in LEFTOVERS ==> Ours(name)
      ensures commands >= old(commands)
      ensures Went(old(journal), journal, []) && (ok ==> Went(old(journal), journal, ENABLE))
      ensures Faultless(old(commands), commands) ==> ok
    {
      LeftoversAreOurs();
      hide Went, Tries, PREFIX, LEFTOVERS, Shipped, Ours;
      ok := Try(EnableUnits);
      if !ok {
        return;
      }
      ghost var one := journal;
      active := active + Shipped(tree.value);
      ok := Retire(LEFTOVERS - Shipped(tree.value));
      WentMore(old(journal), one, journal, [EnableUnits], [], true);
      if ok {
        ok := TryNext(old(journal), [EnableUnits], Tidy);
      }
    }

    /** The renderer's unit with every drop-in, the rest after the render, and
        then what an earlier release installed that this one does not. */
    method Placing(shipped: seq<UnitName>) returns (ok: bool)
      requires tree.Some? && forall name :: name in shipped <==> name in Shipped(tree.value)
      modifies this`units, this`commands, this`journal
      ensures ok ==>
        var placed := old(units) + map name | name in Shipped(tree.value) :: tree.value[Unit(name)];
        units == placed - Retired(Shipped(tree.value), placed)
      ensures OthersKept(old(units), units, tree.value)
      ensures commands >= old(commands)
      ensures Went(old(journal), journal, []) && (ok ==> Went(old(journal), journal, PLACE))
      ensures Faultless(old(commands), commands) ==> ok
      // The render goes by its own unit and every drop-in; the rest follow it.
      ensures ok ==> PutEach(old(journal), journal, WithDropIns(shipped, SECRETS), PREFLIGHT + [Reload])
      ensures ok ==> forall name :: name in Rest(shipped, WithDropIns(shipped, SECRETS)) ==>
                Went(old(journal), journal, PREFLIGHT + [PutUnit(name)] + [Reload])
    {
      var render := WithDropIns(shipped, SECRETS);
      var rest := Rest(shipped, render);
      assert forall name :: name in Shipped(tree.value) <==> name in render || name in rest;
      hide Went, Tries, WithDropIns, Rest, Ships, IsUnit, IsDropIn, Nested, Ours, OthersKept, PutOnly, PutEach, Puts;
      ok := InstallUnits(render);
      if !ok {
        return;
      }
      ghost var one := journal;
      ok := TryEach([Reload, Render, CheckConnections, PreflightController, PreflightContent]);
      WentNext(old(journal), one, journal, PREFLIGHT, ok);
      if !ok {
        return;
      }
      ghost var two := journal;
      hide PREFLIGHT;
      ghost var rendered := units;
      ok := InstallUnits(rest);
      KeptTwice(old(units), rendered, units, tree.value);
      WentMore(old(journal), two, journal, PREFLIGHT, [], true);
      if !ok {
        return;
      }
      RenderThenRest(old(units), tree.value, render, rest);
      ghost var placed, three := units, journal;
      ok := Retire(Retired(Shipped(tree.value), units));
      RetiredKept(old(units), placed, units, tree.value, Retired(Shipped(tree.value), placed));
      WentMore(old(journal), three, journal, PREFLIGHT, [], true);
      if ok {
        ghost var four := journal;
        ok := TryNext(old(journal), PREFLIGHT, Reload);
        if ok {
          PlacedInTurn(old(journal), one, two, three, four, journal, render, rest);
        }
      }
    }

    /** Sees to it that the web unit runs: one that does is left, and otherwise
        the image found running is recorded before the unit is started. */
    method TakeOver(ghost schema: nat, ghost since: nat) returns (ok: bool, up: bool, inspected: bool)
      requires SchemaSafe(schema, since)
      modifies this`record, this`running, this`database, this`kept, this`boots, this`commands, this`journal
      ensures SchemaSafe(schema, since) && commands >= old(commands)
      ensures Went(old(journal), journal, [])
      ensures record == old(record) || (old(running).Some? && record == old(running))
      ensures Faultless(old(commands), commands) && old(record.Some? && pinned(record.value)) && old(running.Some? ==> pinned(running.value)) ==> ok
      // A unit that is up is left alone. Otherwise what runs is asked, and once
      // that is recorded the unit is started on what is.
      ensures Went(old(journal), journal, [AskWeb(up)]) && (ok ==> Went(old(journal), journal, TakingOver(up)))
      ensures up ==> ok && record == old(record) && running == old(running) && database == old(database) && kept == old(kept)
      ensures !up ==> Tries(old(journal), journal, InspectRunning) && (ok ==> running == record)
      ensures record == None ==> running == old(running) && database == old(database) && kept == old(kept)
      ensures !up && inspected ==> Went(old(journal), journal, [AskWeb(false)] + [InspectRunning])
      ensures !up && ok ==> record == if inspected && old(running).Some? then old(running) else old(record)
      ensures !up && ok && inspected && old(running).Some? ==> Went(old(journal), journal, [AskWeb(false)] + [InspectRunning] + [WriteRecord])
    {
      hide Went, Tries, BOOT;
      up := *;
      journal := journal + [Ran(AskWeb(up), true)];
      WentOne(old(journal), AskWeb(up), true);
      if up {
        return true, up, false;
      }
      ghost var asked := journal;
      inspected := TryNext(old(journal), [AskWeb(false)], InspectRunning);
      ghost var one := journal;
      TriesNext(old(journal), asked, one, InspectRunning);
      if inspected && running.Some? {
        ok := Record(running.value);
        WentMore(old(journal), one, journal, [AskWeb(false)] + [InspectRunning], [WriteRecord], ok);
        WentMore(old(journal), one, journal, [AskWeb(false)], [], true);
        TriesEver(old(journal), one, journal, InspectRunning);
        if !ok {
          return;
        }
      } else if record == None {
        return false, up, inspected;
      }
      ghost var two, recorded := journal, inspected && running.Some?;
      ok := Boot(schema, since);
      TriesEver(old(journal), two, journal, InspectRunning);
      WentMore(old(journal), two, journal, [AskWeb(false)], BOOT, ok);
      if inspected {
        WentMore(old(journal), two, journal, [AskWeb(false)] + [InspectRunning], [], true);
      }
      if recorded {
        WentMore(old(journal), two, journal, [AskWeb(false)] + [InspectRunning] + [WriteRecord], [], true);
      }
    }

    // -------------------------------------------------------------- the tree

    /** Replaces the tree with the image's: staged beside it and swapped in
        whole. A swap that fails half way may leave no tree at all, and one
        whose last removal fails has swapped. */
    method Sync(image: Image) returns (ok: bool)
      modifies this`tree, this`commands, this`journal
      ensures ok ==> IsTreeOf(image)
      ensures tree == old(tree) || tree == None || IsTreeOf(image)
      ensures commands >= old(commands)
      // The swap: set aside and not replaced, the old tree is moved back, and
      // only a move back that fails too leaves none.
      ensures |journal| > |old(journal)| && Swapped(journal[|journal| - 1], old(tree), image)
      ensures Went(old(journal), journal, []) && (ok ==> Went(old(journal), journal, SYNC))
      ensures Faultless(old(commands), commands) ==> ok
    {
      hide Went, Tries;
      ok := TryEach([InspectImage, StageTree, ExtractTree, SealTree, ResolveUnits, RecordSource, ClearAside]);
      if !ok {
        return;
      }
      assert Went(old(journal), journal, STAGE);
      hide STAGE;
      var at: string := *;
      var stage := Synced(holds(image), ids(image), at);
      var aside := tree;
      ok := TryNext(old(journal), STAGE, MoveAside);
      if !ok {
        return;
      }
      tree := None;
      ok := TryNext(old(journal), STAGE + [MoveAside], MoveIn);
      if !ok {
        var back := TryNext(old(journal), [], MoveBack);
        if back {
          tree := aside;
        }
        return;
      }
      tree := Some(stage);
      ItIsSynced(stage, holds(image), ids(image), at);
      ok := TryNext(old(journal), STAGE + [MoveAside] + [MoveIn], RemoveAside);
    }

    /** What a sync that ended with this step left of the tree. */
    ghost predicate Swapped(last: Ran, were: Option<Tree>, image: Image)
      reads this`tree
    {
      match last.step
      case MoveIn => false
      case MoveBack => if last.ok then tree == were else tree == None
      case RemoveAside => IsTreeOf(image)
      case _ => !last.ok && tree == were
    }

    /** A copy of the tree under the runtime directory. */
    method BackupTree() returns (ok: bool)
      modifies this`backup, this`commands, this`journal
      ensures ok ==> tree.Some? && backup == tree
      ensures commands == old(commands) + 1
      ensures Went(old(journal), journal, []) && (ok ==> Went(old(journal), journal, [CopyTree]))
      ensures Faultless(old(commands), commands) && tree.Some? ==> ok
    {
      ok := Try(CopyTree);
      ok := ok && tree.Some?;
      backup := if ok then tree else None;
    }

    /** Puts the copy where the tree was, or says it could not. */
    method RestoreTree() returns (ok: bool)
      modifies this`tree, this`commands, this`journal
      ensures ok ==> backup.Some? && tree == backup
      ensures commands >= old(commands)
      ensures Went(old(journal), journal, []) && (ok ==> Went(old(journal), journal, TREE_BACK))
      ensures Tries(old(journal), journal, CopyTree)
      ensures Faultless(old(commands), commands) && backup.Some? ==> ok
      ensures |journal| > |old(journal)|
              && tree == match journal[|journal| - 1].step
                         case MoveIn => None
                         case RemoveAside => backup
                         case _ => old(tree)
    {
      hide Went, Tries;
      ok := Try(CopyTree);
      ghost var copied := journal;
      if !ok || backup == None {
        return false;
      }
      ok := TryNext(old(journal), [CopyTree], MoveAside);
      TriesEver(old(journal), copied, journal, CopyTree);
      if !ok {
        return;
      }
      ghost var aside := journal;
      tree := None;
      ok := TryNext(old(journal), [CopyTree] + [MoveAside], MoveIn);
      TriesEver(old(journal), aside, journal, CopyTree);
      if !ok {
        return;
      }
      ghost var moved := journal;
      tree := backup;
      ok := TryNext(old(journal), [CopyTree] + [MoveAside] + [MoveIn], RemoveAside);
      TriesEver(old(journal), moved, journal, CopyTree);
    }

    /** Installs, of the new tree, the web unit with all drop-ins. */
    method InstallWebUnit() returns (ok: bool, shipped: seq<UnitName>)
      modifies this`units, this`commands, this`journal
      ensures OthersKept(old(units), units, if tree.Some? then tree.value else map[])
      ensures commands >= old(commands)
      ensures Went(old(journal), journal, []) && (ok ==> Went(old(journal), journal, WEB_UNIT))
      ensures Faultless(old(commands), commands) && tree.Some? ==> ok
      // Exactly the web unit and the drop-ins are put, and then systemd is told.
      ensures (tree.Some? ==> forall name :: name in shipped ==> name in Shipped(tree.value))
              && (ok ==> tree.Some? && forall name :: name in Shipped(tree.value) ==> name in shipped)
      ensures if tree.Some? then PutOnly(old(units), units, WithDropIns(shipped, WEB), tree.value) else units == old(units)
      ensures ok ==> Holding(units, WithDropIns(shipped, WEB), tree.value)
                     && PutEach(old(journal), journal, WithDropIns(shipped, WEB), [Reload])
    {
      hide Went, Tries, Placed, PutOnly, Holding, PutEach, OthersKept, Puts;
      var listed;
      listed, shipped := ListShipped();
      if tree.Some? {
        PlacedNone(units, tree.value);
      } else {
        OthersNone(units);
      }
      if !listed {
        return false, [];
      }
      ghost var one := journal;
      var names := WithDropIns(shipped, WEB);
      hide Shipped;
      ok := InstallUnits(names);
      ghost var two := journal;
      WentMore(old(journal), one, journal, [ListUnits], Puts(names), ok);
      WentNowhere(two);
      if ok {
        PlacedHolds(old(units), names, tree.value);
        ok := TryNext(old(journal), [ListUnits], Reload);
        WentMore(old(journal), two, journal, [ListUnits] + Puts(names), [Reload], ok);
        if ok {
          PutsAfter(old(journal), journal, [ListUnits], names, [Reload]);
        }
      }
    }

    // --------------------------------------------------------------- the hold

    /** Stops what could start work, the active timers and paths among the
        shipped units, and waits for the work already started. What it stopped
        is returned even when it fails. */
    method Hold() returns (ok: bool, held: seq<UnitName>)
      modifies this`active, this`commands, this`journal
      ensures forall i, j :: 0 <= i < j < |held| ==> held[i] != held[j]
      ensures ok ==> tree.Some? && forall name :: name in held <==> name in Shipped(tree.value) && Holdable(name) && name in old(active)
      ensures active == old(active) || active == old(active) - (set name | name in held)
      ensures commands >= old(commands)
      ensures Went(old(journal), journal, []) && (ok ==> Went(old(journal), journal, HOLD))
      ensures Faultless(old(commands), commands) && tree.Some? ==> ok && active == old(active) - (set name | name in held)
      ensures active != old(active) ==> Went(old(journal), journal, [ListUnits] + [StopHeld])
      ensures ok && held != [] ==> Tries(old(journal), journal, StopHeld)
    {
      hide Went, Tries;
      var listed, shipped := ListShipped();
      if !listed {
        return false, [];
      }
      held := [];
      for i := 0 to |shipped|
        invariant forall name :: name in held <==> name in shipped[..i] && Holdable(name) && name in active
        invariant forall i, j :: 0 <= i < j < |held| ==> held[i] != held[j]
      {
        assert shipped[i] !in shipped[..i];
        if Holdable(shipped[i]) && shipped[i] in active {
          held := held + [shipped[i]];
        }
      }
      assert shipped[..|shipped|] == shipped;
      ghost var one := journal;
      var stopped := false;
      if held != [] {
        stopped := TryNext(old(journal), [ListUnits], StopHeld);
        TriesNext(old(journal), one, journal, StopHeld);
      }
      if stopped {
        active := active - set name | name in held;
      }
      ghost var two := journal;
      // The wait ends when the runs do, at the deadline, or with the deploy.
      ok := TryNext(old(journal), [ListUnits], AwaitRuns);
      if held != [] {
        TriesEver(old(journal), two, journal, StopHeld);
      }
      if stopped {
        WentMore(old(journal), two, journal, [ListUnits] + [StopHeld], [], true);
      }
    }

    /** Asks each held unit to start; a start that fails is not looked at. */
    method Resume(held: seq<UnitName>)
      modifies this`active, this`log, this`commands, this`journal
      ensures log == old(log) + StartsFor(held)
      ensures commands >= old(commands)
      ensures Went(old(journal), journal, [])
      ensures Faultless(old(commands), commands) ==> active == old(active) + set name | name in held
      ensures forall name :: name in held ==> Tries(old(journal), journal, StartHeld(name))
      ensures forall name :: name in active && name !in old(active) ==> name in held && Went(old(journal), journal, [StartHeld(name)])
    {
      hide Went, Tries;
      WentNowhere(journal);
      for i := 0 to |held|
        invariant log == old(log) + StartsFor(held)[..i]
        invariant commands >= old(commands) && Went(old(journal), journal, [])
        invariant Faultless(old(commands), commands) ==> active == old(active) + set name | name in held[..i]
        invariant forall name :: name in held[..i] ==> Tries(old(journal), journal, StartHeld(name))
        invariant forall name :: name in active && name !in old(active) ==>
                    name in held[..i] && Went(old(journal), journal, [StartHeld(name)])
      {
        ghost var before := journal;
        var up := TryNext(old(journal), [], StartHeld(held[i]));
        AllWent(old(journal), before, journal);
        AllTried(old(journal), before, journal);
        WentNext(old(journal), before, journal, [StartHeld(held[i])], up);
        TriesNext(old(journal), before, journal, StartHeld(held[i]));
        active := if up then active + {held[i]} else active;
        log := log + [Start(held[i])];
        assert held[..i + 1] == held[..i] + [held[i]];
      }
      assert held[..|held|] == held;
    }

    // ------------------------------------------------------------- rolling back

    /** Puts back the database a boot kept before migrating it. */
    method RestoreSchema(ghost schema: nat, ghost since: nat) returns (ok: bool)
      requires SchemaSafe(schema, since)
      modifies this`database, this`kept, this`running, this`log, this`commands, this`journal
      ensures ok ==> kept == None && (schema != UNAPPLIED ==> database.schema == schema)
      ensures ok && old(kept).Some? ==> database == old(kept).value.database && running == None
      ensures old(kept) == None ==> database == old(database) && running == old(running)
      ensures database == old(database) || (old(kept).Some? && kept == None && database == old(kept).value.database)
      ensures old(kept).Some? && kept.Some? ==> kept == old(kept) && database == old(database)
      ensures SchemaSafe(schema, since)
      ensures log == if old(kept).Some? && kept == None then old(log) + [Restored(old(kept).value)] else old(log)
      ensures commands >= old(commands)
      ensures Went(old(journal), journal, []) && (ok && old(kept).Some? ==> Went(old(journal), journal, [StopWeb] + [PutDatabase] + [RemoveLogs]))
      ensures Faultless(old(commands), commands) ==> ok
    {
      hide Went, Tries;
      if kept == None {
        WentNowhere(journal);
        return true;
      }
      ok := Try(StopWeb);
      if !ok {
        return;
      }
      running := None;
      ok := TryNext(old(journal), [StopWeb], PutDatabase);
      if !ok {
        return;
      }
      log := log + [Restored(kept.value)];
      database, kept := kept.value.database, None;
      // The migrated database's write-ahead log is removed, or is not.
      ok := TryNext(old(journal), [StopWeb] + [PutDatabase], RemoveLogs);
    }

    /** The previous record, tree and units, whatever fails of them, then the
        database, and the previous image only on a database it can read. */
    method PutBack(previous: Image, saved: map<UnitName, Bytes>, held: seq<UnitName>, ghost schema: nat, ghost since: nat)
      returns (ok: bool)
      requires SchemaSafe(schema, since)
      requires forall name :: name in saved ==> Ours(name)
      modifies this`record, this`tree, this`units, this`database, this`kept, this`running, this`boots, this`active, this`log, this`commands, this`journal
      ensures ok ==> record == Some(previous) && backup.Some? && tree == backup && OursIn(units) == saved && running == record
      ensures ok ==> database.schema == knows(previous)
      ensures OthersAlone(old(units), units)
      ensures old(log) <= log && (ok ==> HoldsRestored(log[|old(log)|..], database))
      ensures RollsBack(log[|old(log)|..], held, schema, since)
      ensures commands >= old(commands)
      ensures Went(old(journal), journal, []) && (ok ==> Went(old(journal), journal, BACK))
      ensures Tries(old(journal), journal, CopyTree) && Tries(old(journal), journal, ReadUnits) && Tries(old(journal), journal, Reload)
      ensures Faultless(old(commands), commands) && pinned(previous) && backup.Some? ==> ok
    {
      hide Revives, HoldsRestored, Went, Tries, FILES_BACK, BOOT;
      log := log + [RollBack];
      var files := PutFilesBack(previous, saved);
      ghost var one := journal;
      var up := Revive(held, schema, since);
      if files {
        WentMore(old(journal), one, journal, FILES_BACK, BOOT, up);
      }
      WentMore(old(journal), one, journal, [], [], true);
      TriesEver(old(journal), one, journal, CopyTree);
      TriesEver(old(journal), one, journal, ReadUnits);
      TriesEver(old(journal), one, journal, Reload);
      ok := files && up;
      assert log[|old(log)|..][1..] == log[|old(log)| + 1..];
      assert log[|old(log)|..] == [RollBack] + log[|old(log)| + 1..];
      if ok {
        RestoredLater([RollBack], log[|old(log)| + 1..], database);
      }
    }

    /** The record, the tree and the units: each is tried whatever the others did. */
    method PutFilesBack(previous: Image, saved: map<UnitName, Bytes>) returns (ok: bool)
      requires forall name :: name in saved ==> Ours(name)
      modifies this`record, this`tree, this`units, this`commands, this`journal
      ensures ok ==> record == Some(previous) && backup.Some? && tree == backup && OursIn(units) == saved
      ensures OthersAlone(old(units), units)
      ensures commands >= old(commands)
      ensures Went(old(journal), journal, []) && (ok ==> Went(old(journal), journal, FILES_BACK))
      // Each part is tried, whatever became of the others.
      ensures Tries(old(journal), journal, CopyTree) && Tries(old(journal), journal, ReadUnits) && Tries(old(journal), journal, Reload)
      ensures Faultless(old(commands), commands) && pinned(previous) && backup.Some? ==> ok
    {
      hide Went, Tries, TREE_BACK, FILES_BACK;
      var recorded := Record(previous);
      ghost var one := journal;
      var planted := RestoreTree();
      ghost var two := journal;
      var undone := RestoreUnits(saved);
      ghost var three := journal;
      var reloaded := Try(Reload);
      ok := recorded && planted && undone && reloaded;
      BackInTurn(old(journal), one, two, three, journal, recorded, planted, undone, reloaded);
    }

    method Revive(held: seq<UnitName>, ghost schema: nat, ghost since: nat) returns (ok: bool)
      requires SchemaSafe(schema, since)
      modifies this`database, this`kept, this`running, this`boots, this`active, this`log, this`commands, this`journal
      ensures ok ==> record.Some? && running == record && database.schema == knows(record.value)
      ensures old(log) <= log && (ok ==> HoldsRestored(log[|old(log)|..], database))
      ensures Revives(log[|old(log)|..], held, schema, since)
      ensures commands >= old(commands)
      ensures Went(old(journal), journal, []) && (ok ==> Went(old(journal), journal, BOOT))
      ensures Faultless(old(commands), commands) && record.Some? && pinned(record.value) ==> ok
    {
      hide PREFIX, LEFTOVERS, UNIT_SUFFIXES, WEB, SECRETS, SECRETS_MOUNT, PROVENANCE, Revives, StartsFor, HoldsRestored, Went, Tries, BOOT;
      ghost var begun, before := log, kept;
      var restored := RestoreSchema(schema, since);
      ghost var put := if log == begun then [] else [Restored(before.value)];
      assert log == begun + put;
      ok := false;
      ghost var one := journal;
      ghost var on := database.schema;
      if restored {
        log := log + [Restart(database.schema)];
        ok := Boot(schema, since);
        WentNext(old(journal), one, journal, BOOT, ok);
      }
      ghost var again := if restored then [Restart(on)] else [];
      assert log == begun + (put + again);
      ghost var two := journal;
      Resume(held);
      WentMore(old(journal), two, journal, if ok then BOOT else [], [], true);
      assert log[|begun|..] == put + again + StartsFor(held);
      ItRevives(before, put, again, held, schema, since);
      if ok {
        ItRestored(before, put, again, held, database);
      }
    }

    // -------------------------------------------------------------- the release

    /** Replaces the release HQ runs with image's. `held` is what was stopped
        for it, `reached` whether anything was, `turned` the command at which it
        was given up and rolled back, and `installed` whether its install had
        committed by then. */
    method Release(image: Image)
      returns (error: Option<Error>, ghost held: seq<UnitName>, ghost reached: bool, ghost turned: Option<nat>, ghost installed: bool)
      modifies this
      ensures old(log) <= log
      ensures OutcomeOf(error) in {Live, LiveCheckFailed} ==>
        record == Some(image) && IsTreeOf(image) && reached && turned == None
        && (holds(image).Keys !! PROVENANCE ==> Clean(ids(image), holds(image), tree.value, units))
      ensures OutcomeOf(error) == NotDeployed ==>
        record == old(record) && tree == old(tree) && OursIn(units) == OursIn(old(units))
        && (running == old(running) || (running == old(record) && running.Some? && database.schema == knows(running.value)))
        && HoldsRestored(log[|old(log)|..], database)
      // The units outside the prefix are put back whenever they were as the
      // image ships them; and once its install has committed, only then.
      ensures OutcomeOf(error) == NotDeployed && InPlace(old(units), holds(image)) ==> units == old(units)
      ensures OutcomeOf(error) == NotDeployed && installed ==>
        InPlace(units, holds(image)) && (units == old(units) <==> InPlace(old(units), holds(image)))
      // The rollback failed only if one of its own commands did, or the image
      // to go back to was never one a record may hold.
      ensures OutcomeOf(error) == RollbackFailed ==>
        turned.Some? && old(record).Some? && !(Faultless(turned.value, commands) && pinned(old(record).value))
      ensures turned.Some? ==> OutcomeOf(error) in {NotDeployed, RollbackFailed}
      ensures OthersKept(old(units), units, holds(image))
      ensures forall i, j :: 0 <= i < j < |held| ==> held[i] != held[j]
      ensures LogKeeps(log[|old(log)|..], held, old(database.schema), old(boots))
      ensures !reached ==> held == [] && log == old(log) && OutcomeOf(error) == NotDeployed
      // The answer is what was done.
      ensures Answers(old(journal), journal, log[|old(log)|..], kept, OutcomeOf(error), turned.Some?, RELEASE)
      // Nothing live is touched before the rehearsal passed.
      ensures reached ==> Went(old(journal), journal, [Rehearse])
      ensures !reached ==> tree == old(tree) && units == old(units) && running == old(running) && active == old(active)
      ensures !reached ==> database == old(database) && kept == old(kept) && record == old(record)
      // When nothing fails, the release is live.
      ensures Faultless(old(commands), commands) && deployable(image) && pinned(image) && old(record).Some? && old(tree).Some?
        ==> OutcomeOf(error) == Live
    {
      hide PREFIX, LEFTOVERS, UNIT_SUFFIXES, WEB, SECRETS, SECRETS_MOUNT, PROVENANCE;
      held, reached, turned, installed := [], false, None, false;
      hide OutcomeOf, NotBegun, HoldsRestored, SchemaSafe, Went, Tries, Answers, BOOT, HOLD, PREPARE, STAGE, SYNC, WEB_UNIT, SWITCH, CHECK_UNITS, PREFLIGHT, PLACE, INSTALL, SETTLE, REPLACE, RELEASE, TREE_BACK, FILES_BACK, BACK;
      assert log[|log|..] == [];
      NoneRestored([], database);
      AnswersNothing(journal, journal, [], kept, RELEASE);
      if !deployable(image) || record == None {
        return NotBegun(), [], false, None, false;
      }
      var previous := record.value;
      var began, stopped, ready := Begin();
      reached, held := began, stopped;
      if !began {
        AnswersNothing(old(journal), journal, [], kept, RELEASE);
        return NotBegun(), [], false, None, false;
      }
      ghost var three := journal;
      hide OursIn, Clean, LogKeeps, SyncedFrom, OthersKept, InPlace;
      KeptAlone(units, holds(image));
      if !ready {
        StartsAreStarts(held);
        NoneRestored(StartsFor(held), database);
        Resume(stopped);
        WentMore(old(journal), three, journal, [Rehearse], [], true);
        AnswersNothing(old(journal), journal, held, kept, RELEASE);
        StartsKeep(held, database.schema, boots);
        error := NotBegun();
        return;
      }
      error, turned, installed := Attempt(image, previous, stopped);
      AnswersAfter(old(journal), three, journal, log[|old(log)|..], kept, OutcomeOf(error), turned.Some?);
    }

    /** The rehearsal, the hold and what a rollback needs: whether anything was
        held, what was, and whether all of it worked. */
    method Begin() returns (reached: bool, held: seq<UnitName>, ready: bool)
      requires record.Some?
      modifies this`active, this`backup, this`kept, this`commands, this`journal
      ensures forall i, j :: 0 <= i < j < |held| ==> held[i] != held[j]
      ensures !reached ==> held == [] && !ready && active == old(active) && kept == old(kept) && backup == old(backup)
      ensures ready ==> backup.Some? && backup == tree && kept == None
      ensures commands >= old(commands) && Went(old(journal), journal, [])
      ensures reached ==> Went(old(journal), journal, [Rehearse])
      ensures ready ==> Went(old(journal), journal, [Rehearse] + HOLD + PREPARE)
      ensures Faultless(old(commands), commands) && tree.Some? ==> reached && ready
    {
      hide Went, Tries, HOLD, PREPARE, PREFIX, UNIT_SUFFIXES;
      held, ready := [], false;
      reached := Try(Rehearse);
      if !reached {
        return;
      }
      ghost var one := journal;
      var free;
      free, held := Hold();
      ghost var two := journal;
      WentNowhere(journal);
      if free {
        ready := Prepare();
      }
      ReadyInTurn(old(journal), one, two, journal, free, ready);
      WentMore(old(journal), one, two, [Rehearse], [], true);
      WentNext(old(journal), two, journal, [], true);
    }

    /** The release, from the snapshots to where it stands or is rolled back. */
    method Attempt(image: Image, previous: Image, held: seq<UnitName>)
      returns (error: Option<Error>, ghost turned: Option<nat>, ghost installed: bool)
      requires record == Some(previous) && backup.Some? && backup == tree && kept == None
      modifies this`record, this`tree, this`units, this`active, this`running, this`database, this`kept, this`boots, this`log, this`commands, this`journal
      ensures old(log) <= log
      ensures OutcomeOf(error) in {Live, LiveCheckFailed} ==> record == Some(image) && IsTreeOf(image) && turned == None
      ensures OutcomeOf(error) in {Live, LiveCheckFailed} && holds(image).Keys !! PROVENANCE ==>
        Clean(ids(image), holds(image), tree.value, units)
      ensures OutcomeOf(error) == NotDeployed ==>
        record == Some(previous) && tree == old(tree) && OursIn(units) == OursIn(old(units))
        && running == record && database.schema == knows(previous) && HoldsRestored(log[|old(log)|..], database)
      ensures OutcomeOf(error) == NotDeployed && InPlace(old(units), holds(image)) ==> units == old(units)
      ensures OutcomeOf(error) == NotDeployed && installed ==>
        InPlace(units, holds(image)) && (units == old(units) <==> InPlace(old(units), holds(image)))
      ensures OutcomeOf(error) == RollbackFailed ==> turned.Some? && !(Faultless(turned.value, commands) && pinned(previous))
      ensures turned.Some? ==> OutcomeOf(error) in {NotDeployed, RollbackFailed}
      ensures OthersKept(old(units), units, holds(image))
      ensures LogKeeps(log[|old(log)|..], held, old(database.schema), old(boots))
      ensures commands >= old(commands)
      ensures Went(old(journal), journal, [])
      ensures Answers(old(journal), journal, log[|old(log)|..], kept, OutcomeOf(error), turned.Some?, REPLACE)
      ensures Faultless(old(commands), commands) && pinned(image) ==> OutcomeOf(error) == Live
    {
      hide PREFIX, LEFTOVERS, UNIT_SUFFIXES, WEB, SECRETS, SECRETS_MOUNT, PROVENANCE;
      turned := None;
      var saved := OursIn(units);
      ghost var schema, since, from, before := database.schema, boots, log, units;
      hide OursIn, Ours, OthersKept, OthersAlone, InPlace, HoldsRestored, Clean, Installed, LogKeeps, Tried, RollsBack, SyncedFrom, Went, Tries, Replaced, Answers, REPLACE, BACK;
      hide OutcomeOf, OfCheck, OfRollback;
      ghost var begun := journal;
      var stands, standing;
      stands, standing, installed := Replace(image, held, schema, since);
      if stands {
        error := OfCheck(standing);
        AnswersStood(begun, journal, log[|from|..], kept, standing);
        return;
      }
      turned := Some(commands);
      WentAtAll(begun, journal, log[|from|..], kept, stands, standing);
      error := GiveUp(image, previous, saved, held, before, begun, |from|, schema, since);
    }

    /** Given up: the previous release is put back. `before` is the units it
        found, and `begun` and `from` where its journal and its log began. */
    method GiveUp(ghost image: Image, previous: Image, saved: map<UnitName, Bytes>, held: seq<UnitName>, ghost before: map<UnitName, Bytes>,
                  ghost begun: seq<Ran>, ghost from: nat, ghost schema: nat, ghost since: nat)
      returns (error: Option<Error>)
      requires SchemaSafe(schema, since) && saved == OursIn(before) && OthersKept(before, units, holds(image))
      requires Went(begun, journal, []) && from <= |log| && Tried(log[from..])
      modifies this`record, this`tree, this`units, this`database, this`kept, this`running, this`boots, this`active, this`log, this`commands, this`journal
      ensures old(log) <= log && OutcomeOf(error) in {NotDeployed, RollbackFailed}
      ensures OutcomeOf(error) == NotDeployed ==>
        record == Some(previous) && backup.Some? && tree == backup && OursIn(units) == OursIn(before)
        && running == record && database.schema == knows(previous) && HoldsRestored(log[from..], database)
      ensures OutcomeOf(error) == NotDeployed && InPlace(before, holds(image)) ==> units == before
      ensures OutcomeOf(error) == NotDeployed && InPlace(old(units), holds(image)) ==>
        InPlace(units, holds(image)) && (units == before <==> InPlace(before, holds(image)))
      ensures OutcomeOf(error) == RollbackFailed ==> !(Faultless(old(commands), commands) && pinned(previous) && backup.Some?)
      ensures OthersKept(before, units, holds(image))
      ensures LogKeeps(log[from..], held, schema, since)
      ensures commands >= old(commands) && Went(begun, journal, [])
      ensures Answers(begun, journal, log[from..], kept, OutcomeOf(error), true, REPLACE)
    {
      assert forall name :: name in saved ==> Ours(name);
      hide PREFIX, LEFTOVERS, UNIT_SUFFIXES, WEB, SECRETS, SECRETS_MOUNT, PROVENANCE, OutcomeOf, OfRollback;
      hide OursIn, Ours, OthersKept, OthersAlone, InPlace, HoldsRestored, LogKeeps, Tried, RollsBack, Went, Tries, Answers, REPLACE, BACK;
      ghost var tried, middle, one := log[from..], units, journal;
      var back := PutBack(previous, saved, held, schema, since);
      assert log[from..] == tried + log[from + |tried|..];
      AnswersBack(begun, one, journal, tried, log[from + |tried|..], kept, back, held, schema, since);
      AloneKept(before, middle, units, holds(image));
      AloneInPlace(middle, units, holds(image));
      if back {
        TriedRestored(tried, log[from + |tried|..], database);
        PutBackWhenInPlace(before, units, holds(image));
      }
      error := OfRollback(back);
    }

    /** The snapshots a rollback restores from, and no copy of the database
        left by an earlier release. */
    method Prepare() returns (ok: bool)
      modifies this`backup, this`kept, this`commands, this`journal
      ensures ok ==> backup.Some? && backup == tree && kept == None
      ensures kept == old(kept) || (kept == None && Went(old(journal), journal, PREPARE + [RemoveSnapshot]))
      ensures commands >= old(commands)
      ensures Went(old(journal), journal, []) && (ok ==> Went(old(journal), journal, PREPARE))
      ensures Faultless(old(commands), commands) && tree.Some? ==> ok
    {
      hide Went, Tries;
      ok := Try(ReadUnits);
      if !ok {
        return;
      }
      ghost var one := journal;
      ok := BackupTree();
      WentMore(old(journal), one, journal, [ReadUnits], [CopyTree], ok);
      if !ok {
        return;
      }
      ok := TryNext(old(journal), [ReadUnits] + [CopyTree], NameSnapshot);
      if !ok {
        return;
      }
      if kept.Some? {
        ok := TryNext(old(journal), PREPARE, RemoveSnapshot);
        if ok {
          kept := None;
        }
      }
    }

    /** The copy of the database is dropped, if it can be. */
    method Drop() returns (ok: bool)
      modifies this`kept, this`log, this`commands, this`journal
      ensures journal == old(journal) + [Ran(DropSnapshot, ok)] && Went(old(journal), journal, [])
      ensures kept == (if ok then None else old(kept)) && log == old(log) + Drops(ok)
      ensures commands == old(commands) + 1 && ok == !fails(old(commands))
    {
      ok := Try(DropSnapshot);
      if ok {
        kept := None;
        log := log + [DropKept];
      }
    }

    /** The drift unit, started on the release that stands. */
    method CheckLive() returns (ok: bool)
      modifies this`log, this`commands, this`journal
      ensures journal == old(journal) + [Ran(CheckDrift, ok)] && log == old(log) + [Checked(ok)]
      ensures Went(old(journal), journal, []) && (ok ==> Went(old(journal), journal, [CheckDrift]))
      ensures commands == old(commands) + 1 && ok == !fails(old(commands))
    {
      ok := Try(CheckDrift);
      log := log + [Checked(ok)];
    }

    /** What is left to do of a release that stands. */
    method Finish(held: seq<UnitName>) returns (dropped: bool, passed: bool)
      modifies this`active, this`kept, this`log, this`commands, this`journal
      ensures log == old(log) + StartsFor(held) + Drops(dropped) + [Checked(passed)]
      ensures dropped ==> kept == None
      ensures Finished(old(journal), journal, dropped, passed)
      ensures commands >= old(commands)
      ensures Faultless(old(commands), commands) ==> dropped && passed
    {
      hide Went, Tries, StartsFor;
      Resume(held);
      WentOnward(old(journal), journal);
      ghost var resumed := journal;
      dropped := Drop();
      passed := CheckLive();
      assert journal[..|journal| - 2] == resumed;
    }

    /** The steps a rollback is owed for until the release stands. */
    method Replace(image: Image, held: seq<UnitName>, ghost schema: nat, ghost since: nat)
      returns (stands: bool, standing: bool, ghost installed: bool)
      requires SchemaSafe(schema, since) && kept == None && database.schema == schema
      modifies this`record, this`tree, this`units, this`active, this`running, this`database, this`kept, this`boots, this`log, this`commands, this`journal
      ensures old(log) <= log
      ensures stands ==> record == Some(image) && IsTreeOf(image)
      ensures stands && holds(image).Keys !! PROVENANCE ==> Clean(ids(image), holds(image), tree.value, units)
      ensures stands ==> LogKeeps(log[|old(log)|..], held, schema, since)
      ensures !stands ==> SchemaSafe(schema, since) && !standing && Tried(log[|old(log)|..])
      ensures OthersKept(old(units), units, holds(image))
      ensures installed ==> InPlace(units, holds(image))
      ensures commands >= old(commands)
      ensures Replaced(old(journal), journal, log[|old(log)|..], kept, stands, standing)
      ensures Faultless(old(commands), commands) && pinned(image) ==> stands && standing
    {
      hide PREFIX, LEFTOVERS, UNIT_SUFFIXES, WEB, SECRETS, SECRETS_MOUNT, PROVENANCE, InPlace, Went, Tries, REPLACE;
      hide OthersKept, Clean, LogKeeps, SyncedFrom, Tried, StartsFor, Drops, Finished, EndsWith, Replaced;
      stands, installed := Change(image, schema, since);
      standing := false;
      if !stands {
        GaveUp(old(journal), journal, log[|old(log)|..], kept);
        return;
      }
      ghost var settled := journal;
      var dropped;
      dropped, standing := Finish(held);
      assert log[|old(log)|..] == [Restart(schema)] + StartsFor(held) + Drops(dropped) + [Checked(standing)];
      StandsKeep(held, dropped, standing, schema, since);
      StoodInTurn(old(journal), settled, journal, log[|old(log)|..], kept, dropped, standing);
    }

    /** HQ switched to the image and the rest of its release installed. */
    method Change(image: Image, ghost schema: nat, ghost since: nat) returns (stands: bool, ghost installed: bool)
      requires SchemaSafe(schema, since) && kept == None && database.schema == schema
      modifies this`record, this`tree, this`units, this`active, this`running, this`database, this`kept, this`boots, this`log, this`commands, this`journal
      ensures old(log) <= log && SchemaSafe(schema, since)
      ensures stands ==> record == Some(image) && IsTreeOf(image) && log == old(log) + [Restart(schema)]
      ensures stands && holds(image).Keys !! PROVENANCE ==> Clean(ids(image), holds(image), tree.value, units)
      ensures Tried(log[|old(log)|..])
      ensures OthersKept(old(units), units, holds(image))
      ensures installed ==> InPlace(units, holds(image))
      ensures commands >= old(commands)
      ensures Went(old(journal), journal, []) && (stands ==> Went(old(journal), journal, REPLACE))
      ensures Faultless(old(commands), commands) && pinned(image) ==> stands
    {
      hide PREFIX, LEFTOVERS, UNIT_SUFFIXES, WEB, SECRETS, SECRETS_MOUNT, PROVENANCE, InPlace, Went, Tries, SWITCH, SETTLE;
      ghost var before := units;
      installed := false;
      stands := Switch(image, schema, since);
      ghost var web, switched := units, journal;
      hide OthersKept, Clean, SyncedFrom, Tried;
      if !stands {
        return;
      }
      stands, installed := Settle(image, schema, since);
      WentMore(old(journal), switched, journal, SWITCH, SETTLE, stands);
      KeptTwice(before, web, units, holds(image));
    }

    /** HQ is switched to the image: its tree, its web unit, the record, and a
        restart that returns once HQ is healthy or fails. */
    method Switch(image: Image, ghost schema: nat, ghost since: nat) returns (healthy: bool)
      requires SchemaSafe(schema, since) && kept == None && database.schema == schema
      modifies this`record, this`tree, this`units, this`running, this`database, this`kept, this`boots, this`log, this`commands, this`journal
      ensures SchemaSafe(schema, since)
      ensures healthy ==> record == Some(image) && pinned(image) && running == record && IsTreeOf(image)
      ensures healthy ==> log == old(log) + [Restart(schema)]
      ensures old(log) <= log && Tried(log[|old(log)|..])
      ensures OthersKept(old(units), units, holds(image))
      ensures commands >= old(commands)
      ensures Went(old(journal), journal, []) && (healthy ==> Went(old(journal), journal, SWITCH))
      ensures Faultless(old(commands), commands) && pinned(image) ==> healthy
    {
      ghost var before := units;
      KeptAlone(before, holds(image));
      hide OthersKept, Went, Tries, SYNC, WEB_UNIT, BOOT, PutOnly, PutEach, Holding, Swapped;
      healthy := Sync(image);
      if !healthy {
        return;
      }
      ghost var one := journal;
      var names;
      healthy, names := InstallWebUnit();
      WentMore(old(journal), one, journal, SYNC, WEB_UNIT, healthy);
      KeptBySynced(before, units, tree.value, holds(image), ids(image));
      if !healthy {
        return;
      }
      ghost var two := journal;
      healthy := Record(image);
      WentMore(old(journal), two, journal, SYNC + WEB_UNIT, [WriteRecord], healthy);
      if !healthy {
        return;
      }
      healthy := TryNext(old(journal), SYNC + WEB_UNIT + [WriteRecord], PrepareSeal);
      if !healthy {
        return;
      }
      log := log + [Restart(database.schema)];
      ghost var three := journal;
      healthy := Boot(schema, since);
      WentMore(old(journal), three, journal, SYNC + WEB_UNIT + [WriteRecord] + [PrepareSeal], BOOT, healthy);
    }

    /** The rest of the release installed, once HQ is healthy on it; `installed`
        is whether the install committed, whatever was answered of it. */
    method Settle(image: Image, ghost schema: nat, ghost since: nat) returns (settled: bool, ghost installed: bool)
      requires SchemaSafe(schema, since) && IsTreeOf(image) && record == Some(image) && pinned(image) && running == record
      modifies this`units, this`active, this`record, this`running, this`database, this`kept, this`boots, this`commands, this`journal
      ensures SchemaSafe(schema, since)
      ensures record == Some(image)
      ensures settled && holds(image).Keys !! PROVENANCE ==> Clean(ids(image), holds(image), tree.value, units)
      ensures OthersKept(old(units), units, holds(image))
      ensures settled ==> installed
      ensures installed ==> InPlace(units, holds(image))
      ensures commands >= old(commands)
      ensures Went(old(journal), journal, []) && (settled ==> Went(old(journal), journal, SETTLE))
      ensures Faultless(old(commands), commands) ==> settled
    {
      ghost var before := units;
      hide OthersKept, Clean, Installed, SyncedFrom, InPlace, Went, Tries, INSTALL;
      ghost var restored;
      settled, restored := Install(schema, since);
      installed := settled;
      KeptBySynced(before, units, tree.value, holds(image), ids(image));
      InstalledIsInPlace(before, tree.value, holds(image), ids(image));
      SyncedFromIsClean(tree.value, holds(image), ids(image), before);
      // The install ran as a program of its own, and may still answer wrongly.
      var reported := TryNext(old(journal), if settled then INSTALL else [], AnswerInstall);
      settled := settled && reported;
    }
  }

  /** Units outside the prefix are left exactly as they were. */
  ghost predicate OthersAlone(before: map<UnitName, Bytes>, after: map<UnitName, Bytes>)
  {
    forall name :: !Ours(name) ==> (name in before <==> name in after) && (name in after ==> after[name] == before[name])
  }

  lemma KeptAlone(before: map<UnitName, Bytes>, tree: Tree)
    ensures OthersKept(before, before, tree)
  {
  }

  lemma KeptTwice(before: map<UnitName, Bytes>, middle: map<UnitName, Bytes>, after: map<UnitName, Bytes>, tree: Tree)
    requires OthersKept(before, middle, tree) && OthersKept(middle, after, tree)
    ensures OthersKept(before, after, tree)
  {
  }

  lemma AloneKept(before: map<UnitName, Bytes>, middle: map<UnitName, Bytes>, after: map<UnitName, Bytes>, tree: Tree)
    requires OthersKept(before, middle, tree) && OthersAlone(middle, after)
    ensures OthersKept(before, after, tree)
  {
  }

  lemma AloneInPlace(middle: map<UnitName, Bytes>, after: map<UnitName, Bytes>, tree: Tree)
    requires OthersAlone(middle, after)
    ensures InPlace(middle, tree) <==> InPlace(after, tree)
  {
    hide Shipped;
  }

  /** A synced tree ships what its image holds. */
  lemma KeptBySynced(before: map<UnitName, Bytes>, after: map<UnitName, Bytes>, tree: Tree, held: Tree, id: string)
    requires SyncedFrom(tree, held, id)
    ensures OthersKept(before, after, tree) <==> OthersKept(before, after, held)
  {
    var at :| SyncedWhen(tree, held, id, at);
    assert forall name :: name in Shipped(tree) <==> name in Shipped(held);
    assert forall name :: name in Shipped(tree) ==> tree[Unit(name)] == held[Unit(name)];
  }

  lemma SyncedFromIsClean(tree: Tree, held: Tree, id: string, units: map<UnitName, Bytes>)
    requires SyncedFrom(tree, held, id)
    ensures held.Keys !! PROVENANCE ==> Clean(id, held, tree, Installed(units, tree))
  {
    var at :| SyncedWhen(tree, held, id, at);
    if held.Keys !! PROVENANCE {
      SyncedAndInstalledIsClean(held, id, at, units);
    }
  }

  predicate EndsWith(events: seq<Event>, event: Event)
  {
    events != [] && events[|events| - 1] == event
  }

  /** The end of a release that stands: the copy dropped if it could be, and
      then the check, last of all, with the answer that is given. */
  ghost predicate Stood(was: seq<Ran>, now: seq<Ran>, events: seq<Event>, kept: Option<Copy>, passed: bool)
  {
    && |now| >= |was| + 2 && EndsWith(events, Checked(passed))
    && now[|now| - 1] == Ran(CheckDrift, passed)
    && now[|now| - 2].step == DropSnapshot
    && (now[|now| - 2].ok <==> DropKept in events)
    && (now[|now| - 2].ok ==> kept == None)
  }

  function Drops(dropped: bool): seq<Event>
  {
    if dropped then [DropKept] else []
  }

  predicate Finished(settled: seq<Ran>, now: seq<Ran>, dropped: bool, passed: bool)
  {
    && |now| >= |settled| + 2 && Went(settled, now[..|now| - 2], [])
    && now == now[..|now| - 2] + [Ran(DropSnapshot, dropped)] + [Ran(CheckDrift, passed)]
  }

  lemma StoodInTurn(begun: seq<Ran>, settled: seq<Ran>, now: seq<Ran>, events: seq<Event>, kept: Option<Copy>, dropped: bool, passed: bool)
    requires Went(begun, settled, REPLACE) && Finished(settled, now, dropped, passed)
    requires EndsWith(events, Checked(passed)) && (dropped <==> DropKept in events) && (dropped ==> kept == None)
    ensures Replaced(begun, now, events, kept, true, passed)
  {
    var resumed := now[..|now| - 2];
    var freed := resumed + [Ran(DropSnapshot, dropped)];
    WentOne(resumed, DropSnapshot, dropped);
    WentOne(freed, CheckDrift, passed);
    assert begun <= resumed;
    hide Went, Tries, REPLACE;
    WentMore(begun, settled, resumed, REPLACE, [], true);
    WentMore(begun, resumed, freed, REPLACE, [], true);
    WentMore(begun, freed, now, REPLACE, [CheckDrift], passed);
  }

  /** The steps of a release that stands, or that something was done at all. */
  ghost predicate Replaced(was: seq<Ran>, now: seq<Ran>, events: seq<Event>, kept: Option<Copy>, stands: bool, passed: bool)
  {
    && Went(was, now, [])
    && (stands ==> Went(was, now, REPLACE) && Stood(was, now, events, kept, passed))
    && (stands && passed ==> Went(was, now, REPLACE + [CheckDrift]))
  }

  lemma WentAtAll(was: seq<Ran>, now: seq<Ran>, events: seq<Event>, kept: Option<Copy>, stands: bool, passed: bool)
    requires Replaced(was, now, events, kept, stands, passed)
    ensures Went(was, now, [])
  {
  }

  lemma GaveUp(was: seq<Ran>, now: seq<Ran>, events: seq<Event>, kept: Option<Copy>)
    requires Went(was, now, [])
    ensures Replaced(was, now, events, kept, false, false)
  {
  }

  lemma StoodSince(was: seq<Ran>, middle: seq<Ran>, now: seq<Ran>, events: seq<Event>, kept: Option<Copy>, passed: bool)
    requires Went(was, middle, []) && Stood(middle, now, events, kept, passed)
    ensures Stood(was, now, events, kept, passed)
  {
  }

  /** A rollback's log ends in no check. */
  lemma NeverChecked(tried: seq<Event>, back: seq<Event>, held: seq<UnitName>, schema: nat, since: nat, passed: bool)
    requires Tried(tried) && RollsBack(back, held, schema, since)
    ensures !EndsWith(tried + back, Checked(passed))
  {
    var events := tried + back;
    assert events[|events| - 1] == back[|back| - 1];
    if |back| > 1 {
      assert back[|back| - 1] == back[1..][|back| - 2];
      assert back[|back| - 1] in back[1..];
    }
  }

  /** What the log of a release keeps, whichever way it went. */
  ghost predicate LogKeeps(events: seq<Event>, held: seq<UnitName>, schema: nat, since: nat)
  {
    // Each unit held is asked to start exactly once, in the order it was stopped.
    && Started(events) == held
    // A database put back is a copy kept by a boot of this release, of the
    // schema it found, unless nothing was applied to what it found.
    && (forall i :: 0 <= i < |events| && events[i].Restored? ==>
          since < events[i].copy.boot && (schema != UNAPPLIED ==> events[i].copy.database.schema == schema))
    // A rollback starts the previous image on that schema and no other.
    && (schema != UNAPPLIED ==>
          forall i, j :: 0 <= i < j < |events| && events[i] == RollBack && events[j].Restart? ==> events[j].schema == schema)
    // Nothing rolls back once the copy is dropped.
    && (forall i, j :: 0 <= i < j < |events| && events[i] == DropKept ==> events[j] != RollBack)
  }

  /** The steps of a release that was given up: none of them starts a held
      unit, drops the copy, puts one back or rolls back. */
  ghost predicate Tried(events: seq<Event>)
  {
    forall event :: event in events ==> event.Restart?
  }

  lemma StartsKeep(held: seq<UnitName>, schema: nat, since: nat)
    ensures LogKeeps(StartsFor(held), held, schema, since)
  {
    StartsOf(held);
    hide LogKeeps, Started;
    NeverBack(StartsFor(held), held, schema, since);
  }

  lemma StartsAreStarts(held: seq<UnitName>)
    ensures forall event :: event in StartsFor(held) ==> event.Start?
  {
  }

  lemma NeverBack(events: seq<Event>, held: seq<UnitName>, schema: nat, since: nat)
    requires Started(events) == held
    requires forall event :: event in events ==> !event.Restored? && event != RollBack
    ensures LogKeeps(events, held, schema, since)
  {
    assert forall i :: 0 <= i < |events| ==> events[i] in events;
  }

  lemma StandsKeep(held: seq<UnitName>, dropped: bool, passed: bool, schema: nat, since: nat)
    ensures var events := [Restart(schema)] + StartsFor(held) + Drops(dropped) + [Checked(passed)];
            LogKeeps(events, held, schema, since) && (DropKept in events <==> dropped) && EndsWith(events, Checked(passed))
  {
    var drops := Drops(dropped);
    var last := drops + [Checked(passed)];
    var events := [Restart(schema)] + StartsFor(held) + last;
    assert [Restart(schema)] + StartsFor(held) + drops + [Checked(passed)] == events;
    StandsStart(held, last, schema);
    StartsAreStarts(held);
    hide LogKeeps, Started, StartsFor;
    NeverBack(events, held, schema, since);
  }

  lemma StandsStart(held: seq<UnitName>, last: seq<Event>, schema: nat)
    requires forall event :: event in last ==> !event.Start?
    ensures Started([Restart(schema)] + StartsFor(held) + last) == held
  {
    StartsOf(held);
    StartedSplits([Restart(schema)] + StartsFor(held), last);
    StartedSplits([Restart(schema)], StartsFor(held));
    NoStarts([Restart(schema)]);
    NoStarts(last);
    hide Started, StartsFor;
  }

  lemma TriedRestored(tried: seq<Event>, back: seq<Event>, database: Database)
    requires Tried(tried) && HoldsRestored(back, database)
    ensures HoldsRestored(tried + back, database)
  {
    RestoredLater(tried, back, database);
  }

  lemma TriedThenBack(tried: seq<Event>, back: seq<Event>, held: seq<UnitName>, schema: nat, since: nat)
    requires Tried(tried) && RollsBack(back, held, schema, since)
    ensures LogKeeps(tried + back, held, schema, since)
  {
    StartedSplits(tried, back);
    StartedSplits([RollBack], back[1..]);
    assert back == [RollBack] + back[1..];
    NoStarts(tried);
    NoStarts([RollBack]);
    hide Started;
    var events := tried + back;
    forall i | 0 <= i < |events|
      ensures if i < |tried| then events[i].Restart? else events[i] == RollBack || RollbackStep(events[i], schema, since)
    {
      if i < |tried| {
        assert events[i] in tried;
      } else if i > |tried| {
        assert events[i] in back[1..];
      }
    }
  }

  /** What was put back is what the database is, where the image started on it
      reads it. */
  ghost predicate HoldsRestored(events: seq<Event>, database: Database)
  {
    forall event :: event in events && event.Restored? && event.copy.database.schema == database.schema ==> event.copy.database == database
  }

  lemma NoneRestored(events: seq<Event>, database: Database)
    requires forall event :: event in events ==> !event.Restored?
    ensures HoldsRestored(events, database)
  {
  }

  lemma RestoredLater(first: seq<Event>, second: seq<Event>, database: Database)
    requires (forall event :: event in first ==> !event.Restored?) && HoldsRestored(second, database)
    ensures HoldsRestored(first + second, database)
  {
  }

  lemma ItRestored(kept: Option<Copy>, put: seq<Event>, again: seq<Event>, held: seq<UnitName>, database: Database)
    requires put == [] || (kept.Some? && put == [Restored(kept.value)])
    requires put != [] && kept.value.database.schema == database.schema ==> kept.value.database == database
    requires forall event :: event in again ==> event.Restart?
    ensures HoldsRestored(put + again + StartsFor(held), database)
  {
    StartsAreStarts(held);
    hide StartsFor;
  }

  lemma ItRevives(kept: Option<Copy>, put: seq<Event>, again: seq<Event>, held: seq<UnitName>, schema: nat, since: nat)
    requires kept.Some? ==> (schema != UNAPPLIED ==> kept.value.database.schema == schema) && since < kept.value.boot
    requires put == [] || (kept.Some? && put == [Restored(kept.value)])
    requires again == [] || (|again| == 1 && again[0].Restart? && (schema != UNAPPLIED ==> again[0].schema == schema))
    ensures Revives(put + again + StartsFor(held), held, schema, since)
  {
    var before, starts := put + again, StartsFor(held);
    assert forall event :: event in before ==> !event.Start? && RollbackStep(event, schema, since);
    StartedSplits(before, starts);
    StartsOf(held);
    NoStarts(before);
    StartsAreStarts(held);
    hide Started, StartsFor;
    forall event | event in before + starts
      ensures RollbackStep(event, schema, since)
    {
      assert event in before || event in starts;
    }
  }

  /** What the log of a rollback holds: the copy put back is one kept since
      this release began, on the schema it found; the previous image is started
      only on that schema; and each held unit is asked to start once. */
  ghost predicate RollsBack(events: seq<Event>, held: seq<UnitName>, schema: nat, since: nat)
  {
    |events| > 0 && events[0] == RollBack && Revives(events[1..], held, schema, since)
  }

  ghost predicate Revives(events: seq<Event>, held: seq<UnitName>, schema: nat, since: nat)
  {
    Started(events) == held && forall event :: event in events ==> RollbackStep(event, schema, since)
  }

  predicate RollbackStep(event: Event, schema: nat, since: nat)
  {
    match event
    case Restored(copy) => (schema != UNAPPLIED ==> copy.database.schema == schema) && since < copy.boot
    case Restart(on) => schema != UNAPPLIED ==> on == schema
    case DropKept => false
    case Checked(_) => false
    case RollBack => false
    case Start(_) => true
  }

  function StartsFor(held: seq<UnitName>): seq<Event>
  {
    seq(|held|, i requires 0 <= i < |held| => Start(held[i]))
  }

  lemma {:induction false} NoStarts(events: seq<Event>)
    requires forall event :: event in events ==> !event.Start?
    ensures Started(events) == []
  {
    if events != [] {
      NoStarts(events[..|events| - 1]);
    }
  }
}
