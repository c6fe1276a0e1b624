/** A sweep's schedule: groups of kinds side by side, the kinds of one group one
    after another, and those that tally what it did at the end of it. */
module SweepSchedule {
  import opened Basics
  import Fuse = GitHubFuse

  datatype Kind = Kind(name: string)
  datatype Group = Group(name: string)

  /** What one kind came to: nothing to read it with, a reading, or for a tally
      what its group's reads spent of each installation's allowance. */
  datatype Report = Unconnected | Reading | Tallied(spent: map<Fuse.Installation, Fuse.Allowance>)

  /** What a controller reads: its kinds in key order, the ones that tally what
      their group did, whose each kind is, which it can read at all, and how
      many reads of one installation are in flight at most. */
  datatype Plan = Plan(kinds: seq<Kind>, tallies: set<Kind>, groupOf: Kind -> Group, hasSource: Kind -> bool, most: nat)

  /** The kinds of a sweep: every kind when none is asked for, otherwise the
      ones asked for and every tally of a group one of them is in. */
  predicate Wanted(plan: Plan, only: set<Kind>, kind: Kind)
  {
    only == {} || kind in only
    || (kind in plan.tallies && exists asked :: asked in only && plan.groupOf(asked) == plan.groupOf(kind))
  }

  function Keeping(kinds: seq<Kind>, keep: Kind -> bool): (kept: seq<Kind>)
    ensures forall kind :: kind in kept <==> kind in kinds && keep(kind)
  {
    if kinds == [] then []
    else (if keep(kinds[0]) then [kinds[0]] else []) + Keeping(kinds[1..], keep)
  }

  /** The stable sort that puts the tallies last. */
  function Ordered(plan: Plan): (ordered: seq<Kind>)
    ensures forall kind :: kind in ordered <==> kind in plan.kinds
  {
    Keeping(plan.kinds, kind => kind !in plan.tallies) + Keeping(plan.kinds, kind => kind in plan.tallies)
  }

  /** No kind that is not a tally comes after one that is. */
  ghost predicate TalliesLast(plan: Plan, kinds: seq<Kind>)
  {
    forall i, j :: 0 <= i < j < |kinds| && kinds[i] in plan.tallies ==> kinds[j] in plan.tallies
  }

  lemma {:induction false} KeepingDistinct(kinds: seq<Kind>, keep: Kind -> bool)
    requires Distinct(kinds)
    ensures Distinct(Keeping(kinds, keep))
  {
    if kinds != [] {
      assert Distinct(kinds[1..]);
      KeepingDistinct(kinds[1..], keep);
      assert kinds[0] !in kinds[1..];
    }
  }

  ghost predicate Before(kinds: seq<Kind>, one: Kind, other: Kind)
  {
    exists i, j :: 0 <= i < j < |kinds| && kinds[i] == one && kinds[j] == other
  }

  /** Kinds that are both tallies, or both none, stay in key order. */
  ghost predicate Stable(plan: Plan, kinds: seq<Kind>)
  {
    forall i, j :: 0 <= i < j < |kinds| && (kinds[i] in plan.tallies <==> kinds[j] in plan.tallies) ==>
      Before(plan.kinds, kinds[i], kinds[j])
  }

  lemma KeepingFirst(kinds: seq<Kind>, keep: Kind -> bool)
    ensures kinds == [] ==> Keeping(kinds, keep) == []
    ensures kinds != [] ==>
              Keeping(kinds, keep) == (if keep(kinds[0]) then [kinds[0]] else []) + Keeping(kinds[1..], keep)
  {
  }

  lemma {:induction false} KeepingInOrder(kinds: seq<Kind>, keep: Kind -> bool, i: nat, j: nat)
    requires i < j < |Keeping(kinds, keep)|
    ensures Before(kinds, Keeping(kinds, keep)[i], Keeping(kinds, keep)[j])
    decreases |kinds|
  {
    hide Before, Keeping;
    KeepingFirst(kinds, keep);
    var kept, rest := Keeping(kinds, keep), Keeping(kinds[1..], keep);
    if !keep(kinds[0]) {
      assert kept == rest;
      KeepingInOrder(kinds[1..], keep, i, j);
      StillBefore(kinds, rest[i], rest[j]);
    } else if i == 0 {
      assert kept[j] == rest[j - 1] && rest[j - 1] in rest;
      FirstIsBefore(kinds, rest[j - 1]);
    } else {
      assert kept[i] == rest[i - 1] && kept[j] == rest[j - 1];
      KeepingInOrder(kinds[1..], keep, i - 1, j - 1);
      StillBefore(kinds, rest[i - 1], rest[j - 1]);
    }
  }

  lemma FirstIsBefore(kinds: seq<Kind>, other: Kind)
    requires kinds != [] && other in kinds[1..]
    ensures Before(kinds, kinds[0], other)
  {
    var at :| 0 <= at < |kinds[1..]| && kinds[1..][at] == other;
    assert kinds[at + 1] == other;
  }

  lemma StillBefore(kinds: seq<Kind>, one: Kind, other: Kind)
    requires kinds != [] && Before(kinds[1..], one, other)
    ensures Before(kinds, one, other)
  {
    var i, j :| 0 <= i < j < |kinds[1..]| && kinds[1..][i] == one && kinds[1..][j] == other;
    assert kinds[i + 1] == one && kinds[j + 1] == other;
  }

  lemma OrderedIsStable(plan: Plan)
    ensures Stable(plan, Ordered(plan))
  {
    var readings, tallies := Keeping(plan.kinds, kind => kind !in plan.tallies), Keeping(plan.kinds, kind => kind in plan.tallies);
    forall i, j | 0 <= i < j < |readings|
      ensures Before(plan.kinds, readings[i], readings[j])
    {
      KeepingInOrder(plan.kinds, kind => kind !in plan.tallies, i, j);
    }
    forall i, j | 0 <= i < j < |tallies|
      ensures Before(plan.kinds, tallies[i], tallies[j])
    {
      KeepingInOrder(plan.kinds, kind => kind in plan.tallies, i, j);
    }
    BothStable(plan, readings, tallies);
  }

  lemma BothStable(plan: Plan, readings: seq<Kind>, tallies: seq<Kind>)
    requires forall kind :: kind in readings ==> kind !in plan.tallies
    requires forall kind :: kind in tallies ==> kind in plan.tallies
    requires forall i, j :: 0 <= i < j < |readings| ==> Before(plan.kinds, readings[i], readings[j])
    requires forall i, j :: 0 <= i < j < |tallies| ==> Before(plan.kinds, tallies[i], tallies[j])
    ensures Stable(plan, readings + tallies)
  {
    hide Before;
    assert forall i :: 0 <= i < |readings| ==> readings[i] in readings;
    assert forall i :: 0 <= i < |tallies| ==> tallies[i] in tallies;
  }

  lemma OrderedIsSorted(plan: Plan)
    requires Distinct(plan.kinds)
    ensures Distinct(Ordered(plan)) && TalliesLast(plan, Ordered(plan)) && Stable(plan, Ordered(plan))
  {
    OrderedIsStable(plan);
    hide Stable;
    var readings, tallies := Keeping(plan.kinds, kind => kind !in plan.tallies), Keeping(plan.kinds, kind => kind in plan.tallies);
    KeepingDistinct(plan.kinds, kind => kind !in plan.tallies);
    KeepingDistinct(plan.kinds, kind => kind in plan.tallies);
    forall i | 0 <= i < |Ordered(plan)|
      ensures Ordered(plan)[i] in plan.tallies <==> i >= |readings|
    {
      if i < |readings| {
        assert readings[i] in readings;
      } else {
        assert tallies[i - |readings|] in tallies;
      }
    }
  }

  /** One group's kinds, in the order they are read. */
  ghost predicate GroupIs(plan: Plan, only: set<Kind>, group: Group, kinds: seq<Kind>, ordered: seq<Kind>)
  {
    && Distinct(kinds)
    && TalliesLast(plan, kinds)
    && Stable(plan, kinds)
    && forall kind :: kind in kinds <==> kind in ordered && Wanted(plan, only, kind) && plan.hasSource(kind) && plan.groupOf(kind) == group
  }

  ghost predicate GroupedBy(plan: Plan, only: set<Kind>, groups: map<Group, seq<Kind>>, ordered: seq<Kind>)
  {
    && (forall group :: group in groups ==> GroupIs(plan, only, group, groups[group], ordered))
    && (forall kind :: kind in ordered && Wanted(plan, only, kind) && plan.hasSource(kind) ==> plan.groupOf(kind) in groups)
  }

  /** What is read and in what order, and what is reported at once because
      nothing can read it. */
  method Prepare(plan: Plan, only: set<Kind>) returns (found: map<Kind, Report>, groups: map<Group, seq<Kind>>)
    requires Distinct(plan.kinds)
    ensures GroupedBy(plan, only, groups, plan.kinds)
    ensures forall kind :: kind in found <==> kind in plan.kinds && Wanted(plan, only, kind) && !plan.hasSource(kind)
    ensures forall kind :: kind in found ==> found[kind] == Unconnected
  {
    found, groups := map[], map[];
    var ordered := Ordered(plan);
    OrderedIsSorted(plan);
    for i := 0 to |ordered|
      invariant GroupedBy(plan, only, groups, ordered[..i])
      invariant forall kind :: kind in found <==> kind in ordered[..i] && Wanted(plan, only, kind) && !plan.hasSource(kind)
      invariant forall kind :: kind in found ==> found[kind] == Unconnected
    {
      var kind := ordered[i];
      assert ordered[..i + 1] == ordered[..i] + [kind];
      if !Wanted(plan, only, kind) {
        continue;
      }
      if !plan.hasSource(kind) {
        found := found[kind := Unconnected];
        continue;
      }
      var group := plan.groupOf(kind);
      GroupMore(plan, only, groups, ordered, i);
      groups := groups[group := (if group in groups then groups[group] else []) + [kind]];
    }
    assert ordered[..|ordered|] == ordered;
  }

  lemma GroupMore(plan: Plan, only: set<Kind>, groups: map<Group, seq<Kind>>, ordered: seq<Kind>, i: nat)
    requires i < |ordered| && Distinct(ordered) && TalliesLast(plan, ordered) && Stable(plan, ordered) && GroupedBy(plan, only, groups, ordered[..i])
    requires Wanted(plan, only, ordered[i]) && plan.hasSource(ordered[i])
    ensures var kind, group := ordered[i], plan.groupOf(ordered[i]);
            GroupedBy(plan, only, groups[group := (if group in groups then groups[group] else []) + [kind]], ordered[..i + 1])
  {
    var kind, group := ordered[i], plan.groupOf(ordered[i]);
    var before := if group in groups then groups[group] else [];
    assert ordered[..i + 1] == ordered[..i] + [kind];
    OneMore(plan, only, group, before, ordered, i);
    hide Wanted, Distinct, TalliesLast, Stable;
  }

  lemma OneMore(plan: Plan, only: set<Kind>, group: Group, before: seq<Kind>, ordered: seq<Kind>, i: nat)
    requires i < |ordered| && Distinct(ordered) && TalliesLast(plan, ordered) && Stable(plan, ordered) && GroupIs(plan, only, group, before, ordered[..i])
    requires Wanted(plan, only, ordered[i]) && plan.hasSource(ordered[i]) && plan.groupOf(ordered[i]) == group
    ensures GroupIs(plan, only, group, before + [ordered[i]], ordered[..i + 1])
  {
    hide Wanted, Before;
    var kind := ordered[i];
    assert ordered[..i + 1] == ordered[..i] + [kind];
    forall j | 0 <= j < |before|
      ensures before[j] != kind && (before[j] in plan.tallies ==> kind in plan.tallies)
      ensures (before[j] in plan.tallies <==> kind in plan.tallies) ==> Before(plan.kinds, before[j], kind)
    {
      assert before[j] in ordered[..i];
      var at :| 0 <= at < i && ordered[at] == before[j];
    }
  }

  // ------------------------------------------------------- the groups at once

  datatype Happening = Began(kind: Kind) | Ended(kind: Kind)

  /** How far one group has got: the kinds it has read, whether it is reading
      the next, what its reads did to its ledger, and what happened in it. */
  datatype Progress = Progress(done: nat, reading: bool, events: seq<Fuse.Event>, log: seq<Happening>)

  const WAITING := Progress(0, false, [], [])

  function Ledger(progress: Progress): Fuse.Sweep
  {
    Fuse.After(Fuse.BEGUN, progress.events)
  }

  datatype State = State(found: map<Kind, Report>, at: map<Group, Progress>)

  /** One step of one group: a read begins, something happens to the ledger it
      spends through, or it ends and its report is put under the lock. */
  datatype Step = Begin(group: Group) | Spend(group: Group, event: Fuse.Event) | End(group: Group)

  predicate Possible(plan: Plan, groups: map<Group, seq<Kind>>, state: State, step: Step)
  {
    step.group in groups && step.group in state.at
    && var progress, kinds := state.at[step.group], groups[step.group];
       match step
       case Begin(_) => !progress.reading && progress.done < |kinds|
       // A tally asks its provider nothing.
       case Spend(_, event) =>
         progress.reading && progress.done < |kinds| && kinds[progress.done] !in plan.tallies
         && Fuse.Possible(Ledger(progress), event, plan.most)
       // A read is over once its requests have come back.
       case End(_) =>
         progress.reading && progress.done < |kinds|
         && (kinds[progress.done] in plan.tallies || Ledger(progress).flights == map[])
  }

  function Next(plan: Plan, groups: map<Group, seq<Kind>>, state: State, step: Step): State
    requires Possible(plan, groups, state, step)
  {
    var progress, kinds := state.at[step.group], groups[step.group];
    match step
    case Begin(group) =>
      state.(at := state.at[group := progress.(reading := true, log := progress.log + [Began(kinds[progress.done])])])
    case Spend(group, event) => state.(at := state.at[group := progress.(events := progress.events + [event])])
    case End(group) =>
      var kind := kinds[progress.done];
      State(state.found[kind := if kind in plan.tallies then Tallied(Fuse.AllowancesOf(Ledger(progress))) else Reading],
            state.at[group := progress.(done := progress.done + 1, reading := false, log := progress.log + [Ended(kind)])])
  }

  /** A run: steps of any groups in any order, each possible when it is taken. */
  ghost predicate Runs(plan: Plan, groups: map<Group, seq<Kind>>, states: seq<State>, steps: seq<Step>)
  {
    |states| == |steps| + 1
    && forall i :: 0 <= i < |steps| ==>
         Possible(plan, groups, states[i], steps[i]) && states[i + 1] == Next(plan, groups, states[i], steps[i])
  }

  /** What a group's log is: its kinds begun and ended one after another, in
      order, and never two at once. */
  predicate InTurn(kinds: seq<Kind>, progress: Progress)
  {
    && progress.done <= |kinds|
    && (progress.reading ==> progress.done < |kinds|)
    && |progress.log| == 2 * progress.done + (if progress.reading then 1 else 0)
    && forall i :: 0 <= i < |progress.log| ==>
         progress.log[i] == if i % 2 == 0 then Began(kinds[i / 2]) else Ended(kinds[i / 2])
  }

  /** A group's ledger is a run of the fuse, with a request in flight only
      while a kind that is no tally is being read. */
  ghost predicate Spends(plan: Plan, kinds: seq<Kind>, progress: Progress)
  {
    && Fuse.Runs(Fuse.BEGUN, progress.events, plan.most)
    && (Ledger(progress).flights != map[] ==> progress.reading && progress.done < |kinds| && kinds[progress.done] !in plan.tallies)
  }

  /** What every run keeps of one group. */
  ghost predicate Kept(plan: Plan, kinds: seq<Kind>, progress: Progress, found: map<Kind, Report>)
  {
    && InTurn(kinds, progress)
    && Spends(plan, kinds, progress)
    && (forall i :: 0 <= i < |kinds| ==> (kinds[i] in found <==> i < progress.done))
    // A tally already reported says what the group has spent, and goes on saying so.
    && (forall i :: 0 <= i < progress.done ==>
          found[kinds[i]] == if kinds[i] in plan.tallies then Tallied(Fuse.AllowancesOf(Ledger(progress))) else Reading)
  }

  ghost predicate Good(plan: Plan, groups: map<Group, seq<Kind>>, unconnected: map<Kind, Report>, state: State)
  {
    && state.at.Keys == groups.Keys
    && (forall group :: group in groups ==> Kept(plan, groups[group], state.at[group], state.found))
    && (forall kind :: kind in unconnected ==> kind in state.found && state.found[kind] == unconnected[kind])
    && (forall kind :: kind in state.found ==> kind in unconnected || exists group :: group in groups && kind in groups[group])
  }

  /** A plan's groups share no kind, with each other or with what is unconnected. */
  ghost predicate Apart(plan: Plan, groups: map<Group, seq<Kind>>, unconnected: map<Kind, Report>)
  {
    && (forall group :: group in groups ==> Distinct(groups[group]) && TalliesLast(plan, groups[group]))
    && (forall group, kind :: group in groups && kind in groups[group] ==> plan.groupOf(kind) == group && kind !in unconnected)
  }

  /** A step moves its own group, and puts a report of the kind that group is at. */
  lemma NextMoves(plan: Plan, groups: map<Group, seq<Kind>>, state: State, step: Step) returns (kind: Kind, report: Report)
    requires Possible(plan, groups, state, step)
    ensures step.group in groups && kind in groups[step.group]
    ensures var next := Next(plan, groups, state, step);
            && next.at.Keys == state.at.Keys
            && (forall group :: group in state.at && group != step.group ==> next.at[group] == state.at[group])
            && (next.found == state.found || next.found == state.found[kind := report])
  {
    hide Fuse.Possible, Fuse.After, Fuse.AllowancesOf;
    kind := groups[step.group][state.at[step.group].done];
    report := if step.End? then Next(plan, groups, state, step).found[kind] else Unconnected;
  }

  lemma NextIsGood(plan: Plan, groups: map<Group, seq<Kind>>, unconnected: map<Kind, Report>, state: State, step: Step)
    requires Apart(plan, groups, unconnected) && Good(plan, groups, unconnected, state) && Possible(plan, groups, state, step)
    ensures Good(plan, groups, unconnected, Next(plan, groups, state, step))
  {
    hide Next, Possible, Kept, Distinct, TalliesLast;
    var kind, report := NextMoves(plan, groups, state, step);
    StepKeeps(plan, groups[step.group], state, step, groups);
    var next := Next(plan, groups, state, step);
    assert plan.groupOf(kind) == step.group && kind !in unconnected;
    forall group | group in groups
      ensures Kept(plan, groups[group], next.at[group], next.found)
    {
      if group != step.group {
        assert Kept(plan, groups[group], state.at[group], state.found);
        assert kind in groups[group] ==> plan.groupOf(kind) == group;
        OthersKeep(plan, groups[group], state.at[group], state.found, kind, report);
      }
    }
  }

  /** What is put of one group's kind is nothing to the others. */
  lemma OthersKeep(plan: Plan, kinds: seq<Kind>, progress: Progress, found: map<Kind, Report>, kind: Kind, report: Report)
    requires Kept(plan, kinds, progress, found) && kind !in kinds
    ensures Kept(plan, kinds, progress, found[kind := report])
  {
    hide InTurn, Spends, Fuse.AllowancesOf;
    assert InTurn(kinds, progress) ==> progress.done <= |kinds| by {
      TurnsWithin(kinds, progress);
    }
    assert forall i :: 0 <= i < |kinds| ==> kinds[i] != kind;
  }

  lemma TurnsWithin(kinds: seq<Kind>, progress: Progress)
    ensures InTurn(kinds, progress) ==> progress.done <= |kinds|
  {
  }

  lemma StepKeeps(plan: Plan, kinds: seq<Kind>, state: State, step: Step, groups: map<Group, seq<Kind>>)
    requires Possible(plan, groups, state, step) && kinds == groups[step.group]
    requires Distinct(kinds) && TalliesLast(plan, kinds) && Kept(plan, kinds, state.at[step.group], state.found)
    ensures var next := Next(plan, groups, state, step);
            Kept(plan, kinds, next.at[step.group], next.found)
  {
    var progress := state.at[step.group];
    assert (2 * progress.done) / 2 == progress.done && (2 * progress.done + 1) / 2 == progress.done;
    if step.Spend? {
      Fuse.RunsOne(progress.events, step.event, plan.most);
    }
    hide Fuse.Runs, Fuse.After, Fuse.AllowancesOf, Fuse.Possible, Fuse.Next;
  }

  /** Every interleaving of the groups, to any point of the sweep. */
  lemma {:induction false} EveryRunIsGood(plan: Plan, groups: map<Group, seq<Kind>>, unconnected: map<Kind, Report>,
                                          states: seq<State>, steps: seq<Step>)
    requires Apart(plan, groups, unconnected) && Runs(plan, groups, states, steps)
    requires states[0] == State(unconnected, map group | group in groups :: WAITING)
    ensures Good(plan, groups, unconnected, states[|steps|])
    decreases |steps|
  {
    if steps != [] {
      var last := |steps| - 1;
      EveryRunIsGood(plan, groups, unconnected, states[..|steps|], steps[..last]);
      NextIsGood(plan, groups, unconnected, states[last], steps[last]);
    } else {
      forall group | group in groups
        ensures Kept(plan, groups[group], WAITING, unconnected)
      {
        assert forall i :: 0 <= i < |groups[group]| ==> groups[group][i] in groups[group];
      }
    }
  }

  /** When the groups are done: every wanted kind has a report and nothing else
      has, which is every kind when none is asked for, and otherwise those asked
      for and the tallies that share a group with one of them; each was begun and ended once and never beside another of its group,
      every group's spending was a run of the fuse, and what a tally reports of
      an installation is its group's last word on it: exactly the installations
      the group ends by having asked after, each with what was spent of it in
      the end. */
  lemma SweepEnds(plan: Plan, only: set<Kind>, unconnected: map<Kind, Report>, groups: map<Group, seq<Kind>>,
                  states: seq<State>, steps: seq<Step>)
    requires Distinct(plan.kinds) && GroupedBy(plan, only, groups, plan.kinds)
    requires forall kind :: kind in unconnected <==> kind in plan.kinds && Wanted(plan, only, kind) && !plan.hasSource(kind)
    requires Runs(plan, groups, states, steps) && states[0] == State(unconnected, map group | group in groups :: WAITING)
    requires forall group :: group in groups && group in states[|steps|].at ==> states[|steps|].at[group].done == |groups[group]|
    ensures var last := states[|steps|];
            && last.at.Keys == groups.Keys
            && (forall kind :: kind in last.found <==> kind in plan.kinds && Wanted(plan, only, kind))
            && (only == {} ==> forall kind :: kind in last.found <==> kind in plan.kinds)
            && (only != {} ==> forall kind :: kind in plan.kinds && kind !in plan.tallies ==> (kind in last.found <==> kind in only))
            && (only != {} ==> forall kind :: kind in plan.kinds && kind in plan.tallies ==>
                  (kind in last.found <==> kind in only || exists asked :: asked in only && plan.groupOf(asked) == plan.groupOf(kind)))
            && (forall group :: group in groups ==> InTurn(groups[group], last.at[group]) && !last.at[group].reading)
            && (forall group :: group in groups ==>
                  Fuse.Safe(Ledger(last.at[group]), plan.most) && Ledger(last.at[group]).flights == map[])
            && (forall kind :: kind in plan.kinds && Wanted(plan, only, kind) && plan.hasSource(kind) ==>
                  && plan.groupOf(kind) in groups
                  && (kind !in plan.tallies ==> last.found[kind] == Reading)
                  && (kind in plan.tallies ==> last.found[kind].Tallied?
                                               && Tallies(Ledger(last.at[plan.groupOf(kind)]), plan.most, last.found[kind].spent)))
  {
    EveryRunIsGood(plan, groups, unconnected, states, steps);
    var last := states[|steps|];
    ReportedAre(plan, only, last.found);
    hide Wanted, Distinct, TalliesLast, Stable, Fuse.Runs, Fuse.Safe, Fuse.After, Fuse.AllowancesOf, Tallies, InTurn;
    forall group | group in groups
      ensures InTurn(groups[group], last.at[group]) && !last.at[group].reading
      ensures Fuse.Safe(Ledger(last.at[group]), plan.most) && Ledger(last.at[group]).flights == map[]
    {
      assert Kept(plan, groups[group], last.at[group], last.found);
      DoneIsStill(groups[group], last.at[group]);
      Fuse.EverySweepIsSafe(last.at[group].events, plan.most);
    }
    forall kind | kind in plan.kinds && Wanted(plan, only, kind) && plan.hasSource(kind)
      ensures plan.groupOf(kind) in groups && kind in last.found
      ensures kind !in plan.tallies ==> last.found[kind] == Reading
      ensures kind in plan.tallies ==>
                last.found[kind].Tallied? && Tallies(Ledger(last.at[plan.groupOf(kind)]), plan.most, last.found[kind].spent)
    {
      var group := plan.groupOf(kind);
      assert kind in groups[group];
      var i :| 0 <= i < |groups[group]| && groups[group][i] == kind;
      assert Kept(plan, groups[group], last.at[group], last.found);
      TalliesInTheEnd(last.at[group].events, plan.most);
    }
  }

  lemma ReportedAre(plan: Plan, only: set<Kind>, found: map<Kind, Report>)
    ensures (forall kind :: kind in found <==> kind in plan.kinds && Wanted(plan, only, kind)) ==>
              && (only == {} ==> forall kind :: kind in found <==> kind in plan.kinds)
              && (only != {} ==> forall kind :: kind in plan.kinds && kind !in plan.tallies ==> (kind in found <==> kind in only))
              && (only != {} ==> forall kind :: kind in plan.kinds && kind in plan.tallies ==>
                    (kind in found <==> kind in only || exists asked :: asked in only && plan.groupOf(asked) == plan.groupOf(kind)))
  {
  }

  lemma DoneIsStill(kinds: seq<Kind>, progress: Progress)
    requires InTurn(kinds, progress) && progress.done == |kinds|
    ensures !progress.reading
  {
  }

  /** A tally of a ledger nothing is in flight of: an installation is in it
      exactly when a token was minted for it and its hour was asked after, with
      what is spent of it, which is within the fuse's bound. */
  ghost predicate Tallies(ledger: Fuse.Sweep, most: nat, spent: map<Fuse.Installation, Fuse.Allowance>)
  {
    forall installation ::
      && (installation in spent <==> installation != 0 && Fuse.BudgetOf(ledger, installation).start.Some?)
      && (installation in spent ==>
            var budget := Fuse.BudgetOf(ledger, installation);
            && spent[installation] == Fuse.Allowance(installation, budget.start.value, budget.spent)
            && budget.spent <= Fuse.CEILING + most - 1 + Fuse.LateOf(ledger, installation))
  }

  lemma TalliesInTheEnd(events: seq<Fuse.Event>, most: nat)
    requires Fuse.Runs(Fuse.BEGUN, events, most) && Fuse.After(Fuse.BEGUN, events).flights == map[]
    ensures var ledger := Fuse.After(Fuse.BEGUN, events);
            Tallies(ledger, most, Fuse.AllowancesOf(ledger))
  {
    var ledger := Fuse.After(Fuse.BEGUN, events);
    hide Fuse.Runs, Fuse.After;
    forall installation
      ensures Fuse.BudgetOf(ledger, installation).spent <= Fuse.CEILING + most - 1 + Fuse.LateOf(ledger, installation)
    {
      assert Fuse.ReadsOf(ledger.flights, installation) == {};
      Fuse.FinalSpendIsBounded(events, most, installation);
    }
  }

  /** No run is ever stuck: while a group is not done, its next read can begin,
      or the one it is at can end, or an answer that it waits for can come,
      which leaves it fewer to wait for. */
  lemma NothingWaits(plan: Plan, groups: map<Group, seq<Kind>>, unconnected: map<Kind, Report>, state: State, group: Group)
    returns (step: Step)
    requires Good(plan, groups, unconnected, state) && group in groups && state.at[group].done < |groups[group]|
    ensures step.group == group && Possible(plan, groups, state, step)
    ensures step.Spend? ==>
              step.event.Return? && |Ledger(Next(plan, groups, state, step).at[group]).flights| < |Ledger(state.at[group]).flights|
  {
    var progress := state.at[group];
    assert Kept(plan, groups[group], progress, state.found);
    var flights := Ledger(progress).flights;
    if !progress.reading {
      step := Begin(group);
    } else if groups[group][progress.done] in plan.tallies || flights == map[] {
      step := End(group);
    } else {
      assert flights.Keys != {};
      var id :| id in flights;
      step := Spend(group, Fuse.Return(id, Fuse.Unanswered));
      AnswerComes(progress.events, id);
    }
  }

  lemma AnswerComes(events: seq<Fuse.Event>, id: nat)
    requires id in Fuse.After(Fuse.BEGUN, events).flights
    ensures var more := events + [Fuse.Return(id, Fuse.Unanswered)];
            |Fuse.After(Fuse.BEGUN, more).flights| < |Fuse.After(Fuse.BEGUN, events).flights|
  {
    var more := events + [Fuse.Return(id, Fuse.Unanswered)];
    assert more[..|more| - 1] == events;
    var before := Fuse.After(Fuse.BEGUN, events);
    var after := Fuse.After(Fuse.BEGUN, more);
    assert after.flights == before.flights - {id};
    assert after.flights.Keys == before.flights.Keys - {id};
    assert |after.flights| == |after.flights.Keys| && |before.flights| == |before.flights.Keys|;
  }

  /** A tally is read whenever any kind of its group is asked for, in that
      group and after every kind of it that is no tally. */
  lemma TallyComesAlong(plan: Plan, only: set<Kind>, groups: map<Group, seq<Kind>>, asked: Kind, tally: Kind)
    requires GroupedBy(plan, only, groups, plan.kinds) && asked in only
    requires tally in plan.kinds && tally in plan.tallies && plan.hasSource(tally) && plan.groupOf(asked) == plan.groupOf(tally)
    ensures plan.groupOf(asked) in groups && tally in groups[plan.groupOf(asked)]
    ensures forall i, j :: 0 <= i < j < |groups[plan.groupOf(asked)]| && groups[plan.groupOf(asked)][i] == tally ==>
              groups[plan.groupOf(asked)][j] in plan.tallies
  {
    assert Wanted(plan, only, tally);
  }
}
