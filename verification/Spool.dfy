/** Root's spool: a pass puts a hand-off in it, and a run claims it and starts
    one container per owner. Passes, a run and crashes, in any order. */
module Spool {
  import opened Basics
  import opened Texts
  import opened Handoffs

  // How long one owner's container may go on, where its token lives longer.
  const OWNER_BOUND: Time := 2700

  /** A directory a run makes in the spool, by the name it drew. */
  datatype Dir = Dir(name: string)

  /** A hand-off in the spool, told from every other that ever was there. */
  datatype Spooled = Spooled(id: nat, handoff: Handoff)

  /** What a run's directory holds: the hand-off it claimed, and the
      environment files, each with a token, of the owners at these places. */
  datatype Work = Work(claimed: Option<Spooled>, envs: set<nat>)

  /** Where a run is with the owner whose turn it is. */
  datatype Turn = Waiting | Decided(since: Time, deadline: Time) | Ready(since: Time, deadline: Time) | Running

  /** A run: its directory, what it claimed, and whose turn it is. */
  datatype Active = Active(dir: Dir, hand: Option<Spooled>, at: nat, turn: Turn)

  /** A container that was started: whose, when, and until when it may run. */
  datatype Started = Started(id: nat, owner: nat, at: Time, since: Time, deadline: Time, expires: Time)

  datatype State = State(
    now: Time,
    spool: Option<Spooled>,
    dirs: map<Dir, Work>,
    active: Option<Active>,
    // How many hand-offs were ever spooled, and which were claimed, in order.
    delivered: nat,
    claims: seq<nat>,
    started: seq<Started>,
    // The directories a removal was tried on and failed.
    stuck: set<Dir>)

  /** One step. `Begin` removes what an earlier run left, as far as it can, and
      makes a directory of its own; a crash leaves everything where it is. */
  datatype Step =
    | Tick(more: nat)
    | Deliver(handoff: Handoff)
    | Begin(dir: Dir, removed: set<Dir>)
    | Claim
    | Decide
    | Write(written: bool)
    | Start
    | Finish(tidied: bool)
    | Skip
    | Finished(cleared: bool)
    | Crash

  const EMPTY := State(0, None, map[], None, 0, [], [], {})

  predicate Claimed(state: State)
  {
    state.active.Some? && state.active.value.hand.Some?
    && state.active.value.at < |state.active.value.hand.value.handoff.runs|
  }

  predicate Possible(state: State, step: Step)
  {
    match step
    case Tick(_) => true
    case Deliver(_) => true
    // There is no second run while one is at work.
    case Begin(dir, removed) => state.active == None && removed <= state.dirs.Keys && dir !in state.dirs
    case Claim => state.active.Some? && state.active.value.hand == None && state.spool.Some?
    case Decide => Claimed(state) && state.active.value.turn == Waiting
    case Write(_) => Claimed(state) && state.active.value.turn.Decided? && state.now < state.active.value.turn.deadline
    case Skip => Claimed(state) && state.active.value.turn.Decided? && state.active.value.turn.deadline <= state.now
    // A command whose deadline has passed is not started.
    case Start => Claimed(state) && state.active.value.turn.Ready? && state.now < state.active.value.turn.deadline
    case Finish(_) => Claimed(state) && (state.active.value.turn.Ready? || state.active.value.turn.Running?)
    case Finished(_) => state.active.Some?
    case Crash => state.active.Some?
  }

  function Earlier(one: Time, other: Time): Time
  {
    if one < other then one else other
  }

  function Whose(active: Active): Run
    requires active.hand.Some? && active.at < |active.hand.value.handoff.runs|
  {
    active.hand.value.handoff.runs[active.at]
  }

  function Next(state: State, step: Step): State
    requires Possible(state, step)
  {
    match step
    case Tick(more) => state.(now := state.now + more)
    case Deliver(handoff) =>
      state.(spool := Some(Spooled(state.delivered, handoff)), delivered := state.delivered + 1)
    case Begin(dir, removed) =>
      state.(dirs := (state.dirs - removed)[dir := Work(None, {})], active := Some(Active(dir, None, 0, Waiting)),
             stuck := state.stuck + (state.dirs.Keys - removed))
    case Claim =>
      var active, spooled := state.active.value, state.spool.value;
      state.(spool := None, active := Some(active.(hand := Some(spooled))), claims := state.claims + [spooled.id],
             dirs := Holding(state.dirs, active.dir, Work(Some(spooled), {})))
    case Decide =>
      var active := state.active.value;
      state.(active := Some(active.(turn := Decided(state.now, Earlier(Whose(active).expires, state.now + OWNER_BOUND)))))
    case Write(written) =>
      var active := state.active.value;
      if written then
        state.(active := Some(active.(turn := Ready(active.turn.since, active.turn.deadline))),
               dirs := WithEnv(state.dirs, active.dir, active.at))
      else state.(active := Some(active.(at := active.at + 1, turn := Waiting)))
    case Skip => state.(active := Some(state.active.value.(at := state.active.value.at + 1, turn := Waiting)))
    case Start =>
      var active := state.active.value;
      state.(active := Some(active.(turn := Running)),
             started := state.started + [Started(active.hand.value.id, active.at, state.now, active.turn.since,
                                                 active.turn.deadline, Whose(active).expires)])
    case Finish(tidied) =>
      var active := state.active.value;
      state.(active := Some(active.(at := active.at + 1, turn := Waiting)),
             dirs := if tidied then WithoutEnv(state.dirs, active.dir, active.at) else state.dirs)
    case Finished(cleared) =>
      if cleared then state.(active := None, dirs := state.dirs - {state.active.value.dir})
      else state.(active := None, stuck := state.stuck + {state.active.value.dir})
    case Crash => state.(active := None)
  }

  function Holding(dirs: map<Dir, Work>, dir: Dir, work: Work): map<Dir, Work>
  {
    if dir in dirs then dirs[dir := work] else dirs
  }

  function WithEnv(dirs: map<Dir, Work>, dir: Dir, at: nat): map<Dir, Work>
  {
    if dir in dirs then dirs[dir := dirs[dir].(envs := dirs[dir].envs + {at})] else dirs
  }

  function WithoutEnv(dirs: map<Dir, Work>, dir: Dir, at: nat): map<Dir, Work>
  {
    if dir in dirs then dirs[dir := dirs[dir].(envs := dirs[dir].envs - {at})] else dirs
  }

  // ------------------------------------------------------------ what is kept

  /** Each claim is of a hand-off never claimed before, and what is in the
      spool never was. */
  ghost predicate ClaimsOnce(state: State)
  {
    && (forall i :: 0 <= i < |state.claims| ==> state.claims[i] < state.delivered)
    && (forall i, j :: 0 <= i < j < |state.claims| ==> state.claims[i] != state.claims[j])
    && (state.spool.Some? ==> state.spool.value.id < state.delivered && state.spool.value.id !in state.claims)
    && (state.active.Some? && state.active.value.hand.Some? ==>
          state.claims != [] && state.claims[|state.claims| - 1] == state.active.value.hand.value.id)
  }

  /** A container of the hand-off a run is at was for an owner before, or is the one running. */
  predicate HadItsTurn(active: Active, started: Started)
    requires active.hand.Some?
  {
    started.id == active.hand.value.id ==>
      started.owner < active.at || (started.owner == active.at && active.turn == Running)
  }

  /** Each owner of a hand-off has had at most one container, and none whose
      turn has not come. */
  ghost predicate StartsOnce(state: State)
  {
    && (forall i :: 0 <= i < |state.started| ==> state.started[i].id in state.claims)
    && (forall i, j :: 0 <= i < j < |state.started| ==>
          state.started[i].id != state.started[j].id || state.started[i].owner != state.started[j].owner)
    && (state.active.Some? && state.active.value.hand.Some? ==>
          forall i :: 0 <= i < |state.started| ==> HadItsTurn(state.active.value, state.started[i]))
  }

  /** No container was started for a token that had expired, nor given longer
      than its token lives or than an owner's run is given. */
  ghost predicate InTime(started: Started)
  {
    && started.at < started.deadline <= started.expires && started.deadline <= started.since + OWNER_BOUND && started.since <= started.at
    && (started.deadline == started.expires || started.deadline == started.since + 2700)
  }

  ghost predicate StartsInTime(state: State)
  {
    && (forall i :: 0 <= i < |state.started| ==> InTime(state.started[i]))
    && (state.active.Some? && (state.active.value.turn.Decided? || state.active.value.turn.Ready?) ==>
          var active := state.active.value;
          Claimed(state) && active.turn.since <= state.now
          && active.turn.deadline == Earlier(Whose(active).expires, active.turn.since + OWNER_BOUND))
  }

  /** While a run is at work, every other directory with a token in it is one
      that could not be removed. */
  ghost predicate TokensGone(state: State)
  {
    state.active.Some? ==> forall dir :: dir in state.dirs ==> dir == state.active.value.dir || dir in state.stuck
  }

  ghost predicate Good(state: State)
  {
    ClaimsOnce(state) && StartsOnce(state) && StartsInTime(state) && TokensGone(state)
  }

  lemma NextClaimsOnce(state: State, step: Step)
    requires ClaimsOnce(state) && Possible(state, step)
    ensures ClaimsOnce(Next(state, step))
  {
  }

  lemma NextStartsOnce(state: State, step: Step)
    requires ClaimsOnce(state) && StartsOnce(state) && Possible(state, step)
    ensures StartsOnce(Next(state, step))
  {
    if state.active.Some? && state.active.value.hand.Some? {
      assert state.active.value.hand.value.id in state.claims;
    }
  }

  lemma NextStartsInTime(state: State, step: Step)
    requires StartsInTime(state) && Possible(state, step)
    ensures StartsInTime(Next(state, step))
  {
  }

  lemma NextTokensGone(state: State, step: Step)
    requires TokensGone(state) && Possible(state, step)
    ensures TokensGone(Next(state, step))
  {
  }

  /** A run of the spool: steps each possible when it is taken. */
  ghost predicate Runs(states: seq<State>, steps: seq<Step>)
  {
    |states| == |steps| + 1
    && forall i :: 0 <= i < |steps| ==> Possible(states[i], steps[i]) && states[i + 1] == Next(states[i], steps[i])
  }

  /** Every interleaving of passes, runs and crashes. */
  lemma {:induction false} EveryRunIsGood(states: seq<State>, steps: seq<Step>)
    requires Runs(states, steps) && states[0] == EMPTY
    ensures Good(states[|steps|])
    decreases |steps|
  {
    hide ClaimsOnce, StartsOnce, StartsInTime, TokensGone;
    if steps == [] {
      EmptyIsGood();
    } else {
      var last := |steps| - 1;
      EveryRunIsGood(states[..|steps|], steps[..last]);
      NextClaimsOnce(states[last], steps[last]);
      NextStartsOnce(states[last], steps[last]);
      NextStartsInTime(states[last], steps[last]);
      NextTokensGone(states[last], steps[last]);
    }
  }

  lemma EmptyIsGood()
    ensures Good(EMPTY)
  {
  }

  /** How many owners' turns have ended since the hand-off was claimed. */
  function Ended(steps: seq<Step>): nat
  {
    if steps == [] then 0
    else
      match steps[|steps| - 1]
      case Begin(_, _) => 0
      case Write(written) => Ended(steps[..|steps| - 1]) + if written then 0 else 1
      case Skip => Ended(steps[..|steps| - 1]) + 1
      case Finish(_) => Ended(steps[..|steps| - 1]) + 1
      case _ => Ended(steps[..|steps| - 1])
  }

  /** Owners have their turns in order, and none is passed over: whose turn it
      is is how many turns have ended. */
  lemma {:induction false} TurnsInOrder(states: seq<State>, steps: seq<Step>)
    requires Runs(states, steps) && states[0] == EMPTY
    ensures states[|steps|].active.Some? ==> states[|steps|].active.value.at == Ended(steps)
    decreases |steps|
  {
    if steps != [] {
      var last := |steps| - 1;
      TurnsInOrder(states[..|steps|], steps[..last]);
      assert states[..|steps|][last] == states[last];
    }
  }

  /** Of the environment files of a hand-off a run is at, each is of an owner
      whose turn was, or of the one whose container is about to start or runs;
      while every one is removed in the end, only that. */
  ghost predicate EnvsAre(state: State, tidy: bool)
  {
    state.active.Some? ==>
      var active := state.active.value;
      && active.dir in state.dirs
      && state.dirs[active.dir].claimed == active.hand
      && (active.hand == None ==> state.dirs[active.dir].envs == {} && active.turn == Waiting)
      && (active.at in state.dirs[active.dir].envs <==> active.turn.Ready? || active.turn.Running?)
      && forall owner :: owner in state.dirs[active.dir].envs ==> owner == active.at || (owner < active.at && !tidy)
  }

  lemma {:induction false} EveryEnvIsGone(states: seq<State>, steps: seq<Step>, tidy: bool)
    requires Runs(states, steps) && states[0] == EMPTY
    requires tidy ==> forall i :: 0 <= i < |steps| && steps[i].Finish? ==> steps[i].tidied
    ensures EnvsAre(states[|steps|], tidy)
    decreases |steps|
  {
    if steps != [] {
      var last := |steps| - 1;
      assert tidy ==> forall i :: 0 <= i < last && steps[..last][i].Finish? ==> steps[..last][i].tidied;
      EveryEnvIsGone(states[..|steps|], steps[..last], tidy);
      assert states[..|steps|][last] == states[last];
    }
  }

  // ------------------------------------------------------ an undisturbed run

  /** The containers a hand-off's owners from one on have, when nothing takes
      any time: one each, in order, while its token lives. */
  function Starting(spooled: Spooled, at: nat, now: Time): seq<Started>
    decreases |spooled.handoff.runs| - at
  {
    if at >= |spooled.handoff.runs| then []
    else
      var expires := spooled.handoff.runs[at].expires;
      (if expires <= now then []
       else [Started(spooled.id, at, now, now, if expires < now + 2700 then expires else now + 2700, expires)])
      + Starting(spooled, at + 1, now)
  }

  /** A run that begins with a hand-off in the spool, of which nothing fails:
      its owners have their containers, one each in order, and neither its
      directory nor any that was left is there at the end. */
  lemma Undisturbed(state: State, dir: Dir) returns (states: seq<State>, steps: seq<Step>)
    requires state.spool.Some? && state.active == None && dir !in state.dirs
    ensures Runs(states, steps) && states[0] == state
    ensures var last := states[|steps|];
            && last.active == None && last.spool == None && last.dirs == map[] && last.now == state.now && last.stuck == state.stuck
            && last.claims == state.claims + [state.spool.value.id] && last.delivered == state.delivered
            && last.started == state.started + Starting(state.spool.value, 0, state.now)
  {
    var begun := Next(state, Begin(dir, state.dirs.Keys));
    assert (state.dirs - state.dirs.Keys)[dir := Work(None, {})] == map[dir := Work(None, {})];
    var claimed := Next(begun, Claim);
    assert state.stuck + (state.dirs.Keys - state.dirs.Keys) == state.stuck;
    assert map[dir := Work(None, {})][dir := Work(state.spool, {})] == map[dir := Work(state.spool, {})];
    var more, next := Owners(claimed, dir);
    states, steps := [state, begun] + more, [Begin(dir, state.dirs.Keys), Claim] + next;
  }

  /** The owners from the one whose turn it is, and the end. */
  lemma {:induction false} Owners(state: State, dir: Dir) returns (states: seq<State>, steps: seq<Step>)
    requires state.active.Some? && state.active.value.hand.Some? && state.active.value.turn == Waiting
    requires state.active.value.dir == dir && state.dirs == map[dir := Work(state.active.value.hand, {})]
    ensures Runs(states, steps) && states[0] == state
    ensures var last := states[|steps|];
            last == state.(active := None, dirs := map[],
                           started := state.started + Starting(state.active.value.hand.value, state.active.value.at, state.now))
    decreases |state.active.value.hand.value.handoff.runs| - state.active.value.at
  {
    var active := state.active.value;
    if active.at >= |active.hand.value.handoff.runs| {
      var last := Next(state, Finished(true));
      assert map[dir := Work(active.hand, {})] - {dir} == map[];
      assert state.started + [] == state.started;
      states, steps := [state, last], [Finished(true)];
    } else {
      var taken, done := Owner(state, dir);
      var after := taken[|done|];
      var more, next := Owners(after, dir);
      states, steps := taken[..|done|] + more, done + next;
      RunsOn(taken, done, more, next);
      assert state.started + (Starting(active.hand.value, active.at, state.now))
          == after.started + Starting(active.hand.value, active.at + 1, state.now);
    }
  }

  /** One owner's turn. */
  lemma Owner(state: State, dir: Dir) returns (states: seq<State>, steps: seq<Step>)
    requires Claimed(state) && state.active.value.turn == Waiting
    requires state.active.value.dir == dir && state.dirs == map[dir := Work(state.active.value.hand, {})]
    ensures Runs(states, steps) && states[0] == state
    ensures var active, expires := state.active.value, Whose(state.active.value).expires;
            states[|steps|] == state.(
              active := Some(active.(at := active.at + 1)),
              started := state.started
                         + if expires <= state.now then []
                           else [Started(active.hand.value.id, active.at, state.now, state.now,
                                         if expires < state.now + 2700 then expires else state.now + 2700, expires)])
  {
    var active := state.active.value;
    var decided := Next(state, Decide);
    if Whose(active).expires <= state.now {
      var last := Next(decided, Skip);
      assert state.started + [] == state.started;
      return [state, decided, last], [Decide, Skip];
    }
    var ready := Next(decided, Write(true));
    var running := Next(ready, Start);
    var last := Next(running, Finish(true));
    assert {} + {active.at} - {active.at} == {};
    assert last.dirs == state.dirs;
    return [state, decided, ready, running, last], [Decide, Write(true), Start, Finish(true)];
  }

  lemma RunsOn(states: seq<State>, steps: seq<Step>, more: seq<State>, next: seq<Step>)
    requires Runs(states, steps) && Runs(more, next) && states[|steps|] == more[0]
    ensures Runs(states[..|steps|] + more, steps + next)
  {
    var all, taken := states[..|steps|] + more, steps + next;
    hide Possible, Next;
    forall i | 0 <= i < |taken|
      ensures Possible(all[i], taken[i]) && all[i + 1] == Next(all[i], taken[i])
    {
      if i < |steps| {
        assert all[i] == states[i] && all[i + 1] == states[i + 1];
      } else {
        assert all[i] == more[i - |steps|] && all[i + 1] == more[i - |steps| + 1];
      }
    }
  }

  /** While no removal has failed, the run at work has the only directory there
      is: no token file an earlier run claimed is left on the host. */
  lemma NoTokenSurvives(states: seq<State>, steps: seq<Step>)
    requires Runs(states, steps) && states[0] == EMPTY
    requires states[|steps|].active.Some? && states[|steps|].stuck == {}
    ensures states[|steps|].dirs.Keys <= {states[|steps|].active.value.dir}
  {
    EveryRunIsGood(states, steps);
  }

  /** A hand-off that arrives once a run has claimed waits out that run, its
      cleanup or its crash, for the next run to claim, unless a newer one
      takes its place. */
  lemma {:induction false} ArrivalWaits(states: seq<State>, steps: seq<Step>)
    requires Runs(states, steps)
    requires states[0].active.Some? && states[0].active.value.hand.Some?
    requires forall i :: 0 <= i < |steps| ==> !steps[i].Deliver? && !steps[i].Begin?
    ensures states[|steps|].spool == states[0].spool
    ensures states[|steps|].active.Some? ==> states[|steps|].active.value.hand == states[0].active.value.hand
    decreases |steps|
  {
    if steps != [] {
      var last := |steps| - 1;
      ArrivalWaits(states[..|steps|], steps[..last]);
      assert states[..|steps|][|steps[..last]|] == states[last];
    }
  }

  /** And the next run does claim it, as it was spooled. */
  lemma WaitingIsClaimed(state: State, dir: Dir, removed: set<Dir>)
    requires state.spool.Some? && Possible(state, Begin(dir, removed))
    ensures var begun := Next(state, Begin(dir, removed));
            Possible(begun, Claim) && Next(begun, Claim).active.value.hand == state.spool
            && Next(begun, Claim).dirs[dir] == Work(state.spool, {})
  {
  }
}
