/** The fuse a sweep spends GitHub's allowances through: a budget for each
    installation, reads admitted while it holds, answers counted as they come
    back, and whatever is in flight when it trips. */
module GitHubFuse {
  import opened Basics
  import opened Texts
  import opened Totals

  const CEILING: nat := 150
  const FLOOR: int := 1000
  const CORE := "core"

  // -------------------------------------------------------------- one budget

  datatype Why = UnderTheFloor(remaining: int) | AtTheCeiling(spent: nat)

  /** How an installation's hour stood when the sweep began. */
  datatype Start = Start(limit: int, used: int, remaining: int)

  datatype Budget = Budget(spent: nat, remaining: int, known: bool, tripped: Option<Why>, start: Option<Start>)

  const UNSPENT := Budget(0, 0, false, None, None)

  /** What an answer's headers say: no headers at all, or the allowance it
      names, whether it was a 304, and what it says is left. */
  datatype Answer = Unanswered | Answered(resource: Option<string>, notModified: bool, remaining: Option<int>)

  /** What /rate_limit says of an installation. */
  datatype RateLimit = RateLimit(limit: int, used: int, remaining: int)

  /** An answer GitHub counts: a header that is missing is taken for REST's
      allowance, the one that is counted. */
  predicate Counts(answer: Answer)
  {
    answer.Answered? && !answer.notModified
    && Lower(if answer.resource == None || answer.resource.value == "" then CORE else answer.resource.value) == CORE
  }

  function Checked(budget: Budget): Budget
  {
    if budget.tripped.Some? then budget
    else if budget.known && budget.remaining < FLOOR then budget.(tripped := Some(UnderTheFloor(budget.remaining)))
    else if budget.spent >= CEILING then budget.(tripped := Some(AtTheCeiling(budget.spent)))
    else budget
  }

  function Noted(budget: Budget, answer: Answer): Budget
  {
    if !Counts(answer) then budget
    else
      var counted := budget.(spent := budget.spent + 1);
      Checked(if answer.remaining == None then counted
              else counted.(remaining := answer.remaining.value, known := true))
  }

  function Asked(budget: Budget, core: RateLimit): Budget
  {
    var told := budget.(remaining := core.remaining, known := true);
    Checked(if told.start.Some? then told
            else told.(start := Some(Start(core.limit,
                                           if core.used - told.spent > 0 then core.used - told.spent else 0,
                                           if core.remaining + told.spent < core.limit then core.remaining + told.spent else core.limit))))
  }

  /** A budget that has not tripped is within both bounds. */
  predicate Holds(budget: Budget)
  {
    budget.tripped == None ==> budget.spent < CEILING && (budget.known ==> budget.remaining >= FLOOR)
  }

  /** The budget as the sweep's goroutines share it, each call under its lock. */
  class SharedBudget {
    var spent: nat
    var remaining: int
    var known: bool
    var tripped: Option<Why>
    var start: Option<Start>

    function State(): Budget
      reads this
    {
      Budget(spent, remaining, known, tripped, start)
    }

    constructor ()
      ensures State() == UNSPENT
    {
      spent, remaining, known, tripped, start := 0, 0, false, None, None;
    }

    method Admit() returns (admitted: bool)
      ensures admitted <==> State().tripped == None
    {
      admitted := tripped == None;
    }

    method Note(answer: Answer)
      modifies this
      ensures State() == Noted(old(State()), answer)
    {
      if answer.Unanswered? {
        return;
      }
      var resource := Lower(if answer.resource == None || answer.resource.value == "" then CORE else answer.resource.value);
      if resource != CORE || answer.notModified {
        return;
      }
      spent := spent + 1;
      if answer.remaining.Some? {
        remaining, known := answer.remaining.value, true;
      }
      Check();
    }

    method Left(core: RateLimit)
      modifies this
      ensures State() == Asked(old(State()), core)
    {
      remaining, known := core.remaining, true;
      if start == None {
        start := Some(Start(core.limit,
                            if core.used - spent > 0 then core.used - spent else 0,
                            if core.remaining + spent < core.limit then core.remaining + spent else core.limit));
      }
      Check();
    }

    method Check()
      modifies this`tripped
      ensures State() == Checked(old(State()))
      ensures Holds(State())
    {
      if tripped.Some? {
        return;
      }
      if known && remaining < FLOOR {
        tripped := Some(UnderTheFloor(remaining));
      } else if spent >= CEILING {
        tripped := Some(AtTheCeiling(spent));
      }
    }
  }

  /** What /rate_limit said first is put back to before the sweep: on an hour
      only this sweep spends of, the start is that hour exactly. */
  lemma StartIsBeforeTheSweep(budget: Budget, limit: int, before: nat)
    requires budget.start == None && before + budget.spent <= limit
    ensures var core := RateLimit(limit, before + budget.spent, limit - before - budget.spent);
            Asked(budget, core).start == Some(Start(limit, before, limit - before))
  {
  }

  // --------------------------------------------------- every sweep's protocol

  type Token = string
  type Installation = int

  datatype Flight = Flight(installation: Installation, write: bool)

  /** What may happen next, in whatever order the goroutines get to it. */
  datatype Event =
    | Mint(token: Token, installation: Installation)
    | Send(id: nat, token: Token, write: bool)
    | Return(id: nat, answer: Answer)
    | Ask(token: Token, core: RateLimit)

  /** The ledger, what is in flight, how many answers counted, and for each
      installation how many writes counted from the answer that tripped its
      fuse on. */
  datatype Sweep = Sweep(budgets: map<Installation, Budget>, tokens: map<Token, Installation>,
                         flights: map<nat, Flight>, counted: nat, late: map<Installation, nat>)

  const BEGUN := Sweep(map[], map[], map[], 0, map[])

  /** The installation a token spends of: 0 for one minted elsewhere. */
  function Spends(sweep: Sweep, token: Token): Installation
  {
    if token in sweep.tokens then sweep.tokens[token] else 0
  }

  function BudgetOf(sweep: Sweep, installation: Installation): Budget
  {
    if installation in sweep.budgets then sweep.budgets[installation] else UNSPENT
  }

  function LateOf(sweep: Sweep, installation: Installation): nat
  {
    if installation in sweep.late then sweep.late[installation] else 0
  }

  predicate Admits(sweep: Sweep, token: Token, write: bool)
  {
    write || BudgetOf(sweep, Spends(sweep, token)).tripped == None
  }

  function ReadsOf(flights: map<nat, Flight>, installation: Installation): set<nat>
  {
    set id | id in flights && flights[id] == Flight(installation, false)
  }

  /** Whether an event can happen: a request's id is its own, an answer is to
      one in flight, and at most `most` reads of an installation are in flight. */
  predicate Possible(sweep: Sweep, event: Event, most: nat)
  {
    match event
    case Send(id, token, write) =>
      id !in sweep.flights && (!write ==> |ReadsOf(sweep.flights, Spends(sweep, token))| < most)
    case Return(id, _) => id in sweep.flights
    case _ => true
  }

  function Next(sweep: Sweep, event: Event): Sweep
  {
    match event
    case Mint(token, installation) =>
      sweep.(tokens := sweep.tokens[token := installation],
             budgets := sweep.budgets[installation := BudgetOf(sweep, installation)])
    case Send(id, token, write) =>
      var installation := Spends(sweep, token);
      var seen := sweep.(budgets := sweep.budgets[installation := BudgetOf(sweep, installation)]);
      if Admits(sweep, token, write) then seen.(flights := sweep.flights[id := Flight(installation, write)]) else seen
    case Return(id, answer) =>
      if id !in sweep.flights then sweep
      else
        var Flight(installation, write) := sweep.flights[id];
        var after := Noted(BudgetOf(sweep, installation), answer);
        var late := write && Counts(answer) && after.tripped.Some?;
        sweep.(budgets := sweep.budgets[installation := after],
               flights := sweep.flights - {id},
               counted := sweep.counted + if Counts(answer) then 1 else 0,
               late := if late then sweep.late[installation := LateOf(sweep, installation) + 1] else sweep.late)
    case Ask(token, core) =>
      var installation := Spends(sweep, token);
      sweep.(budgets := sweep.budgets[installation := Asked(BudgetOf(sweep, installation), core)])
  }

  /** The sweep after a run of events, each possible when it happens. */
  function After(sweep: Sweep, events: seq<Event>): Sweep
  {
    if events == [] then sweep else Next(After(sweep, events[..|events| - 1]), events[|events| - 1])
  }

  ghost predicate Runs(sweep: Sweep, events: seq<Event>, most: nat)
  {
    forall i :: 0 <= i < |events| ==> Possible(After(sweep, events[..i]), events[i], most)
  }

  function SpentOf(sweep: Sweep): map<Installation, nat>
  {
    map installation | installation in sweep.budgets :: sweep.budgets[installation].spent
  }

  /** What every interleaving keeps. */
  ghost predicate Safe(sweep: Sweep, most: nat)
  {
    && (forall installation :: Within(sweep, installation, most))
    // Each counted answer is in exactly one installation's budget.
    && Sum(SpentOf(sweep)) == sweep.counted
  }

  /** One installation's fuse: within both bounds until it trips, and past the
      ceiling after that by no more than was in flight and was never asked. */
  predicate Within(sweep: Sweep, installation: Installation, most: nat)
  {
    var budget := BudgetOf(sweep, installation);
    var inFlight := |ReadsOf(sweep.flights, installation)|;
    && Holds(budget)
    && inFlight <= most
    && budget.spent + inFlight <= CEILING - 1 + most + LateOf(sweep, installation)
    && (budget.tripped == None ==> LateOf(sweep, installation) == 0)
  }

  lemma BegunIsSafe(most: nat)
    ensures Safe(BEGUN, most)
  {
    assert SpentOf(BEGUN) == map[];
    forall installation
      ensures Within(BEGUN, installation, most)
    {
      assert ReadsOf(map[], installation) == {};
    }
  }

  lemma SpentChanges(sweep: Sweep, installation: Installation, budget: Budget)
    ensures SpentOf(sweep.(budgets := sweep.budgets[installation := budget])) == SpentOf(sweep)[installation := budget.spent]
  {
  }

  /** A budget that changes in place moves the total by what it spent. */
  lemma TotalChanges(sweep: Sweep, installation: Installation, budget: Budget, more: nat)
    requires budget.spent == BudgetOf(sweep, installation).spent + more
    ensures Sum(SpentOf(sweep.(budgets := sweep.budgets[installation := budget]))) == Sum(SpentOf(sweep)) + more
  {
    SpentChanges(sweep, installation, budget);
    SumAdds(SpentOf(sweep), installation, budget.spent);
  }

  lemma ReadsSent(flights: map<nat, Flight>, id: nat, flight: Flight, installation: Installation)
    requires id !in flights
    ensures |ReadsOf(flights[id := flight], installation)|
         == |ReadsOf(flights, installation)| + if flight == Flight(installation, false) then 1 else 0
  {
    var more := ReadsOf(flights[id := flight], installation);
    assert more == ReadsOf(flights, installation) + if flight == Flight(installation, false) then {id} else {};
  }

  lemma ReadsReturned(flights: map<nat, Flight>, id: nat, installation: Installation)
    requires id in flights
    ensures |ReadsOf(flights - {id}, installation)|
         == |ReadsOf(flights, installation)| - if flights[id] == Flight(installation, false) then 1 else 0
  {
    var fewer := ReadsOf(flights - {id}, installation);
    assert fewer == ReadsOf(flights, installation) - {id};
  }

  lemma SendIsSafe(sweep: Sweep, event: Event, most: nat)
    requires Safe(sweep, most) && event.Send? && Possible(sweep, event, most)
    ensures Safe(Next(sweep, event), most)
  {
    var installation := Spends(sweep, event.token);
    TotalChanges(sweep, installation, BudgetOf(sweep, installation), 0);
    hide Sum, SpentOf;
    forall other
      ensures Within(Next(sweep, event), other, most)
    {
      assert Within(sweep, other, most);
      ReadsSent(sweep.flights, event.id, Flight(installation, event.write), other);
      hide ReadsOf;
    }
  }

  lemma ReturnIsSafe(sweep: Sweep, event: Event, most: nat)
    requires Safe(sweep, most) && event.Return? && Possible(sweep, event, most)
    ensures Safe(Next(sweep, event), most)
  {
    var installation := sweep.flights[event.id].installation;
    TotalChanges(sweep, installation, Noted(BudgetOf(sweep, installation), event.answer), if Counts(event.answer) then 1 else 0);
    hide Sum, SpentOf, Counts;
    forall other
      ensures Within(Next(sweep, event), other, most)
    {
      assert Within(sweep, other, most);
      ReadsReturned(sweep.flights, event.id, other);
      hide ReadsOf;
    }
  }

  lemma NextIsSafe(sweep: Sweep, event: Event, most: nat)
    requires Safe(sweep, most) && Possible(sweep, event, most)
    ensures Safe(Next(sweep, event), most)
  {
    match event
    case Send(_, _, _) => SendIsSafe(sweep, event, most);
    case Return(_, _) => ReturnIsSafe(sweep, event, most);
    case Mint(_, installation) =>
      TotalChanges(sweep, installation, BudgetOf(sweep, installation), 0);
      assert SpentOf(Next(sweep, event)) == SpentOf(sweep.(budgets := sweep.budgets[installation := BudgetOf(sweep, installation)]));
      forall other
        ensures Within(Next(sweep, event), other, most)
      {
        assert Within(sweep, other, most);
      }
    case Ask(token, core) =>
      var installation := Spends(sweep, token);
      TotalChanges(sweep, installation, Asked(BudgetOf(sweep, installation), core), 0);
      forall other
        ensures Within(Next(sweep, event), other, most)
      {
        assert Within(sweep, other, most);
      }
  }

  /** Every interleaving, from the start of a sweep to any point of it. */
  lemma {:induction false} EverySweepIsSafe(events: seq<Event>, most: nat)
    requires Runs(BEGUN, events, most)
    ensures Safe(After(BEGUN, events), most)
    decreases |events|
  {
    if events == [] {
      BegunIsSafe(most);
    } else {
      var fewer := events[..|events| - 1];
      forall i | 0 <= i < |fewer|
        ensures Possible(After(BEGUN, fewer[..i]), fewer[i], most)
      {
        assert fewer[..i] == events[..i];
      }
      EverySweepIsSafe(fewer, most);
      NextIsSafe(After(BEGUN, fewer), events[|events| - 1], most);
    }
  }

  /** When every read has come back, an installation has been spent past the
      ceiling by at most the reads that can be in flight, less one, and the
      writes counted from the answer that tripped the fuse on. */
  lemma FinalSpendIsBounded(events: seq<Event>, most: nat, installation: Installation)
    requires Runs(BEGUN, events, most) && ReadsOf(After(BEGUN, events).flights, installation) == {}
    ensures var sweep := After(BEGUN, events);
            BudgetOf(sweep, installation).spent <= CEILING + most - 1 + LateOf(sweep, installation)
  {
    EverySweepIsSafe(events, most);
    assert Within(After(BEGUN, events), installation, most);
  }

  // -------------------------------------------------- the ledger as a history

  // What the ledger holds, said of the events alone: no budget is kept, and
  // nothing is noted.

  /** The installation a token spends of, by the mints so far. */
  function MintedFor(events: seq<Event>, token: Token): Installation
  {
    if events == [] then 0
    else
      match events[|events| - 1]
      case Mint(minted, installation) =>
        if minted == token then installation else MintedFor(events[..|events| - 1], token)
      case _ => MintedFor(events[..|events| - 1], token)
  }

  /** The installation a request was last sent for under an id. */
  function SentFor(events: seq<Event>, id: nat): Installation
  {
    if events == [] then 0
    else
      match events[|events| - 1]
      case Send(sent, token, _) =>
        if sent == id then MintedFor(events[..|events| - 1], token) else SentFor(events[..|events| - 1], id)
      case _ => SentFor(events[..|events| - 1], id)
  }

  /** Whether the last request sent under a number was a write. */
  function WriteSent(events: seq<Event>, id: nat): bool
  {
    if events == [] then false
    else
      match events[|events| - 1]
      case Send(sent, _, write) => if sent == id then write else WriteSent(events[..|events| - 1], id)
      case _ => WriteSent(events[..|events| - 1], id)
  }

  /** An answer that was spent: not a 304, and of REST's allowance or of none named. */
  predicate SpendsOne(answer: Answer)
  {
    answer.Answered? && !answer.notModified && (answer.resource.Some? ==> Lower(answer.resource.value) in {"", "core"})
  }

  /** What was last said to be left of an installation. */
  function Told(events: seq<Event>, installation: Installation): Option<int>
  {
    if events == [] then None
    else
      var fewer := events[..|events| - 1];
      match events[|events| - 1]
      case Ask(token, core) =>
        if MintedFor(fewer, token) == installation then Some(core.remaining) else Told(fewer, installation)
      case Return(id, answer) =>
        if SpendsOne(answer) && answer.remaining.Some? && SentFor(fewer, id) == installation then answer.remaining
        else Told(fewer, installation)
      case _ => Told(fewer, installation)
  }

  /** How many answers were spent of an installation. */
  function Spending(events: seq<Event>, installation: Installation): nat
  {
    if events == [] then 0
    else
      var fewer := events[..|events| - 1];
      Spending(fewer, installation)
      + match events[|events| - 1]
        case Return(id, answer) => if SpendsOne(answer) && SentFor(fewer, id) == installation then 1 else 0
        case _ => 0
  }

  /** Why a fuse trips: the first time less than a thousand is said to be left,
      or else the hundred and fiftieth answer is spent. */
  function Trips(events: seq<Event>, installation: Installation): Option<Why>
  {
    if events == [] then None
    else
      var before, told, spent := Trips(events[..|events| - 1], installation), Told(events, installation), Spending(events, installation);
      if before.Some? then before
      else if told.Some? && told.value < 1000 then Some(UnderTheFloor(told.value))
      else if spent >= 150 then Some(AtTheCeiling(spent))
      else None
  }

  /** A budget is what has happened: it knows what was last told and no more,
      has spent what was spent, and has tripped when and why it had to. */
  predicate IsHistory(budget: Budget, events: seq<Event>, installation: Installation)
  {
    && budget.spent == Spending(events, installation)
    && (budget.known <==> Told(events, installation).Some?)
    && (budget.known ==> budget.remaining == Told(events, installation).value)
    && budget.tripped == Trips(events, installation)
  }

  /** The ledger's own records of tokens and of what is in flight. */
  ghost predicate Follows(sweep: Sweep, events: seq<Event>)
  {
    && (forall token :: Spends(sweep, token) == MintedFor(events, token))
    && (forall id :: id in sweep.flights ==> sweep.flights[id] == Flight(SentFor(events, id), WriteSent(events, id)))
  }

  lemma SpendsOneCounts(answer: Answer)
    ensures SpendsOne(answer) <==> Counts(answer)
  {
    assert Lower("") == "" && Lower(CORE) == CORE;
    if answer.Answered? && answer.resource.Some? && Lower(answer.resource.value) == "" {
      assert answer.resource.value == "";
    }
  }

  lemma FollowsOn(sweep: Sweep, events: seq<Event>, event: Event, most: nat)
    requires Follows(sweep, events) && Possible(sweep, event, most)
    ensures Follows(Next(sweep, event), events + [event])
  {
    var more, after := events + [event], Next(sweep, event);
    assert more[..|more| - 1] == events;
    hide Noted, Asked, Counts, ReadsOf;
    forall token
      ensures Spends(after, token) == MintedFor(more, token)
    {
      assert Spends(sweep, token) == MintedFor(events, token);
    }
    forall id | id in after.flights
      ensures after.flights[id] == Flight(SentFor(more, id), WriteSent(more, id))
    {
      if event.Send? && event.id == id {
        assert Spends(sweep, event.token) == MintedFor(events, event.token);
      } else {
        assert id in sweep.flights && sweep.flights[id] == Flight(SentFor(events, id), WriteSent(events, id));
      }
    }
  }

  /** What one event changes of one budget. */
  lemma OneMoreHappened(sweep: Sweep, events: seq<Event>, event: Event, installation: Installation, most: nat)
    requires Follows(sweep, events) && Possible(sweep, event, most) && IsHistory(BudgetOf(sweep, installation), events, installation)
    requires Holds(BudgetOf(sweep, installation))
    ensures IsHistory(BudgetOf(Next(sweep, event), installation), events + [event], installation)
  {
    match event
    case Ask(token, _) =>
      assert Spends(sweep, token) == MintedFor(events, token);
      AskHappened(sweep, events, event, installation);
    case Return(id, answer) =>
      assert sweep.flights[id].installation == SentFor(events, id);
      ReturnHappened(sweep, events, event, installation);
    case _ => OtherHappened(sweep, events, event, installation);
  }

  lemma AskHappened(sweep: Sweep, events: seq<Event>, event: Event, installation: Installation)
    requires event.Ask? && Spends(sweep, event.token) == MintedFor(events, event.token)
    requires IsHistory(BudgetOf(sweep, installation), events, installation) && Holds(BudgetOf(sweep, installation))
    ensures IsHistory(BudgetOf(Next(sweep, event), installation), events + [event], installation)
  {
    var more := events + [event];
    assert more[..|more| - 1] == events;
    hide MintedFor, SentFor;
    if Spends(sweep, event.token) == installation {
      assert BudgetOf(Next(sweep, event), installation) == Asked(BudgetOf(sweep, installation), event.core);
    }
  }

  lemma ReturnHappened(sweep: Sweep, events: seq<Event>, event: Event, installation: Installation)
    requires event.Return? && event.id in sweep.flights && sweep.flights[event.id].installation == SentFor(events, event.id)
    requires IsHistory(BudgetOf(sweep, installation), events, installation) && Holds(BudgetOf(sweep, installation))
    ensures IsHistory(BudgetOf(Next(sweep, event), installation), events + [event], installation)
  {
    ReturnMoves(sweep, event, installation);
    hide Next, Noted, IsHistory, Holds, SentFor;
    if sweep.flights[event.id].installation == installation {
      NotedHappened(BudgetOf(sweep, installation), events, event, installation);
    } else {
      OtherAnswered(BudgetOf(sweep, installation), events, event, installation);
    }
  }

  lemma OtherAnswered(budget: Budget, events: seq<Event>, event: Event, installation: Installation)
    requires event.Return? && SentFor(events, event.id) != installation && IsHistory(budget, events, installation) && Holds(budget)
    ensures IsHistory(budget, events + [event], installation)
  {
    var more := events + [event];
    assert more[..|more| - 1] == events;
    hide SpendsOne, MintedFor, SentFor;
  }

  lemma ReturnMoves(sweep: Sweep, event: Event, installation: Installation)
    requires event.Return? && event.id in sweep.flights
    ensures BudgetOf(Next(sweep, event), installation) ==
              if sweep.flights[event.id].installation == installation then Noted(BudgetOf(sweep, installation), event.answer)
              else BudgetOf(sweep, installation)
  {
    hide Noted, Counts;
  }

  lemma NotedHappened(budget: Budget, events: seq<Event>, event: Event, installation: Installation)
    requires event.Return? && SentFor(events, event.id) == installation && IsHistory(budget, events, installation) && Holds(budget)
    ensures IsHistory(Noted(budget, event.answer), events + [event], installation)
  {
    var more := events + [event];
    assert more[..|more| - 1] == events;
    SpendsOneCounts(event.answer);
    hide Counts, SpendsOne, MintedFor, SentFor;
  }

  lemma OtherHappened(sweep: Sweep, events: seq<Event>, event: Event, installation: Installation)
    requires event.Mint? || event.Send?
    requires IsHistory(BudgetOf(sweep, installation), events, installation) && Holds(BudgetOf(sweep, installation))
    ensures IsHistory(BudgetOf(Next(sweep, event), installation), events + [event], installation)
  {
    var more := events + [event];
    assert more[..|more| - 1] == events;
    hide MintedFor, SentFor, Admits, Asked, Noted;
    assert BudgetOf(Next(sweep, event), installation) == BudgetOf(sweep, installation);
  }

  /** Every interleaving: each installation's budget is its history. */
  lemma {:induction false} LedgerIsHistory(events: seq<Event>, most: nat, installation: Installation)
    requires Runs(BEGUN, events, most)
    ensures Follows(After(BEGUN, events), events)
    ensures IsHistory(BudgetOf(After(BEGUN, events), installation), events, installation)
    decreases |events|
  {
    if events != [] {
      var fewer, last := events[..|events| - 1], events[|events| - 1];
      RunsLess(events, most);
      LedgerIsHistory(fewer, most, installation);
      EverySweepIsSafe(fewer, most);
      assert Within(After(BEGUN, fewer), installation, most);
      assert events == fewer + [last];
      hide Runs, After, Follows, IsHistory, Next, Possible;
      FollowsOn(After(BEGUN, fewer), fewer, last, most);
      OneMoreHappened(After(BEGUN, fewer), fewer, last, installation, most);
    }
  }

  lemma RunsLess(events: seq<Event>, most: nat)
    requires Runs(BEGUN, events, most) && events != []
    ensures var fewer, last := events[..|events| - 1], events[|events| - 1];
            && Runs(BEGUN, fewer, most) && Possible(After(BEGUN, fewer), last, most)
            && After(BEGUN, events) == Next(After(BEGUN, fewer), last)
  {
    hide Possible, Next;
    var fewer := events[..|events| - 1];
    forall i | 0 <= i < |fewer|
      ensures Possible(After(BEGUN, fewer[..i]), fewer[i], most)
    {
      assert fewer[..i] == events[..i];
    }
  }

  /** How many writes of an installation were counted from the one that tripped
      its fuse on. */
  function LateWrites(events: seq<Event>, installation: Installation): nat
  {
    if events == [] then 0
    else
      var fewer := events[..|events| - 1];
      LateWrites(fewer, installation)
      + match events[|events| - 1]
        case Return(id, answer) =>
          if SpendsOne(answer) && SentFor(fewer, id) == installation && WriteSent(fewer, id) && Trips(events, installation).Some? then 1 else 0
        case _ => 0
  }

  /** And those are the ones the bound leaves room for. */
  lemma {:induction false} LateIsHistory(events: seq<Event>, most: nat, installation: Installation)
    requires Runs(BEGUN, events, most)
    ensures LateOf(After(BEGUN, events), installation) == LateWrites(events, installation)
    decreases |events|
  {
    if events != [] {
      var fewer, last := events[..|events| - 1], events[|events| - 1];
      RunsLess(events, most);
      LedgerIsHistory(events, most, installation);
      LateIsHistory(fewer, most, installation);
      LedgerIsHistory(fewer, most, installation);
      assert events == fewer + [last];
      hide Runs, After, Next, Possible, Follows, Trips, LateWrites, LateOf;
      TripsIs(BudgetOf(After(BEGUN, events), installation), events, installation);
      LateHappened(After(BEGUN, fewer), fewer, events, last, installation, most);
    }
  }

  lemma TripsIs(budget: Budget, events: seq<Event>, installation: Installation)
    requires IsHistory(budget, events, installation)
    ensures budget.tripped == Trips(events, installation)
  {
  }

  lemma LateHappened(sweep: Sweep, fewer: seq<Event>, events: seq<Event>, last: Event, installation: Installation, most: nat)
    requires Follows(sweep, fewer) && Possible(sweep, last, most) && events == fewer + [last]
    requires BudgetOf(Next(sweep, last), installation).tripped == Trips(events, installation)
    requires LateOf(sweep, installation) == LateWrites(fewer, installation)
    ensures LateOf(Next(sweep, last), installation) == LateWrites(events, installation)
  {
    assert events[..|events| - 1] == fewer;
    LateMoves(sweep, last, installation);
    if last.Return? {
      ReturnMoves(sweep, last, installation);
      SpendsOneCounts(last.answer);
      ItIsInFlight(sweep, last, most);
      assert sweep.flights[last.id] == Flight(SentFor(fewer, last.id), WriteSent(fewer, last.id));
    }
    hide Counts, SpendsOne, SentFor, WriteSent, MintedFor, Trips, Noted, Next, Possible, LateOf;
  }

  lemma ItIsInFlight(sweep: Sweep, event: Event, most: nat)
    requires event.Return? && Possible(sweep, event, most)
    ensures event.id in sweep.flights
  {
  }

  lemma LateMoves(sweep: Sweep, event: Event, installation: Installation)
    ensures LateOf(Next(sweep, event), installation) - LateOf(sweep, installation) ==
              if event.Return? && event.id in sweep.flights && sweep.flights[event.id].installation == installation
                 && sweep.flights[event.id].write && Counts(event.answer)
                 && Noted(BudgetOf(sweep, installation), event.answer).tripped.Some? then 1 else 0
  {
    hide Noted, Counts, Asked, Admits;
  }

  /** While a fuse has not tripped, all that is known to be left is what was
      last told, and that is a thousand at least. */
  lemma UntrippedIsToldEnough(events: seq<Event>, most: nat, installation: Installation)
    requires Runs(BEGUN, events, most)
    ensures var budget := BudgetOf(After(BEGUN, events), installation);
            budget.tripped == None ==>
              && (budget.known <==> Told(events, installation).Some?)
              && (budget.known ==> budget.remaining == Told(events, installation).value >= 1000)
              && budget.spent == Spending(events, installation) < 150
  {
    LedgerIsHistory(events, most, installation);
    hide Told, Spending;
  }

  /** Being told of less than a thousand trips the fuse, the first time it is
      asked about included, and from then on no read of that installation is
      admitted. */
  lemma ToldTooLittleAdmitsNothing(events: seq<Event>, more: seq<Event>, most: nat, installation: Installation)
    requires Runs(BEGUN, events + more, most) && Told(events, installation).Some? && Told(events, installation).value < 1000
    ensures BudgetOf(After(BEGUN, events + more), installation).tripped.Some?
    ensures ReadsOf(After(BEGUN, events + more).flights, installation) <= ReadsOf(After(BEGUN, events).flights, installation)
  {
    RunsBoth(events, more, most);
    LedgerIsHistory(events, most, installation);
    AfterBoth(BEGUN, events, more);
    assert events != [];
    hide Told, Spending, After, Runs, ReadsOf;
    TrippedAdmitsNothing(After(BEGUN, events), more, most, installation);
  }

  lemma RunsBoth(events: seq<Event>, more: seq<Event>, most: nat)
    requires Runs(BEGUN, events + more, most)
    ensures Runs(BEGUN, events, most) && Runs(After(BEGUN, events), more, most)
  {
    var all := events + more;
    hide Possible, After;
    forall i | 0 <= i < |events|
      ensures Possible(After(BEGUN, events[..i]), events[i], most)
    {
      assert all[..i] == events[..i];
    }
    forall i | 0 <= i < |more|
      ensures Possible(After(After(BEGUN, events), more[..i]), more[i], most)
    {
      AfterBoth(BEGUN, events, more[..i]);
      assert all[..|events| + i] == events + more[..i];
    }
  }

  lemma {:induction false} AfterBoth(sweep: Sweep, first: seq<Event>, second: seq<Event>)
    ensures After(sweep, first + second) == After(After(sweep, first), second)
    decreases |second|
  {
    if second == [] {
      assert first + second == first;
    } else {
      assert (first + second)[..|first + second| - 1] == first + second[..|second| - 1];
      AfterBoth(sweep, first, second[..|second| - 1]);
    }
  }

  // ------------------------------------------------- what the sweep reports

  /** How one installation's hour stood, and how much of it the sweep used. */
  datatype Allowance = Allowance(installation: Installation, start: Start, spent: nat)

  /** What is reported of an installation: nothing of the one no token was
      minted for, or of one never asked after. */
  function AllowanceOf(sweep: Sweep, installation: Installation): Option<Allowance>
  {
    if installation in sweep.budgets && installation != 0 && sweep.budgets[installation].start.Some?
    then Some(Allowance(installation, sweep.budgets[installation].start.value, sweep.budgets[installation].spent))
    else None
  }

  function AllowancesOf(sweep: Sweep): map<Installation, Allowance>
  {
    map installation | installation in sweep.budgets && AllowanceOf(sweep, installation).Some? :: AllowanceOf(sweep, installation).value
  }

  /** Each installation's, in order of installation. */
  ghost predicate Lists(sweep: Sweep, records: seq<Allowance>)
  {
    && (forall i, j :: 0 <= i < j < |records| ==> records[i].installation < records[j].installation)
    && (forall i :: 0 <= i < |records| ==> AllowanceOf(sweep, records[i].installation) == Some(records[i]))
    && (forall installation :: AllowanceOf(sweep, installation).Some? ==> AllowanceOf(sweep, installation).value in records)
  }

  method LeastOf(installations: set<Installation>) returns (least: Installation)
    requires exists installation :: installation in installations
    ensures least in installations && forall installation :: installation in installations ==> least <= installation
  {
    least :| least in installations;
    var left := installations - {least};
    while exists installation :: installation in left
      invariant left <= installations && least in installations
      invariant forall installation :: installation in installations && installation !in left ==> least <= installation
      decreases left
    {
      var next :| next in left;
      left := left - {next};
      least := if next < least then next else least;
    }
  }

  /** The tally of a sweep: nothing is asked of GitHub again. */
  method Allowances(sweep: Sweep) returns (records: seq<Allowance>)
    ensures Lists(sweep, records)
  {
    records := [];
    var left := sweep.budgets.Keys;
    while exists installation :: installation in left
      invariant left <= sweep.budgets.Keys
      invariant forall i, j :: 0 <= i < j < |records| ==> records[i].installation < records[j].installation
      invariant forall i, installation :: 0 <= i < |records| && installation in left ==> records[i].installation < installation
      invariant forall i :: 0 <= i < |records| ==> AllowanceOf(sweep, records[i].installation) == Some(records[i])
      invariant forall installation :: installation !in left && AllowanceOf(sweep, installation).Some? ==>
                  AllowanceOf(sweep, installation).value in records
      decreases left
    {
      var installation := LeastOf(left);
      left := left - {installation};
      var allowance := AllowanceOf(sweep, installation);
      if allowance.Some? {
        records := records + [allowance.value];
      }
    }
  }

  /** There is one such list. */
  lemma {:induction false} ListsOnce(sweep: Sweep, one: seq<Allowance>, other: seq<Allowance>)
    requires Lists(sweep, one) && Lists(sweep, other)
    ensures one == other
  {
    var n := if |one| < |other| then |one| else |other|;
    for k := 0 to n
      invariant one[..k] == other[..k]
    {
      NextListed(sweep, one, other, k);
      NextListed(sweep, other, one, k);
    }
    if n < |one| {
      NextListed(sweep, one, other, n);
    } else if n < |other| {
      NextListed(sweep, other, one, n);
    }
  }

  lemma NextListed(sweep: Sweep, one: seq<Allowance>, other: seq<Allowance>, k: nat)
    requires Lists(sweep, one) && Lists(sweep, other) && k < |one| && k <= |other| && one[..k] == other[..k]
    ensures k < |other| && other[k].installation <= one[k].installation
    ensures other[k].installation == one[k].installation ==> other[k] == one[k]
  {
    hide AllowanceOf;
    assert AllowanceOf(sweep, one[k].installation) == Some(one[k]);
    assert one[k] in other;
    forall j | 0 <= j < k
      ensures other[j] != one[k]
    {
      assert other[j] == other[..k][j] == one[..k][j] == one[j];
    }
  }

  /** The event asks what is left of an installation. */
  predicate AsksAfter(events: seq<Event>, at: nat, installation: Installation)
  {
    at < |events| && events[at].Ask? && Spends(After(BEGUN, events[..at]), events[at].token) == installation
  }

  /** An hour's start is known exactly when the sweep asked after it, and is
      what the first answer said, with what was spent by then put back. */
  lemma {:induction false} StartIsFirstAsked(events: seq<Event>, installation: Installation)
    ensures BudgetOf(After(BEGUN, events), installation).start.Some? <==> exists at: nat :: AsksAfter(events, at, installation)
    ensures forall at: nat ::
              AsksAfter(events, at, installation) && (forall before: nat :: before < at ==> !AsksAfter(events, before, installation)) ==>
                BudgetOf(After(BEGUN, events), installation).start
                == Asked(BudgetOf(After(BEGUN, events[..at]), installation), events[at].core).start
    decreases |events|
  {
    if events != [] {
      var n := |events| - 1;
      var fewer := events[..n];
      StartIsFirstAsked(fewer, installation);
      AsksFewer(events, installation);
      StartMoves(After(BEGUN, fewer), events[n], installation);
      assert After(BEGUN, events) == Next(After(BEGUN, fewer), events[n]);
      assert BudgetOf(After(BEGUN, events), installation).start.Some? <==>
             AsksAfter(events, n, installation) || exists at: nat :: at < n && AsksAfter(events, at, installation);
      hide Counts, Noted, Asked, Next, AsksAfter, Spends;
      forall at: nat | AsksAfter(events, at, installation) && forall before: nat :: before < at ==> !AsksAfter(events, before, installation)
        ensures BudgetOf(After(BEGUN, events), installation).start
             == Asked(BudgetOf(After(BEGUN, events[..at]), installation), events[at].core).start
      {
        if at < n {
          assert AsksAfter(fewer, at, installation);
          assert fewer[..at] == events[..at];
        }
      }
    }
  }

  /** An hour put back to before what was spent of it, within its limits. */
  function PutBack(core: RateLimit, spent: nat): Start
  {
    Start(core.limit, if core.used < spent then 0 else core.used - spent,
          if core.remaining + spent > core.limit then core.limit else core.remaining + spent)
  }

  /** So the hour reported is what the first answer said, less all that
      was spent of it until then. */
  lemma StartIsPutBack(events: seq<Event>, most: nat, installation: Installation, at: nat)
    requires Runs(BEGUN, events, most)
    requires AsksAfter(events, at, installation) && forall before: nat :: before < at ==> !AsksAfter(events, before, installation)
    ensures BudgetOf(After(BEGUN, events), installation).start == Some(PutBack(events[at].core, Spending(events[..at], installation)))
  {
    StartIsFirstAsked(events, installation);
    NotYetAsked(events, installation, at);
    AskedPutsBack(BudgetOf(After(BEGUN, events[..at]), installation), events[at].core);
    SpentBefore(events, most, installation, at);
    hide *;
  }

  lemma SpentBefore(events: seq<Event>, most: nat, installation: Installation, at: nat)
    requires Runs(BEGUN, events, most) && at <= |events|
    ensures BudgetOf(After(BEGUN, events[..at]), installation).spent == Spending(events[..at], installation)
  {
    hide Runs, After, Spending, Told, Trips;
    assert events == events[..at] + events[at..];
    RunsBoth(events[..at], events[at..], most);
    LedgerIsHistory(events[..at], most, installation);
  }

  lemma NotYetAsked(events: seq<Event>, installation: Installation, at: nat)
    requires at <= |events| && forall before: nat :: before < at ==> !AsksAfter(events, before, installation)
    ensures BudgetOf(After(BEGUN, events[..at]), installation).start == None
  {
    hide After, Spends;
    forall before: nat
      ensures !AsksAfter(events[..at], before, installation)
    {
      if before < at {
        assert events[..at][..before] == events[..before] && events[..at][before] == events[before];
        assert !AsksAfter(events, before, installation);
      }
    }
    StartIsFirstAsked(events[..at], installation);
  }

  lemma AskedPutsBack(budget: Budget, core: RateLimit)
    requires budget.start == None
    ensures Asked(budget, core).start == Some(PutBack(core, budget.spent))
  {
  }

  lemma AsksFewer(events: seq<Event>, installation: Installation)
    requires events != []
    ensures var n := |events| - 1;
            && (forall at: nat :: at < n ==> (AsksAfter(events[..n], at, installation) <==> AsksAfter(events, at, installation)))
            && (forall at: nat :: at >= n && AsksAfter(events, at, installation) ==> at == n)
            && (AsksAfter(events, n, installation) <==> events[n].Ask? && Spends(After(BEGUN, events[..n]), events[n].token) == installation)
  {
    hide Spends, After;
    var n := |events| - 1;
    forall at: nat | at < n
      ensures AsksAfter(events[..n], at, installation) <==> AsksAfter(events, at, installation)
    {
      assert events[..n][..at] == events[..at];
    }
  }

  lemma StartMoves(sweep: Sweep, event: Event, installation: Installation)
    ensures var before, after := BudgetOf(sweep, installation), BudgetOf(Next(sweep, event), installation);
            after.start == if event.Ask? && Spends(sweep, event.token) == installation then Asked(before, event.core).start else before.start
    ensures BudgetOf(sweep, installation).start.Some? ==>
              BudgetOf(Next(sweep, event), installation).start == BudgetOf(sweep, installation).start
    ensures event.Ask? ==> Asked(BudgetOf(sweep, installation), event.core).start.Some?
  {
    hide Counts;
  }

  /** Once tripped, an installation's fuse stays as it tripped for the rest of
      the sweep, and no read of it is admitted: the reads in flight are only
      ones that were already. */
  lemma {:induction false} TrippedAdmitsNothing(sweep: Sweep, events: seq<Event>, most: nat, installation: Installation)
    requires BudgetOf(sweep, installation).tripped.Some? && Runs(sweep, events, most)
    ensures BudgetOf(After(sweep, events), installation).tripped == BudgetOf(sweep, installation).tripped
    ensures ReadsOf(After(sweep, events).flights, installation) <= ReadsOf(sweep.flights, installation)
    decreases |events|
  {
    if events != [] {
      var fewer, last := events[..|events| - 1], events[|events| - 1];
      forall i | 0 <= i < |fewer|
        ensures Possible(After(sweep, fewer[..i]), fewer[i], most)
      {
        assert fewer[..i] == events[..i];
      }
      TrippedAdmitsNothing(sweep, fewer, most, installation);
      assert Possible(After(sweep, fewer), last, most);
      TrippedStays(After(sweep, fewer), last, installation);
    }
  }

  lemma TrippedStays(sweep: Sweep, event: Event, installation: Installation)
    requires BudgetOf(sweep, installation).tripped.Some?
    requires event.Send? ==> event.id !in sweep.flights
    ensures BudgetOf(Next(sweep, event), installation).tripped == BudgetOf(sweep, installation).tripped
    ensures ReadsOf(Next(sweep, event).flights, installation) <= ReadsOf(sweep.flights, installation)
  {
    hide Counts;
  }

  // ------------------------------------------------ the bound without the trip

  const COUNTED := Answered(None, false, None)

  /** A write sent and answered, `count` times over. */
  function Writes(count: nat): seq<Event>
  {
    if count == 0 then [] else Writes(count - 1) + [Send(0, "", true), Return(0, COUNTED)]
  }

  lemma CountedCounts()
    ensures Counts(COUNTED)
  {
    assert Lower(CORE) == CORE;
  }

  /** The ledger after that many writes and nothing else. */
  function Written(count: nat): Sweep
  {
    if count == 0 then BEGUN
    else Sweep(map[0 := Budget(count, 0, false, None, None)], map[], map[], count, map[])
  }

  lemma OneWritten(count: nat)
    requires count + 1 < CEILING
    ensures var sent := Next(Written(count), Send(0, "", true));
            sent.flights == map[0 := Flight(0, true)] && Next(sent, Return(0, COUNTED)) == Written(count + 1)
  {
    CountedCounts();
    var sent := Next(Written(count), Send(0, "", true));
    assert sent.flights - {0} == map[];
    assert sent.budgets == map[0 := Budget(count, 0, false, None, None)];
    hide Counts;
    assert Next(sent, Return(0, COUNTED)).budgets == Written(count + 1).budgets;
  }

  lemma NothingRuns(most: nat)
    ensures Runs(BEGUN, [], most) && After(BEGUN, []) == Written(0)
  {
  }

  lemma {:induction false} WritesSpend(count: nat, most: nat)
    requires count < CEILING
    ensures Runs(BEGUN, Writes(count), most) && After(BEGUN, Writes(count)) == Written(count)
  {
    hide Runs, After, Written;
    if count == 0 {
      NothingRuns(most);
    } else {
      WritesSpend(count - 1, most);
      OneMoreWritten(count - 1, Writes(count - 1), most);
    }
  }

  lemma OneMoreWritten(count: nat, events: seq<Event>, most: nat)
    requires count + 1 < CEILING && Runs(BEGUN, events, most) && After(BEGUN, events) == Written(count)
    ensures var more := events + [Send(0, "", true), Return(0, COUNTED)];
            Runs(BEGUN, more, most) && After(BEGUN, more) == Written(count + 1)
  {
    OneWritten(count);
    assert 0 !in Written(count).flights;
    hide Next, Counts, Written, After;
    var send, back := Send(0, "", true), Return(0, COUNTED);
    RunsOne(events, send, most);
    RunsOne(events + [send], back, most);
    assert events + [send] + [back] == events + [send, back];
  }

  lemma RunsOne(events: seq<Event>, event: Event, most: nat)
    requires Runs(BEGUN, events, most) && Possible(After(BEGUN, events), event, most)
    ensures Runs(BEGUN, events + [event], most)
    ensures After(BEGUN, events + [event]) == Next(After(BEGUN, events), event)
  {
    var all := events + [event];
    assert all[..|all| - 1] == events;
    hide Next, Possible;
    forall i | 0 <= i < |all|
      ensures Possible(After(BEGUN, all[..i]), all[i], most)
    {
      if i < |events| {
        assert all[..i] == events[..i];
      }
    }
  }

  /** A budget one answer short of its ceiling, with a read and a write in flight. */
  const BRINK := Sweep(map[0 := Budget(149, 0, false, None, None)], map[], map[1 := Flight(0, false), 2 := Flight(0, true)], 149, map[])

  lemma BrinkIsReached() returns (events: seq<Event>)
    ensures Runs(BEGUN, events, 1) && After(BEGUN, events) == BRINK
  {
    WritesSpend(149, 1);
    ToTheBrink();
    var read, write := Send(1, "", false), Send(2, "", true);
    hide Next, After, Written, ReadsOf;
    RunsOne(Writes(149), read, 1);
    RunsOne(Writes(149) + [read], write, 1);
    events := Writes(149) + [read] + [write];
  }

  lemma ToTheBrink()
    ensures Possible(Written(149), Send(1, "", false), 1)
    ensures var sent := Next(Written(149), Send(1, "", false));
            Possible(sent, Send(2, "", true), 1) && Next(sent, Send(2, "", true)) == BRINK
  {
    var sent := Next(Written(149), Send(1, "", false));
    assert ReadsOf(Written(149).flights, 0) == {};
    assert sent == Sweep(map[0 := Budget(149, 0, false, None, None)], map[], map[1 := Flight(0, false)], 149, map[]);
  }

  /** The answer that trips the fuse has to be among those writes. With one
      read in flight at most, a write that reaches the ceiling leaves a read
      to come back past it though no write is counted after the trip. */
  lemma TrippedByAWrite() returns (events: seq<Event>)
    ensures Runs(BEGUN, events, 1)
    ensures var sweep := After(BEGUN, events);
            ReadsOf(sweep.flights, 0) == {} && LateOf(sweep, 0) == 1 && BudgetOf(sweep, 0).spent > CEILING + 1 - 1
  {
    events := BrinkIsReached();
    CountedCounts();
    hide Counts, After;
    var tripped := Next(BRINK, Return(2, COUNTED));
    assert tripped.flights == map[1 := Flight(0, false)];
    assert LateOf(tripped, 0) == 1;
    var last := Next(tripped, Return(1, COUNTED));
    assert last.flights == map[];
    assert BudgetOf(last, 0).spent == CEILING + 1;
    RunsOne(events, Return(2, COUNTED), 1);
    RunsOne(events + [Return(2, COUNTED)], Return(1, COUNTED), 1);
    events := events + [Return(2, COUNTED)] + [Return(1, COUNTED)];
  }
}
