/** The analysis that records what a template reads and does not bind itself,
    and the free variables it is proved to compute: a bottom-up definition that
    carries no scope, no guards and no order of visiting. */
module TemplateReads {
  import opened Basics
  import opened TemplateLanguage
  import opened TemplateTrails

  /** What a tree reads freely: every name, the names some occurrence of which
      is neither guarded nor defaulted, and whether an include names a
      template the engine cannot find. */
  datatype Free = Free(all: set<Name>, required: set<Name>, unfound: bool)

  const NOTHING := Free({}, {}, false)

  function Join(first: Free, second: Free): Free
  {
    Free(first.all + second.all, first.required + second.required, first.unfound || second.unfound)
  }

  /** What is still free once names are bound around it. */
  function Without(free: Free, names: set<Name>): Free
  {
    Free(free.all - names, free.required - names, free.unfound)
  }

  /** What a condition that mentions names leaves required. */
  function Guarded(free: Free, names: set<Name>): Free
  {
    Free(free.all, free.required - names, free.unfound)
  }

  function Optional(free: Free): Free
  {
    Free(free.all, {}, free.unfound)
  }

  function FreeOf(noted: seq<Read>): (free: Free)
    ensures free.required <= free.all && !free.unfound
  {
    Free(set read | read in noted && read.name !in SKIPPED :: read.name,
         set read | read in noted && read.name !in SKIPPED && !read.defaulted :: read.name,
         false)
  }

  function FreeIn(value: Expression): (free: Free)
    ensures free.required <= free.all && !free.unfound
  {
    FreeOf(ExpressionReads(value))
  }

  /** The free names of a tree. `including` is the chain of templates an
      include is not followed into again, and `descend` whether it is followed
      at all. */
  function FreeNodes(engine: Engine, descend: bool, including: set<Name>, nodes: NodeList): (free: Free)
    ensures free.required <= free.all
    decreases engine.Keys - including, nodes
  {
    match nodes
    case End => NOTHING
    case Then(node, rest) =>
      Join(FreeNode(engine, descend, including, node),
           Without(FreeNodes(engine, descend, including, rest), Binds(node)))
  }

  function FreeNode(engine: Engine, descend: bool, including: set<Name>, node: Node): (free: Free)
    ensures free.required <= free.all
    decreases engine.Keys - including, node
  {
    match node
    case Comment => NOTHING
    case For(sequence, loopvars, _, loop, empty) =>
      Join(FreeIn(sequence),
           Join(Without(FreeNodes(engine, descend, including, loop), LoopNames(loopvars)),
                FreeNodes(engine, descend, including, empty)))
    case If(branches) => FreeBranches(engine, descend, including, branches)
    case With(extra, body) =>
      Join(FreeIn(Group(Values(extra))), Without(FreeNodes(engine, descend, including, body), Given(extra)))
    case Include(template, extra, isolated) =>
      var passed := Join(FreeIn(template), FreeIn(Group(Values(extra))));
      var named := LiteralName(template);
      if !descend || named == None || named.value in including then passed
      else if named.value !in engine then Join(passed, Free({}, {}, true))
      else
        var inner := FreeNodes(engine, true, including + {named.value}, engine[named.value]);
        var needed := if isolated then {} else inner.required - Given(extra);
        Join(passed, Free(needed, needed, inner.unfound))
    case Block(_, body) => FreeNodes(engine, descend, including, body)
    case Extends(body) => FreeNodes(engine, descend, including, body)
    case Tag(_, attributes, children, _) =>
      Join(FreeIn(Group(attributes)), FreeChildren(engine, descend, including, children))
  }

  function FreeBranches(engine: Engine, descend: bool, including: set<Name>, branches: Branches): (free: Free)
    ensures free.required <= free.all
    decreases engine.Keys - including, branches
  {
    match branches
    case NoBranch => NOTHING
    case Branch(condition, body, rest) =>
      Join(Optional(FreeIn(condition)),
           Join(Guarded(FreeNodes(engine, descend, including, body), NamesRead(ExpressionReads(condition))),
                FreeBranches(engine, descend, including, rest)))
  }

  function FreeChildren(engine: Engine, descend: bool, including: set<Name>, children: Children): (free: Free)
    ensures free.required <= free.all
    decreases engine.Keys - including, children
  {
    match children
    case NoChild => NOTHING
    case Child(body, rest) =>
      Join(FreeNodes(engine, descend, including, body), FreeChildren(engine, descend, including, rest))
  }

  // ------------------------------------------------ what is free, by positions

  ghost predicate Claims(free: Free, claim: Claim)
  {
    match claim
    case Reading(name) => name in free.all
    case Needing(name) => name in free.required
    case Lacking => free.unfound
  }

  /** A name is among an expression's reads exactly where it stands in it. */
  lemma {:induction false} OccursIsRead(value: Expression, name: Name, defaulted: bool)
    ensures Read(name, defaulted) in ExpressionReads(value) <==> Occurs(value, name, defaulted)
  {
    match value
    case Nothing =>
    case Plain(_) =>
    case Filtered(operand, filters) =>
      ArgumentIsRead(filters, name, defaulted);
      DefaultedIs(filters);
    case Token(_, inner, first, second) =>
      OccursIsRead(inner, name, defaulted);
      OccursIsRead(first, name, defaulted);
      OccursIsRead(second, name, defaulted);
    case Group(items) => OccursInIsRead(items, name, defaulted);
  }

  lemma {:induction false} OccursInIsRead(items: Expressions, name: Name, defaulted: bool)
    ensures Read(name, defaulted) in GroupReads(items) <==> OccursIn(items, name, defaulted)
  {
    if items.More? {
      OccursIsRead(items.head, name, defaulted);
      OccursInIsRead(items.tail, name, defaulted);
    }
  }

  ghost predicate ArgumentNames(filters: seq<Filter>, name: Name)
  {
    exists filter, argument :: filter in filters && argument in filter.arguments && argument.Argued? && Names(argument.variable, name)
  }

  lemma DefaultedIs(filters: seq<Filter>)
    ensures Defaulted(filters) <==> exists filter :: filter in filters && filter.named in {"default", "default_if_none"}
  {
    if Defaulted(filters) {
      var i :| 0 <= i < |filters| && filters[i].named in DEFAULTING;
      assert filters[i] in filters;
    }
  }

  lemma {:induction false} ArgumentIsRead(filters: seq<Filter>, name: Name, defaulted: bool)
    ensures Read(name, defaulted) in FilterReads(filters) <==> !defaulted && ArgumentNames(filters, name)
  {
    if filters != [] {
      OneFilterIsRead(filters[0].arguments, name, defaulted);
      ArgumentIsRead(filters[1..], name, defaulted);
      assert forall filter :: filter in filters <==> filter == filters[0] || filter in filters[1..];
    }
  }

  lemma {:induction false} OneFilterIsRead(arguments: seq<Argument>, name: Name, defaulted: bool)
    ensures Read(name, defaulted) in ArgumentReads(arguments)
       <==> !defaulted && exists argument :: argument in arguments && argument.Argued? && Names(argument.variable, name)
  {
    if arguments != [] {
      OneFilterIsRead(arguments[1..], name, defaulted);
      assert forall argument :: argument in arguments <==> argument == arguments[0] || argument in arguments[1..];
    }
  }

  lemma {:induction false} PassedIsRead(extra: Bindings, name: Name, defaulted: bool)
    ensures OccursIn(Values(extra), name, defaulted) <==> Passed(extra, name, defaulted)
  {
    if extra.Bind? {
      PassedIsRead(extra.rest, name, defaulted);
    }
  }

  lemma {:induction false} GivesIs(extra: Bindings, name: Name)
    ensures Gives(extra, name) <==> name in Given(extra)
  {
    if extra.Bind? {
      GivesIs(extra.rest, name);
    }
  }

  lemma AskedIs(condition: Expression, name: Name)
    ensures name in NamesRead(ExpressionReads(condition)) <==> Occurs(condition, name, true) || Occurs(condition, name, false)
  {
    OccursIsRead(condition, name, true);
    OccursIsRead(condition, name, false);
  }

  /** A trail that ends in an expression. */
  lemma HereIsFree(value: Expression, condition: bool, ending: Ending, claim: Claim)
    requires Here([], ending, value, condition) && Supports(claim, [], ending)
    ensures Claims(if condition then Optional(FreeIn(value)) else FreeIn(value), claim)
  {
    OccursIsRead(value, ending.name, ending.defaulted);
    hide Occurs, ExpressionReads;
  }

  lemma FreeIsHere(value: Expression, condition: bool, claim: Claim) returns (crossed: seq<Crossing>, ending: Ending)
    requires Claims(if condition then Optional(FreeIn(value)) else FreeIn(value), claim)
    ensures Here(crossed, ending, value, condition) && Supports(claim, crossed, ending)
  {
    hide Occurs, ExpressionReads;
    var read :| read in ExpressionReads(value) && read.name == claim.name && (claim.Needing? ==> !read.defaulted);
    OccursIsRead(value, read.name, read.defaulted);
    crossed, ending := [], At(read.name, read.defaulted, condition);
  }

  /** Every trail into a tree shows what is free of it, or required of it, or
      that a template is not there. */
  lemma {:induction false} TrailIsFree(engine: Engine, descend: bool, including: set<Name>, nodes: NodeList,
                                       crossed: seq<Crossing>, ending: Ending, claim: Claim)
    requires Trails(engine, descend, including, nodes, crossed, ending) && Supports(claim, crossed, ending)
    ensures Claims(FreeNodes(engine, descend, including, nodes), claim)
    decreases |crossed|, nodes
  {
    hide Supports;
    if TrailsAt(engine, descend, including, nodes.node, crossed, ending) {
      TrailAtIsFree(engine, descend, including, nodes.node, crossed, ending, claim);
    } else {
      assert crossed == [crossed[0]] + crossed[1..];
      SupportsAcross(claim, crossed[0], crossed[1..], ending);
      TrailIsFree(engine, descend, including, nodes.rest, crossed[1..], ending, claim);
    }
  }

  lemma {:induction false} TrailAtIsFree(engine: Engine, descend: bool, including: set<Name>, node: Node,
                                         crossed: seq<Crossing>, ending: Ending, claim: Claim)
    requires TrailsAt(engine, descend, including, node, crossed, ending) && Supports(claim, crossed, ending)
    ensures Claims(FreeNode(engine, descend, including, node), claim)
    decreases |crossed|, node
  {
    hide Supports, FreeIn;
    match node
    case Comment =>
    case For(sequence, loopvars, _, loop, empty) =>
      if Here(crossed, ending, sequence, false) {
        HereIsFree(sequence, false, ending, claim);
      } else if Trails(engine, descend, including, empty, crossed, ending) {
        TrailIsFree(engine, descend, including, empty, crossed, ending, claim);
      } else {
        assert crossed == [crossed[0]] + crossed[1..];
        SupportsAcross(claim, crossed[0], crossed[1..], ending);
        TrailIsFree(engine, descend, including, loop, crossed[1..], ending, claim);
      }
    case If(branches) => TrailBranchIsFree(engine, descend, including, branches, crossed, ending, claim);
    case With(extra, body) =>
      if HerePassed(crossed, ending, extra) {
        PassedIsFree(extra, ending, claim);
      } else {
        assert crossed == [crossed[0]] + crossed[1..];
        SupportsAcross(claim, crossed[0], crossed[1..], ending);
        TrailIsFree(engine, descend, including, body, crossed[1..], ending, claim);
        if !claim.Lacking? {
          GivesIs(extra, claim.name);
        }
      }
    case Include(template, extra, isolated) =>
      if Here(crossed, ending, template, false) {
        HereIsFree(template, false, ending, claim);
      } else if HerePassed(crossed, ending, extra) {
        PassedIsFree(extra, ending, claim);
      } else {
        TrailThroughIsFree(engine, including, template, extra, isolated, crossed, ending, claim);
      }
    case Block(_, body) => TrailIsFree(engine, descend, including, body, crossed, ending, claim);
    case Extends(body) => TrailIsFree(engine, descend, including, body, crossed, ending, claim);
    case Tag(_, attributes, children, _) =>
      if HereIn(crossed, ending, attributes) {
        HereIsFree(Group(attributes), false, ending, claim);
      } else {
        TrailChildIsFree(engine, descend, including, children, crossed, ending, claim);
      }
  }

  lemma PassedIsFree(extra: Bindings, ending: Ending, claim: Claim)
    requires HerePassed([], ending, extra) && Supports(claim, [], ending)
    ensures Claims(FreeIn(Group(Values(extra))), claim)
  {
    PassedIsRead(extra, ending.name, ending.defaulted);
    HereIsFree(Group(Values(extra)), false, ending, claim);
  }

  lemma {:induction false} TrailThroughIsFree(engine: Engine, including: set<Name>, template: Expression, extra: Bindings, isolated: bool,
                                              crossed: seq<Crossing>, ending: Ending, claim: Claim)
    requires TrailsThrough(engine, including, template, extra, isolated, crossed, ending) && Supports(claim, crossed, ending)
    ensures Claims(FreeNode(engine, true, including, Include(template, extra, isolated)), claim)
    decreases |crossed|, template
  {
    hide FreeIn;
    var name := template.operand.text;
    if name in engine {
      assert crossed == [crossed[0]] + crossed[1..];
      SupportsThrough(claim, crossed[0].given, isolated, crossed[1..], ending);
      if claim.Lacking? {
        TrailIsFree(engine, true, including + {name}, engine[name], crossed[1..], ending, Lacking);
      } else {
        TrailIsFree(engine, true, including + {name}, engine[name], crossed[1..], ending, Needing(claim.name));
        GivesIs(extra, claim.name);
      }
    }
  }

  lemma {:induction false} TrailBranchIsFree(engine: Engine, descend: bool, including: set<Name>, branches: Branches,
                                             crossed: seq<Crossing>, ending: Ending, claim: Claim)
    requires TrailsBranch(engine, descend, including, branches, crossed, ending) && Supports(claim, crossed, ending)
    ensures Claims(FreeBranches(engine, descend, including, branches), claim)
    decreases |crossed|, branches
  {
    hide Supports, FreeIn, NamesRead, Occurs;
    if Here(crossed, ending, branches.condition, true) {
      HereIsFree(branches.condition, true, ending, claim);
    } else if TrailsBranch(engine, descend, including, branches.rest, crossed, ending) {
      TrailBranchIsFree(engine, descend, including, branches.rest, crossed, ending, claim);
    } else {
      assert crossed == [crossed[0]] + crossed[1..];
      SupportsAcross(claim, crossed[0], crossed[1..], ending);
      TrailIsFree(engine, descend, including, branches.body, crossed[1..], ending, claim);
      if !claim.Lacking? {
        AskedIs(branches.condition, claim.name);
      }
    }
  }

  lemma {:induction false} TrailChildIsFree(engine: Engine, descend: bool, including: set<Name>, children: Children,
                                            crossed: seq<Crossing>, ending: Ending, claim: Claim)
    requires TrailsChild(engine, descend, including, children, crossed, ending) && Supports(claim, crossed, ending)
    ensures Claims(FreeChildren(engine, descend, including, children), claim)
    decreases |crossed|, children
  {
    hide Supports;
    if Trails(engine, descend, including, children.body, crossed, ending) {
      TrailIsFree(engine, descend, including, children.body, crossed, ending, claim);
    } else {
      TrailChildIsFree(engine, descend, including, children.rest, crossed, ending, claim);
    }
  }

  /** Whatever is free of a tree, some trail into it shows. */
  lemma {:induction false} FreeHasTrail(engine: Engine, descend: bool, including: set<Name>, nodes: NodeList, claim: Claim)
    returns (crossed: seq<Crossing>, ending: Ending)
    requires Claims(FreeNodes(engine, descend, including, nodes), claim)
    ensures Trails(engine, descend, including, nodes, crossed, ending) && Supports(claim, crossed, ending)
    decreases engine.Keys - including, nodes
  {
    hide Supports;
    if Claims(FreeNode(engine, descend, including, nodes.node), claim) {
      crossed, ending := FreeNodeHasTrail(engine, descend, including, nodes.node, claim);
    } else {
      crossed, ending := FreeHasTrail(engine, descend, including, nodes.rest, claim);
      crossed := Across(claim, After(Leaves(nodes.node)), crossed, ending);
    }
  }

  /** A trail with one more crossing in front. */
  lemma Across(claim: Claim, crossing: Crossing, crossed: seq<Crossing>, ending: Ending) returns (longer: seq<Crossing>)
    requires !crossing.Through? && Supports(claim, crossed, ending)
    requires claim.Lacking? || Open(crossing, claim.name)
    requires claim.Needing? && crossing.Under? ==> claim.name !in crossing.asks
    ensures longer != [] && longer[0] == crossing && longer[1..] == crossed && Supports(claim, longer, ending)
  {
    SupportsAcross(claim, crossing, crossed, ending);
    longer := [crossing] + crossed;
  }

  lemma {:induction false} FreeNodeHasTrail(engine: Engine, descend: bool, including: set<Name>, node: Node, claim: Claim)
    returns (crossed: seq<Crossing>, ending: Ending)
    requires Claims(FreeNode(engine, descend, including, node), claim)
    ensures TrailsAt(engine, descend, including, node, crossed, ending) && Supports(claim, crossed, ending)
    decreases engine.Keys - including, node
  {
    hide Supports, FreeIn;
    match node
    case For(sequence, loopvars, _, loop, empty) =>
      if Claims(FreeIn(sequence), claim) {
        crossed, ending := FreeIsHere(sequence, false, claim);
      } else if Claims(FreeNodes(engine, descend, including, empty), claim) {
        crossed, ending := FreeHasTrail(engine, descend, including, empty, claim);
      } else {
        crossed, ending := FreeHasTrail(engine, descend, including, loop, claim);
        crossed := Across(claim, Inside(iset name | name in loopvars || name == "forloop"), crossed, ending);
      }
    case If(branches) =>
      crossed, ending := FreeBranchHasTrail(engine, descend, including, branches, claim);
    case With(extra, body) =>
      if Claims(FreeIn(Group(Values(extra))), claim) {
        crossed, ending := FreeIsPassed(extra, claim);
      } else {
        crossed, ending := FreeHasTrail(engine, descend, including, body, claim);
        if !claim.Lacking? {
          GivesIs(extra, claim.name);
        }
        crossed := Across(claim, Inside(iset name | Gives(extra, name)), crossed, ending);
      }
    case Include(template, extra, isolated) =>
      if Claims(FreeIn(template), claim) {
        crossed, ending := FreeIsHere(template, false, claim);
      } else if Claims(FreeIn(Group(Values(extra))), claim) {
        crossed, ending := FreeIsPassed(extra, claim);
      } else {
        crossed, ending := FreeThroughHasTrail(engine, including, template, extra, isolated, claim);
      }
    case Block(_, body) =>
      crossed, ending := FreeHasTrail(engine, descend, including, body, claim);
    case Extends(body) =>
      crossed, ending := FreeHasTrail(engine, descend, including, body, claim);
    case Tag(_, attributes, children, _) =>
      if Claims(FreeIn(Group(attributes)), claim) {
        crossed, ending := FreeIsHere(Group(attributes), false, claim);
      } else {
        crossed, ending := FreeChildHasTrail(engine, descend, including, children, claim);
      }
  }

  lemma FreeIsPassed(extra: Bindings, claim: Claim) returns (crossed: seq<Crossing>, ending: Ending)
    requires Claims(FreeIn(Group(Values(extra))), claim)
    ensures HerePassed(crossed, ending, extra) && Supports(claim, crossed, ending)
  {
    crossed, ending := FreeIsHere(Group(Values(extra)), false, claim);
    PassedIsRead(extra, ending.name, ending.defaulted);
  }

  lemma {:induction false} FreeThroughHasTrail(engine: Engine, including: set<Name>, template: Expression, extra: Bindings, isolated: bool,
                                               claim: Claim)
    returns (crossed: seq<Crossing>, ending: Ending)
    requires Claims(FreeNode(engine, true, including, Include(template, extra, isolated)), claim)
    requires !Claims(FreeIn(template), claim) && !Claims(FreeIn(Group(Values(extra))), claim)
    ensures TrailsThrough(engine, including, template, extra, isolated, crossed, ending) && Supports(claim, crossed, ending)
    decreases engine.Keys - including, Include(template, extra, isolated), 0
  {
    hide FreeIn;
    var name := template.operand.text;
    if name !in engine {
      return [], Unfound;
    }
    var needing := if claim.Lacking? then Lacking else Needing(claim.name);
    crossed, ending := FreeHasTrail(engine, true, including + {name}, engine[name], needing);
    var given := iset other | Gives(extra, other);
    SupportsThrough(claim, given, isolated, crossed, ending);
    if !claim.Lacking? {
      GivesIs(extra, claim.name);
    }
    assert ([Through(given, isolated)] + crossed)[1..] == crossed;
    crossed := [Through(given, isolated)] + crossed;
  }

  lemma {:induction false} FreeBranchHasTrail(engine: Engine, descend: bool, including: set<Name>, branches: Branches, claim: Claim)
    returns (crossed: seq<Crossing>, ending: Ending)
    requires Claims(FreeBranches(engine, descend, including, branches), claim)
    ensures TrailsBranch(engine, descend, including, branches, crossed, ending) && Supports(claim, crossed, ending)
    decreases engine.Keys - including, branches
  {
    hide Supports, FreeIn, NamesRead, Occurs;
    var condition := branches.condition;
    if Claims(Optional(FreeIn(condition)), claim) {
      crossed, ending := FreeIsHere(condition, true, claim);
    } else if Claims(FreeBranches(engine, descend, including, branches.rest), claim) {
      crossed, ending := FreeBranchHasTrail(engine, descend, including, branches.rest, claim);
    } else {
      crossed, ending := FreeHasTrail(engine, descend, including, branches.body, claim);
      if !claim.Lacking? {
        AskedIs(condition, claim.name);
      }
      crossed := Across(claim, Under(iset name | Occurs(condition, name, true) || Occurs(condition, name, false)), crossed, ending);
    }
  }

  lemma {:induction false} FreeChildHasTrail(engine: Engine, descend: bool, including: set<Name>, children: Children, claim: Claim)
    returns (crossed: seq<Crossing>, ending: Ending)
    requires Claims(FreeChildren(engine, descend, including, children), claim)
    ensures TrailsChild(engine, descend, including, children, crossed, ending) && Supports(claim, crossed, ending)
    decreases engine.Keys - including, children
  {
    hide Supports;
    if Claims(FreeNodes(engine, descend, including, children.body), claim) {
      crossed, ending := FreeHasTrail(engine, descend, including, children.body, claim);
    } else {
      crossed, ending := FreeChildHasTrail(engine, descend, including, children.rest, claim);
    }
  }

  /** What is free of a tree is exactly what a position in it shows. */
  lemma FreeIsShown(engine: Engine, descend: bool, including: set<Name>, nodes: NodeList, claim: Claim)
    ensures Claims(FreeNodes(engine, descend, including, nodes), claim) <==> Holds(engine, descend, including, nodes, claim)
  {
    hide Supports, Claims, Trails, FreeNodes;
    if Claims(FreeNodes(engine, descend, including, nodes), claim) {
      var crossed, ending := FreeHasTrail(engine, descend, including, nodes, claim);
    }
    if Holds(engine, descend, including, nodes, claim) {
      var crossed, ending :| Trails(engine, descend, including, nodes, crossed, ending) && Supports(claim, crossed, ending);
      TrailIsFree(engine, descend, including, nodes, crossed, ending, claim);
    }
  }

  lemma RecordIsShown(engine: Engine, descend: bool, nodes: NodeList)
    ensures var free := FreeNodes(engine, descend, {}, nodes);
            && (free.unfound <==> Holds(engine, descend, {}, nodes, Lacking))
            && (forall read :: read in free.all <==> Holds(engine, descend, {}, nodes, Reading(read)))
            && forall read :: read in free.required <==> Holds(engine, descend, {}, nodes, Needing(read))
  {
    hide Holds, FreeNodes;
    FreeIsShown(engine, descend, {}, nodes, Lacking);
    forall read
      ensures read in FreeNodes(engine, descend, {}, nodes).all <==> Holds(engine, descend, {}, nodes, Reading(read))
      ensures read in FreeNodes(engine, descend, {}, nodes).required <==> Holds(engine, descend, {}, nodes, Needing(read))
    {
      FreeIsShown(engine, descend, {}, nodes, Reading(read));
      FreeIsShown(engine, descend, {}, nodes, Needing(read));
    }
  }

  /** A branch needs no name that its condition asks for, whatever it draws. */
  lemma AskedIsNotNeeded(engine: Engine, descend: bool, condition: Expression, body: NodeList, name: Name)
    requires Occurs(condition, name, true) || Occurs(condition, name, false)
    ensures !Holds(engine, descend, {}, Then(If(Branch(condition, body, NoBranch)), End), Needing(name))
    ensures name !in FreeNodes(engine, descend, {}, Then(If(Branch(condition, body, NoBranch)), End)).required
  {
    hide Occurs, ExpressionReads;
    AskedIs(condition, name);
    var branches := Branch(condition, body, NoBranch);
    assert name !in FreeBranches(engine, descend, {}, branches).required;
    assert name !in FreeNode(engine, descend, {}, If(branches)).required;
    FreeIsShown(engine, descend, {}, Then(If(branches), End), Needing(name));
  }

  // -------------------------------------------------------------- the record

  /** What is free of a tree walked with names bound and names guarded. */
  function Scoped(free: Free, bound: set<Name>, guards: set<Name>): Free
  {
    Guarded(Without(free, bound), guards)
  }

  /** A record after a tree's free names are noted: a name once required stays
      required, so the order names are noted in is not in the record. */
  function Noted(found: map<Name, bool>, free: Free): map<Name, bool>
  {
    map name | name in found.Keys + free.all :: (name in found && found[name]) || name in free.required
  }

  /** Noting is a commutative action: the record depends on which free names
      are noted, never on the order they are noted in. */
  lemma NotedJoin(found: map<Name, bool>, first: Free, second: Free)
    requires first.required <= first.all && second.required <= second.all
    ensures Noted(Noted(found, first), second) == Noted(found, Join(first, second))
    ensures Noted(Noted(found, first), second) == Noted(Noted(found, second), first)
  {
    var joined := Noted(found, Join(first, second));
    assert Noted(Noted(found, first), second).Keys == joined.Keys == Noted(Noted(found, second), first).Keys;
  }

  /** Noting a node and then the nodes after it, with what it binds bound, is
      noting them as one tree. */
  lemma NotedThen(found: map<Name, bool>, first: Free, second: Free, bound: set<Name>, binds: set<Name>, guards: set<Name>)
    requires first.required <= first.all && second.required <= second.all
    ensures Noted(Noted(found, Scoped(first, bound, guards)), Scoped(second, bound + binds, guards))
         == Noted(found, Scoped(Join(first, Without(second, binds)), bound, guards))
  {
    NotedJoin(found, Scoped(first, bound, guards), Scoped(second, bound + binds, guards));
    assert Scoped(Join(first, Without(second, binds)), bound, guards)
        == Join(Scoped(first, bound, guards), Scoped(second, bound + binds, guards));
  }

  lemma NotedBoth(found: map<Name, bool>, first: Free, second: Free, bound: set<Name>, guards: set<Name>)
    requires first.required <= first.all && second.required <= second.all
    ensures Noted(Noted(found, Scoped(first, bound, guards)), Scoped(second, bound, guards))
         == Noted(found, Scoped(Join(first, second), bound, guards))
  {
    NotedThen(found, first, second, bound, {}, guards);
    assert bound + {} == bound;
    assert Without(second, {}) == second;
  }

  /** A guarded branch: the names its condition reads guard it. */
  lemma ScopedGuarded(free: Free, bound: set<Name>, guards: set<Name>, names: set<Name>)
    ensures Scoped(Guarded(free, names), bound, guards) == Scoped(free, bound, guards + names)
  {
  }

  lemma ScopedWithout(free: Free, bound: set<Name>, guards: set<Name>, names: set<Name>)
    ensures Scoped(Without(free, names), bound, guards) == Scoped(free, bound + names, guards)
  {
  }

  lemma FreeOfOne(noted: seq<Read>, i: nat)
    requires i < |noted|
    ensures var read := noted[i];
            var less, more := FreeOf(noted[..i]), FreeOf(noted[..i + 1]);
            more.all == (if read.name in SKIPPED then less.all else less.all + {read.name})
            && more.required == if read.name in SKIPPED || read.defaulted then less.required else less.required + {read.name}
  {
    assert noted[..i + 1] == noted[..i] + [noted[i]];
  }

  lemma NotedAdd(found: map<Name, bool>, less: Free, name: Name, required: bool)
    requires less.required <= less.all
    ensures var before := Noted(found, less);
            var more := Free(less.all + {name}, if required then less.required + {name} else less.required, false);
            Noted(found, more) == before[name := (name in before && before[name]) || required]
  {
    var more := Free(less.all + {name}, if required then less.required + {name} else less.required, false);
    var before := Noted(found, less);
    var after := before[name := (name in before && before[name]) || required];
    assert Noted(found, more).Keys == after.Keys;
  }

  /** An exception changes nothing that is noted. */
  lemma NotedUnfound(found: map<Name, bool>, free: Free, unfound: bool, bound: set<Name>, guards: set<Name>)
    ensures Noted(found, Scoped(Join(free, Free({}, {}, unfound)), bound, guards)) == Noted(found, Scoped(free, bound, guards))
  {
    assert Join(free, Free({}, {}, unfound)).all == free.all;
    assert Join(free, Free({}, {}, unfound)).required == free.required;
  }

  /** One more name noted, or skipped. */
  lemma NotedOne(found: map<Name, bool>, noted: seq<Read>, i: nat, bound: set<Name>, guards: set<Name>, guarded: bool)
    requires i < |noted|
    ensures var read := noted[i];
            var before := Noted(found, NotedScope(noted[..i], bound, guards, guarded));
            var after := Noted(found, NotedScope(noted[..i + 1], bound, guards, guarded));
            after == if read.name in bound || read.name in SKIPPED then before
                     else before[read.name := (read.name in before && before[read.name])
                                              || !(guarded || read.defaulted || read.name in guards)]
  {
    FreeOfOne(noted, i);
    hide FreeOf;
    var read := noted[i];
    var less, more := NotedScope(noted[..i], bound, guards, guarded), NotedScope(noted[..i + 1], bound, guards, guarded);
    if read.name in bound || read.name in SKIPPED {
      assert more == less;
    } else {
      var required := !(guarded || read.defaulted || read.name in guards);
      NotedAdd(found, less, read.name, required);
      assert more.all == less.all + {read.name};
      assert more.required == if required then less.required + {read.name} else less.required;
    }
  }

  function NotedScope(noted: seq<Read>, bound: set<Name>, guards: set<Name>, guarded: bool): Free
  {
    Scoped(if guarded then Optional(FreeOf(noted)) else FreeOf(noted), bound, guards)
  }

  lemma FreeInGroup(head: Expression, tail: Expressions)
    ensures FreeIn(Group(More(head, tail))) == Join(FreeIn(head), FreeIn(Group(tail)))
  {
    var whole, first, rest := FreeIn(Group(More(head, tail))), FreeIn(head), FreeIn(Group(tail));
    assert ExpressionReads(Group(More(head, tail))) == ExpressionReads(head) + ExpressionReads(Group(tail));
    assert whole.all == first.all + rest.all;
    assert whole.required == first.required + rest.required;
  }

  lemma NotedNothing(found: map<Name, bool>, bound: set<Name>, guards: set<Name>)
    ensures Noted(found, Scoped(NOTHING, bound, guards)) == found
  {
    assert Noted(found, Scoped(NOTHING, bound, guards)).Keys == found.Keys;
  }

  /** A walk that starts from nothing has found exactly what is free. */
  lemma NotedFirst(free: Free, bound: set<Name>)
    requires free.required <= free.all
    ensures var found := Noted(map[], Scoped(free, bound, {}));
            found.Keys == free.all - bound && forall read :: read in free.required - bound <==> read in found && found[read]
  {
  }

  lemma ChainAdd(including: seq<Name>, name: Name)
    ensures Chain(including + [name]) == Chain(including) + {name}
  {
  }

  /** One branch of an `if`, and the branches after it. */
  lemma NotedBranch(found: map<Name, bool>, asked: Free, inside: Free, others: Free, names: set<Name>, bound: set<Name>, guards: set<Name>)
    requires inside.required <= inside.all && others.required <= others.all
    ensures Noted(Noted(Noted(found, Scoped(Optional(asked), bound, guards)), Scoped(inside, bound, guards + names)),
                  Scoped(others, bound, guards))
         == Noted(found, Scoped(Join(Optional(asked), Join(Guarded(inside, names), others)), bound, guards))
  {
    hide Noted, Scoped;
    ScopedGuarded(inside, bound, guards, names);
    NotedBoth(found, Optional(asked), Guarded(inside, names), bound, guards);
    NotedBoth(found, Join(Optional(asked), Guarded(inside, names)), others, bound, guards);
    assert Join(Join(Optional(asked), Guarded(inside, names)), others)
        == Join(Optional(asked), Join(Guarded(inside, names), others));
  }

  function Chain(including: seq<Name>): set<Name>
  {
    set name | name in including
  }

  /** The walker. `raised` stands for the exception of a template the engine
      cannot find: once it is set nothing reads what the rest of the walk
      notes. */
  class Walker {
    const engine: Engine
    // Whether includes are followed.
    const descend: bool
    var found: map<Name, bool>
    var including: seq<Name>
    var raised: bool

    constructor (engine: Engine, descend: bool)
      ensures this.engine == engine && this.descend == descend
      ensures found == map[] && including == [] && !raised
    {
      this.engine := engine;
      this.descend := descend;
      found := map[];
      including := [];
      raised := false;
    }

    method Note(value: Expression, bound: set<Name>, guards: set<Name>, guarded: bool)
      modifies this`found
      ensures found == Noted(old(found), Scoped(if guarded then Optional(FreeIn(value)) else FreeIn(value), bound, guards))
    {
      var noted := ExpressionReads(value);
      ghost var before := found;
      assert found == Noted(found, NotedScope(noted[..0], bound, guards, guarded));
      for i := 0 to |noted|
        invariant found == Noted(before, NotedScope(noted[..i], bound, guards, guarded))
      {
        hide Noted, Scoped, FreeOf, NotedScope, Optional;
        var read := noted[i];
        NotedOne(before, noted, i, bound, guards, guarded);
        if read.name in bound || read.name in AMBIENT || read.name in LITERALS {
          continue;
        }
        var optional := guarded || read.defaulted || read.name in guards;
        found := found[read.name := (read.name in found && found[read.name]) || !optional];
      }
      assert noted[..|noted|] == noted;
    }

    method Walk(nodes: NodeList, bound: set<Name>, guards: set<Name>)
      modifies this`found, this`raised
      ensures found == Noted(old(found), Scoped(FreeNodes(engine, descend, Chain(including), nodes), bound, guards))
      ensures raised == (old(raised) || FreeNodes(engine, descend, Chain(including), nodes).unfound)
      decreases engine.Keys - Chain(including), nodes, 1
    {
      hide Noted, Scoped, FreeIn;
      var scope := bound;
      var rest := nodes;
      ghost var chain := Chain(including);
      ghost var whole := FreeNodes(engine, descend, chain, nodes);
      while rest.Then?
        invariant rest == nodes || rest < nodes
        invariant Noted(found, Scoped(FreeNodes(engine, descend, chain, rest), scope, guards))
               == Noted(old(found), Scoped(whole, bound, guards))
        invariant (raised || FreeNodes(engine, descend, chain, rest).unfound) == (old(raised) || whole.unfound)
        decreases rest
      {
        ghost var before := found;
        Visit(rest.node, scope, guards);
        NotedThen(before, FreeNode(engine, descend, chain, rest.node), FreeNodes(engine, descend, chain, rest.rest),
                  scope, Binds(rest.node), guards);
        assert scope + {} == scope;
        if rest.node.Tag? {
          scope := scope + (rest.node.binds - {""});
        }
        rest := rest.rest;
      }
      NotedNothing(found, scope, guards);
    }

    method Visit(node: Node, bound: set<Name>, guards: set<Name>)
      modifies this`found, this`raised
      ensures found == Noted(old(found), Scoped(FreeNode(engine, descend, Chain(including), node), bound, guards))
      ensures raised == (old(raised) || FreeNode(engine, descend, Chain(including), node).unfound)
      decreases engine.Keys - Chain(including), node, 1
    {
      hide Noted, Scoped, FreeIn;
      ghost var chain := Chain(including);
      match node
      case Comment => NotedNothing(found, bound, guards);
      case For(sequence, loopvars, _, loop, empty) =>
        Note(sequence, bound, guards, false);
        Walk(loop, bound + LoopNames(loopvars), guards);
        Walk(empty, bound, guards);
        ghost var inside := FreeNodes(engine, descend, chain, loop);
        ghost var otherwise := FreeNodes(engine, descend, chain, empty);
        ScopedWithout(inside, bound, guards, LoopNames(loopvars));
        NotedBoth(Noted(old(found), Scoped(FreeIn(sequence), bound, guards)),
                  Without(inside, LoopNames(loopvars)), otherwise, bound, guards);
        NotedBoth(old(found), FreeIn(sequence), Join(Without(inside, LoopNames(loopvars)), otherwise), bound, guards);
      case If(branches) =>
        VisitIf(branches, bound, guards);
      case With(extra, body) =>
        Note(Group(Values(extra)), bound, guards, false);
        Walk(body, bound + Given(extra), guards);
        ghost var inside := FreeNodes(engine, descend, chain, body);
        ScopedWithout(inside, bound, guards, Given(extra));
        NotedBoth(old(found), FreeIn(Group(Values(extra))), Without(inside, Given(extra)), bound, guards);
      case Include(template, extra, isolated) =>
        VisitInclude(template, extra, isolated, bound, guards);
      case Block(_, body) => Walk(body, bound, guards);
      case Extends(body) => Walk(body, bound, guards);
      case Tag(_, _, _, _) => VisitTag(node, bound, guards);
    }

    method VisitIf(branches: Branches, bound: set<Name>, guards: set<Name>)
      modifies this`found, this`raised
      ensures found == Noted(old(found), Scoped(FreeBranches(engine, descend, Chain(including), branches), bound, guards))
      ensures raised == (old(raised) || FreeBranches(engine, descend, Chain(including), branches).unfound)
      decreases engine.Keys - Chain(including), branches, 1
    {
      hide Noted, Scoped, FreeIn;
      ghost var chain := Chain(including);
      var rest := branches;
      ghost var whole := FreeBranches(engine, descend, chain, branches);
      while rest.Branch?
        invariant rest == branches || rest < branches
        invariant Noted(found, Scoped(FreeBranches(engine, descend, chain, rest), bound, guards))
               == Noted(old(found), Scoped(whole, bound, guards))
        invariant (raised || FreeBranches(engine, descend, chain, rest).unfound) == (old(raised) || whole.unfound)
        decreases rest
      {
        ghost var before := found;
        var names := NamesRead(ExpressionReads(rest.condition));
        Note(rest.condition, bound, guards, true);
        Walk(rest.body, bound, guards + names);
        NotedBranch(before, FreeIn(rest.condition), FreeNodes(engine, descend, chain, rest.body),
                    FreeBranches(engine, descend, chain, rest.rest), names, bound, guards);
        rest := rest.rest;
      }
      NotedNothing(found, bound, guards);
    }

    method VisitInclude(template: Expression, extra: Bindings, isolated: bool, bound: set<Name>, guards: set<Name>)
      modifies this`found, this`raised
      ensures found == Noted(old(found),
                Scoped(FreeNode(engine, descend, Chain(including), Include(template, extra, isolated)), bound, guards))
      ensures raised == (old(raised) || FreeNode(engine, descend, Chain(including), Include(template, extra, isolated)).unfound)
      decreases engine.Keys - Chain(including), Include(template, extra, isolated), 0
    {
      hide Noted, Scoped, FreeIn;
      Note(template, bound, guards, false);
      Note(Group(Values(extra)), bound, guards, false);
      ghost var passed := Join(FreeIn(template), FreeIn(Group(Values(extra))));
      NotedBoth(old(found), FreeIn(template), FreeIn(Group(Values(extra))), bound, guards);
      var named := LiteralName(template);
      if !descend || named == None || named.value in including {
        return;
      }
      var name := named.value;
      if name !in engine {
        raised := true;
        NotedUnfound(old(found), passed, true, bound, guards);
        return;
      }
      var inner := new Walker(engine, true);
      inner.including := including + [name];
      ChainAdd(including, name);
      inner.Walk(engine[name], Given(extra), {});
      ghost var inside := FreeNodes(engine, true, Chain(including) + {name}, engine[name]);
      raised := raised || inner.raised;
      if isolated {
        NotedUnfound(old(found), passed, inside.unfound, bound, guards);
        return;
      }
      ghost var needed := inside.required - Given(extra);
      NotedFirst(inside, Given(extra));
      Escape(inner.found, bound, guards, Free(needed, needed, inside.unfound));
      NotedBoth(old(found), passed, Free(needed, needed, inside.unfound), bound, guards);
    }

    /** Notes what an included template requires and its include does not pass. */
    method Escape(inner: map<Name, bool>, bound: set<Name>, guards: set<Name>, ghost needed: Free)
      requires needed.all == needed.required
      requires forall read :: read in needed.all <==> read in inner && inner[read]
      modifies this`found
      ensures found == Noted(old(found), Scoped(needed, bound, guards))
    {
      var left := inner.Keys;
      ghost var before := found;
      while left != {}
        invariant left <= inner.Keys
        invariant found.Keys == before.Keys + set read | read in inner.Keys - left && inner[read] && read !in bound
        invariant forall read :: read in found ==>
          found[read] == ((read in before && before[read])
                          || (read in inner.Keys - left && inner[read] && read !in bound && read !in guards))
        decreases left
      {
        var read :| read in left;
        left := left - {read};
        if inner[read] && read !in bound {
          found := found[read := (read in found && found[read]) || read !in guards];
        }
      }
      assert found.Keys == Noted(before, Scoped(needed, bound, guards)).Keys;
    }

    /** The attributes are noted, and each list of nodes among them is walked. */
    method VisitTag(node: Node, bound: set<Name>, guards: set<Name>)
      requires node.Tag?
      modifies this`found, this`raised
      ensures found == Noted(old(found), Scoped(FreeNode(engine, descend, Chain(including), node), bound, guards))
      ensures raised == (old(raised) || FreeNode(engine, descend, Chain(including), node).unfound)
      decreases engine.Keys - Chain(including), node, 0
    {
      assert FreeIn(Group(NoMore)) == NOTHING;
      hide Noted, Scoped, FreeIn;
      ghost var chain := Chain(including);
      var values := node.attributes;
      while values.More?
        invariant raised == old(raised)
        invariant Noted(found, Scoped(FreeIn(Group(values)), bound, guards))
               == Noted(old(found), Scoped(FreeIn(Group(node.attributes)), bound, guards))
        decreases values
      {
        ghost var before := found;
        Note(values.head, bound, guards, false);
        NotedBoth(before, FreeIn(values.head), FreeIn(Group(values.tail)), bound, guards);
        FreeInGroup(values.head, values.tail);
        values := values.tail;
      }
      ghost var noted := found;
      NotedNothing(found, bound, guards);
      assert noted == Noted(old(found), Scoped(FreeIn(Group(node.attributes)), bound, guards));
      var rest := node.children;
      ghost var whole := FreeChildren(engine, descend, chain, node.children);
      while rest.Child?
        invariant rest == node.children || rest < node.children
        invariant Noted(found, Scoped(FreeChildren(engine, descend, chain, rest), bound, guards))
               == Noted(noted, Scoped(whole, bound, guards))
        invariant (raised || FreeChildren(engine, descend, chain, rest).unfound) == (old(raised) || whole.unfound)
        decreases rest
      {
        ghost var before := found;
        Walk(rest.body, bound, guards);
        NotedBoth(before, FreeNodes(engine, descend, chain, rest.body),
                  FreeChildren(engine, descend, chain, rest.rest), bound, guards);
        rest := rest.rest;
      }
      NotedNothing(found, bound, guards);
      NotedBoth(old(found), FreeIn(Group(node.attributes)), whole, bound, guards);
    }
  }

  /** The record of one template: a name is in it exactly when some position
      reads it unbound, and true exactly when nothing at some such position
      stands in for it; and the walk fails exactly when some include that is
      followed names a template that is not there. */
  method ReadsOf(engine: Engine, name: Name, descend: bool) returns (raised: bool, found: map<Name, bool>)
    ensures name !in engine ==> raised
    ensures name in engine ==>
      var free := FreeNodes(engine, descend, {}, engine[name]);
      raised == free.unfound && found.Keys == free.all
      && forall read :: read in found ==> (found[read] <==> read in free.required)
    ensures name in engine ==>
      && (raised <==> Holds(engine, descend, {}, engine[name], Lacking))
      && (forall read :: read in found <==> Holds(engine, descend, {}, engine[name], Reading(read)))
      && forall read :: read in found ==> (found[read] <==> Holds(engine, descend, {}, engine[name], Needing(read)))
  {
    if name !in engine {
      return true, map[];
    }
    var walker := new Walker(engine, descend);
    walker.Walk(engine[name], {}, {});
    assert Chain([]) == {};
    RecordIsShown(engine, descend, engine[name]);
    return walker.raised, walker.found;
  }
}
