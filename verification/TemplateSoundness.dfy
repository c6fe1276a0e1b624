/** What the record is for: two contexts that agree on what it holds draw the
    same text, however deep and however cyclic the includes are. */
module TemplateSoundness {
  import opened Basics
  import opened TemplateLanguage
  import opened TemplateReads

  /** What drawing a template may come to: the templates it includes on the
      context around them, directly or through one another, and whether any of
      them loops. */
  datatype Reach = Reach(templates: set<Name>, loops: bool)

  /** Every include names its template in the text, with no filter on the name,
      and one of those within reach unless it is isolated; no template extends
      another; and none loops unless that is within reach. */
  predicate Plainly(reach: Reach, nodes: NodeList)
  {
    match nodes
    case End => true
    case Then(node, rest) => PlainNode(reach, node) && Plainly(reach, rest)
  }

  predicate PlainNode(reach: Reach, node: Node)
  {
    match node
    case Comment => true
    case For(_, _, _, loop, empty) => reach.loops && Plainly(reach, loop) && Plainly(reach, empty)
    case If(branches) => PlainBranches(reach, branches)
    case With(_, body) => Plainly(reach, body)
    case Include(template, _, isolated) =>
      LiteralName(template).Some? && template.filters == [] && (isolated || LiteralName(template).value in reach.templates)
    case Block(_, body) => Plainly(reach, body)
    case Extends(_) => false
    case Tag(_, _, children, _) => PlainChildren(reach, children)
  }

  predicate PlainBranches(reach: Reach, branches: Branches)
  {
    match branches
    case NoBranch => true
    case Branch(_, body, rest) => Plainly(reach, body) && PlainBranches(reach, rest)
  }

  predicate PlainChildren(reach: Reach, children: Children)
  {
    match children
    case NoChild => true
    case Child(body, rest) => Plainly(reach, body) && PlainChildren(reach, rest)
  }

  /** The templates within reach reach no further, whatever else the engine can
      find: an isolated include draws in a context of its own, the same for
      any around it, so what its template does is not asked. */
  ghost predicate PlainWithin(reach: Reach, engine: Engine)
  {
    forall name :: name in reach.templates && name in engine ==> Plainly(reach, engine[name])
  }

  // ------------------------------------------------- reads, includes unrolled

  /** Every name a tree reads freely when includes are followed `depth` deep:
      nothing is cut at a template already being included, and nothing an
      included template reads is left out. */
  function Reached(engine: Engine, depth: nat, nodes: NodeList): set<Name>
    decreases depth, nodes
  {
    match nodes
    case End => {}
    case Then(node, rest) => ReachedNode(engine, depth, node) + (Reached(engine, depth, rest) - Binds(node))
  }

  function ReachedNode(engine: Engine, depth: nat, node: Node): set<Name>
    decreases depth, node
  {
    match node
    case Comment => {}
    case For(sequence, loopvars, _, loop, empty) =>
      FreeIn(sequence).all + (Reached(engine, depth, loop) - LoopNames(loopvars)) + Reached(engine, depth, empty)
    case If(branches) => ReachedBranches(engine, depth, branches)
    case With(extra, body) => FreeIn(Group(Values(extra))).all + (Reached(engine, depth, body) - Given(extra))
    case Include(template, extra, isolated) =>
      FreeIn(template).all + FreeIn(Group(Values(extra))).all + Inside(engine, depth, node)
    case Block(_, body) => Reached(engine, depth, body)
    case Extends(body) => Reached(engine, depth, body)
    case Tag(_, attributes, children, _) => FreeIn(Group(attributes)).all + ReachedChildren(engine, depth, children)
  }

  /** What an included template reads of the context it is included in. */
  function Inside(engine: Engine, depth: nat, node: Node): set<Name>
    requires node.Include?
    decreases depth, node, 0
  {
    var named := LiteralName(node.template);
    if node.isolated || depth == 0 || named == None || named.value !in engine then {}
    else Reached(engine, depth - 1, engine[named.value]) - Given(node.extra)
  }

  function ReachedBranches(engine: Engine, depth: nat, branches: Branches): set<Name>
    decreases depth, branches
  {
    match branches
    case NoBranch => {}
    case Branch(condition, body, rest) =>
      FreeIn(condition).all + Reached(engine, depth, body) + ReachedBranches(engine, depth, rest)
  }

  function ReachedChildren(engine: Engine, depth: nat, children: Children): set<Name>
    decreases depth, children
  {
    match children
    case NoChild => {}
    case Child(body, rest) => Reached(engine, depth, body) + ReachedChildren(engine, depth, rest)
  }

  // ------------------------------------------------------------ agreement

  predicate AgreeOn(names: set<Name>, first: Context, second: Context)
  {
    forall name :: name in names ==>
      (name in first <==> name in second) && (name in first ==> first[name] == second[name])
  }

  /** What every two contexts are held to agree on: the ambient names and the
      literals, and where any template within reach loops the loop around it,
      which a `for` records as its own loop's parent though the analysis notes
      no read of it. */
  function Around(reach: Reach): (names: set<Name>)
    ensures SKIPPED <= names && (reach.loops ==> "forloop" in names)
  {
    SKIPPED + if reach.loops then {"forloop"} else {}
  }

  lemma ArgumentsAgree(arguments: seq<Argument>, names: set<Name>, first: Context, second: Context)
    requires NamesRead(ArgumentReads(arguments)) <= names && AgreeOn(names, first, second)
    ensures ArgumentValues(arguments, first) == ArgumentValues(arguments, second)
  {
    if arguments != [] {
      var head := match arguments[0] case Constant(_) => [] case Argued(variable) => VariableReads(variable, false);
      assert ArgumentReads(arguments) == head + ArgumentReads(arguments[1..]);
      SplitReads(head, ArgumentReads(arguments[1..]));
      if arguments[0].Argued? {
        VariableAgrees(arguments[0].variable, false, names, first, second);
      }
      ArgumentsAgree(arguments[1..], names, first, second);
    }
  }

  lemma SplitReads(head: seq<Read>, tail: seq<Read>)
    ensures NamesRead(head + tail) == NamesRead(head) + NamesRead(tail)
  {
  }

  lemma VariableAgrees(variable: Variable, defaulted: bool, names: set<Name>, first: Context, second: Context)
    requires NamesRead(VariableReads(variable, defaulted)) <= names && AgreeOn(names, first, second)
    ensures Resolve(variable, first) == Resolve(variable, second)
  {
    if variable.Lookup? {
      assert Read(variable.name, defaulted) in VariableReads(variable, defaulted);
      assert variable.name in NamesRead(VariableReads(variable, defaulted));
    }
  }

  lemma FiltersAgree(host: Host, value: Value, filters: seq<Filter>, names: set<Name>, first: Context, second: Context)
    requires NamesRead(FilterReads(filters)) <= names && AgreeOn(names, first, second)
    ensures Piped(host, value, filters, first) == Piped(host, value, filters, second)
    decreases |filters|
  {
    if filters != [] {
      SplitReads(ArgumentReads(filters[0].arguments), FilterReads(filters[1..]));
      ArgumentsAgree(filters[0].arguments, names, first, second);
      var next := host.filter(filters[0].named, value, ArgumentValues(filters[0].arguments, first));
      FiltersAgree(host, next, filters[1..], names, first, second);
    }
  }

  /** An expression's value is settled by the names the generator yields for it. */
  lemma {:induction false} ExpressionAgrees(host: Host, value: Expression, names: set<Name>, first: Context, second: Context)
    requires NamesRead(ExpressionReads(value)) <= names && AgreeOn(names, first, second)
    ensures Eval(host, value, first) == Eval(host, value, second)
  {
    match value
    case Nothing =>
    case Plain(variable) => VariableAgrees(variable, false, names, first, second);
    case Filtered(Quoted(text), filters) => FiltersAgree(host, Text(text), filters, names, first, second);
    case Filtered(Named(variable), filters) =>
      SplitReads(VariableReads(variable, Defaulted(filters)), FilterReads(filters));
      VariableAgrees(variable, Defaulted(filters), names, first, second);
      FiltersAgree(host, Resolve(variable, first), filters, names, first, second);
    case Token(operator, inner, one, other) =>
      SplitReads(ExpressionReads(inner) + ExpressionReads(one), ExpressionReads(other));
      SplitReads(ExpressionReads(inner), ExpressionReads(one));
      ExpressionAgrees(host, inner, names, first, second);
      ExpressionAgrees(host, one, names, first, second);
      ExpressionAgrees(host, other, names, first, second);
    case Group(items) => GroupAgrees(host, items, names, first, second);
  }

  lemma {:induction false} GroupAgrees(host: Host, items: Expressions, names: set<Name>, first: Context, second: Context)
    requires NamesRead(GroupReads(items)) <= names && AgreeOn(names, first, second)
    ensures EvalAll(host, items, first) == EvalAll(host, items, second)
  {
    match items
    case NoMore =>
    case More(head, tail) =>
      SplitReads(ExpressionReads(head), GroupReads(tail));
      ExpressionAgrees(host, head, names, first, second);
      GroupAgrees(host, tail, names, first, second);
  }

  /** The names noted of an expression and the ones never noted are all it reads. */
  lemma NotedOrSkipped(value: Expression)
    ensures NamesRead(ExpressionReads(value)) <= FreeIn(value).all + SKIPPED
  {
  }

  /** Contexts that agree on what is noted of an expression and on `around`. */
  lemma ValueAgrees(host: Host, value: Expression, names: set<Name>, first: Context, second: Context)
    requires FreeIn(value).all + SKIPPED <= names && AgreeOn(names, first, second)
    ensures Eval(host, value, first) == Eval(host, value, second)
  {
    NotedOrSkipped(value);
    ExpressionAgrees(host, value, names, first, second);
  }

  lemma ValuesAgree(host: Host, items: Expressions, names: set<Name>, first: Context, second: Context)
    requires FreeIn(Group(items)).all + SKIPPED <= names && AgreeOn(names, first, second)
    ensures EvalAll(host, items, first) == EvalAll(host, items, second)
  {
    NotedOrSkipped(Group(items));
    GroupAgrees(host, items, names, first, second);
  }

  lemma {:induction false} BindingsAgree(host: Host, extra: Bindings, names: set<Name>, first: Context, second: Context)
    requires FreeIn(Group(Values(extra))).all + SKIPPED <= names && AgreeOn(names, first, second)
    ensures EvalBindings(host, extra, first) == EvalBindings(host, extra, second)
  {
    match extra
    case NoBinding =>
    case Bind(_, value, rest) =>
      FreeInGroup(value, Values(rest));
      ValueAgrees(host, value, names, first, second);
      BindingsAgree(host, rest, names, first, second);
  }

  lemma AmbientAgrees(names: set<Name>, first: Context, second: Context)
    requires SKIPPED <= names && AgreeOn(names, first, second)
    ensures Ambient(first) == Ambient(second)
  {
    assert forall name :: name in AMBIENT ==> name in names;
  }

  /** Drawings alike: both failed, or the same text in contexts that still
      agree on the names they agreed on and on the names bound since. */
  predicate Alike(names: set<Name>, one: Drawing, other: Drawing)
  {
    if one.Failed? then other.Failed?
    else other.Drawn? && one.text == other.text && AgreeOn(names, one.context, other.context)
  }

  predicate AlikeEach(names: set<Name>, one: DrawingEach, other: DrawingEach)
  {
    if one.NotDrawn? then other.NotDrawn?
    else other.DrawnEach? && one.texts == other.texts && AgreeOn(names, one.context, other.context)
  }

  lemma PushedAgree(names: set<Name>, given: Context, first: Context, second: Context)
    requires AgreeOn(names, first, second)
    ensures AgreeOn(names + given.Keys, first + given, second + given)
  {
  }

  lemma SelfAlike(names: set<Name>, drawing: Drawing)
    ensures Alike(names, drawing, drawing)
  {
  }

  lemma FewerAgree(names: set<Name>, fewer: set<Name>, first: Context, second: Context)
    requires AgreeOn(names, first, second) && fewer <= names
    ensures AgreeOn(fewer, first, second)
  {
  }

  lemma PoppedAlike(names: set<Name>, around: set<Name>, one: Drawing, other: Drawing, first: Context, second: Context)
    requires Alike(names, one, other) && AgreeOn(around, first, second)
    ensures Alike(around, Popped(one, first), Popped(other, second))
  {
  }

  lemma PushedMore(names: set<Name>, given: Context, first: Context, second: Context) returns (more: set<Name>)
    requires AgreeOn(names, first, second)
    ensures more == names + given.Keys && AgreeOn(more, first + given, second + given)
  {
    more := names + given.Keys;
  }

  /** What a tag binds is settled by what it is given. */
  lemma TagAlike(host: Host, node: Node, values: seq<Value>, texts: seq<string>, ambient: Context,
                 names: set<Name>, first: Context, second: Context)
    requires node.Tag? && AgreeOn(names, first, second)
    ensures var bound := TagBinding(host, node, values, texts, ambient);
            AgreeOn(names + Binds(node), first + bound, second + bound)
  {
    var bound := TagBinding(host, node, values, texts, ambient);
    PushedAgree(names, bound, first, second);
    assert bound.Keys == Binds(node);
  }

  /** A list of nodes reaches what its first does and what the rest does freely. */
  lemma ThenReaches(reach: Reach, engine: Engine, depth: nat, node: Node, rest: NodeList, names: set<Name>)
    requires Reached(engine, depth, Then(node, rest)) + Around(reach) <= names
    ensures ReachedNode(engine, depth, node) + Around(reach) <= names
    ensures Reached(engine, depth, rest) + Around(reach) <= names + Binds(node)
  {
    hide ReachedNode, Around, Binds;
  }

  /** A list of nodes, drawn. */
  lemma ThenDraws(host: Host, engine: Engine, depth: nat, node: Node, rest: NodeList, context: Context)
    ensures var first := DrawNode(host, engine, depth, node, context);
            Draw(host, engine, depth, Then(node, rest), context)
              == if first.Failed? then Failed
                 else var others := Draw(host, engine, depth, rest, first.context);
                      if others.Failed? then Failed else Drawn(first.text + others.text, others.context)
  {
    hide DrawNode;
  }

  /** Every name the tree reaches settles what it draws. */
  lemma {:induction false} SameDrawing(host: Host, reach: Reach, engine: Engine, depth: nat, nodes: NodeList,
                                       names: set<Name>, first: Context, second: Context)
    requires PlainWithin(reach, engine) && Plainly(reach, nodes)
    requires Reached(engine, depth, nodes) + Around(reach) <= names && AgreeOn(names, first, second)
    ensures Alike(names, Draw(host, engine, depth, nodes, first), Draw(host, engine, depth, nodes, second))
    decreases depth, nodes, 0
  {
    hide Around, SKIPPED, BUILTINS;
    match nodes
    case End =>
    case Then(node, rest) =>
      ThenReaches(reach, engine, depth, node, rest, names);
      ThenDraws(host, engine, depth, node, rest, first);
      ThenDraws(host, engine, depth, node, rest, second);
      hide AgreeOn, Draw, DrawNode, Reached, ReachedNode, PlainWithin, Binds;
      SameNode(host, reach, engine, depth, node, names, first, second);
      var one, other := DrawNode(host, engine, depth, node, first), DrawNode(host, engine, depth, node, second);
      if one.Drawn? {
        var more := names + Binds(node);
        SameDrawing(host, reach, engine, depth, rest, more, one.context, other.context);
        FewerAlike(more, names, Draw(host, engine, depth, rest, one.context), Draw(host, engine, depth, rest, other.context));
      }
  }

  lemma FewerAlike(names: set<Name>, fewer: set<Name>, one: Drawing, other: Drawing)
    requires Alike(names, one, other) && fewer <= names
    ensures Alike(fewer, one, other)
  {
  }

  lemma {:induction false} SameNode(host: Host, reach: Reach, engine: Engine, depth: nat, node: Node,
                                    names: set<Name>, first: Context, second: Context)
    requires PlainWithin(reach, engine) && PlainNode(reach, node)
    requires ReachedNode(engine, depth, node) + Around(reach) <= names && AgreeOn(names, first, second)
    ensures Alike(names + Binds(node), DrawNode(host, engine, depth, node, first), DrawNode(host, engine, depth, node, second))
    decreases depth, node, 2
  {
    hide Around, SKIPPED, BUILTINS;
    match node
    case Comment =>
    case For(_, _, _, _, _) => SameFor(host, reach, engine, depth, node, names, first, second);
    case If(branches) => SameBranches(host, reach, engine, depth, branches, names, first, second);
    case With(_, _) => SameWith(host, reach, engine, depth, node, names, first, second);
    case Include(template, extra, isolated) =>
      SameInclude(host, reach, engine, depth, node, names, first, second);
    case Block(name, body) =>
      SameDrawing(host, reach, engine, depth, body, names, first["block" := Text(name)], second["block" := Text(name)]);
    case Tag(_, _, _, _) => SameTag(host, reach, engine, depth, node, names, first, second);
  }

  lemma SameWith(host: Host, reach: Reach, engine: Engine, depth: nat, node: Node, names: set<Name>, first: Context, second: Context)
    requires PlainWithin(reach, engine) && PlainNode(reach, node) && node.With?
    requires ReachedNode(engine, depth, node) + Around(reach) <= names && AgreeOn(names, first, second)
    ensures Alike(names, DrawNode(host, engine, depth, node, first), DrawNode(host, engine, depth, node, second))
    decreases depth, node, 1
  {
    hide Around, SKIPPED, BUILTINS, AgreeOn, EvalBindings, Alike, Popped;
    BindingsAgree(host, node.extra, names, first, second);
    var given := EvalBindings(host, node.extra, first);
    var more := PushedMore(names, given, first, second);
    SamePopped(host, reach, engine, depth, node.body, names, more, first + given, second + given, first, second);
  }

  lemma SameTag(host: Host, reach: Reach, engine: Engine, depth: nat, node: Node, names: set<Name>, first: Context, second: Context)
    requires PlainWithin(reach, engine) && PlainNode(reach, node) && node.Tag?
    requires ReachedNode(engine, depth, node) + Around(reach) <= names && AgreeOn(names, first, second)
    ensures Alike(names + Binds(node), DrawNode(host, engine, depth, node, first), DrawNode(host, engine, depth, node, second))
    decreases depth, node, 0
  {
    ValuesAgree(host, node.attributes, names, first, second);
    SameChildren(host, reach, engine, depth, node.children, names, first, second);
    AmbientAgrees(names, first, second);
    hide AgreeOn, DrawNode, Binds, FreeIn, Reached, ReachedNode, Plainly, PlainNode, EvalAll, Ambient;
    TagDraws(host, engine, depth, node, first);
    TagDraws(host, engine, depth, node, second);
    hide DrawChildren;
    var one := DrawChildren(host, engine, depth, node.children, first);
    var other := DrawChildren(host, engine, depth, node.children, second);
    if one.DrawnEach? {
      TagAlike(host, node, EvalAll(host, node.attributes, first), one.texts, Ambient(first), names, one.context, other.context);
    }
  }

  /** What a tag leaves bound. */
  function TagBinding(host: Host, node: Node, values: seq<Value>, texts: seq<string>, ambient: Context): Context
    requires node.Tag?
  {
    map name | name in Binds(node) :: host.bound(node.kind, name, values, texts, ambient)
  }

  /** A tag, drawn. */
  lemma TagDraws(host: Host, engine: Engine, depth: nat, node: Node, context: Context)
    requires node.Tag?
    ensures var values, ambient := EvalAll(host, node.attributes, context), Ambient(context);
            var each := DrawChildren(host, engine, depth, node.children, context);
            DrawNode(host, engine, depth, node, context)
              == if each.NotDrawn? then Failed
                 else Drawn(host.tag(node.kind, values, each.texts, ambient),
                            each.context + TagBinding(host, node, values, each.texts, ambient))
  {
    hide DrawChildren, EvalAll, Ambient;
  }

  lemma SameFor(host: Host, reach: Reach, engine: Engine, depth: nat, node: Node, names: set<Name>, first: Context, second: Context)
    requires PlainWithin(reach, engine) && PlainNode(reach, node) && node.For?
    requires ReachedNode(engine, depth, node) + Around(reach) <= names && AgreeOn(names, first, second)
    ensures Alike(names, DrawNode(host, engine, depth, node, first), DrawNode(host, engine, depth, node, second))
    decreases depth, node, 0
  {
    var For(sequence, loopvars, reversed, loop, empty) := node;
    ValueAgrees(host, sequence, names, first, second);
    FewerAgree(names, {"forloop"}, first, second);
    hide AgreeOn;
    var elements := host.elements(Eval(host, sequence, first));
    var ordered := if reversed then Reversed(elements) else elements;
    if elements == [] {
      SameDrawing(host, reach, engine, depth, empty, names, first, second);
      PoppedAlike(names, names, Draw(host, engine, depth, empty, first), Draw(host, engine, depth, empty, second), first, second);
    } else {
      SameLoop(host, reach, engine, depth, loopvars, first, second, loop, ordered, 0, names, first, second);
      PoppedAlike(names, names, DrawLoop(host, engine, depth, loopvars, first, loop, ordered, 0, first),
                  DrawLoop(host, engine, depth, loopvars, second, loop, ordered, 0, second), first, second);
    }
  }

  lemma SameInclude(host: Host, reach: Reach, engine: Engine, depth: nat, node: Node, names: set<Name>, first: Context, second: Context)
    requires PlainWithin(reach, engine) && PlainNode(reach, node) && node.Include?
    requires ReachedNode(engine, depth, node) + Around(reach) <= names && AgreeOn(names, first, second)
    ensures Alike(names, DrawNode(host, engine, depth, node, first), DrawNode(host, engine, depth, node, second))
    decreases depth, node, 1
  {
    IncludeAgrees(host, reach, engine, depth, node, names, first, second);
    IncludeDraws(host, reach, engine, depth, node, first);
    IncludeDraws(host, reach, engine, depth, node, second);
    hide AgreeOn, EvalBindings, FreeIn, DrawNode, Draw, Popped, Alike, ReachedNode, Reached, Around, PlainWithin;
    var named := LiteralName(node.template).value;
    if named !in engine || depth == 0 {
      SelfAlike(names, Failed);
    } else if node.isolated {
      var one := Draw(host, engine, depth - 1, engine[named], BUILTINS + EvalBindings(host, node.extra, first));
      SelfAlike({}, one);
      PoppedAlike({}, names, one, one, first, second);
    } else {
      SameOpen(host, reach, engine, depth, node, named, names, EvalBindings(host, node.extra, first), first, second);
    }
  }

  lemma IncludeAgrees(host: Host, reach: Reach, engine: Engine, depth: nat, node: Node, names: set<Name>, first: Context, second: Context)
    requires node.Include?
    requires ReachedNode(engine, depth, node) + Around(reach) <= names && AgreeOn(names, first, second)
    ensures EvalBindings(host, node.extra, first) == EvalBindings(host, node.extra, second)
  {
    assert FreeIn(Group(Values(node.extra))).all <= ReachedNode(engine, depth, node);
    hide FreeIn, AgreeOn, ReachedNode, EvalBindings, Around;
    BindingsAgree(host, node.extra, names, first, second);
  }

  /** An include drawn on the context around it. */
  lemma SameOpen(host: Host, reach: Reach, engine: Engine, depth: nat, node: Node, name: Name,
                 names: set<Name>, given: Context, first: Context, second: Context)
    requires PlainWithin(reach, engine) && PlainNode(reach, node) && node.Include? && !node.isolated
    requires depth > 0 && LiteralName(node.template) == Some(name) && given.Keys == Given(node.extra)
    requires name in reach.templates && name in engine
    requires ReachedNode(engine, depth, node) + Around(reach) <= names && AgreeOn(names, first, second)
    ensures Alike(names, Popped(Draw(host, engine, depth - 1, engine[name], first + given), first),
                         Popped(Draw(host, engine, depth - 1, engine[name], second + given), second))
    decreases depth, node, 0
  {
    hide AgreeOn, PlainWithin, PlainNode, Plainly, Reached, ReachedNode, Around, Draw, Alike, Popped;
    IncludeReaches(reach, engine, depth, node, names);
    SameIncluded(host, reach, engine, depth - 1, name, names, given, first, second);
  }

  lemma SameIncluded(host: Host, reach: Reach, engine: Engine, depth: nat, name: Name,
                     names: set<Name>, given: Context, first: Context, second: Context)
    requires PlainWithin(reach, engine) && name in reach.templates && name in engine
    requires Reached(engine, depth, engine[name]) + Around(reach) <= names + given.Keys && AgreeOn(names, first, second)
    ensures Alike(names, Popped(Draw(host, engine, depth, engine[name], first + given), first),
                         Popped(Draw(host, engine, depth, engine[name], second + given), second))
    decreases depth, engine[name], 2
  {
    hide AgreeOn, PlainWithin, Plainly, Reached, Around, Draw, Alike, Popped;
    PlainTemplate(reach, engine, name);
    PushedAgree(names, given, first, second);
    SamePopped(host, reach, engine, depth, engine[name], names, names + given.Keys, first + given, second + given, first, second);
  }

  /** A tree drawn in a scope of its own, and the scope popped. */
  lemma SamePopped(host: Host, reach: Reach, engine: Engine, depth: nat, nodes: NodeList, names: set<Name>, more: set<Name>,
                   one: Context, other: Context, first: Context, second: Context)
    requires PlainWithin(reach, engine) && Plainly(reach, nodes)
    requires Reached(engine, depth, nodes) + Around(reach) <= more && AgreeOn(more, one, other) && AgreeOn(names, first, second)
    ensures Alike(names, Popped(Draw(host, engine, depth, nodes, one), first), Popped(Draw(host, engine, depth, nodes, other), second))
    decreases depth, nodes, 1
  {
    hide AgreeOn, PlainWithin, Plainly, Reached, Around, Draw, Alike, Popped;
    SameDrawing(host, reach, engine, depth, nodes, more, one, other);
    PoppedAlike(more, names, Draw(host, engine, depth, nodes, one), Draw(host, engine, depth, nodes, other), first, second);
  }

  lemma IncludeReaches(reach: Reach, engine: Engine, depth: nat, node: Node, names: set<Name>)
    requires PlainNode(reach, node) && node.Include? && !node.isolated && depth > 0 && LiteralName(node.template).value in engine
    requires ReachedNode(engine, depth, node) + Around(reach) <= names
    ensures Reached(engine, depth - 1, engine[LiteralName(node.template).value]) + Around(reach) <= names + Given(node.extra)
  {
    hide FreeIn;
  }

  /** A plain include, drawn. */
  lemma IncludeDraws(host: Host, reach: Reach, engine: Engine, depth: nat, node: Node, context: Context)
    requires PlainNode(reach, node) && node.Include?
    ensures var named := LiteralName(node.template).value;
            var within := (if node.isolated then BUILTINS else context) + EvalBindings(host, node.extra, context);
            DrawNode(host, engine, depth, node, context)
              == if named !in engine || depth == 0 then Failed
                 else Popped(Draw(host, engine, depth - 1, engine[named], within), context)
  {
    hide Draw, EvalBindings;
  }

  lemma PlainTemplate(reach: Reach, engine: Engine, name: Name)
    requires PlainWithin(reach, engine) && name in reach.templates && name in engine
    ensures Plainly(reach, engine[name])
  {
  }

  lemma WithinAgree(host: Host, loopvars: seq<Name>, around: Context, beyond: Context, element: Value, index: nat,
                    names: set<Name>, first: Context, second: Context) returns (most: set<Name>)
    requires AgreeOn(names, first, second) && AgreeOn({"forloop"}, around, beyond)
    ensures most == names + LoopNames(loopvars)
    ensures AgreeOn(most, Within(host, loopvars, around, element, index, first),
                          Within(host, loopvars, beyond, element, index, second))
  {
    assert LoopRecord(index, around) == LoopRecord(index, beyond);
    hide AgreeOn, LoopRecord;
    var record := map["forloop" := LoopRecord(index, around)];
    var bound := LoopBinding(host, loopvars, element);
    var more := PushedMore(names, record, first, second);
    most := PushedMore(more, bound, first + record, second + record);
  }

  /** One pass of a loop, and the passes after it. */
  lemma LoopStep(host: Host, engine: Engine, depth: nat, loopvars: seq<Name>, outside: Context,
                 loop: NodeList, elements: seq<Value>, index: nat, context: Context)
    requires elements != []
    ensures var drawn := Draw(host, engine, depth, loop, Within(host, loopvars, outside, elements[0], index, context));
            var whole := DrawLoop(host, engine, depth, loopvars, outside, loop, elements, index, context);
            if drawn.Failed? then whole.Failed?
            else
              var next := if |loopvars| == 1 then drawn.context else context;
              var rest := DrawLoop(host, engine, depth, loopvars, outside, loop, elements[1..], index + 1, next);
              whole == if rest.Failed? then Failed else Drawn(drawn.text + rest.text, rest.context)
  {
    hide Draw, Within;
  }

  lemma {:induction false} SameLoop(host: Host, reach: Reach, engine: Engine, depth: nat, loopvars: seq<Name>, around: Context, beyond: Context,
                                    loop: NodeList, elements: seq<Value>, index: nat,
                                    names: set<Name>, first: Context, second: Context)
    requires PlainWithin(reach, engine) && Plainly(reach, loop)
    requires (Reached(engine, depth, loop) - LoopNames(loopvars)) + Around(reach) <= names
    requires AgreeOn(names, first, second) && AgreeOn({"forloop"}, around, beyond)
    ensures Alike(names, DrawLoop(host, engine, depth, loopvars, around, loop, elements, index, first),
                         DrawLoop(host, engine, depth, loopvars, beyond, loop, elements, index, second))
    decreases depth, loop, 1 + |elements|
  {
    if elements != [] {
      var one := Within(host, loopvars, around, elements[0], index, first);
      var other := Within(host, loopvars, beyond, elements[0], index, second);
      var most := WithinAgree(host, loopvars, around, beyond, elements[0], index, names, first, second);
      hide AgreeOn, LoopNames, Within, Reached, Plainly, PlainWithin, Draw;
      SameDrawing(host, reach, engine, depth, loop, most, one, other);
      var drawn, again := Draw(host, engine, depth, loop, one), Draw(host, engine, depth, loop, other);
      LoopStep(host, engine, depth, loopvars, around, loop, elements, index, first);
      LoopStep(host, engine, depth, loopvars, beyond, loop, elements, index, second);
      if drawn.Drawn? {
        FewerAgree(most, names, drawn.context, again.context);
        SameLoop(host, reach, engine, depth, loopvars, around, beyond, loop, elements[1..], index + 1, names,
                 if |loopvars| == 1 then drawn.context else first, if |loopvars| == 1 then again.context else second);
      }
      hide DrawLoop;
    }
  }

  lemma {:induction false} SameBranches(host: Host, reach: Reach, engine: Engine, depth: nat, branches: Branches,
                                        names: set<Name>, first: Context, second: Context)
    requires PlainWithin(reach, engine) && PlainBranches(reach, branches)
    requires ReachedBranches(engine, depth, branches) + Around(reach) <= names && AgreeOn(names, first, second)
    ensures Alike(names, DrawBranches(host, engine, depth, branches, first), DrawBranches(host, engine, depth, branches, second))
    decreases depth, branches, 0
  {
    match branches
    case NoBranch =>
    case Branch(condition, body, rest) =>
      ValueAgrees(host, condition, names, first, second);
      SameDrawing(host, reach, engine, depth, body, names, first, second);
      SameBranches(host, reach, engine, depth, rest, names, first, second);
  }

  lemma {:induction false} SameChildren(host: Host, reach: Reach, engine: Engine, depth: nat, children: Children,
                                        names: set<Name>, first: Context, second: Context)
    requires PlainWithin(reach, engine) && PlainChildren(reach, children)
    requires ReachedChildren(engine, depth, children) + Around(reach) <= names && AgreeOn(names, first, second)
    ensures AlikeEach(names, DrawChildren(host, engine, depth, children, first), DrawChildren(host, engine, depth, children, second))
    decreases depth, children, 0
  {
    match children
    case NoChild =>
    case Child(body, rest) =>
      SameDrawing(host, reach, engine, depth, body, names, first, second);
      var one, other := Draw(host, engine, depth, body, first), Draw(host, engine, depth, body, second);
      if one.Drawn? {
        SameChildren(host, reach, engine, depth, rest, names, one.context, other.context);
      }
  }

  // ----------------------------------------- what an include leaves unrecorded

  /** The optional reads of the templates a tree includes without `only`: an
      include passes on what its template requires, and these stay its own. */
  function Dropped(engine: Engine, including: set<Name>, nodes: NodeList): set<Name>
    decreases engine.Keys - including, nodes
  {
    match nodes
    case End => {}
    case Then(node, rest) =>
      DroppedNode(engine, including, node) + (Dropped(engine, including, rest) - Binds(node))
  }

  function DroppedNode(engine: Engine, including: set<Name>, node: Node): set<Name>
    decreases engine.Keys - including, node
  {
    match node
    case Comment => {}
    case For(_, loopvars, _, loop, empty) =>
      (Dropped(engine, including, loop) - LoopNames(loopvars)) + Dropped(engine, including, empty)
    case If(branches) => DroppedBranches(engine, including, branches)
    case With(extra, body) => Dropped(engine, including, body) - Given(extra)
    case Include(template, extra, isolated) =>
      var named := LiteralName(template);
      if isolated || named == None || named.value in including || named.value !in engine then {}
      else
        var within := including + {named.value};
        var inner := FreeNodes(engine, true, within, engine[named.value]);
        ((inner.all - inner.required) + Dropped(engine, within, engine[named.value])) - Given(extra)
    case Block(_, body) => Dropped(engine, including, body)
    case Extends(body) => Dropped(engine, including, body)
    case Tag(_, _, children, _) => DroppedChildren(engine, including, children)
  }

  function DroppedBranches(engine: Engine, including: set<Name>, branches: Branches): set<Name>
    decreases engine.Keys - including, branches
  {
    match branches
    case NoBranch => {}
    case Branch(_, body, rest) => Dropped(engine, including, body) + DroppedBranches(engine, including, rest)
  }

  function DroppedChildren(engine: Engine, including: set<Name>, children: Children): set<Name>
    decreases engine.Keys - including, children
  {
    match children
    case NoChild => {}
    case Child(body, rest) => Dropped(engine, including, body) + DroppedChildren(engine, including, rest)
  }

  /** Recorded or dropped. */
  function Covered(engine: Engine, including: set<Name>, nodes: NodeList): set<Name>
  {
    FreeNodes(engine, true, including, nodes).all + Dropped(engine, including, nodes)
  }

  /** What the templates already being included reach, one include further in:
      what the analysis relies on when it does not follow an include again. */
  function Above(engine: Engine, including: set<Name>, depth: nat): set<Name>
  {
    if depth == 0 then {}
    else
      var less: nat := depth - 1;
      set outer, name | outer in including && name in ReachedBy(engine, less, outer) :: name
  }

  function ReachedBy(engine: Engine, depth: nat, outer: Name): set<Name>
  {
    if outer in engine then Reached(engine, depth, engine[outer]) else {}
  }

  lemma {:induction false} DeeperReaches(engine: Engine, depth: nat, nodes: NodeList)
    ensures Reached(engine, depth, nodes) <= Reached(engine, depth + 1, nodes)
    decreases depth, nodes
  {
    match nodes
    case End =>
    case Then(node, rest) =>
      DeeperReachesNode(engine, depth, node);
      DeeperReaches(engine, depth, rest);
  }

  lemma {:induction false} DeeperReachesNode(engine: Engine, depth: nat, node: Node)
    ensures ReachedNode(engine, depth, node) <= ReachedNode(engine, depth + 1, node)
    decreases depth, node
  {
    match node
    case Comment =>
    case For(_, _, _, loop, empty) => DeeperReaches(engine, depth, loop); DeeperReaches(engine, depth, empty);
    case If(branches) => DeeperReachesBranches(engine, depth, branches);
    case With(_, body) => DeeperReaches(engine, depth, body);
    case Include(template, _, _) =>
      var named := LiteralName(template);
      if depth > 0 && named.Some? && named.value in engine {
        DeeperReaches(engine, depth - 1, engine[named.value]);
      }
    case Block(_, body) => DeeperReaches(engine, depth, body);
    case Extends(body) => DeeperReaches(engine, depth, body);
    case Tag(_, _, children, _) => DeeperReachesChildren(engine, depth, children);
  }

  lemma {:induction false} DeeperReachesBranches(engine: Engine, depth: nat, branches: Branches)
    ensures ReachedBranches(engine, depth, branches) <= ReachedBranches(engine, depth + 1, branches)
    decreases depth, branches
  {
    match branches
    case NoBranch =>
    case Branch(_, body, rest) =>
      DeeperReaches(engine, depth, body);
      DeeperReachesBranches(engine, depth, rest);
  }

  lemma {:induction false} DeeperReachesChildren(engine: Engine, depth: nat, children: Children)
    ensures ReachedChildren(engine, depth, children) <= ReachedChildren(engine, depth + 1, children)
    decreases depth, children
  {
    match children
    case NoChild =>
    case Child(body, rest) =>
      DeeperReaches(engine, depth, body);
      DeeperReachesChildren(engine, depth, rest);
  }

  lemma DeeperAbove(engine: Engine, including: set<Name>, depth: nat)
    ensures Above(engine, including, depth) <= Above(engine, including, depth + 1)
  {
    forall name | name in Above(engine, including, depth)
      ensures name in Above(engine, including, depth + 1)
    {
      var outer :| outer in including && name in ReachedBy(engine, depth - 1, outer);
      DeeperReaches(engine, depth - 1, engine[outer]);
      assert name in ReachedBy(engine, depth, outer);
    }
  }

  /** Cutting an include at a template already being included loses nothing:
      what it would add, that template's own walk has noted. */
  lemma {:induction false} CoverNodes(engine: Engine, depth: nat, including: set<Name>, nodes: NodeList)
    ensures Reached(engine, depth, nodes) <= Covered(engine, including, nodes) + Above(engine, including, depth)
    decreases depth, 1, nodes
  {
    match nodes
    case End =>
    case Then(node, rest) =>
      CoverNode(engine, depth, including, node);
      CoverNodes(engine, depth, including, rest);
      hide Above;
  }

  lemma {:induction false} CoverNode(engine: Engine, depth: nat, including: set<Name>, node: Node)
    ensures ReachedNode(engine, depth, node)
         <= FreeNode(engine, true, including, node).all + DroppedNode(engine, including, node) + Above(engine, including, depth)
    decreases depth, 1, node
  {
    hide Above, FreeIn;
    match node
    case Comment =>
    case For(_, _, _, loop, empty) =>
      CoverNodes(engine, depth, including, loop);
      CoverNodes(engine, depth, including, empty);
    case If(branches) => CoverBranches(engine, depth, including, branches);
    case With(_, body) => CoverNodes(engine, depth, including, body);
    case Include(_, _, _) => CoverInclude(engine, depth, including, node);
    case Block(_, body) => CoverNodes(engine, depth, including, body);
    case Extends(body) => CoverNodes(engine, depth, including, body);
    case Tag(_, _, children, _) => CoverChildren(engine, depth, including, children);
  }

  lemma CoverInclude(engine: Engine, depth: nat, including: set<Name>, node: Node)
    requires node.Include?
    ensures ReachedNode(engine, depth, node)
         <= FreeNode(engine, true, including, node).all + DroppedNode(engine, including, node) + Above(engine, including, depth)
    decreases depth, 0, node
  {
    var named := LiteralName(node.template);
    if node.isolated || depth == 0 || named == None || named.value !in engine {
      return;
    }
    if named.value in including {
      assert Inside(engine, depth, node) <= ReachedBy(engine, depth - 1, named.value);
      return;
    }
    CoverTemplate(engine, depth - 1, including, named.value);
    DeeperAbove(engine, including, depth - 1);
    hide Above, FreeIn;
  }

  lemma {:induction false} CoverTemplate(engine: Engine, depth: nat, including: set<Name>, name: Name)
    requires name in engine && name !in including
    ensures Reached(engine, depth, engine[name])
         <= Covered(engine, including + {name}, engine[name]) + Above(engine, including, depth)
    decreases depth, 2
  {
    CoverNodes(engine, depth, including + {name}, engine[name]);
    if depth > 0 {
      CoverTemplate(engine, depth - 1, including, name);
      DeeperAbove(engine, including, depth - 1);
      assert Above(engine, including + {name}, depth) <= Above(engine, including, depth) + ReachedBy(engine, depth - 1, name);
    }
  }

  lemma {:induction false} CoverBranches(engine: Engine, depth: nat, including: set<Name>, branches: Branches)
    ensures ReachedBranches(engine, depth, branches)
         <= FreeBranches(engine, true, including, branches).all + DroppedBranches(engine, including, branches) + Above(engine, including, depth)
    decreases depth, 1, branches
  {
    match branches
    case NoBranch =>
    case Branch(_, body, rest) =>
      CoverNodes(engine, depth, including, body);
      CoverBranches(engine, depth, including, rest);
      hide Above;
  }

  lemma {:induction false} CoverChildren(engine: Engine, depth: nat, including: set<Name>, children: Children)
    ensures ReachedChildren(engine, depth, children)
         <= FreeChildren(engine, true, including, children).all + DroppedChildren(engine, including, children) + Above(engine, including, depth)
    decreases depth, 1, children
  {
    match children
    case NoChild =>
    case Child(body, rest) =>
      CoverNodes(engine, depth, including, body);
      CoverChildren(engine, depth, including, rest);
      hide Above;
  }

  // ------------------------------------------------------------- the theorems

  /** Non-interference. Two contexts that agree on what the record of a
      template holds, on what its includes leave out of it, on the ambient
      names and the literals, and on `forloop` where anything it reaches loops,
      draw the same text, or both fail, to every depth the interpreter may
      include. Nothing is asked of the templates it does not reach. */
  lemma NonInterference(host: Host, reach: Reach, engine: Engine, depth: nat, name: Name, found: map<Name, bool>,
                        first: Context, second: Context)
    requires PlainWithin(reach, engine) && name in reach.templates && name in engine
    requires found.Keys == FreeNodes(engine, true, {}, engine[name]).all
    requires AgreeOn(found.Keys + Dropped(engine, {}, engine[name]) + Around(reach), first, second)
    ensures Alike({}, Draw(host, engine, depth, engine[name], first), Draw(host, engine, depth, engine[name], second))
  {
    CoverNodes(engine, depth, {}, engine[name]);
    assert Above(engine, {}, depth) == {};
    var names := found.Keys + Dropped(engine, {}, engine[name]) + Around(reach);
    SameDrawing(host, reach, engine, depth, engine[name], names, first, second);
  }

  /** A template all of whose includes are isolated leaves nothing out. */
  predicate Isolated(nodes: NodeList)
  {
    match nodes
    case End => true
    case Then(node, rest) => IsolatedNode(node) && Isolated(rest)
  }

  predicate IsolatedNode(node: Node)
  {
    match node
    case Comment => true
    case For(_, _, _, loop, empty) => Isolated(loop) && Isolated(empty)
    case If(branches) => IsolatedBranches(branches)
    case With(_, body) => Isolated(body)
    case Include(_, _, isolated) => isolated
    case Block(_, body) => Isolated(body)
    case Extends(body) => Isolated(body)
    case Tag(_, _, children, _) => IsolatedChildren(children)
  }

  predicate IsolatedBranches(branches: Branches)
  {
    match branches
    case NoBranch => true
    case Branch(_, body, rest) => Isolated(body) && IsolatedBranches(rest)
  }

  predicate IsolatedChildren(children: Children)
  {
    match children
    case NoChild => true
    case Child(body, rest) => Isolated(body) && IsolatedChildren(rest)
  }

  lemma IsolatedDropsNothing(engine: Engine, including: set<Name>, nodes: NodeList)
    requires Isolated(nodes)
    ensures Dropped(engine, including, nodes) == {}
    decreases nodes
  {
    match nodes
    case End =>
    case Then(node, rest) => IsolatedNodeDropsNothing(engine, including, node); IsolatedDropsNothing(engine, including, rest);
  }

  lemma IsolatedNodeDropsNothing(engine: Engine, including: set<Name>, node: Node)
    requires IsolatedNode(node)
    ensures DroppedNode(engine, including, node) == {}
    decreases node
  {
    match node
    case Comment =>
    case For(_, _, _, loop, empty) =>
      IsolatedDropsNothing(engine, including, loop);
      IsolatedDropsNothing(engine, including, empty);
    case If(branches) => IsolatedBranchesDropNothing(engine, including, branches);
    case With(_, body) => IsolatedDropsNothing(engine, including, body);
    case Include(_, _, _) =>
    case Block(_, body) => IsolatedDropsNothing(engine, including, body);
    case Extends(body) => IsolatedDropsNothing(engine, including, body);
    case Tag(_, _, children, _) => IsolatedChildrenDropNothing(engine, including, children);
  }

  lemma IsolatedBranchesDropNothing(engine: Engine, including: set<Name>, branches: Branches)
    requires IsolatedBranches(branches)
    ensures DroppedBranches(engine, including, branches) == {}
    decreases branches
  {
    match branches
    case NoBranch =>
    case Branch(_, body, rest) =>
      IsolatedDropsNothing(engine, including, body);
      IsolatedBranchesDropNothing(engine, including, rest);
  }

  lemma IsolatedChildrenDropNothing(engine: Engine, including: set<Name>, children: Children)
    requires IsolatedChildren(children)
    ensures DroppedChildren(engine, including, children) == {}
    decreases children
  {
    match children
    case NoChild =>
    case Child(body, rest) =>
      IsolatedDropsNothing(engine, including, body);
      IsolatedChildrenDropNothing(engine, including, rest);
  }

  /** Where every include is isolated, the record alone settles the text. */
  lemma IsolatedNonInterference(host: Host, reach: Reach, engine: Engine, depth: nat, name: Name, found: map<Name, bool>,
                                first: Context, second: Context)
    requires PlainWithin(reach, engine) && name in reach.templates && name in engine && Isolated(engine[name])
    requires found.Keys == FreeNodes(engine, true, {}, engine[name]).all
    requires AgreeOn(found.Keys + Around(reach), first, second)
    ensures Alike({}, Draw(host, engine, depth, engine[name], first), Draw(host, engine, depth, engine[name], second))
  {
    IsolatedDropsNothing(engine, {}, engine[name]);
    NonInterference(host, reach, engine, depth, name, found, first, second);
  }

  // --------------------------------------------- where the record is not enough

  // {% for x in xs %}{{ forloop.parentloop }}{% endfor %}
  const PARENT := Then(For(Plain(Lookup("xs", [])), ["x"], false,
                           Then(Tag("variable", More(Plain(Lookup("forloop", ["parentloop"])), NoMore), NoChild, {}), End),
                           End), End)

  /** The `forloop` of a context, as a loop in it records it. */
  function ParentOf(context: Context): Value
  {
    if "forloop" in context then context["forloop"] else Record(map[])
  }

  /** A host whose every sequence has one element, and whose tags say whether
      they are given one value. */
  function Telling(value: Value): Host
  {
    Host((named, value, arguments) => value,
         (operator, value, one, other) => value,
         _ => true,
         _ => [Missing],
         (value, index) => value,
         (kind: string, values: seq<Value>, texts: seq<string>, ambient: Context) => if values == [value] then "told" else "",
         (kind, name, values, texts, ambient) => Missing)
  }

  /** `forloop` has to be agreed on too: a loop's record holds the `forloop`
      around it, so any two contexts whose loops differ in that, though they
      agree on all the analysis records and on all the ambient names, draw this
      template differently for some host. */
  lemma ParentLoopInterferes(first: Context, second: Context)
    requires ParentOf(first) != ParentOf(second)
    ensures FreeNodes(map[], true, {}, PARENT).all == {"xs"} && Dropped(map[], {}, PARENT) == {}
    ensures var host := Telling(ParentOf(first));
            !Alike({}, Draw(host, map[], 0, PARENT, first), Draw(host, map[], 0, PARENT, second))
  {
    var host := Telling(ParentOf(first));
    ParentLoopReads();
    ParentLoopDraws(host, first);
    ParentLoopDraws(host, second);
    Told(ParentOf(first), ParentOf(second), Ambient(first), Ambient(second));
    hide Draw, AgreeOn, Telling, ParentOf, Ambient;
  }

  lemma Told(value: Value, other: Value, ambient: Context, around: Context)
    requires other != value
    ensures var host := Telling(value);
            host.tag("variable", [value], [], ambient) != host.tag("variable", [other], [], around)
  {
    assert [other][0] != [value][0];
    assert |"told"| != |""|;
  }

  lemma ParentLoopReads()
    ensures FreeNodes(map[], true, {}, PARENT).all == {"xs"} && Dropped(map[], {}, PARENT) == {}
  {
    NotSkipped();
    OneRead("xs", []);
    ParentLoopBodyReads();
    assert "forloop" in LoopNames(["x"]);
    hide FreeIn, SKIPPED, AMBIENT, LITERALS, BUILTINS, DEFAULTING;
    assert FreeNode(map[], true, {}, PARENT.node).all == {"xs"};
  }

  lemma ParentLoopBodyReads()
    ensures FreeNodes(map[], true, {}, PARENT.node.loop).all == {"forloop"}
  {
    NotSkipped();
    OneRead("forloop", ["parentloop"]);
    FreeInGroup(Plain(Lookup("forloop", ["parentloop"])), NoMore);
    assert FreeIn(Group(NoMore)).all == {};
    hide FreeIn, SKIPPED, AMBIENT, LITERALS, BUILTINS, DEFAULTING;
  }

  lemma NotSkipped()
    ensures "forloop" !in SKIPPED && "xs" !in SKIPPED && "x" !in SKIPPED
  {
    assert |"forloop"| == 7 && |"xs"| == 2 && |"x"| == 1;
    assert forall name :: name in SKIPPED && |name| == 7 ==> name == "request";
    assert "forloop"[0] != "request"[0];
  }

  lemma OneRead(name: Name, path: seq<string>)
    requires name !in SKIPPED
    ensures FreeIn(Plain(Lookup(name, path))).all == {name}
  {
    assert ExpressionReads(Plain(Lookup(name, path))) == [Read(name, false)];
  }

  /** The context of the loop's one pass. */
  function InLoop(host: Host, context: Context): Context
  {
    Within(host, ["x"], context, Missing, 0, context)
  }

  lemma ParentLoopTold(host: Host, context: Context)
    ensures EvalAll(host, PARENT.node.loop.node.attributes, InLoop(host, context)) == [ParentOf(context)]
    ensures Ambient(InLoop(host, context)) == Ambient(context)
  {
    var within := InLoop(host, context);
    assert "forloop" != "x" by { assert |"forloop"| != |"x"|; }
    assert within["forloop"] == LoopRecord(0, context);
    assert LoopRecord(0, context).fields["parentloop"] == ParentOf(context);
    var path := ["parentloop"];
    assert Follow(ParentOf(context), path[1..]) == ParentOf(context);
    assert Follow(within["forloop"], path) == ParentOf(context);
    NotSkipped();
    assert Ambient(within) == Ambient(context);
    hide Within;
    var tag := PARENT.node.loop.node;
    assert Eval(host, tag.attributes.head, within) == ParentOf(context);
  }

  lemma ParentLoopPass(host: Host, context: Context)
    ensures var drawn := Draw(host, map[], 0, PARENT.node.loop, InLoop(host, context));
            drawn.Drawn? && drawn.text == host.tag("variable", [ParentOf(context)], [], Ambient(context))
  {
    ParentLoopTold(host, context);
    var within := InLoop(host, context);
    hide InLoop, Follow, EvalAll, Ambient, ParentOf;
    var tag := PARENT.node.loop.node;
    assert DrawChildren(host, map[], 0, NoChild, within) == DrawnEach([], within);
    DrawOne(host, tag, within);
    hide Draw;
  }

  lemma ParentLoopDraws(host: Host, context: Context)
    requires forall value :: host.elements(value) == [Missing]
    ensures var drawn := Draw(host, map[], 0, PARENT, context);
            drawn.Drawn? && drawn.text == host.tag("variable", [ParentOf(context)], [], Ambient(context))
  {
    var node := PARENT.node;
    ParentLoopPass(host, context);
    LoopStep(host, map[], 0, node.loopvars, context, node.loop, [Missing], 0, context);
    hide Within, InLoop, ParentOf, Ambient;
    var drawn := Draw(host, map[], 0, node.loop, InLoop(host, context));
    hide Draw;
    assert DrawLoop(host, map[], 0, node.loopvars, context, node.loop, [], 1, drawn.context) == Drawn("", drawn.context);
    assert DrawNode(host, map[], 0, node, context) == Drawn(drawn.text, context);
    DrawOne(host, node, context);
  }

  lemma DrawOne(host: Host, node: Node, context: Context)
    ensures Draw(host, map[], 0, Then(node, End), context) == DrawNode(host, map[], 0, node, context)
  {
    hide DrawNode;
    var drawing := DrawNode(host, map[], 0, node, context);
    if drawing.Drawn? {
      assert Draw(host, map[], 0, End, drawing.context) == Drawn("", drawing.context);
      assert drawing.text + "" == drawing.text;
    }
  }
}
