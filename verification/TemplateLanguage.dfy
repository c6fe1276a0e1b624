/** The template language an extension's pages are written in: what an
    expression reads, what a node binds, and what a tree draws in a context. */
module TemplateLanguage {
  import opened Basics

  type Name = string

  /** What a name can hold. `Missing` is a name or a step of a path that is not there. */
  datatype Value =
    | Missing
    | Text(text: string)
    | Number(number: int)
    | Items(items: seq<Value>)
    | Record(fields: map<string, Value>)

  type Context = map<Name, Value>

  /** A variable is a literal, which has no lookups, or a name followed by a path. */
  datatype Variable = Literal(value: Value) | Lookup(name: Name, path: seq<string>)

  datatype Argument = Constant(value: Value) | Argued(variable: Variable)

  datatype Filter = Filter(named: string, arguments: seq<Argument>)

  datatype Operand = Quoted(text: string) | Named(variable: Variable)

  datatype Expression =
    | Nothing
    | Plain(variable: Variable)
    | Filtered(operand: Operand, filters: seq<Filter>)
    | Token(operator: string, value: Expression, first: Expression, second: Expression)
    | Group(items: Expressions)

  datatype Expressions = NoMore | More(head: Expression, tail: Expressions)

  datatype Bindings = NoBinding | Bind(name: Name, value: Expression, rest: Bindings)

  datatype Node =
    | Comment
    | For(sequence: Expression, loopvars: seq<Name>, reversed: bool, loop: NodeList, empty: NodeList)
    | If(branches: Branches)
    | With(extra: Bindings, body: NodeList)
    | Include(template: Expression, extra: Bindings, isolated: bool)
    | Block(name: Name, body: NodeList)
    | Extends(body: NodeList)
      // Any other tag: what it is given, what it encloses, and the names its
      // target_var, asvar and var_name attributes bind for the nodes after it.
    | Tag(kind: string, attributes: Expressions, children: Children, binds: set<Name>)

  datatype NodeList = End | Then(node: Node, rest: NodeList)

  datatype Branches = NoBranch | Branch(condition: Expression, body: NodeList, rest: Branches)

  datatype Children = NoChild | Child(body: NodeList, rest: Children)

  /** The templates the engine can find, by name. */
  type Engine = map<Name, NodeList>

  // Read by every template through context processors, never a parameter.
  const AMBIENT: set<Name> := {"block", "csrf_token", "perms", "request", "user"}
  // Words an `if` reads as values.
  const LITERALS: set<Name> := {"None", "True", "False"}
  const SKIPPED: set<Name> := AMBIENT + LITERALS
  const DEFAULTING: set<string> := {"default", "default_if_none"}
  // What every context holds under everything pushed on it.
  const BUILTINS: Context := map["None" := Record(map[]), "True" := Number(1), "False" := Number(0)]

  /** The names the bindings of a `with` or an `include` give. */
  function Given(extra: Bindings): set<Name>
  {
    match extra
    case NoBinding => {}
    case Bind(name, _, rest) => {name} + Given(rest)
  }

  /** The names a node leaves bound for the nodes after it. */
  function Binds(node: Node): set<Name>
  {
    if node.Tag? then node.binds - {""} else {}
  }

  function LoopNames(loopvars: seq<Name>): set<Name>
  {
    (set name | name in loopvars) + {"forloop"}
  }

  /** The template an include names in the template text itself. */
  function LiteralName(template: Expression): (name: Option<Name>)
    ensures name.Some? <==> template.Filtered? && template.operand.Quoted?
  {
    if template.Filtered? && template.operand.Quoted? then Some(template.operand.text) else None
  }

  // ------------------------------------------------------------- what is read

  /** A name read, and whether a default stands in where it is missing. */
  datatype Read = Read(name: Name, defaulted: bool)

  function VariableReads(variable: Variable, defaulted: bool): seq<Read>
  {
    match variable
    case Literal(_) => []
    case Lookup(name, _) => [Read(name, defaulted)]
  }

  function ArgumentReads(arguments: seq<Argument>): seq<Read>
  {
    if arguments == [] then []
    else (match arguments[0]
          case Constant(_) => []
          case Argued(variable) => VariableReads(variable, false)) + ArgumentReads(arguments[1..])
  }

  function FilterReads(filters: seq<Filter>): seq<Read>
  {
    if filters == [] then [] else ArgumentReads(filters[0].arguments) + FilterReads(filters[1..])
  }

  predicate Defaulted(filters: seq<Filter>)
  {
    exists i :: 0 <= i < |filters| && filters[i].named in DEFAULTING
  }

  /** Each variable an expression reads, in the order the generator yields them. */
  function ExpressionReads(value: Expression): seq<Read>
  {
    match value
    case Nothing => []
    case Plain(variable) => VariableReads(variable, false)
    case Filtered(Quoted(_), filters) => FilterReads(filters)
    case Filtered(Named(variable), filters) => VariableReads(variable, Defaulted(filters)) + FilterReads(filters)
    case Token(_, inner, first, second) =>
      ExpressionReads(inner) + ExpressionReads(first) + ExpressionReads(second)
    case Group(items) => GroupReads(items)
  }

  function GroupReads(items: Expressions): seq<Read>
  {
    match items
    case NoMore => []
    case More(head, tail) => ExpressionReads(head) + GroupReads(tail)
  }

  /** The values of a `with` or an `include`, as the one dictionary that is noted. */
  function Values(extra: Bindings): Expressions
  {
    match extra
    case NoBinding => NoMore
    case Bind(_, value, rest) => More(value, Values(rest))
  }

  function NamesRead(noted: seq<Read>): set<Name>
  {
    set read | read in noted :: read.name
  }

  // ------------------------------------------------------------ what is drawn

  /** Everything drawing depends on that the templates do not say: each is a
      function of values alone, so a tag reads no name of the context itself
      beyond the ambient ones it is handed. */
  datatype Host = Host(
    filter: (string, Value, seq<Value>) -> Value,
    operator: (string, Value, Value, Value) -> Value,
    truth: Value -> bool,
    elements: Value -> seq<Value>,
    part: (Value, nat) -> Value,
    tag: (string, seq<Value>, seq<string>, Context) -> string,
    bound: (string, Name, seq<Value>, seq<string>, Context) -> Value
  )

  function Follow(value: Value, path: seq<string>): Value
    decreases |path|
  {
    if path == [] then value
    else if value.Record? && path[0] in value.fields then Follow(value.fields[path[0]], path[1..])
    else Missing
  }

  function Resolve(variable: Variable, context: Context): Value
  {
    match variable
    case Literal(value) => value
    case Lookup(name, path) => Follow(if name in context then context[name] else Missing, path)
  }

  function ArgumentValues(arguments: seq<Argument>, context: Context): seq<Value>
  {
    if arguments == [] then []
    else [match arguments[0]
          case Constant(value) => value
          case Argued(variable) => Resolve(variable, context)] + ArgumentValues(arguments[1..], context)
  }

  function Piped(host: Host, value: Value, filters: seq<Filter>, context: Context): Value
    decreases |filters|
  {
    if filters == [] then value
    else
      var next := host.filter(filters[0].named, value, ArgumentValues(filters[0].arguments, context));
      Piped(host, next, filters[1..], context)
  }

  function Eval(host: Host, value: Expression, context: Context): Value
  {
    match value
    case Nothing => Missing
    case Plain(variable) => Resolve(variable, context)
    case Filtered(Quoted(text), filters) => Piped(host, Text(text), filters, context)
    case Filtered(Named(variable), filters) => Piped(host, Resolve(variable, context), filters, context)
    case Token(operator, inner, first, second) =>
      host.operator(operator, Eval(host, inner, context), Eval(host, first, context), Eval(host, second, context))
    case Group(items) => Items(EvalAll(host, items, context))
  }

  function EvalAll(host: Host, items: Expressions, context: Context): seq<Value>
  {
    match items
    case NoMore => []
    case More(head, tail) => [Eval(host, head, context)] + EvalAll(host, tail, context)
  }

  /** Every value is read in the context outside, then all are bound. */
  function EvalBindings(host: Host, extra: Bindings, context: Context): (bound: Context)
    ensures bound.Keys == Given(extra)
  {
    match extra
    case NoBinding => map[]
    case Bind(name, value, rest) =>
      map[name := Eval(host, value, context)] + EvalBindings(host, rest, context)
  }

  function Ambient(context: Context): Context
  {
    map name | name in AMBIENT && name in context :: context[name]
  }

  /** The loop's record: where it stands, and the `forloop` of the context outside it. */
  function LoopRecord(index: nat, context: Context): Value
  {
    Record(map["counter0" := Number(index),
               "parentloop" := if "forloop" in context then context["forloop"] else Record(map[])])
  }

  /** One name takes the element; several each take their part of it. */
  function LoopBinding(host: Host, loopvars: seq<Name>, element: Value): (bound: Context)
    ensures bound.Keys == set name | name in loopvars
  {
    if |loopvars| == 1 then map[loopvars[0] := element]
    else Parts(host, loopvars, element, |loopvars|)
  }

  function Parts(host: Host, loopvars: seq<Name>, element: Value, count: nat): (bound: Context)
    requires count <= |loopvars|
    ensures bound.Keys == set name | name in loopvars[..count]
  {
    if count == 0 then map[]
    else
      assert loopvars[..count] == loopvars[..count - 1] + [loopvars[count - 1]];
      Parts(host, loopvars, element, count - 1)[loopvars[count - 1] := host.part(element, count - 1)]
  }

  /** The context one pass of a loop is drawn in. */
  function Within(host: Host, loopvars: seq<Name>, outside: Context, element: Value, index: nat, context: Context): Context
  {
    context + map["forloop" := LoopRecord(index, outside)] + LoopBinding(host, loopvars, element)
  }

  function Reversed(values: seq<Value>): seq<Value>
  {
    if values == [] then [] else Reversed(values[1..]) + [values[0]]
  }

  /** A drawing that failed, because a template was not there or includes went
      deeper than the interpreter allows, or its text and the context the
      nodes after it are drawn in. */
  datatype Drawing = Failed | Drawn(text: string, context: Context)

  /** What was bound inside a pushed scope is popped with it. */
  function Popped(drawing: Drawing, context: Context): Drawing
  {
    if drawing.Failed? then Failed else Drawn(drawing.text, context)
  }

  /** `depth` is how many includes deep the interpreter may still go. */
  function Draw(host: Host, engine: Engine, depth: nat, nodes: NodeList, context: Context): Drawing
    decreases depth, nodes, 0
  {
    match nodes
    case End => Drawn("", context)
    case Then(node, rest) =>
      match DrawNode(host, engine, depth, node, context)
      case Failed => Failed
      case Drawn(text, after) =>
        match Draw(host, engine, depth, rest, after)
        case Failed => Failed
        case Drawn(more, last) => Drawn(text + more, last)
  }

  function DrawNode(host: Host, engine: Engine, depth: nat, node: Node, context: Context): Drawing
    decreases depth, node, 0
  {
    match node
    case Comment => Drawn("", context)
    case For(sequence, loopvars, reversed, loop, empty) =>
      var elements := host.elements(Eval(host, sequence, context));
      var ordered := if reversed then Reversed(elements) else elements;
      Popped(if elements == [] then Draw(host, engine, depth, empty, context)
             else DrawLoop(host, engine, depth, loopvars, context, loop, ordered, 0, context), context)
    case If(branches) => DrawBranches(host, engine, depth, branches, context)
    case With(extra, body) =>
      Popped(Draw(host, engine, depth, body, context + EvalBindings(host, extra, context)), context)
    case Include(template, extra, isolated) =>
      var named := Eval(host, template, context);
      if !named.Text? || named.text !in engine || depth == 0 then Failed
      else
        var given := EvalBindings(host, extra, context);
        var within := (if isolated then BUILTINS else context) + given;
        Popped(Draw(host, engine, depth - 1, engine[named.text], within), context)
    case Block(name, body) =>
      Popped(Draw(host, engine, depth, body, context["block" := Text(name)]), context)
    case Extends(_) => Failed
    case Tag(kind, attributes, children, _) =>
      var values := EvalAll(host, attributes, context);
      match DrawChildren(host, engine, depth, children, context)
      case NotDrawn => Failed
      case DrawnEach(texts, after) =>
        var ambient := Ambient(context);
        Drawn(host.tag(kind, values, texts, ambient),
              after + map name | name in Binds(node) :: host.bound(kind, name, values, texts, ambient))
  }

  /** One pass of the loop per element. The loop's scope is pushed once, so a
      tag's binding lasts from one pass to the next, but with several loop
      variables each pass has a scope of its own. */
  function DrawLoop(host: Host, engine: Engine, depth: nat, loopvars: seq<Name>, outside: Context,
                    loop: NodeList, elements: seq<Value>, index: nat, context: Context): Drawing
    decreases depth, loop, 1 + |elements|
  {
    if elements == [] then Drawn("", context)
    else
      match Draw(host, engine, depth, loop, Within(host, loopvars, outside, elements[0], index, context))
      case Failed => Failed
      case Drawn(text, after) =>
        var next := if |loopvars| == 1 then after else context;
        match DrawLoop(host, engine, depth, loopvars, outside, loop, elements[1..], index + 1, next)
        case Failed => Failed
        case Drawn(more, last) => Drawn(text + more, last)
  }

  /** No scope is pushed for a branch, so what it binds stays bound. */
  function DrawBranches(host: Host, engine: Engine, depth: nat, branches: Branches, context: Context): Drawing
    decreases depth, branches, 0
  {
    match branches
    case NoBranch => Drawn("", context)
    case Branch(condition, body, rest) =>
      if condition.Nothing? || host.truth(Eval(host, condition, context))
      then Draw(host, engine, depth, body, context)
      else DrawBranches(host, engine, depth, rest, context)
  }

  datatype DrawingEach = NotDrawn | DrawnEach(texts: seq<string>, context: Context)

  function DrawChildren(host: Host, engine: Engine, depth: nat, children: Children, context: Context): DrawingEach
    decreases depth, children, 0
  {
    match children
    case NoChild => DrawnEach([], context)
    case Child(body, rest) =>
      match Draw(host, engine, depth, body, context)
      case Failed => NotDrawn
      case Drawn(text, after) =>
        match DrawChildren(host, engine, depth, rest, after)
        case NotDrawn => NotDrawn
        case DrawnEach(texts, last) => DrawnEach([text] + texts, last)
  }

  // ------------------------------------------------------ laws of the drawing

  /** The last filter is given what those before it make, and its own arguments. */
  lemma {:induction false} PipedLast(host: Host, value: Value, filters: seq<Filter>, last: Filter, context: Context)
    ensures Piped(host, value, filters + [last], context)
         == host.filter(last.named, Piped(host, value, filters, context), ArgumentValues(last.arguments, context))
    decreases |filters|
  {
    var all := filters + [last];
    if filters == [] {
      assert all[1..] == [];
    } else {
      assert all[0] == filters[0] && all[1..] == filters[1..] + [last];
      PipedLast(host, host.filter(filters[0].named, value, ArgumentValues(filters[0].arguments, context)), filters[1..], last, context);
    }
  }

  /** Each argument is its constant, or what its variable holds. */
  lemma {:induction false} ArgumentAt(arguments: seq<Argument>, context: Context, i: nat)
    requires i < |arguments|
    ensures |ArgumentValues(arguments, context)| == |arguments|
    ensures ArgumentValues(arguments, context)[i]
         == if arguments[i].Constant? then arguments[i].value else Resolve(arguments[i].variable, context)
  {
    if i > 0 {
      ArgumentAt(arguments[1..], context, i - 1);
    } else if |arguments| > 1 {
      ArgumentAt(arguments[1..], context, 0);
    }
  }

  lemma {:induction false} ReversedAt(values: seq<Value>, i: nat)
    requires i < |values|
    ensures |Reversed(values)| == |values| && Reversed(values)[i] == values[|values| - 1 - i]
  {
    if |values| > 1 {
      ReversedAt(values[1..], if i < |values| - 1 then i else 0);
    }
  }

  function BranchAt(branches: Branches, i: nat): Option<(Expression, NodeList)>
  {
    match branches
    case NoBranch => None
    case Branch(condition, body, rest) => if i == 0 then Some((condition, body)) else BranchAt(rest, i - 1)
  }

  /** A branch is taken: its condition holds, or it is an `else`. */
  predicate Taken(host: Host, branches: Branches, i: nat, context: Context)
  {
    var branch := BranchAt(branches, i);
    branch.Some? && (branch.value.0 == Nothing || host.truth(Eval(host, branch.value.0, context)))
  }

  /** An `if` draws its first branch that is taken, and nothing where none is. */
  lemma {:induction false} FirstTakenIsDrawn(host: Host, engine: Engine, depth: nat, branches: Branches, context: Context, i: nat)
    requires forall j: nat :: j < i ==> !Taken(host, branches, j, context)
    ensures Taken(host, branches, i, context) ==>
              DrawBranches(host, engine, depth, branches, context)
              == Draw(host, engine, depth, BranchAt(branches, i).value.1, context)
    ensures BranchAt(branches, i) == None ==> DrawBranches(host, engine, depth, branches, context) == Drawn("", context)
    decreases branches
  {
    if branches.Branch? && i > 0 {
      assert !Taken(host, branches, 0, context);
      forall j: nat | j < i - 1
        ensures !Taken(host, branches.rest, j, context)
      {
        assert BranchAt(branches, j + 1) == BranchAt(branches.rest, j);
        assert !Taken(host, branches, j + 1, context);
      }
      FirstTakenIsDrawn(host, engine, depth, branches.rest, context, i - 1);
    }
  }

  /** Several loop variables take the parts of the element, each its own. */
  lemma {:induction false} PartsAre(host: Host, loopvars: seq<Name>, element: Value, count: nat, i: nat)
    requires i < count <= |loopvars| && forall j :: i < j < count ==> loopvars[j] != loopvars[i]
    ensures loopvars[i] in Parts(host, loopvars, element, count)
    ensures Parts(host, loopvars, element, count)[loopvars[i]] == host.part(element, i)
    decreases count
  {
    if i < count - 1 {
      PartsAre(host, loopvars, element, count - 1, i);
    }
  }

  lemma LoopBindingIs(host: Host, loopvars: seq<Name>, element: Value, i: nat)
    requires i < |loopvars| && forall j :: i < j < |loopvars| ==> loopvars[j] != loopvars[i]
    ensures loopvars[i] in LoopBinding(host, loopvars, element)
    ensures LoopBinding(host, loopvars, element)[loopvars[i]] == if |loopvars| == 1 then element else host.part(element, i)
  {
    if |loopvars| > 1 {
      PartsAre(host, loopvars, element, |loopvars|, i);
    }
  }

  function Joined(texts: seq<string>): string
  {
    if texts == [] then "" else texts[0] + Joined(texts[1..])
  }

  /** The scope a pass of a loop over one name is drawn in. */
  function Pass(host: Host, name: Name, outside: Context, elements: seq<Value>, reversed: bool, i: nat): Context
    requires i < |elements|
  {
    outside + map["forloop" := LoopRecord(i, outside)]
    + map[name := elements[if reversed then |elements| - 1 - i else i]]
  }

  /** A loop draws its body once for each element, in order or from the last,
      and where it binds nothing that is all it draws. */
  lemma ForDraws(host: Host, engine: Engine, depth: nat, sequence: Expression, name: Name, reversed: bool, loop: NodeList, empty: NodeList,
                 context: Context, texts: seq<string>)
    requires var elements := host.elements(Eval(host, sequence, context));
             && elements != [] && |texts| == |elements|
             && forall i :: 0 <= i < |texts| ==>
                  Draw(host, engine, depth, loop, Pass(host, name, context, elements, reversed, i))
                  == Drawn(texts[i], Pass(host, name, context, elements, reversed, i))
    ensures DrawNode(host, engine, depth, For(sequence, [name], reversed, loop, empty), context) == Drawn(Joined(texts), context)
  {
    var elements := host.elements(Eval(host, sequence, context));
    var ordered := if reversed then Reversed(elements) else elements;
    forall i | 0 <= i < |elements|
      ensures |ordered| == |elements| && ordered[i] == elements[if reversed then |elements| - 1 - i else i]
    {
      ReversedAt(elements, i);
    }
    assert |elements| > 0 && |ordered| == |elements|;
    assert Within(host, [name], context, ordered[0], 0, context) == Pass(host, name, context, elements, reversed, 0);
    assert ordered[0..] == ordered && texts[0..] == texts;
    PassesDraw(host, engine, depth, name, elements, reversed, ordered, loop, context, texts, 0, context);
  }

  lemma {:induction false} PassesDraw(host: Host, engine: Engine, depth: nat, name: Name, elements: seq<Value>, reversed: bool,
                                      ordered: seq<Value>, loop: NodeList, outside: Context, texts: seq<string>, i: nat, context: Context)
    requires |texts| == |elements| == |ordered| && i <= |texts|
    requires forall j :: 0 <= j < |ordered| ==> ordered[j] == elements[if reversed then |elements| - 1 - j else j]
    requires forall j :: 0 <= j < |texts| ==>
               Draw(host, engine, depth, loop, Pass(host, name, outside, elements, reversed, j))
               == Drawn(texts[j], Pass(host, name, outside, elements, reversed, j))
    requires context == outside || (exists j :: 0 <= j < |elements| && context == Pass(host, name, outside, elements, reversed, j))
    ensures var drawing := DrawLoop(host, engine, depth, [name], outside, loop, ordered[i..], i, context);
            drawing.Drawn? && drawing.text == Joined(texts[i..])
    decreases |texts| - i
  {
    hide Draw, LoopRecord;
    if i < |texts| {
      var pass := Pass(host, name, outside, elements, reversed, i);
      assert ordered[i..][0] == ordered[i] && ordered[i..][1..] == ordered[i + 1..];
      assert texts[i..][0] == texts[i] && texts[i..][1..] == texts[i + 1..];
      PassIs(host, name, outside, elements, reversed, ordered[i], i, context);
      PassesDraw(host, engine, depth, name, elements, reversed, ordered, loop, outside, texts, i + 1, pass);
    }
  }

  lemma PassIs(host: Host, name: Name, outside: Context, elements: seq<Value>, reversed: bool, element: Value, i: nat, context: Context)
    requires i < |elements| && element == elements[if reversed then |elements| - 1 - i else i]
    requires context == outside || (exists j :: 0 <= j < |elements| && context == Pass(host, name, outside, elements, reversed, j))
    ensures Within(host, [name], outside, element, i, context) == Pass(host, name, outside, elements, reversed, i)
  {
    hide LoopRecord;
  }
}
