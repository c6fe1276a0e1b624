/** What a template reads, said by positions: a trail goes from a template's
    root to one read and says all that bears on it, what binds a name on the
    way, which conditions ask for it, and which includes are gone through. */
module TemplateTrails {
  import opened Basics
  import opened TemplateLanguage

  // ------------------------------------------------- a read in an expression

  predicate Names(variable: Variable, name: Name)
  {
    variable.Lookup? && variable.name == name
  }

  /** A name stands in an expression, with or without a default of its own. An
      argument of a filter has none, whatever its filter is. */
  ghost predicate Occurs(value: Expression, name: Name, defaulted: bool)
  {
    match value
    case Nothing => false
    case Plain(variable) => Names(variable, name) && !defaulted
    case Filtered(operand, filters) =>
      || (operand.Named? && Names(operand.variable, name)
          && (defaulted <==> exists filter :: filter in filters && filter.named in {"default", "default_if_none"}))
      || (!defaulted && exists filter, argument :: filter in filters && argument in filter.arguments
                                                  && argument.Argued? && Names(argument.variable, name))
    case Token(_, inner, first, second) =>
      Occurs(inner, name, defaulted) || Occurs(first, name, defaulted) || Occurs(second, name, defaulted)
    case Group(items) => OccursIn(items, name, defaulted)
  }

  ghost predicate OccursIn(items: Expressions, name: Name, defaulted: bool)
  {
    items.More? && (Occurs(items.head, name, defaulted) || OccursIn(items.tail, name, defaulted))
  }

  /** A name stands in a value that a `with` or an `include` gives. */
  ghost predicate Passed(extra: Bindings, name: Name, defaulted: bool)
  {
    extra.Bind? && (Occurs(extra.value, name, defaulted) || Passed(extra.rest, name, defaulted))
  }

  /** A `with` or an `include` gives a name. */
  predicate Gives(extra: Bindings, name: Name)
  {
    extra.Bind? && (extra.name == name || Gives(extra.rest, name))
  }

  // ---------------------------------------------------------------- positions

  /** What a trail crosses: a node it goes past, a body that binds names, a
      branch whose condition asks for names, or an included template. */
  datatype Crossing =
    | After(binds: iset<Name>)
    | Inside(binds: iset<Name>)
    | Under(asks: iset<Name>)
    | Through(given: iset<Name>, isolated: bool)

  /** Where it ends: at a name read, in a condition or not, or at an include of
      a template the engine cannot find. */
  datatype Ending = At(name: Name, defaulted: bool, condition: bool) | Unfound

  ghost predicate Here(crossed: seq<Crossing>, ending: Ending, value: Expression, condition: bool)
  {
    crossed == [] && ending.At? && ending.condition == condition && Occurs(value, ending.name, ending.defaulted)
  }

  ghost predicate HereIn(crossed: seq<Crossing>, ending: Ending, items: Expressions)
  {
    crossed == [] && ending.At? && !ending.condition && OccursIn(items, ending.name, ending.defaulted)
  }

  ghost predicate HerePassed(crossed: seq<Crossing>, ending: Ending, extra: Bindings)
  {
    crossed == [] && ending.At? && !ending.condition && Passed(extra, ending.name, ending.defaulted)
  }

  /** A trail into a list of nodes. */
  ghost predicate Trails(engine: Engine, descend: bool, including: set<Name>, nodes: NodeList, crossed: seq<Crossing>, ending: Ending)
    decreases |crossed|, nodes
  {
    nodes.Then?
    && (|| TrailsAt(engine, descend, including, nodes.node, crossed, ending)
        || (crossed != [] && crossed[0] == After(Leaves(nodes.node)) && Trails(engine, descend, including, nodes.rest, crossed[1..], ending)))
  }

  /** Only a tag binds names for the nodes after it. */
  ghost function Leaves(node: Node): iset<Name>
  {
    iset name | node.Tag? && name in node.binds && name != ""
  }

  ghost predicate TrailsAt(engine: Engine, descend: bool, including: set<Name>, node: Node, crossed: seq<Crossing>, ending: Ending)
    decreases |crossed|, node
  {
    match node
    case Comment => false
    case For(sequence, loopvars, _, loop, empty) =>
      || Here(crossed, ending, sequence, false)
      || (crossed != [] && crossed[0] == Inside(iset name | name in loopvars || name == "forloop")
          && Trails(engine, descend, including, loop, crossed[1..], ending))
      || Trails(engine, descend, including, empty, crossed, ending)
    case If(branches) => TrailsBranch(engine, descend, including, branches, crossed, ending)
    case With(extra, body) =>
      || HerePassed(crossed, ending, extra)
      || (crossed != [] && crossed[0] == Inside(iset name | Gives(extra, name))
          && Trails(engine, descend, including, body, crossed[1..], ending))
    case Include(template, extra, isolated) =>
      || Here(crossed, ending, template, false)
      || HerePassed(crossed, ending, extra)
      || (descend && TrailsThrough(engine, including, template, extra, isolated, crossed, ending))
    case Block(_, body) => Trails(engine, descend, including, body, crossed, ending)
    case Extends(body) => Trails(engine, descend, including, body, crossed, ending)
    case Tag(_, attributes, children, _) =>
      HereIn(crossed, ending, attributes) || TrailsChild(engine, descend, including, children, crossed, ending)
  }

  /** An include is followed where its template is named in the text and is not
      being included already. */
  ghost predicate TrailsThrough(engine: Engine, including: set<Name>, template: Expression, extra: Bindings, isolated: bool,
                                crossed: seq<Crossing>, ending: Ending)
    decreases |crossed|, template
  {
    if !template.Filtered? || !template.operand.Quoted? || template.operand.text in including then false
    else if template.operand.text !in engine then crossed == [] && ending == Unfound
    else
      crossed != [] && crossed[0] == Through((iset given | Gives(extra, given)), isolated)
      && Trails(engine, true, including + {template.operand.text}, engine[template.operand.text], crossed[1..], ending)
  }

  ghost predicate TrailsBranch(engine: Engine, descend: bool, including: set<Name>, branches: Branches,
                               crossed: seq<Crossing>, ending: Ending)
    decreases |crossed|, branches
  {
    branches.Branch?
    && (|| Here(crossed, ending, branches.condition, true)
        || (crossed != []
            && crossed[0] == Under(iset name | Occurs(branches.condition, name, true) || Occurs(branches.condition, name, false))
            && Trails(engine, descend, including, branches.body, crossed[1..], ending))
        || TrailsBranch(engine, descend, including, branches.rest, crossed, ending))
  }

  ghost predicate TrailsChild(engine: Engine, descend: bool, including: set<Name>, children: Children,
                              crossed: seq<Crossing>, ending: Ending)
    decreases |crossed|, children
  {
    children.Child?
    && (|| Trails(engine, descend, including, children.body, crossed, ending)
        || TrailsChild(engine, descend, including, children.rest, crossed, ending))
  }

  // ------------------------------------------------------- what a trail shows

  /** A crossing leaves a name to be found outside it. */
  ghost predicate Open(crossing: Crossing, name: Name)
  {
    match crossing
    case After(binds) => name !in binds
    case Inside(binds) => name !in binds
    case Under(_) => true
    case Through(given, isolated) => name !in given && !isolated
  }

  ghost predicate Unbound(crossed: seq<Crossing>, name: Name)
  {
    forall crossing :: crossing in crossed ==> Open(crossing, name)
  }

  /** A name is read there that nothing on the way stands in for: no default,
      and no condition that asks for it. */
  ghost predicate Bare(crossed: seq<Crossing>, ending: Ending, name: Name)
  {
    ending.At? && ending.name == name && !ending.defaulted && !ending.condition
    && forall crossing :: crossing in crossed && crossing.Under? ==> name !in crossing.asks
  }

  /** A trail shows that a template reads a name: nothing on the way binds it,
      and from any included template on it is bare, as what an included
      template reads only if it is there is its own affair. */
  ghost predicate Shows(crossed: seq<Crossing>, ending: Ending, name: Name)
  {
    && ending.At? && ending.name == name && name !in SKIPPED && Unbound(crossed, name)
    && forall i :: 0 <= i < |crossed| && crossed[i].Through? ==> Bare(crossed[i + 1..], ending, name)
  }

  /** A trail shows that a template needs a name. */
  ghost predicate Needs(crossed: seq<Crossing>, ending: Ending, name: Name)
  {
    name !in SKIPPED && Unbound(crossed, name) && Bare(crossed, ending, name)
  }

  /** What can be said of a template: that it reads a name, that it needs one,
      or that it includes a template that cannot be found. */
  datatype Claim = Reading(name: Name) | Needing(name: Name) | Lacking

  ghost predicate Supports(claim: Claim, crossed: seq<Crossing>, ending: Ending)
  {
    match claim
    case Reading(name) => Shows(crossed, ending, name)
    case Needing(name) => Needs(crossed, ending, name)
    case Lacking => ending == Unfound
  }

  /** Some trail into these nodes shows it. */
  ghost predicate Holds(engine: Engine, descend: bool, including: set<Name>, nodes: NodeList, claim: Claim)
  {
    exists crossed, ending :: Trails(engine, descend, including, nodes, crossed, ending) && Supports(claim, crossed, ending)
  }

  // ----------------------------------------------- what one crossing comes to

  lemma SupportsAcross(claim: Claim, crossing: Crossing, crossed: seq<Crossing>, ending: Ending)
    requires !crossing.Through?
    ensures Supports(claim, [crossing] + crossed, ending) <==>
              Supports(claim, crossed, ending)
              && (claim.Lacking? || Open(crossing, claim.name))
              && (claim.Needing? && crossing.Under? ==> claim.name !in crossing.asks)
  {
    var all := [crossing] + crossed;
    assert forall other :: other in all <==> other == crossing || other in crossed;
    if claim.Reading? && Supports(claim, all, ending) {
      forall i | 0 <= i < |crossed| && crossed[i].Through?
        ensures Bare(crossed[i + 1..], ending, claim.name)
      {
        assert all[i + 1] == crossed[i] && all[i + 2..] == crossed[i + 1..];
      }
    }
    if claim.Reading? && Supports(claim, crossed, ending) && Open(crossing, claim.name) {
      forall i | 0 <= i < |all| && all[i].Through?
        ensures Bare(all[i + 1..], ending, claim.name)
      {
        assert all[i] == crossed[i - 1] && all[i + 1..] == crossed[i..];
      }
    }
  }

  /** Through an include only what is needed is shown, and what it is not given. */
  lemma SupportsThrough(claim: Claim, given: iset<Name>, isolated: bool, crossed: seq<Crossing>, ending: Ending)
    ensures Supports(claim, [Through(given, isolated)] + crossed, ending) <==>
              if claim.Lacking? then ending == Unfound
              else Needs(crossed, ending, claim.name) && claim.name !in given && !isolated
  {
    var all := [Through(given, isolated)] + crossed;
    assert all[0] == Through(given, isolated) && all[0] in all && all[1..] == crossed;
    assert forall other :: other in all <==> other == all[0] || other in crossed;
    if !claim.Lacking? {
      assert Unbound(all, claim.name) <==> Unbound(crossed, claim.name) && claim.name !in given && !isolated;
      assert Bare(all, ending, claim.name) <==> Bare(crossed, ending, claim.name);
      if Bare(crossed, ending, claim.name) {
        forall i | 0 <= i < |all| && all[i].Through?
          ensures Bare(all[i + 1..], ending, claim.name)
        {
          assert forall other :: other in all[i + 1..] ==> other in crossed;
        }
      }
    }
  }
}
