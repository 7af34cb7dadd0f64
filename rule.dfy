/** The rule `no-property-assertions`: its option, the two visitor guards
    that decide when `checkChain` runs, and the listener the rule's `create`
    returns to the host. */
module NoPropertyAssertions {
  import opened Ast
  import opened Reporting
  import opened ChainWalk

  /** The property name the member-expression visitor looks for; fixed, not
      configurable. */
  const TriggerProperty: string := "should"

  /** The rule's one option. `name` may be absent (`undefined`). */
  datatype Options = Options(name: Option<seq<string>>)

  const DefaultOptions: Options := Options(Some(["should"]))

  /** `Array.prototype.find` with the test `varName === name`: the first
      element equal to `name`, or `undefined`. */
  function Find(names: seq<string>, name: string): (r: Option<string>)
    ensures r.Some? <==> name in names
    ensures r.Some? ==> r.value == name
  {
    if names == [] then None
    else if names[0] == name then Some(names[0])
    else Find(names[1..], name)
  }

  /** JavaScript truthiness of a value `find` returns: `undefined` and the
      empty string are falsy. */
  predicate Truthy(v: Option<string>)
  {
    v.Some? && v.value != ""
  }

  /** The member-expression visitor's guard: the property slot holds an
      Identifier node named exactly "should". Whether the access is computed
      is not consulted, so `x[should]` passes and `x["should"]` (a Literal)
      and `x.#should` (a PrivateIdentifier) do not. */
  predicate MemberTriggers(node: Kind)
    requires node.MemberExpression?
    ensures MemberTriggers(node) <==> node.property == Identifier(TriggerProperty)
  {
    node.property.Identifier? && node.property.name == TriggerProperty
  }

  /** The call-expression visitor's guard: the callee is an Identifier node
      whose name `find` locates in the configured `name` list, and the value
      found is truthy. */
  predicate CallTriggers(options: Options, node: Kind)
    requires node.CallExpression?
    ensures CallTriggers(options, node) <==>
      node.callee.Identifier? && options.name.Some? &&
      node.callee.name in options.name.value && node.callee.name != ""
  {
    node.callee.Identifier? && options.name.Some? &&
    Truthy(Find(options.name.value, node.callee.name))
  }

  /** With the default options the call visitor fires on `should(...)` and on
      no other callee. */
  lemma DefaultCallTriggers(node: Kind)
    requires node.CallExpression?
    ensures CallTriggers(DefaultOptions, node) <==> node.callee == Identifier("should")
  {
  }

  /** Whether `checkChain` runs for the visited node `id`, and if so the
      outcome of the walk from its parent; `None` when no visitor fires. */
  function Visit(options: Options, t: Tree, id: NodeId): (r: Option<Outcome>)
    requires ValidTree(t) && id in t
    ensures !t[id].kind.MemberExpression? && !t[id].kind.CallExpression? ==> r == None
    ensures r.Some? ==> r.value == Classify(t, t[id].parent)
  {
    var node := t[id];
    if node.kind.MemberExpression? && MemberTriggers(node.kind) then
      Some(Classify(t, node.parent))
    else if node.kind.CallExpression? && CallTriggers(options, node.kind) then
      Some(Classify(t, node.parent))
    else
      None
  }

  /** The reports the visit of one node appends. */
  function VisitReports(v: Option<Outcome>): seq<Problem>
  {
    if v.Some? then ReportsFor(v.value) else []
  }

  /** The visitor object returned by `create(context, [options])`. */
  class Listener {
    const context: Context
    const functionVarName: Option<seq<string>>

    constructor (context: Context, options: Options)
      ensures this.context == context && functionVarName == options.name
    {
      this.context := context;
      functionVarName := options.name;
    }

    /** The `MemberExpression` visitor: walk from the parent when the
        property is the identifier `should`, otherwise do nothing. */
    method OnMemberExpression(t: Tree, id: NodeId) returns (walked: Option<Outcome>)
      requires ValidTree(t) && id in t && t[id].kind.MemberExpression?
      modifies context
      ensures walked == Visit(Options(functionVarName), t, id)
      ensures walked.Some? <==> t[id].kind.property == Identifier(TriggerProperty)
      ensures context.reports == old(context.reports) + VisitReports(walked)
    {
      var node := t[id];
      if !node.kind.property.Identifier? {
        return None;
      }
      if node.kind.property.name != TriggerProperty {
        return None;
      }
      var outcome := CheckChain(t, node.parent, context);
      walked := Some(outcome);
    }

    /** The `CallExpression` visitor: walk from the parent when the callee is
        an identifier listed in the `name` option, otherwise do nothing. */
    method OnCallExpression(t: Tree, id: NodeId) returns (walked: Option<Outcome>)
      requires ValidTree(t) && id in t && t[id].kind.CallExpression?
      modifies context
      ensures walked == Visit(Options(functionVarName), t, id)
      ensures walked.Some? <==>
        t[id].kind.callee.Identifier? && functionVarName.Some? &&
        t[id].kind.callee.name in functionVarName.value && t[id].kind.callee.name != ""
      ensures context.reports == old(context.reports) + VisitReports(walked)
    {
      var node := t[id];
      if !node.kind.callee.Identifier? {
        return None;
      }
      var name := node.kind.callee.name;
      if functionVarName.None? || !Truthy(Find(functionVarName.value, name)) {
        return None;
      }
      var outcome := CheckChain(t, node.parent, context);
      walked := Some(outcome);
    }
  }

  /** A visit emits at most one report, always the rule's one message,
      anchored on an expression statement of the tree. */
  lemma {:induction false} VisitReportsAtMostOne(options: Options, t: Tree, id: NodeId)
    requires ValidTree(t) && id in t
    ensures |VisitReports(Visit(options, t, id))| <= 1
    ensures forall p :: p in VisitReports(Visit(options, t, id)) ==>
      p.messageId == PropertyAssertionError && p.node in t && t[p.node].kind.ExpressionStatement?
  {
    var v := Visit(options, t, id);
    if v.Some? && v.value.Reported? {
      ReportedOnlyAtStatement(t, t[id].parent, v.value.statement);
    }
  }
}
