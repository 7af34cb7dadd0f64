/** The report sink the host hands to the rule: `context.report` only records
    the anchor node and the message id. */
module Reporting {
  import opened Ast

  const PropertyAssertionError: string := "propertyAssertionError"

  datatype Problem = Problem(node: NodeId, messageId: string)

  class Context {
    var reports: seq<Problem>

    constructor ()
      ensures reports == []
    {
      reports := [];
    }

    method Report(node: NodeId, messageId: string)
      modifies this
      ensures reports == old(reports) + [Problem(node, messageId)]
    {
      reports := reports + [Problem(node, messageId)];
    }
  }
}

/** `checkChain`: from the node that follows a trigger, climb through member
    expressions until a call expression (the assertion is invoked: silent),
    an expression statement (a bare property assertion: one report on that
    statement) or the end of the parent chain (silent). The source loop has
    no branch for any other node type, so on one it never advances and never
    exits; the model records that as `Diverges` at that node. */
module ChainWalk {
  import opened Ast
  import opened Reporting

  datatype Outcome =
    | Silent
    | Reported(statement: NodeId)
    | Diverges(stuckAt: NodeId)

  predicate IsMember(t: Tree, id: NodeId)
  {
    id in t && t[id].kind.MemberExpression?
  }

  /** What the walk does on reaching a node it does not climb past. */
  function Stop(t: Tree, id: NodeId): Outcome
    requires id in t && !IsMember(t, id)
  {
    match t[id].kind
    case CallExpression(_) => Silent
    case ExpressionStatement => Reported(id)
    case Other(_) => Diverges(id)
  }

  /** The outcome of the walk started at `start` (the trigger's parent). */
  function Classify(t: Tree, start: Option<NodeId>): Outcome
    requires ValidTree(t) && InTree(t, start)
    decreases Rank(start)
  {
    match start
    case None => Silent
    case Some(id) =>
      if IsMember(t, id) then Classify(t, t[id].parent) else Stop(t, id)
  }

  /** The reports a walk with this outcome appends: one for a bare property
      assertion, none otherwise. */
  function ReportsFor(o: Outcome): seq<Problem>
  {
    if o.Reported? then [Problem(o.statement, PropertyAssertionError)] else []
  }

  /** The first `k` nodes of the chain are all member expressions. */
  ghost predicate MembersBefore(t: Tree, a: seq<NodeId>, k: nat)
    requires k <= |a|
  {
    forall j :: 0 <= j < k ==> IsMember(t, a[j])
  }

  method CheckChain(t: Tree, parent: Option<NodeId>, context: Context) returns (outcome: Outcome)
    requires ValidTree(t) && InTree(t, parent)
    modifies context
    ensures outcome == Classify(t, parent)
    ensures context.reports == old(context.reports) + ReportsFor(outcome)
  {
    var node := parent;
    while node.Some?
      invariant InTree(t, node)
      invariant Classify(t, node) == Classify(t, parent)
      invariant context.reports == old(context.reports)
      decreases Rank(node)
    {
      var n := t[node.value];
      if n.kind.CallExpression? {
        return Silent;
      } else if n.kind.ExpressionStatement? {
        context.Report(node.value, PropertyAssertionError);
        return Reported(node.value);
      } else if n.kind.MemberExpression? {
        node := n.parent;
      } else {
        // No branch of the source loop applies: `node` is never reassigned
        // and the loop repeats forever on this node.
        return Diverges(node.value);
      }
    }
    return Silent;
  }

  /** Climbing past member expressions does not change the outcome: the walk
      from `start` ends the way the walk from the k-th ancestor does. */
  lemma {:induction false} ClassifySkipsMembers(t: Tree, start: Option<NodeId>, k: nat)
    requires ValidTree(t) && InTree(t, start)
    requires k < |Ancestors(t, start)|
    requires MembersBefore(t, Ancestors(t, start), k)
    ensures Classify(t, start) == Classify(t, Some(Ancestors(t, start)[k]))
    decreases k
  {
    var a := Ancestors(t, start);
    if k > 0 {
      var id := start.value;
      assert IsMember(t, a[0]);
      var up := t[id].parent;
      assert Ancestors(t, up) == a[1..];
      assert MembersBefore(t, Ancestors(t, up), k - 1) by {
        forall j | 0 <= j < k - 1 ensures IsMember(t, Ancestors(t, up)[j]) {
          assert Ancestors(t, up)[j] == a[j + 1];
        }
      }
      ClassifySkipsMembers(t, up, k - 1);
    }
  }

  /** A chain of member expressions that reaches a call expression (as the
      callee's object or as an argument alike) is an invoked assertion:
      nothing is reported. */
  lemma ClassifyAtCall(t: Tree, start: Option<NodeId>, k: nat)
    requires ValidTree(t) && InTree(t, start)
    requires k < |Ancestors(t, start)|
    requires MembersBefore(t, Ancestors(t, start), k)
    requires t[Ancestors(t, start)[k]].kind.CallExpression?
    ensures Classify(t, start) == Silent
  {
    ClassifySkipsMembers(t, start, k);
  }

  /** A chain of member expressions that reaches an expression statement is
      a bare property assertion: it is reported on that statement. */
  lemma ClassifyAtStatement(t: Tree, start: Option<NodeId>, k: nat)
    requires ValidTree(t) && InTree(t, start)
    requires k < |Ancestors(t, start)|
    requires MembersBefore(t, Ancestors(t, start), k)
    requires t[Ancestors(t, start)[k]].kind.ExpressionStatement?
    ensures Classify(t, start) == Reported(Ancestors(t, start)[k])
    ensures ReportsFor(Classify(t, start)) == [Problem(Ancestors(t, start)[k], "propertyAssertionError")]
  {
    ClassifySkipsMembers(t, start, k);
  }

  /** A chain of member expressions that reaches a node of any other type
      (an `if` test, an operand, an initializer, ...) leaves the source loop
      spinning on that node. */
  lemma ClassifyAtOther(t: Tree, start: Option<NodeId>, k: nat)
    requires ValidTree(t) && InTree(t, start)
    requires k < |Ancestors(t, start)|
    requires MembersBefore(t, Ancestors(t, start), k)
    requires t[Ancestors(t, start)[k]].kind.Other?
    ensures Classify(t, start) == Diverges(Ancestors(t, start)[k])
  {
    ClassifySkipsMembers(t, start, k);
  }

  /** A walk that runs out of parents (including one started at
      `undefined`) ends silently. */
  lemma {:induction false} ClassifyPastRoot(t: Tree, start: Option<NodeId>)
    requires ValidTree(t) && InTree(t, start)
    requires MembersBefore(t, Ancestors(t, start), |Ancestors(t, start)|)
    ensures Classify(t, start) == Silent
    decreases Rank(start)
  {
    if start.Some? {
      var a := Ancestors(t, start);
      assert IsMember(t, a[0]);
      var up := t[start.value].parent;
      assert Ancestors(t, up) == a[1..];
      assert MembersBefore(t, Ancestors(t, up), |Ancestors(t, up)|) by {
        forall j | 0 <= j < |Ancestors(t, up)| ensures IsMember(t, Ancestors(t, up)[j]) {
          assert Ancestors(t, up)[j] == a[j + 1];
        }
      }
      ClassifyPastRoot(t, up);
    }
  }

  /** The position of the first node of the chain that is not a member
      expression, or `|a|` when there is none. */
  ghost function FirstNonMember(t: Tree, a: seq<NodeId>): (k: nat)
    ensures k <= |a| && MembersBefore(t, a, k)
    ensures k < |a| ==> !IsMember(t, a[k])
  {
    if a == [] || !IsMember(t, a[0]) then 0 else 1 + FirstNonMember(t, a[1..])
  }

  /** The converse of the lemmas above: the walk stops at the nearest
      ancestor that is not a member expression, or past the root when there
      is none. So a report is attached only to an expression statement
      reached through member expressions alone, and the walk hangs only on
      the first ancestor of another type. */
  lemma {:induction false} ClassifyEndsAtFirstNonMember(t: Tree, start: Option<NodeId>)
    requires ValidTree(t) && InTree(t, start)
    ensures
      var a := Ancestors(t, start);
      var k := FirstNonMember(t, a);
      Classify(t, start) == if k == |a| then Silent else Stop(t, a[k])
    decreases Rank(start)
  {
    var a := Ancestors(t, start);
    if start.Some? && IsMember(t, start.value) {
      var up := t[start.value].parent;
      assert Ancestors(t, up) == a[1..];
      ClassifyEndsAtFirstNonMember(t, up);
    }
  }

  /** Reported(n) only when n is the nearest ancestor that is not a member
      expression and it is an expression statement. */
  lemma ReportedOnlyAtStatement(t: Tree, start: Option<NodeId>, n: NodeId)
    requires ValidTree(t) && InTree(t, start)
    requires Classify(t, start) == Reported(n)
    ensures n in t && t[n].kind.ExpressionStatement?
    ensures
      var a := Ancestors(t, start);
      var k := FirstNonMember(t, a);
      k < |a| && a[k] == n
  {
    var a := Ancestors(t, start);
    var k := FirstNonMember(t, a);
    ClassifyEndsAtFirstNonMember(t, start);
    assert k < |a| && Classify(t, start) == Stop(t, a[k]);
  }
}
