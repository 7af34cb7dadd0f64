/** The fragment of the host linter's syntax tree that the rule reads.

    The tree is owned by the host and never changed by the rule. A node is
    known by its id, and a parent always has a smaller id than its child.
    That is what makes every parent chain finite. */
module Ast {

  datatype Option<+T> = None | Some(value: T)

  type NodeId = nat

  /** The operand in the `property` slot of a member expression or the
      `callee` slot of a call expression: only its node type and, for the
      name-carrying types, its name matter to the rule. */
  datatype Operand =
    | Identifier(name: string)
    | PrivateIdentifier(name: string)
    | Literal(raw: string)
    | OtherExpression

  /** The node type, as the host's `type` tag, with the fields the rule reads.
      Every type the walk does not single out (IfStatement, BinaryExpression,
      VariableDeclarator, AwaitExpression, ...) is `Other`. */
  datatype Kind =
    | CallExpression(callee: Operand)
    | ExpressionStatement
    | MemberExpression(property: Operand, computed: bool)
    | Other(typeName: string)

  datatype Node = Node(kind: Kind, parent: Option<NodeId>)

  type Tree = map<NodeId, Node>

  /** Node type names the walk handles, which therefore never label `Other`. */
  const HandledTypes: set<string> := {"CallExpression", "ExpressionStatement", "MemberExpression"}

  /** Every parent reference points at a node of the tree with a smaller id,
      and no `Other` node carries the name of a type the walk handles. */
  ghost predicate ValidTree(t: Tree)
  {
    forall id :: id in t ==>
      (t[id].parent.Some? ==> t[id].parent.value in t && t[id].parent.value < id) &&
      (t[id].kind.Other? ==> t[id].kind.typeName !in HandledTypes)
  }

  /** A possibly absent node reference (`Node | undefined`) that, when present,
      names a node of the tree. */
  predicate InTree(t: Tree, n: Option<NodeId>)
  {
    n.Some? ==> n.value in t
  }

  /** Termination measure for walks along parent references. */
  function Rank(n: Option<NodeId>): nat
  {
    if n.None? then 0 else n.value + 1
  }

  /** The parent chain from `start` up to the root, nearest first. */
  function Ancestors(t: Tree, start: Option<NodeId>): (r: seq<NodeId>)
    requires ValidTree(t) && InTree(t, start)
    ensures |r| > 0 <==> start.Some?
    ensures start.Some? ==> r[0] == start.value
    ensures forall i :: 0 <= i < |r| ==> r[i] in t
    decreases Rank(start)
  {
    match start
    case None => []
    case Some(id) => [id] + Ancestors(t, t[id].parent)
  }

  /** `a` goes from each node to its parent and ends at a node without one. */
  ghost predicate ParentChain(t: Tree, a: seq<NodeId>)
  {
    (forall i :: 0 <= i < |a| ==> a[i] in t) &&
    (forall i, j :: 0 <= i < |a| && j == i + 1 < |a| ==> t[a[i]].parent == Some(a[j])) &&
    (|a| > 0 ==> t[a[|a| - 1]].parent.None?)
  }

  /** `Ancestors` is that chain: every step moves from a node to its parent,
      ids strictly decrease along it (so no node repeats), and it stops only
      where the tree has no parent to follow. */
  lemma {:induction false} AncestorsIsParentChain(t: Tree, start: Option<NodeId>)
    requires ValidTree(t) && InTree(t, start)
    ensures ParentChain(t, Ancestors(t, start))
    ensures forall i, j :: 0 <= i < j < |Ancestors(t, start)| ==>
      Ancestors(t, start)[j] < Ancestors(t, start)[i]
    decreases Rank(start)
  {
    if start.Some? {
      var a := Ancestors(t, start);
      var up := t[start.value].parent;
      var b := Ancestors(t, up);
      assert a == [start.value] + b;
      AncestorsIsParentChain(t, up);
      forall i, j | 0 <= i < |a| && j == i + 1 < |a|
        ensures t[a[i]].parent == Some(a[j])
      {
        if i > 0 { assert a[i] == b[i - 1] && a[j] == b[j - 1]; }
      }
      forall i, j | 0 <= i < j < |a| ensures a[j] < a[i] {
        if i > 0 { assert a[i] == b[i - 1] && a[j] == b[j - 1]; }
        else { assert a[1] == b[0] && a[j] == b[j - 1]; }
      }
    }
  }
}
