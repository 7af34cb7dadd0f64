/** The walk with a silent stop on any node type other than the three the
    loop handles. The loop has no branch for such a node, so as written it
    spins there and stalls the whole lint run. A silent stop is the smallest
    change that makes the walk terminate, and it matches the silent outcomes
    the loop already has at a call expression and past the root. The
    corrected walk gives the same outcome as the loop as written wherever
    that loop halts, and is silent where it hangs
    (`IntendedAgreesWhereWalkHalts`). */
module IntendedWalk {
  import opened Ast
  import opened ChainWalk
  import opened NoPropertyAssertions

  /** `Classify` with the missing `else` branch taken to mean "stop, no
      report". It never diverges. */
  function ClassifyIntended(t: Tree, start: Option<NodeId>): (r: Outcome)
    requires ValidTree(t) && InTree(t, start)
    ensures !r.Diverges?
    ensures r.Reported? ==> r.statement in t && t[r.statement].kind.ExpressionStatement?
    decreases Rank(start)
  {
    match start
    case None => Silent
    case Some(id) =>
      if IsMember(t, id) then ClassifyIntended(t, t[id].parent)
      else if t[id].kind.ExpressionStatement? then Reported(id)
      else Silent
  }

  /** The intended walk differs from the one as written only where the
      latter hangs: there it is silent, everywhere else the two agree. */
  lemma {:induction false} IntendedAgreesWhereWalkHalts(t: Tree, start: Option<NodeId>)
    requires ValidTree(t) && InTree(t, start)
    ensures Classify(t, start).Diverges? ==> ClassifyIntended(t, start) == Silent
    ensures !Classify(t, start).Diverges? ==> ClassifyIntended(t, start) == Classify(t, start)
    decreases Rank(start)
  {
    if start.Some? && IsMember(t, start.value) {
      IntendedAgreesWhereWalkHalts(t, t[start.value].parent);
    }
  }

  /** `if (x.should) {}`: node 0 is the Program, 1 the IfStatement, 2 the
      member expression `x.should` that is its test. */
  function IfTestTree(): Tree
  {
    map[
      0 := Node(Other("Program"), None),
      1 := Node(Other("IfStatement"), Some(0)),
      2 := Node(MemberExpression(Identifier("should"), false), Some(1))
    ]
  }

  /** On `if (x.should) {}` the member visitor fires and the walk as written
      never leaves the IfStatement, while the intended walk stays silent. */
  lemma IfTestHangs()
    ensures ValidTree(IfTestTree()) && 2 in IfTestTree()
    ensures Visit(DefaultOptions, IfTestTree(), 2) == Some(Diverges(1))
    ensures ClassifyIntended(IfTestTree(), IfTestTree()[2].parent) == Silent
  {
  }
}
