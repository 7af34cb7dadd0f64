/** The rule on concrete statements. Each tree is a Program (node 0) holding
    one ExpressionStatement (node 1) whose expression is a single line of
    nested nodes: node 2 is the outermost, each later node the child of the
    one before it. */
module Scenarios {
  import opened Ast
  import opened ChainWalk
  import opened NoPropertyAssertions

  function StatementTree(nested: seq<Kind>): (t: Tree)
    requires forall i :: 0 <= i < |nested| && nested[i].Other? ==> nested[i].typeName !in HandledTypes
    ensures ValidTree(t)
    ensures forall i: NodeId :: i in t <==> i < |nested| + 2
    ensures forall i :: 2 <= i < |nested| + 2 ==> t[i] == Node(nested[i - 2], Some(i - 1))
    ensures 1 in t && t[1] == Node(ExpressionStatement, Some(0))
  {
    if nested == [] then
      map[0 := Node(Other("Program"), None), 1 := Node(ExpressionStatement, Some(0))]
    else
      var n := |nested|;
      StatementTree(nested[..n - 1])[n + 1 := Node(nested[n - 1], Some(n))]
  }

  function Prop(name: string): Kind
  {
    MemberExpression(Identifier(name), false)
  }

  /** `x.should.be.ok;` is a bare property assertion, reported on the
      statement. */
  lemma BarePropertyChainReports()
    ensures Visit(DefaultOptions, StatementTree([Prop("ok"), Prop("be"), Prop("should")]), 4)
         == Some(Reported(1))
  {
    var t := StatementTree([Prop("ok"), Prop("be"), Prop("should")]);
    assert t[2].kind == Prop("ok") && t[3].kind == Prop("be") && t[4].parent == Some(3);
    assert Classify(t, Some(3)) == Classify(t, Some(2)) == Classify(t, Some(1)) == Reported(1);
  }

  /** `x.should.equal(1);` ends in a call: silent. */
  lemma CalledChainIsSilent()
    ensures Visit(DefaultOptions, StatementTree([CallExpression(OtherExpression), Prop("equal"), Prop("should")]), 4)
         == Some(Silent)
  {
    var t := StatementTree([CallExpression(OtherExpression), Prop("equal"), Prop("should")]);
    assert t[2].kind.CallExpression? && t[3].kind == Prop("equal") && t[4].parent == Some(3);
    assert Classify(t, Some(3)) == Classify(t, Some(2)) == Silent;
  }

  /** `foo(x.should);`: the chain is an argument of a call, which counts as
      invoked; and `foo` itself triggers nothing. */
  lemma ArgumentPositionCountsAsInvoked()
    ensures Visit(DefaultOptions, StatementTree([CallExpression(Identifier("foo")), Prop("should")]), 3)
         == Some(Silent)
    ensures Visit(DefaultOptions, StatementTree([CallExpression(Identifier("foo")), Prop("should")]), 2)
         == None
  {
  }

  /** `x[should];` (an identifier in brackets) triggers and is reported;
      `x["should"];` (a string literal) does not trigger. */
  lemma ComputedIdentifierTriggers()
    ensures Visit(DefaultOptions, StatementTree([MemberExpression(Identifier("should"), true)]), 2)
         == Some(Reported(1))
    ensures Visit(DefaultOptions, StatementTree([MemberExpression(Literal("\"should\""), true)]), 2)
         == None
  {
  }

  /** `should(x);` is reported; `should(x).equal(1);` is not. */
  lemma CallTriggerChains()
    ensures Visit(DefaultOptions, StatementTree([CallExpression(Identifier("should"))]), 2)
         == Some(Reported(1))
    ensures Visit(DefaultOptions,
                  StatementTree([CallExpression(OtherExpression), Prop("equal"), CallExpression(Identifier("should"))]), 4)
         == Some(Silent)
  {
    var t := StatementTree([CallExpression(OtherExpression), Prop("equal"), CallExpression(Identifier("should"))]);
    assert t[2].kind.CallExpression? && t[3].kind == Prop("equal") && t[4].parent == Some(3);
    assert Classify(t, Some(3)) == Classify(t, Some(2)) == Silent;
  }

  /** `expect(x);` is reported once `name` is `["expect"]`, and not under the
      default options. */
  lemma ConfiguredCallName()
    ensures Visit(Options(Some(["expect"])), StatementTree([CallExpression(Identifier("expect"))]), 2)
         == Some(Reported(1))
    ensures Visit(DefaultOptions, StatementTree([CallExpression(Identifier("expect"))]), 2)
         == None
  {
  }
}
