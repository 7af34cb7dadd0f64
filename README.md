# no-property-assertions

A Dafny model of the ESLint rule `no-property-assertions` from the
should.js ESLint plugin. The rule flags a should.js assertion chain that is
read as a property and never called, such as `x.should.be.ok;`. Its
supported form is a method call, such as `x.should.be.ok();`.

The rule has two parts:

- **Two visitor guards** decide when to start a walk. The
  `MemberExpression` visitor fires when the property slot holds an
  `Identifier` named exactly `should`. The `CallExpression` visitor fires
  when the callee is an `Identifier` that `find` locates in the `name`
  option. The option defaults to `["should"]`.
- **`checkChain`** starts at the trigger's parent and climbs through member
  expressions. It stops silently at a call expression. At an expression
  statement it reports `propertyAssertionError` on that statement and
  stops. It also stops silently when it runs out of parents.

The host's syntax tree is given as a map from node id to node. Each node
holds its type, the fields the rule reads and an optional parent id. Ids
are chosen so that a parent's id is smaller than its child's id.
The host's `context.report` is a `Context` object that records
(node, messageId) pairs.

Modules:

- `Ast` (`ast.dfy`): the tree, its validity predicate and the parent chain.
- `Reporting` and `ChainWalk` (`check_chain.dfy`): the report sink. Also
  `checkChain` as a method with a loop, proved against the specification
  function `Classify`, with lemmas that state where the walk ends.
- `NoPropertyAssertions` (`rule.dfy`): the option, the two guards and the
  listener that `create` returns.
- `IntendedWalk` (`intended_walk.dfy`): the walk without the hang described
  under Findings.
- `Scenarios` (`scenarios.dfy`): the rule applied to concrete statements.

The source loop has no `else` branch. If it reaches a node of any other
type, such as an `IfStatement`, a `BinaryExpression` or a
`VariableDeclarator`, it never reassigns `node` and never exits. The
model's outcome therefore has three cases: `Silent`, `Reported(statement)`
and `Diverges(stuckAt)`. A visitor that never returns stalls the whole
lint run. A silent stop on any other node type is the smallest change
that makes the walk terminate. It matches the silent outcomes the loop
already has at a call expression and past the root. It gives the same
outcome as the loop as written wherever that loop halts, and is silent
where that loop hangs (`IntendedAgreesWhereWalkHalts`). The model follows
the code, and the difference is logged under Findings.

## Model

| member | source | states |
|---|---|---|
| `ChainWalk.CheckChain` | lib/rules/no-property-assertions/no-property-assertions.ts:82-96 | the loop's outcome is `Classify` of its start node; the sink gains exactly the one report for `Reported(n)` and nothing otherwise |
| `Reporting.Context.Report` | lib/rules/no-property-assertions/no-property-assertions.ts:90 | `context.report` appends one (node, messageId) record and changes nothing else |
| `Ast.AncestorsIsParentChain` | lib/rules/no-property-assertions/no-property-assertions.ts:92-93 | the chain the walk climbs goes from each node to its parent, has strictly decreasing ids (so no node repeats) and ends only at a node without a parent |
| `ChainWalk.ClassifySkipsMembers` | lib/rules/no-property-assertions/no-property-assertions.ts:92-93 | climbing past any number of member expressions does not change the outcome of the walk |
| `ChainWalk.ClassifyAtCall` | lib/rules/no-property-assertions/no-property-assertions.ts:85-87 | if the nearest ancestor that is not a member expression is a call expression, the outcome is silent, whether the chain is the callee or an argument |
| `ChainWalk.ClassifyAtStatement` | lib/rules/no-property-assertions/no-property-assertions.ts:88-91 | if the nearest ancestor that is not a member expression is an expression statement, exactly one report is emitted, on that statement, with messageId `propertyAssertionError` |
| `ChainWalk.ClassifyAtOther` | lib/rules/no-property-assertions/no-property-assertions.ts:84-95 | if the nearest ancestor that is not a member expression has any other type, the loop never advances past it (`Diverges` at that node) |
| `ChainWalk.ClassifyPastRoot` | lib/rules/no-property-assertions/no-property-assertions.ts:83-84 | a walk that reaches `undefined`, including one that starts there, ends with no report |
| `ChainWalk.ClassifyEndsAtFirstNonMember` | lib/rules/no-property-assertions/no-property-assertions.ts:84-95 | the converse of the lemmas above: the walk ends only at the first ancestor that is not a member expression, or past the root |
| `ChainWalk.ReportedOnlyAtStatement` | lib/rules/no-property-assertions/no-property-assertions.ts:88-91 | a report is attached only to an expression statement, and only to the first ancestor that is not a member expression |
| `NoPropertyAssertions.Find` | lib/rules/no-property-assertions/no-property-assertions.ts:73 | `find` with `varName === name` returns a value exactly when the name is in the list, and that value is the name itself |
| `NoPropertyAssertions.CallTriggers` | lib/rules/no-property-assertions/no-property-assertions.ts:69-73 | the call guard passes exactly when the callee is an Identifier, `name` is defined, the callee's name is in it, and the name is not the falsy empty string |
| `NoPropertyAssertions.MemberTriggers` | lib/rules/no-property-assertions/no-property-assertions.ts:54-56 | the member guard passes exactly when the property is the Identifier `should`; whether the access is computed is not consulted, and a Literal or PrivateIdentifier property never passes |
| `NoPropertyAssertions.Visit` | lib/rules/no-property-assertions/no-property-assertions.ts:53-77 | only the two visited node types can start a walk, and a walk that starts always begins at the visited node's parent |
| `NoPropertyAssertions.DefaultCallTriggers` | lib/rules/no-property-assertions/no-property-assertions.ts:42 | with the default options `["should"]`, the call guard passes exactly for the callee `should` |
| `NoPropertyAssertions.Listener.constructor` | lib/rules/no-property-assertions/no-property-assertions.ts:43-44 | `create` keeps the context and the `name` option for its visitors |
| `NoPropertyAssertions.Listener.OnMemberExpression` | lib/rules/no-property-assertions/no-property-assertions.ts:53-59 | the walk runs from the parent exactly when the property is the Identifier `should`, with computed access not consulted; otherwise nothing is reported |
| `NoPropertyAssertions.Listener.OnCallExpression` | lib/rules/no-property-assertions/no-property-assertions.ts:68-77 | the walk runs from the parent exactly when the callee is an Identifier whose name is a non-empty entry of `name`; otherwise nothing is reported |
| `NoPropertyAssertions.VisitReportsAtMostOne` | lib/rules/no-property-assertions/no-property-assertions.ts:88-91 | one visit emits at most one report, with messageId `propertyAssertionError`, anchored on an expression statement |
| `IntendedWalk.ClassifyIntended` | lib/rules/no-property-assertions/no-property-assertions.ts:84-95 | the corrected walk never diverges and reports only on an expression statement |
| `IntendedWalk.IntendedAgreesWhereWalkHalts` | lib/rules/no-property-assertions/no-property-assertions.ts:84-95 | the corrected walk agrees with the walk as written wherever that walk halts, and is silent where that walk hangs |
| `IntendedWalk.IfTestHangs` | lib/rules/no-property-assertions/no-property-assertions.ts:84-95 | on `if (x.should) {}` the member visitor fires and the loop stays on the IfStatement forever |
| `Scenarios.BarePropertyChainReports` | lib/rules/no-property-assertions/no-property-assertions.ts:88-93 | `x.should.be.ok;` is reported on its statement |
| `Scenarios.CalledChainIsSilent` | lib/rules/no-property-assertions/no-property-assertions.ts:85-87 | `x.should.equal(1);` is not reported |
| `Scenarios.ArgumentPositionCountsAsInvoked` | lib/rules/no-property-assertions/no-property-assertions.ts:85-87 | `foo(x.should);` triggers but is not reported, and `foo` triggers nothing |
| `Scenarios.ComputedIdentifierTriggers` | lib/rules/no-property-assertions/no-property-assertions.ts:54-56 | `x[should];` triggers and is reported; `x["should"];` does not trigger |
| `Scenarios.CallTriggerChains` | lib/rules/no-property-assertions/no-property-assertions.ts:68-77 | `should(x);` is reported and `should(x).equal(1);` is not |
| `Scenarios.ConfiguredCallName` | lib/rules/no-property-assertions/no-property-assertions.ts:42-44 | `expect(x);` is reported when `name` is `["expect"]` and not triggered under the default options |

## Left out

- Rule registration through `createRule` and the `meta` block (description, message text, JSON schema, `hasSuggestions`, `type`). They are static descriptor data. `lib/utils/create-rule` is not part of this model.
- The host linter. This covers parsing, the order in which it calls the visitors over a file, merging the user's options with the defaults, validating them against the schema, and source locations of reports. The tree and the options are inputs, and `context.report` only records.
- A hanging loop is not modelled as non-termination. `CheckChain` returns `Diverges(n)` at the point where the source loop would spin forever on node `n`.
- Node types the rule does not distinguish appear only as `Other(typeName)`. Their children and other fields are not modelled, because the rule never reads them.

## Findings

| source | as written | input that shows it | evidently intended | confidence | as-written member | corrected member |
|---|---|---|---|---|---|---|
| lib/rules/no-property-assertions/no-property-assertions.ts:84-95 | the `while` loop has no `else` branch. On a node that is not a call expression, expression statement or member expression, `node` is never reassigned, so the loop never ends and linting hangs | `if (x.should) {}`: the `.should` member expression's parent is the IfStatement. `const a = x.should;` and `return x.should;` behave the same way | stop the walk silently, with no report | high; not executed | `ChainWalk.ClassifyAtOther` (with `IntendedWalk.IfTestHangs`) | `IntendedWalk.ClassifyIntended` (with `IntendedWalk.IntendedAgreesWhereWalkHalts`) |
