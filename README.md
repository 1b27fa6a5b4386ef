# Command-tree compiler: a verified model

The repository is a Gradle plugin for Minecraft Fabric mods. It reads a small command language
and generates Java code that registers those commands with Brigadier, Minecraft's command
dispatcher. The language has a root literal, literal words, typed arguments (`Word`,
`String`, `GreedyString`, `BlockPos`, `Bool`, `Double`, `Float`, `Integer`, `Long`,
`Entity`), optional arguments with defaults, enum arguments, a permission level and an
action. The action is either an explicit call `-> f(a, b)` or an automatic call `|> f` that
passes every visible argument. The plugin ships in two variants, Commander
(`CommanderParser.kt`) and Colonel (`ColonelParser.kt`). They share the pipeline below and
differ in details. This project models that pipeline, from the parsed definitions to the
Java text of the `register()` body:

- **Grouping.** The definitions are grouped by their root literal. A definition that does
  not start with a literal stops generation with an error.
- **Building the tree.** Each group's definitions, minus the root word, are merged into a
  mutable command tree. Each node has a token, an action, a permission level, the arguments
  visible at that node, and its children. A new path is merged into the first child whose
  token matches. A definition that ends at an existing node overwrites that node's action.
- **Rendering.** The tree is rendered as a chain of `.then(...)`, `.requires(...)` and
  `.executes(...)` calls. An optional argument renders twice: once omitted (its default is
  passed), then given. Each enum value renders its own literal branch.
- **Building the call.** Each Java call is built from the node's visible arguments. A
  substituted enum value, an omitted optional default or an omitted optional-enum default
  takes precedence over the visible arguments.
- **Imports.** The framework imports the generated code needs are collected (Commander
  only).

Each core file is modelled in its own form:

- **Pure logic as functions.** Token matching, call building, the argument-type tables and
  grouping are functions over datatypes.
- **The tree as a class.** The mutable tree is a class `CommanderBuilder.Node` with the
  Kotlin fields. Its methods `Insert` and `Build` are proved to refine the pure functions
  `CommanderTrie.Inserted` and `CommanderTrie.Built`.
- **Rendering as methods.** Each renderer appends to a `Text.StringBuilder`. Each is proved
  to append exactly the text of a specification function, a list of `Emission.Piece`s with
  one piece per `append`. Bracket balance, indentation and the order of branches are then
  proved about those pieces.

Colonel reuses the Commander modules where the two files are the same code: tokens, the
trie and its builder, argument resolution and grouping. Its own modules capture the
differences:

- its `matchToken` has no required-enum case;
- its call does not pass `context`;
- its feedback line is a plain `sendFeedback(Text.literal(...))`;
- a definition consisting only of the root word leaves no trace;
- enum value branches do not pass the value on to their children.

The rows of the table below that cite only CommanderParser.kt also hold for the same code in
ColonelParser.kt:

- the argument-type table (lines 88-102);
- `defaultValueLiteral`, `extractArg` and `argFactory` (lines 478-519);
- `build` and `insert` (lines 253-304);
- grouping by the root literal (lines 206-210).

## Model

| member | source | states |
|---|---|---|
| ArgTypes.ParseArgType | src/main/kotlin/CommanderParser.kt:73-87 | a type's exact name parses to that type; every success carries a type of that name; anything else fails with "Unknown argument type: " and the text |
| ArgTypes.ParseTypeName | src/main/kotlin/CommanderParser.kt:73-87 | every type's own name parses back to that type (round trip) |
| ArgTypes.DefaultValueLiteral | src/main/kotlin/CommanderParser.kt:515-525 | an omitted optional's default is quoted iff the type is textual; Float gets an `f` suffix; Bool, Double, Integer and Long pass it raw; BlockPos and Entity pass `null` |
| ArgTypes.Getter | src/main/kotlin/CommanderParser.kt:536-539 | a client-side BlockPos is read through the generated helper `getClientBlockPos`; every other type through its argument class's own `get...` accessor |
| ArgTypes.ExtractArg | src/main/kotlin/CommanderParser.kt:526-542 | reading argument `name` is a call of the type's getter ending in `(context, "name")` |
| ArgTypes.ArgFactory | src/main/kotlin/CommanderParser.kt:543-556 | an argument is declared by a no-argument static factory of the same argument class that reads it |
| FrameworkClasses.ArgTypeClass | src/main/kotlin/CommanderParser.kt:179-190 | every argument type maps to an argument-type class, never to the Text or command-manager import |
| FrameworkClasses.QualifiedNameInjective | src/main/kotlin/CommanderParser.kt:164-190 | distinct classes have distinct qualified import names |
| CommanderGenerator.DedupImportNames | src/main/kotlin/CommanderParser.kt:162-194 | deduplicating the import names, as the source does, gives the names of the deduplicated classes, in the same order |
| CommanderGenerator.TokenArgTypes | src/main/kotlin/CommanderParser.kt:170-177 | the types collected from a path are exactly those of its required and optional arguments |
| CommanderGenerator.UsedArgTypes | src/main/kotlin/CommanderParser.kt:170-178 | a type is used iff some definition's path has a required or optional argument of it |
| CommanderGenerator.CollectFrameworkImports | src/main/kotlin/CommanderParser.kt:162-195 | the loop adding the imports of the used types computes the deduplicated import list |
| CommanderGenerator.FrameworkImportsSpec | src/main/kotlin/CommanderParser.kt:162-195 | Text comes first and the side's command manager second; the list has no duplicates; a class is imported iff it is one of those two or the class of a used argument type |
| CommanderGenerator.ImportsComplete | src/main/kotlin/CommanderParser.kt:191-193 | before deduplication the list holds both fixed imports and the class of every used type |
| CommanderAst.MatchToken | src/main/kotlin/CommanderParser.kt:319-333 | two tokens match iff both are present and have the same key: literal text, argument name and type, or enum name, within the same kind of token |
| ColonelAst.MatchColonelToken | src/main/kotlin/ColonelParser.kt:305-317 | Colonel's match is Commander's except that a required enum never matches; equivalently, both present, same key, and not a required enum |
| CommanderAst.BindingOf | src/main/kotlin/CommanderParser.kt:290-297 | a literal binds nothing; every argument token binds its own name to itself |
| CommanderAst.Bindings | src/main/kotlin/CommanderParser.kt:288-305 | the arguments bound along a path are argument tokens of the path, under their own names, at most one per token |
| CommanderAst.BindingsAppend | src/main/kotlin/CommanderParser.kt:290-305 | the bindings of a concatenated path are the bindings of its parts, in order |
| CommanderTrie.FirstMatch | src/main/kotlin/CommanderParser.kt:298 | `children.find`: the index of the first matching child, or none when no child matches |
| CommanderTrie.InsertedEntryAt | src/main/kotlin/CommanderParser.kt:275-318 | after merging a definition, the path with its keys carries its action, level and the arguments its path binds; every other path keeps what it had (a map update) |
| CommanderTrie.BuiltEntryAt | src/main/kotlin/CommanderParser.kt:268-274 | in a built tree, every path carries the last definition with that path's keys, with its own arguments, or nothing if none has it |
| CommanderTrie.LastEntry | src/main/kotlin/CommanderParser.kt:268-274 | the reference meaning of a built tree: a found entry comes from a definition with those keys; none means no definition has them |
| CommanderTrie.BuiltMerged | src/main/kotlin/CommanderParser.kt:268-318 | in a built tree, no two siblings match and every non-root node has a token (merging never duplicates a branch) |
| CommanderTrie.InsertedMerged | src/main/kotlin/CommanderParser.kt:298-317 | merging a definition into a tree without matching siblings keeps it so |
| CommanderTrie.InsertedTwice | src/main/kotlin/CommanderParser.kt:275-318 | inserting the same definition twice gives the tree inserting it once gives (idempotence) |
| CommanderBuilder.Node.constructor | src/main/kotlin/CommanderParser.kt:261-267 | a fresh node has the given token, no action, level 0, no visible arguments and no children |
| CommanderBuilder.Node.SetTerminal | src/main/kotlin/CommanderParser.kt:283-285 | the node's action, level and visible arguments are overwritten; its token and children are unchanged |
| CommanderBuilder.Node.AddChild | src/main/kotlin/CommanderParser.kt:308-309 | the new node is appended as the last child and the tree stays well formed |
| CommanderBuilder.Insert | src/main/kotlin/CommanderParser.kt:275-318 | the in-place insertion leaves the node tree well formed and equal to `Inserted` of the old tree; new nodes are fresh |
| CommanderBuilder.InsertBelow | src/main/kotlin/CommanderParser.kt:299-306 | descending into or terminating at an existing child changes only that child, into `Inserted` of it |
| CommanderBuilder.EndAtChild | src/main/kotlin/CommanderParser.kt:300-303 | a definition ending at an existing child overwrites only that child's action, level and arguments |
| CommanderBuilder.DescendInto | src/main/kotlin/CommanderParser.kt:304-306 | the rest of the path is merged below the existing child and nothing else changes |
| CommanderBuilder.Build | src/main/kotlin/CommanderParser.kt:268-274 | building from a fresh root inserts each definition in order: the result equals `Built(commands)` |
| ColonelAst.BuiltColonel | src/main/kotlin/ColonelParser.kt:253-304 | a tree built from Colonel definitions holds no required-enum node |
| ColonelAst.InsertedColonel | src/main/kotlin/ColonelParser.kt:260-304 | inserting a Colonel path into a Colonel tree keeps it free of required enums |
| CommanderCalls.ResolveTokenValue | src/main/kotlin/CommanderParser.kt:480-514 | required arguments, and given optionals, read from `context`; an omitted optional passes its default literal; an enum passes its branch value when it is the substituted one, otherwise `""` (required) or the omitted optional-enum default, falling back to its own default (optional); a literal passes its quoted text |
| CommanderCalls.FindBinding | src/main/kotlin/CommanderParser.kt:474 | `visibleArgs.find`: none iff the name is not visible; otherwise the first binding of that name |
| CommanderCalls.ResolveArg | src/main/kotlin/CommanderParser.kt:456-479 | in order of precedence: the substituted enum passes its value (or the optional-enum default, or `""`); the omitted optional passes its default literal; the omitted optional enum's own name passes its default value quoted; the first visible binding of the name is resolved with only the enum substitution in force; an unknown name passes as a string literal of itself |
| CommanderCalls.CallArguments | src/main/kotlin/CommanderParser.kt:439-454 | an explicit call resolves each listed name in order; an automatic call resolves each visible argument in path order; `context` comes last |
| CommanderCalls.BuildCall | src/main/kotlin/CommanderParser.kt:430-455 | the call is the function name applied to its call arguments joined by `, `; it starts with `function(` and ends with `context)` |
| CommanderCalls.FindUnique | src/main/kotlin/CommanderParser.kt:474 | with distinct names, looking up a visible argument's name finds that argument |
| CommanderCalls.ExplicitAgreesWithAuto | src/main/kotlin/CommanderParser.kt:465-477 | with coherent substitutions, resolving a visible argument by name gives what the automatic call passes for it |
| CommanderCalls.ExplicitAllEqualsAuto | src/main/kotlin/CommanderParser.kt:439-454 | `-> f(a, b, ...)` listing every visible argument in path order generates the same call as `\|> f` |
| CommanderCalls.OmittedEnumDefaultSharedAuto | src/main/kotlin/CommanderParser.kt:498-503 | at an omitted optional enum's block, `\|> f` passes that enum's default for every visible optional enum, not only the omitted one |
| CommanderCalls.OmittedEnumDefaultSharedExplicit | src/main/kotlin/CommanderParser.kt:471-477 | at the same block, an explicit call passes the other enum its own default, so the two call forms differ there |
| ColonelCalls.CallArguments | src/main/kotlin/ColonelParser.kt:407-420 | Colonel's argument lists are resolved as Commander's, pointwise, and are Commander's lists without the trailing `context` |
| ColonelCalls.BuildCall | src/main/kotlin/ColonelParser.kt:398-421 | Colonel's call is the function name applied to its call arguments joined by `, `, between `function(` and `)` |
| ColonelCalls.CommanderAddsContext | src/main/kotlin/ColonelParser.kt:398-421 | for the same definition, Commander's call is Colonel's with `context` appended as the last argument |
| ColonelCalls.ExplicitAllEqualsAuto | src/main/kotlin/ColonelParser.kt:407-420 | in Colonel too, an explicit call listing the visible arguments equals the automatic call |
| CommanderEmission.ExecutesPieces | src/main/kotlin/CommanderParser.kt:409-429 | no action gives no output; otherwise one flat block at the given indent, with a `requires` line iff the level is positive, holding the feedback supplier of the built call |
| CommanderEmission.ExecutesPiecesShape | src/main/kotlin/CommanderParser.kt:419-428 | the block is the optional `requires` line, `.executes(context -> {`, the feedback line, `return 1;` and `})`, in that order |
| ColonelEmission.ExecutesPieces | src/main/kotlin/ColonelParser.kt:377-397 | as Commander's, with a direct `sendFeedback(Text.literal(...))` line carrying Colonel's call |
| CommanderEmission.RenderedBalanced | src/main/kotlin/CommanderParser.kt:334-408 | the rendered chain's `.then(` and `)` lines are balanced, and no line is indented less than the base indent |
| CommanderEmission.NodeHeads | src/main/kotlin/CommanderParser.kt:344-408 | the branches a node opens at its own level are its literal text, its argument name, or each enum value in order |
| CommanderEmission.ChildrenHeads | src/main/kotlin/CommanderParser.kt:339-341 | the children's branches appear in child order, each with its labels |
| CommanderEmission.EnumBranchesHeads | src/main/kotlin/CommanderParser.kt:383-404 | an enum node opens exactly one literal branch per value, in the declared order |
| CommanderEmission.OmittedOptionalFirst | src/main/kotlin/CommanderParser.kt:365-370 | an optional node with an action first emits, at its parent's level, the block that passes the default, then opens its argument branch |
| CommanderEmission.OmittedEnumFirst | src/main/kotlin/CommanderParser.kt:379-384 | an optional enum with an action first emits, at its parent's level, the block that passes the default, then opens the first value's branch |
| CommanderEmission.EnumBranchesStart | src/main/kotlin/CommanderParser.kt:383-384 | the value branches are empty iff there are no values, and otherwise start with the first value's literal |
| ColonelEmission.RenderedBalanced | src/main/kotlin/ColonelParser.kt:318-376 | Colonel's rendered chain is balanced and never indented below the base indent |
| ColonelEmission.NodeHeads | src/main/kotlin/ColonelParser.kt:325-376 | a Colonel node opens its literal, its argument name, or each optional-enum value in order |
| ColonelEmission.ChildrenHeads | src/main/kotlin/ColonelParser.kt:320-322 | Colonel renders the children's branches in child order |
| ColonelEmission.EnumBranchesHeads | src/main/kotlin/ColonelParser.kt:363-372 | one literal branch per optional-enum value, in order |
| ColonelEmission.OmittedOptionalFirst | src/main/kotlin/ColonelParser.kt:345-350 | the omitted-optional block precedes the argument branch at the parent's level |
| ColonelEmission.OmittedEnumFirst | src/main/kotlin/ColonelParser.kt:359-364 | the omitted-enum block precedes the first value branch at the parent's level |
| CommanderEmission.ValueBranchCall | src/main/kotlin/CommanderParser.kt:383-404 | the branch of value k comes k-th, opens with that value's literal, holds the feedback line whose call has that value substituted for the enum, and closes after the children, which are rendered with the same value substituted |
| ColonelEmission.ValueBranchCall | src/main/kotlin/ColonelParser.kt:363-371 | the branch of value k comes k-th, opens with that value's literal, holds the feedback line whose call has that value substituted for the enum, and closes after the children, which are rendered with no value substituted |
| CommanderRenderer.AppendPermissionAndExecutes | src/main/kotlin/CommanderParser.kt:409-429 | appends exactly the text of `ExecutesPieces` for the node |
| CommanderRenderer.RenderNode | src/main/kotlin/CommanderParser.kt:344-408 | appends exactly the text of `RenderedNode` for the node's current model |
| CommanderRenderer.RenderOptional | src/main/kotlin/CommanderParser.kt:365-378 | appends the omitted-optional block and then the argument branch |
| CommanderRenderer.RenderOptionalEnum | src/main/kotlin/CommanderParser.kt:379-393 | appends the omitted-enum block and then one branch per value |
| CommanderRenderer.AppendEnumBranches | src/main/kotlin/CommanderParser.kt:394-405 | the loop over the enum values appends exactly `EnumBranches` |
| CommanderRenderer.AppendChildren | src/main/kotlin/CommanderParser.kt:351-353 | the loop over the children appends exactly `RenderedChildren` |
| CommanderRenderer.Render | src/main/kotlin/CommanderParser.kt:334-343 | returns the text of `Rendered`: the root's own block, then its children |
| ColonelRenderer.AppendPermissionAndExecutes | src/main/kotlin/ColonelParser.kt:377-397 | appends exactly the text of Colonel's `ExecutesPieces` |
| ColonelRenderer.RenderNode | src/main/kotlin/ColonelParser.kt:325-376 | appends exactly the text of Colonel's `RenderedNode` |
| ColonelRenderer.RenderOptional | src/main/kotlin/ColonelParser.kt:345-358 | appends the omitted-optional block and then the argument branch |
| ColonelRenderer.RenderOptionalEnum | src/main/kotlin/ColonelParser.kt:359-373 | appends the omitted-enum block and then one branch per value |
| ColonelRenderer.AppendEnumBranches | src/main/kotlin/ColonelParser.kt:363-372 | the loop over the values appends exactly Colonel's `EnumBranches` |
| ColonelRenderer.AppendChildren | src/main/kotlin/ColonelParser.kt:331-333 | the loop over the children appends exactly Colonel's `RenderedChildren` |
| ColonelRenderer.Render | src/main/kotlin/ColonelParser.kt:318-324 | returns the text of the root's children only |
| Grouping.GroupByKeys | src/main/kotlin/CommanderParser.kt:226-230 | the groups come out in the order their keys first appear, one per distinct key |
| Grouping.GroupByMembers | src/main/kotlin/CommanderParser.kt:226-230 | each group holds exactly the elements of its key, in their original order |
| Grouping.FilterMembers | src/main/kotlin/CommanderParser.kt:226-230 | a group holds only input elements of its own key |
| CommanderGenerator.RootLiteral | src/main/kotlin/CommanderParser.kt:227-229 | a definition's root is its first token's text when that token is a literal; otherwise "Command must start with a literal word" |
| CommanderGenerator.FirstRootError | src/main/kotlin/CommanderParser.kt:226-230 | no error iff every definition starts with a literal; otherwise the first failing definition's error |
| CommanderGenerator.Grouped | src/main/kotlin/CommanderParser.kt:226-230 | grouping succeeds iff every definition starts with a literal; on failure it reports the first failure; on success the roots appear in first-appearance order, each with its definitions in order |
| CommanderGenerator.Stripped | src/main/kotlin/CommanderParser.kt:252 | each definition keeps its action and level and loses its first token |
| CommanderGenerator.BuildRootCommand | src/main/kotlin/CommanderParser.kt:250-258 | the statement is `dispatcher.register(`, the root literal, the rendered tree at indent 2, then `);` |
| CommanderGenerator.RootOnlyDefinitionRendered | src/main/kotlin/CommanderParser.kt:334-338 | in Commander, a definition that is only its root word puts its action and level on the root, and its block is rendered at indent 2; the last one wins |
| CommanderGenerator.GenerateRegisterCode | src/main/kotlin/CommanderParser.kt:221-249 | the register body is the side's callback header, one statement per root in order, and `});`, or the grouping error |
| CommanderGenerator.BuildRegistrations | src/main/kotlin/CommanderParser.kt:234-236 | the loop appends each group's statement in group order |
| ColonelGenerator.BuildRootCommand | src/main/kotlin/ColonelParser.kt:230-239 | Colonel's statement wraps Colonel's rendering of the stripped tree at indent 2 |
| ColonelGenerator.RootTreeColonel | src/main/kotlin/ColonelParser.kt:233 | the stripped tree of a group of Colonel definitions holds no required enum |
| ColonelGenerator.Subcommands | src/main/kotlin/ColonelParser.kt:233 | keeps exactly the definitions with a word after the root |
| ColonelGenerator.RootOnlyDefinitionsDropped | src/main/kotlin/ColonelParser.kt:318-324 | in Colonel, definitions that are only the root word leave no trace: the statement is the one the other definitions alone produce |
| ColonelGenerator.GenerateRegisterCode | src/main/kotlin/ColonelParser.kt:200-229 | Colonel's register body is the callback header, one statement per root in order, and `});`, or the grouping error |
| ColonelGenerator.BuildRegistrations | src/main/kotlin/ColonelParser.kt:211-214 | the loop appends each group's Colonel statement in group order |
| Text.DecimalRoundTrip | src/main/kotlin/CommanderParser.kt:421-423 | the permission level written into `hasPermissionLevel(...)` is a decimal numeral that reads back as the level |
| Seqs.Dedup | src/main/kotlin/CommanderParser.kt:194 | `distinct()`: no duplicates, and exactly the input's elements |
| Seqs.DedupFirstOccurrenceOrder | src/main/kotlin/CommanderParser.kt:194 | `distinct()` keeps elements in the order of their first occurrence |
| Seqs.DedupMap | src/main/kotlin/CommanderParser.kt:194 | `distinct()` commutes with mapping by a one-to-one function |

## Left out

- The command-language lexer and grammar are left out; they are parser-combinator code. Only the argument-type table is modelled. The model starts from parsed `CommandDef` values.
- JavaPoet is left out: the class and method builders and the splicing of imports into the generated file. `generate()` and `addClientBlockPosHelper` only assemble JavaPoet specs, so the model stops at the text of the `register()` body. The import list is modelled as a list of classes, whose names are proved distinct.
- CommanderGenerator.RegisterHeader: the `$T` of the callback header is written as the callback class's simple name (`ClientCommandRegistrationCallback` or `CommandRegistrationCallback`). That is what JavaPoet writes once the class is imported; the import itself is not modelled.
- CommanderGenerator.GenerateRegisterCode and ColonelGenerator.GenerateRegisterCode: the body is passed to `addCode` as a JavaPoet format string (CommanderParser.kt:246, ColonelParser.kt:226), so a `$` inside a literal, value or default would be read as a format directive. The model returns the body text as built and does not model that interpretation.
- The Gradle plugin and its generator entry point, which read the command files and write the Java file, are left out; they are I/O.
- Permission levels are unbounded naturals. The parser's `toInt()` and its 32-bit overflow are not modelled.
- CommanderGenerator.FrameworkImportsSpec: states membership, uniqueness and the first two imports. It does not state that the argument-type imports follow the order in which the types are first used. The source gets that order from `toSet()`, and `FrameworkImports` computes the same order.
- CommanderRenderer.RenderOptional, CommanderRenderer.RenderOptionalEnum, ColonelRenderer.RenderOptional and ColonelRenderer.RenderOptionalEnum drop the `node.action != null` guards around their `appendPermissionAndExecutes` calls. That call already returns without output when there is no action, so the text is the same.
- ColonelEmission.RenderedNode: a required-enum node is given no output. Colonel's token type has no required enum, and `ColonelAst.BuiltColonel` proves that no such node occurs in a Colonel tree.
- Exceptions are modelled as `Err` values that carry their message. For a definition with no tokens, this is the "List is empty." of Kotlin's `first()`. Where the failure is thrown is not modelled.
