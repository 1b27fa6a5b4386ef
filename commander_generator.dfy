/** The parts of Commander's `FlatCodeGenerator` that shape the registration code: the
    framework imports a command file needs, the grouping of definitions by their root
    literal, and the `dispatcher.register(...)` statement written for every group. */
module CommanderGenerator {
  import opened Wrappers
  import opened Text
  import opened Seqs
  import opened ArgTypes
  import opened CommanderAst
  import opened CommanderTrie
  import opened CommanderCalls
  import opened Emission
  import opened CommanderEmission
  import opened Grouping
  import opened FrameworkClasses
  import CommanderBuilder
  import CommanderRenderer

  // ---- Framework imports ----

  /** The types of the typed (`Required` and `Optional`) tokens of a path, in order; enum
      arguments and literals have none. */
  function TokenArgTypes(ts: seq<Token>): (r: seq<ArgType>)
    ensures forall t :: t in r <==> exists i :: 0 <= i < |ts| && (ts[i].Required? || ts[i].Optional?) && ts[i].ty == t
  {
    if ts == [] then []
    else
      var rest := TokenArgTypes(ts[1..]);
      assert forall i :: 1 <= i < |ts| ==> ts[i] == ts[1..][i - 1];
      if ts[0].Required? || ts[0].Optional? then [ts[0].ty] + rest else rest
  }

  /** Every argument type any definition uses, in order of use. */
  function UsedArgTypes(cmds: seq<CommandDef>): (r: seq<ArgType>)
    ensures forall t :: t in r <==> exists i :: 0 <= i < |cmds| && t in TokenArgTypes(cmds[i].tokens)
  {
    if cmds == [] then []
    else
      assert forall i :: 1 <= i < |cmds| ==> cmds[i] == cmds[1..][i - 1];
      TokenArgTypes(cmds[0].tokens) + UsedArgTypes(cmds[1..])
  }

  /** The classes of a sequence of argument types, position by position. */
  function ClassesOf(ts: seq<ArgType>): (r: seq<FrameworkClass>)
    ensures |r| == |ts| && forall i :: 0 <= i < |ts| ==> r[i] == ArgTypeClass(ts[i])
  {
    if ts == [] then [] else ClassesOf(ts[..|ts| - 1]) + [ArgTypeClass(ts[|ts| - 1])]
  }

  /** The imports `collectFrameworkImports` returns: the text class, the side's command
      manager, then the classes of the argument types in order of first use, with repeats
      dropped. */
  function FrameworkImports(commands: seq<CommandDef>, side: Side): seq<FrameworkClass> {
    Dedup([TextClass, ManagerClass(side)] + ClassesOf(Dedup(UsedArgTypes(commands))))
  }

  /** The source deduplicates the import names, the model deduplicates the classes: since
      distinct classes have distinct names, both give the same lines in the same order. */
  lemma DedupImportNames(cs: seq<FrameworkClass>)
    ensures Dedup(Map(QualifiedName, cs)) == Map(QualifiedName, Dedup(cs))
  {
    forall a, b ensures QualifiedName(a) == QualifiedName(b) ==> a == b {
      QualifiedNameInjective(a, b);
    }
    DedupMap(QualifiedName, cs);
  }

  /** `collectFrameworkImports(commands, side)`. */
  method CollectFrameworkImports(commands: seq<CommandDef>, side: Side) returns (imports: seq<FrameworkClass>)
    ensures imports == FrameworkImports(commands, side)
  {
    var list := [TextClass, ManagerClass(side)];
    var used := Dedup(UsedArgTypes(commands));
    ghost var extra := [];
    for k := 0 to |used|
      invariant list == [TextClass, ManagerClass(side)] + extra && extra == ClassesOf(used[..k])
    {
      list := list + [ArgTypeClass(used[k])];
      extra := extra + [ArgTypeClass(used[k])];
      assert used[..k + 1][..k] == used[..k];
    }
    assert used[..|used|] == used;
    imports := Dedup(list);
  }

  /** The text class and the side's command manager come first, no class is imported twice,
      and exactly the classes of the argument types in use are imported besides. */
  lemma FrameworkImportsSpec(commands: seq<CommandDef>, side: Side)
    ensures var imports := FrameworkImports(commands, side);
      |imports| >= 2 && imports[0] == TextClass && imports[1] == ManagerClass(side) &&
      NoDuplicates(imports)
    ensures forall c :: c in FrameworkImports(commands, side) <==>
      c == TextClass || c == ManagerClass(side) || exists t :: t in UsedArgTypes(commands) && ArgTypeClass(t) == c
  {
    var head := [TextClass, ManagerClass(side)];
    var used := Dedup(UsedArgTypes(commands));
    var extra := ClassesOf(used);
    DedupDistinct(head);
    DedupPrefix(head, extra);
    ImportsMembers(commands, side);
  }

  lemma ImportsMembers(commands: seq<CommandDef>, side: Side)
    ensures forall c :: c in FrameworkImports(commands, side) <==>
      c == TextClass || c == ManagerClass(side) || exists t :: t in UsedArgTypes(commands) && ArgTypeClass(t) == c
  {
    var list := [TextClass, ManagerClass(side)] + ClassesOf(Dedup(UsedArgTypes(commands)));
    assert forall c :: c in FrameworkImports(commands, side) <==> c in list;
    ImportsSound(commands, side, list);
    ImportsComplete(commands, side, list);
  }

  lemma ImportsSound(commands: seq<CommandDef>, side: Side, list: seq<FrameworkClass>)
    requires list == [TextClass, ManagerClass(side)] + ClassesOf(Dedup(UsedArgTypes(commands)))
    ensures forall c :: c in list ==>
      c == TextClass || c == ManagerClass(side) || exists t :: t in UsedArgTypes(commands) && ArgTypeClass(t) == c
  {
    var all := UsedArgTypes(commands);
    forall c | c in list
      ensures c == TextClass || c == ManagerClass(side) || exists t :: t in all && ArgTypeClass(t) == c
    {
      ClassFromUsed([TextClass, ManagerClass(side)], Dedup(all), all, c);
    }
  }

  /** A class listed after the fixed head is the class of some type in use. */
  lemma ClassFromUsed(head: seq<FrameworkClass>, used: seq<ArgType>, all: seq<ArgType>, c: FrameworkClass)
    requires forall j :: 0 <= j < |used| ==> used[j] in all
    requires c in head + ClassesOf(used)
    ensures c in head || exists t :: t in all && ArgTypeClass(t) == c
  {
    var list := head + ClassesOf(used);
    var i :| 0 <= i < |list| && list[i] == c;
    if i >= |head| {
      assert c == ArgTypeClass(used[i - |head|]);
    }
  }

  lemma ImportsComplete(commands: seq<CommandDef>, side: Side, list: seq<FrameworkClass>)
    requires list == [TextClass, ManagerClass(side)] + ClassesOf(Dedup(UsedArgTypes(commands)))
    ensures TextClass in list && ManagerClass(side) in list
    ensures forall t :: t in UsedArgTypes(commands) ==> ArgTypeClass(t) in list
  {
    var used := Dedup(UsedArgTypes(commands));
    assert list[0] == TextClass && list[1] == ManagerClass(side);
    forall t | t in UsedArgTypes(commands)
      ensures ArgTypeClass(t) in list
    {
      var j :| 0 <= j < |used| && used[j] == t;
      assert list[2 + j] == ArgTypeClass(t);
    }
  }

  // ---- Grouping by root literal ----

  /** `cmd.tokens.first()` with the `require` that it is a literal: the root word, or the
      exception that stops generation. */
  function RootLiteral(cmd: CommandDef): (r: Result<string, string>)
    ensures r.Ok? <==> cmd.tokens != [] && cmd.tokens[0].Literal?
    ensures r.Ok? ==> r.value == cmd.tokens[0].text
    ensures r.Err? && cmd.tokens != [] ==> r.error == "Command must start with a literal word"
  {
    if cmd.tokens == [] then Err("List is empty.")
    else if cmd.tokens[0].Literal? then Ok(cmd.tokens[0].text)
    else Err("Command must start with a literal word")
  }

  /** The grouping key of a definition already known to start with a literal. */
  function RootText(cmd: CommandDef): string {
    if cmd.tokens != [] && cmd.tokens[0].Literal? then cmd.tokens[0].text else ""
  }

  /** The failure of the first definition, in order, that does not start with a literal. */
  function FirstRootError(cmds: seq<CommandDef>): (r: Option<string>)
    ensures r.None? <==> forall i :: 0 <= i < |cmds| ==> RootLiteral(cmds[i]).Ok?
    ensures r.Some? ==> exists i :: 0 <= i < |cmds| && RootLiteral(cmds[i]) == Err(r.value) &&
                                   forall j :: 0 <= j < i ==> RootLiteral(cmds[j]).Ok?
  {
    if cmds == [] then None
    else if RootLiteral(cmds[0]).Err? then Some(RootLiteral(cmds[0]).error)
    else
      var r := FirstRootError(cmds[1..]);
      assert forall i :: 1 <= i < |cmds| ==> cmds[i] == cmds[1..][i - 1];
      r
  }

  /** `commands.groupBy { ... first.text }`: the first offending definition stops everything;
      otherwise one group per root word in order of first appearance, each holding the
      definitions with that root in their original order. */
  function Grouped(cmds: seq<CommandDef>): (r: Result<seq<Group<CommandDef>>, string>)
    ensures r.Ok? <==> forall i :: 0 <= i < |cmds| ==> RootLiteral(cmds[i]).Ok?
    ensures r.Err? ==> r.error == FirstRootError(cmds).value
    ensures r.Ok? ==> GroupKeys(r.value) == Dedup(KeysOf(cmds, RootText))
    ensures r.Ok? ==> forall i :: 0 <= i < |r.value| ==> r.value[i].members == Filter(cmds, RootText, r.value[i].key)
  {
    match FirstRootError(cmds)
    case Some(e) => Err(e)
    case None =>
      GroupByKeys(cmds, RootText);
      GroupByMembers(cmds, RootText);
      Ok(GroupBy(cmds, RootText))
  }

  // ---- One registration per root ----

  /** `it.tokens.drop(1)`. */
  function DropRoot(ts: seq<Token>): seq<Token> {
    if ts == [] then [] else ts[1..]
  }

  /** `commands.map { it.copy(tokens = it.tokens.drop(1)) }`. */
  function Stripped(cmds: seq<CommandDef>): (r: seq<CommandDef>)
    ensures |r| == |cmds|
    ensures forall i :: 0 <= i < |cmds| ==> r[i] == cmds[i].(tokens := DropRoot(cmds[i].tokens))
  {
    if cmds == [] then []
    else
      assert forall i :: 1 <= i < |cmds| ==> cmds[i] == cmds[1..][i - 1];
      [cmds[0].(tokens := DropRoot(cmds[0].tokens))] + Stripped(cmds[1..])
  }

  /** The tree a group's definitions merge into once the root word is dropped. */
  function RootTree(cmds: seq<CommandDef>): Tree {
    Built(Stripped(cmds))
  }

  /** What `buildRootCommand` returns: the register statement, the root literal, the
      rendered tree two levels in, and the closing line. */
  function RootCommandText(root: string, cmds: seq<CommandDef>, side: Side): string {
    "    dispatcher.register(\n" +
    "        " + CommandManager(side) + ".literal(" + Quote(root) + ")\n" +
    TextOf(Rendered(RootTree(cmds), CommandManager(side), side, 2)) +
    "    );\n"
  }

  /** `buildRootCommand(rootLiteral, commands, side)`. */
  method BuildRootCommand(root: string, cmds: seq<CommandDef>, side: Side) returns (s: string)
    ensures s == RootCommandText(root, cmds, side)
  {
    var cmdMgr := CommandManager(side);
    var tree := CommanderBuilder.Build(Stripped(cmds));
    var rendered := CommanderRenderer.Render(tree, cmdMgr, side, 2);
    s := "    dispatcher.register(\n" +
         "        " + cmdMgr + ".literal(" + Quote(root) + ")\n" +
         rendered +
         "    );\n";
  }

  /** A definition that is only its root word puts its action on the root of its group's
      tree, and the rendered tree runs it at the base indentation; the last such definition
      wins. */
  lemma RootOnlyDefinitionRendered(cmds: seq<CommandDef>, side: Side, j: nat)
    requires j < |cmds| && |cmds[j].tokens| == 1
    requires forall k :: j < k < |cmds| ==> |cmds[k].tokens| > 1
    ensures RootTree(cmds).action == Some(cmds[j].action)
    ensures RootTree(cmds).permissionLevel == cmds[j].permissionLevel
    ensures FeedbackSupplier(2, BuildCall(cmds[j].action, [], side, NoSubstitution)) in
      Rendered(RootTree(cmds), CommandManager(side), side, 2)
  {
    var s := Stripped(cmds);
    assert s[j].tokens == [];
    forall k | j < k < |s|
      ensures Keys(s[k].tokens) != []
    {
      assert |s[k].tokens| == |cmds[k].tokens| - 1;
    }
    LastEntryIsLast(s, [], j);
    BuiltEntryAt(s, []);
    assert Keys([]) == [];
  }

  /** The registration statements of the groups, in order. */
  function RegisterBody(groups: seq<Group<CommandDef>>, side: Side): string {
    if groups == [] then ""
    else
      var last := groups[|groups| - 1];
      RegisterBody(groups[..|groups| - 1], side) + RootCommandText(last.key, last.members, side)
  }

  lemma RegisterBodyStep(groups: seq<Group<CommandDef>>, k: nat, side: Side)
    requires k < |groups|
    ensures RegisterBody(groups[..k + 1], side) ==
      RegisterBody(groups[..k], side) + RootCommandText(groups[k].key, groups[k].members, side)
  {
    assert groups[..k + 1][..k] == groups[..k];
  }

  /** The callback the registration lambda is handed to, by its simple name. */
  function RegisterHeader(side: Side): string {
    match side
    case Client => "ClientCommandRegistrationCallback.EVENT.register((dispatcher, registryAccess) -> {\n"
    case Server => "CommandRegistrationCallback.EVENT.register((dispatcher, registryAccess, environment) -> {\n"
  }

  /** The code of `register()`: the callback, one registration per root word in order of
      first appearance, and the closing line; or the failure that stops generation. */
  function RegisterCode(commands: seq<CommandDef>, side: Side): Result<string, string> {
    match Grouped(commands)
    case Err(e) => Err(e)
    case Ok(groups) => Ok(RegisterHeader(side) + RegisterBody(groups, side) + "});\n")
  }

  /** `generateRegisterMethod(commands, side)`, up to the JavaPoet method it is wrapped in. */
  method GenerateRegisterCode(commands: seq<CommandDef>, side: Side) returns (r: Result<string, string>)
    ensures r == RegisterCode(commands, side)
  {
    var grouped := Grouped(commands);
    if grouped.Err? {
      return Err(grouped.error);
    }
    var body := BuildRegistrations(grouped.value, side);
    r := Ok(RegisterHeader(side) + body + "});\n");
  }

  /** `for ((rootLiteral, cmds) in grouped) bodyCode.append(buildRootCommand(...))`. */
  method BuildRegistrations(groups: seq<Group<CommandDef>>, side: Side) returns (body: string)
    ensures body == RegisterBody(groups, side)
  {
    var sb := new StringBuilder();
    for k := 0 to |groups|
      invariant sb.text == RegisterBody(groups[..k], side)
    {
      var s := BuildRootCommand(groups[k].key, groups[k].members, side);
      sb.Append(s);
      RegisterBodyStep(groups, k, side);
    }
    assert groups[..|groups|] == groups;
    body := sb.text;
  }
}
