/** The parts of Colonel's `FlatCodeGenerator` that shape the registration code. Grouping by
    the root literal and the stripping of the root word are Commander's (the same code in
    ColonelParser.kt), so CommanderGenerator's `Grouped`, `Stripped` and `RootTree` serve
    both; the statement written for a group differs, because Colonel renders its tree
    differently. */
module ColonelGenerator {
  import opened Wrappers
  import opened Text
  import opened ArgTypes
  import opened CommanderAst
  import opened CommanderTrie
  import opened Emission
  import opened Grouping
  import opened FrameworkClasses
  import opened ColonelAst
  import opened ColonelEmission
  import CommanderGenerator
  import CommanderBuilder
  import ColonelRenderer

  /** What Colonel's `buildRootCommand` returns: the register statement, the root literal,
      the rendered tree two levels in, and the closing line. */
  function RootCommandText(root: string, cmds: seq<CommandDef>, side: Side): string {
    "    dispatcher.register(\n" +
    "        " + CommandManager(side) + ".literal(" + Quote(root) + ")\n" +
    TextOf(Rendered(CommanderGenerator.RootTree(cmds), CommandManager(side), side, 2)) +
    "    );\n"
  }

  /** `buildRootCommand(rootLiteral, commands, side)`. */
  method BuildRootCommand(root: string, cmds: seq<CommandDef>, side: Side) returns (s: string)
    ensures s == RootCommandText(root, cmds, side)
  {
    var cmdMgr := CommandManager(side);
    var tree := CommanderBuilder.Build(CommanderGenerator.Stripped(cmds));
    var rendered := ColonelRenderer.Render(tree, cmdMgr, side, 2);
    s := "    dispatcher.register(\n" +
         "        " + cmdMgr + ".literal(" + Quote(root) + ")\n" +
         rendered +
         "    );\n";
  }

  /** The tree of a group of Colonel definitions holds only Colonel tokens. */
  lemma RootTreeColonel(cmds: seq<CommandDef>)
    requires forall i :: 0 <= i < |cmds| ==> IsColonelDef(cmds[i])
    ensures ColonelTree(CommanderGenerator.RootTree(cmds))
  {
    var s := CommanderGenerator.Stripped(cmds);
    forall i | 0 <= i < |s|
      ensures IsColonelDef(s[i])
    {
      var ts := cmds[i].tokens;
      if ts != [] {
        assert forall j :: 0 <= j < |ts| - 1 ==> s[i].tokens[j] == ts[j + 1];
      }
    }
    BuiltColonel(s);
  }

  // ---- Definitions that are only their root word ----

  /** The definitions with at least one word after the root, in order. */
  function Subcommands(cmds: seq<CommandDef>): (r: seq<CommandDef>)
    ensures forall c :: c in r <==> c in cmds && |c.tokens| > 1
  {
    if cmds == [] then []
    else
      var init, last := cmds[..|cmds| - 1], cmds[|cmds| - 1];
      assert cmds == init + [last];
      Subcommands(init) + (if |last.tokens| > 1 then [last] else [])
  }

  /** The definitions whose path is not empty, in order. */
  function WithPath(cmds: seq<CommandDef>): seq<CommandDef> {
    if cmds == [] then []
    else
      var init, last := cmds[..|cmds| - 1], cmds[|cmds| - 1];
      WithPath(init) + (if last.tokens != [] then [last] else [])
  }

  /** Below the node, merging a non-empty path depends only on the node's children. */
  lemma InsertedChildren(t: Tree, u: Tree, toks: seq<Token>, a: Action, p: nat, args: seq<Binding>)
    requires toks != [] && t.children == u.children
    ensures Inserted(t, toks, a, p, args).children == Inserted(u, toks, a, p, args).children
  {
  }

  /** The children of a built tree are those built from the definitions with a path: a
      definition with an empty path only sets the root's own action. */
  lemma {:induction false} BuiltChildren(cmds: seq<CommandDef>)
    ensures Built(cmds).children == Built(WithPath(cmds)).children
  {
    if cmds != [] {
      var init, c := cmds[..|cmds| - 1], cmds[|cmds| - 1];
      BuiltChildren(init);
      var w := WithPath(init);
      assert Built(cmds) == Inserted(Built(init), c.tokens, c.action, c.permissionLevel, []);
      if c.tokens != [] {
        var wc := w + [c];
        assert WithPath(cmds) == wc;
        assert wc[..|wc| - 1] == w;
        assert Built(wc) == Inserted(Built(w), c.tokens, c.action, c.permissionLevel, []);
        InsertedChildren(Built(init), Built(w), c.tokens, c.action, c.permissionLevel, []);
      } else {
        assert WithPath(cmds) == w;
      }
    }
  }

  /** Stripping the root word commutes with keeping the definitions that have more. */
  lemma {:induction false} StrippedSubcommands(cmds: seq<CommandDef>)
    ensures CommanderGenerator.Stripped(Subcommands(cmds)) == WithPath(CommanderGenerator.Stripped(cmds))
  {
    if cmds != [] {
      var init, last := cmds[..|cmds| - 1], cmds[|cmds| - 1];
      var s := CommanderGenerator.Stripped(cmds);
      var tail := if |last.tokens| > 1 then [last] else [];
      var kept := if s[|s| - 1].tokens != [] then [s[|s| - 1]] else [];
      StrippedSubcommands(init);
      assert s[..|s| - 1] == CommanderGenerator.Stripped(init);
      assert WithPath(s) == WithPath(CommanderGenerator.Stripped(init)) + kept;
      assert s[|s| - 1].tokens == CommanderGenerator.DropRoot(last.tokens);
      assert CommanderGenerator.Stripped(tail) == kept;
      assert Subcommands(cmds) == Subcommands(init) + tail;
      StrippedAppend(Subcommands(init), tail);
    }
  }

  lemma StrippedAppend(a: seq<CommandDef>, b: seq<CommandDef>)
    ensures CommanderGenerator.Stripped(a + b) == CommanderGenerator.Stripped(a) + CommanderGenerator.Stripped(b)
  {
    var l, r := CommanderGenerator.Stripped(a + b), CommanderGenerator.Stripped(a) + CommanderGenerator.Stripped(b);
    assert |l| == |r|;
    forall i | 0 <= i < |l|
      ensures l[i] == r[i]
    {
      if i >= |a| {
        assert (a + b)[i] == b[i - |a|];
      }
    }
  }

  /** Colonel renders only the root's children. */
  lemma {:induction false} RenderedByChildren(t: Tree, u: Tree, k: nat, cmdMgr: string, side: Side, indent: nat)
    requires t.children == u.children && k <= |t.children|
    ensures RenderedChildren(t, k, cmdMgr, side, indent) == RenderedChildren(u, k, cmdMgr, side, indent)
    decreases |t.children| - k
  {
    if k < |t.children| {
      RenderedByChildren(t, u, k + 1, cmdMgr, side, indent);
      ChildrenCons(t, k, cmdMgr, side, indent);
      ChildrenCons(u, k, cmdMgr, side, indent);
    }
  }

  /** Definitions that are only their root word leave no trace in Colonel's output: a
      group's registration statement is the one its other definitions alone produce. */
  lemma RootOnlyDefinitionsDropped(root: string, cmds: seq<CommandDef>, side: Side)
    ensures RootCommandText(root, cmds, side) == RootCommandText(root, Subcommands(cmds), side)
  {
    var s := CommanderGenerator.Stripped(cmds);
    StrippedSubcommands(cmds);
    BuiltChildren(s);
    RenderedByChildren(Built(s), Built(WithPath(s)), 0, CommandManager(side), side, 2);
  }

  // ---- The register method ----

  /** The registration statements of the groups, in order. */
  function RegisterBody(groups: seq<Group<CommandDef>>, side: Side): string {
    if groups == [] then ""
    else
      var last := groups[|groups| - 1];
      RegisterBody(groups[..|groups| - 1], side) + RootCommandText(last.key, last.members, side)
  }

  lemma RegisterBodyStep(groups: seq<Group<CommandDef>>, k: nat, side: Side)
    requires k < |groups|
    ensures RegisterBody(groups[..k + 1], side) ==
      RegisterBody(groups[..k], side) + RootCommandText(groups[k].key, groups[k].members, side)
  {
    assert groups[..k + 1][..k] == groups[..k];
  }

  /** The code of Colonel's `register()`: the callback, one registration per root word in
      order of first appearance, and the closing line; or the failure that stops
      generation. */
  function RegisterCode(commands: seq<CommandDef>, side: Side): Result<string, string> {
    match CommanderGenerator.Grouped(commands)
    case Err(e) => Err(e)
    case Ok(groups) => Ok(CommanderGenerator.RegisterHeader(side) + RegisterBody(groups, side) + "});\n")
  }

  /** `generateRegisterMethod(commands, side)`, up to the JavaPoet method it is wrapped in. */
  method GenerateRegisterCode(commands: seq<CommandDef>, side: Side) returns (r: Result<string, string>)
    ensures r == RegisterCode(commands, side)
  {
    var grouped := CommanderGenerator.Grouped(commands);
    if grouped.Err? {
      return Err(grouped.error);
    }
    var body := BuildRegistrations(grouped.value, side);
    r := Ok(CommanderGenerator.RegisterHeader(side) + body + "});\n");
  }

  /** `for ((rootLiteral, cmds) in grouped) bodyCode.append(buildRootCommand(...))`. */
  method BuildRegistrations(groups: seq<Group<CommandDef>>, side: Side) returns (body: string)
    ensures body == RegisterBody(groups, side)
  {
    var sb := new StringBuilder();
    for k := 0 to |groups|
      invariant sb.text == RegisterBody(groups[..k], side)
    {
      var s := BuildRootCommand(groups[k].key, groups[k].members, side);
      sb.Append(s);
      RegisterBodyStep(groups, k, side);
    }
    assert groups[..|groups|] == groups;
    body := sb.text;
  }
}
