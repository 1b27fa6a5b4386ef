/** `CommandTreeBuilder.render` as the source runs it: a depth-first walk over the mutable
    nodes that appends every line to one `StringBuilder`. Each method is proved to append
    exactly the text of the pieces CommanderEmission assigns to what it renders. */
module CommanderRenderer {
  import opened Wrappers
  import opened Text
  import opened ArgTypes
  import opened CommanderAst
  import opened CommanderTrie
  import opened CommanderCalls
  import opened Emission
  import opened CommanderEmission
  import opened CommanderBuilder

  /** `appendPermissionAndExecutes(node, side, indent, sb, ...)`. */
  method AppendPermissionAndExecutes(node: Node, side: Side, indent: nat, sb: StringBuilder, sub: Substitution)
    requires node.Valid()
    modifies sb
    ensures sb.text == old(sb.text) + TextOf(ExecutesPieces(node.Model, side, indent, sub))
  {
    ghost var model := node.Model;
    var level, visibleArgs := node.permissionLevel, node.visibleArgs;
    if node.action.None? {
      return;
    }
    var action := node.action.value;
    assert model.action == Some(action) && model.permissionLevel == level && model.visibleArgs == visibleArgs;
    ExecutesPiecesShape(model, side, indent, sub);
    AppendBlock(indent, level, BuildCall(action, visibleArgs, side, sub), sb);
  }

  /** The guard and the executes lambda of one definition. */
  method AppendBlock(indent: nat, level: nat, call: string, sb: StringBuilder)
    modifies sb
    ensures sb.text == old(sb.text) + TextOf(ExecutesBlock(indent, level, call))
  {
    ghost var start := sb.text;
    ghost var done: seq<Piece> := if level > 0 then [Requires(indent, level)] else [];
    if level > 0 {
      Emit(sb, Requires(indent, level), start, []);
    } else {
      assert sb.text == start + TextOf(done);
    }
    Emit(sb, ExecutesOpen(indent), start, done);
    done := done + [ExecutesOpen(indent)];
    Emit(sb, FeedbackSupplier(indent, call), start, done);
    done := done + [FeedbackSupplier(indent, call)];
    Emit(sb, ReturnOne(indent), start, done);
    done := done + [ReturnOne(indent)];
    Emit(sb, ExecutesClose(indent), start, done);
    ExecutesBlockSplit(indent, level, call);
  }

  /** One `.then(...)` bracket: the opening line, the node's executes block and children one
      level deeper, and the closing line. */
  method AppendBranch(node: Node, open: Piece, cmdMgr: string, side: Side, indent: nat, sb: StringBuilder,
                      ev: Option<string>, en: Option<string>)
    requires node.Valid()
    modifies sb
    ensures sb.text == old(sb.text) + TextOf(Branch(node.Model, open, cmdMgr, side, indent, ev, en))
    decreases node.Model, 3
  {
    ghost var start := sb.text;
    sb.Append(PieceText(open));
    ghost var afterOpen := sb.text;
    AppendBody(node, cmdMgr, side, indent + 1, sb, ev, en);
    ghost var afterBody := sb.text;
    sb.Append(PieceText(Close(indent)));
    BranchText(start, open, ExecutesPieces(node.Model, side, indent + 1, Inherited(ev, en)),
               RenderedChildren(node.Model, 0, cmdMgr, side, indent + 1, ev, en), Close(indent),
               afterOpen, afterBody, sb.text);
    BranchSplit(node.Model, open, cmdMgr, side, indent, ev, en);
  }

  /** What lies inside a bracket: the executes block with the inherited enum substitution,
      then the children. */
  method AppendBody(node: Node, cmdMgr: string, side: Side, indent: nat, sb: StringBuilder,
                    ev: Option<string>, en: Option<string>)
    requires node.Valid()
    modifies sb
    ensures sb.text == old(sb.text) + TextOf(ExecutesPieces(node.Model, side, indent, Inherited(ev, en))) +
                       TextOf(RenderedChildren(node.Model, 0, cmdMgr, side, indent, ev, en))
    decreases node.Model, 2
  {
    AppendPermissionAndExecutes(node, side, indent, sb, Inherited(ev, en));
    AppendChildren(node, cmdMgr, side, indent, sb, ev, en);
  }

  /** `for (value in token.arg.values)`: the literal branches of an enum node, one per value
      in declaration order. */
  method AppendEnumBranches(node: Node, name: string, values: seq<string>, cmdMgr: string, side: Side, indent: nat, sb: StringBuilder)
    requires node.Valid()
    modifies sb
    ensures sb.text == old(sb.text) + TextOf(EnumBranches(node.Model, name, values, 0, cmdMgr, side, indent))
    decreases node.Model, 5
  {
    ghost var model := node.Model;
    ghost var total := old(sb.text) + TextOf(EnumBranches(model, name, values, 0, cmdMgr, side, indent));
    for k := 0 to |values|
      invariant node.Valid() && node.Model == model
      invariant sb.text + TextOf(EnumBranches(model, name, values, k, cmdMgr, side, indent)) == total
    {
      AppendValueBranch(node, name, values, k, cmdMgr, side, indent, sb, total);
    }
    assert EnumBranches(model, name, values, |values|, cmdMgr, side, indent) == [];
    TextOfNothing(sb.text);
  }

  /** The branch of `values[k]`, as one step towards the text `total` of all of them. */
  method AppendValueBranch(node: Node, name: string, values: seq<string>, k: nat, cmdMgr: string, side: Side, indent: nat,
                           sb: StringBuilder, ghost total: string)
    requires node.Valid() && k < |values|
    requires sb.text + TextOf(EnumBranches(node.Model, name, values, k, cmdMgr, side, indent)) == total
    modifies sb
    ensures sb.text + TextOf(EnumBranches(node.Model, name, values, k + 1, cmdMgr, side, indent)) == total
    decreases node.Model, 4
  {
    ghost var model := node.Model;
    ghost var before := sb.text;
    var open, ev, en := OpenLiteral(indent, cmdMgr, values[k]), Some(values[k]), Some(name);
    AppendBranch(node, open, cmdMgr, side, indent, sb, ev, en);
    EnumCons(model, name, values, k, cmdMgr, side, indent);
    TextOfStep(before, sb.text, Branch(model, open, cmdMgr, side, indent, ev, en),
               EnumBranches(model, name, values, k + 1, cmdMgr, side, indent),
               EnumBranches(model, name, values, k, cmdMgr, side, indent), total);
  }

  /** `renderNode(node, cmdMgr, side, indent, sb, enumValue, enumArgName)`. */
  method RenderNode(node: Node, cmdMgr: string, side: Side, indent: nat, sb: StringBuilder,
                    ev: Option<string>, en: Option<string>)
    requires node.Valid()
    modifies sb
    ensures sb.text == old(sb.text) + TextOf(RenderedNode(node.Model, cmdMgr, side, indent, ev, en))
    decreases node.Model, 7
  {
    ghost var model := node.Model;
    if node.token.None? {
      assert RenderedNode(model, cmdMgr, side, indent, ev, en) == [];
      assert sb.text + TextOf([]) == sb.text;
      return;
    }
    var token := node.token.value;
    match token {
      case Literal(text) =>
        PlainNodeSplit(model, cmdMgr, side, indent, ev, en);
        AppendBranch(node, OpenLiteral(indent, cmdMgr, text), cmdMgr, side, indent, sb, ev, en);
      case Required(name, ty) =>
        PlainNodeSplit(model, cmdMgr, side, indent, ev, en);
        AppendBranch(node, OpenArgument(indent, cmdMgr, name, ty), cmdMgr, side, indent, sb, ev, en);
      case Optional(name, ty, d) =>
        RenderOptional(node, name, ty, d, cmdMgr, side, indent, sb, ev, en);
      case OptionalEnum(name, values, d) =>
        RenderOptionalEnum(node, name, values, d, cmdMgr, side, indent, sb, ev, en);
      case RequiredEnum(name, values) =>
        PlainNodeSplit(model, cmdMgr, side, indent, ev, en);
        AppendEnumBranches(node, name, values, cmdMgr, side, indent, sb);
    }
  }

  /** The `Optional` branch of `renderNode`: the executes block of the omitted argument at
      the node's own level, then the argument's bracket. */
  method RenderOptional(node: Node, name: string, ty: ArgType, d: string, cmdMgr: string, side: Side, indent: nat,
                        sb: StringBuilder, ev: Option<string>, en: Option<string>)
    requires node.Valid() && node.token == Some(Optional(name, ty, d))
    modifies sb
    ensures sb.text == old(sb.text) + TextOf(RenderedNode(node.Model, cmdMgr, side, indent, ev, en))
    decreases node.Model, 6
  {
    ghost var model := node.Model;
    var omitted := Substitution(Some(OptionalArg(name, ty, d)), None, ev, en);
    ghost var start := sb.text;
    // The source guards this call with `node.action != null`, which the call itself checks.
    AppendPermissionAndExecutes(node, side, indent, sb, omitted);
    ghost var mid := sb.text;
    AppendBranch(node, OpenArgument(indent, cmdMgr, name, ty), cmdMgr, side, indent, sb, ev, en);
    OptionalNodeSplit(model, name, ty, d, cmdMgr, side, indent, ev, en);
    TextOfSeq(start, mid, sb.text, ExecutesPieces(model, side, indent, omitted),
              Branch(model, OpenArgument(indent, cmdMgr, name, ty), cmdMgr, side, indent, ev, en),
              RenderedNode(model, cmdMgr, side, indent, ev, en));
  }

  /** The `OptionalEnum` branch of `renderNode`: the executes block of the omitted enum at
      the node's own level, then one literal branch per value. */
  method RenderOptionalEnum(node: Node, name: string, values: seq<string>, d: string, cmdMgr: string, side: Side,
                            indent: nat, sb: StringBuilder, ev: Option<string>, en: Option<string>)
    requires node.Valid() && node.token == Some(OptionalEnum(name, values, d))
    modifies sb
    ensures sb.text == old(sb.text) + TextOf(RenderedNode(node.Model, cmdMgr, side, indent, ev, en))
    decreases node.Model, 6
  {
    ghost var model := node.Model;
    var omitted := Substitution(None, Some(OptionalEnumArg(name, values, d)), None, None);
    ghost var start := sb.text;
    // The source guards this call with `node.action != null`, which the call itself checks.
    AppendPermissionAndExecutes(node, side, indent, sb, omitted);
    ghost var mid := sb.text;
    AppendEnumBranches(node, name, values, cmdMgr, side, indent, sb);
    OptionalEnumNodeSplit(model, name, values, d, cmdMgr, side, indent, ev, en);
    TextOfSeq(start, mid, sb.text, ExecutesPieces(model, side, indent, omitted),
              EnumBranches(model, name, values, 0, cmdMgr, side, indent),
              RenderedNode(model, cmdMgr, side, indent, ev, en));
  }

  /** `for (child in node.children) renderNode(child, ...)`. */
  method AppendChildren(node: Node, cmdMgr: string, side: Side, indent: nat, sb: StringBuilder,
                        ev: Option<string>, en: Option<string>)
    requires node.Valid()
    modifies sb
    ensures sb.text == old(sb.text) + TextOf(RenderedChildren(node.Model, 0, cmdMgr, side, indent, ev, en))
    decreases node.Model, 1
  {
    ghost var model := node.Model;
    ghost var total := old(sb.text) + TextOf(RenderedChildren(model, 0, cmdMgr, side, indent, ev, en));
    for i := 0 to |node.children|
      invariant sb.text + TextOf(RenderedChildren(model, i, cmdMgr, side, indent, ev, en)) == total
    {
      var child := node.children[i];
      ghost var before := sb.text;
      RenderNode(child, cmdMgr, side, indent, sb, ev, en);
      ChildrenCons(model, i, cmdMgr, side, indent, ev, en);
      TextOfStep(before, sb.text, RenderedNode(model.children[i], cmdMgr, side, indent, ev, en),
                 RenderedChildren(model, i + 1, cmdMgr, side, indent, ev, en),
                 RenderedChildren(model, i, cmdMgr, side, indent, ev, en), total);
    }
    assert RenderedChildren(model, |model.children|, cmdMgr, side, indent, ev, en) == [];
    TextOfNothing(sb.text);
  }

  /** `render(root, cmdMgr, side, baseIndent)`. */
  method Render(root: Node, cmdMgr: string, side: Side, baseIndent: nat) returns (s: string)
    requires root.Valid()
    ensures s == TextOf(Rendered(root.Model, cmdMgr, side, baseIndent))
  {
    var sb := new StringBuilder();
    // The source guards this call with `root.action != null`, which the call itself checks.
    AppendPermissionAndExecutes(root, side, baseIndent, sb, NoSubstitution);
    ghost var mid := sb.text;
    AppendChildren(root, cmdMgr, side, baseIndent, sb, None, None);
    TextOfSeq("", mid, sb.text, ExecutesPieces(root.Model, side, baseIndent, NoSubstitution),
              RenderedChildren(root.Model, 0, cmdMgr, side, baseIndent, None, None),
              Rendered(root.Model, cmdMgr, side, baseIndent));
    assert "" + sb.text == sb.text;
    s := sb.text;
  }
}
