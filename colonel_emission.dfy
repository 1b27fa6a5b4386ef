/** What Colonel's `render` writes for a command tree, as a sequence of pieces. The walk is
    Commander's, with three differences: the feedback line passes the call directly, only
    the root's children are rendered (an action on the root itself is never written), and
    the enum value of a branch reaches only the enum node's own call, never the nodes
    below it. */
module ColonelEmission {
  import opened Wrappers
  import opened Text
  import opened ArgTypes
  import opened CommanderAst
  import opened CommanderTrie
  import opened Emission
  import opened ColonelAst
  import opened ColonelCalls
  import CommanderCalls

  type Substitution = CommanderCalls.Substitution

  /** The executes block of a definition with permission level `level` whose feedback line
      carries `call`: the permission guard when the level is positive, then the lambda. */
  function ExecutesBlock(indent: nat, level: nat, call: string): (r: seq<Piece>)
    ensures Flat(r) && forall i :: 0 <= i < |r| ==> r[i].indent == indent
    ensures (exists i :: 0 <= i < |r| && r[i].Requires?) <==> level > 0
    ensures forall i :: 0 <= i < |r| && r[i].Requires? ==> r[i].level == level
    ensures FeedbackDirect(indent, call) in r
  {
    var body := [ExecutesOpen(indent), FeedbackDirect(indent, call), ReturnOne(indent), ExecutesClose(indent)];
    if level > 0 then
      var r := [Requires(indent, level)] + body;
      assert r[0].Requires?;
      r
    else body
  }

  /** `appendPermissionAndExecutes`: nothing without an action; otherwise the permission
      guard when the level is positive, then the executes lambda whose feedback line carries
      the generated call. */
  function ExecutesPieces(t: Tree, side: Side, indent: nat, sub: Substitution): (r: seq<Piece>)
    ensures t.action.None? <==> r == []
    ensures Flat(r) && forall i :: 0 <= i < |r| ==> r[i].indent == indent
    ensures (exists i :: 0 <= i < |r| && r[i].Requires?) <==> t.action.Some? && t.permissionLevel > 0
    ensures t.action.Some? ==> FeedbackDirect(indent, BuildCall(t.action.value, t.visibleArgs, side, sub)) in r
  {
    match t.action
    case None => []
    case Some(a) => ExecutesBlock(indent, t.permissionLevel, BuildCall(a, t.visibleArgs, side, sub))
  }

  lemma ExecutesPiecesShape(t: Tree, side: Side, indent: nat, sub: Substitution)
    requires t.action.Some?
    ensures ExecutesPieces(t, side, indent, sub) ==
      (if t.permissionLevel > 0 then [Requires(indent, t.permissionLevel)] else []) +
      [ExecutesOpen(indent), FeedbackDirect(indent, BuildCall(t.action.value, t.visibleArgs, side, sub)),
       ReturnOne(indent), ExecutesClose(indent)]
  {
  }

  /** The substitution of the branch for one value of the optional enum `name`. */
  function ValueSubstitution(value: string, name: string): Substitution {
    CommanderCalls.Substitution(None, None, Some(value), Some(name))
  }

  /** One `.then(...)` bracket for node `t`: the opening line, the node's own executes block
      one level deeper (with `sub`), its children one level deeper (with none), and the
      closing line. */
  function Branch(t: Tree, open: Piece, cmdMgr: string, side: Side, indent: nat, sub: Substitution): seq<Piece>
    decreases t, 1, 0
  {
    [open] + ExecutesPieces(t, side, indent + 1, sub) +
    RenderedChildren(t, 0, cmdMgr, side, indent + 1) + [Close(indent)]
  }

  /** The literal branches of an optional enum node for `values[k..]`: each fixes its value
      for the node's own call only. */
  function EnumBranches(t: Tree, name: string, values: seq<string>, k: nat, cmdMgr: string, side: Side, indent: nat): seq<Piece>
    requires k <= |values|
    decreases t, 2, |values| - k
  {
    if k == |values| then []
    else
      Branch(t, OpenLiteral(indent, cmdMgr, values[k]), cmdMgr, side, indent, ValueSubstitution(values[k], name)) +
      EnumBranches(t, name, values, k + 1, cmdMgr, side, indent)
  }

  /** `renderNode(node, cmdMgr, side, indent, sb)`. Colonel has no required enum; a node
      holding one (which `BuiltColonel` shows never occurs) writes nothing. */
  function RenderedNode(t: Tree, cmdMgr: string, side: Side, indent: nat): seq<Piece>
    decreases t, 3, 0
  {
    match t.token
    case None => []
    case Some(Literal(text)) => Branch(t, OpenLiteral(indent, cmdMgr, text), cmdMgr, side, indent, CommanderCalls.NoSubstitution)
    case Some(Required(name, ty)) => Branch(t, OpenArgument(indent, cmdMgr, name, ty), cmdMgr, side, indent, CommanderCalls.NoSubstitution)
    case Some(Optional(name, ty, d)) =>
      ExecutesPieces(t, side, indent, CommanderCalls.Substitution(Some(OptionalArg(name, ty, d)), None, None, None)) +
      Branch(t, OpenArgument(indent, cmdMgr, name, ty), cmdMgr, side, indent, CommanderCalls.NoSubstitution)
    case Some(OptionalEnum(name, values, d)) =>
      ExecutesPieces(t, side, indent, CommanderCalls.Substitution(None, Some(OptionalEnumArg(name, values, d)), None, None)) +
      EnumBranches(t, name, values, 0, cmdMgr, side, indent)
    case Some(RequiredEnum(_, _)) => []
  }

  /** The children `t.children[k..]`, each rendered at `indent`. */
  function RenderedChildren(t: Tree, k: nat, cmdMgr: string, side: Side, indent: nat): seq<Piece>
    requires k <= |t.children|
    decreases t, 0, |t.children| - k
  {
    if k == |t.children| then []
    else RenderedNode(t.children[k], cmdMgr, side, indent) + RenderedChildren(t, k + 1, cmdMgr, side, indent)
  }

  /** `render(root, cmdMgr, side, baseIndent)`: the root's children at the base indentation;
      the root's own action is not rendered. */
  function Rendered(root: Tree, cmdMgr: string, side: Side, baseIndent: nat): seq<Piece> {
    RenderedChildren(root, 0, cmdMgr, side, baseIndent)
  }

  // ---- One level of unfolding of the render functions ----

  lemma ChildrenCons(t: Tree, i: nat, cmdMgr: string, side: Side, indent: nat)
    requires i < |t.children|
    ensures RenderedChildren(t, i, cmdMgr, side, indent) ==
            RenderedNode(t.children[i], cmdMgr, side, indent) + RenderedChildren(t, i + 1, cmdMgr, side, indent)
  {
  }

  lemma EnumCons(t: Tree, name: string, values: seq<string>, k: nat, cmdMgr: string, side: Side, indent: nat)
    requires k < |values|
    ensures EnumBranches(t, name, values, k, cmdMgr, side, indent) ==
            Branch(t, OpenLiteral(indent, cmdMgr, values[k]), cmdMgr, side, indent, ValueSubstitution(values[k], name)) +
            EnumBranches(t, name, values, k + 1, cmdMgr, side, indent)
  {
  }

  lemma BranchSplit(t: Tree, open: Piece, cmdMgr: string, side: Side, indent: nat, sub: Substitution)
    ensures Branch(t, open, cmdMgr, side, indent, sub) ==
            [open] + ExecutesPieces(t, side, indent + 1, sub) +
            RenderedChildren(t, 0, cmdMgr, side, indent + 1) + [Close(indent)]
  {
  }

  /** A node of a literal or a required argument is rendered as its bracket alone. */
  lemma PlainNodeSplit(t: Tree, cmdMgr: string, side: Side, indent: nat)
    requires t.token.Some?
    ensures t.token.value.Literal? ==> (RenderedNode(t, cmdMgr, side, indent) ==
      Branch(t, OpenLiteral(indent, cmdMgr, t.token.value.text), cmdMgr, side, indent, CommanderCalls.NoSubstitution))
    ensures t.token.value.Required? ==> (RenderedNode(t, cmdMgr, side, indent) ==
      Branch(t, OpenArgument(indent, cmdMgr, t.token.value.name, t.token.value.ty), cmdMgr, side, indent, CommanderCalls.NoSubstitution))
  {
  }

  lemma OptionalNodeSplit(t: Tree, name: string, ty: ArgType, d: string, cmdMgr: string, side: Side, indent: nat)
    requires t.token == Some(Optional(name, ty, d))
    ensures RenderedNode(t, cmdMgr, side, indent) ==
      ExecutesPieces(t, side, indent, CommanderCalls.Substitution(Some(OptionalArg(name, ty, d)), None, None, None)) +
      Branch(t, OpenArgument(indent, cmdMgr, name, ty), cmdMgr, side, indent, CommanderCalls.NoSubstitution)
  {
  }

  lemma OptionalEnumNodeSplit(t: Tree, name: string, values: seq<string>, d: string, cmdMgr: string, side: Side, indent: nat)
    requires t.token == Some(OptionalEnum(name, values, d))
    ensures RenderedNode(t, cmdMgr, side, indent) ==
      ExecutesPieces(t, side, indent, CommanderCalls.Substitution(None, Some(OptionalEnumArg(name, values, d)), None, None)) +
      EnumBranches(t, name, values, 0, cmdMgr, side, indent)
  {
  }

  lemma ExecutesBlockSplit(indent: nat, level: nat, call: string)
    ensures ExecutesBlock(indent, level, call) ==
      (if level > 0 then [Requires(indent, level)] else []) +
      [ExecutesOpen(indent)] + [FeedbackDirect(indent, call)] + [ReturnOne(indent)] + [ExecutesClose(indent)]
  {
  }

  // ---- Well-formedness: brackets balance and nothing is emitted above its node's level ----


  lemma ExecutesShaped(t: Tree, side: Side, indent: nat, sub: Substitution)
    ensures Shaped(ExecutesPieces(t, side, indent, sub), indent)
  {
    FlatBalanced(ExecutesPieces(t, side, indent, sub));
  }

  lemma {:induction false} BranchShaped(t: Tree, open: Piece, cmdMgr: string, side: Side, indent: nat, sub: Substitution)
    requires IsOpen(open) && open.indent == indent
    ensures Shaped(Branch(t, open, cmdMgr, side, indent, sub), indent)
    decreases t, 1, 0
  {
    BranchSplit(t, open, cmdMgr, side, indent, sub);
    ExecutesShaped(t, side, indent + 1, sub);
    ChildrenShaped(t, 0, cmdMgr, side, indent + 1);
    ShapedWrap(open, ExecutesPieces(t, side, indent + 1, sub), RenderedChildren(t, 0, cmdMgr, side, indent + 1), indent);
  }

  lemma {:induction false} EnumBranchesShaped(t: Tree, name: string, values: seq<string>, k: nat, cmdMgr: string, side: Side, indent: nat)
    requires k <= |values|
    ensures Shaped(EnumBranches(t, name, values, k, cmdMgr, side, indent), indent)
    decreases t, 2, |values| - k
  {
    if k == |values| {
      FlatBalanced([]);
    } else {
      var b := Branch(t, OpenLiteral(indent, cmdMgr, values[k]), cmdMgr, side, indent, ValueSubstitution(values[k], name));
      EnumCons(t, name, values, k, cmdMgr, side, indent);
      BranchShaped(t, OpenLiteral(indent, cmdMgr, values[k]), cmdMgr, side, indent, ValueSubstitution(values[k], name));
      EnumBranchesShaped(t, name, values, k + 1, cmdMgr, side, indent);
      ShapedAppend(b, EnumBranches(t, name, values, k + 1, cmdMgr, side, indent), indent);
    }
  }

  lemma {:induction false} NodeShaped(t: Tree, cmdMgr: string, side: Side, indent: nat)
    ensures Shaped(RenderedNode(t, cmdMgr, side, indent), indent)
    decreases t, 3, 1
  {
    match t.token
    case None => FlatBalanced([]);
    case Some(Literal(text)) =>
      BranchShaped(t, OpenLiteral(indent, cmdMgr, text), cmdMgr, side, indent, CommanderCalls.NoSubstitution);
    case Some(Required(name, ty)) =>
      BranchShaped(t, OpenArgument(indent, cmdMgr, name, ty), cmdMgr, side, indent, CommanderCalls.NoSubstitution);
    case Some(Optional(name, ty, d)) => OptionalNodeShaped(t, name, ty, d, cmdMgr, side, indent);
    case Some(OptionalEnum(name, values, d)) => OptionalEnumNodeShaped(t, name, values, d, cmdMgr, side, indent);
    case Some(RequiredEnum(_, _)) => FlatBalanced([]);
  }

  lemma {:induction false} OptionalNodeShaped(t: Tree, name: string, ty: ArgType, d: string, cmdMgr: string, side: Side, indent: nat)
    requires t.token == Some(Optional(name, ty, d))
    ensures Shaped(RenderedNode(t, cmdMgr, side, indent), indent)
    decreases t, 3, 0
  {
    var sub := CommanderCalls.Substitution(Some(OptionalArg(name, ty, d)), None, None, None);
    var open := OpenArgument(indent, cmdMgr, name, ty);
    OptionalNodeSplit(t, name, ty, d, cmdMgr, side, indent);
    ExecutesShaped(t, side, indent, sub);
    BranchShaped(t, open, cmdMgr, side, indent, CommanderCalls.NoSubstitution);
    ShapedAppend(ExecutesPieces(t, side, indent, sub), Branch(t, open, cmdMgr, side, indent, CommanderCalls.NoSubstitution), indent);
  }

  lemma {:induction false} OptionalEnumNodeShaped(t: Tree, name: string, values: seq<string>, d: string, cmdMgr: string, side: Side, indent: nat)
    requires t.token == Some(OptionalEnum(name, values, d))
    ensures Shaped(RenderedNode(t, cmdMgr, side, indent), indent)
    decreases t, 3, 0
  {
    var sub := CommanderCalls.Substitution(None, Some(OptionalEnumArg(name, values, d)), None, None);
    OptionalEnumNodeSplit(t, name, values, d, cmdMgr, side, indent);
    ExecutesShaped(t, side, indent, sub);
    EnumBranchesShaped(t, name, values, 0, cmdMgr, side, indent);
    ShapedAppend(ExecutesPieces(t, side, indent, sub), EnumBranches(t, name, values, 0, cmdMgr, side, indent), indent);
  }

  lemma {:induction false} ChildrenShaped(t: Tree, k: nat, cmdMgr: string, side: Side, indent: nat)
    requires k <= |t.children|
    ensures Shaped(RenderedChildren(t, k, cmdMgr, side, indent), indent)
    decreases t, 0, |t.children| - k
  {
    if k == |t.children| {
      FlatBalanced([]);
    } else {
      ChildrenCons(t, k, cmdMgr, side, indent);
      NodeShaped(t.children[k], cmdMgr, side, indent);
      ChildrenShaped(t, k + 1, cmdMgr, side, indent);
      ShapedAppend(RenderedNode(t.children[k], cmdMgr, side, indent), RenderedChildren(t, k + 1, cmdMgr, side, indent), indent);
    }
  }

  /** Every `.then(` bracket `render` opens is closed, never before it is opened, and nothing
      is written left of the base indentation. */
  lemma RenderedBalanced(root: Tree, cmdMgr: string, side: Side, baseIndent: nat)
    ensures Balanced(Rendered(root, cmdMgr, side, baseIndent))
    ensures AtLeast(Rendered(root, cmdMgr, side, baseIndent), baseIndent)
  {
    ChildrenShaped(root, 0, cmdMgr, side, baseIndent);
  }

  // ---- The branches offered at each level ----

  /** The branches a Colonel node offers the player: its literal text or argument name, or
      every value of an optional enum. */
  function Labels(tok: Token): seq<string> {
    match tok
    case Literal(text) => [text]
    case Required(name, _) => [name]
    case Optional(name, _, _) => [name]
    case RequiredEnum(_, _) => []
    case OptionalEnum(_, values, _) => values
  }

  function ChildLabels(children: seq<Tree>): seq<string> {
    if children == [] then []
    else (if children[0].token.Some? then Labels(children[0].token.value) else []) + ChildLabels(children[1..])
  }

  lemma BranchHeads(t: Tree, open: Piece, cmdMgr: string, side: Side, indent: nat, sub: Substitution)
    requires IsOpen(open) && open.indent == indent
    ensures Heads(Branch(t, open, cmdMgr, side, indent, sub), indent) == [OpenLabel(open)]
  {
    BranchSplit(t, open, cmdMgr, side, indent, sub);
    ChildrenShaped(t, 0, cmdMgr, side, indent + 1);
    HeadsWrap(open, ExecutesPieces(t, side, indent + 1, sub), RenderedChildren(t, 0, cmdMgr, side, indent + 1), indent);
  }

  lemma {:induction false} EnumBranchesHeads(t: Tree, name: string, values: seq<string>, k: nat, cmdMgr: string, side: Side, indent: nat)
    requires k <= |values|
    ensures Heads(EnumBranches(t, name, values, k, cmdMgr, side, indent), indent) == values[k..]
    decreases |values| - k
  {
    if k < |values| {
      EnumBranchesHeads(t, name, values, k + 1, cmdMgr, side, indent);
      EnumHeadsStep(t, name, values, k, cmdMgr, side, indent);
    }
  }

  lemma EnumHeadsStep(t: Tree, name: string, values: seq<string>, k: nat, cmdMgr: string, side: Side, indent: nat)
    requires k < |values|
    requires Heads(EnumBranches(t, name, values, k + 1, cmdMgr, side, indent), indent) == values[k + 1..]
    ensures Heads(EnumBranches(t, name, values, k, cmdMgr, side, indent), indent) == values[k..]
  {
    var open := OpenLiteral(indent, cmdMgr, values[k]);
    var b := Branch(t, open, cmdMgr, side, indent, ValueSubstitution(values[k], name));
    var rest := EnumBranches(t, name, values, k + 1, cmdMgr, side, indent);
    EnumCons(t, name, values, k, cmdMgr, side, indent);
    BranchHeads(t, open, cmdMgr, side, indent, ValueSubstitution(values[k], name));
    assert OpenLabel(open) == values[k];
    assert values[k..] == [values[k]] + values[k + 1..];
    HeadsPrepend(b, rest, EnumBranches(t, name, values, k, cmdMgr, side, indent), values[k], values[k + 1..], indent);
  }

  /** A node offers exactly its labels at its own level: one literal branch per value of an
      optional enum, in declaration order, or else the single literal or argument bracket.
      The executes block of an omitted optional argument adds no branch. */
  lemma NodeHeads(t: Tree, cmdMgr: string, side: Side, indent: nat)
    ensures Heads(RenderedNode(t, cmdMgr, side, indent), indent) ==
      if t.token.Some? then Labels(t.token.value) else []
  {
    match t.token
    case None =>
    case Some(Literal(text)) =>
      BranchHeads(t, OpenLiteral(indent, cmdMgr, text), cmdMgr, side, indent, CommanderCalls.NoSubstitution);
    case Some(Required(name, ty)) =>
      BranchHeads(t, OpenArgument(indent, cmdMgr, name, ty), cmdMgr, side, indent, CommanderCalls.NoSubstitution);
    case Some(Optional(name, ty, d)) => OptionalHeads(t, name, ty, d, cmdMgr, side, indent);
    case Some(OptionalEnum(name, values, d)) => OptionalEnumHeads(t, name, values, d, cmdMgr, side, indent);
    case Some(RequiredEnum(_, _)) =>
  }

  lemma OptionalHeads(t: Tree, name: string, ty: ArgType, d: string, cmdMgr: string, side: Side, indent: nat)
    requires t.token == Some(Optional(name, ty, d))
    ensures Heads(RenderedNode(t, cmdMgr, side, indent), indent) == [name]
  {
    var e := ExecutesPieces(t, side, indent, CommanderCalls.Substitution(Some(OptionalArg(name, ty, d)), None, None, None));
    var b := Branch(t, OpenArgument(indent, cmdMgr, name, ty), cmdMgr, side, indent, CommanderCalls.NoSubstitution);
    OptionalNodeSplit(t, name, ty, d, cmdMgr, side, indent);
    BranchHeads(t, OpenArgument(indent, cmdMgr, name, ty), cmdMgr, side, indent, CommanderCalls.NoSubstitution);
    HeadsFlat(e, indent);
    HeadsAppend(e, b, indent);
  }

  lemma OptionalEnumHeads(t: Tree, name: string, values: seq<string>, d: string, cmdMgr: string, side: Side, indent: nat)
    requires t.token == Some(OptionalEnum(name, values, d))
    ensures Heads(RenderedNode(t, cmdMgr, side, indent), indent) == values
  {
    var e := ExecutesPieces(t, side, indent, CommanderCalls.Substitution(None, Some(OptionalEnumArg(name, values, d)), None, None));
    OptionalEnumNodeSplit(t, name, values, d, cmdMgr, side, indent);
    EnumBranchesHeads(t, name, values, 0, cmdMgr, side, indent);
    HeadsFlat(e, indent);
    HeadsAppend(e, EnumBranches(t, name, values, 0, cmdMgr, side, indent), indent);
  }

  /** The branches offered below a node are its children's labels, children in insertion
      order. */
  lemma {:induction false} ChildrenHeads(t: Tree, k: nat, cmdMgr: string, side: Side, indent: nat)
    requires k <= |t.children|
    ensures Heads(RenderedChildren(t, k, cmdMgr, side, indent), indent) == ChildLabels(t.children[k..])
    decreases |t.children| - k
  {
    if k < |t.children| {
      var c := t.children[k];
      ChildrenCons(t, k, cmdMgr, side, indent);
      NodeHeads(c, cmdMgr, side, indent);
      ChildrenHeads(t, k + 1, cmdMgr, side, indent);
      HeadsAppend(RenderedNode(c, cmdMgr, side, indent), RenderedChildren(t, k + 1, cmdMgr, side, indent), indent);
      assert t.children[k..][1..] == t.children[k + 1..];
    }
  }

  // ---- What reaches the calls ----

  /** A flat block containing `p`, followed by more pieces. */
  lemma FlatPrefix(e: seq<Piece>, b: seq<Piece>, p: Piece)
    requires Flat(e) && p in e
    ensures 0 < |e| <= |e + b| && (e + b)[..|e|] == e && (b != [] ==> (e + b)[|e|] == b[0])
  {
    assert (e + b)[..|e|] == e;
  }

  /** An optional argument with an action is first executable without it: before its
      bracket opens, at the parent's level, an executes block whose call passes the
      argument's default. */
  lemma OmittedOptionalFirst(t: Tree, name: string, ty: ArgType, d: string, cmdMgr: string, side: Side, indent: nat)
    requires t.token == Some(Optional(name, ty, d)) && t.action.Some?
    ensures var r := RenderedNode(t, cmdMgr, side, indent);
            var sub := CommanderCalls.Substitution(Some(OptionalArg(name, ty, d)), None, None, None);
            exists k :: 0 < k < |r| && Flat(r[..k]) && r[k] == OpenArgument(indent, cmdMgr, name, ty) &&
              FeedbackDirect(indent, BuildCall(t.action.value, t.visibleArgs, side, sub)) in r[..k]
  {
    var sub := CommanderCalls.Substitution(Some(OptionalArg(name, ty, d)), None, None, None);
    var e := ExecutesPieces(t, side, indent, sub);
    var b := Branch(t, OpenArgument(indent, cmdMgr, name, ty), cmdMgr, side, indent, CommanderCalls.NoSubstitution);
    OptionalNodeSplit(t, name, ty, d, cmdMgr, side, indent);
    FlatPrefix(e, b, FeedbackDirect(indent, BuildCall(t.action.value, t.visibleArgs, side, sub)));
  }

  /** An optional enum with an action is first executable without it: before its first
      value branch, at the parent's level, an executes block whose call passes the enum's
      default for it. */
  lemma OmittedEnumFirst(t: Tree, name: string, values: seq<string>, d: string, cmdMgr: string, side: Side, indent: nat)
    requires t.token == Some(OptionalEnum(name, values, d)) && t.action.Some?
    ensures var r := RenderedNode(t, cmdMgr, side, indent);
            var sub := CommanderCalls.Substitution(None, Some(OptionalEnumArg(name, values, d)), None, None);
            exists k :: 0 < k <= |r| && Flat(r[..k]) && (k < |r| ==> values != [] && r[k] == OpenLiteral(indent, cmdMgr, values[0])) &&
              FeedbackDirect(indent, BuildCall(t.action.value, t.visibleArgs, side, sub)) in r[..k]
  {
    var sub := CommanderCalls.Substitution(None, Some(OptionalEnumArg(name, values, d)), None, None);
    var e := ExecutesPieces(t, side, indent, sub);
    var b := EnumBranches(t, name, values, 0, cmdMgr, side, indent);
    var f := FeedbackDirect(indent, BuildCall(t.action.value, t.visibleArgs, side, sub));
    OptionalEnumNodeSplit(t, name, values, d, cmdMgr, side, indent);
    FlatPrefix(e, b, f);
    EnumBranchesStart(t, name, values, cmdMgr, side, indent);
    var r := e + b;
    assert 0 < |e| <= |r| && Flat(r[..|e|]) && (|e| < |r| ==> values != [] && r[|e|] == OpenLiteral(indent, cmdMgr, values[0])) && f in r[..|e|];
  }

  lemma EnumBranchesStart(t: Tree, name: string, values: seq<string>, cmdMgr: string, side: Side, indent: nat)
    ensures var b := EnumBranches(t, name, values, 0, cmdMgr, side, indent);
            (values == [] <==> b == []) && (b != [] ==> b[0] == OpenLiteral(indent, cmdMgr, values[0]))
  {
    if values != [] {
      var first := Branch(t, OpenLiteral(indent, cmdMgr, values[0]), cmdMgr, side, indent, ValueSubstitution(values[0], name));
      assert first[0] == OpenLiteral(indent, cmdMgr, values[0]);
    }
  }

  /** Each value branch of an optional enum with an action opens with the value's literal
      and runs the node's call with that value fixed for the enum's own argument; the
      children below the branch are rendered with no value fixed. */
  lemma ValueBranchCall(t: Tree, name: string, values: seq<string>, k: nat, cmdMgr: string, side: Side, indent: nat)
    requires t.action.Some? && k < |values|
    ensures var b := Branch(t, OpenLiteral(indent, cmdMgr, values[k]), cmdMgr, side, indent, ValueSubstitution(values[k], name));
      var c := RenderedChildren(t, 0, cmdMgr, side, indent + 1);
      EnumBranches(t, name, values, k, cmdMgr, side, indent)[..|b|] == b &&
      b[0] == OpenLiteral(indent, cmdMgr, values[k]) &&
      FeedbackDirect(indent + 1, BuildCall(t.action.value, t.visibleArgs, side, ValueSubstitution(values[k], name))) in b &&
      |c| < |b| && b[|b| - 1 - |c|..|b| - 1] == c
  {
    var sub := ValueSubstitution(values[k], name);
    var open := OpenLiteral(indent, cmdMgr, values[k]);
    var e := ExecutesPieces(t, side, indent + 1, sub);
    var c := RenderedChildren(t, 0, cmdMgr, side, indent + 1);
    var b := Branch(t, open, cmdMgr, side, indent, sub);
    assert b == [open] + e + c + [Close(indent)] by {
      BranchSplit(t, open, cmdMgr, side, indent, sub);
    }
    assert EnumBranches(t, name, values, k, cmdMgr, side, indent)[..|b|] == b by {
      EnumCons(t, name, values, k, cmdMgr, side, indent);
      PrefixOfAppend(b, EnumBranches(t, name, values, k + 1, cmdMgr, side, indent));
    }
    WrapParts(open, e, c, Close(indent), FeedbackDirect(indent + 1, BuildCall(t.action.value, t.visibleArgs, side, sub)));
  }
}
