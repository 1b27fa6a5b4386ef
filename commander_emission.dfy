/** What Commander's `render` writes for a command tree, as a sequence of pieces: the tree is
    walked depth-first, children in insertion order; an enum node becomes one literal branch
    per value; an optional node with an action first gets the executes block that runs
    without it. */
module CommanderEmission {
  import opened Wrappers
  import opened Text
  import opened ArgTypes
  import opened CommanderAst
  import opened CommanderTrie
  import opened CommanderCalls
  import opened Emission

  /** The executes block of a definition with permission level `level` whose feedback line
      carries `call`: the permission guard when the level is positive, then the lambda. */
  function ExecutesBlock(indent: nat, level: nat, call: string): (r: seq<Piece>)
    ensures Flat(r) && forall i :: 0 <= i < |r| ==> r[i].indent == indent
    ensures (exists i :: 0 <= i < |r| && r[i].Requires?) <==> level > 0
    ensures forall i :: 0 <= i < |r| && r[i].Requires? ==> r[i].level == level
    ensures FeedbackSupplier(indent, call) in r
  {
    var body := [ExecutesOpen(indent), FeedbackSupplier(indent, call), ReturnOne(indent), ExecutesClose(indent)];
    if level > 0 then
      var r := [Requires(indent, level)] + body;
      assert r[0].Requires?;
      r
    else body
  }

  /** `appendPermissionAndExecutes`: nothing without an action; otherwise the permission
      guard when the level is positive, then the executes lambda whose feedback line carries
      the generated call. */
  function ExecutesPieces(t: Tree, side: Side, indent: nat, sub: Substitution): (r: seq<Piece>)
    ensures t.action.None? <==> r == []
    ensures Flat(r) && forall i :: 0 <= i < |r| ==> r[i].indent == indent
    ensures (exists i :: 0 <= i < |r| && r[i].Requires?) <==> t.action.Some? && t.permissionLevel > 0
    ensures t.action.Some? ==> FeedbackSupplier(indent, BuildCall(t.action.value, t.visibleArgs, side, sub)) in r
  {
    match t.action
    case None => []
    case Some(a) => ExecutesBlock(indent, t.permissionLevel, BuildCall(a, t.visibleArgs, side, sub))
  }

  lemma ExecutesPiecesShape(t: Tree, side: Side, indent: nat, sub: Substitution)
    requires t.action.Some?
    ensures ExecutesPieces(t, side, indent, sub) ==
      (if t.permissionLevel > 0 then [Requires(indent, t.permissionLevel)] else []) +
      [ExecutesOpen(indent), FeedbackSupplier(indent, BuildCall(t.action.value, t.visibleArgs, side, sub)),
       ReturnOne(indent), ExecutesClose(indent)]
  {
  }

  /** The substitution a branch inherits: only the enum value fixed further up, if any. */
  function Inherited(ev: Option<string>, en: Option<string>): Substitution {
    Substitution(None, None, ev, en)
  }

  /** One `.then(...)` bracket for node `t`: the opening line, the node's own executes block
      one level deeper, its children one level deeper, and the closing line. */
  function Branch(t: Tree, open: Piece, cmdMgr: string, side: Side, indent: nat, ev: Option<string>, en: Option<string>): seq<Piece>
    decreases t, 1, 0
  {
    [open] + ExecutesPieces(t, side, indent + 1, Inherited(ev, en)) +
    RenderedChildren(t, 0, cmdMgr, side, indent + 1, ev, en) + [Close(indent)]
  }

  /** The literal branches of an enum node for `values[k..]`: each fixes its value for the
      node's own call and for everything below. */
  function EnumBranches(t: Tree, name: string, values: seq<string>, k: nat, cmdMgr: string, side: Side, indent: nat): seq<Piece>
    requires k <= |values|
    decreases t, 2, |values| - k
  {
    if k == |values| then []
    else
      Branch(t, OpenLiteral(indent, cmdMgr, values[k]), cmdMgr, side, indent, Some(values[k]), Some(name)) +
      EnumBranches(t, name, values, k + 1, cmdMgr, side, indent)
  }

  /** `renderNode(node, cmdMgr, side, indent, sb, enumValue, enumArgName)`. */
  function RenderedNode(t: Tree, cmdMgr: string, side: Side, indent: nat, ev: Option<string>, en: Option<string>): seq<Piece>
    decreases t, 3, 0
  {
    match t.token
    case None => []
    case Some(Literal(text)) => Branch(t, OpenLiteral(indent, cmdMgr, text), cmdMgr, side, indent, ev, en)
    case Some(Required(name, ty)) => Branch(t, OpenArgument(indent, cmdMgr, name, ty), cmdMgr, side, indent, ev, en)
    case Some(Optional(name, ty, d)) =>
      ExecutesPieces(t, side, indent, Substitution(Some(OptionalArg(name, ty, d)), None, ev, en)) +
      Branch(t, OpenArgument(indent, cmdMgr, name, ty), cmdMgr, side, indent, ev, en)
    case Some(OptionalEnum(name, values, d)) =>
      ExecutesPieces(t, side, indent, Substitution(None, Some(OptionalEnumArg(name, values, d)), None, None)) +
      EnumBranches(t, name, values, 0, cmdMgr, side, indent)
    case Some(RequiredEnum(name, values)) => EnumBranches(t, name, values, 0, cmdMgr, side, indent)
  }

  /** The children `t.children[k..]`, each rendered at `indent`. */
  function RenderedChildren(t: Tree, k: nat, cmdMgr: string, side: Side, indent: nat, ev: Option<string>, en: Option<string>): seq<Piece>
    requires k <= |t.children|
    decreases t, 0, |t.children| - k
  {
    if k == |t.children| then []
    else RenderedNode(t.children[k], cmdMgr, side, indent, ev, en) + RenderedChildren(t, k + 1, cmdMgr, side, indent, ev, en)
  }

  /** `render(root, cmdMgr, side, baseIndent)`: the root's own executes block, if it has an
      action, then its children at the base indentation. */
  function Rendered(root: Tree, cmdMgr: string, side: Side, baseIndent: nat): seq<Piece> {
    ExecutesPieces(root, side, baseIndent, NoSubstitution) + RenderedChildren(root, 0, cmdMgr, side, baseIndent, None, None)
  }

  /** The branches a node offers the player: its literal text or argument name, or every
      value of an enum. */
  function Labels(tok: Token): seq<string> {
    match tok
    case Literal(text) => [text]
    case Required(name, _) => [name]
    case Optional(name, _, _) => [name]
    case RequiredEnum(_, values) => values
    case OptionalEnum(_, values, _) => values
  }

  function ChildLabels(children: seq<Tree>): seq<string> {
    if children == [] then []
    else (if children[0].token.Some? then Labels(children[0].token.value) else []) + ChildLabels(children[1..])
  }

  // ---- One level of unfolding of the render functions ----

  lemma ChildrenCons(t: Tree, i: nat, cmdMgr: string, side: Side, indent: nat, ev: Option<string>, en: Option<string>)
    requires i < |t.children|
    ensures RenderedChildren(t, i, cmdMgr, side, indent, ev, en) ==
            RenderedNode(t.children[i], cmdMgr, side, indent, ev, en) + RenderedChildren(t, i + 1, cmdMgr, side, indent, ev, en)
  {
  }

  lemma EnumCons(t: Tree, name: string, values: seq<string>, k: nat, cmdMgr: string, side: Side, indent: nat)
    requires k < |values|
    ensures EnumBranches(t, name, values, k, cmdMgr, side, indent) ==
            Branch(t, OpenLiteral(indent, cmdMgr, values[k]), cmdMgr, side, indent, Some(values[k]), Some(name)) +
            EnumBranches(t, name, values, k + 1, cmdMgr, side, indent)
  {
  }

  lemma BranchSplit(t: Tree, open: Piece, cmdMgr: string, side: Side, indent: nat, ev: Option<string>, en: Option<string>)
    ensures Branch(t, open, cmdMgr, side, indent, ev, en) ==
            [open] + ExecutesPieces(t, side, indent + 1, Inherited(ev, en)) +
            RenderedChildren(t, 0, cmdMgr, side, indent + 1, ev, en) + [Close(indent)]
  {
  }

  /** A node of a literal, a required argument or a required enum is rendered as its
      bracket or its value branches alone. */
  lemma PlainNodeSplit(t: Tree, cmdMgr: string, side: Side, indent: nat, ev: Option<string>, en: Option<string>)
    requires t.token.Some?
    ensures t.token.value.Literal? ==> (RenderedNode(t, cmdMgr, side, indent, ev, en) ==
      Branch(t, OpenLiteral(indent, cmdMgr, t.token.value.text), cmdMgr, side, indent, ev, en))
    ensures t.token.value.Required? ==> (RenderedNode(t, cmdMgr, side, indent, ev, en) ==
      Branch(t, OpenArgument(indent, cmdMgr, t.token.value.name, t.token.value.ty), cmdMgr, side, indent, ev, en))
    ensures t.token.value.RequiredEnum? ==> (RenderedNode(t, cmdMgr, side, indent, ev, en) ==
      EnumBranches(t, t.token.value.name, t.token.value.values, 0, cmdMgr, side, indent))
  {
  }

  lemma ExecutesBlockSplit(indent: nat, level: nat, call: string)
    ensures ExecutesBlock(indent, level, call) ==
      (if level > 0 then [Requires(indent, level)] else []) +
      [ExecutesOpen(indent)] + [FeedbackSupplier(indent, call)] + [ReturnOne(indent)] + [ExecutesClose(indent)]
  {
  }

  // ---- Well-formedness: brackets balance and nothing is emitted above its node's level ----


  lemma ExecutesShaped(t: Tree, side: Side, indent: nat, sub: Substitution)
    ensures Shaped(ExecutesPieces(t, side, indent, sub), indent)
  {
    FlatBalanced(ExecutesPieces(t, side, indent, sub));
  }

  lemma {:induction false} BranchShaped(t: Tree, open: Piece, cmdMgr: string, side: Side, indent: nat, ev: Option<string>, en: Option<string>)
    requires IsOpen(open) && open.indent == indent
    ensures Shaped(Branch(t, open, cmdMgr, side, indent, ev, en), indent)
    decreases t, 1, 0
  {
    BranchSplit(t, open, cmdMgr, side, indent, ev, en);
    ExecutesShaped(t, side, indent + 1, Inherited(ev, en));
    ChildrenShaped(t, 0, cmdMgr, side, indent + 1, ev, en);
    ShapedWrap(open, ExecutesPieces(t, side, indent + 1, Inherited(ev, en)),
               RenderedChildren(t, 0, cmdMgr, side, indent + 1, ev, en), indent);
  }


  lemma {:induction false} EnumBranchesShaped(t: Tree, name: string, values: seq<string>, k: nat, cmdMgr: string, side: Side, indent: nat)
    requires k <= |values|
    ensures Shaped(EnumBranches(t, name, values, k, cmdMgr, side, indent), indent)
    decreases t, 2, |values| - k
  {
    if k == |values| {
      FlatBalanced([]);
    } else {
      EnumCons(t, name, values, k, cmdMgr, side, indent);
      BranchShaped(t, OpenLiteral(indent, cmdMgr, values[k]), cmdMgr, side, indent, Some(values[k]), Some(name));
      EnumBranchesShaped(t, name, values, k + 1, cmdMgr, side, indent);
      ShapedAppend(Branch(t, OpenLiteral(indent, cmdMgr, values[k]), cmdMgr, side, indent, Some(values[k]), Some(name)),
                   EnumBranches(t, name, values, k + 1, cmdMgr, side, indent), indent);
    }
  }


  lemma {:induction false} NodeShaped(t: Tree, cmdMgr: string, side: Side, indent: nat, ev: Option<string>, en: Option<string>)
    ensures Shaped(RenderedNode(t, cmdMgr, side, indent, ev, en), indent)
    decreases t, 3, 1
  {
    match t.token
    case None => FlatBalanced([]);
    case Some(Literal(text)) => BranchShaped(t, OpenLiteral(indent, cmdMgr, text), cmdMgr, side, indent, ev, en);
    case Some(Required(name, ty)) => BranchShaped(t, OpenArgument(indent, cmdMgr, name, ty), cmdMgr, side, indent, ev, en);
    case Some(Optional(name, ty, d)) => OptionalNodeShaped(t, name, ty, d, cmdMgr, side, indent, ev, en);
    case Some(OptionalEnum(name, values, d)) => OptionalEnumNodeShaped(t, name, values, d, cmdMgr, side, indent, ev, en);
    case Some(RequiredEnum(name, values)) => EnumBranchesShaped(t, name, values, 0, cmdMgr, side, indent);
  }

  lemma {:induction false} OptionalNodeShaped(t: Tree, name: string, ty: ArgType, d: string, cmdMgr: string, side: Side, indent: nat, ev: Option<string>, en: Option<string>)
    requires t.token == Some(Optional(name, ty, d))
    ensures Shaped(RenderedNode(t, cmdMgr, side, indent, ev, en), indent)
    decreases t, 3, 0
  {
    var sub := Substitution(Some(OptionalArg(name, ty, d)), None, ev, en);
    var open := OpenArgument(indent, cmdMgr, name, ty);
    OptionalNodeSplit(t, name, ty, d, cmdMgr, side, indent, ev, en);
    ExecutesShaped(t, side, indent, sub);
    BranchShaped(t, open, cmdMgr, side, indent, ev, en);
    ShapedAppend(ExecutesPieces(t, side, indent, sub), Branch(t, open, cmdMgr, side, indent, ev, en), indent);
  }


  lemma {:induction false} OptionalEnumNodeShaped(t: Tree, name: string, values: seq<string>, d: string, cmdMgr: string, side: Side, indent: nat, ev: Option<string>, en: Option<string>)
    requires t.token == Some(OptionalEnum(name, values, d))
    ensures Shaped(RenderedNode(t, cmdMgr, side, indent, ev, en), indent)
    decreases t, 3, 0
  {
    var sub := Substitution(None, Some(OptionalEnumArg(name, values, d)), None, None);
    OptionalEnumNodeSplit(t, name, values, d, cmdMgr, side, indent, ev, en);
    ExecutesShaped(t, side, indent, sub);
    EnumBranchesShaped(t, name, values, 0, cmdMgr, side, indent);
    ShapedAppend(ExecutesPieces(t, side, indent, sub), EnumBranches(t, name, values, 0, cmdMgr, side, indent), indent);
  }


  lemma {:induction false} ChildrenShaped(t: Tree, k: nat, cmdMgr: string, side: Side, indent: nat, ev: Option<string>, en: Option<string>)
    requires k <= |t.children|
    ensures Shaped(RenderedChildren(t, k, cmdMgr, side, indent, ev, en), indent)
    decreases t, 0, |t.children| - k
  {
    if k == |t.children| {
      FlatBalanced([]);
    } else {
      ChildrenCons(t, k, cmdMgr, side, indent, ev, en);
      NodeShaped(t.children[k], cmdMgr, side, indent, ev, en);
      ChildrenShaped(t, k + 1, cmdMgr, side, indent, ev, en);
      ShapedAppend(RenderedNode(t.children[k], cmdMgr, side, indent, ev, en),
                   RenderedChildren(t, k + 1, cmdMgr, side, indent, ev, en), indent);
    }
  }


  /** Every `.then(` bracket `render` opens is closed, never before it is opened, and nothing
      is written left of the base indentation. */
  lemma RenderedBalanced(root: Tree, cmdMgr: string, side: Side, baseIndent: nat)
    ensures Balanced(Rendered(root, cmdMgr, side, baseIndent))
    ensures AtLeast(Rendered(root, cmdMgr, side, baseIndent), baseIndent)
  {
    ExecutesShaped(root, side, baseIndent, NoSubstitution);
    ChildrenShaped(root, 0, cmdMgr, side, baseIndent, None, None);
    ShapedAppend(ExecutesPieces(root, side, baseIndent, NoSubstitution),
                 RenderedChildren(root, 0, cmdMgr, side, baseIndent, None, None), baseIndent);
  }

  // ---- The branches offered at each level ----

  lemma BranchHeads(t: Tree, open: Piece, cmdMgr: string, side: Side, indent: nat, ev: Option<string>, en: Option<string>)
    requires IsOpen(open) && open.indent == indent
    ensures Heads(Branch(t, open, cmdMgr, side, indent, ev, en), indent) == [OpenLabel(open)]
  {
    BranchSplit(t, open, cmdMgr, side, indent, ev, en);
    ChildrenShaped(t, 0, cmdMgr, side, indent + 1, ev, en);
    HeadsWrap(open, ExecutesPieces(t, side, indent + 1, Inherited(ev, en)),
              RenderedChildren(t, 0, cmdMgr, side, indent + 1, ev, en), indent);
  }


  lemma {:induction false} EnumBranchesHeads(t: Tree, name: string, values: seq<string>, k: nat, cmdMgr: string, side: Side, indent: nat)
    requires k <= |values|
    ensures Heads(EnumBranches(t, name, values, k, cmdMgr, side, indent), indent) == values[k..]
    decreases |values| - k
  {
    if k < |values| {
      EnumBranchesHeads(t, name, values, k + 1, cmdMgr, side, indent);
      EnumHeadsStep(t, name, values, k, cmdMgr, side, indent);
    }
  }

  lemma EnumHeadsStep(t: Tree, name: string, values: seq<string>, k: nat, cmdMgr: string, side: Side, indent: nat)
    requires k < |values|
    requires Heads(EnumBranches(t, name, values, k + 1, cmdMgr, side, indent), indent) == values[k + 1..]
    ensures Heads(EnumBranches(t, name, values, k, cmdMgr, side, indent), indent) == values[k..]
  {
    var open := OpenLiteral(indent, cmdMgr, values[k]);
    var b := Branch(t, open, cmdMgr, side, indent, Some(values[k]), Some(name));
    var rest := EnumBranches(t, name, values, k + 1, cmdMgr, side, indent);
    EnumCons(t, name, values, k, cmdMgr, side, indent);
    BranchHeads(t, open, cmdMgr, side, indent, Some(values[k]), Some(name));
    assert OpenLabel(open) == values[k];
    assert values[k..] == [values[k]] + values[k + 1..];
    HeadsPrepend(b, rest, EnumBranches(t, name, values, k, cmdMgr, side, indent), values[k], values[k + 1..], indent);
  }

  /** A node offers exactly its labels at its own level: one literal branch per enum value,
      in declaration order, or else the single literal or argument bracket. The executes
      block of an omitted optional argument adds no branch. */
  lemma NodeHeads(t: Tree, cmdMgr: string, side: Side, indent: nat, ev: Option<string>, en: Option<string>)
    requires t.token.Some?
    ensures Heads(RenderedNode(t, cmdMgr, side, indent, ev, en), indent) == Labels(t.token.value)
  {
    match t.token.value
    case Literal(text) => BranchHeads(t, OpenLiteral(indent, cmdMgr, text), cmdMgr, side, indent, ev, en);
    case Required(name, ty) => BranchHeads(t, OpenArgument(indent, cmdMgr, name, ty), cmdMgr, side, indent, ev, en);
    case Optional(name, ty, d) => OptionalHeads(t, name, ty, d, cmdMgr, side, indent, ev, en);
    case OptionalEnum(name, values, d) => OptionalEnumHeads(t, name, values, d, cmdMgr, side, indent, ev, en);
    case RequiredEnum(name, values) => EnumBranchesHeads(t, name, values, 0, cmdMgr, side, indent);
  }

  lemma OptionalHeads(t: Tree, name: string, ty: ArgType, d: string, cmdMgr: string, side: Side, indent: nat, ev: Option<string>, en: Option<string>)
    requires t.token == Some(Optional(name, ty, d))
    ensures Heads(RenderedNode(t, cmdMgr, side, indent, ev, en), indent) == [name]
  {
    var e := ExecutesPieces(t, side, indent, Substitution(Some(OptionalArg(name, ty, d)), None, ev, en));
    OptionalNodeSplit(t, name, ty, d, cmdMgr, side, indent, ev, en);
    BranchHeads(t, OpenArgument(indent, cmdMgr, name, ty), cmdMgr, side, indent, ev, en);
    HeadsFlat(e, indent);
    HeadsAppend(e, Branch(t, OpenArgument(indent, cmdMgr, name, ty), cmdMgr, side, indent, ev, en), indent);
  }


  lemma OptionalEnumHeads(t: Tree, name: string, values: seq<string>, d: string, cmdMgr: string, side: Side, indent: nat, ev: Option<string>, en: Option<string>)
    requires t.token == Some(OptionalEnum(name, values, d))
    ensures Heads(RenderedNode(t, cmdMgr, side, indent, ev, en), indent) == values
  {
    var e := ExecutesPieces(t, side, indent, Substitution(None, Some(OptionalEnumArg(name, values, d)), None, None));
    OptionalEnumNodeSplit(t, name, values, d, cmdMgr, side, indent, ev, en);
    EnumBranchesHeads(t, name, values, 0, cmdMgr, side, indent);
    HeadsFlat(e, indent);
    HeadsAppend(e, EnumBranches(t, name, values, 0, cmdMgr, side, indent), indent);
  }


  /** The branches offered below a node are its children's labels, children in insertion
      order. */
  lemma {:induction false} ChildrenHeads(t: Tree, k: nat, cmdMgr: string, side: Side, indent: nat, ev: Option<string>, en: Option<string>)
    requires k <= |t.children|
    ensures Heads(RenderedChildren(t, k, cmdMgr, side, indent, ev, en), indent) == ChildLabels(t.children[k..])
    decreases |t.children| - k
  {
    if k < |t.children| {
      var c := t.children[k];
      ChildrenCons(t, k, cmdMgr, side, indent, ev, en);
      if c.token.Some? {
        NodeHeads(c, cmdMgr, side, indent, ev, en);
      } else {
        assert RenderedNode(c, cmdMgr, side, indent, ev, en) == [];
      }
      ChildrenHeads(t, k + 1, cmdMgr, side, indent, ev, en);
      HeadsAppend(RenderedNode(c, cmdMgr, side, indent, ev, en), RenderedChildren(t, k + 1, cmdMgr, side, indent, ev, en), indent);
      assert t.children[k..][1..] == t.children[k + 1..];
    }
  }


  // ---- Omitted optional arguments ----

  lemma OptionalNodeSplit(t: Tree, name: string, ty: ArgType, d: string, cmdMgr: string, side: Side, indent: nat, ev: Option<string>, en: Option<string>)
    requires t.token == Some(Optional(name, ty, d))
    ensures RenderedNode(t, cmdMgr, side, indent, ev, en) ==
      ExecutesPieces(t, side, indent, Substitution(Some(OptionalArg(name, ty, d)), None, ev, en)) +
      Branch(t, OpenArgument(indent, cmdMgr, name, ty), cmdMgr, side, indent, ev, en)
  {
  }

  lemma OptionalEnumNodeSplit(t: Tree, name: string, values: seq<string>, d: string, cmdMgr: string, side: Side, indent: nat, ev: Option<string>, en: Option<string>)
    requires t.token == Some(OptionalEnum(name, values, d))
    ensures RenderedNode(t, cmdMgr, side, indent, ev, en) ==
      ExecutesPieces(t, side, indent, Substitution(None, Some(OptionalEnumArg(name, values, d)), None, None)) +
      EnumBranches(t, name, values, 0, cmdMgr, side, indent)
  {
  }

  /** A flat block containing `p`, followed by more pieces. */
  lemma FlatPrefix(e: seq<Piece>, b: seq<Piece>, p: Piece)
    requires Flat(e) && p in e
    ensures 0 < |e| <= |e + b| && (e + b)[..|e|] == e && (b != [] ==> (e + b)[|e|] == b[0])
  {
    assert (e + b)[..|e|] == e;
  }

  /** An optional argument with an action is first executable without it: before its
      bracket opens, at the parent's level, an executes block whose call passes the
      argument's default. */
  lemma OmittedOptionalFirst(t: Tree, name: string, ty: ArgType, d: string, cmdMgr: string, side: Side, indent: nat, ev: Option<string>, en: Option<string>)
    requires t.token == Some(Optional(name, ty, d)) && t.action.Some?
    ensures var r := RenderedNode(t, cmdMgr, side, indent, ev, en);
            var sub := Substitution(Some(OptionalArg(name, ty, d)), None, ev, en);
            exists k :: 0 < k < |r| && Flat(r[..k]) && r[k] == OpenArgument(indent, cmdMgr, name, ty) &&
              FeedbackSupplier(indent, BuildCall(t.action.value, t.visibleArgs, side, sub)) in r[..k]
  {
    var sub := Substitution(Some(OptionalArg(name, ty, d)), None, ev, en);
    var e := ExecutesPieces(t, side, indent, sub);
    var b := Branch(t, OpenArgument(indent, cmdMgr, name, ty), cmdMgr, side, indent, ev, en);
    OptionalNodeSplit(t, name, ty, d, cmdMgr, side, indent, ev, en);
    FlatPrefix(e, b, FeedbackSupplier(indent, BuildCall(t.action.value, t.visibleArgs, side, sub)));
  }

  /** An optional enum with an action is first executable without it: before its first
      value branch, at the parent's level, an executes block whose call passes the enum's
      default for it. */
  lemma OmittedEnumFirst(t: Tree, name: string, values: seq<string>, d: string, cmdMgr: string, side: Side, indent: nat, ev: Option<string>, en: Option<string>)
    requires t.token == Some(OptionalEnum(name, values, d)) && t.action.Some?
    ensures var r := RenderedNode(t, cmdMgr, side, indent, ev, en);
            var sub := Substitution(None, Some(OptionalEnumArg(name, values, d)), None, None);
            exists k :: 0 < k <= |r| && Flat(r[..k]) && (k < |r| ==> values != [] && r[k] == OpenLiteral(indent, cmdMgr, values[0])) &&
              FeedbackSupplier(indent, BuildCall(t.action.value, t.visibleArgs, side, sub)) in r[..k]
  {
    var sub := Substitution(None, Some(OptionalEnumArg(name, values, d)), None, None);
    var e := ExecutesPieces(t, side, indent, sub);
    var b := EnumBranches(t, name, values, 0, cmdMgr, side, indent);
    var f := FeedbackSupplier(indent, BuildCall(t.action.value, t.visibleArgs, side, sub));
    OptionalEnumNodeSplit(t, name, values, d, cmdMgr, side, indent, ev, en);
    FlatPrefix(e, b, f);
    EnumBranchesStart(t, name, values, cmdMgr, side, indent);
    var r := e + b;
    assert 0 < |e| <= |r| && Flat(r[..|e|]) && (|e| < |r| ==> values != [] && r[|e|] == OpenLiteral(indent, cmdMgr, values[0])) && f in r[..|e|];
  }

  lemma EnumBranchesStart(t: Tree, name: string, values: seq<string>, cmdMgr: string, side: Side, indent: nat)
    ensures var b := EnumBranches(t, name, values, 0, cmdMgr, side, indent);
            (values == [] <==> b == []) && (b != [] ==> b[0] == OpenLiteral(indent, cmdMgr, values[0]))
  {
    if values != [] {
      var first := Branch(t, OpenLiteral(indent, cmdMgr, values[0]), cmdMgr, side, indent, Some(values[0]), Some(name));
      assert first[0] == OpenLiteral(indent, cmdMgr, values[0]);
    }
  }

  /** Each value branch of an enum with an action opens with the value's literal and runs
      the node's call with that value fixed for the enum's own argument; unlike Colonel, the
      children below the branch are rendered with the value still fixed. */
  lemma ValueBranchCall(t: Tree, name: string, values: seq<string>, k: nat, cmdMgr: string, side: Side, indent: nat)
    requires t.action.Some? && k < |values|
    ensures var b := Branch(t, OpenLiteral(indent, cmdMgr, values[k]), cmdMgr, side, indent, Some(values[k]), Some(name));
      var c := RenderedChildren(t, 0, cmdMgr, side, indent + 1, Some(values[k]), Some(name));
      EnumBranches(t, name, values, k, cmdMgr, side, indent)[..|b|] == b &&
      b[0] == OpenLiteral(indent, cmdMgr, values[k]) &&
      FeedbackSupplier(indent + 1, BuildCall(t.action.value, t.visibleArgs, side, Inherited(Some(values[k]), Some(name)))) in b &&
      |c| < |b| && b[|b| - 1 - |c|..|b| - 1] == c
  {
    var sub := Inherited(Some(values[k]), Some(name));
    var open := OpenLiteral(indent, cmdMgr, values[k]);
    var e := ExecutesPieces(t, side, indent + 1, sub);
    var c := RenderedChildren(t, 0, cmdMgr, side, indent + 1, Some(values[k]), Some(name));
    var b := Branch(t, open, cmdMgr, side, indent, Some(values[k]), Some(name));
    assert b == [open] + e + c + [Close(indent)] by {
      BranchSplit(t, open, cmdMgr, side, indent, Some(values[k]), Some(name));
    }
    assert EnumBranches(t, name, values, k, cmdMgr, side, indent)[..|b|] == b by {
      EnumCons(t, name, values, k, cmdMgr, side, indent);
      PrefixOfAppend(b, EnumBranches(t, name, values, k + 1, cmdMgr, side, indent));
    }
    WrapParts(open, e, c, Close(indent), FeedbackSupplier(indent + 1, BuildCall(t.action.value, t.visibleArgs, side, sub)));
  }
}
