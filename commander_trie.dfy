/** The command tree of `CommandTreeBuilder` as a value: what `insert` and `build` compute,
    how a path is looked up in it, and what the merge guarantees. The imperative builder
    in CommanderBuilder is proved to produce exactly these trees. */
module CommanderTrie {
  import opened Wrappers
  import opened CommanderAst

  /** A node: its token (none on the synthetic root), the action of a definition ending
      here with its permission level and visible arguments, and its children in insertion
      order. */
  datatype Tree = Tree(
    token: Option<Token>,
    action: Option<Action>,
    permissionLevel: nat,
    visibleArgs: seq<Binding>,
    children: seq<Tree>)

  /** What a definition ending at a node leaves there. */
  datatype Entry = Entry(action: Action, permissionLevel: nat, visibleArgs: seq<Binding>)

  /** `Node()`: the synthetic root. */
  function Root(): Tree {
    Tree(None, None, 0, [], [])
  }

  /** `Node(token = first)`: a fresh child. */
  function Leaf(tok: Token): Tree {
    Tree(Some(tok), None, 0, [], [])
  }

  function Tokens(children: seq<Tree>): (r: seq<Option<Token>>)
    ensures |r| == |children| && forall i :: 0 <= i < |children| ==> r[i] == children[i].token
  {
    if children == [] then [] else [children[0].token] + Tokens(children[1..])
  }

  lemma TokensAppend(children: seq<Tree>, c: Tree)
    ensures Tokens(children + [c]) == Tokens(children) + [c.token]
  {
    var ext := children + [c];
    assert forall i :: 0 <= i < |children| ==> ext[i] == children[i];
  }

  lemma TokensUpdate(children: seq<Tree>, i: nat, c: Tree)
    requires i < |children| && c.token == children[i].token
    ensures Tokens(children[i := c]) == Tokens(children)
  {
  }

  /** `children.find { matchToken(it.token, tok) }`, as an index: the first sibling whose
      token matches, if any. */
  function FirstMatch(tokens: seq<Option<Token>>, tok: Token): (r: Option<nat>)
    ensures r.Some? ==> r.value < |tokens| && MatchToken(tokens[r.value], Some(tok))
    ensures r.Some? ==> forall j :: 0 <= j < r.value ==> !MatchToken(tokens[j], Some(tok))
    ensures r.None? ==> forall j :: 0 <= j < |tokens| ==> !MatchToken(tokens[j], Some(tok))
  {
    if tokens == [] then None
    else if MatchToken(tokens[0], Some(tok)) then Some(0)
    else
      match FirstMatch(tokens[1..], tok)
      case None => None
      case Some(i) => Some(i + 1)
  }

  /** The search depends only on the key of the token searched for. */
  lemma FirstMatchByKey(tokens: seq<Option<Token>>, x: Token, y: Token)
    requires KeyOf(x) == KeyOf(y)
    ensures FirstMatch(tokens, x) == FirstMatch(tokens, y)
  {
    var a, b := FirstMatch(tokens, x), FirstMatch(tokens, y);
    if a.Some? && b.Some? {
      assert !(a.value < b.value) && !(b.value < a.value);
    }
  }

  /** Appending a sibling does not change an existing match, and is found when nothing
      before it matches. */
  lemma FirstMatchAppend(tokens: seq<Option<Token>>, last: Option<Token>, tok: Token)
    ensures FirstMatch(tokens + [last], tok) ==
      if FirstMatch(tokens, tok).Some? then FirstMatch(tokens, tok)
      else if MatchToken(last, Some(tok)) then Some(|tokens|)
      else None
  {
    var ext := tokens + [last];
    var a, b := FirstMatch(tokens, tok), FirstMatch(ext, tok);
    assert forall j :: 0 <= j < |tokens| ==> ext[j] == tokens[j];
    if a.Some? {
      assert b.Some? && !(a.value < b.value) && !(b.value < a.value);
    } else if MatchToken(last, Some(tok)) {
      assert ext[|tokens|] == last;
      assert b.Some? && b.value == |tokens|;
    }
  }

  /** The node's own data after a definition ends there; its token and children stay. */
  function Terminal(t: Tree, action: Action, perm: nat, args: seq<Binding>): Tree {
    t.(action := Some(action), permissionLevel := perm, visibleArgs := args)
  }

  /** `insert(parent, tokens, action, permLevel, argsSoFar)`: the tree after the definition
      is merged in. Each name-bound token extends the visible arguments; the first child
      matching the head token is descended into, otherwise a fresh child is appended. A
      definition ending at a node, new or old, overwrites its action, level and arguments. */
  function Inserted(t: Tree, tokens: seq<Token>, action: Action, perm: nat, argsSoFar: seq<Binding>): (r: Tree)
    ensures r.token == t.token
    decreases |tokens|
  {
    if tokens == [] then Terminal(t, action, perm, argsSoFar)
    else
      var first, rest := tokens[0], tokens[1..];
      var newArgs := argsSoFar + BindingOf(first);
      match FirstMatch(Tokens(t.children), first)
      case Some(i) => t.(children := t.children[i := Inserted(t.children[i], rest, action, perm, newArgs)])
      case None => t.(children := t.children + [Inserted(Leaf(first), rest, action, perm, newArgs)])
  }

  /** `build(commands)`: every definition inserted into a fresh root, in order. */
  function Built(cmds: seq<CommandDef>): Tree {
    if cmds == [] then Root()
    else
      var c := cmds[|cmds| - 1];
      Inserted(Built(cmds[..|cmds| - 1]), c.tokens, c.action, c.permissionLevel, [])
  }

  /** Following a path of tokens from `t`, by the same search `insert` uses. */
  function Find(t: Tree, path: seq<Token>): Option<Tree>
    decreases path
  {
    if path == [] then Some(t)
    else
      match FirstMatch(Tokens(t.children), path[0])
      case None => None
      case Some(i) => Find(t.children[i], path[1..])
  }

  /** The definition recorded at the end of `path`, if any. */
  function EntryAt(t: Tree, path: seq<Token>): Option<Entry> {
    match Find(t, path)
    case Some(n) => if n.action.Some? then Some(Entry(n.action.value, n.permissionLevel, n.visibleArgs)) else None
    case None => None
  }

  /** The last definition whose path has the given keys, with the arguments its path binds:
      the reference meaning of a built tree. */
  function LastEntry(cmds: seq<CommandDef>, keys: seq<Key>): (r: Option<Entry>)
    ensures r.Some? ==> exists c :: c in cmds && Keys(c.tokens) == keys && r.value == Entry(c.action, c.permissionLevel, Bindings(c.tokens))
    ensures r.None? ==> forall c :: c in cmds ==> Keys(c.tokens) != keys
  {
    if cmds == [] then None
    else
      var c := cmds[|cmds| - 1];
      assert cmds == cmds[..|cmds| - 1] + [c];
      if Keys(c.tokens) == keys then Some(Entry(c.action, c.permissionLevel, Bindings(c.tokens)))
      else LastEntry(cmds[..|cmds| - 1], keys)
  }

  /** The definition found at a path is the last one with that path. */
  lemma {:induction false} LastEntryIsLast(cmds: seq<CommandDef>, keys: seq<Key>, j: nat)
    requires j < |cmds| && Keys(cmds[j].tokens) == keys
    requires forall k :: j < k < |cmds| ==> Keys(cmds[k].tokens) != keys
    ensures LastEntry(cmds, keys) == Some(Entry(cmds[j].action, cmds[j].permissionLevel, Bindings(cmds[j].tokens)))
    decreases |cmds|
  {
    if j < |cmds| - 1 {
      var init := cmds[..|cmds| - 1];
      assert Keys(cmds[|cmds| - 1].tokens) != keys;
      LastEntryIsLast(init, keys, j);
    }
  }

  lemma LeafEntryAt(tok: Token, q: seq<Token>)
    ensures EntryAt(Leaf(tok), q) == None
  {
  }

  lemma KeysCons(q: seq<Token>, toks: seq<Token>)
    requires q != [] && toks != []
    ensures Keys(q) == Keys(toks) <==> KeyOf(q[0]) == KeyOf(toks[0]) && Keys(q[1..]) == Keys(toks[1..])
  {
    if KeyOf(q[0]) == KeyOf(toks[0]) && Keys(q[1..]) == Keys(toks[1..]) {
      assert Keys(q) == [KeyOf(q[0])] + Keys(q[1..]);
      assert Keys(toks) == [KeyOf(toks[0])] + Keys(toks[1..]);
    }
  }

  /** Inserting a definition records it at its own path, under the arguments its path binds,
      and changes the definition found at no other path (last write wins). */
  lemma {:induction false} InsertedEntryAt(t: Tree, toks: seq<Token>, a: Action, p: nat, args: seq<Binding>, q: seq<Token>)
    ensures EntryAt(Inserted(t, toks, a, p, args), q) ==
      if Keys(q) == Keys(toks) then Some(Entry(a, p, args + Bindings(toks))) else EntryAt(t, q)
    decreases |toks|, 1
  {
    var r := Inserted(t, toks, a, p, args);
    if q == [] && toks == [] {
      assert args + Bindings(toks) == args;
    } else if q == [] {
      assert r.action == t.action && r.permissionLevel == t.permissionLevel && r.visibleArgs == t.visibleArgs;
      assert |Keys(q)| != |Keys(toks)|;
    } else if toks == [] {
      assert r.children == t.children;
      assert Find(r, q) == Find(t, q);
      assert |Keys(q)| != |Keys(toks)|;
    } else {
      KeysCons(q, toks);
      if KeyOf(q[0]) == KeyOf(toks[0]) {
        InsertedEntryAtSameHead(t, toks, a, p, args, q);
      } else {
        InsertedEntryAtOtherHead(t, toks, a, p, args, q);
      }
    }
  }

  /** The step of `InsertedEntryAt` where the searched path goes the inserted way: the
      lookup follows the child the insertion descended into or created. */
  lemma {:induction false} InsertedEntryAtSameHead(t: Tree, toks: seq<Token>, a: Action, p: nat, args: seq<Binding>, q: seq<Token>)
    requires toks != [] && q != [] && KeyOf(q[0]) == KeyOf(toks[0])
    ensures EntryAt(Inserted(t, toks, a, p, args), q) ==
      if Keys(q[1..]) == Keys(toks[1..]) then Some(Entry(a, p, args + Bindings(toks))) else EntryAt(t, q)
    decreases |toks|, 0
  {
    var first, rest := toks[0], toks[1..];
    var newArgs := args + BindingOf(first);
    FirstMatchByKey(Tokens(t.children), q[0], first);
    BindingsCons(args, toks);
    match FirstMatch(Tokens(t.children), first)
    case Some(i) =>
      FindInsertedExisting(t, toks, a, p, args, q, i);
      InsertedEntryAt(t.children[i], rest, a, p, newArgs, q[1..]);
    case None =>
      FindInsertedFresh(t, toks, a, p, args, q);
      InsertedEntryAt(Leaf(first), rest, a, p, newArgs, q[1..]);
      LeafEntryAt(first, q[1..]);
  }

  lemma FindInsertedExisting(t: Tree, toks: seq<Token>, a: Action, p: nat, args: seq<Binding>, q: seq<Token>, i: nat)
    requires toks != [] && q != []
    requires FirstMatch(Tokens(t.children), toks[0]) == Some(i) && FirstMatch(Tokens(t.children), q[0]) == Some(i)
    ensures Find(Inserted(t, toks, a, p, args), q) ==
      Find(Inserted(t.children[i], toks[1..], a, p, args + BindingOf(toks[0])), q[1..])
    ensures Find(t, q) == Find(t.children[i], q[1..])
  {
    var r := Inserted(t, toks, a, p, args);
    var child := Inserted(t.children[i], toks[1..], a, p, args + BindingOf(toks[0]));
    assert r.children == t.children[i := child];
    TokensUpdate(t.children, i, child);
  }

  lemma FindInsertedFresh(t: Tree, toks: seq<Token>, a: Action, p: nat, args: seq<Binding>, q: seq<Token>)
    requires toks != [] && q != []
    requires FirstMatch(Tokens(t.children), toks[0]) == None && KeyOf(q[0]) == KeyOf(toks[0])
    ensures Find(Inserted(t, toks, a, p, args), q) ==
      Find(Inserted(Leaf(toks[0]), toks[1..], a, p, args + BindingOf(toks[0])), q[1..])
    ensures Find(t, q) == None
  {
    var r := Inserted(t, toks, a, p, args);
    var tokens := Tokens(t.children);
    var child := Inserted(Leaf(toks[0]), toks[1..], a, p, args + BindingOf(toks[0]));
    FirstMatchByKey(tokens, q[0], toks[0]);
    assert r.children == t.children + [child];
    TokensAppend(t.children, child);
    FirstMatchAppend(tokens, Some(toks[0]), q[0]);
    assert r.children[|tokens|] == child;
  }

  /** The step of `InsertedEntryAt` where the searched path leaves the inserted one at once:
      the lookup meets only children the insertion left alone. */
  lemma InsertedEntryAtOtherHead(t: Tree, toks: seq<Token>, a: Action, p: nat, args: seq<Binding>, q: seq<Token>)
    requires toks != [] && q != [] && KeyOf(q[0]) != KeyOf(toks[0])
    ensures EntryAt(Inserted(t, toks, a, p, args), q) == EntryAt(t, q)
  {
    if FirstMatch(Tokens(t.children), toks[0]).Some? {
      FindOtherExisting(t, toks, a, p, args, q, FirstMatch(Tokens(t.children), toks[0]).value);
    } else {
      FindOtherFresh(t, toks, a, p, args, q);
    }
  }

  lemma FindOtherExisting(t: Tree, toks: seq<Token>, a: Action, p: nat, args: seq<Binding>, q: seq<Token>, i: nat)
    requires toks != [] && q != [] && KeyOf(q[0]) != KeyOf(toks[0])
    requires FirstMatch(Tokens(t.children), toks[0]) == Some(i)
    ensures Find(Inserted(t, toks, a, p, args), q) == Find(t, q)
  {
    var r := Inserted(t, toks, a, p, args);
    var child := Inserted(t.children[i], toks[1..], a, p, args + BindingOf(toks[0]));
    assert r.children == t.children[i := child];
    TokensUpdate(t.children, i, child);
    var k := FirstMatch(Tokens(t.children), q[0]);
    if k.Some? {
      assert k.value != i;
      assert r.children[k.value] == t.children[k.value];
    }
  }

  lemma FindOtherFresh(t: Tree, toks: seq<Token>, a: Action, p: nat, args: seq<Binding>, q: seq<Token>)
    requires toks != [] && q != [] && KeyOf(q[0]) != KeyOf(toks[0])
    requires FirstMatch(Tokens(t.children), toks[0]) == None
    ensures Find(Inserted(t, toks, a, p, args), q) == Find(t, q)
  {
    var r := Inserted(t, toks, a, p, args);
    var tokens := Tokens(t.children);
    var child := Inserted(Leaf(toks[0]), toks[1..], a, p, args + BindingOf(toks[0]));
    assert r.children == t.children + [child];
    TokensAppend(t.children, child);
    FirstMatchAppend(tokens, Some(toks[0]), q[0]);
    var k := FirstMatch(tokens, q[0]);
    if k.Some? {
      assert r.children[k.value] == t.children[k.value];
    }
  }

  /** A built tree holds, at every path, the last definition with that path. */
  lemma {:induction false} BuiltEntryAt(cmds: seq<CommandDef>, q: seq<Token>)
    ensures EntryAt(Built(cmds), q) == LastEntry(cmds, Keys(q))
  {
    if cmds != [] {
      var c := cmds[|cmds| - 1];
      var init := cmds[..|cmds| - 1];
      BuiltEntryAt(init, q);
      InsertedEntryAt(Built(init), c.tokens, c.action, c.permissionLevel, [], q);
      assert [] + Bindings(c.tokens) == Bindings(c.tokens);
      assert LastEntry(cmds, Keys(q)) ==
        if Keys(c.tokens) == Keys(q) then Some(Entry(c.action, c.permissionLevel, Bindings(c.tokens)))
        else LastEntry(init, Keys(q));
    }
  }

  /** Every child has a token and no two siblings match: `insert` never duplicates a node. */
  predicate Merged(t: Tree) {
    (forall i :: 0 <= i < |t.children| ==> t.children[i].token.Some? && Merged(t.children[i])) &&
    (forall i, j :: 0 <= i < j < |t.children| ==> !MatchToken(t.children[i].token, t.children[j].token))
  }

  /** Insertion keeps siblings distinct. */
  lemma {:induction false} InsertedMerged(t: Tree, toks: seq<Token>, a: Action, p: nat, args: seq<Binding>)
    requires Merged(t)
    ensures Merged(Inserted(t, toks, a, p, args))
    decreases |toks|, 1
  {
    if toks != [] {
      match FirstMatch(Tokens(t.children), toks[0])
      case Some(i) => InsertedMergedExisting(t, toks, a, p, args, i);
      case None => InsertedMergedFresh(t, toks, a, p, args);
    }
  }

  lemma {:induction false} InsertedMergedExisting(t: Tree, toks: seq<Token>, a: Action, p: nat, args: seq<Binding>, i: nat)
    requires Merged(t) && toks != [] && FirstMatch(Tokens(t.children), toks[0]) == Some(i)
    ensures Merged(Inserted(t, toks, a, p, args))
    decreases |toks|, 0
  {
    var r := Inserted(t, toks, a, p, args);
    var rest, newArgs := toks[1..], args + BindingOf(toks[0]);
    var child := Inserted(t.children[i], rest, a, p, newArgs);
    InsertedMerged(t.children[i], rest, a, p, newArgs);
    assert r.children == t.children[i := child];
  }

  lemma {:induction false} InsertedMergedFresh(t: Tree, toks: seq<Token>, a: Action, p: nat, args: seq<Binding>)
    requires Merged(t) && toks != [] && FirstMatch(Tokens(t.children), toks[0]) == None
    ensures Merged(Inserted(t, toks, a, p, args))
    decreases |toks|, 0
  {
    var r := Inserted(t, toks, a, p, args);
    var first, rest, newArgs := toks[0], toks[1..], args + BindingOf(toks[0]);
    var child := Inserted(Leaf(first), rest, a, p, newArgs);
    InsertedMerged(Leaf(first), rest, a, p, newArgs);
    assert r == t.(children := t.children + [child]);
    MergedAppend(t, child);
  }

  lemma MergedAppend(t: Tree, child: Tree)
    requires Merged(t) && Merged(child) && child.token.Some?
    requires forall k :: 0 <= k < |Tokens(t.children)| ==> !MatchToken(Tokens(t.children)[k], child.token)
    ensures Merged(t.(children := t.children + [child]))
  {
    var cs := t.children + [child];
    var n := |t.children|;
    forall i | 0 <= i < |cs|
      ensures cs[i].token.Some? && Merged(cs[i])
    {
      if i < n {
        assert cs[i] == t.children[i];
      }
    }
    forall i, j | 0 <= i < j < |cs|
      ensures !MatchToken(cs[i].token, cs[j].token)
    {
      assert cs[i] == t.children[i];
      if j < n {
        assert cs[j] == t.children[j];
      } else {
        assert Tokens(t.children)[i] == cs[i].token;
      }
    }
  }

  /** Every tree `build` returns has distinct siblings throughout. */
  lemma {:induction false} BuiltMerged(cmds: seq<CommandDef>)
    ensures Merged(Built(cmds))
  {
    if cmds != [] {
      var c := cmds[|cmds| - 1];
      BuiltMerged(cmds[..|cmds| - 1]);
      InsertedMerged(Built(cmds[..|cmds| - 1]), c.tokens, c.action, c.permissionLevel, []);
    }
  }

  /** Re-inserting a definition changes nothing: the second pass finds every node the first
      one made, so in particular the node count is unchanged. */
  lemma {:induction false} InsertedTwice(t: Tree, toks: seq<Token>, a: Action, p: nat, args: seq<Binding>)
    ensures Inserted(Inserted(t, toks, a, p, args), toks, a, p, args) == Inserted(t, toks, a, p, args)
    decreases |toks|, 1
  {
    if toks != [] {
      match FirstMatch(Tokens(t.children), toks[0])
      case Some(i) => InsertedTwiceExisting(t, toks, a, p, args, i);
      case None => InsertedTwiceFresh(t, toks, a, p, args);
    }
  }

  lemma {:induction false} InsertedTwiceExisting(t: Tree, toks: seq<Token>, a: Action, p: nat, args: seq<Binding>, i: nat)
    requires toks != [] && FirstMatch(Tokens(t.children), toks[0]) == Some(i)
    ensures Inserted(Inserted(t, toks, a, p, args), toks, a, p, args) == Inserted(t, toks, a, p, args)
    decreases |toks|, 0
  {
    var r := Inserted(t, toks, a, p, args);
    var rest, newArgs := toks[1..], args + BindingOf(toks[0]);
    var child := Inserted(t.children[i], rest, a, p, newArgs);
    assert r.children == t.children[i := child];
    TokensUpdate(t.children, i, child);
    InsertedTwice(t.children[i], rest, a, p, newArgs);
    assert r.children[i := Inserted(child, rest, a, p, newArgs)] == r.children;
  }

  lemma {:induction false} InsertedTwiceFresh(t: Tree, toks: seq<Token>, a: Action, p: nat, args: seq<Binding>)
    requires toks != [] && FirstMatch(Tokens(t.children), toks[0]) == None
    ensures Inserted(Inserted(t, toks, a, p, args), toks, a, p, args) == Inserted(t, toks, a, p, args)
    decreases |toks|, 0
  {
    var r := Inserted(t, toks, a, p, args);
    var tokens := Tokens(t.children);
    var first, rest, newArgs := toks[0], toks[1..], args + BindingOf(toks[0]);
    var child := Inserted(Leaf(first), rest, a, p, newArgs);
    assert r.children == t.children + [child];
    TokensAppend(t.children, child);
    FirstMatchAppend(tokens, Some(first), first);
    InsertedTwice(Leaf(first), rest, a, p, newArgs);
    assert r.children[|tokens| := Inserted(child, rest, a, p, newArgs)] == r.children;
  }
}
