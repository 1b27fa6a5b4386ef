/** Colonel, the earlier of the two command languages, parses into the same records as
    Commander except that it has no required enum argument: its tokens are Commander's
    `Literal`, `Required`, `Optional` and `OptionalEnum`, and a command file is just its
    definitions. Its `CommandTreeBuilder.insert` is the same code as Commander's, and its
    `matchToken` agrees with Commander's on these four variants, so a Colonel command tree
    is the Commander tree of the same definitions; what this module proves is that such a
    tree never holds a token Colonel cannot write. */
module ColonelAst {
  import opened Wrappers
  import opened CommanderAst
  import opened CommanderTrie

  /** One of the four token variants of Colonel's grammar. */
  predicate IsColonelToken(t: Token) {
    !t.RequiredEnum?
  }

  /** A definition Colonel's parser can produce. */
  predicate IsColonelDef(c: CommandDef) {
    forall i :: 0 <= i < |c.tokens| ==> IsColonelToken(c.tokens[i])
  }

  /** Colonel's `matchToken`: never true when either side is missing; literals compare their
      text, typed arguments their name and type, optional enums only their name; any other
      pairing is false. It agrees with Commander's on Colonel tokens and never matches a
      required enum. */
  predicate MatchColonelToken(a: Option<Token>, b: Option<Token>)
    ensures MatchColonelToken(a, b) <==> MatchToken(a, b) && !a.value.RequiredEnum?
    ensures MatchColonelToken(a, b) <==>
      a.Some? && b.Some? && IsColonelToken(a.value) && KeyOf(a.value) == KeyOf(b.value)
  {
    if a.None? || b.None? then false
    else
      match (a.value, b.value)
      case (Literal(x), Literal(y)) => x == y
      case (Required(n, t), Required(m, u)) => n == m && t == u
      case (Optional(n, t, _), Optional(m, u, _)) => n == m && t == u
      case (OptionalEnum(n, _, _), OptionalEnum(m, _, _)) => n == m
      case _ => false
  }

  /** Every token of the tree is a Colonel token. */
  predicate ColonelTree(t: Tree)
    decreases t
  {
    (t.token.Some? ==> IsColonelToken(t.token.value)) &&
    forall i :: 0 <= i < |t.children| ==> ColonelTree(t.children[i])
  }

  /** Merging a Colonel path into a Colonel tree keeps it one. */
  lemma {:induction false} InsertedColonel(t: Tree, toks: seq<Token>, a: Action, p: nat, args: seq<Binding>)
    requires ColonelTree(t) && forall i :: 0 <= i < |toks| ==> IsColonelToken(toks[i])
    ensures ColonelTree(Inserted(t, toks, a, p, args))
    decreases |toks|
  {
    if toks != [] {
      var first, rest := toks[0], toks[1..];
      var newArgs := args + BindingOf(first);
      assert forall i :: 0 <= i < |rest| ==> rest[i] == toks[i + 1];
      match FirstMatch(Tokens(t.children), first)
      case Some(i) =>
        InsertedColonel(t.children[i], rest, a, p, newArgs);
      case None =>
        InsertedColonel(Leaf(first), rest, a, p, newArgs);
        var r := Inserted(t, toks, a, p, args);
        assert r.children == t.children + [Inserted(Leaf(first), rest, a, p, newArgs)];
    }
  }

  /** The tree built from Colonel definitions holds only Colonel tokens. */
  lemma {:induction false} BuiltColonel(cmds: seq<CommandDef>)
    requires forall i :: 0 <= i < |cmds| ==> IsColonelDef(cmds[i])
    ensures ColonelTree(Built(cmds))
  {
    if cmds != [] {
      var init, c := cmds[..|cmds| - 1], cmds[|cmds| - 1];
      assert forall i :: 0 <= i < |init| ==> init[i] == cmds[i];
      BuiltColonel(init);
      InsertedColonel(Built(init), c.tokens, c.action, c.permissionLevel, []);
    }
  }
}
