/** `CommandTreeBuilder.build` and `insert` as the source runs them: mutable nodes whose
    fields are overwritten and whose child lists grow in place. Every node carries the tree
    value it stands for (`Model`) and the nodes below it (`Repr`); the methods are proved to
    leave exactly the tree that CommanderTrie's `Inserted` and `Built` describe. */
module CommanderBuilder {
  import opened Wrappers
  import opened CommanderAst
  import opened CommanderTrie

  /** `CommandTreeBuilder.Node`. */
  class Node {
    const token: Option<Token>
    var action: Option<Action>
    var permissionLevel: nat
    var visibleArgs: seq<Binding>
    var children: seq<Node>

    ghost var Model: Tree
    ghost var Repr: set<Node>

    /** The fields agree with `Model`, every child is valid with its own part of `Model`,
        and the children's footprints are disjoint and exclude this node: the nodes form a
        tree. */
    ghost predicate Valid()
      reads this, Repr
      decreases Repr
    {
      this in Repr &&
      Model.token == token && Model.action == action &&
      Model.permissionLevel == permissionLevel && Model.visibleArgs == visibleArgs &&
      |Model.children| == |children| &&
      (forall i :: 0 <= i < |children| ==>
        children[i] in Repr && children[i].Repr <= Repr && this !in children[i].Repr &&
        children[i].Model == Model.children[i] && children[i].Valid()) &&
      (forall i, j :: 0 <= i < j < |children| ==> children[i].Repr !! children[j].Repr)
    }

    /** `Node(token = token)`: no action, level 0, no visible arguments, no children. */
    constructor (token: Option<Token>)
      ensures Valid() && fresh(Repr)
      ensures Model == Tree(token, None, 0, [], [])
    {
      this.token := token;
      action := None;
      permissionLevel := 0;
      visibleArgs := [];
      children := [];
      Model := Tree(token, None, 0, [], []);
      Repr := {this};
    }

    /** The three assignments made where a definition ends at this node. */
    method SetTerminal(a: Action, perm: nat, args: seq<Binding>)
      requires Valid()
      modifies this
      ensures Valid() && Repr == old(Repr)
      ensures Model == Terminal(old(Model), a, perm, args)
    {
      action := Some(a);
      permissionLevel := perm;
      visibleArgs := args;
      Model := Terminal(Model, a, perm, args);
    }

    /** `children.add(node)` for a fresh node. */
    method AddChild(node: Node)
      requires Valid() && node.Valid() && node.Repr !! Repr
      modifies this
      ensures Valid()
      ensures children == old(children) + [node]
      ensures Model == old(Model).(children := old(Model).children + [node.Model])
      ensures Repr == old(Repr) + node.Repr
    {
      children := children + [node];
      Repr := Repr + node.Repr;
      Model := Model.(children := Model.children + [node.Model]);
    }

    /** The children's tokens are the model's children's tokens. */
    lemma ChildTokens()
      requires Valid()
      ensures NodeTokens(children) == Tokens(Model.children)
    {
    }
  }

  function NodeTokens(nodes: seq<Node>): (r: seq<Option<Token>>)
    ensures |r| == |nodes| && forall i :: 0 <= i < |nodes| ==> r[i] == nodes[i].token
  {
    if nodes == [] then [] else [nodes[0].token] + NodeTokens(nodes[1..])
  }

  /** `insert(parent, tokens, action, permLevel, argsSoFar)`. */
  method Insert(parent: Node, tokens: seq<Token>, action: Action, permLevel: nat, argsSoFar: seq<Binding>)
    requires parent.Valid()
    modifies parent.Repr
    ensures parent.Valid()
    ensures parent.Model == Inserted(old(parent.Model), tokens, action, permLevel, argsSoFar)
    ensures old(parent.Repr) <= parent.Repr && fresh(parent.Repr - old(parent.Repr))
    decreases |tokens|, 3
  {
    if tokens == [] {
      parent.SetTerminal(action, permLevel, argsSoFar);
      return;
    }
    var first := tokens[0];
    var rest := tokens[1..];
    var newArgs := argsSoFar + BindingOf(first);
    parent.ChildTokens();
    var existing := FirstMatch(NodeTokens(parent.children), first);
    match existing {
      case Some(i) =>
        InsertBelow(parent, i, rest, action, permLevel, newArgs);
      case None =>
        var newNode := new Node(Some(first));
        parent.AddChild(newNode);
        InsertBelow(parent, |parent.children| - 1, rest, action, permLevel, newArgs);
    }
  }

  /** The rest of a definition continued below the `i`-th child of `parent`: the child is
      overwritten where the definition ends there, and descended into otherwise. */
  method InsertBelow(parent: Node, i: nat, rest: seq<Token>, action: Action, permLevel: nat, newArgs: seq<Binding>)
    requires parent.Valid() && i < |parent.children|
    modifies parent.Repr
    ensures parent.Valid()
    ensures parent.Model == old(parent.Model).(children := old(parent.Model).children[i :=
      Inserted(old(parent.Model).children[i], rest, action, permLevel, newArgs)])
    ensures old(parent.Repr) <= parent.Repr && fresh(parent.Repr - old(parent.Repr))
    decreases |rest| + 1, 2
  {
    if rest == [] {
      EndAtChild(parent, i, action, permLevel, newArgs);
    } else {
      DescendInto(parent, i, rest, action, permLevel, newArgs);
    }
  }

  /** The definition ends at the `i`-th child of `parent`. */
  method EndAtChild(parent: Node, i: nat, action: Action, permLevel: nat, newArgs: seq<Binding>)
    requires parent.Valid() && i < |parent.children|
    modifies parent.Repr
    ensures parent.Valid() && parent.Repr == old(parent.Repr)
    ensures parent.Model == old(parent.Model).(children := old(parent.Model).children[i :=
      Terminal(old(parent.Model).children[i], action, permLevel, newArgs)])
  {
    var child := parent.children[i];
    child.SetTerminal(action, permLevel, newArgs);
    parent.Model := parent.Model.(children := parent.Model.children[i := child.Model]);
  }

  /** The definition goes on below the `i`-th child of `parent`. */
  method DescendInto(parent: Node, i: nat, rest: seq<Token>, action: Action, permLevel: nat, newArgs: seq<Binding>)
    requires parent.Valid() && i < |parent.children|
    modifies parent.Repr
    ensures parent.Valid()
    ensures parent.Model == old(parent.Model).(children := old(parent.Model).children[i :=
      Inserted(old(parent.Model).children[i], rest, action, permLevel, newArgs)])
    ensures old(parent.Repr) <= parent.Repr && fresh(parent.Repr - old(parent.Repr))
    decreases |rest| + 1, 1
  {
    var child := parent.children[i];
    Insert(child, rest, action, permLevel, newArgs);
    parent.Repr := parent.Repr + child.Repr;
    parent.Model := parent.Model.(children := parent.Model.children[i := child.Model]);
  }

  /** `build(commands)`: a fresh root, then every definition inserted in order. */
  method Build(commands: seq<CommandDef>) returns (root: Node)
    ensures root.Valid() && fresh(root.Repr)
    ensures root.Model == Built(commands)
  {
    root := new Node(None);
    for k := 0 to |commands|
      invariant root.Valid() && fresh(root.Repr)
      invariant root.Model == Built(commands[..k])
    {
      var cmd := commands[k];
      Insert(root, cmd.tokens, cmd.action, cmd.permissionLevel, []);
      assert commands[..k + 1][..k] == commands[..k];
    }
    assert commands[..|commands|] == commands;
  }
}
