/** The Java call Colonel writes into each `executes` block. Its `resolveArg` and
    `resolveTokenValue` are Commander's, less the required-enum case Colonel has no token
    for, so CommanderCalls' `ResolveArg` and `ResolveTokenValue` stand for both; what
    differs is `buildCall`, which passes the resolved arguments alone, without the command
    context. */
module ColonelCalls {
  import opened Text
  import opened Seqs
  import opened CommanderAst
  import opened CommanderCalls

  /** The argument list of Colonel's call: an explicit call resolves each name it lists, in
      order; an automatic call resolves each visible argument, in path order. It is
      Commander's list without the context at its end. */
  function CallArguments(action: Action, visible: seq<Binding>, side: ArgTypes.Side, sub: Substitution): (r: seq<string>)
    ensures action.ExplicitCall? ==>
      (|r| == |action.args| &&
       forall i :: 0 <= i < |action.args| ==> r[i] == ResolveArg(action.args[i], visible, side, sub))
    ensures action.AutoCall? ==>
      (|r| == |visible| &&
       forall i :: 0 <= i < |visible| ==> r[i] == ResolveTokenValue(visible[i].name, visible[i].token, side, sub))
    ensures r + ["context"] == CommanderCalls.CallArguments(action, visible, side, sub)
  {
    match action
    case ExplicitCall(_, args) => ResolvedRefs(args, visible, side, sub)
    case AutoCall(_) => ResolvedBindings(visible, side, sub)
  }

  /** Colonel's `buildCall`: `function(arg, ...)`. */
  function BuildCall(action: Action, visible: seq<Binding>, side: ArgTypes.Side, sub: Substitution): (r: string)
    ensures StartsWith(r, action.functionName + "(")
    ensures EndsWith(r, ")")
    ensures r == action.functionName + "(" + Join(CallArguments(action, visible, side, sub), ", ") + ")"
  {
    var r := action.functionName + "(" + Join(CallArguments(action, visible, side, sub), ", ") + ")";
    assert r[..|action.functionName + "("|] == action.functionName + "(";
    r
  }

  /** For the same definition, Commander's call is Colonel's with `context` as one more
      argument: `f()` becomes `f(context)` and `f(a, b)` becomes `f(a, b, context)`. */
  lemma CommanderAddsContext(action: Action, visible: seq<Binding>, side: ArgTypes.Side, sub: Substitution)
    ensures var r := BuildCall(action, visible, side, sub);
      CommanderCalls.BuildCall(action, visible, side, sub) ==
        if CallArguments(action, visible, side, sub) == [] then action.functionName + "(context)"
        else r[..|r| - 1] + ", context)"
  {
    var args := CallArguments(action, visible, side, sub);
    var f := action.functionName;
    JoinSnoc(args, "context", ", ");
    assert CommanderCalls.BuildCall(action, visible, side, sub) == f + "(" + Join(args + ["context"], ", ") + ")";
    if args != [] {
      ContextAppended(f, Join(args, ", "));
    }
  }

  lemma ContextAppended(f: string, j: string)
    ensures var r := f + "(" + j + ")"; r[..|r| - 1] + ", context)" == f + "(" + (j + ", " + "context") + ")"
  {
    var r := f + "(" + j + ")";
    assert r[..|r| - 1] == f + "(" + j;
  }

  /** `-> f(a, b, ...)` listing the visible arguments in path order generates the same call
      as `|> f`. */
  lemma ExplicitAllEqualsAuto(f: string, visible: seq<Binding>, side: ArgTypes.Side, sub: Substitution)
    requires Coherent(visible, sub)
    ensures BuildCall(ExplicitCall(f, Names(visible)), visible, side, sub) == BuildCall(AutoCall(f), visible, side, sub)
  {
    var e := CallArguments(ExplicitCall(f, Names(visible)), visible, side, sub);
    var a := CallArguments(AutoCall(f), visible, side, sub);
    forall i | 0 <= i < |visible|
      ensures e[i] == a[i]
    {
      ExplicitAgreesWithAuto(visible, i, side, sub);
    }
    assert e == a;
  }
}
