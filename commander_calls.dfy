/** The Java call written into each `executes` block of a Commander command:
    `buildCall`, `resolveArg` and `resolveTokenValue`. Every argument is either read from the
    Brigadier context, replaced by the literal of an omitted optional argument, or replaced
    by the enum value the enclosing literal branch stands for; the context itself is always
    passed last. */
module CommanderCalls {
  import opened Wrappers
  import opened Text
  import opened Seqs
  import opened ArgTypes
  import opened CommanderAst

  /** The optional parameters `appendPermissionAndExecutes` forwards to `buildCall`: the
      omitted optional argument whose default is substituted, the omitted optional enum
      argument, and the enum value the current branch stands for together with the name of
      its argument. */
  datatype Substitution = Substitution(
    optionalDefault: Option<OptionalArg>,
    optionalEnumDefault: Option<OptionalEnumArg>,
    enumValue: Option<string>,
    enumArgName: Option<string>)

  const NoSubstitution := Substitution(None, None, None, None)

  predicate IsEnum(t: Token) {
    t.RequiredEnum? || t.OptionalEnum?
  }

  /** Is `name` the omitted optional argument whose default stands in for it? */
  predicate IsOmittedOptional(name: string, sub: Substitution) {
    sub.optionalDefault.Some? && name == sub.optionalDefault.value.name
  }

  /** Is the enum argument `name` (of `token`) the one whose value the current branch fixes?
      Without a recorded argument name, the token's own name is compared. */
  predicate IsBranchEnum(name: string, token: Token, sub: Substitution)
    requires IsEnum(token)
  {
    sub.enumValue.Some? && name == sub.enumArgName.GetOr(token.name)
  }

  predicate IsQuoted(s: string) {
    |s| >= 2 && s[0] == '"' && s[|s| - 1] == '"'
  }

  function DefaultLiteral(arg: OptionalArg): string {
    DefaultValueLiteral(arg.ty, arg.defaultValue)
  }

  /** `resolveTokenValue`: the Java expression passed for the visible argument `name`
      bound to `token`. */
  function ResolveTokenValue(name: string, token: Token, side: Side, sub: Substitution): (r: string)
    ensures (token.Required? || (token.Optional? && !IsOmittedOptional(name, sub))) ==>
      r == ExtractArg(name, token.ty, side)
    ensures token.Optional? && IsOmittedOptional(name, sub) ==> r == DefaultLiteral(sub.optionalDefault.value)
    ensures IsEnum(token) ==> IsQuoted(r)
    ensures IsEnum(token) && IsBranchEnum(name, token, sub) ==> r == Quote(sub.enumValue.value)
    ensures token.RequiredEnum? && !IsBranchEnum(name, token, sub) ==> r == Quote("")
    ensures token.OptionalEnum? && !IsBranchEnum(name, token, sub) ==>
      r == Quote(if sub.optionalEnumDefault.Some? then sub.optionalEnumDefault.value.defaultValue
                 else token.defaultValue)
    ensures token.Literal? ==> r == Quote(token.text)
  {
    match token
    case Required(_, ty) => ExtractArg(name, ty, side)
    case Optional(_, ty, _) =>
      if sub.optionalDefault.Some? && name == sub.optionalDefault.value.name then
        DefaultLiteral(sub.optionalDefault.value)
      else ExtractArg(name, ty, side)
    case OptionalEnum(tokenName, _, d) =>
      if sub.enumValue.Some? && name == sub.enumArgName.GetOr(tokenName) then Quote(sub.enumValue.value)
      else Quote(if sub.optionalEnumDefault.Some? then sub.optionalEnumDefault.value.defaultValue else d)
    case RequiredEnum(tokenName, _) =>
      if sub.enumValue.Some? && name == sub.enumArgName.GetOr(tokenName) then Quote(sub.enumValue.value)
      else Quote("")
    case Literal(text) => Quote(text)
  }

  function Names(bs: seq<Binding>): (r: seq<string>)
    ensures |r| == |bs| && forall i :: 0 <= i < |bs| ==> r[i] == bs[i].name
  {
    if bs == [] then [] else [bs[0].name] + Names(bs[1..])
  }

  /** `visibleArgs.find { it.first == name }`: the position of the first binding of `name`. */
  function FindBinding(bs: seq<Binding>, name: string): (r: Option<nat>)
    ensures r.None? <==> name !in Names(bs)
    ensures r.Some? ==>
      (r.value < |bs| && bs[r.value].name == name &&
       forall j :: 0 <= j < r.value ==> bs[j].name != name)
  {
    if bs == [] then None
    else if bs[0].name == name then Some(0)
    else
      var rest := FindBinding(bs[1..], name);
      assert Names(bs) == [bs[0].name] + Names(bs[1..]);
      assert forall j :: 1 <= j < |bs| ==> bs[j] == bs[1..][j - 1];
      if rest.None? then None else Some(rest.value + 1)
  }

  /** Is `argRef` one of the names a substitution overrides? */
  predicate IsSubstituted(argRef: string, sub: Substitution) {
    sub.enumArgName == Some(argRef) ||
    IsOmittedOptional(argRef, sub) ||
    (sub.optionalEnumDefault.Some? && argRef == sub.optionalEnumDefault.value.name)
  }

  /** `resolveArg`: the Java expression passed for the name `argRef` written in an explicit
      call. The substituted enum, the omitted optional argument and the omitted optional enum
      win over the visible arguments, in that order; a visible argument is resolved with only
      the enum substitution still in force; any other reference is passed as a string
      literal of its own text. */
  function ResolveArg(argRef: string, visible: seq<Binding>, side: Side, sub: Substitution): (r: string)
    ensures sub.enumArgName == Some(argRef) ==>
      r == Quote(if sub.enumValue.Some? then sub.enumValue.value
                 else if sub.optionalEnumDefault.Some? then sub.optionalEnumDefault.value.defaultValue
                 else "")
    ensures sub.enumArgName != Some(argRef) && IsOmittedOptional(argRef, sub) ==>
      r == DefaultLiteral(sub.optionalDefault.value)
    ensures sub.enumArgName != Some(argRef) && !IsOmittedOptional(argRef, sub) &&
            sub.optionalEnumDefault.Some? && argRef == sub.optionalEnumDefault.value.name ==>
      r == Quote(sub.optionalEnumDefault.value.defaultValue)
    ensures !IsSubstituted(argRef, sub) && argRef in Names(visible) ==>
      exists i :: 0 <= i < |visible| && visible[i].name == argRef &&
        (forall j :: 0 <= j < i ==> visible[j].name != argRef) &&
        r == ResolveTokenValue(argRef, visible[i].token, side, sub.(optionalDefault := None, optionalEnumDefault := None))
    ensures !IsSubstituted(argRef, sub) && argRef !in Names(visible) ==> r == Quote(argRef)
  {
    if sub.enumArgName.Some? && argRef == sub.enumArgName.value then
      Quote(if sub.enumValue.Some? then sub.enumValue.value
            else if sub.optionalEnumDefault.Some? then sub.optionalEnumDefault.value.defaultValue
            else "")
    else if sub.optionalDefault.Some? && argRef == sub.optionalDefault.value.name then
      DefaultLiteral(sub.optionalDefault.value)
    else if sub.optionalEnumDefault.Some? && argRef == sub.optionalEnumDefault.value.name then
      Quote(sub.optionalEnumDefault.value.defaultValue)
    else
      match FindBinding(visible, argRef)
      case Some(i) =>
        ResolveTokenValue(visible[i].name, visible[i].token, side, Substitution(None, None, sub.enumValue, sub.enumArgName))
      case None => Quote(argRef)
  }

  function ResolvedRefs(refs: seq<string>, visible: seq<Binding>, side: Side, sub: Substitution): (r: seq<string>)
    ensures |r| == |refs| && forall i :: 0 <= i < |refs| ==> r[i] == ResolveArg(refs[i], visible, side, sub)
  {
    if refs == [] then [] else [ResolveArg(refs[0], visible, side, sub)] + ResolvedRefs(refs[1..], visible, side, sub)
  }

  function ResolvedBindings(bs: seq<Binding>, side: Side, sub: Substitution): (r: seq<string>)
    ensures |r| == |bs| && forall i :: 0 <= i < |bs| ==> r[i] == ResolveTokenValue(bs[i].name, bs[i].token, side, sub)
  {
    if bs == [] then [] else [ResolveTokenValue(bs[0].name, bs[0].token, side, sub)] + ResolvedBindings(bs[1..], side, sub)
  }

  /** The argument list of the call: an explicit call resolves each name it lists, in order;
      an automatic call resolves each visible argument, in path order; both end with the
      command context. */
  function CallArguments(action: Action, visible: seq<Binding>, side: Side, sub: Substitution): (r: seq<string>)
    ensures action.ExplicitCall? ==>
      (|r| == |action.args| + 1 &&
       forall i :: 0 <= i < |action.args| ==> r[i] == ResolveArg(action.args[i], visible, side, sub))
    ensures action.AutoCall? ==>
      (|r| == |visible| + 1 &&
       forall i :: 0 <= i < |visible| ==> r[i] == ResolveTokenValue(visible[i].name, visible[i].token, side, sub))
    ensures |r| > 0 && r[|r| - 1] == "context"
  {
    match action
    case ExplicitCall(_, args) => ResolvedRefs(args, visible, side, sub) + ["context"]
    case AutoCall(_) => ResolvedBindings(visible, side, sub) + ["context"]
  }

  /** `buildCall`: `function(arg, ..., context)`. */
  function BuildCall(action: Action, visible: seq<Binding>, side: Side, sub: Substitution): (r: string)
    ensures StartsWith(r, action.functionName + "(")
    ensures EndsWith(r, "context)")
    ensures r == action.functionName + "(" + Join(CallArguments(action, visible, side, sub), ", ") + ")"
  {
    var args := CallArguments(action, visible, side, sub);
    var j := Join(args, ", ");
    var r := action.functionName + "(" + j + ")";
    assert StartsWith(r, action.functionName + "(") by {
      assert r[..|action.functionName + "("|] == action.functionName + "(";
    }
    assert EndsWith(r, "context)") by {
      JoinEnds(args, ", ");
      assert r[|r| - |"context)"|..] == j[|j| - |"context"|..] + ")";
    }
    r
  }

  /** The conditions under which naming arguments and visible bindings agree: names are
      unique, an enum name or value is only ever given together with the other, and each
      substituted name belongs to a binding of the matching kind. The last condition also
      requires every optional enum in view to be the omitted one. */
  predicate Coherent(visible: seq<Binding>, sub: Substitution) {
    NoDuplicates(Names(visible)) &&
    (sub.enumValue.Some? <==> sub.enumArgName.Some?) &&
    (forall b :: b in visible && sub.enumArgName == Some(b.name) ==> IsEnum(b.token)) &&
    (forall b :: b in visible && IsOmittedOptional(b.name, sub) ==> b.token.Optional?) &&
    (forall b :: b in visible && sub.optionalEnumDefault.Some? && b.name == sub.optionalEnumDefault.value.name ==>
       b.token.OptionalEnum?) &&
    (forall b :: b in visible && sub.optionalEnumDefault.Some? && b.token.OptionalEnum? ==>
       b.name == sub.optionalEnumDefault.value.name)
  }

  /** With unique names, the first binding of a name is the only one. */
  lemma {:induction false} FindUnique(visible: seq<Binding>, i: nat)
    requires NoDuplicates(Names(visible)) && i < |visible|
    ensures FindBinding(visible, visible[i].name) == Some(i)
  {
    if i > 0 {
      var names, tail := Names(visible), visible[1..];
      assert names == [visible[0].name] + Names(tail);
      assert names[0] != names[i];
      assert tail[i - 1] == visible[i];
      FindUnique(tail, i - 1);
    }
  }

  /** A binding whose name no substitution overrides resolves the same with or without the
      omitted-default parameters, as long as no optional enum is being defaulted. */
  lemma PlainResolution(b: Binding, side: Side, sub: Substitution)
    requires !IsOmittedOptional(b.name, sub) && sub.optionalEnumDefault.None?
    ensures ResolveTokenValue(b.name, b.token, side, Substitution(None, None, sub.enumValue, sub.enumArgName)) ==
            ResolveTokenValue(b.name, b.token, side, sub)
  {
  }

  /** Naming a visible argument in an explicit call passes what an automatic call passes
      for it. */
  lemma ExplicitAgreesWithAuto(visible: seq<Binding>, i: nat, side: Side, sub: Substitution)
    requires Coherent(visible, sub) && i < |visible|
    ensures ResolveArg(visible[i].name, visible, side, sub) ==
            ResolveTokenValue(visible[i].name, visible[i].token, side, sub)
  {
    var b := visible[i];
    assert b in visible;
    if sub.enumArgName == Some(b.name) {
      assert IsEnum(b.token) && sub.enumValue.Some?;
    } else if IsOmittedOptional(b.name, sub) {
      assert b.token.Optional?;
    } else if sub.optionalEnumDefault.Some? && b.name == sub.optionalEnumDefault.value.name {
      assert b.token.OptionalEnum?;
    } else {
      FindUnique(visible, i);
      if sub.optionalEnumDefault.Some? {
        assert !b.token.OptionalEnum?;
      } else {
        PlainResolution(b, side, sub);
      }
    }
  }

  /** `-> f(a, b, ...)` listing the visible arguments in path order generates the same call
      as `|> f`. */
  lemma {:induction false} ExplicitAllEqualsAuto(f: string, visible: seq<Binding>, side: Side, sub: Substitution)
    requires Coherent(visible, sub)
    ensures BuildCall(ExplicitCall(f, Names(visible)), visible, side, sub) == BuildCall(AutoCall(f), visible, side, sub)
  {
    var e := CallArguments(ExplicitCall(f, Names(visible)), visible, side, sub);
    var a := CallArguments(AutoCall(f), visible, side, sub);
    forall i | 0 <= i < |visible|
      ensures e[i] == a[i]
    {
      ExplicitAgreesWithAuto(visible, i, side, sub);
    }
    assert e == a;
  }

  /** Two optional enums in view, `a` (default "x") and `b` (default "p"), at the block
      where `b` is omitted. */
  function SharedA(): Binding { Binding("a", OptionalEnum("a", ["x", "y"], "x")) }
  function SharedB(): Binding { Binding("b", OptionalEnum("b", ["p", "q"], "p")) }
  function SharedSub(): Substitution { Substitution(None, Some(OptionalEnumArg("b", ["p", "q"], "p")), None, None) }

  /** Where an omitted optional enum is defaulted, every other optional enum in view is
      passed that same default by `|> f`: the call is `f("p", "p", context)`... */
  lemma OmittedEnumDefaultSharedAuto()
    ensures CallArguments(AutoCall("f"), [SharedA(), SharedB()], Server, SharedSub()) == [Quote("p"), Quote("p"), "context"]
  {
    assert ResolveTokenValue("a", SharedA().token, Server, SharedSub()) == Quote("p");
    assert ResolveTokenValue("b", SharedB().token, Server, SharedSub()) == Quote("p");
  }

  /** ...while `-> f(a, b)` passes each its own default, `f("x", "p", context)`: the last
      condition of `Coherent` cannot be dropped from `ExplicitAllEqualsAuto`. */
  lemma OmittedEnumDefaultSharedExplicit()
    ensures CallArguments(ExplicitCall("f", ["a", "b"]), [SharedA(), SharedB()], Server, SharedSub()) == [Quote("x"), Quote("p"), "context"]
  {
    assert FindBinding([SharedA(), SharedB()], "a") == Some(0);
    assert ResolveArg("a", [SharedA(), SharedB()], Server, SharedSub()) == Quote("x");
    assert ResolveArg("b", [SharedA(), SharedB()], Server, SharedSub()) == Quote("p");
  }
}
