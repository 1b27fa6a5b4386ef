/** The parsed form of a Commander command file: tokens, actions and command definitions,
    as the grammar hands them to the code generator. */
module CommanderAst {
  import opened Wrappers
  import opened ArgTypes

  /** One word of a command line. `Required` is `<name:Type>`, `Optional` is
      `[name:Type=default]`, `RequiredEnum` is `<name in [v, ...]>` and `OptionalEnum` is
      `[name in [v, ...]=default]` (an omitted default is the empty string). */
  datatype Token =
    | Literal(text: string)
    | Required(name: string, ty: ArgType)
    | Optional(name: string, ty: ArgType, defaultValue: string)
    | RequiredEnum(name: string, values: seq<string>)
    | OptionalEnum(name: string, values: seq<string>, defaultValue: string)

  /** The `OptionalArg` record of an `Optional` token, passed down when an omitted optional
      argument's default is substituted. */
  datatype OptionalArg = OptionalArg(name: string, ty: ArgType, defaultValue: string)

  /** The `OptionalEnumArg` record of an `OptionalEnum` token. */
  datatype OptionalEnumArg = OptionalEnumArg(name: string, values: seq<string>, defaultValue: string)

  /** `-> f(a, b)` calls `f` with the named arguments; `|> f` calls `f` with every bound
      argument in path order. */
  datatype Action =
    | ExplicitCall(functionName: string, args: seq<string>)
    | AutoCall(functionName: string)

  datatype CommandDef = CommandDef(permissionLevel: nat, tokens: seq<Token>, action: Action)

  datatype CommandFile = CommandFile(imports: seq<string>, commands: seq<CommandDef>)

  /** A `(name, token)` pair recorded for every name-bound token on a command's path. */
  datatype Binding = Binding(name: string, token: Token)

  /** What decides whether two tokens denote the same node: literal text; name and type of a
      typed argument; only the name of an enum argument. The variant is part of the key. */
  datatype Key =
    | LiteralKey(text: string)
    | RequiredKey(name: string, ty: ArgType)
    | OptionalKey(name: string, ty: ArgType)
    | RequiredEnumKey(name: string)
    | OptionalEnumKey(name: string)

  function KeyOf(t: Token): Key {
    match t
    case Literal(text) => LiteralKey(text)
    case Required(name, ty) => RequiredKey(name, ty)
    case Optional(name, ty, _) => OptionalKey(name, ty)
    case RequiredEnum(name, _) => RequiredEnumKey(name)
    case OptionalEnum(name, _, _) => OptionalEnumKey(name)
  }

  function Keys(ts: seq<Token>): (r: seq<Key>)
    ensures |r| == |ts| && forall i :: 0 <= i < |ts| ==> r[i] == KeyOf(ts[i])
  {
    if ts == [] then [] else [KeyOf(ts[0])] + Keys(ts[1..])
  }

  /** `CommandTreeBuilder.matchToken`: never true when either side is missing; otherwise the
      variants must agree, literals compare their text, typed arguments their name and type,
      enum arguments only their name. Equivalently, the two keys are equal. */
  predicate MatchToken(a: Option<Token>, b: Option<Token>)
    ensures MatchToken(a, b) <==> a.Some? && b.Some? && KeyOf(a.value) == KeyOf(b.value)
  {
    if a.None? || b.None? then false
    else
      match (a.value, b.value)
      case (Literal(x), Literal(y)) => x == y
      case (Required(n, t), Required(m, u)) => n == m && t == u
      case (Optional(n, t, _), Optional(m, u, _)) => n == m && t == u
      case (RequiredEnum(n, _), RequiredEnum(m, _)) => n == m
      case (OptionalEnum(n, _, _), OptionalEnum(m, _, _)) => n == m
      case _ => false
  }

  /** The binding a token contributes to the arguments visible below it: none for a literal,
      its own `(name, token)` pair otherwise. */
  function BindingOf(t: Token): (r: seq<Binding>)
    ensures t.Literal? <==> r == []
    ensures !t.Literal? ==> r == [Binding(t.name, t)]
  {
    if t.Literal? then [] else [Binding(t.name, t)]
  }

  /** The bindings of a whole path, left to right. */
  function Bindings(ts: seq<Token>): (r: seq<Binding>)
    ensures forall i :: 0 <= i < |r| ==> !r[i].token.Literal? && r[i].token in ts && r[i].name == r[i].token.name
    ensures |r| <= |ts|
  {
    if ts == [] then [] else BindingOf(ts[0]) + Bindings(ts[1..])
  }

  /** Binding a path piecewise is binding it whole. */
  lemma {:induction false} BindingsAppend(a: seq<Token>, b: seq<Token>)
    ensures Bindings(a + b) == Bindings(a) + Bindings(b)
  {
    if a == [] {
      assert a + b == b;
    } else {
      assert (a + b)[0] == a[0];
      assert (a + b)[1..] == a[1..] + b;
      BindingsAppend(a[1..], b);
    }
  }

  /** Extending the bindings so far by a path's first token, then by the rest of it. */
  lemma BindingsCons(args: seq<Binding>, ts: seq<Token>)
    requires ts != []
    ensures args + Bindings(ts) == (args + BindingOf(ts[0])) + Bindings(ts[1..])
  {
    assert Bindings(ts) == BindingOf(ts[0]) + Bindings(ts[1..]);
  }

  /** A path of arguments only binds every token, in order. */
  lemma {:induction false} BindingsOfArguments(ts: seq<Token>)
    requires forall i :: 0 <= i < |ts| ==> !ts[i].Literal?
    ensures |Bindings(ts)| == |ts|
    ensures forall i :: 0 <= i < |ts| ==> Bindings(ts)[i] == Binding(ts[i].name, ts[i])
  {
    if ts != [] {
      BindingsOfArguments(ts[1..]);
    }
  }
}
