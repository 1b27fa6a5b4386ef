/** The closed set of argument types, the side selector, and the fixed per-type tables the
    code generator uses: the DSL's type names, the literal written for an omitted optional
    argument, the expression that reads a provided argument, and the argument-type factory.
    Both plugin variants carry identical copies of these tables. */
module ArgTypes {
  import opened Wrappers
  import opened Text

  datatype ArgType = Word | String | GreedyString | BlockPos | Bool | Double | Float | Integer | Long | Entity

  datatype Side = Server | Client

  /** The identifier that names the type in the DSL. */
  function TypeName(t: ArgType): string {
    match t
    case Word => "Word"
    case String => "String"
    case GreedyString => "GreedyString"
    case BlockPos => "BlockPos"
    case Bool => "Bool"
    case Double => "Double"
    case Float => "Float"
    case Integer => "Integer"
    case Long => "Long"
    case Entity => "Entity"
  }

  /** The grammar's `argType` lookup: an exact name match, or the "unknown type" failure. */
  function ParseArgType(text: string): (r: Result<ArgType, string>)
    ensures forall t :: TypeName(t) == text ==> r == Ok(t)
    ensures r.Ok? ==> TypeName(r.value) == text
    ensures r.Err? ==> r.error == "Unknown argument type: " + text
  {
    if text == "Word" then Ok(Word)
    else if text == "String" then Ok(String)
    else if text == "GreedyString" then Ok(GreedyString)
    else if text == "BlockPos" then Ok(BlockPos)
    else if text == "Bool" then Ok(Bool)
    else if text == "Double" then Ok(Double)
    else if text == "Float" then Ok(Float)
    else if text == "Integer" then Ok(Integer)
    else if text == "Long" then Ok(Long)
    else if text == "Entity" then Ok(Entity)
    else Err("Unknown argument type: " + text)
  }

  /** Every type's own name parses back to that type. */
  lemma ParseTypeName(t: ArgType)
    ensures ParseArgType(TypeName(t)) == Ok(t)
  {
    match t
    case Word =>
    case String =>
    case GreedyString =>
    case BlockPos =>
    case Bool =>
    case Double =>
    case Float =>
    case Integer =>
    case Long =>
    case Entity =>
  }

  predicate IsTextual(t: ArgType) {
    t == Word || t == String || t == GreedyString
  }

  /** The Java literal substituted for an omitted optional argument of type `ty` whose
      default was written as `defaultText`. */
  function DefaultValueLiteral(ty: ArgType, defaultText: string): (r: string)
    ensures IsTextual(ty) <==> r == Quote(defaultText)
    ensures ty == Float ==> r == defaultText + "f"
    ensures ty == Bool || ty == Double || ty == Integer || ty == Long ==> r == defaultText
    ensures ty == BlockPos || ty == Entity ==> r == "null"
  {
    match ty
    case Word | String | GreedyString => Quote(defaultText)
    case Bool => defaultText
    case Double => defaultText
    case Float => defaultText + "f"
    case Integer | Long => defaultText
    case BlockPos => "null"
    case Entity => "null"
  }

  /** The Brigadier argument-type class that parses and reads arguments of type `ty`. */
  function ArgumentClass(ty: ArgType): string {
    match ty
    case Word | String | GreedyString => "StringArgumentType"
    case Bool => "BoolArgumentType"
    case Double => "DoubleArgumentType"
    case Float => "FloatArgumentType"
    case Integer => "IntegerArgumentType"
    case Long => "LongArgumentType"
    case BlockPos => "BlockPosArgumentType"
    case Entity => "EntityArgumentType"
  }

  /** The static accessor that reads a provided argument of type `ty`: the argument class's
      own getter, except for a client-side block position, which is read through a helper
      of the generated class. */
  function Getter(ty: ArgType, side: Side): (r: string)
    ensures ty == BlockPos && side == Client ==> r == "getClientBlockPos"
    ensures !(ty == BlockPos && side == Client) ==> StartsWith(r, ArgumentClass(ty) + ".get")
  {
    if ty == BlockPos && side == Client then "getClientBlockPos"
    else
      var c := ArgumentClass(ty) + ".get";
      PrefixOfConcat(c, GetterName(ty));
      c + GetterName(ty)
  }

  function GetterName(ty: ArgType): string {
    match ty
    case Word | String | GreedyString => "String"
    case Bool => "Bool"
    case Double => "Double"
    case Float => "Float"
    case Integer => "Integer"
    case Long => "Long"
    case BlockPos => "BlockPos"
    case Entity => "Entity"
  }

  /** The expression that reads the provided argument `name` of type `ty` from `context`. */
  function ExtractArg(name: string, ty: ArgType, side: Side): (r: string)
    ensures StartsWith(r, Getter(ty, side))
    ensures EndsWith(r, "(context, " + Quote(name) + ")")
  {
    var rest := "(context, " + Quote(name) + ")";
    PrefixOfConcat(Getter(ty, side), rest);
    SuffixOfConcat(Getter(ty, side), rest);
    Getter(ty, side) + rest
  }

  /** The factory that declares an argument of type `ty` in the dispatcher tree: a call
      of a static method of the same argument class that reads it back. */
  function ArgFactory(ty: ArgType): (r: string)
    ensures StartsWith(r, ArgumentClass(ty) + ".")
    ensures EndsWith(r, "()")
  {
    var c := ArgumentClass(ty) + ".";
    var m := FactoryName(ty) + "()";
    PrefixOfConcat(c, m);
    SuffixOfConcat(FactoryName(ty), "()");
    assert c + m == (c + FactoryName(ty)) + "()";
    SuffixOfConcat(c + FactoryName(ty), "()");
    c + m
  }

  function FactoryName(ty: ArgType): string {
    match ty
    case Word => "word"
    case String => "string"
    case GreedyString => "greedyString"
    case Bool => "bool"
    case Double => "doubleArg"
    case Float => "floatArg"
    case Integer => "integer"
    case Long => "longArg"
    case BlockPos => "blockPos"
    case Entity => "entity"
  }

  lemma PrefixOfConcat(a: string, b: string)
    ensures StartsWith(a + b, a)
  {
    assert (a + b)[..|a|] == a;
  }

  lemma SuffixOfConcat(a: string, b: string)
    ensures EndsWith(a + b, b)
  {
    assert (a + b)[|a|..] == b;
  }
}
