/** The framework classes generated registration code refers to, and the names it imports
    them by. Both plugin variants use the same classes. */
module FrameworkClasses {
  import opened Wrappers
  import opened ArgTypes

  /** The command-manager class the generated code calls. */
  function CommandManager(side: Side): string {
    match side
    case Client => "ClientCommandManager"
    case Server => "CommandManager"
  }

  /** The framework classes generated code may need to import. */
  datatype FrameworkClass =
    | TextClass
    | ManagerClass(side: Side)
    | StringArgumentType
    | BoolArgumentType
    | DoubleArgumentType
    | FloatArgumentType
    | IntegerArgumentType
    | LongArgumentType
    | BlockPosArgumentType
    | EntityArgumentType

  /** The name a class is imported by. Distinct classes have distinct names, so the
      source's `distinct()` over the names drops exactly the repeated classes. */
  function QualifiedName(c: FrameworkClass): string {
    match c
    case TextClass => "net.minecraft.text.Text"
    case ManagerClass(Client) => "net.fabricmc.fabric.api.client.command.v2.ClientCommandManager"
    case ManagerClass(Server) => "net.minecraft.server.command.CommandManager"
    case StringArgumentType => "com.mojang.brigadier.arguments.StringArgumentType"
    case BoolArgumentType => "com.mojang.brigadier.arguments.BoolArgumentType"
    case DoubleArgumentType => "com.mojang.brigadier.arguments.DoubleArgumentType"
    case FloatArgumentType => "com.mojang.brigadier.arguments.FloatArgumentType"
    case IntegerArgumentType => "com.mojang.brigadier.arguments.IntegerArgumentType"
    case LongArgumentType => "com.mojang.brigadier.arguments.LongArgumentType"
    case BlockPosArgumentType => "net.minecraft.command.argument.BlockPosArgumentType"
    case EntityArgumentType => "net.minecraft.command.argument.EntityArgumentType"
  }

  /** Distinct classes are imported by distinct names. */
  lemma QualifiedNameInjective(a: FrameworkClass, b: FrameworkClass)
    ensures QualifiedName(a) == QualifiedName(b) ==> a == b
  {
    if QualifiedName(a) == QualifiedName(b) {
      NameKeyOf(a);
      NameKeyOf(b);
      KeyTableInjective(a, b);
    }
  }

  /** A name's length and the letter thirteen places from its end: enough to tell the
      import names apart. */
  function NameKey(s: string): (int, char) {
    if |s| >= 13 then (|s|, s[|s| - 13]) else (|s|, ' ')
  }

  function KeyTable(c: FrameworkClass): (int, char) {
    match c
    case TextClass => (23, 'a')
    case ManagerClass(Client) => (62, 'o')
    case ManagerClass(Server) => (43, 'o')
    case StringArgumentType => (49, 'g')
    case BoolArgumentType => (47, 'l')
    case DoubleArgumentType => (49, 'e')
    case FloatArgumentType => (48, 't')
    case IntegerArgumentType => (50, 'r')
    case LongArgumentType => (47, 'g')
    case BlockPosArgumentType => (51, 's')
    case EntityArgumentType => (49, 'y')
  }

  lemma KeyTableInjective(a: FrameworkClass, b: FrameworkClass)
    ensures KeyTable(a) == KeyTable(b) ==> a == b
  {
  }

  lemma NameKeyOf(c: FrameworkClass)
    ensures NameKey(QualifiedName(c)) == KeyTable(c)
  {
    if c == TextClass || c.ManagerClass? {
      FixedNameKey(c);
    } else if c == StringArgumentType || c == BoolArgumentType || c == DoubleArgumentType || c == FloatArgumentType {
      BrigadierNameKey(c);
    } else {
      OtherNameKey(c);
    }
  }

  lemma FixedNameKey(c: FrameworkClass)
    requires c == TextClass || c.ManagerClass?
    ensures NameKey(QualifiedName(c)) == KeyTable(c)
  {
    match c
    case TextClass =>
    case ManagerClass(Client) =>
    case ManagerClass(Server) =>
  }

  lemma BrigadierNameKey(c: FrameworkClass)
    requires c == StringArgumentType || c == BoolArgumentType || c == DoubleArgumentType || c == FloatArgumentType
    ensures NameKey(QualifiedName(c)) == KeyTable(c)
  {
  }

  lemma OtherNameKey(c: FrameworkClass)
    requires c == IntegerArgumentType || c == LongArgumentType || c == BlockPosArgumentType || c == EntityArgumentType
    ensures NameKey(QualifiedName(c)) == KeyTable(c)
  {
  }

  /** The argument-type class a typed argument needs: every type has one, and the three
      string types share theirs. */
  function ArgTypeClass(t: ArgType): (c: FrameworkClass)
    ensures c != TextClass && !c.ManagerClass?
  {
    match t
    case Word => StringArgumentType
    case String => StringArgumentType
    case GreedyString => StringArgumentType
    case Bool => BoolArgumentType
    case Double => DoubleArgumentType
    case Float => FloatArgumentType
    case Integer => IntegerArgumentType
    case Long => LongArgumentType
    case BlockPos => BlockPosArgumentType
    case Entity => EntityArgumentType
  }
}
