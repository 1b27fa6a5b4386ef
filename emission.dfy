/** The lines the renderer appends to its `StringBuilder`, as values. A rendered command tree
    is a sequence of pieces; its text is the concatenation of the pieces' texts. Both plugin
    variants share this vocabulary; they differ only in the feedback line. */
module Emission {
  import opened Text
  import opened ArgTypes

  datatype Piece =
    | OpenLiteral(indent: nat, cmdMgr: string, text: string)
    | OpenArgument(indent: nat, cmdMgr: string, name: string, ty: ArgType)
    | Close(indent: nat)
    | Requires(indent: nat, level: nat)
    | ExecutesOpen(indent: nat)
    | FeedbackSupplier(indent: nat, call: string)
    | FeedbackDirect(indent: nat, call: string)
    | ReturnOne(indent: nat)
    | ExecutesClose(indent: nat)

  predicate IsOpen(p: Piece) {
    p.OpenLiteral? || p.OpenArgument?
  }

  /** The exact line each piece stands for. */
  function PieceText(p: Piece): string {
    var pad := Pad(p.indent);
    match p
    case OpenLiteral(_, cmdMgr, text) => pad + ".then(" + cmdMgr + ".literal(" + Quote(text) + ")\n"
    case OpenArgument(_, cmdMgr, name, ty) =>
      pad + ".then(" + cmdMgr + ".argument(" + Quote(name) + ", " + ArgFactory(ty) + ")\n"
    case Close(_) => pad + ")\n"
    case Requires(_, level) => pad + ".requires(source -> source.hasPermissionLevel(" + Decimal(level) + "))\n"
    case ExecutesOpen(_) => pad + ".executes(context -> {\n"
    case FeedbackSupplier(_, call) =>
      pad + "    context.getSource().sendFeedback(() -> Text.literal(" + call + "), true);\n"
    case FeedbackDirect(_, call) =>
      pad + "    context.getSource().sendFeedback(Text.literal(" + call + "));\n"
    case ReturnOne(_) => pad + "    return 1;\n"
    case ExecutesClose(_) => pad + "})\n"
  }

  function TextOf(ps: seq<Piece>): string {
    if ps == [] then "" else PieceText(ps[0]) + TextOf(ps[1..])
  }

  lemma TextOfCons(p: Piece, ps: seq<Piece>)
    ensures TextOf([p] + ps) == PieceText(p) + TextOf(ps)
  {
    assert ([p] + ps)[1..] == ps;
  }

  lemma TextOfPair(a: Piece, b: Piece)
    ensures TextOf([a, b]) == PieceText(a) + PieceText(b)
  {
    TextOfCons(a, [b]);
    TextOfCons(b, []);
  }

  lemma {:induction false} TextOfAppend(a: seq<Piece>, b: seq<Piece>)
    ensures TextOf(a + b) == TextOf(a) + TextOf(b)
  {
    if a == [] {
      assert a + b == b;
    } else {
      assert (a + b)[0] == a[0];
      assert (a + b)[1..] == a[1..] + b;
      TextOfAppend(a[1..], b);
    }
  }

  /** Opened minus closed `.then(` brackets. */
  function Net(ps: seq<Piece>): int {
    if ps == [] then 0
    else (if IsOpen(ps[0]) then 1 else if ps[0].Close? then -1 else 0) + Net(ps[1..])
  }

  lemma {:induction false} NetAppend(a: seq<Piece>, b: seq<Piece>)
    ensures Net(a + b) == Net(a) + Net(b)
  {
    if a == [] {
      assert a + b == b;
    } else {
      assert (a + b)[0] == a[0];
      assert (a + b)[1..] == a[1..] + b;
      NetAppend(a[1..], b);
    }
  }

  /** Every `.then(` is closed after it is opened: no prefix closes more than it opened, and
      the whole closes all it opened. */
  predicate Balanced(ps: seq<Piece>) {
    Net(ps) == 0 && forall k :: 0 <= k <= |ps| ==> Net(ps[..k]) >= 0
  }

  /** Pieces that neither open nor close a bracket. */
  predicate Flat(ps: seq<Piece>) {
    forall i :: 0 <= i < |ps| ==> !IsOpen(ps[i]) && !ps[i].Close?
  }

  lemma {:induction false} FlatNet(ps: seq<Piece>)
    requires Flat(ps)
    ensures Net(ps) == 0
  {
    if ps != [] {
      FlatNet(ps[1..]);
    }
  }

  lemma FlatBalanced(ps: seq<Piece>)
    requires Flat(ps)
    ensures Balanced(ps)
  {
    FlatNet(ps);
    forall k | 0 <= k <= |ps|
      ensures Net(ps[..k]) >= 0
    {
      FlatNet(ps[..k]);
    }
  }

  lemma BalancedAppend(a: seq<Piece>, b: seq<Piece>)
    requires Balanced(a) && Balanced(b)
    ensures Balanced(a + b)
  {
    NetAppend(a, b);
    forall k | 0 <= k <= |a + b|
      ensures Net((a + b)[..k]) >= 0
    {
      if k <= |a| {
        assert (a + b)[..k] == a[..k];
      } else {
        assert (a + b)[..k] == a + b[..k - |a|];
        NetAppend(a, b[..k - |a|]);
      }
    }
  }

  /** An opening line, a balanced body and a closing line are balanced. */
  lemma BalancedWrap(open: Piece, body: seq<Piece>, close: Piece)
    requires IsOpen(open) && close.Close? && Balanced(body)
    ensures Balanced([open] + body + [close])
  {
    var w := [open] + body + [close];
    NetAppend([open], body);
    NetAppend([open] + body, [close]);
    forall k | 0 <= k <= |w|
      ensures Net(w[..k]) >= 0
    {
      if k == 0 {
        assert w[..k] == [];
      } else if k <= |body| + 1 {
        assert w[..k] == [open] + body[..k - 1];
        NetAppend([open], body[..k - 1]);
      } else {
        assert w[..k] == w;
      }
    }
  }

  /** The labels of the brackets opened at exactly `indent`, in order: the branches a node
      rendered at that indentation offers to the player. */
  function Heads(ps: seq<Piece>, indent: nat): seq<string> {
    if ps == [] then []
    else
      (match ps[0]
       case OpenLiteral(i, _, text) => if i == indent then [text] else []
       case OpenArgument(i, _, name, _) => if i == indent then [name] else []
       case _ => []) + Heads(ps[1..], indent)
  }

  lemma {:induction false} HeadsAppend(a: seq<Piece>, b: seq<Piece>, indent: nat)
    ensures Heads(a + b, indent) == Heads(a, indent) + Heads(b, indent)
  {
    if a == [] {
      assert a + b == b;
    } else {
      assert (a + b)[0] == a[0];
      assert (a + b)[1..] == a[1..] + b;
      HeadsAppend(a[1..], b, indent);
    }
  }

  /** A branch whose own heads are one label, followed by more pieces. */
  lemma HeadsPrepend(b: seq<Piece>, rest: seq<Piece>, whole: seq<Piece>, head: string, tail: seq<string>, indent: nat)
    requires whole == b + rest && Heads(b, indent) == [head] && Heads(rest, indent) == tail
    ensures Heads(whole, indent) == [head] + tail
  {
    HeadsAppend(b, rest, indent);
  }

  /** The label an opening bracket offers: a literal's word or an argument's name. */
  function OpenLabel(open: Piece): string
    requires IsOpen(open)
  {
    if open.OpenLiteral? then open.text else open.name
  }

  /** All pieces sit at `indent` or deeper. */
  predicate AtLeast(ps: seq<Piece>, indent: nat) {
    forall i :: 0 <= i < |ps| ==> ps[i].indent >= indent
  }

  /** Balanced, and nothing emitted above `indent`. */
  predicate Shaped(ps: seq<Piece>, indent: nat) {
    Balanced(ps) && AtLeast(ps, indent)
  }

  lemma ShapedAppend(a: seq<Piece>, b: seq<Piece>, indent: nat)
    requires Shaped(a, indent) && Shaped(b, indent)
    ensures Shaped(a + b, indent)
  {
    BalancedAppend(a, b);
  }

  /** A bracket around two well-shaped runs one level deeper is well-shaped. */
  lemma ShapedWrap(open: Piece, e: seq<Piece>, c: seq<Piece>, indent: nat)
    requires IsOpen(open) && open.indent == indent && Shaped(e, indent + 1) && Shaped(c, indent + 1)
    ensures Shaped([open] + e + c + [Close(indent)], indent)
  {
    ShapedAppend(e, c, indent + 1);
    BalancedWrap(open, e + c, Close(indent));
    assert [open] + e + c + [Close(indent)] == [open] + (e + c) + [Close(indent)];
  }

  /** Only the bracket itself opens at its own level. */
  lemma HeadsWrap(open: Piece, e: seq<Piece>, c: seq<Piece>, indent: nat)
    requires IsOpen(open) && open.indent == indent && Flat(e) && AtLeast(c, indent + 1)
    ensures Heads([open] + e + c + [Close(indent)], indent) == [OpenLabel(open)]
  {
    HeadsFlat(e, indent);
    HeadsDeeper(c, indent);
    HeadsAppend([open], e, indent);
    HeadsAppend([open] + e, c, indent);
    HeadsAppend([open] + e + c, [Close(indent)], indent);
  }

  /** Where the parts of a bracket sit: the opening line first, every piece of the executes
      run inside, and the children just before the closing line. */
  lemma WrapParts(open: Piece, e: seq<Piece>, c: seq<Piece>, close: Piece, p: Piece)
    requires p in e
    ensures var b := [open] + e + c + [close];
      b[0] == open && p in b && |c| < |b| && b[|b| - 1 - |c|..|b| - 1] == c
  {
    var b := [open] + e + c + [close];
    var i :| 0 <= i < |e| && e[i] == p;
    assert b[1 + i] == p;
    assert b[|b| - 1 - |c|..|b| - 1] == c;
  }

  lemma PrefixOfAppend(a: seq<Piece>, b: seq<Piece>)
    ensures (a + b)[..|a|] == a
  {
  }

  lemma {:induction false} HeadsDeeper(ps: seq<Piece>, indent: nat)
    requires AtLeast(ps, indent + 1)
    ensures Heads(ps, indent) == []
  {
    if ps != [] {
      HeadsDeeper(ps[1..], indent);
    }
  }

  lemma {:induction false} HeadsFlat(ps: seq<Piece>, indent: nat)
    requires Flat(ps)
    ensures Heads(ps, indent) == []
  {
    if ps != [] {
      HeadsFlat(ps[1..], indent);
    }
  }

  // ---- Accounting for a builder that appends piece by piece ----

  lemma TextOfJoin(before: string, a: seq<Piece>, b: seq<Piece>)
    ensures before + TextOf(a) + TextOf(b) == before + TextOf(a + b)
  {
    TextOfAppend(a, b);
  }

  lemma TextOfPrepend(before: string, p: Piece, ps: seq<Piece>)
    ensures before + PieceText(p) + TextOf(ps) == before + TextOf([p] + ps)
  {
    TextOfCons(p, ps);
  }

  lemma TextOfSnoc(ps: seq<Piece>, p: Piece)
    ensures TextOf(ps + [p]) == TextOf(ps) + PieceText(p)
  {
    TextOfAppend(ps, [p]);
    TextOfCons(p, []);
  }

  /** Two runs appended one after the other. */
  lemma TextOfSeq(start: string, mid: string, end: string, a: seq<Piece>, b: seq<Piece>, r: seq<Piece>)
    requires mid == start + TextOf(a) && end == mid + TextOf(b) && r == a + b
    ensures end == start + TextOf(r)
  {
    TextOfJoin(start, a, b);
  }

  /** One step of a loop that appends `whole` run by run: `a` is done, `rest` remains. */
  lemma TextOfStep(before: string, after: string, a: seq<Piece>, rest: seq<Piece>, whole: seq<Piece>, total: string)
    requires after == before + TextOf(a) && whole == a + rest && before + TextOf(whole) == total
    ensures after + TextOf(rest) == total
  {
    TextOfJoin(before, a, rest);
  }

  lemma TextOfNothing(start: string)
    ensures start + TextOf([]) == start
  {
  }

  /** One more line appended after the text of `ps`. */
  lemma TextOfSnocAfter(before: string, ps: seq<Piece>, p: Piece)
    ensures before + TextOf(ps) + PieceText(p) == before + TextOf(ps + [p])
  {
    TextOfSnoc(ps, p);
    Concat2(before, TextOf(ps), PieceText(p));
  }

  /** The text after an opening line, two runs of pieces and a closing line were appended,
      stage by stage. */
  lemma BranchText(start: string, open: Piece, e: seq<Piece>, c: seq<Piece>, close: Piece,
                   afterOpen: string, afterBody: string, end: string)
    requires afterOpen == start + PieceText(open)
    requires afterBody == afterOpen + TextOf(e) + TextOf(c)
    requires end == afterBody + PieceText(close)
    ensures end == start + TextOf([open] + e + c + [close])
  {
    TextOfPrepend(start, open, e);
    TextOfJoin(start, [open] + e, c);
    TextOfSnocAfter(start, [open] + e + c, close);
  }

  /** `sb.append(...)` of one line, with the pieces appended so far since `start`. */
  method Emit(sb: StringBuilder, p: Piece, ghost start: string, ghost done: seq<Piece>)
    requires sb.text == start + TextOf(done)
    modifies sb
    ensures sb.text == start + TextOf(done + [p])
  {
    sb.Append(PieceText(p));
    TextOfSnocAfter(start, done, p);
  }

}
