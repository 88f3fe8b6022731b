/** The syntax tree. One datatype holds every node class any pass of the
    compiler uses: the classes defined with the parser (`Program`,
    `FunctionDecl`, `VarDecl`, `ConstDecl`, `Type`, `Assign`, `Var`, `Num`,
    `BinOp`, `FunctionCall`, `Compound`, `Return`) and the ones the loop
    checker and the C++ emitter are written against (`Param`, `Block`,
    `StringLiteral`, `CharLiteral`, `LoopStmt`, `WhileStmt`, `IfExpr`,
    `BreakStmt`, `UnaryOp`). A node's attributes are the constructor's
    parameters, in the order the class assigns them. */
module Ast {
  import opened Wrappers
  import opened Text
  import opened Tokens

  datatype Node =
    | Program(declarations: seq<Node>)
    | FunctionDecl(typeNode: Node, funcName: string, params: seq<Node>, body: Node)
    | Param(typeNode: Node, varNode: Node)
    | VarDecl(typeNode: Node, varNode: Node, assignNode: Option<Node>, isMutable: bool)
    | ConstDecl(typeNode: Node, varNode: Node, assignNode: Option<Node>)
    | Type(token: Token, pointerLevel: nat)
    | Assign(left: Node, op: Token, right: Node)
    | Var(token: Token)
    | Num(token: Token)
    | BinOp(left: Node, op: Token, right: Node)
    | FunctionCall(name: string, args: seq<Node>)
    | Compound(children: seq<Node>)
    | Block(children: seq<Node>)
    | Return(value: Option<Node>)
    | StringLiteral(text: string)
    | CharLiteral(code: int)
    | LoopStmt(body: Node)
    | WhileStmt(condition: Node, body: Node)
    | IfExpr(condition: Node, ifBlock: Node, elseBlock: Option<Node>)
    | BreakStmt
    | UnaryOp(op: Token, expr: Node)

  /** `type(node).__name__`. */
  function ClassName(n: Node): string {
    match n
    case Program(_) => "Program"              case FunctionDecl(_, _, _, _) => "FunctionDecl"
    case Param(_, _) => "Param"               case VarDecl(_, _, _, _) => "VarDecl"
    case ConstDecl(_, _, _) => "ConstDecl"    case Type(_, _) => "Type"
    case Assign(_, _, _) => "Assign"          case Var(_) => "Var"
    case Num(_) => "Num"                      case BinOp(_, _, _) => "BinOp"
    case FunctionCall(_, _) => "FunctionCall" case Compound(_) => "Compound"
    case Block(_) => "Block"                  case Return(_) => "Return"
    case StringLiteral(_) => "StringLiteral"  case CharLiteral(_) => "CharLiteral"
    case LoopStmt(_) => "LoopStmt"            case WhileStmt(_, _) => "WhileStmt"
    case IfExpr(_, _, _) => "IfExpr"          case BreakStmt => "BreakStmt"
    case UnaryOp(_, _) => "UnaryOp"
  }

  function OptList(o: Option<Node>): seq<Node> {
    match o
    case None => []
    case Some(n) => [n]
  }

  /** The AST-valued attributes of a node, in attribute order, with the
      elements of list-valued attributes in place: what `generic_visit` and
      `_has_break` iterate over (`None`, strings and tokens are skipped). */
  function Children(n: Node): seq<Node> {
    match n
    case Program(ds) => ds
    case FunctionDecl(t, _, ps, b) => [t] + ps + [b]
    case Param(t, v) => [t, v]
    case VarDecl(t, v, a, _) => [t, v] + OptList(a)
    case ConstDecl(t, v, a) => [t, v] + OptList(a)
    case Type(_, _) => []
    case Assign(l, _, r) => [l, r]
    case Var(_) => []
    case Num(_) => []
    case BinOp(l, _, r) => [l, r]
    case FunctionCall(_, args) => args
    case Compound(cs) => cs
    case Block(cs) => cs
    case Return(v) => OptList(v)
    case StringLiteral(_) => []
    case CharLiteral(_) => []
    case LoopStmt(b) => [b]
    case WhileStmt(c, b) => [c, b]
    case IfExpr(c, t, e) => [c, t] + OptList(e)
    case BreakStmt => []
    case UnaryOp(_, e) => [e]
  }

  /** The number of nodes in a tree; the termination measure of traversals. */
  function Size(n: Node): nat {
    match n
    case Program(ds) => 1 + SizeList(ds)
    case FunctionDecl(t, _, ps, b) => 1 + Size(t) + SizeList(ps) + Size(b)
    case Param(t, v) => 1 + Size(t) + Size(v)
    case VarDecl(t, v, a, _) => 1 + Size(t) + Size(v) + SizeOpt(a)
    case ConstDecl(t, v, a) => 1 + Size(t) + Size(v) + SizeOpt(a)
    case Assign(l, _, r) => 1 + Size(l) + Size(r)
    case BinOp(l, _, r) => 1 + Size(l) + Size(r)
    case FunctionCall(_, args) => 1 + SizeList(args)
    case Compound(cs) => 1 + SizeList(cs)
    case Block(cs) => 1 + SizeList(cs)
    case Return(v) => 1 + SizeOpt(v)
    case LoopStmt(b) => 1 + Size(b)
    case WhileStmt(c, b) => 1 + Size(c) + Size(b)
    case IfExpr(c, t, e) => 1 + Size(c) + Size(t) + SizeOpt(e)
    case UnaryOp(_, e) => 1 + Size(e)
    case _ => 1
  }

  function SizeOpt(o: Option<Node>): nat {
    match o
    case None => 0
    case Some(n) => Size(n)
  }

  function SizeList(ns: seq<Node>): nat {
    if ns == [] then 0 else Size(ns[0]) + SizeList(ns[1..])
  }

  lemma {:induction false} SizeListAppend(a: seq<Node>, b: seq<Node>)
    ensures SizeList(a + b) == SizeList(a) + SizeList(b)
  {
    if a != [] {
      assert (a + b)[1..] == a[1..] + b;
      SizeListAppend(a[1..], b);
    } else {
      assert a + b == b;
    }
  }

  lemma OptListSize(o: Option<Node>)
    ensures SizeList(OptList(o)) == SizeOpt(o)
  {
    if o.Some? {
      assert OptList(o)[1..] == [];
    }
  }

  lemma SizeListOne(x: Node)
    ensures SizeList([x]) == Size(x)
  {
    assert [x][1..] == [];
  }

  lemma SizeListPair(x: Node, y: Node)
    ensures SizeList([x, y]) == Size(x) + Size(y)
  {
    assert [x, y][1..] == [y];
    SizeListOne(y);
  }

  /** The children of a node account for all of its nodes but itself. */
  lemma {:induction false} ChildrenSize(n: Node)
    ensures SizeList(Children(n)) == Size(n) - 1
  {
    match n
    case FunctionDecl(t, _, ps, b) => FunctionChildrenSize(t, ps, b);
    case Param(t, v) => SizeListPair(t, v);
    case VarDecl(t, v, a, _) => DeclChildrenSize(t, v, a);
    case ConstDecl(t, v, a) => DeclChildrenSize(t, v, a);
    case Assign(l, _, r) => SizeListPair(l, r);
    case BinOp(l, _, r) => SizeListPair(l, r);
    case Return(v) => OptListSize(v);
    case LoopStmt(b) => SizeListOne(b);
    case WhileStmt(c, b) => SizeListPair(c, b);
    case IfExpr(c, t, e) => DeclChildrenSize(c, t, e);
    case UnaryOp(_, e) => SizeListOne(e);
    case _ =>
  }

  lemma FunctionChildrenSize(t: Node, ps: seq<Node>, b: Node)
    ensures SizeList([t] + ps + [b]) == Size(t) + SizeList(ps) + Size(b)
  {
    SizeListAppend([t] + ps, [b]);
    SizeListAppend([t], ps);
    SizeListOne(t);
    SizeListOne(b);
  }

  lemma DeclChildrenSize(x: Node, y: Node, o: Option<Node>)
    ensures SizeList([x, y] + OptList(o)) == Size(x) + Size(y) + SizeOpt(o)
  {
    SizeListAppend([x, y], OptList(o));
    OptListSize(o);
    SizeListPair(x, y);
  }

  /** Every element of a list is smaller than the whole list. */
  lemma {:induction false} SizeListElement(ns: seq<Node>, i: nat)
    requires i < |ns|
    ensures Size(ns[i]) <= SizeList(ns)
  {
    if i > 0 {
      SizeListElement(ns[1..], i - 1);
    }
  }

  /** The nodes of a tree in visiting order: the node, then the nodes of each
      child in turn. */
  function Preorder(n: Node): (r: seq<Node>)
    ensures |r| == Size(n) && r[0] == n
    decreases Size(n), 1
  {
    ChildrenSize(n);
    [n] + PreorderList(Children(n))
  }

  function PreorderList(ns: seq<Node>): (r: seq<Node>)
    ensures |r| == SizeList(ns)
    decreases SizeList(ns), 2
  {
    if ns == [] then []
    else
      SizeListElement(ns, 0);
      Preorder(ns[0]) + PreorderList(ns[1..])
  }

  // ---- `__repr__` of the classes defined with the parser ----

  /** The shapes the parser builds, which are the trees `__repr__` can print:
      only the classes defined with the parser, `Type` and `Var` where
      declarations and assignments read a `.value`, a `Compound` body and no
      parameters in each function. */
  predicate IsCore(n: Node) {
    match n
    case Program(ds) => forall i :: 0 <= i < |ds| ==> IsCore(ds[i])
    case FunctionDecl(t, _, ps, b) => t.Type? && ps == [] && b.Compound? && IsCore(b)
    case VarDecl(t, v, a, _) => t.Type? && v.Var? && (a.Some? ==> IsCore(a.value))
    case ConstDecl(t, v, a) => t.Type? && v.Var? && (a.Some? ==> IsCore(a.value))
    case Type(_, _) => true
    case Assign(l, _, r) => l.Var? && IsCore(r)
    case Var(_) => true
    case Num(_) => true
    case BinOp(l, _, r) => IsCore(l) && IsCore(r)
    case FunctionCall(_, args) => forall i :: 0 <= i < |args| ==> IsCore(args[i])
    case Compound(cs) => forall i :: 0 <= i < |cs| ==> IsCore(cs[i])
    case Return(v) => v.Some? ==> IsCore(v.value)
    case _ => false
  }

  /** `repr(node)`, and `str(node)` in an f-string field, for core trees. */
  function Repr(n: Node): string
    requires IsCore(n)
  {
    match n
    case Program(ds) => ProgramText(ReprAll(ds))
    case FunctionDecl(_, name, _, b) => "  FunctionDecl(name='" + name + "', body=" + Repr(b) + ")"
    case VarDecl(t, v, a, m) => VarDeclText(m, ValueStr(t.token.value), ValueStr(v.token.value), ReprOpt(a))
    case ConstDecl(t, v, a) =>
      "  ConstDecl(const " + ValueStr(t.token.value) + " " + ValueStr(v.token.value) + " = " + ReprOpt(a) + ")"
    case Type(tok, _) => "Type(value='" + ValueStr(tok.value) + "')"
    case Assign(l, _, r) => "    Assign(" + ValueStr(l.token.value) + " = " + Repr(r) + ")"
    case Var(tok) => "Var(name='" + ValueStr(tok.value) + "')"
    case Num(tok) => "Num(value=" + ValueStr(tok.value) + ")"
    case BinOp(l, op, r) => BinOpText(Repr(l), ValueStr(op.value), Repr(r))
    case FunctionCall(name, args) => "    FunctionCall(name='" + name + "', args=[" + Join(ReprAll(args), ", ") + "])"
    case Compound(cs) => "Compound([\n" + Join(ReprAll(cs), "\n") + "\n    ])"
    case Return(v) => "    Return(value=" + ReprOpt(v) + ")"
  }

  function ProgramText(decls: seq<string>): string {
    "Program(\n" + Join(decls, "\n") + "\n)"
  }

  function VarDeclText(isMutable: bool, typeText: string, name: string, init: string): string {
    "    VarDecl(" + (if isMutable then "mut " else "") + typeText + " " + name + " = " + init + ")"
  }

  function BinOpText(left: string, op: string, right: string): string {
    "BinOp(left=" + left + ", op='" + op + "', right=" + right + ")"
  }

  /** `str(x)` of an optional node: `None` prints as "None". */
  function ReprOpt(o: Option<Node>): string
    requires o.Some? ==> IsCore(o.value)
  {
    match o
    case None => "None"
    case Some(n) => Repr(n)
  }

  function ReprAll(ns: seq<Node>): (r: seq<string>)
    requires forall i :: 0 <= i < |ns| ==> IsCore(ns[i])
    ensures |r| == |ns|
  {
    if ns == [] then [] else [Repr(ns[0])] + ReprAll(ns[1..])
  }

  lemma {:induction false} ReprAllIndex(ns: seq<Node>, i: nat)
    requires forall k :: 0 <= k < |ns| ==> IsCore(ns[k])
    requires i < |ns|
    ensures ReprAll(ns)[i] == Repr(ns[i])
  {
    if i > 0 {
      ReprAllIndex(ns[1..], i - 1);
    }
  }

  lemma {:induction false} ReprAllAppend(ns: seq<Node>, n: Node)
    requires forall k :: 0 <= k < |ns| ==> IsCore(ns[k])
    requires IsCore(n)
    ensures ReprAll(ns + [n]) == ReprAll(ns) + [Repr(n)]
  {
    if ns != [] {
      assert (ns + [n])[1..] == ns[1..] + [n];
      ReprAllAppend(ns[1..], n);
    } else {
      assert ns + [n] == [n];
    }
  }

  /** The `mut ` marker: the repr of a mutable declaration is that of the
      immutable one with "mut " inserted right after "    VarDecl(". */
  lemma VarDeclReprMut(t: Node, v: Node, a: Option<Node>)
    requires IsCore(VarDecl(t, v, a, false))
    ensures var without := Repr(VarDecl(t, v, a, false));
      |without| >= 12 && Repr(VarDecl(t, v, a, true)) == without[..12] + "mut " + without[12..]
  {
    var tt, name, init := ValueStr(t.token.value), ValueStr(v.token.value), ReprOpt(a);
    assert Repr(VarDecl(t, v, a, false)) == VarDeclText(false, tt, name, init);
    assert Repr(VarDecl(t, v, a, true)) == VarDeclText(true, tt, name, init);
    VarDeclTextMut(tt, name, init);
  }

  lemma VarDeclTextMut(tt: string, name: string, init: string)
    ensures var without := VarDeclText(false, tt, name, init);
      |without| >= 12 && VarDeclText(true, tt, name, init) == without[..12] + "mut " + without[12..]
  {
    var rest := tt + " " + name + " = " + init + ")";
    MiddleSlice("    VarDecl(", rest, "");
    assert VarDeclText(false, tt, name, init) == "    VarDecl(" + rest;
    assert VarDeclText(true, tt, name, init) == "    VarDecl(" + "mut " + rest;
  }

  /** The repr shows "mut " after "    VarDecl(" exactly when the declaration
      is mutable, provided the type name cannot itself read as "mut ". */
  lemma VarDeclReprShowsMut(d: Node)
    requires d.VarDecl? && IsCore(d)
    requires var tt := ValueStr(d.typeNode.token.value); tt != "mut" && (|tt| < 4 || tt[..4] != "mut ")
    ensures var r := Repr(d); |r| >= 16 && (r[12..16] == "mut " <==> d.isMutable)
  {
    VarDeclTextShowsMut(d.isMutable, ValueStr(d.typeNode.token.value), ValueStr(d.varNode.token.value), ReprOpt(d.assignNode));
  }

  lemma VarDeclTextShowsMut(m: bool, tt: string, name: string, init: string)
    requires tt != "mut" && (|tt| < 4 || tt[..4] != "mut ")
    ensures var r := VarDeclText(m, tt, name, init); |r| >= 16 && (r[12..16] == "mut " <==> m)
  {
    var rest := tt + " " + name + " = " + init + ")";
    var r := VarDeclText(m, tt, name, init);
    if !m {
      assert r == "    VarDecl(" + rest[..4] + rest[4..];
      MiddleSlice("    VarDecl(", rest[..4], rest[4..]);
      if |tt| >= 4 {
        assert rest[..4] == tt[..4];
      } else if |tt| == 3 {
        assert rest[..4] == tt + " ";
        assert (tt + " ")[..3] == tt;
      } else {
        assert rest[|tt|] == ' ';
      }
    } else {
      assert r == "    VarDecl(" + "mut " + rest;
      MiddleSlice("    VarDecl(", "mut ", rest);
    }
  }

  /** A binary operation's repr shows its left operand, then the operator's
      text, then its right operand. */
  lemma BinOpReprOrder(l: Node, op: Token, r: Node)
    requires IsCore(l) && IsCore(r)
    ensures var s := Repr(BinOp(l, op, r)); var L := Repr(l); var o := ValueStr(op.value); var R := Repr(r);
      |s| == 11 + |L| + 6 + |o| + 9 + |R| + 1
      && s[..11] == "BinOp(left=" && s[11..11 + |L|] == L
      && s[11 + |L| + 6..11 + |L| + 6 + |o|] == o
      && s[|s| - 1 - |R|..|s| - 1] == R
  {
    BinOpTextOrder(Repr(l), ValueStr(op.value), Repr(r));
  }

  lemma BinOpTextOrder(L: string, o: string, R: string)
    ensures var s := BinOpText(L, o, R);
      |s| == 11 + |L| + 6 + |o| + 9 + |R| + 1
      && s[..11] == "BinOp(left=" && s[11..11 + |L|] == L
      && s[11 + |L| + 6..11 + |L| + 6 + |o|] == o
      && s[|s| - 1 - |R|..|s| - 1] == R
  {
    var s := BinOpText(L, o, R);
    MiddleSlice("BinOp(left=", L, ", op='" + o + "', right=" + R + ")");
    assert s == ("BinOp(left=" + L + ", op='") + o + ("', right=" + R + ")");
    MiddleSlice("BinOp(left=" + L + ", op='", o, "', right=" + R + ")");
    assert s == ("BinOp(left=" + L + ", op='" + o + "', right=") + R + ")";
    MiddleSlice("BinOp(left=" + L + ", op='" + o + "', right=", R, ")");
  }

  /** The `Program` repr lists the declarations in order, one per line:
      appending a declaration adds its repr as a last line before ")". */
  lemma ProgramReprAppend(ds: seq<Node>, d: Node)
    requires IsCore(Program(ds)) && IsCore(d) && ds != []
    ensures var before := Repr(Program(ds));
      |before| >= 2 && Repr(Program(ds + [d])) == before[..|before| - 2] + "\n" + Repr(d) + "\n)"
  {
    assert IsCore(Program(ds + [d])) by {
      forall i | 0 <= i < |ds + [d]| ensures IsCore((ds + [d])[i]) {
        if i < |ds| {
          assert (ds + [d])[i] == ds[i];
        }
      }
    }
    ReprAllAppend(ds, d);
    ProgramTextAppend(ReprAll(ds), Repr(d));
  }

  lemma ProgramTextAppend(xs: seq<string>, x: string)
    requires xs != []
    ensures var before := ProgramText(xs);
      |before| >= 2 && ProgramText(xs + [x]) == before[..|before| - 2] + "\n" + x + "\n)"
  {
    JoinAppend(xs, x, "\n");
    var j := Join(xs, "\n");
    MiddleSlice("Program(\n", j, "\n)");
    assert ProgramText(xs + [x]) == "Program(\n" + (j + "\n" + x) + "\n)";
  }

  /** A number prints as its decimal digits, which read back as the number. */
  lemma NumReprDecodes(n: nat)
    ensures var s := Repr(Num(Token(INTEGER, VInt(n))));
      |s| > 11 && s == "Num(value=" + NatToString(n) + ")"
      && AllDigits(s[10..|s| - 1]) && DecimalValue(s[10..|s| - 1]) == n
  {
    var s := Repr(Num(Token(INTEGER, VInt(n))));
    assert s[10..|s| - 1] == NatToString(n);
    DecimalOfNatToString(n);
  }
}
