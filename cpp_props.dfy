/** Properties of the lines the C++ emitter writes for statements: every
    statement leaves the indentation level as it found it, only appends
    lines, indents each of them at least as deep as the level it started
    at, and a block's braces sit at that level around lines one deeper. */
module CppProps {
  import opened Wrappers
  import opened Text
  import opened Tokens
  import opened Ast
  import opened CppSpec

  /** Fewer spaces are a prefix of more. */
  lemma {:induction false} SpacesPrefix(m: int, n: int)
    requires m <= n
    ensures Spaces(m) <= Spaces(n)
    decreases n - m
  {
    if m < n && n > 0 {
      SpacesPrefix(m, n - 1);
      assert Spaces(n - 1) <= Spaces(n);
    }
  }

  /** Lines indented for a deeper level are indented for this one too. */
  lemma Shallower(code: seq<string>, from: nat, level: int)
    requires IndentedFrom(code, from, level + 1)
    ensures IndentedFrom(code, from, level)
  {
    SpacesPrefix(4 * level, 4 * (level + 1));
  }

  /** What every statement visitor keeps: same level, lines and console
      output only appended to, and the new lines indented. */
  predicate Keeps(o: Emitted, r: Emitted) {
    && r.w.indent == o.w.indent
    && o.w.code <= r.w.code
    && o.console <= r.console
    && IndentedFrom(r.w.code, |o.w.code|, o.w.indent)
  }

  lemma KeepsTrans(a: Emitted, b: Emitted, c: Emitted)
    requires Keeps(a, b) && Keeps(b, c)
    ensures Keeps(a, c)
  {
    forall k | |a.w.code| <= k < |c.w.code|
      ensures Spaces(4 * a.w.indent) <= c.w.code[k]
    {
      if k < |b.w.code| {
        assert c.w.code[k] == b.w.code[k];
      }
    }
  }

  lemma LineKeeps(o: Emitted, line: string)
    ensures Keeps(o, Line(o, line))
  {
    var r := Line(o, line);
    assert r.w.code[|o.w.code|] == Spaces(4 * o.w.indent) + line;
  }

  lemma ConsoleKeeps(o: Emitted, more: seq<string>)
    ensures Keeps(o, o.(console := o.console + more))
  {
  }

  lemma ExprEffectKeeps(n: Node, o: Emitted)
    requires IsCppExpr(n)
    ensures ExprEffect(n, o).Ok? ==> Keeps(o, ExprEffect(n, o).value)
  {
  }

  lemma VarDeclKeeps(t: Node, v: Node, a: Option<Node>, o: Emitted)
    requires t.Type? && v.Var? && (a.Some? ==> IsCppExpr(a.value))
    ensures VarDeclStmt(t, v, a, o).Ok? ==> Keeps(o, VarDeclStmt(t, v, a, o).value)
  {
    if a.Some? && VarDeclStmt(t, v, a, o).Ok? {
      var o1 := o.(console := o.console + ExprWarnings(a.value));
      LineKeeps(o1, VarDeclStmt(t, v, a, o).value.w.code[|o.w.code|][|Spaces(4 * o.w.indent)|..]);
    } else if a.None? {
      LineKeeps(o, VarDeclStmt(t, v, a, o).value.w.code[|o.w.code|][|Spaces(4 * o.w.indent)|..]);
    }
  }

  lemma AssignKeeps(l: Node, r: Node, o: Emitted)
    requires IsCppExpr(l) && IsCppExpr(r)
    ensures AssignStmt(l, r, o).Ok? ==> Keeps(o, AssignStmt(l, r, o).value)
  {
    if AssignStmt(l, r, o).Ok? {
      var o1 := o.(console := o.console + ExprWarnings(l) + ExprWarnings(r));
      LineKeeps(o1, ExprText(l).value + " = " + ExprText(r).value + ";");
    }
  }

  lemma ReturnKeeps(v: Option<Node>, o: Emitted)
    requires v.Some? ==> IsCppExpr(v.value)
    ensures ReturnStmt(v, o).Ok? ==> Keeps(o, ReturnStmt(v, o).value)
  {
    match v
    case Some(e) =>
      if ExprText(e).Ok? {
        LineKeeps(o.(console := o.console + ExprWarnings(e)), "return " + ExprText(e).value + ";");
      }
    case None => LineKeeps(o, "return;");
  }

  /** A block: `{` at the level it starts at, its body one level deeper,
      and `}` back at the starting level. */
  lemma {:induction false} BlockKeeps(cs: seq<Node>, o: Emitted)
    requires forall i :: 0 <= i < |cs| ==> Emittable(cs[i])
    requires Stmt(Block(cs), o).Ok?
    ensures Keeps(o, Stmt(Block(cs), o).value)
    ensures var r := Stmt(Block(cs), o).value.w.code;
      && |r| >= |o.w.code| + 2
      && r[|o.w.code|] == Spaces(4 * o.w.indent) + "{"
      && r[|r| - 1] == Spaces(4 * o.w.indent) + "}"
      && IndentedFrom(r[..|r| - 1], |o.w.code| + 1, o.w.indent + 1)
    decreases SizeList(cs) + 1, 0
  {
    var o1 := o.(w := EnterBlock(o.w));
    var inner := BlockBody(cs, o1).value;
    BlockBodyKeeps(cs, o1);
    var r := Stmt(Block(cs), o).value;
    assert r == inner.(w := ExitBlock(inner.w));
    assert r.w.code == inner.w.code + [Spaces(4 * o.w.indent) + "}"];
    assert r.w.code[..|r.w.code| - 1] == inner.w.code;
    Shallower(inner.w.code, |o1.w.code|, o.w.indent);
    assert o1.w.code[|o.w.code|] == Spaces(4 * o.w.indent) + "{";
    assert r.w.code[|o.w.code|] == inner.w.code[|o.w.code|];
    assert Spaces(4 * o.w.indent) <= Spaces(4 * o.w.indent) + "{";
    assert Spaces(4 * o.w.indent) <= Spaces(4 * o.w.indent) + "}";
  }

  /** Every statement the emitter visits keeps the level, only appends and
      indents what it appends. */
  lemma {:induction false} StmtKeeps(n: Node, o: Emitted)
    requires Emittable(n)
    ensures Stmt(n, o).Ok? ==> Keeps(o, Stmt(n, o).value)
    decreases Size(n), 1
  {
    if Stmt(n, o).Ok? {
      match n
      case Program(ds) => ProgramKeeps(ds, o);
      case FunctionDecl(t, name, ps, b) =>
        var o1 := Line(o, FunctionHeader(t, name, ps));
        LineKeeps(o, FunctionHeader(t, name, ps));
        StmtKeeps(b, o1);
        KeepsTrans(o, o1, Stmt(n, o).value);
      case Block(cs) => BlockKeeps(cs, o);
      case VarDecl(t, v, a, _) => VarDeclKeeps(t, v, a, o);
      case Assign(l, _, r) => AssignKeeps(l, r, o);
      case Return(v) => ReturnKeeps(v, o);
      case LoopStmt(b) =>
        LineKeeps(o, "for (;;)");
        StmtKeeps(b, Line(o, "for (;;)"));
        KeepsTrans(o, Line(o, "for (;;)"), Stmt(n, o).value);
      case IfExpr(_, _, _) => IfKeeps(n, o);
      case BreakStmt => LineKeeps(o, "break;");
      case _ => ExprEffectKeeps(n, o);
    }
  }

  lemma {:induction false} ProgramKeeps(ds: seq<Node>, o: Emitted)
    requires forall i :: 0 <= i < |ds| ==> Emittable(ds[i])
    requires Stmt(Program(ds), o).Ok?
    ensures Keeps(o, Stmt(Program(ds), o).value)
    decreases SizeList(ds) + 1, 0
  {
    var o1 := Line(o, IncludeRuntime);
    var o2 := Line(o1, IncludeCstdint);
    var o3 := Line(o2, "");
    LineKeeps(o, IncludeRuntime);
    LineKeeps(o1, IncludeCstdint);
    LineKeeps(o2, "");
    DeclsKeeps(ds, o3);
    KeepsTrans(o, o1, o2);
    KeepsTrans(o, o2, o3);
    KeepsTrans(o, o3, Stmt(Program(ds), o).value);
  }

  lemma {:induction false} IfKeeps(n: Node, o: Emitted)
    requires n.IfExpr? && Emittable(n)
    requires IfStmt(n, o).Ok?
    ensures Keeps(o, IfStmt(n, o).value)
    decreases Size(n), 0
  {
    var o1 := o.(console := o.console + ExprWarnings(n.condition));
    var o2 := Line(o1, "if (" + ExprText(n.condition).value + ")");
    LineKeeps(o1, "if (" + ExprText(n.condition).value + ")");
    KeepsTrans(o, o1, o2);
    StmtKeeps(n.ifBlock, o2);
    var afterIf := Stmt(n.ifBlock, o2).value;
    KeepsTrans(o, o2, afterIf);
    match n.elseBlock
    case None =>
    case Some(e) =>
      assert SizeOpt(n.elseBlock) == Size(e);
      LineKeeps(afterIf, "else");
      KeepsTrans(o, afterIf, Line(afterIf, "else"));
      StmtKeeps(e, Line(afterIf, "else"));
      KeepsTrans(o, Line(afterIf, "else"), IfStmt(n, o).value);
  }

  lemma {:induction false} DeclsKeeps(ds: seq<Node>, o: Emitted)
    requires forall i :: 0 <= i < |ds| ==> Emittable(ds[i])
    ensures Decls(ds, o).Ok? ==> Keeps(o, Decls(ds, o).value)
    decreases SizeList(ds), 3
  {
    if ds != [] && Decls(ds, o).Ok? {
      SizeListElement(ds, 0);
      StmtKeeps(ds[0], o);
      var o1 := Stmt(ds[0], o).value;
      LineKeeps(o1, "");
      KeepsTrans(o, o1, Line(o1, ""));
      DeclsKeeps(ds[1..], Line(o1, ""));
      KeepsTrans(o, Line(o1, ""), Decls(ds, o).value);
    }
  }

  lemma {:induction false} BlockChildKeeps(c: Node, o: Emitted)
    requires Emittable(c)
    ensures BlockChild(c, o).Ok? ==> Keeps(o, BlockChild(c, o).value)
    decreases Size(c), 2
  {
    if BlockChild(c, o).Ok? {
      if c.FunctionCall? {
        LineKeeps(o.(console := o.console + ExprWarnings(c)), ExprText(c).value + ";");
      } else {
        StmtKeeps(c, o);
      }
    }
  }

  lemma {:induction false} BlockBodyKeeps(cs: seq<Node>, o: Emitted)
    requires forall i :: 0 <= i < |cs| ==> Emittable(cs[i])
    ensures BlockBody(cs, o).Ok? ==> Keeps(o, BlockBody(cs, o).value)
    decreases SizeList(cs), 3
  {
    if cs != [] && BlockBody(cs, o).Ok? {
      SizeListElement(cs, 0);
      BlockChildKeeps(cs[0], o);
      var o1 := BlockChild(cs[0], o).value;
      BlockBodyKeeps(cs[1..], o1);
      KeepsTrans(o, o1, BlockBody(cs, o).value);
    }
  }

  /** `generate` starts every translation unit with the two includes and an
      empty line at column 0, and leaves the level at 0. */
  lemma GenerateHeader(ds: seq<Node>)
    requires forall i :: 0 <= i < |ds| ==> Emittable(ds[i])
    requires Stmt(Program(ds), Emitted(Writer([], 0), [])).Ok?
    ensures var r := Stmt(Program(ds), Emitted(Writer([], 0), [])).value.w;
      && r.indent == 0
      && |r.code| >= 3
      && r.code[..3] == [IncludeRuntime, IncludeCstdint, ""]
  {
    var o := Emitted(Writer([], 0), []);
    LineAtZero(o, IncludeRuntime);
    LineAtZero(Line(o, IncludeRuntime), IncludeCstdint);
    LineAtZero(Line(Line(o, IncludeRuntime), IncludeCstdint), "");
    var o3 := Line(Line(Line(o, IncludeRuntime), IncludeCstdint), "");
    DeclsKeeps(ds, o3);
  }

  lemma LineAtZero(o: Emitted, line: string)
    requires o.w.indent == 0
    ensures Line(o, line).w == Writer(o.w.code + [line], 0)
  {
    assert Spaces(4 * o.w.indent) + line == line;
  }

  /** `main` is declared returning `int`, whatever its written type; any
      other function returns its mapped type. */
  lemma FunctionHeaderReturnType(t: Node, name: string, ps: seq<Node>)
    requires name != "main" ==> t.Type?
    requires forall i :: 0 <= i < |ps| ==> IsParam(ps[i])
    ensures (if name == "main" then "int" else MapType(t, false)) + " " <= FunctionHeader(t, name, ps)
  {
    var a := (if name == "main" then "int" else MapType(t, false)) + " ";
    var j := Join(ParamTexts(ps), ", ");
    PrefixGrows(a, name);
    PrefixGrows(a + name, "(");
    PrefixGrows(a + name + "(", j);
    PrefixGrows(a + name + "(" + j, ")");
  }

  lemma PrefixGrows(a: string, b: string)
    ensures a <= a + b
  {
    assert (a + b)[..|a|] == a;
  }

  /** A declaration's line is the indentation, the mapped type (with
      `const` exactly when the initialiser is a string literal), a space
      and the name; it fails only when the initialiser does. */
  lemma VarDeclLine(t: Node, v: Node, a: Option<Node>, o: Emitted)
    requires t.Type? && v.Var? && (a.Some? ==> IsCppExpr(a.value))
    ensures VarDeclStmt(t, v, a, o).Ok? <==> (a.None? || ExprText(a.value).Ok?)
    ensures VarDeclStmt(t, v, a, o).Ok? ==>
      var r := VarDeclStmt(t, v, a, o).value.w.code;
      var ty := MapType(t, a.Some? && a.value.StringLiteral?);
      && |r| == |o.w.code| + 1
      && Spaces(4 * o.w.indent) + (ty + " " + ValueStr(v.token.value)) <= r[|o.w.code|]
  {
    var ty := MapType(t, a.Some? && a.value.StringLiteral?);
    var head := ty + " " + ValueStr(v.token.value);
    match a
    case None =>
      PrefixAppend(Spaces(4 * o.w.indent), head, head + ";");
    case Some(init) =>
      if ExprText(init).Ok? {
        var tail := head + " = " + ExprText(init).value + ";";
        assert head <= tail;
        PrefixAppend(Spaces(4 * o.w.indent), head, tail);
      }
  }

  lemma PrefixAppend(x: string, y: string, w: string)
    requires y <= w
    ensures x + y <= x + w
  {
    assert (x + w)[..|x + y|] == x + y;
  }

  /** A string literal initialiser is always rendered, and its declaration
      is `const`. */
  lemma ConstStringDecl(t: Node, v: Node, s: string, o: Emitted)
    requires t.Type? && v.Var?
    ensures VarDeclStmt(t, v, Some(StringLiteral(s)), o).Ok?
    ensures VarDeclStmt(t, v, Some(StringLiteral(s)), o).value.console == o.console
    ensures "const " <= MapType(t, true)
  {
    var init := StringLiteral(s);
    assert ExprText(init) == Ok(StringLiteralText(s));
    assert ExprWarnings(init) == [];
    MapTypeParts(t, true);
  }

  /** The unary operators name token types the lexer does not have, so
      visiting one always raises once its operand is rendered. */
  lemma UnaryOpRaises(op: Token, e: Node)
    requires IsCppExpr(e)
    ensures IsCppExpr(UnaryOp(op, e))
    ensures ExprText(UnaryOp(op, e)).Err?
    ensures ExprText(e).Ok? ==> ExprText(UnaryOp(op, e)).msg == UnaryOpError
  {
  }
}
