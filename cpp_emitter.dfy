/** The C++ emitter as the objects that run it: `CppWriter`, whose line list
    and indentation level change in place, and the visitor, whose only state
    is the console it prints "not implemented" warnings to. Each method is
    proved to do what the matching function of `CppSpec` describes. */
module CppEmitter {
  import opened Wrappers
  import opened Text
  import opened Tokens
  import opened Ast
  import opened CppSpec

  class CppWriter {
    var code: seq<string>
    var indentLevel: int

    function Model(): Writer
      reads this
    {
      Writer(code, indentLevel)
    }

    constructor()
      ensures Model() == Writer([], 0)
    {
      code := [];
      indentLevel := 0;
    }

    method EnterBlock()
      modifies this
      ensures Model() == CppSpec.EnterBlock(old(Model()))
    {
      AddLine("{");
      indentLevel := indentLevel + 1;
    }

    method ExitBlock()
      modifies this
      ensures Model() == CppSpec.ExitBlock(old(Model()))
    {
      indentLevel := indentLevel - 1;
      AddLine("}");
    }

    method AddLine(line: string)
      modifies this
      ensures Model() == CppSpec.AddLine(old(Model()), line)
    {
      var indent := Spaces(4 * indentLevel);
      code := code + [indent + line];
    }

    method GetCode() returns (s: string)
      ensures s == CppSpec.GetCode(Model())
    {
      s := Join(code, "\n");
    }
  }

  /** A statement visitor's outcome against the specification: the same
      exception, or success with the writer and console the specification
      gives. */
  predicate Done(r: Result<()>, now: Emitted, spec: Result<Emitted>) {
    match spec
    case Ok(e) => r == Ok(()) && now == e
    case Err(m) => r == Err(m)
  }

  class CodeGeneratorCpp {
    /** What the generator has printed so far. */
    var console: seq<string>

    constructor()
      ensures console == []
    {
      console := [];
    }

    ghost function Now(w: CppWriter): Emitted
      reads this, w
    {
      Emitted(w.Model(), console)
    }

    /** `generate(tree)`: visit the tree with a fresh writer and return its
        code. */
    method Generate(tree: Node) returns (r: Result<string>)
      requires Emittable(tree)
      modifies this
      ensures match CppSpec.Generate(tree, old(console))
        case Ok(v) => r == Ok(v.0) && console == v.1
        case Err(m) => r == Err(m)
    {
      var w := new CppWriter();
      var v := Visit(tree, w);
      if v.Err? {
        return Err(v.msg);
      }
      var s := w.GetCode();
      return Ok(s);
    }

    // ---- statements ----

    /** `visit(node, writer)` for a node in statement position. */
    method Visit(n: Node, w: CppWriter) returns (r: Result<()>)
      requires Emittable(n)
      modifies this, w
      ensures Done(r, Now(w), Stmt(n, old(Now(w))))
      decreases Size(n), 3
    {
      if n.Program? {
        r := VisitProgram(n, w);
      } else if n.FunctionDecl? {
        r := VisitFunctionDecl(n, w);
      } else if n.Block? {
        r := VisitBlock(n, w);
      } else if n.VarDecl? {
        r := VisitVarDecl(n, w);
      } else if n.Assign? {
        r := VisitAssign(n, w);
      } else if n.Return? {
        r := VisitReturn(n, w);
      } else if n.LoopStmt? {
        r := VisitLoopStmt(n, w);
      } else if n.IfExpr? {
        r := VisitIfExpr(n, w);
      } else if n.BreakStmt? {
        r := VisitBreakStmt(w);
      } else {
        var e := VisitExpr(n);
        if e.Err? {
          return Err(e.msg);
        }
        return Ok(());
      }
    }

    method VisitProgram(n: Node, w: CppWriter) returns (r: Result<()>)
      requires n.Program? && Emittable(n)
      modifies this, w
      ensures Done(r, Now(w), Stmt(n, old(Now(w))))
      decreases Size(n), 2
    {
      w.AddLine(IncludeRuntime);
      w.AddLine(IncludeCstdint);
      w.AddLine("");
      var ds := n.declarations;
      ghost var spec := Decls(ds, Now(w));
      var i := 0;
      while i < |ds|
        invariant 0 <= i <= |ds|
        invariant Decls(ds[i..], Now(w)) == spec
      {
        SizeListElement(ds, i);
        assert ds[i..][0] == ds[i] && ds[i..][1..] == ds[i + 1..];
        var v := Visit(ds[i], w);
        if v.Err? {
          return v;
        }
        w.AddLine("");
        i := i + 1;
      }
      return Ok(());
    }

    method VisitFunctionDecl(n: Node, w: CppWriter) returns (r: Result<()>)
      requires n.FunctionDecl? && Emittable(n)
      modifies this, w
      ensures Done(r, Now(w), Stmt(n, old(Now(w))))
      decreases Size(n), 2
    {
      var returnType := if n.funcName == "main" then "int" else MapType(n.typeNode, false);
      var funcName := n.funcName;
      var paramsList := ParamsList(n.params);
      var params := Join(paramsList, ", ");
      w.AddLine(returnType + " " + funcName + "(" + params + ")");
      r := Visit(n.body, w);
    }

    /** The parameter loop of `visit_FunctionDecl`. */
    static method ParamsList(ps: seq<Node>) returns (paramsList: seq<string>)
      requires forall i :: 0 <= i < |ps| ==> IsParam(ps[i])
      ensures paramsList == ParamTexts(ps)
    {
      paramsList := [];
      for k := 0 to |ps|
        invariant paramsList + ParamTexts(ps[k..]) == ParamTexts(ps)
      {
        var p := ps[k];
        var paramType := MapType(p.typeNode, false);
        if paramType == "char *" {
          paramType := "const char *";
        }
        var paramName := ValueStr(p.varNode.token.value);
        ParamTextsStep(paramsList, ps, k);
        paramsList := paramsList + [paramType + " " + paramName];
      }
    }

    method VisitBlock(n: Node, w: CppWriter) returns (r: Result<()>)
      requires n.Block? && Emittable(n)
      modifies this, w
      ensures Done(r, Now(w), Stmt(n, old(Now(w))))
      decreases Size(n), 2
    {
      w.EnterBlock();
      var cs := n.children;
      ghost var inner := BlockBody(cs, Now(w));
      var i := 0;
      while i < |cs|
        invariant 0 <= i <= |cs|
        invariant BlockBody(cs[i..], Now(w)) == inner
      {
        SizeListElement(cs, i);
        assert cs[i..][0] == cs[i] && cs[i..][1..] == cs[i + 1..];
        var child := cs[i];
        if child.FunctionCall? {
          var exprCode := VisitExpr(child);
          if exprCode.Err? {
            return Err(exprCode.msg);
          }
          w.AddLine(exprCode.value + ";");
        } else {
          var v := Visit(child, w);
          if v.Err? {
            return v;
          }
        }
        i := i + 1;
      }
      w.ExitBlock();
      return Ok(());
    }

    method VisitVarDecl(n: Node, w: CppWriter) returns (r: Result<()>)
      requires n.VarDecl? && Emittable(n)
      modifies this, w
      ensures Done(r, Now(w), Stmt(n, old(Now(w))))
    {
      var isConstString := n.assignNode.Some? && n.assignNode.value.StringLiteral?;
      var varType := MapType(n.typeNode, isConstString);
      var varName := ValueStr(n.varNode.token.value);
      if n.assignNode.Some? {
        var valueExpr := VisitExpr(n.assignNode.value);
        if valueExpr.Err? {
          return Err(valueExpr.msg);
        }
        w.AddLine(varType + " " + varName + " = " + valueExpr.value + ";");
      } else {
        w.AddLine(varType + " " + varName + ";");
      }
      return Ok(());
    }

    method VisitAssign(n: Node, w: CppWriter) returns (r: Result<()>)
      requires n.Assign? && Emittable(n)
      modifies this, w
      ensures Done(r, Now(w), Stmt(n, old(Now(w))))
    {
      var leftExpr := VisitExpr(n.left);
      if leftExpr.Err? {
        return Err(leftExpr.msg);
      }
      var rightExpr := VisitExpr(n.right);
      if rightExpr.Err? {
        return Err(rightExpr.msg);
      }
      w.AddLine(leftExpr.value + " = " + rightExpr.value + ";");
      return Ok(());
    }

    method VisitReturn(n: Node, w: CppWriter) returns (r: Result<()>)
      requires n.Return? && Emittable(n)
      modifies this, w
      ensures Done(r, Now(w), Stmt(n, old(Now(w))))
    {
      if n.value.Some? {
        var returnValue := VisitExpr(n.value.value);
        if returnValue.Err? {
          return Err(returnValue.msg);
        }
        w.AddLine("return " + returnValue.value + ";");
      } else {
        w.AddLine("return;");
      }
      return Ok(());
    }

    method VisitLoopStmt(n: Node, w: CppWriter) returns (r: Result<()>)
      requires n.LoopStmt? && Emittable(n)
      modifies this, w
      ensures Done(r, Now(w), Stmt(n, old(Now(w))))
      decreases Size(n), 2
    {
      w.AddLine("for (;;)");
      r := Visit(n.body, w);
    }

    method VisitIfExpr(n: Node, w: CppWriter) returns (r: Result<()>)
      requires n.IfExpr? && Emittable(n)
      modifies this, w
      ensures Done(r, Now(w), Stmt(n, old(Now(w))))
      decreases Size(n), 2
    {
      assert Stmt(n, Now(w)) == IfStmt(n, Now(w));
      var condition := VisitExpr(n.condition);
      if condition.Err? {
        return Err(condition.msg);
      }
      w.AddLine("if (" + condition.value + ")");
      var v := Visit(n.ifBlock, w);
      if v.Err? {
        return v;
      }
      if n.elseBlock.Some? {
        assert SizeOpt(n.elseBlock) == Size(n.elseBlock.value);
        w.AddLine("else");
        r := Visit(n.elseBlock.value, w);
      } else {
        r := Ok(());
      }
    }

    method VisitBreakStmt(w: CppWriter) returns (r: Result<()>)
      modifies w
      ensures r == Ok(()) && w.Model() == CppSpec.AddLine(old(w.Model()), "break;")
    {
      w.AddLine("break;");
      return Ok(());
    }

    // ---- expressions ----

    /** `visit_expr(node)`: the text of the expression, printing a warning
        for each node without a visitor. */
    method VisitExpr(n: Node) returns (r: Result<string>)
      requires IsCppExpr(n)
      modifies this
      ensures r == ExprText(n)
      ensures r.Ok? ==> console == old(console) + ExprWarnings(n)
      decreases Size(n), 1
    {
      if n.Num? {
        return Ok(ValueStr(n.token.value));
      } else if n.Var? {
        return Ok(n.token.value.s);
      } else if n.StringLiteral? {
        var text := VisitStringLiteral(n.text);
        return Ok(text);
      } else if n.CharLiteral? {
        r := VisitCharLiteral(n.code);
      } else if n.BinOp? {
        r := VisitBinOp(n);
      } else if n.UnaryOp? {
        r := VisitUnaryOp(n);
      } else if n.FunctionCall? {
        r := VisitFunctionCall(n);
      } else {
        var text := GenericVisit(n);
        return Ok(text);
      }
    }

    /** `generic_visit`: a warning on the console and a placeholder
        comment. */
    method GenericVisit(n: Node) returns (text: string)
      modifies this
      ensures text == NotImplementedText(n)
      ensures console == old(console) + [NotImplementedWarning(n)]
    {
      console := console + [NotImplementedWarning(n)];
      text := "/* " + ClassName(n) + " not implemented */";
    }

    method VisitCharLiteral(code: int) returns (r: Result<string>)
      requires !IsSurrogate(code)
      ensures r == CharLiteralText(code)
    {
      if code == 10 { return Ok("'\\n'"); }
      if code == 9 { return Ok("'\\t'"); }
      if code == 13 { return Ok("'\\r'"); }
      if code == 39 { return Ok("'\\''"); }
      if code == 92 { return Ok("'\\\\'"); }
      if !FitsCInt(code) {
        return Err(ChrOverflowMessage);
      }
      if !(0 <= code < 0x110000) {
        return Err(ChrRangeMessage);
      }
      return Ok("'" + [code as char] + "'");
    }

    /** `visit_StringLiteral`: the characters escaped one by one, between
        double quotes. */
    method VisitStringLiteral(s: string) returns (text: string)
      ensures text == StringLiteralText(s)
    {
      var result := "";
      for i := 0 to |s|
        invariant result == Escape(s[..i])
      {
        var c := s[i];
        if c == '\n' {
          result := result + "\\n";
        } else if c == '\t' {
          result := result + "\\t";
        } else if c == '\r' {
          result := result + "\\r";
        } else if c == '"' {
          result := result + "\\\"";
        } else if c == '\\' {
          result := result + "\\\\";
        } else {
          result := result + [c];
        }
        assert s[..i + 1] == s[..i] + [c];
        EscapeAppend(s[..i], [c]);
        assert Escape([c]) == EscapeChar(c) + Escape([]);
      }
      assert s[..|s|] == s;
      text := "\"" + result + "\"";
    }

    method VisitBinOp(n: Node) returns (r: Result<string>)
      requires n.BinOp? && IsCppExpr(n)
      modifies this
      ensures r == ExprText(n)
      ensures r.Ok? ==> console == old(console) + ExprWarnings(n)
      decreases Size(n), 0
    {
      var leftExpr := VisitExpr(n.left);
      if leftExpr.Err? {
        return Err(leftExpr.msg);
      }
      var rightExpr := VisitExpr(n.right);
      if rightExpr.Err? {
        return Err(rightExpr.msg);
      }
      var op := ValueStr(n.op.value);
      return Ok("(" + leftExpr.value + " " + op + " " + rightExpr.value + ")");
    }

    /** `visit_UnaryOp`: its operand is rendered, then the comparison with
        `TokenType.KW_DEREF` raises. */
    method VisitUnaryOp(n: Node) returns (r: Result<string>)
      requires n.UnaryOp? && IsCppExpr(n)
      modifies this
      ensures r == ExprText(n)
      ensures r.Ok? ==> console == old(console) + ExprWarnings(n)
      decreases Size(n), 0
    {
      var expr := VisitExpr(n.expr);
      if expr.Err? {
        return Err(expr.msg);
      }
      return Err(UnaryOpError);
    }

    method VisitFunctionCall(n: Node) returns (r: Result<string>)
      requires n.FunctionCall? && IsCppExpr(n)
      modifies this
      ensures r == ExprText(n)
      ensures r.Ok? ==> console == old(console) + ExprWarnings(n)
      decreases Size(n), 0
    {
      var funcName := n.name;
      if funcName == "print" {
        funcName := "print_int";
      } else if funcName == "putchar" {
        funcName := "ignis_putchar";
      } else if funcName == "getchar" {
        funcName := "ignis_getchar";
      }
      var argList := VisitArgs(n.args);
      if argList.Err? {
        return Err(argList.msg);
      }
      var argsStr := Join(argList.value, ", ");
      return Ok(funcName + "(" + argsStr + ")");
    }

    /** The comprehension `[self.visit_expr(arg) for arg in node.args]`. */
    method VisitArgs(args: seq<Node>) returns (r: Result<seq<string>>)
      requires forall i :: 0 <= i < |args| ==> IsCppExpr(args[i])
      modifies this
      ensures r == ArgTexts(args)
      ensures r.Ok? ==> console == old(console) + ArgWarnings(args)
      decreases SizeList(args), 2
    {
      var argList: seq<string> := [];
      var i := 0;
      assert args[0..] == args;
      PrependNothing(ArgTexts(args));
      while i < |args|
        invariant 0 <= i <= |args|
        invariant ArgTexts(args) == Prepend(argList, ArgTexts(args[i..]))
        invariant console + ArgWarnings(args[i..]) == old(console) + ArgWarnings(args)
      {
        SizeListElement(args, i);
        assert args[i..][0] == args[i] && args[i..][1..] == args[i + 1..];
        ghost var before := console;
        var arg := VisitExpr(args[i]);
        if arg.Err? {
          return Err(arg.msg);
        }
        ArgWarningsStep(before, args[i..]);
        PrependStep(argList, ExprText(args[i]), ArgTexts(args[i + 1..]));
        argList := argList + [arg.value];
        i := i + 1;
      }
      assert argList + [] == argList;
      return Ok(argList);
    }
  }

  /** The texts already rendered, in front of the rest's outcome. */
  function Prepend(done: seq<string>, rest: Result<seq<string>>): Result<seq<string>> {
    match rest
    case Ok(ts) => Ok(done + ts)
    case Err(m) => Err(m)
  }

  lemma PrependNothing(r: Result<seq<string>>)
    ensures Prepend([], r) == r
  {
    if r.Ok? {
      assert [] + r.value == r.value;
    }
  }

  /** Rendering one more argument moves its text to the done part. */
  lemma PrependStep(done: seq<string>, first: Result<string>, rest: Result<seq<string>>)
    requires first.Ok?
    ensures Prepend(done, Cons(first, rest)) == Prepend(done + [first.value], rest)
  {
    if rest.Ok? {
      ConcatAssoc(done, [first.value], rest.value);
    }
  }

  lemma ConcatAssoc(a: seq<string>, b: seq<string>, c: seq<string>)
    ensures a + (b + c) == a + b + c
  {
  }

  lemma ParamTextsStep(done: seq<string>, ps: seq<Node>, k: nat)
    requires k < |ps| && forall i :: 0 <= i < |ps| ==> IsParam(ps[i])
    ensures done + ParamTexts(ps[k..]) == done + [ParamText(ps[k])] + ParamTexts(ps[k + 1..])
  {
    assert ps[k..][0] == ps[k] && ps[k..][1..] == ps[k + 1..];
    ConcatAssoc(done, [ParamText(ps[k])], ParamTexts(ps[k + 1..]));
  }

  lemma ArgWarningsStep(before: seq<string>, ns: seq<Node>)
    requires ns != [] && forall i :: 0 <= i < |ns| ==> IsCppExpr(ns[i])
    ensures before + ArgWarnings(ns) == (before + ExprWarnings(ns[0])) + ArgWarnings(ns[1..])
  {
  }
}
