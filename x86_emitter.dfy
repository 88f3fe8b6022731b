/** The x86-64 emitter as the object that runs it: `CodeGenerator`, whose
    assembly lines, symbol table and next stack slot change in place as it
    visits the tree. Each visit method is proved to leave the state, or
    raise the exception, that the matching function of `X86Spec` gives. */
module X86Emitter {
  import opened Wrappers
  import opened Text
  import opened Tokens
  import opened Ast
  import opened X86Spec

  /** A visit's outcome against the specification: the same exception, or
      success with the state the specification gives. */
  predicate Done(r: Result<()>, now: Gen, spec: Result<Gen>) {
    match spec
    case Ok(h) => r == Ok(()) && now == h
    case Err(m) => r == Err(m)
  }

  class CodeGenerator {
    var assemblyCode: seq<string>
    var symbolTable: map<Value, int>
    var stackIndex: int

    function Model(): Gen
      reads this
    {
      Gen(assemblyCode, symbolTable, stackIndex)
    }

    constructor()
      ensures Model() == Gen([], map[], -8)
    {
      assemblyCode := [];
      symbolTable := map[];
      stackIndex := -8;
    }

    /** `generate(tree)`: the headers, the print routine, the tree, and the
        lines joined by newlines. From a fresh generator this is
        `X86Spec.Generate`. */
    method Generate(tree: Node) returns (r: Result<string>)
      modifies this
      ensures match Emit(tree, Append(old(Model()), Header + PrintFunction))
        case Ok(h) => r == Ok(Join(h.code, "\n")) && Model() == h
        case Err(m) => r == Err(m)
      ensures old(Model()) == Gen([], map[], -8) ==> r == X86Spec.Generate(tree)
    {
      ghost var start := Model();
      assemblyCode := assemblyCode + ["section .bss"];
      assemblyCode := assemblyCode + ["  print_buf resb 32\n"];
      assemblyCode := assemblyCode + ["section .text"];
      assemblyCode := assemblyCode + ["global _start"];
      assert assemblyCode == start.code + Header;
      AddPrintFunction();
      assert Model() == Append(start, Header + PrintFunction);
      assert start == Gen([], map[], -8) ==> Append(start, Header + PrintFunction) == Gen(Header + PrintFunction, map[], -8);
      var v := Visit(tree);
      if v.Err? {
        return Err(v.msg);
      }
      return Ok(Join(assemblyCode, "\n"));
    }

    /** A run of fixed lines, appended in order. */
    method AddLines(lines: seq<string>)
      modifies this
      ensures Model() == Append(old(Model()), lines)
    {
      assemblyCode := assemblyCode + lines;
    }

    method AddPrintFunction()
      modifies this
      ensures Model() == Append(old(Model()), PrintFunction)
    {
      assemblyCode := assemblyCode + PrintFunction;
    }

    /** `visit(node)`: the dispatch on the node's class. */
    method Visit(n: Node) returns (r: Result<()>)
      modifies this
      ensures Done(r, Model(), Emit(n, old(Model())))
      decreases Size(n), 2
    {
      if n.Program? {
        r := VisitProgram(n);
      } else if n.FunctionDecl? {
        r := VisitFunctionDecl(n);
      } else if n.Block? {
        r := VisitBlock(n);
      } else if n.VarDecl? {
        r := VisitVarDecl(n);
      } else if n.Assign? {
        r := VisitAssign(n);
      } else if n.Num? {
        VisitNum(n.token.value);
        r := Ok(());
      } else if n.Var? {
        r := VisitVar(n.token.value);
      } else if n.BinOp? {
        r := VisitBinOp(n);
      } else if n.FunctionCall? {
        r := VisitFunctionCall(n);
      } else if n.Return? {
        r := VisitReturn(n);
      } else if n.ConstDecl? {
        r := Ok(());
      } else {
        r := GenericVisit(n);
      }
    }

    /** `generic_visit`: the classes without a `visit_` method raise. */
    method GenericVisit(n: Node) returns (r: Result<()>)
      ensures r == Err(NoVisitMethod(ClassName(n)))
    {
      return Err("No visit_" + ClassName(n) + " method");
    }

    method VisitProgram(n: Node) returns (r: Result<()>)
      requires n.Program?
      modifies this
      ensures Done(r, Model(), EmitAll(n.declarations, old(Model())))
      decreases Size(n), 1
    {
      var ds := n.declarations;
      ghost var spec := EmitAll(ds, Model());
      var i := 0;
      while i < |ds|
        invariant 0 <= i <= |ds|
        invariant EmitAll(ds[i..], Model()) == spec
      {
        SizeListElement(ds, i);
        assert ds[i..][0] == ds[i] && ds[i..][1..] == ds[i + 1..];
        var v := Visit(ds[i]);
        if v.Err? {
          return v;
        }
        i := i + 1;
      }
      return Ok(());
    }

    method VisitBlock(n: Node) returns (r: Result<()>)
      requires n.Block?
      modifies this
      ensures Done(r, Model(), EmitAll(n.children, old(Model())))
      decreases Size(n), 1
    {
      var cs := n.children;
      ghost var spec := EmitAll(cs, Model());
      var i := 0;
      while i < |cs|
        invariant 0 <= i <= |cs|
        invariant EmitAll(cs[i..], Model()) == spec
      {
        SizeListElement(cs, i);
        assert cs[i..][0] == cs[i] && cs[i..][1..] == cs[i + 1..];
        var v := Visit(cs[i]);
        if v.Err? {
          return v;
        }
        i := i + 1;
      }
      return Ok(());
    }

    method VisitFunctionDecl(n: Node) returns (r: Result<()>)
      requires n.FunctionDecl?
      modifies this
      ensures Done(r, Model(), Emit(n, old(Model())))
      decreases Size(n), 1
    {
      if n.funcName != "main" {
        return Ok(());
      }
      ghost var start := Model();
      assert Emit(n, start) == EmitMain(n, start);
      AddLines(Prologue);
      var v := Visit(n.body);
      if v.Err? {
        return v;
      }
      if !(n.body.Block? || n.body.Compound?) {
        return Err("'" + ClassName(n.body) + "' object has no attribute 'children'");
      }
      var cs := n.body.children;
      if cs == [] || !cs[|cs| - 1].Return? {
        AddLines(ImplicitExit);
      }
      AddLines(Epilogue);
      return Ok(());
    }

    method VisitVarDecl(n: Node) returns (r: Result<()>)
      requires n.VarDecl?
      modifies this
      ensures Done(r, Model(), EmitVarDecl(n, old(Model())))
      decreases Size(n), 1
    {
      var value := ValueOf(n.varNode);
      if value.Err? {
        return Err(value.msg);
      }
      var varName := value.value;
      if varName in symbolTable {
        return Err("Variable '" + ValueStr(varName) + "' already declared.");
      }
      symbolTable := symbolTable[varName := stackIndex];
      assert Model() == old(Model()).(table := old(Model()).table[varName := old(Model()).stackIndex]);
      if n.assignNode.None? {
        assert EmitOpt(n.assignNode, Model()) == Err(NoVisitMethod("NoneType"));
        return Err(NoVisitMethod("NoneType"));
      }
      assert EmitOpt(n.assignNode, Model()) == Emit(n.assignNode.value, Model());
      assert Size(n.assignNode.value) < Size(n);
      var v := Visit(n.assignNode.value);
      if v.Err? {
        return v;
      }
      ghost var visited := Model();
      assemblyCode := assemblyCode + ["  ; VarDecl: " + ValueStr(varName)];
      assemblyCode := assemblyCode + ["  pop rax"];
      assemblyCode := assemblyCode + ["  mov " + Slot(stackIndex) + ", rax"];
      assert assemblyCode == visited.code + StoreLines("  ; VarDecl: " + ValueStr(varName), stackIndex);
      stackIndex := stackIndex - 8;
      return Ok(());
    }

    method VisitAssign(n: Node) returns (r: Result<()>)
      requires n.Assign?
      modifies this
      ensures Done(r, Model(), EmitAssign(n, old(Model())))
      decreases Size(n), 1
    {
      var value := ValueOf(n.left);
      if value.Err? {
        return Err(value.msg);
      }
      var varName := value.value;
      if varName !in symbolTable {
        return Err("Assigning to undeclared variable '" + ValueStr(varName) + "'");
      }
      var v := Visit(n.right);
      if v.Err? {
        return v;
      }
      ghost var visited := Model();
      assemblyCode := assemblyCode + ["  ; Assign: " + ValueStr(varName)];
      assemblyCode := assemblyCode + ["  pop rax"];
      var stackOffset := symbolTable[varName];
      assemblyCode := assemblyCode + ["  mov " + Slot(stackOffset) + ", rax"];
      assert Model() == Append(visited, StoreLines("  ; Assign: " + ValueStr(varName), stackOffset));
      return Ok(());
    }

    method VisitNum(value: Value)
      modifies this
      ensures Model() == Append(old(Model()), NumLines(value))
    {
      assemblyCode := assemblyCode + ["  ; Pushing number " + ValueStr(value)];
      assemblyCode := assemblyCode + ["  push " + ValueStr(value)];
    }

    method VisitVar(varName: Value) returns (r: Result<()>)
      modifies this
      ensures Done(r, Model(), EmitVar(varName, old(Model())))
    {
      if varName !in symbolTable {
        if varName == VStr("VERSION") {
          assemblyCode := assemblyCode + ["  push 1"];
          return Ok(());
        }
        return Err("Undeclared variable '" + ValueStr(varName) + "'");
      }
      var stackOffset := symbolTable[varName];
      assemblyCode := assemblyCode + ["  ; Pushing variable " + ValueStr(varName)];
      assemblyCode := assemblyCode + ["  push qword " + Slot(stackOffset)];
      return Ok(());
    }

    method VisitBinOp(n: Node) returns (r: Result<()>)
      requires n.BinOp?
      modifies this
      ensures Done(r, Model(), EmitBinOp(n, old(Model())))
      decreases Size(n), 1
    {
      var v := Visit(n.left);
      if v.Err? {
        return v;
      }
      v := Visit(n.right);
      if v.Err? {
        return v;
      }
      ghost var visited := Model();
      AddLines(["  ; Binary Operation", "  pop rbx ; Right side", "  pop rax ; Left side"]);
      AddOperator(n.op.kind);
      AddLines(["  push rax ; Push result"]);
      assert Model() == Append(visited, BinOpTail(n.op.kind));
      return Ok(());
    }

    /** The instruction the operator's token type selects, if any. */
    method AddOperator(kind: TokenType)
      modifies this
      ensures Model() == Append(old(Model()), OpLines(kind))
    {
      if kind == PLUS {
        AddLines(["  add rax, rbx"]);
      } else if kind == MINUS {
        AddLines(["  sub rax, rbx"]);
      } else if kind == MULTIPLY {
        AddLines(["  imul rax, rbx"]);
      } else if kind == DIVIDE {
        AddLines(["  cqo", "  idiv rbx"]);
      } else {
        AddLines([]);
      }
    }

    method VisitFunctionCall(n: Node) returns (r: Result<()>)
      requires n.FunctionCall?
      modifies this
      ensures Done(r, Model(), EmitCall(n, old(Model())))
      decreases Size(n), 1
    {
      if n.name == "print" {
        if n.args == [] {
          return Err(IndexErrorMessage);
        }
        SizeListElement(n.args, 0);
        var v := Visit(n.args[0]);
        if v.Err? {
          return v;
        }
        ghost var visited := Model();
        assemblyCode := assemblyCode + ["  pop rdi ; Arg for print_int is in RDI"];
        assemblyCode := assemblyCode + ["  call print_int"];
        assert Model() == Append(visited, PrintCallLines);
        return Ok(());
      } else {
        return Err("Undefined function call '" + n.name + "'");
      }
    }

    method VisitReturn(n: Node) returns (r: Result<()>)
      requires n.Return?
      modifies this
      ensures Done(r, Model(), EmitReturn(n, old(Model())))
      decreases Size(n), 1
    {
      if n.value.None? {
        return Err(NoVisitMethod("NoneType"));
      }
      assert EmitOpt(n.value, Model()) == Emit(n.value.value, Model());
      assert Size(n.value.value) < Size(n);
      var v := Visit(n.value.value);
      if v.Err? {
        return v;
      }
      ghost var visited := Model();
      assemblyCode := assemblyCode + ["  ; Return statement"];
      assemblyCode := assemblyCode + ["  pop rdi ; Exit code for main"];
      assemblyCode := assemblyCode + ["  mov rax, 60 ; syscall for exit"];
      assemblyCode := assemblyCode + ["  syscall"];
      assert Model() == Append(visited, ReturnLines);
      return Ok(());
    }
  }
}
