/** What the x86-64 stack emitter produces, as functions: the state of a
    `CodeGenerator` (its assembly lines, symbol table and next stack slot)
    after visiting a tree, or the exception the visit raises. Every
    expression leaves its value on the machine stack; a variable lives at a
    fixed negative offset from `rbp`. */
module X86Spec {
  import opened Wrappers
  import opened Text
  import opened Tokens
  import opened Ast

  /** The generator's state: `assembly_code`, `symbol_table` and
      `stack_index`. */
  datatype Gen = Gen(code: seq<string>, table: map<Value, int>, stackIndex: int)

  function Append(g: Gen, lines: seq<string>): Gen {
    g.(code := g.code + lines)
  }

  /** The `.bss` and `.text` headers `generate` writes first. */
  const Header: seq<string> := ["section .bss", "  print_buf resb 32\n", "section .text", "global _start"]

  /** `_add_print_function`: the decimal printing routine, as fixed lines. */
  const PrintFunction: seq<string> := [
    "print_int:",
    "  mov rax, rdi",
    "  lea rdi, [rel print_buf + 31]",
    "  mov byte [rdi], 10",
    "  mov r10, 10",
    "  mov r9, 1",
    "print_int_loop:",
    "  xor rdx, rdx",
    "  div r10",
    "  add dl, '0'",
    "  dec rdi",
    "  mov [rdi], dl",
    "  inc r9",
    "  test rax, rax",
    "  jnz print_int_loop",
    "print_int_write:",
    "  mov rax, 1",
    "  mov rsi, rdi",
    "  mov rdx, r9",
    "  mov rdi, 1",
    "  syscall",
    "  ret",
    ""]

  const Prologue: seq<string> := ["_start:", "  push rbp", "  mov rbp, rsp", "  sub rsp, 32 ; Allocate stack frame"]
  const ImplicitExit: seq<string> := ["  pop rdi ; Implicit exit code", "  mov rax, 60 ; syscall for exit", "  syscall"]
  const Epilogue: seq<string> := ["  ; Epilogue", "  add rsp, 32 ; Deallocate stack frame", "  pop rbp"]
  const ReturnLines: seq<string> := ["  ; Return statement", "  pop rdi ; Exit code for main", "  mov rax, 60 ; syscall for exit", "  syscall"]
  const PrintCallLines: seq<string> := ["  pop rdi ; Arg for print_int is in RDI", "  call print_int"]
  const VersionLines: seq<string> := ["  push 1"]
  const Version: Value := VStr("VERSION")

  /** `[rbp-8]` and the like: Python's `f"[rbp{offset}]"`. */
  function Slot(offset: int): string {
    "[rbp" + IntToString(offset) + "]"
  }

  /** The `value` attribute. `Var`, `Num` and `Type` carry their token's
      value, a `StringLiteral` its text, a `CharLiteral` its code and a
      `Return` without a value `None`; these are what the symbol table is
      keyed by. A `Return` whose value is a node is not a key the table can
      hold here, and any other node raises `AttributeError`. */
  function ValueOf(n: Node): Result<Value> {
    match n
    case Var(t) => Ok(t.value)
    case Num(t) => Ok(t.value)
    case Type(t, _) => Ok(t.value)
    case StringLiteral(text) => Ok(VStr(text))
    case CharLiteral(code) => Ok(VInt(code))
    case Return(None) => Ok(VNone)
    case _ => Err("'" + ClassName(n) + "' object has no attribute 'value'")
  }

  /** `generic_visit`: the classes without a `visit_` method. */
  function NoVisitMethod(className: string): string {
    "No visit_" + className + " method"
  }

  function RedeclaredMessage(name: Value): string {
    "Variable '" + ValueStr(name) + "' already declared."
  }

  function AssignUndeclaredMessage(name: Value): string {
    "Assigning to undeclared variable '" + ValueStr(name) + "'"
  }

  function UndeclaredMessage(name: Value): string {
    "Undeclared variable '" + ValueStr(name) + "'"
  }

  function UndefinedCallMessage(name: string): string {
    "Undefined function call '" + name + "'"
  }

  const IndexErrorMessage: string := "list index out of range"

  /** The instruction a binary operator selects; any other token type
      selects none. */
  function OpLines(t: TokenType): seq<string> {
    match t
    case PLUS => ["  add rax, rbx"]
    case MINUS => ["  sub rax, rbx"]
    case MULTIPLY => ["  imul rax, rbx"]
    case DIVIDE => ["  cqo", "  idiv rbx"]
    case _ => []
  }

  function BinOpTail(t: TokenType): seq<string> {
    ["  ; Binary Operation", "  pop rbx ; Right side", "  pop rax ; Left side"] + OpLines(t) + ["  push rax ; Push result"]
  }

  function NumLines(v: Value): seq<string> {
    ["  ; Pushing number " + ValueStr(v), "  push " + ValueStr(v)]
  }

  function VarLines(name: Value, offset: int): seq<string> {
    ["  ; Pushing variable " + ValueStr(name), "  push qword " + Slot(offset)]
  }

  function StoreLines(comment: string, offset: int): seq<string> {
    [comment, "  pop rax", "  mov " + Slot(offset) + ", rax"]
  }

  /** `visit(node)`: the state after visiting, or the exception. The table
      only ever gains names. */
  function Emit(n: Node, g: Gen): (r: Result<Gen>)
    ensures r.Ok? ==> g.table.Keys <= r.value.table.Keys
    decreases Size(n), 1
  {
    match n
    case Program(ds) => EmitAll(ds, g)
    case FunctionDecl(_, name, _, body) => if name == "main" then EmitMain(n, g) else Ok(g)
    case Block(cs) => EmitAll(cs, g)
    case VarDecl(_, _, _, _) => EmitVarDecl(n, g)
    case Assign(_, _, _) => EmitAssign(n, g)
    case Num(t) => Ok(Append(g, NumLines(t.value)))
    case Var(t) => EmitVar(t.value, g)
    case BinOp(_, _, _) => EmitBinOp(n, g)
    case FunctionCall(_, _) => EmitCall(n, g)
    case Return(_) => EmitReturn(n, g)
    case ConstDecl(_, _, _) => Ok(g)
    case _ => Err(NoVisitMethod(ClassName(n)))
  }

  /** `visit` of an attribute that may be `None`: `visit(None)` looks for
      `visit_NoneType`. */
  function EmitOpt(o: Option<Node>, g: Gen): (r: Result<Gen>)
    ensures r.Ok? ==> g.table.Keys <= r.value.table.Keys
    decreases SizeOpt(o), 2
  {
    match o
    case None => Err(NoVisitMethod("NoneType"))
    case Some(n) => Emit(n, g)
  }

  /** The loops of `visit_Program` and `visit_Block`. */
  function EmitAll(ns: seq<Node>, g: Gen): (r: Result<Gen>)
    ensures r.Ok? ==> g.table.Keys <= r.value.table.Keys
    decreases SizeList(ns), 2
  {
    if ns == [] then Ok(g)
    else
      SizeListElement(ns, 0);
      var g1 :- Emit(ns[0], g);
      EmitAll(ns[1..], g1)
  }

  /** `visit_FunctionDecl` for `main`: the prologue, the body, the exit
      syscall unless the body ends in a `return`, and the epilogue. */
  function EmitMain(n: Node, g: Gen): (r: Result<Gen>)
    requires n.FunctionDecl?
    ensures r.Ok? ==> g.table.Keys <= r.value.table.Keys
    decreases Size(n), 0
  {
    var g1 :- Emit(n.body, Append(g, Prologue));
    if !(n.body.Block? || n.body.Compound?) then Err("'" + ClassName(n.body) + "' object has no attribute 'children'")
    else
      var g2 := if NeedsImplicitExit(n.body.children) then Append(g1, ImplicitExit) else g1;
      Ok(Append(g2, Epilogue))
  }

  /** `not node.body.children or not isinstance(node.body.children[-1], Return)`. */
  predicate NeedsImplicitExit(cs: seq<Node>) {
    cs == [] || !cs[|cs| - 1].Return?
  }

  /** `visit_VarDecl`: the name gets the current slot before the initial
      value is visited; the slot index moves down by 8 afterwards. */
  function EmitVarDecl(n: Node, g: Gen): (r: Result<Gen>)
    requires n.VarDecl?
    ensures r.Ok? ==> g.table.Keys <= r.value.table.Keys
    decreases Size(n), 0
  {
    var name :- ValueOf(n.varNode);
    if name in g.table then Err(RedeclaredMessage(name))
    else
      var g1 :- EmitOpt(n.assignNode, g.(table := g.table[name := g.stackIndex]));
      Ok(Gen(g1.code + StoreLines("  ; VarDecl: " + ValueStr(name), g1.stackIndex), g1.table, g1.stackIndex - 8))
  }

  /** `visit_Assign`: the name must be declared before the right side is
      visited. */
  function EmitAssign(n: Node, g: Gen): (r: Result<Gen>)
    requires n.Assign?
    ensures r.Ok? ==> g.table.Keys <= r.value.table.Keys
    decreases Size(n), 0
  {
    var name :- ValueOf(n.left);
    if name !in g.table then Err(AssignUndeclaredMessage(name))
    else
      var g1 :- Emit(n.right, g);
      Ok(Append(g1, StoreLines("  ; Assign: " + ValueStr(name), g1.table[name])))
  }

  /** `visit_Var`: a declared name is read from its slot; the undeclared
      name `VERSION` pushes 1. */
  function EmitVar(name: Value, g: Gen): Result<Gen> {
    if name !in g.table then
      if name == Version then Ok(Append(g, VersionLines)) else Err(UndeclaredMessage(name))
    else Ok(Append(g, VarLines(name, g.table[name])))
  }

  /** `visit_BinOp`: left, then right, then both popped and combined. */
  function EmitBinOp(n: Node, g: Gen): (r: Result<Gen>)
    requires n.BinOp?
    ensures r.Ok? ==> g.table.Keys <= r.value.table.Keys
    decreases Size(n), 0
  {
    var g1 :- Emit(n.left, g);
    var g2 :- Emit(n.right, g1);
    Ok(Append(g2, BinOpTail(n.op.kind)))
  }

  /** `visit_FunctionCall`: only `print`, with its first argument. */
  function EmitCall(n: Node, g: Gen): (r: Result<Gen>)
    requires n.FunctionCall?
    ensures r.Ok? ==> g.table.Keys <= r.value.table.Keys
    decreases Size(n), 0
  {
    if n.name != "print" then Err(UndefinedCallMessage(n.name))
    else if n.args == [] then Err(IndexErrorMessage)
    else
      SizeListElement(n.args, 0);
      var g1 :- Emit(n.args[0], g);
      Ok(Append(g1, PrintCallLines))
  }

  /** `visit_Return`: the value, then the exit syscall with it. */
  function EmitReturn(n: Node, g: Gen): (r: Result<Gen>)
    requires n.Return?
    ensures r.Ok? ==> g.table.Keys <= r.value.table.Keys
    decreases Size(n), 0
  {
    var g1 :- EmitOpt(n.value, g);
    Ok(Append(g1, ReturnLines))
  }

  /** `generate(tree)`: the headers, the print routine, then the tree, one
      line per entry. */
  function Generate(tree: Node): Result<string> {
    var g :- Emit(tree, Gen(Header + PrintFunction, map[], -8));
    Ok(Join(g.code, "\n"))
  }
}
