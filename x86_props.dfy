/** Properties of the x86-64 stack emitter: visiting only appends to the
    assembly, and what it appends does not depend on what is already there;
    the symbol table hands out distinct negative multiples of 8; every
    arithmetic expression leaves exactly one value on the machine stack and
    never pops below where it started; the error cases; and the shape of
    `main` and of the whole output. */
module X86Props {
  import opened Wrappers
  import opened Text
  import opened Tokens
  import opened Ast
  import opened X86Spec

  // ---- visiting appends ----

  /** The same state with no assembly yet. */
  function Blank(g: Gen): Gen {
    g.(code := [])
  }

  /** An outcome with `pre` in front of its assembly. */
  function Shift(pre: seq<string>, r: Result<Gen>): Result<Gen> {
    match r
    case Ok(h) => Ok(h.(code := pre + h.code))
    case Err(m) => Err(m)
  }

  lemma ShiftShift(a: seq<string>, b: seq<string>, r: Result<Gen>)
    ensures Shift(a, Shift(b, r)) == Shift(a + b, r)
  {
    if r.Ok? {
      assert a + (b + r.value.code) == a + b + r.value.code;
    }
  }

  lemma ShiftAppend(pre: seq<string>, h: Gen, lines: seq<string>)
    ensures Shift(pre, Ok(Append(h, lines))) == Ok(Append(h.(code := pre + h.code), lines))
  {
    assert pre + (h.code + lines) == pre + h.code + lines;
  }

  /** What a visit appends is independent of the assembly before it: the
      outcome from any state is the outcome from the same state with no
      assembly, shifted behind the existing lines. */
  lemma {:induction false} CodeIndependent(n: Node, g: Gen)
    ensures Emit(n, g) == Shift(g.code, Emit(n, Blank(g)))
    decreases Size(n), 1
  {
    match n
    case Program(ds) => AllCodeIndependent(ds, g);
    case FunctionDecl(_, name, _, _) =>
      if name == "main" {
        MainCodeIndependent(n, g);
      } else {
        assert g.code + [] == g.code;
      }
    case Block(cs) => AllCodeIndependent(cs, g);
    case VarDecl(_, _, _, _) => VarDeclCodeIndependent(n, g);
    case Assign(_, _, _) => AssignCodeIndependent(n, g);
    case Num(t) => ShiftAppend(g.code, Blank(g), NumLines(t.value));
    case Var(t) => VarCodeIndependent(t.value, g);
    case BinOp(_, _, _) => BinOpCodeIndependent(n, g);
    case FunctionCall(_, _) => CallCodeIndependent(n, g);
    case Return(_) => ReturnCodeIndependent(n, g);
    case ConstDecl(_, _, _) => assert g.code + [] == g.code;
    case _ =>
  }

  lemma {:induction false} OptCodeIndependent(o: Option<Node>, g: Gen)
    ensures EmitOpt(o, g) == Shift(g.code, EmitOpt(o, Blank(g)))
    decreases SizeOpt(o), 2
  {
    if o.Some? {
      CodeIndependent(o.value, g);
    }
  }

  lemma {:induction false} AllCodeIndependent(ns: seq<Node>, g: Gen)
    ensures EmitAll(ns, g) == Shift(g.code, EmitAll(ns, Blank(g)))
    decreases SizeList(ns), 2
  {
    if ns == [] {
      assert g.code + [] == g.code;
    } else {
      SizeListElement(ns, 0);
      CodeIndependent(ns[0], g);
      var first := Emit(ns[0], Blank(g));
      if first.Ok? {
        var h := first.value;
        var g1 := h.(code := g.code + h.code);
        AllCodeIndependent(ns[1..], g1);
        AllCodeIndependent(ns[1..], h);
        assert Blank(g1) == Blank(h);
        ShiftShift(g.code, h.code, EmitAll(ns[1..], Blank(h)));
      }
    }
  }

  lemma {:induction false} MainCodeIndependent(n: Node, g: Gen)
    requires n.FunctionDecl?
    ensures EmitMain(n, g) == Shift(g.code, EmitMain(n, Blank(g)))
    decreases Size(n), 0
  {
    var p := Append(g, Prologue);
    var q := Append(Blank(g), Prologue);
    CodeIndependent(n.body, p);
    CodeIndependent(n.body, q);
    assert Blank(p) == Blank(q);
    assert q.code == Prologue;
    ShiftShift(g.code, Prologue, Emit(n.body, Blank(q)));
    assert p.code == g.code + Prologue;
    var body := Emit(n.body, q);
    if body.Ok? && (n.body.Block? || n.body.Compound?) {
      var h := body.value;
      var g2 := if NeedsImplicitExit(n.body.children) then Append(h, ImplicitExit) else h;
      if NeedsImplicitExit(n.body.children) {
        ShiftAppend(g.code, h, ImplicitExit);
      }
      ShiftAppend(g.code, g2, Epilogue);
    }
  }

  lemma {:induction false} VarDeclCodeIndependent(n: Node, g: Gen)
    requires n.VarDecl?
    ensures EmitVarDecl(n, g) == Shift(g.code, EmitVarDecl(n, Blank(g)))
    decreases Size(n), 0
  {
    var name := ValueOf(n.varNode);
    if name.Ok? && name.value !in g.table {
      var g0 := g.(table := g.table[name.value := g.stackIndex]);
      assert SizeOpt(n.assignNode) < Size(n);
      OptCodeIndependent(n.assignNode, g0);
      assert Blank(g0) == Blank(g).(table := g.table[name.value := g.stackIndex]);
      var r := EmitOpt(n.assignNode, Blank(g0));
      if r.Ok? {
        var store := StoreLines("  ; VarDecl: " + ValueStr(name.value), r.value.stackIndex);
        assert g.code + (r.value.code + store) == g.code + r.value.code + store;
      }
    }
  }

  lemma {:induction false} AssignCodeIndependent(n: Node, g: Gen)
    requires n.Assign?
    ensures EmitAssign(n, g) == Shift(g.code, EmitAssign(n, Blank(g)))
    decreases Size(n), 0
  {
    var name := ValueOf(n.left);
    if name.Ok? && name.value in g.table {
      CodeIndependent(n.right, g);
      var r := Emit(n.right, Blank(g));
      if r.Ok? {
        ShiftAppend(g.code, r.value, StoreLines("  ; Assign: " + ValueStr(name.value), r.value.table[name.value]));
      }
    }
  }

  lemma VarCodeIndependent(name: Value, g: Gen)
    ensures EmitVar(name, g) == Shift(g.code, EmitVar(name, Blank(g)))
  {
    assert Blank(g).table == g.table;
    assert Blank(g).(code := g.code + Blank(g).code) == g;
    if name !in g.table {
      ShiftAppend(g.code, Blank(g), VersionLines);
    } else {
      ShiftAppend(g.code, Blank(g), VarLines(name, g.table[name]));
    }
  }

  lemma {:induction false} BinOpCodeIndependent(n: Node, g: Gen)
    requires n.BinOp?
    ensures EmitBinOp(n, g) == Shift(g.code, EmitBinOp(n, Blank(g)))
    decreases Size(n), 0
  {
    CodeIndependent(n.left, g);
    var l := Emit(n.left, Blank(g));
    if l.Ok? {
      var h := l.value;
      var g1 := h.(code := g.code + h.code);
      CodeIndependent(n.right, g1);
      CodeIndependent(n.right, h);
      assert Blank(g1) == Blank(h);
      ShiftShift(g.code, h.code, Emit(n.right, Blank(h)));
      var r := Emit(n.right, h);
      if r.Ok? {
        ShiftAppend(g.code, r.value, BinOpTail(n.op.kind));
      }
    }
  }

  lemma {:induction false} CallCodeIndependent(n: Node, g: Gen)
    requires n.FunctionCall?
    ensures EmitCall(n, g) == Shift(g.code, EmitCall(n, Blank(g)))
    decreases Size(n), 0
  {
    if n.name == "print" && n.args != [] {
      SizeListElement(n.args, 0);
      CodeIndependent(n.args[0], g);
      var r := Emit(n.args[0], Blank(g));
      if r.Ok? {
        ShiftAppend(g.code, r.value, PrintCallLines);
      }
    }
  }

  lemma {:induction false} ReturnCodeIndependent(n: Node, g: Gen)
    requires n.Return?
    ensures EmitReturn(n, g) == Shift(g.code, EmitReturn(n, Blank(g)))
    decreases Size(n), 0
  {
    OptCodeIndependent(n.value, g);
    var r := EmitOpt(n.value, Blank(g));
    if r.Ok? {
      ShiftAppend(g.code, r.value, ReturnLines);
    }
  }

  /** The lines a visit appends to an empty assembly. */
  function Lines(n: Node, g: Gen): Result<seq<string>> {
    var h :- Emit(n, Blank(g));
    Ok(h.code)
  }

  /** A binary operation emits its left operand's lines, then its right
      operand's, then the pops and the instruction. */
  lemma BinOpOrder(n: Node, g: Gen)
    requires n.BinOp?
    requires Emit(n, g).Ok?
    ensures Emit(n.left, g).Ok?
    ensures Lines(n, g).Ok? && Lines(n.left, g).Ok? && Lines(n.right, Emit(n.left, g).value).Ok?
    ensures Lines(n, g).value
      == Lines(n.left, g).value + Lines(n.right, Emit(n.left, g).value).value + BinOpTail(n.op.kind)
  {
    CodeIndependent(n, g);
    CodeIndependent(n.left, g);
    var l := Emit(n.left, Blank(g)).value;
    assert Blank(Emit(n.left, g).value) == Blank(l);
    CodeIndependent(n.right, l);
  }

  // ---- expressions ----

  /** The trees the parser builds in expression position. */
  predicate Pure(n: Node)
    decreases Size(n), 1
  {
    match n
    case Num(_) => true
    case Var(_) => true
    case BinOp(l, _, r) => Pure(l) && Pure(r)
    case FunctionCall(_, args) => PureList(args)
    case _ => false
  }

  predicate PureList(ns: seq<Node>)
    decreases SizeList(ns), 2
  {
    ns == [] || (SizeListElement(ns, 0); Pure(ns[0]) && PureList(ns[1..]))
  }

  /** Visiting an expression declares nothing and moves no slot. */
  lemma {:induction false} PureKeepsState(n: Node, g: Gen)
    requires Pure(n)
    requires Emit(n, g).Ok?
    ensures Emit(n, g).value.table == g.table
    ensures Emit(n, g).value.stackIndex == g.stackIndex
    decreases Size(n)
  {
    match n
    case BinOp(l, _, r) =>
      PureKeepsState(l, g);
      PureKeepsState(r, Emit(l, g).value);
    case FunctionCall(_, args) =>
      SizeListElement(args, 0);
      PureKeepsState(args[0], g);
    case _ =>
  }

  /** The arithmetic trees: numbers, variables and binary operations. */
  predicate Arith(n: Node) {
    match n
    case Num(_) => true
    case Var(_) => true
    case BinOp(l, _, r) => Arith(l) && Arith(r)
    case _ => false
  }

  // ---- the machine stack ----

  /** What a line does to the machine stack: +1 for a push, -1 for a pop. */
  function LineEffect(line: string): int {
    if "  push" <= line then 1 else if "  pop" <= line then -1 else 0
  }

  /** The net stack effect of a run of lines, counted from the end. */
  function Effect(lines: seq<string>): int {
    if lines == [] then 0 else Effect(lines[..|lines| - 1]) + LineEffect(lines[|lines| - 1])
  }

  lemma PushLine(rest: string)
    ensures LineEffect("  push" + rest) == 1
  {
    assert ("  push" + rest)[..6] == "  push";
  }

  lemma PopLine(rest: string)
    ensures LineEffect("  pop" + rest) == -1
  {
    var line := "  pop" + rest;
    assert line[..5] == "  pop";
    assert line[3] == 'o';
  }

  /** A line whose third character is not `p` neither pushes nor pops. */
  lemma QuietLine(line: string)
    requires |line| >= 3 && line[2] != 'p'
    ensures LineEffect(line) == 0
  {
    assert !("  push" <= line);
    assert !("  pop" <= line);
  }

  lemma EffectOne(x: string)
    ensures Effect([x]) == LineEffect(x)
  {
    assert [x][..0] == [];
  }

  lemma {:induction false} EffectAppend(a: seq<string>, b: seq<string>)
    ensures Effect(a + b) == Effect(a) + Effect(b)
    decreases |b|
  {
    if b == [] {
      assert a + b == a;
    } else {
      assert (a + b)[..|a + b| - 1] == a + b[..|b| - 1];
      EffectAppend(a, b[..|b| - 1]);
    }
  }

  /** Leaves exactly one more value on the stack than it found, and never
      pops below where it started. */
  predicate OnePush(lines: seq<string>) {
    Effect(lines) == 1 && forall k :: 0 <= k <= |lines| ==> Effect(lines[..k]) >= 0
  }

  /** A comment followed by a push. */
  lemma CommentThenPush(comment: string, rest: string)
    requires |comment| >= 3 && comment[2] != 'p'
    ensures OnePush([comment, "  push" + rest])
  {
    var lines := [comment, "  push" + rest];
    QuietLine(comment);
    PushLine(rest);
    EffectOne(comment);
    assert lines[..0] == [];
    assert lines[..1] == [comment];
    assert lines[..2] == lines;
    assert lines[..1] == lines[..|lines| - 1];
  }

  /** The lines of an operator, which touch no stack slot. */
  lemma OpsNeutral(t: TokenType)
    ensures forall j :: 0 <= j <= |OpLines(t)| ==> Effect(OpLines(t)[..j]) == 0
  {
    var ops := OpLines(t);
    forall j | 0 <= j <= |ops| ensures Effect(ops[..j]) == 0 {
      if j >= 1 {
        QuietLine(ops[0]);
        EffectOne(ops[0]);
        assert ops[..1] == [ops[0]];
      }
      if j == 2 {
        QuietLine(ops[1]);
        assert ops[..2][..1] == ops[..1];
      }
    }
  }

  /** The two pops of a binary operation, after its comment. */
  const PopPair: seq<string> := ["  ; Binary Operation", "  pop rbx ; Right side", "  pop rax ; Left side"]

  lemma PopPairEffect()
    ensures Effect(PopPair) == -2
    ensures forall k :: 0 <= k <= |PopPair| ==> Effect(PopPair[..k]) >= -2
  {
    var c := PopPair[0];
    QuietLine(c);
    EffectOne(c);
    PopLine(" rbx ; Right side");
    PopLine(" rax ; Left side");
    assert PopPair[..1] == [c];
    assert Effect(PopPair[..2]) == -1 by { assert PopPair[..2][..1] == [c]; }
    assert PopPair[..2] == PopPair[..|PopPair| - 1];
    assert PopPair[..3] == PopPair;
    forall k | 0 <= k <= |PopPair| ensures Effect(PopPair[..k]) >= -2 {
      assert k == 0 || k == 1 || k == 2 || k == 3;
    }
  }

  lemma TailEffect(t: TokenType)
    ensures Effect(BinOpTail(t)) == -1
    ensures forall k :: 0 <= k <= |BinOpTail(t)| ==> Effect(BinOpTail(t)[..k]) >= -2
  {
    var tail := BinOpTail(t);
    var ops := OpLines(t);
    var push := ["  push rax ; Push result"];
    assert tail == PopPair + ops + push;
    PushLine(" rax ; Push result");
    EffectOne(push[0]);
    PopPairEffect();
    OpsNeutral(t);
    assert ops[..|ops|] == ops;
    EffectAppend(PopPair, ops);
    EffectAppend(PopPair + ops, push);
    forall k | 0 <= k <= |tail| ensures Effect(tail[..k]) >= -2 {
      if k <= 3 {
        assert tail[..k] == PopPair[..k];
      } else if k <= 3 + |ops| {
        assert tail[..k] == PopPair + ops[..k - 3];
        EffectAppend(PopPair, ops[..k - 3]);
      } else {
        assert tail[..k] == tail;
      }
    }
  }

  /** Every arithmetic tree leaves exactly one value on the machine stack,
      and its code never pops a value it did not push. */
  lemma {:induction false} ArithPushesOne(n: Node, g: Gen)
    requires Arith(n)
    requires Emit(n, g).Ok?
    ensures Lines(n, g).Ok? && OnePush(Lines(n, g).value)
    decreases Size(n)
  {
    match n
    case Num(t) => NumPushesOne(t, g);
    case Var(t) => VarPushesOne(t, g);
    case BinOp(l, op, r) =>
      BinOpOrder(n, g);
      ArithPushesOne(l, g);
      ArithPushesOne(r, Emit(l, g).value);
      OnePushBinOp(Lines(l, g).value, Lines(r, Emit(l, g).value).value, op.kind);
  }

  lemma NumPushesOne(t: Token, g: Gen)
    ensures Lines(Num(t), g).Ok? && OnePush(Lines(Num(t), g).value)
  {
    assert Lines(Num(t), g).value == NumLines(t.value);
    CommentThenPush("  ; Pushing number " + ValueStr(t.value), " " + ValueStr(t.value));
    assert "  push " + ValueStr(t.value) == "  push" + (" " + ValueStr(t.value));
  }

  lemma VarPushesOne(t: Token, g: Gen)
    requires Emit(Var(t), g).Ok?
    ensures Lines(Var(t), g).Ok? && OnePush(Lines(Var(t), g).value)
  {
    VarLinesOf(t, g);
    if t.value in g.table {
      VarLinesPushOne(t.value, g.table[t.value]);
    } else {
      VersionPushesOne();
    }
  }

  lemma VarLinesOf(t: Token, g: Gen)
    ensures t.value in g.table ==> Lines(Var(t), g) == Ok(VarLines(t.value, g.table[t.value]))
    ensures t.value !in g.table && t.value == Version ==> Lines(Var(t), g) == Ok(VersionLines)
    ensures t.value !in g.table && t.value != Version ==> Lines(Var(t), g) == Err(UndeclaredMessage(t.value))
  {
    assert Blank(g).table == g.table;
    assert Emit(Var(t), Blank(g)) == EmitVar(t.value, Blank(g));
    if t.value in g.table {
      assert [] + VarLines(t.value, g.table[t.value]) == VarLines(t.value, g.table[t.value]);
    } else {
      assert [] + VersionLines == VersionLines;
    }
  }

  lemma VarLinesPushOne(name: Value, offset: int)
    ensures OnePush(VarLines(name, offset))
  {
    var slot := Slot(offset);
    CommentThenPush("  ; Pushing variable " + ValueStr(name), " qword " + slot);
    assert "  push qword " + slot == "  push" + (" qword " + slot);
  }

  lemma VersionPushesOne()
    ensures OnePush(VersionLines)
  {
    PushLine(" 1");
    EffectOne("  push 1");
    assert VersionLines[..0] == [];
    assert VersionLines[..1] == VersionLines;
  }

  lemma OnePushBinOp(a: seq<string>, b: seq<string>, t: TokenType)
    requires OnePush(a) && OnePush(b)
    ensures OnePush(a + b + BinOpTail(t))
  {
    var tail := BinOpTail(t);
    var all := a + b + tail;
    TailEffect(t);
    EffectAppend(a, b);
    EffectAppend(a + b, tail);
    forall k | 0 <= k <= |all| ensures Effect(all[..k]) >= 0 {
      if k <= |a| {
        assert all[..k] == a[..k];
      } else if k <= |a| + |b| {
        assert all[..k] == a + b[..k - |a|];
        EffectAppend(a, b[..k - |a|]);
      } else {
        assert all[..k] == (a + b) + tail[..k - |a| - |b|];
        EffectAppend(a + b, tail[..k - |a| - |b|]);
      }
    }
    assert all[..|all|] == all;
  }

  // ---- the symbol table ----

  /** The shapes the parser builds: statements in blocks and function
      bodies, expressions wherever a value is expected. */
  predicate StmtShape(n: Node)
    decreases Size(n), 1
  {
    match n
    case Program(ds) => ShapeList(ds)
    case FunctionDecl(_, name, _, body) => name != "main" || StmtShape(body)
    case Block(cs) => ShapeList(cs)
    case VarDecl(_, _, a, _) => a.Some? && Pure(a.value)
    case Assign(_, _, r) => Pure(r)
    case Return(v) => v.Some? && Pure(v.value)
    case ConstDecl(_, _, _) => true
    case _ => Pure(n)
  }

  predicate ShapeList(ns: seq<Node>)
    decreases SizeList(ns), 2
  {
    ns == [] || (SizeListElement(ns, 0); StmtShape(ns[0]) && ShapeList(ns[1..]))
  }

  /** The slots handed out so far: the next one is 8 below the lowest, every
      declared name sits at a distinct negative multiple of 8 above it. */
  predicate Slots(g: Gen) {
    && g.stackIndex == -8 * (|g.table| + 1)
    && (forall v :: v in g.table ==> g.stackIndex < g.table[v] < 0 && g.table[v] % 8 == 0)
    && (forall v, w :: v in g.table && w in g.table && v != w ==> g.table[v] != g.table[w])
  }

  /** The generator starts with no names and slot -8. */
  lemma SlotsInitially(code: seq<string>)
    ensures Slots(Gen(code, map[], -8))
  {
  }

  /** A declaration binds a new name to the current slot, after visiting
      its initial value, and moves the next slot down by 8. */
  lemma DeclaresAtCurrentSlot(n: Node, g: Gen)
    requires n.VarDecl? && n.assignNode.Some? && Pure(n.assignNode.value)
    requires Emit(n, g).Ok?
    ensures ValueOf(n.varNode).Ok?
    ensures ValueOf(n.varNode).value !in g.table
    ensures Emit(n, g).value.table == g.table[ValueOf(n.varNode).value := g.stackIndex]
    ensures Emit(n, g).value.stackIndex == g.stackIndex - 8
  {
    assert Emit(n, g) == EmitVarDecl(n, g);
    assert ValueOf(n.varNode).Ok?;
    var name := ValueOf(n.varNode).value;
    var g0 := g.(table := g.table[name := g.stackIndex]);
    assert EmitOpt(n.assignNode, g0) == Emit(n.assignNode.value, g0);
    PureKeepsState(n.assignNode.value, g0);
  }

  lemma SlotMultiple(k: int)
    ensures (-8 * k) % 8 == 0
  {
    assert -8 * k == 8 * (-k);
  }

  /** A visited declaration keeps the slots distinct and in range. */
  lemma DeclarationKeepsSlots(n: Node, g: Gen)
    requires n.VarDecl? && n.assignNode.Some? && Pure(n.assignNode.value)
    requires Slots(g) && Emit(n, g).Ok?
    ensures Slots(Emit(n, g).value)
  {
    DeclaresAtCurrentSlot(n, g);
    var name := ValueOf(n.varNode).value;
    var si := g.stackIndex;
    NewSlotKeepsSlots(g.table, name, si);
  }

  /** Binding a fresh name to the next slot keeps the slot invariant. */
  lemma NewSlotKeepsSlots(table: map<Value, int>, name: Value, si: int)
    requires name !in table && Slots(Gen([], table, si))
    ensures Slots(Gen([], table[name := si], si - 8))
  {
    var t := table[name := si];
    assert |t| == |table| + 1 by {
      assert t.Keys == table.Keys + {name};
    }
    SlotMultiple(|table| + 1);
    assert si - 8 == -8 * (|t| + 1);
  }

  /** Slots are a property of the table and the next slot only. */
  lemma SlotsIgnoreCode(g: Gen, code: seq<string>)
    ensures Slots(g) == Slots(g.(code := code))
  {
  }

  /** Every statement the parser builds keeps the slot invariant. */
  lemma {:induction false} StatementKeepsSlots(n: Node, g: Gen)
    requires StmtShape(n) && Slots(g) && Emit(n, g).Ok?
    ensures Slots(Emit(n, g).value)
    decreases Size(n), 1
  {
    match n
    case Program(ds) => ListKeepsSlots(ds, g);
    case FunctionDecl(_, name, _, body) =>
      if name == "main" {
        MainKeepsSlots(n, g);
      }
    case Block(cs) => ListKeepsSlots(cs, g);
    case VarDecl(_, _, _, _) => DeclarationKeepsSlots(n, g);
    case Assign(_, _, r) => AssignKeepsSlots(n, g);
    case Return(v) => ReturnKeepsSlots(n, g);
    case ConstDecl(_, _, _) =>
    case _ => PureKeepsState(n, g);
  }

  lemma AssignKeepsSlots(n: Node, g: Gen)
    requires n.Assign? && Pure(n.right) && Slots(g) && EmitAssign(n, g).Ok?
    ensures Slots(EmitAssign(n, g).value)
  {
    PureKeepsState(n.right, g);
  }

  lemma ReturnKeepsSlots(n: Node, g: Gen)
    requires n.Return? && n.value.Some? && Pure(n.value.value) && Slots(g) && EmitReturn(n, g).Ok?
    ensures Slots(EmitReturn(n, g).value)
  {
    assert EmitOpt(n.value, g) == Emit(n.value.value, g);
    PureKeepsState(n.value.value, g);
  }

  lemma {:induction false} MainKeepsSlots(n: Node, g: Gen)
    requires n.FunctionDecl? && StmtShape(n.body) && Slots(g) && EmitMain(n, g).Ok?
    ensures Slots(EmitMain(n, g).value)
    decreases Size(n), 0
  {
    StatementKeepsSlots(n.body, Append(g, Prologue));
  }

  lemma {:induction false} ListKeepsSlots(ns: seq<Node>, g: Gen)
    requires ShapeList(ns) && Slots(g) && EmitAll(ns, g).Ok?
    ensures Slots(EmitAll(ns, g).value)
    decreases SizeList(ns), 2
  {
    if ns != [] {
      SizeListElement(ns, 0);
      StatementKeepsSlots(ns[0], g);
      ListKeepsSlots(ns[1..], Emit(ns[0], g).value);
    }
  }

  // ---- the error cases ----

  /** A second declaration of a name raises. */
  lemma RedeclarationRaises(n: Node, g: Gen)
    requires n.VarDecl? && ValueOf(n.varNode).Ok? && ValueOf(n.varNode).value in g.table
    ensures Emit(n, g) == Err(RedeclaredMessage(ValueOf(n.varNode).value))
  {
  }

  /** Assigning to a name that was never declared raises, before the right
      side is visited. */
  lemma AssignUndeclaredRaises(n: Node, g: Gen)
    requires n.Assign? && ValueOf(n.left).Ok? && ValueOf(n.left).value !in g.table
    ensures Emit(n, g) == Err(AssignUndeclaredMessage(ValueOf(n.left).value))
  {
  }

  /** A `Return` without a value as the target of an assignment has the
      `value` `None`, which is looked up like any other name. */
  lemma AssignToEmptyReturn(op: Token, right: Node, g: Gen)
    requires VNone !in g.table
    ensures Emit(Assign(Return(None), op, right), g) == Err("Assigning to undeclared variable 'None'")
  {
    AssignUndeclaredRaises(Assign(Return(None), op, right), g);
  }

  /** Reading an undeclared name raises, except `VERSION`, which pushes 1. */
  lemma UndeclaredRead(t: Token, g: Gen)
    requires t.value !in g.table
    ensures t.value == Version ==> Emit(Var(t), g) == Ok(Append(g, ["  push 1"]))
    ensures t.value != Version ==> Emit(Var(t), g) == Err(UndeclaredMessage(t.value))
  {
  }

  /** Only `print` can be called, and only with an argument. */
  lemma OnlyPrintCalls(name: string, args: seq<Node>, g: Gen)
    ensures name != "print" ==> Emit(FunctionCall(name, args), g) == Err(UndefinedCallMessage(name))
    ensures name == "print" && args == [] ==> Emit(FunctionCall(name, args), g) == Err(IndexErrorMessage)
  {
  }

  /** `print(e)` is the code of `e`, then the pop into `rdi` and the call. */
  lemma PrintCallLayout(e: Node, rest: seq<Node>, g: Gen)
    requires Emit(FunctionCall("print", [e] + rest), g).Ok?
    ensures Emit(e, g).Ok? && Lines(e, g).Ok?
    ensures Lines(FunctionCall("print", [e] + rest), g) == Ok(Lines(e, g).value + PrintCallLines)
  {
    var n := FunctionCall("print", [e] + rest);
    assert n.args[0] == e;
    assert Emit(n, g) == EmitCall(n, g);
    assert Emit(n, Blank(g)) == EmitCall(n, Blank(g));
    CodeIndependent(e, g);
  }

  lemma PrintCallEffect()
    ensures Effect(PrintCallLines) == -1
  {
    PopLine(" rdi ; Arg for print_int is in RDI");
    QuietLine("  call print_int");
    EffectOne("  pop rdi ; Arg for print_int is in RDI");
    assert PrintCallLines[..1] == ["  pop rdi ; Arg for print_int is in RDI"];
  }

  /** `print(e)` passes the value of an arithmetic `e` to `print_int` in
      `rdi` and leaves the stack as it found it. */
  lemma PrintCallBalanced(e: Node, rest: seq<Node>, g: Gen)
    requires Arith(e)
    requires Emit(FunctionCall("print", [e] + rest), g).Ok?
    ensures Lines(FunctionCall("print", [e] + rest), g).Ok?
    ensures Effect(Lines(FunctionCall("print", [e] + rest), g).value) == 0
  {
    PrintCallLayout(e, rest, g);
    ArithPushesOne(e, g);
    PrintCallEffect();
    EffectAppend(Lines(e, g).value, PrintCallLines);
  }

  // ---- main and the whole output ----

  /** Any function but `main` emits nothing and changes nothing. */
  lemma OnlyMainEmitted(n: Node, g: Gen)
    requires n.FunctionDecl? && n.funcName != "main"
    ensures Emit(n, g) == Ok(g)
  {
  }

  /** The parser gives every function a `Compound` body, and the emitter
      has a visitor for `Block` only: visiting a parsed `main` raises. */
  lemma CompoundMainRaises(n: Node, g: Gen)
    requires n.FunctionDecl? && n.funcName == "main" && n.body.Compound?
    ensures Emit(n, g) == Err(NoVisitMethod("Compound"))
  {
    assert Emit(n.body, Append(g, Prologue)) == Err(NoVisitMethod("Compound"));
    assert Emit(n, g) == EmitMain(n, g);
  }

  /** With a parsed `main` among the declarations, generation fails once
      it reaches it, whatever comes before. */
  lemma {:induction false} CompoundMainInProgram(ds: seq<Node>, k: nat, g: Gen)
    requires k < |ds| && ds[k].FunctionDecl? && ds[k].funcName == "main" && ds[k].body.Compound?
    ensures EmitAll(ds, g).Err?
    decreases k
  {
    SizeListElement(ds, 0);
    if k == 0 {
      CompoundMainRaises(ds[0], g);
    } else if Emit(ds[0], g).Ok? {
      assert ds[1..][k - 1] == ds[k];
      CompoundMainInProgram(ds[1..], k - 1, Emit(ds[0], g).value);
    }
  }

  /** `main` is the prologue, its body, the exit syscall exactly when the
      body does not end in a `return`, and the epilogue. */
  lemma MainLayout(n: Node, g: Gen)
    requires n.FunctionDecl? && n.funcName == "main" && n.body.Block?
    requires Emit(n, g).Ok?
    ensures Lines(n.body, g).Ok? && Lines(n, g).Ok?
    ensures Lines(n, g).value == Prologue + Lines(n.body, g).value
      + (if NeedsImplicitExit(n.body.children) then ImplicitExit else []) + Epilogue
  {
    CodeIndependent(n, g);
    var q := Append(Blank(g), Prologue);
    CodeIndependent(n.body, q);
    assert Blank(q) == Blank(g);
  }

  /** A body ending in `return` exits through it; any other body gets the
      implicit exit with the value left on the stack. */
  lemma ReturnLastSkipsImplicitExit(cs: seq<Node>)
    ensures cs != [] && cs[|cs| - 1].Return? ==> !NeedsImplicitExit(cs)
    ensures cs == [] ==> NeedsImplicitExit(cs)
  {
  }

  /** The tree as visited from the generator's first state. */
  const Start: Gen := Gen(Header + PrintFunction, map[], -8)

  /** The output is the headers and the print routine, then the tree's own
      lines, one per line of text. */
  lemma GenerateLayout(tree: Node)
    ensures Generate(tree).Ok? <==> Lines(tree, Start).Ok?
    ensures Generate(tree).Ok? ==>
      Generate(tree).value == Join(Header + PrintFunction + Lines(tree, Start).value, "\n")
    ensures Generate(tree).Ok? ==> Join(Header + PrintFunction, "\n") <= Generate(tree).value
  {
    CodeIndependent(tree, Start);
    if Generate(tree).Ok? {
      var body := Lines(tree, Start).value;
      if body == [] {
        assert Header + PrintFunction + body == Header + PrintFunction;
      } else {
        JoinConcat(Header + PrintFunction, body, "\n");
      }
    }
  }
}
