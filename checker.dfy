/** The loop checker: a `loop` with no `break` in its body (W001), and a
    `while` whose condition is a nonzero integer literal and whose body has
    no `break` (W002), are reported as warnings that may run forever. The
    console output of `_add_warning` is modelled as the list `printed` of the
    texts passed to `print`. */
module LoopChecker {
  import opened Wrappers
  import opened Tokens
  import opened Ast

  // ---- `_has_break` ----

  /** `_has_break(node)`: the node is a `BreakStmt`, or some AST-valued
      attribute (or element of a list attribute) has a break beneath it. */
  function HasBreak(n: Node): bool
    decreases Size(n), 1
  {
    if n.BreakStmt? then true
    else
      ChildrenSize(n);
      HasBreakList(Children(n))
  }

  /** The `for` loops of `_has_break` over the attributes, returning at the
      first child that has a break. */
  function HasBreakList(ns: seq<Node>): bool
    decreases SizeList(ns), 2
  {
    if ns == [] then false
    else
      SizeListElement(ns, 0);
      HasBreak(ns[0]) || HasBreakList(ns[1..])
  }

  /** The search finds a break exactly when one occurs anywhere in the
      subtree, the root included, since it does not stop at nested loops. */
  lemma {:induction false} HasBreakIffOccurs(n: Node)
    ensures HasBreak(n) <==> BreakStmt in Preorder(n)
    decreases Size(n), 1
  {
    ChildrenSize(n);
    HasBreakListIffOccurs(Children(n));
    assert Preorder(n) == [n] + PreorderList(Children(n));
  }

  lemma {:induction false} HasBreakListIffOccurs(ns: seq<Node>)
    ensures HasBreakList(ns) <==> BreakStmt in PreorderList(ns)
    decreases SizeList(ns), 2
  {
    if ns != [] {
      SizeListElement(ns, 0);
      HasBreakIffOccurs(ns[0]);
      HasBreakListIffOccurs(ns[1..]);
      assert PreorderList(ns) == Preorder(ns[0]) + PreorderList(ns[1..]);
    }
  }

  /** A break inside an inner loop counts for every enclosing loop too. */
  lemma InnerBreakCounts()
    ensures HasBreak(LoopStmt(Block([LoopStmt(Block([BreakStmt]))])))
    ensures !HasBreak(LoopStmt(Block([])))
  {
    var b := Block([BreakStmt]);
    assert HasBreakList([BreakStmt]);
    assert HasBreak(b);
    assert HasBreakList([b]);
    assert HasBreak(LoopStmt(b));
    assert HasBreakList([LoopStmt(b)]);
    assert HasBreak(Block([LoopStmt(b)]));
    assert HasBreakList([Block([LoopStmt(b)])]);
  }

  // ---- the warnings ----

  const W001Message: string := "'loop' statement has no 'break' and may run forever.\n"
  const W002Message: string := "'while' loop with a constant condition has no 'break' and may run forever.\n"

  /** The text `_add_warning` prints. */
  function WarningText(code: string, message: string): string {
    "Warning (" + code + "): " + message
  }

  /** `isinstance(condition, Num) and condition.value != 0`: a `Num` whose
      token value is anything but the integer 0 (a string value is never
      equal to 0). */
  predicate IsConstantTrue(condition: Node) {
    condition.Num? && condition.token.value != VInt(0)
  }

  /** What a node's own `visit_*` method prints before the traversal goes
      on into its children. */
  function OwnWarning(n: Node): seq<string> {
    match n
    case LoopStmt(body) => if !HasBreak(body) then [WarningText("W001", W001Message)] else []
    case WhileStmt(cond, body) =>
      if IsConstantTrue(cond) && !HasBreak(body) then [WarningText("W002", W002Message)] else []
    case _ => []
  }

  /** Everything that visiting `n` prints: its own warning, then the output
      of each child in attribute order. */
  function VisitOutput(n: Node): seq<string>
    decreases Size(n), 1
  {
    ChildrenSize(n);
    OwnWarning(n) + VisitListOutput(Children(n))
  }

  function VisitListOutput(ns: seq<Node>): seq<string>
    decreases SizeList(ns), 2
  {
    if ns == [] then []
    else
      SizeListElement(ns, 0);
      VisitOutput(ns[0]) + VisitListOutput(ns[1..])
  }

  /** The warnings of a list of nodes, each node's own, in order. */
  function OwnWarnings(ns: seq<Node>): seq<string> {
    if ns == [] then [] else OwnWarning(ns[0]) + OwnWarnings(ns[1..])
  }

  lemma {:induction false} OwnWarningsAppend(a: seq<Node>, b: seq<Node>)
    ensures OwnWarnings(a + b) == OwnWarnings(a) + OwnWarnings(b)
    decreases |a|
  {
    if a != [] {
      assert (a + b)[0] == a[0];
      assert (a + b)[1..] == a[1..] + b;
      OwnWarningsAppend(a[1..], b);
    } else {
      assert a + b == b;
    }
  }

  /** Every node of the tree is checked, in visiting order: the output is
      the own warnings of the nodes of the tree in preorder. */
  lemma {:induction false} VisitChecksEveryNode(n: Node)
    ensures VisitOutput(n) == OwnWarnings(Preorder(n))
    decreases Size(n), 1
  {
    ChildrenSize(n);
    VisitListChecksEveryNode(Children(n));
    var p := PreorderList(Children(n));
    assert Preorder(n) == [n] + p;
    OwnWarningsAppend([n], p);
    assert OwnWarnings([n]) == OwnWarning(n);
  }

  lemma {:induction false} VisitListChecksEveryNode(ns: seq<Node>)
    ensures VisitListOutput(ns) == OwnWarnings(PreorderList(ns))
    decreases SizeList(ns), 2
  {
    if ns != [] {
      SizeListElement(ns, 0);
      VisitChecksEveryNode(ns[0]);
      VisitListChecksEveryNode(ns[1..]);
      OwnWarningsAppend(Preorder(ns[0]), PreorderList(ns[1..]));
    }
  }

  lemma {:induction false} VisitListSnoc(ns: seq<Node>, n: Node)
    ensures VisitListOutput(ns + [n]) == VisitListOutput(ns) + VisitOutput(n)
    decreases |ns|
  {
    if ns != [] {
      assert (ns + [n])[0] == ns[0];
      assert (ns + [n])[1..] == ns[1..] + [n];
      VisitListSnoc(ns[1..], n);
    } else {
      assert [n][1..] == [];
    }
  }

  lemma AppendAssoc(a: seq<string>, b: seq<string>, c: seq<string>)
    ensures (a + b) + c == a + (b + c)
  {
  }

  /** One more child visited: the output of a longer prefix. */
  lemma VisitListPrefix(ns: seq<Node>, i: nat)
    requires i < |ns|
    ensures VisitListOutput(ns[..i + 1]) == VisitListOutput(ns[..i]) + VisitOutput(ns[i])
  {
    VisitListSnoc(ns[..i], ns[i]);
    assert ns[..i + 1] == ns[..i] + [ns[i]];
  }

  /** W001: a `loop` is reported exactly when no break occurs in its body. */
  lemma LoopWarning(body: Node)
    ensures OwnWarning(LoopStmt(body)) == (if BreakStmt in Preorder(body) then [] else [WarningText("W001", W001Message)])
  {
    HasBreakIffOccurs(body);
  }

  /** W002: a `while` is reported exactly when its condition is a nonzero
      integer literal and no break occurs in its body; any other condition
      never warns. */
  lemma WhileWarning(cond: Node, body: Node)
    ensures OwnWarning(WhileStmt(cond, body)) != [] <==>
      cond.Num? && cond.token.value != VInt(0) && BreakStmt !in Preorder(body)
    ensures OwnWarning(WhileStmt(cond, body)) != [] ==>
      OwnWarning(WhileStmt(cond, body)) == [WarningText("W002", W002Message)]
  {
    HasBreakIffOccurs(body);
  }

  /** Only loops ever warn. */
  lemma OnlyLoopsWarn(n: Node)
    requires !n.LoopStmt? && !n.WhileStmt?
    ensures OwnWarning(n) == []
  {
  }

  // ---- the visitor ----

  class Checker {
    const filePath: string
    const sourceLines: seq<string>
    /** Never appended to: warnings are only printed. */
    var warnings: seq<string>
    /** The console output of `_add_warning`, one entry per `print`. */
    var printed: seq<string>

    constructor(filePath: string, sourceLines: seq<string>)
      ensures this.filePath == filePath && this.sourceLines == sourceLines
      ensures warnings == [] && printed == []
    {
      this.filePath := filePath;
      this.sourceLines := sourceLines;
      warnings := [];
      printed := [];
    }

    method AddWarning(code: string, message: string, node: Node)
      modifies this`printed
      ensures printed == old(printed) + [WarningText(code, message)]
      ensures warnings == old(warnings)
    {
      printed := printed + [WarningText(code, message)];
    }

    /** `check(tree)`: visit the whole tree; `warnings` stays as it was. */
    method Check(tree: Node)
      modifies this`printed
      ensures printed == old(printed) + OwnWarnings(Preorder(tree))
      ensures warnings == old(warnings)
    {
      Visit(tree);
      VisitChecksEveryNode(tree);
    }

    /** `visit`: the dispatch on the node's class. */
    method Visit(n: Node)
      modifies this`printed
      ensures printed == old(printed) + VisitOutput(n)
      ensures warnings == old(warnings)
      decreases Size(n), 2
    {
      if n.LoopStmt? {
        VisitLoopStmt(n);
      } else if n.WhileStmt? {
        VisitWhileStmt(n);
      } else {
        GenericVisit(n);
        OnlyLoopsWarn(n);
        assert VisitOutput(n) == OwnWarning(n) + VisitListOutput(Children(n));
      }
    }

    method VisitLoopStmt(n: Node)
      requires n.LoopStmt?
      modifies this`printed
      ensures printed == old(printed) + VisitOutput(n)
      ensures warnings == old(warnings)
      decreases Size(n), 1
    {
      ghost var start := printed;
      if !HasBreak(n.body) {
        AddWarning("W001", W001Message, n);
      }
      assert printed == start + OwnWarning(n);
      GenericVisit(n);
      assert VisitOutput(n) == OwnWarning(n) + VisitListOutput(Children(n));
    }

    method VisitWhileStmt(n: Node)
      requires n.WhileStmt?
      modifies this`printed
      ensures printed == old(printed) + VisitOutput(n)
      ensures warnings == old(warnings)
      decreases Size(n), 1
    {
      ghost var start := printed;
      var isConstantTrue := n.condition.Num? && n.condition.token.value != VInt(0);
      if isConstantTrue {
        if !HasBreak(n.body) {
          AddWarning("W002", W002Message, n);
        }
      }
      assert printed == start + OwnWarning(n);
      GenericVisit(n);
      assert VisitOutput(n) == OwnWarning(n) + VisitListOutput(Children(n));
    }

    /** `generic_visit`: visit every AST-valued attribute in turn. */
    method GenericVisit(n: Node)
      modifies this`printed
      ensures printed == old(printed) + VisitListOutput(Children(n))
      ensures warnings == old(warnings)
      decreases Size(n), 0
    {
      var cs := Children(n);
      ChildrenSize(n);
      ghost var start := printed;
      var i := 0;
      while i < |cs|
        invariant 0 <= i <= |cs|
        invariant printed == start + VisitListOutput(cs[..i])
        invariant warnings == old(warnings)
      {
        SizeListElement(cs, i);
        assert Size(cs[i]) < Size(n);
        Visit(cs[i]);
        VisitListPrefix(cs, i);
        AppendAssoc(start, VisitListOutput(cs[..i]), VisitOutput(cs[i]));
        i := i + 1;
      }
      assert cs[..i] == cs;
    }
  }
}
