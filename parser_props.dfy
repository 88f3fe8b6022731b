/** What the grammar functions of `ParserSpec` promise: the trees `expr`
    builds, precedence and left associativity (as a round trip through a
    minimal-parenthesis printer), the statement and declaration choices, and
    the order of the parsed lists. */
module ParserProps {
  import opened Wrappers
  import opened Tokens
  import opened Lexing
  import opened Ast
  import opened ParserSpec

  // ---- expression trees ----

  /** The expression trees the parser builds: numbers from INTEGER tokens,
      variables from IDENTIFIER tokens, the four arithmetic operators, and
      calls with at most one argument. */
  predicate IsExpr(e: Node) {
    match e
    case Num(t) => t.kind == INTEGER
    case Var(t) => t.kind == IDENTIFIER
    case BinOp(l, op, r) =>
      (op.kind == PLUS || op.kind == MINUS || op.kind == MULTIPLY || op.kind == DIVIDE) && IsExpr(l) && IsExpr(r)
    case FunctionCall(_, args) => args == [] || (|args| == 1 && IsExpr(args[0]))
    case _ => false
  }

  predicate Additive(e: Node) {
    e.BinOp? && (e.op.kind == PLUS || e.op.kind == MINUS)
  }

  predicate Multiplicative(e: Node) {
    e.BinOp? && (e.op.kind == MULTIPLY || e.op.kind == DIVIDE)
  }

  /** The grammar level a tree belongs to: 2 for `expr`, 1 for `term`, 0 for
      `factor`. */
  function Home(e: Node): int {
    if Additive(e) then 2 else if Multiplicative(e) then 1 else 0
  }

  const LParenToken: Token := Token(LPAREN, VStr("("))
  const RParenToken: Token := Token(RPAREN, VStr(")"))

  /** The tokens of an expression tree with the fewest parentheses the
      grammar needs: a right operand at its own level, or any operand below
      its level, is parenthesised. */
  function UExpr(e: Node): seq<Token>
    requires IsExpr(e)
    decreases e, (2 - Home(e)) % 3
  {
    if Additive(e) then UExpr(e.left) + [e.op] + UTerm(e.right) else UTerm(e)
  }

  function UTerm(e: Node): seq<Token>
    requires IsExpr(e)
    decreases e, (1 - Home(e)) % 3
  {
    if Multiplicative(e) then UTerm(e.left) + [e.op] + UFactor(e.right) else UFactor(e)
  }

  function UFactor(e: Node): seq<Token>
    requires IsExpr(e)
    decreases e, (0 - Home(e)) % 3
  {
    match e
    case Num(t) => [t]
    case Var(t) => [t]
    case FunctionCall(name, args) =>
      [Token(IDENTIFIER, VStr(name)), LParenToken] + (if args == [] then [] else UExpr(args[0])) + [RParenToken]
    case BinOp(_, _, _) => [LParenToken] + UExpr(e) + [RParenToken]
  }

  /** The first token of a printed expression opens a factor, so it is never
      a closing parenthesis. */
  lemma FirstTokenOpens(e: Node)
    requires IsExpr(e)
    ensures |UExpr(e)| > 0 && |UTerm(e)| > 0 && |UFactor(e)| > 0
    ensures UExpr(e)[0].kind in {INTEGER, IDENTIFIER, LPAREN}
    ensures UTerm(e)[0].kind in {INTEGER, IDENTIFIER, LPAREN}
    ensures UFactor(e)[0].kind in {INTEGER, IDENTIFIER, LPAREN}
    decreases e
  {
    if Additive(e) {
      FirstTokenOpens(e.left);
      assert UExpr(e)[0] == UExpr(e.left)[0];
      assert UFactor(e)[0] == LParenToken;
    } else if Multiplicative(e) {
      FirstTokenOpens(e.left);
      assert UTerm(e)[0] == UTerm(e.left)[0];
      assert UFactor(e)[0] == LParenToken;
    } else {
      assert UExpr(e) == UTerm(e) == UFactor(e);
    }
  }

  /** The tokens `get_next_token` returns from index `i` on begin with `u`. */
  predicate Spells(s: Stream, i: nat, u: seq<Token>)
    decreases |u|
  {
    u == [] || (Tok(s, i) == Ok(u[0]) && Spells(s, i + 1, u[1..]))
  }

  lemma {:induction false} SpellsSplit(s: Stream, i: nat, a: seq<Token>, b: seq<Token>)
    requires Spells(s, i, a + b)
    ensures Spells(s, i, a) && Spells(s, i + |a|, b)
    decreases |a|
  {
    if a != [] {
      assert (a + b)[0] == a[0];
      assert (a + b)[1..] == a[1..] + b;
      SpellsSplit(s, i + 1, a[1..], b);
    } else {
      assert a + b == b;
    }
  }

  lemma {:induction false} SpellsAt(s: Stream, i: nat, u: seq<Token>, k: nat)
    requires Spells(s, i, u) && k < |u|
    ensures Tok(s, i + k) == Ok(u[k])
    decreases k
  {
    if k > 0 {
      SpellsAt(s, i + 1, u[1..], k - 1);
    }
  }

  /** A stream whose tokens hold `u` at index `i` spells `u` there. */
  lemma {:induction false} SpellsSlice(s: Stream, i: nat, u: seq<Token>)
    requires i + |u| <= |s.toks| && s.toks[i..i + |u|] == u
    ensures Spells(s, i, u)
    decreases |u|
  {
    if u != [] {
      assert s.toks[i] == s.toks[i..i + |u|][0];
      assert s.toks[i + 1..i + 1 + |u[1..]|] == s.toks[i..i + |u|][1..];
      SpellsSlice(s, i + 1, u[1..]);
    }
  }

  /** Every index from `i` up to a parser state after `u` is a parser state
      too. */
  lemma SpellsReady(s: Stream, i: nat, u: seq<Token>, j: nat, k: nat)
    requires Spells(s, i, u) && j == i + |u| && Ready(s, j) && i <= k <= j
    ensures Ready(s, k)
  {
    if k < i + |u| {
      SpellsAt(s, i, u, k - i);
    }
    if k + 1 < i + |u| {
      SpellsAt(s, i, u, k + 1 - i);
    }
  }

  // One step of each grammar function, unfolded where nothing else is in
  // scope.

  lemma ParenStep(s: Stream, i: nat, e: Node, j: nat)
    requires Ready(s, i) && Cur(s, i).kind == LPAREN && Ready(s, i + 1)
    requires PExpr(s, i + 1) == Ok((e, j)) && Cur(s, j).kind == RPAREN && Tok(s, j + 2).Ok?
    ensures PFactor(s, i) == Ok((e, j + 1))
  {
    assert Eat(s, i, LPAREN) == Ok(i + 1);
    assert Eat(s, j, RPAREN) == Ok(j + 1);
  }

  lemma CallStep(s: Stream, i: nat, name: string)
    requires Ready(s, i) && Cur(s, i) == Token(IDENTIFIER, VStr(name)) && Peek(s, i).kind == LPAREN
    requires Ready(s, i + 1) && Ready(s, i + 2)
    ensures PFactor(s, i) == PCallArgs(s, i + 2, name)
  {
    assert PFactor(s, i) == PCall(s, i);
  }

  lemma ArgStep(s: Stream, k: nat, name: string, arg: Node, j: nat)
    requires Ready(s, k) && Cur(s, k).kind != RPAREN
    requires PExpr(s, k) == Ok((arg, j)) && Cur(s, j).kind == RPAREN && Tok(s, j + 2).Ok?
    ensures PCallArgs(s, k, name) == Ok((FunctionCall(name, [arg]), j + 1))
  {
    assert Eat(s, j, RPAREN) == Ok(j + 1);
  }

  lemma NoArgStep(s: Stream, k: nat, name: string)
    requires Ready(s, k) && Cur(s, k).kind == RPAREN && Tok(s, k + 2).Ok?
    ensures PCallArgs(s, k, name) == Ok((FunctionCall(name, []), k + 1))
  {
  }

  lemma TermStep(s: Stream, k: nat, left: Node, right: Node, j: nat)
    requires Ready(s, k) && (Cur(s, k).kind == MULTIPLY || Cur(s, k).kind == DIVIDE) && Ready(s, k + 1)
    requires PFactor(s, k + 1) == Ok((right, j))
    ensures PTermLoop(s, k, left) == PTermLoop(s, j, BinOp(left, Cur(s, k), right))
  {
  }

  lemma ExprStep(s: Stream, k: nat, left: Node, right: Node, j: nat)
    requires Ready(s, k) && (Cur(s, k).kind == PLUS || Cur(s, k).kind == MINUS) && Ready(s, k + 1)
    requires PTerm(s, k + 1) == Ok((right, j))
    ensures PExprLoop(s, k, left) == PExprLoop(s, j, BinOp(left, Cur(s, k), right))
  {
  }

  /** Reading the printed factor of `e`, which ends at `j`, gives `e` back,
      provided the factor is not followed by an opening parenthesis. */
  lemma {:induction false} FactorRoundTrip(e: Node, s: Stream, i: nat, j: nat)
    requires IsExpr(e) && Spells(s, i, UFactor(e)) && j == i + |UFactor(e)|
    requires Ready(s, j) && Cur(s, j).kind != LPAREN
    ensures Ready(s, i) && PFactor(s, i) == Ok((e, j))
    decreases e, (0 - Home(e)) % 3, 1
  {
    match e
    case Num(t) => AtomRoundTrip(e, s, i);
    case Var(t) => AtomRoundTrip(e, s, i);
    case FunctionCall(_, args) =>
      if args == [] { NoArgCallRoundTrip(e, s, i, j); } else { ArgCallRoundTrip(e, s, i, j); }
    case BinOp(_, _, _) => ParenRoundTrip(e, s, i, j);
  }

  /** A number or a variable is its own single token. */
  lemma AtomRoundTrip(e: Node, s: Stream, i: nat)
    requires (e.Num? && e.token.kind == INTEGER) || (e.Var? && e.token.kind == IDENTIFIER)
    requires Spells(s, i, [e.token]) && Ready(s, i + 1) && Cur(s, i + 1).kind != LPAREN
    ensures Ready(s, i) && PFactor(s, i) == Ok((e, i + 1))
  {
    SpellsAt(s, i, [e.token], 0);
    assert Cur(s, i) == e.token;
    assert Eat(s, i, e.token.kind) == Ok(i + 1);
  }

  /** A printed call `name ( )` reads back as the same call. */
  lemma NoArgCallRoundTrip(e: Node, s: Stream, i: nat, j: nat)
    requires e.FunctionCall? && e.args == [] && Spells(s, i, UFactor(e)) && j == i + |UFactor(e)| && Ready(s, j)
    ensures Ready(s, i) && PFactor(s, i) == Ok((e, j))
  {
    var u := UFactor(e);
    var head := [Token(IDENTIFIER, VStr(e.name)), LParenToken];
    var m := i + 2;
    assert u == head + [] + [RParenToken];
    Enclosed(s, i, head, [], RParenToken, m);
    SpellsAt(s, i, head, 0);
    SpellsAt(s, i, head, 1);
    SpellsReady(s, i, u, j, m);
    CallChain(s, i, e.name, None, m);
  }

  /** A printed call `name ( arg )` reads back as the same call. */
  lemma {:induction false} ArgCallRoundTrip(e: Node, s: Stream, i: nat, j: nat)
    requires e.FunctionCall? && |e.args| == 1 && IsExpr(e.args[0])
    requires Spells(s, i, UFactor(e)) && j == i + |UFactor(e)| && Ready(s, j)
    ensures Ready(s, i) && PFactor(s, i) == Ok((e, j))
    decreases e, 0, 0
  {
    var u := UFactor(e);
    var arg := e.args[0];
    var head := [Token(IDENTIFIER, VStr(e.name)), LParenToken];
    var a := UExpr(arg);
    var m := i + 2 + |a|;
    assert u == head + a + [RParenToken];
    Enclosed(s, i, head, a, RParenToken, m);
    SpellsAt(s, i, head, 0);
    SpellsAt(s, i, head, 1);
    SpellsReady(s, i, u, j, i + 2);
    SpellsReady(s, i, u, j, m);
    FirstTokenOpens(arg);
    SpellsAt(s, i + 2, a, 0);
    ExprLoopForm(arg, s, i + 2, m);
    CallChain(s, i, e.name, Some(arg), m);
    assert e.args == [arg];
  }

  /** A parenthesised `( expr )` reads back as the inner tree itself. */
  lemma {:induction false} ParenRoundTrip(e: Node, s: Stream, i: nat, j: nat)
    requires e.BinOp? && IsExpr(e) && Spells(s, i, UFactor(e)) && j == i + |UFactor(e)| && Ready(s, j)
    ensures Ready(s, i) && PFactor(s, i) == Ok((e, j))
    decreases e, (0 - Home(e)) % 3, 0
  {
    var u := UFactor(e);
    var a := UExpr(e);
    var m := i + 1 + |a|;
    assert u == [LParenToken] + a + [RParenToken];
    Enclosed(s, i, [LParenToken], a, RParenToken, m);
    SpellsAt(s, i, [LParenToken], 0);
    SpellsReady(s, i, u, j, i + 1);
    SpellsReady(s, i, u, j, m);
    assert Cur(s, m) == RParenToken && j == m + 1;
    ExprLoopForm(e, s, i + 1, m);
    ParenChain(s, i, e, m);
  }

  /** How a bracketed word splits: its opening tokens, its inside, and its
      closing token at `m`. */
  lemma Enclosed(s: Stream, i: nat, head: seq<Token>, a: seq<Token>, close: Token, m: nat)
    requires Spells(s, i, head + a + [close]) && m == i + |head| + |a|
    ensures Spells(s, i, head) && Spells(s, i + |head|, a) && Tok(s, m) == Ok(close)
  {
    SpellsSplit(s, i, head + a, [close]);
    SpellsSplit(s, i, head, a);
    SpellsAt(s, m, [close], 0);
  }

  /** `factor` on `( expr )`, given what `expr` does inside. */
  lemma ParenChain(s: Stream, i: nat, e: Node, m: nat)
    requires Tok(s, i) == Ok(LParenToken) && Ready(s, i + 1)
    requires Tok(s, m) == Ok(RParenToken) && Ready(s, m + 1)
    requires PExpr(s, i + 1) == PExprLoop(s, m, e)
    ensures PFactor(s, i) == Ok((e, m + 1))
  {
    ExprLoopExit(s, m, e);
    ParenStep(s, i, e, m);
  }

  /** `factor` on `name ( arg? )`, given what `expr` does on the argument. */
  lemma CallChain(s: Stream, i: nat, name: string, arg: Option<Node>, m: nat)
    requires Tok(s, i) == Ok(Token(IDENTIFIER, VStr(name))) && Tok(s, i + 1) == Ok(LParenToken)
    requires Ready(s, i + 2) && Tok(s, m) == Ok(RParenToken) && Ready(s, m + 1)
    requires arg.None? ==> m == i + 2
    requires arg.Some? ==> Cur(s, i + 2).kind != RPAREN && PExpr(s, i + 2) == PExprLoop(s, m, arg.value)
    ensures PFactor(s, i) == Ok((FunctionCall(name, if arg.None? then [] else [arg.value]), m + 1))
  {
    CallStep(s, i, name);
    if arg.None? {
      NoArgStep(s, i + 2, name);
    } else {
      ExprLoopExit(s, m, arg.value);
      ArgStep(s, i + 2, name, arg.value, m);
    }
  }

  /** How the printed term of a product splits: the left operand's term up
      to `k`, the operator at `k`, and the right operand's factor up to `j`. */
  lemma TermSplit(e: Node, s: Stream, i: nat, k: nat, j: nat)
    requires IsExpr(e) && Multiplicative(e) && Spells(s, i, UTerm(e))
    requires k == i + |UTerm(e.left)| && j == i + |UTerm(e)| && Ready(s, j)
    ensures Spells(s, i, UTerm(e.left)) && Tok(s, k) == Ok(e.op) && Ready(s, k) && Ready(s, k + 1)
    ensures Spells(s, k + 1, UFactor(e.right)) && j == k + 1 + |UFactor(e.right)|
  {
    var ul := UTerm(e.left);
    var ur := UFactor(e.right);
    assert UTerm(e) == ul + [e.op] + ur;
    SpellsSplit(s, i, ul + [e.op], ur);
    SpellsSplit(s, i, ul, [e.op]);
    SpellsAt(s, k, [e.op], 0);
    SpellsReady(s, i, UTerm(e), j, k);
    SpellsReady(s, i, UTerm(e), j, k + 1);
  }

  /** How the printed expression of a sum splits: the left operand's
      expression up to `k`, the operator at `k`, and the right operand's term
      up to `j`. */
  lemma ExprSplit(e: Node, s: Stream, i: nat, k: nat, j: nat)
    requires IsExpr(e) && Additive(e) && Spells(s, i, UExpr(e))
    requires k == i + |UExpr(e.left)| && j == i + |UExpr(e)| && Ready(s, j)
    ensures Spells(s, i, UExpr(e.left)) && Tok(s, k) == Ok(e.op) && Ready(s, k) && Ready(s, k + 1)
    ensures Spells(s, k + 1, UTerm(e.right)) && j == k + 1 + |UTerm(e.right)|
  {
    var ul := UExpr(e.left);
    var ur := UTerm(e.right);
    assert UExpr(e) == ul + [e.op] + ur;
    SpellsSplit(s, i, ul + [e.op], ur);
    SpellsSplit(s, i, ul, [e.op]);
    SpellsAt(s, k, [e.op], 0);
    SpellsReady(s, i, UExpr(e), j, k);
    SpellsReady(s, i, UExpr(e), j, k + 1);
  }

  /** The `term` loop after one more operator and factor. */
  lemma TermLoopStep(s: Stream, i: nat, k: nat, j: nat, e: Node)
    requires Multiplicative(e) && Ready(s, i) && Ready(s, k) && Ready(s, k + 1) && Tok(s, k) == Ok(e.op)
    requires PTerm(s, i) == PTermLoop(s, k, e.left) && PFactor(s, k + 1) == Ok((e.right, j))
    ensures PTerm(s, i) == PTermLoop(s, j, e)
  {
    TermStep(s, k, e.left, e.right, j);
  }

  /** The `expr` loop after one more operator and term. */
  lemma ExprLoopStep(s: Stream, i: nat, k: nat, j: nat, e: Node)
    requires Additive(e) && Ready(s, i) && Ready(s, k) && Ready(s, k + 1) && Tok(s, k) == Ok(e.op)
    requires PExpr(s, i) == PExprLoop(s, k, e.left) && PTerm(s, k + 1) == Ok((e.right, j))
    ensures PExpr(s, i) == PExprLoop(s, j, e)
  {
    ExprStep(s, k, e.left, e.right, j);
  }

  /** Reading the printed term of `e`, which ends at `j`, leaves the `term`
      loop holding `e` at `j`. */
  lemma {:induction false} TermLoopForm(e: Node, s: Stream, i: nat, j: nat)
    requires IsExpr(e) && Spells(s, i, UTerm(e)) && j == i + |UTerm(e)|
    requires Ready(s, j) && Cur(s, j).kind != LPAREN
    ensures Ready(s, i) && PTerm(s, i) == PTermLoop(s, j, e)
    decreases e, (1 - Home(e)) % 3, 2
  {
    if Multiplicative(e) {
      ProductLoopForm(e, s, i, j);
    } else {
      FactorRoundTrip(e, s, i, j);
    }
  }

  /** `TermLoopForm` for a product: the left operand's term, then one more
      round of the loop. */
  lemma {:induction false} ProductLoopForm(e: Node, s: Stream, i: nat, j: nat)
    requires IsExpr(e) && Multiplicative(e) && Spells(s, i, UTerm(e)) && j == i + |UTerm(e)|
    requires Ready(s, j) && Cur(s, j).kind != LPAREN
    ensures Ready(s, i) && PTerm(s, i) == PTermLoop(s, j, e)
    decreases e, (1 - Home(e)) % 3, 1
  {
    var k := i + |UTerm(e.left)|;
    TermSplit(e, s, i, k, j);
    assert Cur(s, k).kind != LPAREN;
    TermLoopForm(e.left, s, i, k);
    FactorRoundTrip(e.right, s, k + 1, j);
    TermLoopStep(s, i, k, j, e);
  }

  /** Reading the printed expression of `e`, which ends at `j`, leaves the
      `expr` loop holding `e` at `j`, provided no `*`, `/` or `(` follows. */
  lemma {:induction false} ExprLoopForm(e: Node, s: Stream, i: nat, j: nat)
    requires IsExpr(e) && Spells(s, i, UExpr(e)) && j == i + |UExpr(e)|
    requires Ready(s, j) && Cur(s, j).kind !in {MULTIPLY, DIVIDE, LPAREN}
    ensures Ready(s, i) && PExpr(s, i) == PExprLoop(s, j, e)
    decreases e, (2 - Home(e)) % 3, 2
  {
    if Additive(e) {
      SumLoopForm(e, s, i, j);
    } else {
      TermLoopForm(e, s, i, j);
      TermLoopExit(s, j, e);
    }
  }

  /** `ExprLoopForm` for a sum: the left operand's expression, then one more
      round of the loop. */
  lemma {:induction false} SumLoopForm(e: Node, s: Stream, i: nat, j: nat)
    requires IsExpr(e) && Additive(e) && Spells(s, i, UExpr(e)) && j == i + |UExpr(e)|
    requires Ready(s, j) && Cur(s, j).kind !in {MULTIPLY, DIVIDE, LPAREN}
    ensures Ready(s, i) && PExpr(s, i) == PExprLoop(s, j, e)
    decreases e, (2 - Home(e)) % 3, 1
  {
    var k := i + |UExpr(e.left)|;
    ExprSplit(e, s, i, k, j);
    assert IsExpr(e.left) && IsExpr(e.right) && Cur(s, k) == e.op;
    ExprLoopForm(e.left, s, i, k);
    TermLoopForm(e.right, s, k + 1, j);
    TermLoopExit(s, j, e.right);
    ExprLoopStep(s, i, k, j, e);
  }

  /** The `term` loop stops at a token that is neither `*` nor `/`. */
  lemma TermLoopExit(s: Stream, j: nat, e: Node)
    requires Ready(s, j) && Cur(s, j).kind != MULTIPLY && Cur(s, j).kind != DIVIDE
    ensures PTermLoop(s, j, e) == Ok((e, j))
  {
  }

  /** The `expr` loop stops at a token that is neither `+` nor `-`. */
  lemma ExprLoopExit(s: Stream, j: nat, e: Node)
    requires Ready(s, j) && Cur(s, j).kind != PLUS && Cur(s, j).kind != MINUS
    ensures PExprLoop(s, j, e) == Ok((e, j))
  {
  }

  /** Precedence and left associativity: printing an expression tree with
      the fewest parentheses and parsing the tokens back gives the same tree
      and consumes exactly the printed tokens, when the next token cannot
      continue the expression. In particular `*` and `/` bind tighter than
      `+` and `-`, chains at one level nest to the left, and `( expr )`
      yields the inner tree itself. */
  lemma ExprRoundTrip(e: Node, s: Stream, i: nat)
    requires IsExpr(e) && Spells(s, i, UExpr(e))
    requires Ready(s, i + |UExpr(e)|)
    requires Cur(s, i + |UExpr(e)|).kind !in {PLUS, MINUS, MULTIPLY, DIVIDE, LPAREN}
    ensures Ready(s, i) && PExpr(s, i) == Ok((e, i + |UExpr(e)|))
  {
    var j := i + |UExpr(e)|;
    ExprLoopForm(e, s, i, j);
    ExprLoopExit(s, j, e);
  }

  // ---- trees the parser builds ----

  /** Every expression the parser returns is an expression tree: the parser
      builds nothing but numbers, variables, the four operators and calls
      with at most one argument. */
  lemma {:induction false} ExprWellFormed(s: Stream, i: nat)
    requires Ready(s, i)
    ensures PExpr(s, i).Ok? ==> IsExpr(PExpr(s, i).value.0)
    decreases Rank(s, i), 5
  {
    if PTerm(s, i).Ok? {
      var t := PTerm(s, i).value;
      TermWellFormed(s, i);
      ExprLoopWellFormed(s, t.1, t.0);
    }
  }

  lemma {:induction false} ExprLoopWellFormed(s: Stream, i: nat, left: Node)
    requires Ready(s, i) && IsExpr(left)
    ensures PExprLoop(s, i, left).Ok? ==> IsExpr(PExprLoop(s, i, left).value.0)
    decreases Rank(s, i), 4
  {
    var tok := Cur(s, i);
    if (tok.kind == PLUS || tok.kind == MINUS) && Eat(s, i, tok.kind).Ok? && PTerm(s, i + 1).Ok? {
      var t := PTerm(s, i + 1).value;
      TermWellFormed(s, i + 1);
      ExprLoopWellFormed(s, t.1, BinOp(left, tok, t.0));
    }
  }

  lemma {:induction false} TermWellFormed(s: Stream, i: nat)
    requires Ready(s, i)
    ensures PTerm(s, i).Ok? ==> IsExpr(PTerm(s, i).value.0)
    decreases Rank(s, i), 3
  {
    if PFactor(s, i).Ok? {
      var f := PFactor(s, i).value;
      FactorWellFormed(s, i);
      TermLoopWellFormed(s, f.1, f.0);
    }
  }

  lemma {:induction false} TermLoopWellFormed(s: Stream, i: nat, left: Node)
    requires Ready(s, i) && IsExpr(left)
    ensures PTermLoop(s, i, left).Ok? ==> IsExpr(PTermLoop(s, i, left).value.0)
    decreases Rank(s, i), 2
  {
    var tok := Cur(s, i);
    if (tok.kind == MULTIPLY || tok.kind == DIVIDE) && Eat(s, i, tok.kind).Ok? && PFactor(s, i + 1).Ok? {
      var f := PFactor(s, i + 1).value;
      FactorWellFormed(s, i + 1);
      TermLoopWellFormed(s, f.1, BinOp(left, tok, f.0));
    }
  }

  lemma {:induction false} FactorWellFormed(s: Stream, i: nat)
    requires Ready(s, i)
    ensures PFactor(s, i).Ok? ==> IsExpr(PFactor(s, i).value.0)
    decreases Rank(s, i), 1
  {
    var tok := Cur(s, i);
    if tok.kind == LPAREN && Eat(s, i, LPAREN).Ok? {
      ExprWellFormed(s, i + 1);
    } else if tok.kind == IDENTIFIER && Peek(s, i).kind == LPAREN {
      CallWellFormed(s, i);
    }
  }

  lemma {:induction false} CallWellFormed(s: Stream, i: nat)
    requires Ready(s, i)
    ensures PCall(s, i).Ok? ==> IsExpr(PCall(s, i).value.0)
    decreases Rank(s, i), 0
  {
    if Eat(s, i, IDENTIFIER).Ok? && Eat(s, i + 1, LPAREN).Ok? && Cur(s, i + 2).kind != RPAREN {
      ExprWellFormed(s, i + 2);
    }
  }

  /** What one `factor` call does, by the current and peek tokens: an
      INTEGER is a `Num` and a lone IDENTIFIER a `Var` of that token, each
      consuming one token; an IDENTIFIER before `(` is a call of that name
      with at most one argument; a token that starts no factor raises. */
  lemma FactorChoice(s: Stream, i: nat)
    requires Ready(s, i)
    ensures var r := PFactor(s, i); var tok := Cur(s, i);
      && (tok.kind == INTEGER && r.Ok? ==> r.value == (Num(tok), i + 1))
      && (tok.kind == IDENTIFIER && Peek(s, i).kind != LPAREN && r.Ok? ==> r.value == (Var(tok), i + 1))
      && (tok.kind == IDENTIFIER && Peek(s, i).kind == LPAREN && r.Ok? ==>
            r.value.0.FunctionCall? && r.value.0.name == ValueStr(tok.value) && |r.value.0.args| <= 1)
      && (tok.kind !in {INTEGER, IDENTIFIER, LPAREN} ==>
            r == Err("Parser error: Invalid factor in expression. Current token: " + TokenStr(tok)))
  {
    if Cur(s, i).kind == IDENTIFIER && Peek(s, i).kind == LPAREN {
      CallWellFormed(s, i);
    }
  }

  // ---- statements and declarations ----

  /** The statement kind is chosen from the current and peek tokens alone:
      `int` or `mut` starts a variable declaration, IDENTIFIER before `=` an
      assignment, IDENTIFIER before `(` a call, and `return` a return. */
  lemma StatementKind(s: Stream, i: nat)
    requires Ready(s, i)
    ensures var r := PStatement(s, i); var k := Cur(s, i).kind; var pk := Peek(s, i).kind;
      r.Ok? ==>
        && (r.value.0.VarDecl? <==> k == KW_INT || k == KW_MUT)
        && (r.value.0.Assign? <==> k == IDENTIFIER && pk == ASSIGN)
        && (r.value.0.FunctionCall? <==> k == IDENTIFIER && pk == LPAREN)
        && (r.value.0.Return? <==> k == KW_RETURN)
  {
  }

  /** A parsed statement's last token is its SEMICOLON. */
  lemma StatementEndsWithSemicolon(s: Stream, i: nat)
    requires Ready(s, i)
    ensures var r := PStatement(s, i);
      r.Ok? ==> 1 <= r.value.1 && Tok(s, r.value.1 - 1).Ok? && Tok(s, r.value.1 - 1).value.kind == SEMICOLON
  {
  }

  /** A statement body followed by anything but SEMICOLON raises
      "Unexpected token". */
  lemma MissingSemicolon(s: Stream, i: nat)
    requires Ready(s, i)
    ensures PStatementBody(s, i).Ok? && Cur(s, PStatementBody(s, i).value.1).kind != SEMICOLON ==>
      PStatement(s, i) == Err(UnexpectedToken(SEMICOLON, Cur(s, PStatementBody(s, i).value.1).kind))
  {
  }

  /** A token that starts no statement raises "Invalid statement". */
  lemma InvalidStatement(s: Stream, i: nat)
    requires Ready(s, i)
    ensures var k := Cur(s, i).kind; var pk := Peek(s, i).kind;
      !(k == KW_INT || k == KW_MUT || k == KW_RETURN || (k == IDENTIFIER && (pk == ASSIGN || pk == LPAREN))) ==>
        PStatement(s, i) == Err("Parser error: Invalid statement. Current token: " + TokenStr(Cur(s, i)))
  {
  }

  /** A top-level `const` gives a constant declaration ended by its
      SEMICOLON. */
  lemma ConstDeclaration(s: Stream, i: nat)
    requires Ready(s, i) && Cur(s, i).kind == KW_CONST
    ensures var r := PDeclaration(s, i);
      r.Ok? ==>
        r.value.0.ConstDecl? && 1 <= r.value.1 && Tok(s, r.value.1 - 1).Ok? && Tok(s, r.value.1 - 1).value.kind == SEMICOLON
  {
  }

  /** A top-level `int` gives a parameterless function whose body is a
      compound statement (which ends at its RBRACE, as `PCompound` states). */
  lemma FunctionDeclaration(s: Stream, i: nat)
    requires Ready(s, i) && Cur(s, i).kind == KW_INT
    ensures var r := PDeclaration(s, i);
      r.Ok? ==> r.value.0.FunctionDecl? && r.value.0.params == [] && r.value.0.body.Compound?
  {
    assert PDeclaration(s, i) == PFunctionDecl(s, i);
    FunctionShape(s, i);
  }

  /** The `int` branch builds a parameterless function around the compound
      statement it parsed. */
  lemma FunctionShape(s: Stream, i: nat)
    requires Ready(s, i)
    ensures var r := PFunctionDecl(s, i);
      r.Ok? ==> r.value.0.FunctionDecl? && r.value.0.params == [] && r.value.0.body.Compound?
  {
  }

  /** Any other top-level token raises "Invalid top-level declaration". */
  lemma InvalidDeclaration(s: Stream, i: nat)
    requires Ready(s, i)
    ensures var k := Cur(s, i).kind; k != KW_CONST && k != KW_INT ==>
      PDeclaration(s, i) == Err("Parser error: Invalid top-level declaration. Unexpected token: " + TokenStr(Cur(s, i)))
  {
  }

  // ---- order of the parsed lists ----

  function Prepend(acc: seq<Node>, r: Result<(seq<Node>, nat)>): Result<(seq<Node>, nat)> {
    match r
    case Ok((ns, j)) => Ok((acc + ns, j))
    case Err(m) => Err(m)
  }

  lemma PrependTwice(acc: seq<Node>, d: Node, r: Result<(seq<Node>, nat)>)
    ensures Prepend(acc + [d], r) == Prepend(acc, Prepend([d], r))
  {
    if r.Ok? {
      assert acc + [d] + r.value.0 == acc + ([d] + r.value.0);
    }
  }

  /** The declarations loop only appends: what it returns is the list it
      started with, followed by the declarations parsed from `i` on. */
  lemma {:induction false} DeclarationsAppend(s: Stream, i: nat, acc: seq<Node>)
    requires Ready(s, i)
    ensures PDeclarations(s, i, acc) == Prepend(acc, PDeclarations(s, i, []))
    decreases Rank(s, i)
  {
    if Cur(s, i).kind != EOF && PDeclaration(s, i).Ok? {
      var (d, j) := PDeclaration(s, i).value;
      DeclarationsAppend(s, j, acc + [d]);
      DeclarationsAppend(s, j, [d]);
      assert [] + [d] == [d];
      assert PDeclarations(s, i, acc) == PDeclarations(s, j, acc + [d]);
      assert PDeclarations(s, i, []) == PDeclarations(s, j, [d]);
      PrependTwice(acc, d, PDeclarations(s, j, []));
    } else {
      assert acc + [] == acc;
    }
  }

  /** `parse` returns the declarations in source order: the first one is the
      declaration that starts at the first token, and the others are parsed
      from where it ends. */
  lemma ParseOrder(s: Stream)
    requires Ready(s, 0) && PParse(s).Ok? && PParse(s).value.declarations != []
    ensures var ds := PParse(s).value.declarations;
      PDeclaration(s, 0).Ok? && PDeclaration(s, 0).value.0 == ds[0]
      && PDeclarations(s, PDeclaration(s, 0).value.1, []).Ok?
      && PDeclarations(s, PDeclaration(s, 0).value.1, []).value.0 == ds[1..]
  {
    var r := PDeclarations(s, 0, []);
    assert PParse(s) == Ok(Program(r.value.0));
    assert Cur(s, 0).kind != EOF;
    var d := PDeclaration(s, 0);
    assert d.Ok?;
    var j := d.value.1;
    assert [] + [d.value.0] == [d.value.0];
    assert r == PDeclarations(s, j, [d.value.0]);
    DeclarationsAppend(s, j, [d.value.0]);
  }

  /** The statements loop only appends, like the declarations loop. */
  lemma {:induction false} StatementsAppend(s: Stream, i: nat, acc: seq<Node>)
    requires Ready(s, i)
    ensures PStatements(s, i, acc) == Prepend(acc, PStatements(s, i, []))
    decreases Rank(s, i)
  {
    if Cur(s, i).kind != RBRACE && PStatement(s, i).Ok? {
      var (d, j) := PStatement(s, i).value;
      StatementsAppend(s, j, acc + [d]);
      StatementsAppend(s, j, [d]);
      assert [] + [d] == [d];
      assert PStatements(s, i, acc) == PStatements(s, j, acc + [d]);
      assert PStatements(s, i, []) == PStatements(s, j, [d]);
      PrependTwice(acc, d, PStatements(s, j, []));
    } else {
      assert acc + [] == acc;
    }
  }

  /** `compound_statement` keeps statement order: the body's first child is
      the statement after `{`, and the others are parsed from where it ends. */
  lemma CompoundOrder(s: Stream, i: nat)
    requires Ready(s, i) && PCompound(s, i).Ok? && PCompound(s, i).value.0.children != []
    ensures var cs := PCompound(s, i).value.0.children;
      Ready(s, i + 1) && PStatement(s, i + 1).Ok? && PStatement(s, i + 1).value.0 == cs[0]
      && PStatements(s, PStatement(s, i + 1).value.1, []).Ok?
      && PStatements(s, PStatement(s, i + 1).value.1, []).value.0 == cs[1..]
  {
    var b := PStatements(s, i + 1, []);
    assert b.Ok? && PCompound(s, i).value.0 == Compound(b.value.0);
    assert Cur(s, i + 1).kind != RBRACE;
    var d := PStatement(s, i + 1);
    assert d.Ok?;
    var j := d.value.1;
    assert [] + [d.value.0] == [d.value.0];
    assert b == PStatements(s, j, [d.value.0]);
    StatementsAppend(s, j, [d.value.0]);
  }

  // ---- examples ----

  /** An expression printed as the whole of a stream parses back to itself. */
  lemma WholeStreamExpr(e: Node, toks: seq<Token>)
    requires IsExpr(e) && UExpr(e) == toks
    ensures PExpr(Stream(toks, AtEof), 0) == Ok((e, |toks|))
  {
    var s := Stream(toks, AtEof);
    assert s.toks[0..|toks|] == toks;
    SpellsSlice(s, 0, toks);
    assert Tok(s, |toks|) == Ok(EofToken) && Tok(s, |toks| + 1) == Ok(EofToken);
    ExprRoundTrip(e, s, 0);
  }

  /** `a - b - c` parses as `(a - b) - c`, whatever the identifiers. */
  lemma LeftAssociativity(a: Token, b: Token, c: Token, minus: Token)
    requires a.kind == IDENTIFIER && b.kind == IDENTIFIER && c.kind == IDENTIFIER && minus.kind == MINUS
    ensures PExpr(Stream([a, minus, b, minus, c], AtEof), 0)
      == Ok((BinOp(BinOp(Var(a), minus, Var(b)), minus, Var(c)), 5))
  {
    var e := BinOp(BinOp(Var(a), minus, Var(b)), minus, Var(c));
    assert IsExpr(Var(a)) && IsExpr(Var(b)) && IsExpr(Var(c));
    assert IsExpr(e.left);
    assert UExpr(Var(a)) == [a] by { assert UTerm(Var(a)) == UFactor(Var(a)); }
    assert UTerm(Var(b)) == [b] && UTerm(Var(c)) == [c];
    assert UExpr(e.left) == [a, minus, b];
    assert UExpr(e) == [a, minus, b, minus, c];
    WholeStreamExpr(e, [a, minus, b, minus, c]);
  }

  /** `a + b * c` parses as `a + (b * c)`. */
  lemma TimesBindsTighter(a: Token, b: Token, c: Token, plus: Token, times: Token)
    requires a.kind == IDENTIFIER && b.kind == IDENTIFIER && c.kind == IDENTIFIER
    requires plus.kind == PLUS && times.kind == MULTIPLY
    ensures PExpr(Stream([a, plus, b, times, c], AtEof), 0)
      == Ok((BinOp(Var(a), plus, BinOp(Var(b), times, Var(c))), 5))
  {
    var e := BinOp(Var(a), plus, BinOp(Var(b), times, Var(c)));
    assert IsExpr(Var(a)) && IsExpr(Var(b)) && IsExpr(Var(c));
    assert IsExpr(e.right);
    assert UExpr(Var(a)) == [a] by { assert UTerm(Var(a)) == UFactor(Var(a)); }
    assert UTerm(Var(b)) == [b] && UFactor(Var(c)) == [c];
    assert UTerm(e.right) == [b, times, c];
    assert UExpr(e) == [a, plus, b, times, c];
    WholeStreamExpr(e, [a, plus, b, times, c]);
  }

  /** `a - (b - c)` keeps its parentheses as the tree's shape. */
  lemma ParenthesesGroup(a: Token, b: Token, c: Token, minus: Token)
    requires a.kind == IDENTIFIER && b.kind == IDENTIFIER && c.kind == IDENTIFIER && minus.kind == MINUS
    ensures PExpr(Stream([a, minus, LParenToken, b, minus, c, RParenToken], AtEof), 0)
      == Ok((BinOp(Var(a), minus, BinOp(Var(b), minus, Var(c))), 7))
  {
    var inner := BinOp(Var(b), minus, Var(c));
    var e := BinOp(Var(a), minus, inner);
    assert IsExpr(Var(a)) && IsExpr(Var(b)) && IsExpr(Var(c));
    assert IsExpr(inner);
    assert UExpr(Var(a)) == [a] by { assert UTerm(Var(a)) == UFactor(Var(a)); }
    assert UExpr(Var(b)) == [b] by { assert UTerm(Var(b)) == UFactor(Var(b)); }
    assert UTerm(Var(c)) == [c];
    assert UExpr(inner) == [b, minus, c];
    assert UTerm(inner) == [LParenToken, b, minus, c, RParenToken];
    assert UExpr(e) == [a, minus, LParenToken, b, minus, c, RParenToken];
    WholeStreamExpr(e, [a, minus, LParenToken, b, minus, c, RParenToken]);
  }
}
