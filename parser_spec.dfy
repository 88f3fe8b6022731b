/** The recursive-descent parser as functions over the token stream the lexer
    yields. A parser state is the index `i` of `current_token` in the stream;
    `peek_token` is the token at `i + 1`. Each function returns the node it
    builds and the index of the new current token, or the message of the
    exception the parser (or the lexer, when `eat` fetches a token) raises. */
module ParserSpec {
  import opened Wrappers
  import opened Tokens
  import opened Lexing
  import opened Ast

  /** The `i`-th token that successive `get_next_token` calls return: the
      stream's tokens, then EOF for ever, or the lexer's error. */
  function Tok(s: Stream, i: nat): Result<Token> {
    if i < |s.toks| then Ok(s.toks[i])
    else match s.tail
      case AtEof => Ok(EofToken)
      case LexFail(m) => Err(m)
  }

  /** A parser state exists at `i` once both `current_token` and `peek_token`
      have been fetched without a lexer error. */
  predicate Ready(s: Stream, i: nat) {
    Tok(s, i).Ok? && Tok(s, i + 1).Ok?
  }

  function Cur(s: Stream, i: nat): Token
    requires Ready(s, i)
  {
    Tok(s, i).value
  }

  function Peek(s: Stream, i: nat): Token
    requires Ready(s, i)
  {
    Tok(s, i + 1).value
  }

  /** How many tokens before EOF are still to come: the termination measure
      of the parser, which shrinks with every token eaten except EOF. */
  function Rank(s: Stream, i: nat): nat {
    if i < |s.toks| then |s.toks| - i else 0
  }

  function UnexpectedToken(expected: TokenType, got: TokenType): string {
    "Parser error: Unexpected token: expected " + EnumStr(expected) + ", got " + EnumStr(got)
  }

  /** `eat(t)`: when the current token has type `t`, the peek token becomes
      current and one more token is fetched; otherwise "Unexpected token". */
  function Eat(s: Stream, i: nat, t: TokenType): (r: Result<nat>)
    requires Ready(s, i)
    ensures r.Ok? <==> Cur(s, i).kind == t && Tok(s, i + 2).Ok?
    ensures r.Ok? ==> r.value == i + 1 && Ready(s, i + 1) && Tok(s, i + 1) == Ok(Peek(s, i))
    ensures r.Ok? && t != EOF ==> Rank(s, i + 1) < Rank(s, i)
    ensures r.Err? ==> r.msg == if Cur(s, i).kind != t then UnexpectedToken(t, Cur(s, i).kind) else Tok(s, i + 2).msg
  {
    if Cur(s, i).kind == t then
      match Tok(s, i + 2)
      case Err(m) => Err(m)
      case Ok(_) => Ok(i + 1)
    else
      Err(UnexpectedToken(t, Cur(s, i).kind))
  }

  /** The facts every successful parse function guarantees about the state
      it leaves: a parser state, and no token given back. */
  predicate Advanced(s: Stream, i: nat, r: Result<(Node, nat)>) {
    r.Ok? ==> Ready(s, r.value.1) && i <= r.value.1 && Rank(s, r.value.1) <= Rank(s, i)
  }

  /** `Advanced`, having eaten at least one token. */
  predicate Progressed(s: Stream, i: nat, r: Result<(Node, nat)>) {
    r.Ok? ==> Ready(s, r.value.1) && i < r.value.1 && Rank(s, r.value.1) < Rank(s, i)
  }

  // ---- expressions ----

  /** `factor : INTEGER | IDENTIFIER | ( expr ) | function_call`. */
  function PFactor(s: Stream, i: nat): (r: Result<(Node, nat)>)
    requires Ready(s, i)
    ensures Progressed(s, i, r)
    decreases Rank(s, i), 1
  {
    var tok := Cur(s, i);
    if tok.kind == INTEGER then
      var j :- Eat(s, i, INTEGER);
      Ok((Num(tok), j))
    else if tok.kind == LPAREN then
      var j :- Eat(s, i, LPAREN);
      var inner :- PExpr(s, j);
      var k :- Eat(s, inner.1, RPAREN);
      Ok((inner.0, k))
    else if tok.kind == IDENTIFIER then
      if Peek(s, i).kind == LPAREN then PCall(s, i)
      else
        var j :- Eat(s, i, IDENTIFIER);
        Ok((Var(tok), j))
    else
      Err("Parser error: Invalid factor in expression. Current token: " + TokenStr(tok))
  }

  /** `function_call : IDENTIFIER LPAREN (expr)? RPAREN`. */
  function PCall(s: Stream, i: nat): (r: Result<(Node, nat)>)
    requires Ready(s, i)
    ensures Progressed(s, i, r)
    ensures r.Ok? ==> r.value.0.FunctionCall? && r.value.0.name == ValueStr(Cur(s, i).value) && |r.value.0.args| <= 1
    decreases Rank(s, i), 0
  {
    var nameToken := Cur(s, i);
    var j :- Eat(s, i, IDENTIFIER);
    var k :- Eat(s, j, LPAREN);
    PCallArgs(s, k, ValueStr(nameToken.value))
  }

  /** The optional argument and the closing parenthesis of a call. */
  function PCallArgs(s: Stream, k: nat, name: string): (r: Result<(Node, nat)>)
    requires Ready(s, k)
    ensures Progressed(s, k, r)
    ensures r.Ok? ==> r.value.0.FunctionCall? && r.value.0.name == name && |r.value.0.args| <= 1
    ensures r.Ok? ==> Tok(s, r.value.1 - 1) == Ok(Token(RPAREN, Cur(s, r.value.1 - 1).value))
    decreases Rank(s, k) + 1, 0
  {
    if Cur(s, k).kind != RPAREN then
      var arg :- PExpr(s, k);
      var m :- Eat(s, arg.1, RPAREN);
      Ok((FunctionCall(name, [arg.0]), m))
    else
      var m :- Eat(s, k, RPAREN);
      Ok((FunctionCall(name, []), m))
  }

  /** `term : factor ((MULTIPLY | DIVIDE) factor)*`. */
  function PTerm(s: Stream, i: nat): (r: Result<(Node, nat)>)
    requires Ready(s, i)
    ensures Progressed(s, i, r)
    decreases Rank(s, i), 3
  {
    var f :- PFactor(s, i);
    PTermLoop(s, f.1, f.0)
  }

  /** The `while` loop of `term`, with `left` the node built so far. */
  function PTermLoop(s: Stream, i: nat, left: Node): (r: Result<(Node, nat)>)
    requires Ready(s, i)
    ensures Advanced(s, i, r)
    ensures r.Ok? ==> Cur(s, r.value.1).kind != MULTIPLY && Cur(s, r.value.1).kind != DIVIDE
    decreases Rank(s, i), 2
  {
    var tok := Cur(s, i);
    if tok.kind == MULTIPLY || tok.kind == DIVIDE then
      var j :- Eat(s, i, tok.kind);
      var f :- PFactor(s, j);
      PTermLoop(s, f.1, BinOp(left, tok, f.0))
    else
      Ok((left, i))
  }

  /** `expr : term ((PLUS | MINUS) term)*`. */
  function PExpr(s: Stream, i: nat): (r: Result<(Node, nat)>)
    requires Ready(s, i)
    ensures Progressed(s, i, r)
    decreases Rank(s, i), 5
  {
    var t :- PTerm(s, i);
    PExprLoop(s, t.1, t.0)
  }

  /** The `while` loop of `expr`, with `left` the node built so far. */
  function PExprLoop(s: Stream, i: nat, left: Node): (r: Result<(Node, nat)>)
    requires Ready(s, i)
    ensures Advanced(s, i, r)
    ensures r.Ok? ==> Cur(s, r.value.1).kind != PLUS && Cur(s, r.value.1).kind != MINUS
    decreases Rank(s, i), 4
  {
    var tok := Cur(s, i);
    if tok.kind == PLUS || tok.kind == MINUS then
      var j :- Eat(s, i, tok.kind);
      var t :- PTerm(s, j);
      PExprLoop(s, t.1, BinOp(left, tok, t.0))
    else
      Ok((left, i))
  }

  // ---- declarations and statements ----

  function PTypeSpec(s: Stream, i: nat): (r: Result<(Node, nat)>)
    requires Ready(s, i)
    ensures Progressed(s, i, r)
    ensures r.Ok? <==> Cur(s, i).kind == KW_INT && Tok(s, i + 2).Ok?
    ensures r.Ok? ==> r.value == (Type(Cur(s, i), 0), i + 1)
  {
    var tok := Cur(s, i);
    if tok.kind == KW_INT then
      var j :- Eat(s, i, KW_INT);
      Ok((Type(tok, 0), j))
    else
      Err("Parser error: Expected a type specifier")
  }

  /** `var_declaration : (KW_MUT)? type_spec IDENTIFIER ASSIGN expr`. */
  function PVarDecl(s: Stream, i: nat): (r: Result<(Node, nat)>)
    requires Ready(s, i)
    ensures Progressed(s, i, r)
    ensures r.Ok? ==> r.value.0.VarDecl? && r.value.0.assignNode.Some?
    ensures r.Ok? ==> (r.value.0.isMutable <==> Cur(s, i).kind == KW_MUT)
  {
    var isMutable := Cur(s, i).kind == KW_MUT;
    var i1 :- if isMutable then Eat(s, i, KW_MUT) else Ok(i);
    var t :- PTypeSpec(s, i1);
    var varToken := Cur(s, t.1);
    var i2 :- Eat(s, t.1, IDENTIFIER);
    var i3 :- Eat(s, i2, ASSIGN);
    var e :- PExpr(s, i3);
    Ok((VarDecl(t.0, Var(varToken), Some(e.0), isMutable), e.1))
  }

  /** `const_declaration : KW_CONST type_spec IDENTIFIER ASSIGN expr`. */
  function PConstDecl(s: Stream, i: nat): (r: Result<(Node, nat)>)
    requires Ready(s, i)
    ensures Progressed(s, i, r)
    ensures r.Ok? ==> r.value.0.ConstDecl? && r.value.0.assignNode.Some?
  {
    var i1 :- Eat(s, i, KW_CONST);
    var t :- PTypeSpec(s, i1);
    var varToken := Cur(s, t.1);
    var i2 :- Eat(s, t.1, IDENTIFIER);
    var i3 :- Eat(s, i2, ASSIGN);
    var e :- PExpr(s, i3);
    Ok((ConstDecl(t.0, Var(varToken), Some(e.0)), e.1))
  }

  /** `assignment_statement : variable ASSIGN expr`. */
  function PAssign(s: Stream, i: nat): (r: Result<(Node, nat)>)
    requires Ready(s, i)
    ensures Progressed(s, i, r)
    ensures r.Ok? ==> r.value.0.Assign? && r.value.0.left == Var(Cur(s, i))
  {
    var left := Var(Cur(s, i));
    var j :- Eat(s, i, IDENTIFIER);
    var op := Cur(s, j);
    var k :- Eat(s, j, ASSIGN);
    var e :- PExpr(s, k);
    Ok((Assign(left, op, e.0), e.1))
  }

  function PReturn(s: Stream, i: nat): (r: Result<(Node, nat)>)
    requires Ready(s, i)
    ensures Progressed(s, i, r)
    ensures r.Ok? ==> r.value.0.Return? && r.value.0.value.Some?
  {
    var j :- Eat(s, i, KW_RETURN);
    var e :- PExpr(s, j);
    Ok((Return(Some(e.0)), e.1))
  }

  /** The statement kind chosen from the current and peek tokens, before the
      closing semicolon. */
  function PStatementBody(s: Stream, i: nat): (r: Result<(Node, nat)>)
    requires Ready(s, i)
    ensures Progressed(s, i, r)
  {
    var kind := Cur(s, i).kind;
    if kind == KW_INT || kind == KW_MUT then PVarDecl(s, i)
    else if kind == IDENTIFIER && Peek(s, i).kind == ASSIGN then PAssign(s, i)
    else if kind == IDENTIFIER && Peek(s, i).kind == LPAREN then PCall(s, i)
    else if kind == KW_RETURN then PReturn(s, i)
    else Err("Parser error: Invalid statement. Current token: " + TokenStr(Cur(s, i)))
  }

  /** `statement`, followed by the SEMICOLON every statement ends in. */
  function PStatement(s: Stream, i: nat): (r: Result<(Node, nat)>)
    requires Ready(s, i)
    ensures Progressed(s, i, r)
  {
    var n :- PStatementBody(s, i);
    var j :- Eat(s, n.1, SEMICOLON);
    Ok((n.0, j))
  }

  /** The `while` loop of `compound_statement`: statements up to RBRACE,
      appended to `acc`. */
  function PStatements(s: Stream, i: nat, acc: seq<Node>): (r: Result<(seq<Node>, nat)>)
    requires Ready(s, i)
    ensures r.Ok? ==> Ready(s, r.value.1) && Rank(s, r.value.1) <= Rank(s, i) && i <= r.value.1
    ensures r.Ok? ==> Cur(s, r.value.1).kind == RBRACE
    decreases Rank(s, i)
  {
    if Cur(s, i).kind != RBRACE then
      var st :- PStatement(s, i);
      PStatements(s, st.1, acc + [st.0])
    else
      Ok((acc, i))
  }

  /** `compound_statement : LBRACE statement* RBRACE`. */
  function PCompound(s: Stream, i: nat): (r: Result<(Node, nat)>)
    requires Ready(s, i)
    ensures Progressed(s, i, r)
    ensures r.Ok? ==> r.value.0.Compound? && Tok(s, r.value.1 - 1) == Ok(Token(RBRACE, Cur(s, r.value.1 - 1).value))
  {
    var j :- Eat(s, i, LBRACE);
    var body :- PStatements(s, j, []);
    var k :- Eat(s, body.1, RBRACE);
    assert k - 1 == body.1 && Tok(s, body.1) == Ok(Cur(s, body.1));
    Ok((Compound(body.0), k))
  }

  /** `declaration`: a `const` declaration and its semicolon, or a function
      `int NAME ( ) compound_statement`. */
  function PDeclaration(s: Stream, i: nat): (r: Result<(Node, nat)>)
    requires Ready(s, i)
    ensures Progressed(s, i, r)
  {
    if Cur(s, i).kind == KW_CONST then
      var c :- PConstDecl(s, i);
      var j :- Eat(s, c.1, SEMICOLON);
      Ok((c.0, j))
    else if Cur(s, i).kind == KW_INT then
      PFunctionDecl(s, i)
    else
      Err("Parser error: Invalid top-level declaration. Unexpected token: " + TokenStr(Cur(s, i)))
  }

  /** The `int` branch of `declaration`: type, name, `(`, `)`, then the
      body. */
  function PFunctionDecl(s: Stream, i: nat): (r: Result<(Node, nat)>)
    requires Ready(s, i)
    ensures Progressed(s, i, r)
  {
    var t :- PTypeSpec(s, i);
    var funcName := ValueStr(Cur(s, t.1).value);
    var j :- Eat(s, t.1, IDENTIFIER);
    var k :- Eat(s, j, LPAREN);
    var m :- Eat(s, k, RPAREN);
    assert i < m && Rank(s, m) < Rank(s, i);
    var body :- PCompound(s, m);
    Ok((FunctionDecl(t.0, funcName, [], body.0), body.1))
  }

  /** The `while` loop of `parse`: declarations up to EOF, appended to `acc`. */
  function PDeclarations(s: Stream, i: nat, acc: seq<Node>): (r: Result<(seq<Node>, nat)>)
    requires Ready(s, i)
    ensures r.Ok? ==> Ready(s, r.value.1) && Cur(s, r.value.1).kind == EOF
    decreases Rank(s, i)
  {
    if Cur(s, i).kind != EOF then
      var d :- PDeclaration(s, i);
      PDeclarations(s, d.1, acc + [d.0])
    else
      Ok((acc, i))
  }

  /** `parse` from the first parser state. */
  function PParse(s: Stream): (r: Result<Node>)
    requires Ready(s, 0)
    ensures r.Ok? ==> r.value.Program?
  {
    var ds :- PDeclarations(s, 0, []);
    Ok(Program(ds.0))
  }

  /** `Parser(Lexer(text)).parse()`: construction fetches the first two
      tokens, either of which may raise a lexer error. */
  function ParseText(text: string): (r: Result<Node>)
    ensures r.Ok? ==> r.value.Program?
  {
    var s := Lex(text, 0);
    match Tok(s, 0)
    case Err(m) => Err(m)
    case Ok(_) =>
      match Tok(s, 1)
      case Err(m) => Err(m)
      case Ok(_) => PParse(s)
  }
}
