/** The `Parser` class: a lexer, the current and peek tokens, and one method
    per grammar rule. Each method is proved to compute what the matching
    function of `ParserSpec` says, over the stream the lexer yields. */
module Parsing {
  import opened Wrappers
  import opened Tokens
  import opened Lexing
  import opened LexerProps
  import opened Ast
  import opened ParserSpec

  /** The stream still to come after the first `k` tokens. */
  function Drop(s: Stream, k: nat): Stream {
    if k <= |s.toks| then Stream(s.toks[k..], s.tail) else Stream([], s.tail)
  }

  /** A method's result together with the parser state it leaves. */
  function Outcome<T>(r: Result<T>, i: nat): Result<(T, nat)> {
    match r
    case Ok(v) => Ok((v, i))
    case Err(m) => Err(m)
  }

  /** One `get_next_token` call from a lexer whose remaining stream is the
      stream from token `k` on returns token `k`, and leaves the stream from
      token `k + 1` on. */
  lemma NextToken(text: string, p: nat, s: Stream, k: nat)
    requires Lex(text, p) == Drop(s, k)
    ensures Scan(text, p).Err? ==> Tok(s, k) == Err(Scan(text, p).msg)
    ensures Scan(text, p).Ok? ==>
      Tok(s, k) == Ok(Scan(text, p).value.0) && Lex(text, Scan(text, p).value.1) == Drop(s, k + 1)
  {
    LexFirstToken(text, p);
    match Scan(text, p)
    case Err(m) =>
    case Ok((t, q)) =>
      if t.kind == EOF {
        EofIsStable(text, p);
      } else {
        assert k < |s.toks|;
        assert s.toks[k..][1..] == s.toks[k + 1..];
      }
  }

  /** One round of the statements loop: its outcome is the statement's
      error, or the loop from where the statement ends. */
  lemma StatementsStep(s: Stream, i: nat, acc: seq<Node>, r: Result<(Node, nat)>)
    requires Ready(s, i) && Cur(s, i).kind != RBRACE && r == PStatement(s, i)
    ensures r.Err? ==> PStatements(s, i, acc) == Err(r.msg)
    ensures r.Ok? ==> Ready(s, r.value.1) && PStatements(s, i, acc) == PStatements(s, r.value.1, acc + [r.value.0])
  {
  }

  /** `compound_statement` once its statements have been read from `j`, just
      after the LBRACE: the statements' error, or the closing `eat`. */
  lemma CompoundFromStatements(s: Stream, i: nat, j: nat, r: Result<(seq<Node>, nat)>)
    requires Ready(s, i) && ParserSpec.Eat(s, i, LBRACE) == Ok(j) && r == PStatements(s, j, [])
    ensures r.Err? ==> PCompound(s, i) == Err(r.msg)
    ensures r.Ok? ==> Ready(s, r.value.1) && PCompound(s, i) == match ParserSpec.Eat(s, r.value.1, RBRACE)
      case Ok(k) => Ok((Compound(r.value.0), k))
      case Err(m) => Err(m)
  {
  }

  /** The `for` loop that appends the parsed statements, one by one, to the
      children of a fresh `Compound`. */
  method CopyChildren(nodes: seq<Node>) returns (children: seq<Node>)
    ensures children == nodes
  {
    children := [];
    for k := 0 to |nodes|
      invariant children == nodes[..k]
    {
      children := children + [nodes[k]];
    }
    assert nodes[..|nodes|] == nodes;
  }

  class Parser {
    const lexer: Lexer
    var currentToken: Token
    var peekToken: Token
    /** Every token the lexer yields from where the parser started. */
    ghost const stream: Stream
    /** The position of `currentToken` in `stream`. */
    ghost var index: nat

    ghost predicate Valid()
      reads this, lexer
    {
      lexer.Valid()
      && Tok(stream, index) == Ok(currentToken) && Tok(stream, index + 1) == Ok(peekToken)
      && Lex(lexer.text, lexer.pos) == Drop(stream, index + 2)
    }

    constructor Init(lx: Lexer, cur: Token, peek: Token, ghost s: Stream)
      requires lx.Valid() && Tok(s, 0) == Ok(cur) && Tok(s, 1) == Ok(peek) && Lex(lx.text, lx.pos) == Drop(s, 2)
      ensures Valid() && lexer == lx && stream == s && index == 0
      ensures currentToken == cur && peekToken == peek
    {
      lexer := lx;
      currentToken := cur;
      peekToken := peek;
      stream := s;
      index := 0;
    }

    /** `Parser(lexer)`: fetches the current and the peek token. */
    static method Create(lx: Lexer) returns (r: Result<Parser>)
      requires lx.Valid()
      modifies lx
      ensures r.Ok? ==> fresh(r.value) && r.value.Valid() && r.value.lexer == lx && r.value.index == 0
      ensures r.Ok? ==> r.value.stream == Lex(lx.text, old(lx.pos))
      ensures r.Err? ==> var s := Lex(lx.text, old(lx.pos));
        if Tok(s, 0).Err? then r.msg == Tok(s, 0).msg else Tok(s, 1) == Err(r.msg)
    {
      ghost var s := Lex(lx.text, lx.pos);
      assert Drop(s, 0) == s;
      NextToken(lx.text, lx.pos, s, 0);
      var cur := lx.GetNextToken();
      if cur.Err? {
        return Err(cur.msg);
      }
      NextToken(lx.text, lx.pos, s, 1);
      var peek := lx.GetNextToken();
      if peek.Err? {
        return Err(peek.msg);
      }
      var p := new Parser.Init(lx, cur.value, peek.value, s);
      return Ok(p);
    }

    method Eat(t: TokenType) returns (r: Result<()>)
      requires Valid()
      modifies this, lexer
      ensures r.Ok? ==> Valid()
      ensures Outcome(r, index) == match ParserSpec.Eat(stream, old(index), t)
        case Ok(j) => Ok(((), j))
        case Err(m) => Err(m)
    {
      if currentToken.kind == t {
        NextToken(lexer.text, lexer.pos, stream, index + 2);
        currentToken := peekToken;
        var next := lexer.GetNextToken();
        if next.Err? {
          return Err(next.msg);
        }
        peekToken := next.value;
        index := index + 1;
        return Ok(());
      } else {
        return Err(UnexpectedToken(t, currentToken.kind));
      }
    }

    method Factor() returns (r: Result<Node>)
      requires Valid()
      modifies this, lexer
      ensures r.Ok? ==> Valid()
      ensures Outcome(r, index) == PFactor(stream, old(index))
      decreases Rank(stream, index), 1
    {
      var token := currentToken;
      if token.kind == INTEGER {
        var e := Eat(INTEGER);
        if e.Err? { return Err(e.msg); }
        return Ok(Num(token));
      } else if token.kind == LPAREN {
        var e := Eat(LPAREN);
        if e.Err? { return Err(e.msg); }
        var node := Expr();
        if node.Err? { return node; }
        e := Eat(RPAREN);
        if e.Err? { return Err(e.msg); }
        return node;
      } else if token.kind == IDENTIFIER {
        if peekToken.kind == LPAREN {
          r := FunctionCall();
          return;
        } else {
          var e := Eat(IDENTIFIER);
          if e.Err? { return Err(e.msg); }
          return Ok(Var(token));
        }
      }
      return Err("Parser error: Invalid factor in expression. Current token: " + TokenStr(token));
    }

    method Term() returns (r: Result<Node>)
      requires Valid()
      modifies this, lexer
      ensures r.Ok? ==> Valid()
      ensures Outcome(r, index) == PTerm(stream, old(index))
      decreases Rank(stream, index), 3
    {
      var f := Factor();
      if f.Err? { return f; }
      var node := f.value;
      while currentToken.kind == MULTIPLY || currentToken.kind == DIVIDE
        invariant Valid() && Rank(stream, index) < Rank(stream, old(index))
        invariant PTerm(stream, old(index)) == PTermLoop(stream, index, node)
        decreases Rank(stream, index)
      {
        var token := currentToken;
        var e;
        if token.kind == MULTIPLY {
          e := Eat(MULTIPLY);
        } else {
          e := Eat(DIVIDE);
        }
        if e.Err? { return Err(e.msg); }
        var right := Factor();
        if right.Err? { return right; }
        node := BinOp(node, token, right.value);
      }
      return Ok(node);
    }

    method Expr() returns (r: Result<Node>)
      requires Valid()
      modifies this, lexer
      ensures r.Ok? ==> Valid()
      ensures Outcome(r, index) == PExpr(stream, old(index))
      decreases Rank(stream, index), 5
    {
      var t := Term();
      if t.Err? { return t; }
      var node := t.value;
      while currentToken.kind == PLUS || currentToken.kind == MINUS
        invariant Valid() && Rank(stream, index) < Rank(stream, old(index))
        invariant PExpr(stream, old(index)) == PExprLoop(stream, index, node)
        decreases Rank(stream, index)
      {
        var token := currentToken;
        var e;
        if token.kind == PLUS {
          e := Eat(PLUS);
        } else {
          e := Eat(MINUS);
        }
        if e.Err? { return Err(e.msg); }
        var right := Term();
        if right.Err? { return right; }
        node := BinOp(node, token, right.value);
      }
      return Ok(node);
    }

    method TypeSpec() returns (r: Result<Node>)
      requires Valid()
      modifies this, lexer
      ensures r.Ok? ==> Valid()
      ensures Outcome(r, index) == PTypeSpec(stream, old(index))
    {
      var token := currentToken;
      if token.kind == KW_INT {
        var e := Eat(KW_INT);
        if e.Err? { return Err(e.msg); }
        return Ok(Type(token, 0));
      }
      return Err("Parser error: Expected a type specifier");
    }

    method VariableDeclaration() returns (r: Result<Node>)
      requires Valid()
      modifies this, lexer
      ensures r.Ok? ==> Valid()
      ensures Outcome(r, index) == PVarDecl(stream, old(index))
    {
      var isMutable := false;
      if currentToken.kind == KW_MUT {
        isMutable := true;
        var e := Eat(KW_MUT);
        if e.Err? { return Err(e.msg); }
      }
      var typeNode := TypeSpec();
      if typeNode.Err? { return typeNode; }
      var varToken := currentToken;
      var e := Eat(IDENTIFIER);
      if e.Err? { return Err(e.msg); }
      e := Eat(ASSIGN);
      if e.Err? { return Err(e.msg); }
      var assignNode := Expr();
      if assignNode.Err? { return assignNode; }
      return Ok(VarDecl(typeNode.value, Var(varToken), Some(assignNode.value), isMutable));
    }

    method ConstantDeclaration() returns (r: Result<Node>)
      requires Valid()
      modifies this, lexer
      ensures r.Ok? ==> Valid()
      ensures Outcome(r, index) == PConstDecl(stream, old(index))
    {
      var e := Eat(KW_CONST);
      if e.Err? { return Err(e.msg); }
      var typeNode := TypeSpec();
      if typeNode.Err? { return typeNode; }
      var varToken := currentToken;
      e := Eat(IDENTIFIER);
      if e.Err? { return Err(e.msg); }
      e := Eat(ASSIGN);
      if e.Err? { return Err(e.msg); }
      var assignNode := Expr();
      if assignNode.Err? { return assignNode; }
      return Ok(ConstDecl(typeNode.value, Var(varToken), Some(assignNode.value)));
    }

    method AssignmentStatement() returns (r: Result<Node>)
      requires Valid()
      modifies this, lexer
      ensures r.Ok? ==> Valid()
      ensures Outcome(r, index) == PAssign(stream, old(index))
    {
      var left := Var(currentToken);
      var e := Eat(IDENTIFIER);
      if e.Err? { return Err(e.msg); }
      var op := currentToken;
      e := Eat(ASSIGN);
      if e.Err? { return Err(e.msg); }
      var right := Expr();
      if right.Err? { return right; }
      return Ok(Assign(left, op, right.value));
    }

    method FunctionCall() returns (r: Result<Node>)
      requires Valid()
      modifies this, lexer
      ensures r.Ok? ==> Valid()
      ensures Outcome(r, index) == PCall(stream, old(index))
      decreases Rank(stream, index), 0
    {
      var nameToken := currentToken;
      var e := Eat(IDENTIFIER);
      if e.Err? { return Err(e.msg); }
      e := Eat(LPAREN);
      if e.Err? { return Err(e.msg); }
      ghost var k := index;
      assert PCall(stream, old(index)) == PCallArgs(stream, k, ValueStr(nameToken.value));
      var args := [];
      if currentToken.kind != RPAREN {
        var arg := Expr();
        if arg.Err? { return arg; }
        args := args + [arg.value];
      }
      ghost var m := index;
      assert args == [] ==> m == k;
      assert args != [] ==> PExpr(stream, k) == Ok((args[0], m));
      e := Eat(RPAREN);
      if e.Err? { return Err(e.msg); }
      assert ParserSpec.Eat(stream, m, RPAREN) == Ok(index);
      ghost var name := ValueStr(nameToken.value);
      if args == [] {
        assert PCallArgs(stream, k, name) == Ok((Node.FunctionCall(name, []), index));
      } else {
        assert args == [args[0]];
        assert PCallArgs(stream, k, name) == Ok((Node.FunctionCall(name, [args[0]]), index));
      }
      return Ok(Node.FunctionCall(ValueStr(nameToken.value), args));
    }

    method ReturnStatement() returns (r: Result<Node>)
      requires Valid()
      modifies this, lexer
      ensures r.Ok? ==> Valid()
      ensures Outcome(r, index) == PReturn(stream, old(index))
    {
      var e := Eat(KW_RETURN);
      if e.Err? { return Err(e.msg); }
      var value := Expr();
      if value.Err? { return value; }
      return Ok(Return(Some(value.value)));
    }

    method Statement() returns (r: Result<Node>)
      requires Valid()
      modifies this, lexer
      ensures r.Ok? ==> Valid()
      ensures Outcome(r, index) == PStatement(stream, old(index))
    {
      var tokenType := currentToken.kind;
      var node;
      if tokenType == KW_INT || tokenType == KW_MUT {
        node := VariableDeclaration();
      } else if tokenType == IDENTIFIER && peekToken.kind == ASSIGN {
        node := AssignmentStatement();
      } else if tokenType == IDENTIFIER && peekToken.kind == LPAREN {
        node := FunctionCall();
      } else if tokenType == KW_RETURN {
        node := ReturnStatement();
      } else {
        return Err("Parser error: Invalid statement. Current token: " + TokenStr(currentToken));
      }
      if node.Err? { return node; }
      var e := Eat(SEMICOLON);
      if e.Err? { return Err(e.msg); }
      return node;
    }

    method CompoundStatement() returns (r: Result<Node>)
      requires Valid()
      modifies this, lexer
      ensures r.Ok? ==> Valid()
      ensures Outcome(r, index) == PCompound(stream, old(index))
    {
      ghost var i0 := index;
      var e := Eat(LBRACE);
      if e.Err? {
        return Err(e.msg);
      }
      ghost var j := index;
      var nodes: seq<Node> := [];
      while currentToken.kind != RBRACE
        invariant Valid()
        invariant PStatements(stream, j, []) == PStatements(stream, index, nodes)
        decreases Rank(stream, index)
      {
        ghost var i := index;
        var node := Statement();
        StatementsStep(stream, i, nodes, Outcome(node, index));
        if node.Err? {
          CompoundFromStatements(stream, i0, j, PStatements(stream, j, []));
          return node;
        }
        nodes := nodes + [node.value];
      }
      assert PStatements(stream, index, nodes) == Ok((nodes, index));
      CompoundFromStatements(stream, i0, j, PStatements(stream, j, []));
      e := Eat(RBRACE);
      if e.Err? {
        return Err(e.msg);
      }
      var children := CopyChildren(nodes);
      return Ok(Compound(children));
    }

    method Declaration() returns (r: Result<Node>)
      requires Valid()
      modifies this, lexer
      ensures r.Ok? ==> Valid()
      ensures Outcome(r, index) == PDeclaration(stream, old(index))
    {
      if currentToken.kind == KW_CONST {
        var node := ConstantDeclaration();
        if node.Err? { return node; }
        var e := Eat(SEMICOLON);
        if e.Err? { return Err(e.msg); }
        return node;
      }
      if currentToken.kind == KW_INT {
        var typeNode := TypeSpec();
        if typeNode.Err? { return typeNode; }
        var funcName := ValueStr(currentToken.value);
        var e := Eat(IDENTIFIER);
        if e.Err? { return Err(e.msg); }
        e := Eat(LPAREN);
        if e.Err? { return Err(e.msg); }
        e := Eat(RPAREN);
        if e.Err? { return Err(e.msg); }
        var body := CompoundStatement();
        if body.Err? { return body; }
        return Ok(FunctionDecl(typeNode.value, funcName, [], body.value));
      }
      return Err("Parser error: Invalid top-level declaration. Unexpected token: " + TokenStr(currentToken));
    }

    method Parse() returns (r: Result<Node>)
      requires Valid()
      modifies this, lexer
      ensures r.Ok? ==> Valid()
      ensures r == (var d := PDeclarations(stream, old(index), []);
        if d.Ok? then Ok(Program(d.value.0)) else Err(d.msg))
    {
      var declarations: seq<Node> := [];
      while currentToken.kind != EOF
        invariant Valid()
        invariant PDeclarations(stream, old(index), []) == PDeclarations(stream, index, declarations)
        decreases Rank(stream, index)
      {
        var d := Declaration();
        if d.Err? { return d; }
        declarations := declarations + [d.value];
      }
      return Ok(Program(declarations));
    }
  }

  /** `Parser(Lexer(text)).parse()`, proved to compute `ParseText`. */
  method ParseSource(text: string) returns (r: Result<Node>)
    ensures r == ParseText(text)
  {
    var lx := new Lexer(text);
    var p := Parser.Create(lx);
    if p.Err? {
      return Err(p.msg);
    }
    r := p.value.Parse();
  }
}
