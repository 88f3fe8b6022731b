/** What the C++ emitter produces, as functions: the indenting line writer's
    state, the string and character literal escapes with the C++ decoding
    they are meant for, the type mapping, the text of expressions and the
    lines each statement adds. The emitter is written against an AST
    revision whose `FunctionCall` carries a name node; its name's `value` is
    the `name` of the call here. Console output of the emitter (the
    "not implemented" warnings) is threaded through as a list of lines. */
module CppSpec {
  import opened Wrappers
  import opened Text
  import opened Tokens
  import opened Ast

  // ---- the line writer ----

  /** The state of a `CppWriter`: its `code` lines and `indent_level`. */
  datatype Writer = Writer(code: seq<string>, indent: int)

  /** `add_line`: the line after four spaces per indentation level. */
  function AddLine(w: Writer, line: string): Writer {
    w.(code := w.code + [Spaces(4 * w.indent) + line])
  }

  /** `enter_block`: an opening brace at the current level, then one level
      deeper. */
  function EnterBlock(w: Writer): Writer {
    AddLine(w, "{").(indent := w.indent + 1)
  }

  /** `exit_block`: one level shallower, then a closing brace there. */
  function ExitBlock(w: Writer): Writer {
    AddLine(w.(indent := w.indent - 1), "}")
  }

  /** `get_code`. */
  function GetCode(w: Writer): string {
    Join(w.code, "\n")
  }

  /** The lines from index `from` on all begin with the indentation of
      `level`. */
  predicate IndentedFrom(code: seq<string>, from: nat, level: int) {
    forall k :: from <= k < |code| ==> Spaces(4 * level) <= code[k]
  }

  /** An `enter_block`/`exit_block` pair around lines written one level
      deeper puts both braces at the same indentation and restores the
      level. */
  lemma BlockBracesMatch(w: Writer, inner: Writer)
    requires w.code <= EnterBlock(w).code <= inner.code && inner.indent == w.indent + 1
    ensures var after := ExitBlock(inner);
      after.indent == w.indent
      && after.code[|w.code|] == Spaces(4 * w.indent) + "{"
      && after.code[|after.code| - 1] == Spaces(4 * w.indent) + "}"
      && |after.code| == |inner.code| + 1
  {
  }

  /** `get_code` separates the lines by single newlines and adds none at the
      end: lines without newlines give exactly one fewer newline than there
      are lines. */
  lemma GetCodeNewlines(w: Writer)
    requires |w.code| > 0 && forall i :: 0 <= i < |w.code| ==> Count(w.code[i], '\n') == 0
    ensures Count(GetCode(w), '\n') == |w.code| - 1
  {
    JoinNewlineCount(w.code);
  }

  // ---- string literals ----

  /** One character of `visit_StringLiteral`'s loop. */
  function EscapeChar(c: char): string {
    if c == '\n' then "\\n"
    else if c == '\t' then "\\t"
    else if c == '\r' then "\\r"
    else if c == '"' then "\\\""
    else if c == '\\' then "\\\\"
    else [c]
  }

  function Escape(s: string): string {
    if s == [] then "" else EscapeChar(s[0]) + Escape(s[1..])
  }

  /** The C++ string literal `visit_StringLiteral` returns. */
  function StringLiteralText(s: string): string {
    "\"" + Escape(s) + "\""
  }

  lemma {:induction false} EscapeAppend(a: string, b: string)
    ensures Escape(a + b) == Escape(a) + Escape(b)
    decreases |a|
  {
    if a != [] {
      assert (a + b)[0] == a[0];
      assert (a + b)[1..] == a[1..] + b;
      EscapeAppend(a[1..], b);
    } else {
      assert a + b == b;
    }
  }

  /** The character a simple escape sequence `\c` stands for in C++
      (ISO/IEC 14882, [lex.ccon], simple-escape-sequence). */
  function SimpleEscape(c: char): Option<char> {
    if c == '\'' || c == '"' || c == '?' || c == '\\' then Some(c)
    else if c == 'a' then Some(7 as char)
    else if c == 'b' then Some(8 as char)
    else if c == 'f' then Some(12 as char)
    else if c == 'n' then Some('\n')
    else if c == 'r' then Some('\r')
    else if c == 't' then Some('\t')
    else if c == 'v' then Some(11 as char)
    else None
  }

  /** The characters a C++ string literal body written with simple escapes
      only stands for; `None` when the body is not such a body (a raw double
      quote ends the literal early, a raw newline is not allowed, and a
      backslash must start a simple escape). */
  function Unescape(t: string): Option<string>
    decreases |t|
  {
    if t == [] then Some("")
    else if t[0] == '\\' then
      if |t| < 2 then None
      else match (SimpleEscape(t[1]), Unescape(t[2..]))
        case (Some(c), Some(rest)) => Some([c] + rest)
        case _ => None
    else if t[0] == '"' || t[0] == '\n' then None
    else match Unescape(t[1..])
      case Some(rest) => Some([t[0]] + rest)
      case None => None
  }

  /** Decoding a whole double-quoted literal. */
  function DecodeStringLiteral(lit: string): Option<string> {
    if |lit| >= 2 && lit[0] == '"' && lit[|lit| - 1] == '"' then Unescape(lit[1..|lit| - 1]) else None
  }

  lemma {:induction false} UnescapeEscape(s: string)
    ensures Unescape(Escape(s)) == Some(s)
    decreases |s|
  {
    if s != [] {
      UnescapeEscape(s[1..]);
      assert Escape(s) == EscapeChar(s[0]) + Escape(s[1..]);
      if |EscapeChar(s[0])| == 2 {
        UnescapeEscaped(s[0], Escape(s[1..]));
      } else {
        UnescapePlain(s[0], Escape(s[1..]));
      }
      assert s == [s[0]] + s[1..];
    }
  }

  lemma UnescapeEscaped(c: char, rest: string)
    requires |EscapeChar(c)| == 2
    ensures Unescape(EscapeChar(c) + rest) == if Unescape(rest).Some? then Some([c] + Unescape(rest).value) else None
  {
    EscapedPair(c);
    var t := EscapeChar(c) + rest;
    assert t[0] == '\\' && t[1] == EscapeChar(c)[1] && t[2..] == rest;
  }

  /** The five escaped characters become a backslash and the simple escape
      that stands for them. */
  lemma EscapedPair(c: char)
    requires |EscapeChar(c)| == 2
    ensures EscapeChar(c)[0] == '\\' && SimpleEscape(EscapeChar(c)[1]) == Some(c)
  {
    if c == '\n' {
      assert EscapeChar(c) == "\\n";
    } else if c == '\t' {
      assert EscapeChar(c) == "\\t";
    } else if c == '\r' {
      assert EscapeChar(c) == "\\r";
    } else if c == '"' {
      assert EscapeChar(c) == "\\\"";
    } else {
      assert EscapeChar(c) == "\\\\";
    }
  }

  lemma UnescapePlain(c: char, rest: string)
    requires |EscapeChar(c)| != 2
    ensures Unescape(EscapeChar(c) + rest) == if Unescape(rest).Some? then Some([c] + Unescape(rest).value) else None
  {
    var t := EscapeChar(c) + rest;
    assert t[0] == c && t[1..] == rest;
  }

  /** The literal `visit_StringLiteral` returns stands, in C++, for exactly
      the characters of the source string: every double quote and backslash
      is escaped, so the literal ends where it should. */
  lemma StringLiteralRoundTrip(s: string)
    ensures DecodeStringLiteral(StringLiteralText(s)) == Some(s)
  {
    var lit := StringLiteralText(s);
    assert lit[1..|lit| - 1] == Escape(s);
    UnescapeEscape(s);
  }

  /** No newline, tab or carriage return appears raw inside the literal. */
  lemma {:induction false} EscapeHasNoRawControls(s: string)
    ensures forall k :: 0 <= k < |Escape(s)| ==> Escape(s)[k] != '\n' && Escape(s)[k] != '\t' && Escape(s)[k] != '\r'
    decreases |s|
  {
    if s != [] {
      EscapeHasNoRawControls(s[1..]);
      var t := Escape(s);
      var e := EscapeChar(s[0]);
      assert t == e + Escape(s[1..]);
      forall k | 0 <= k < |t| ensures t[k] != '\n' && t[k] != '\t' && t[k] != '\r' {
        if k >= |e| {
          assert t[k] == Escape(s[1..])[k - |e|];
        }
      }
    }
  }

  // ---- character literals ----

  predicate IsSurrogate(code: int) {
    0xD800 <= code < 0xE000
  }

  /** `chr`'s argument is first converted to a C `int`. */
  predicate FitsCInt(code: int) {
    -0x8000_0000 <= code < 0x8000_0000
  }

  const ChrOverflowMessage: string := "Python int too large to convert to C int"
  const ChrRangeMessage: string := "chr() arg not in range(0x110000)"

  /** `visit_CharLiteral`: five escaped codes, otherwise `chr(val)` between
      single quotes; `chr` raises for codes that do not fit a C `int` and
      for the other codes outside the Unicode range. */
  function CharLiteralText(code: int): Result<string>
    requires !IsSurrogate(code)
  {
    if code == 10 then Ok("'\\n'")
    else if code == 9 then Ok("'\\t'")
    else if code == 13 then Ok("'\\r'")
    else if code == 39 then Ok("'\\''")
    else if code == 92 then Ok("'\\\\'")
    else if !FitsCInt(code) then Err(ChrOverflowMessage)
    else if 0 <= code < 0x110000 then Ok("'" + [code as char] + "'")
    else Err(ChrRangeMessage)
  }

  /** Decoding a character literal of one character or one simple escape,
      reading the character as one code point. For an ASCII character that
      is what C++ reads; it is not for the others (see `CharLiteralRoundTrip`). */
  function DecodeCharLiteral(lit: string): Option<int> {
    if |lit| == 3 && lit[0] == '\'' && lit[2] == '\'' && lit[1] != '\'' && lit[1] != '\\' && lit[1] != '\n' then
      Some(lit[1] as int)
    else if |lit| == 4 && lit[0] == '\'' && lit[1] == '\\' && lit[3] == '\'' && SimpleEscape(lit[2]).Some? then
      Some(SimpleEscape(lit[2]).value as int)
    else None
  }

  /** The character literal is made exactly for the codes `chr` accepts,
      and `DecodeCharLiteral` reads it back as the code it was made from.
      For an ASCII code the literal is ASCII throughout, so it is an
      ordinary one-character C++ literal standing for that code; for a
      larger code the character takes several UTF-8 code units, and C++
      does not give such a literal that code. */
  lemma CharLiteralRoundTrip(code: int)
    requires !IsSurrogate(code)
    ensures CharLiteralText(code).Ok? <==> 0 <= code < 0x110000
    ensures CharLiteralText(code).Ok? ==> DecodeCharLiteral(CharLiteralText(code).value) == Some(code)
    ensures 0 <= code < 128 ==>
      forall i :: 0 <= i < |CharLiteralText(code).value| ==> CharLiteralText(code).value[i] as int < 128
    ensures !FitsCInt(code) ==> CharLiteralText(code) == Err(ChrOverflowMessage)
    ensures FitsCInt(code) && !(0 <= code < 0x110000) ==> CharLiteralText(code) == Err(ChrRangeMessage)
  {
    if 0 <= code < 0x110000 && code !in {9, 10, 13, 39, 92} {
      var lit := "'" + [code as char] + "'";
      assert lit[1] == code as char;
    }
  }

  // ---- types ----

  /** `'*' * n`. */
  function Stars(n: nat): (s: string)
    ensures |s| == n
  {
    if n == 0 then "" else Stars(n - 1) + "*"
  }

  /** The C++ spelling of a type name: `int` becomes `int64_t`; `char` and
      every other name stay as they are. */
  function CppBaseType(v: Value): string {
    if v == VStr("int") then "int64_t" else ValueStr(v)
  }

  /** `_map_type(type_node, is_const)`. */
  function MapType(t: Node, isConst: bool): string
    requires t.Type?
  {
    var typeStr := (if isConst then "const " else "") + CppBaseType(t.token.value);
    (if t.pointerLevel > 0 then typeStr + " " else typeStr) + Stars(t.pointerLevel)
  }

  lemma {:induction false} StarsCount(n: nat)
    ensures Count(Stars(n), '*') == n
  {
    if n > 0 {
      StarsCount(n - 1);
      CountAppend(Stars(n - 1), "*", '*');
    }
  }

  /** The mapped type is the optional `const ` prefix, the C++ base name,
      and as many stars as the pointer level, preceded by one space when
      there are any. */
  lemma MapTypeParts(t: Node, isConst: bool)
    requires t.Type?
    ensures var r := MapType(t, isConst); var pre := if isConst then "const " else "";
      var base := CppBaseType(t.token.value);
      |r| >= |pre| + |base| && r[..|pre|] == pre && r[|pre|..|pre| + |base|] == base
      && r[|pre| + |base|..] == (if t.pointerLevel > 0 then " " + Stars(t.pointerLevel) else "")
      && (Count(base, '*') == 0 && Count(pre, '*') == 0 ==> Count(r, '*') == t.pointerLevel)
  {
    var pre := if isConst then "const " else "";
    var base := CppBaseType(t.token.value);
    var tail := if t.pointerLevel > 0 then " " + Stars(t.pointerLevel) else "";
    assert MapType(t, isConst) == pre + base + tail;
    MiddleSlice(pre, base, tail);
    StarsCount(t.pointerLevel);
    CountAppend(pre, base, '*');
    CountAppend(pre + base, tail, '*');
    if t.pointerLevel > 0 {
      CountAppend(" ", Stars(t.pointerLevel), '*');
    }
  }

  lemma MapTypeExamples()
    ensures MapType(Type(Token(KW_INT, VStr("int")), 0), false) == "int64_t"
    ensures MapType(Type(Token(IDENTIFIER, VStr("char")), 1), false) == "char *"
    ensures MapType(Type(Token(IDENTIFIER, VStr("char")), 1), true) == "const char *"
    ensures MapType(Type(Token(IDENTIFIER, VStr("char")), 2), false) == "char **"
  {
    assert Stars(2) == "**";
  }

  /** A parameter's C++ type: `char *` is read-only. */
  function ParamType(t: Node): string
    requires t.Type?
  {
    var ty := MapType(t, false);
    if ty == "char *" then "const char *" else ty
  }

  lemma CharPointerParam(tok: Token)
    requires tok.value == VStr("char")
    ensures ParamType(Type(tok, 1)) == "const char *"
  {
  }

  // ---- expressions ----

  /** The classes the emitter has no visitor for: `generic_visit` prints a
      warning and returns a placeholder. */
  predicate NoVisitor(n: Node) {
    n.Compound? || n.WhileStmt? || n.ConstDecl? || n.Param? || n.Type?
  }

  function NotImplementedWarning(n: Node): string {
    "Warning: C++ code generation for " + ClassName(n) + " is not implemented yet."
  }

  function NotImplementedText(n: Node): string {
    "/* " + ClassName(n) + " not implemented */"
  }

  /** The trees `visit_expr` turns into text: the expression classes and
      the classes without a visitor (statement classes return `None`), with
      string-valued variables and character codes a Dafny `char` can hold. */
  predicate IsCppExpr(n: Node) {
    match n
    case Num(_) => true
    case Var(t) => t.value.VStr?
    case StringLiteral(_) => true
    case CharLiteral(code) => !IsSurrogate(code)
    case BinOp(l, _, r) => IsCppExpr(l) && IsCppExpr(r)
    case UnaryOp(_, e) => IsCppExpr(e)
    case FunctionCall(_, args) => forall i :: 0 <= i < |args| ==> IsCppExpr(args[i])
    case _ => NoVisitor(n)
  }

  /** The runtime names of the three built-ins. */
  function CallName(name: string): string {
    if name == "print" then "print_int"
    else if name == "putchar" then "ignis_putchar"
    else if name == "getchar" then "ignis_getchar"
    else name
  }

  /** `TokenType.KW_DEREF` does not exist in the lexer's token types, so the
      attribute lookup in `visit_UnaryOp` raises. */
  const UnaryOpError: string := "type object 'TokenType' has no attribute 'KW_DEREF'"

  /** `visit_expr(node)`: the text of an expression, or the exception. */
  function ExprText(n: Node): Result<string>
    requires IsCppExpr(n)
    decreases Size(n), 1
  {
    match n
    case Num(t) => Ok(ValueStr(t.value))
    case Var(t) => Ok(ValueStr(t.value))
    case StringLiteral(s) => Ok(StringLiteralText(s))
    case CharLiteral(code) => CharLiteralText(code)
    case BinOp(l, op, r) =>
      var left :- ExprText(l);
      var right :- ExprText(r);
      Ok("(" + left + " " + ValueStr(op.value) + " " + right + ")")
    case UnaryOp(_, e) =>
      if ExprText(e).Err? then ExprText(e) else Err(UnaryOpError)
    case FunctionCall(name, args) =>
      var texts :- ArgTexts(args);
      Ok(CallName(name) + "(" + Join(texts, ", ") + ")")
    case _ => Ok(NotImplementedText(n))
  }

  /** The argument list comprehension of `visit_FunctionCall`. */
  function ArgTexts(ns: seq<Node>): Result<seq<string>>
    requires forall i :: 0 <= i < |ns| ==> IsCppExpr(ns[i])
    decreases SizeList(ns), 2
  {
    if ns == [] then Ok([]) else Cons(ExprText(ns[0]), ArgTexts(ns[1..]))
  }

  /** One text in front of the others, the first exception winning. */
  function Cons(first: Result<string>, rest: Result<seq<string>>): Result<seq<string>> {
    var f :- first;
    var r :- rest;
    Ok([f] + r)
  }

  /** The console lines visiting an expression prints: one warning per
      node without a visitor, in visiting order. */
  function ExprWarnings(n: Node): seq<string>
    requires IsCppExpr(n)
    decreases Size(n), 1
  {
    match n
    case BinOp(l, _, r) => ExprWarnings(l) + ExprWarnings(r)
    case UnaryOp(_, e) => ExprWarnings(e)
    case FunctionCall(_, args) => ArgWarnings(args)
    case _ => if NoVisitor(n) then [NotImplementedWarning(n)] else []
  }

  function ArgWarnings(ns: seq<Node>): seq<string>
    requires forall i :: 0 <= i < |ns| ==> IsCppExpr(ns[i])
    decreases SizeList(ns), 2
  {
    if ns == [] then [] else ExprWarnings(ns[0]) + ArgWarnings(ns[1..])
  }

  /** The arguments of a call are rendered one by one, in order, and the
      call fails exactly when one of them does. */
  lemma {:induction false} ArgTextsInOrder(ns: seq<Node>)
    requires forall i :: 0 <= i < |ns| ==> IsCppExpr(ns[i])
    ensures ArgTexts(ns).Ok? <==> forall i :: 0 <= i < |ns| ==> ExprText(ns[i]).Ok?
    ensures ArgTexts(ns).Ok? ==> |ArgTexts(ns).value| == |ns|
    ensures ArgTexts(ns).Ok? ==> forall i :: 0 <= i < |ns| ==> ArgTexts(ns).value[i] == ExprText(ns[i]).value
    decreases |ns|
  {
    if ns != [] {
      ArgTextsInOrder(ns[1..]);
      forall i | 1 <= i < |ns| ensures ns[1..][i - 1] == ns[i] { }
      if ArgTexts(ns).Ok? {
        forall i | 0 <= i < |ns| ensures ArgTexts(ns).value[i] == ExprText(ns[i]).value {
          if i > 0 {
            assert ArgTexts(ns).value[i] == ArgTexts(ns[1..]).value[i - 1];
          }
        }
      } else if ExprText(ns[0]).Ok? {
        var i :| 0 <= i < |ns[1..]| && !ExprText(ns[1..][i]).Ok?;
        assert ns[1..][i] == ns[i + 1];
      }
    }
  }

  /** A call renders as its runtime name, then the argument texts joined
      by commas in order, in parentheses. */
  lemma CallText(name: string, args: seq<Node>)
    requires forall i :: 0 <= i < |args| ==> IsCppExpr(args[i])
    ensures IsCppExpr(FunctionCall(name, args))
    ensures ExprText(FunctionCall(name, args)).Ok? <==> forall i :: 0 <= i < |args| ==> ExprText(args[i]).Ok?
    ensures ExprText(FunctionCall(name, args)).Ok? ==>
      ExprText(FunctionCall(name, args)).value == CallName(name) + "(" + Join(ArgTexts(args).value, ", ") + ")"
  {
    ArgTextsInOrder(args);
  }

  /** The calls and operators of an expression: each one is wrapped in
      exactly one pair of parentheses. */
  function Wrapped(n: Node): nat
    requires IsCppExpr(n)
    decreases Size(n), 1
  {
    match n
    case BinOp(l, _, r) => 1 + Wrapped(l) + Wrapped(r)
    case UnaryOp(_, e) => Wrapped(e)
    case FunctionCall(_, args) => 1 + WrappedList(args)
    case _ => 0
  }

  function WrappedList(ns: seq<Node>): nat
    requires forall i :: 0 <= i < |ns| ==> IsCppExpr(ns[i])
    decreases SizeList(ns), 2
  {
    if ns == [] then 0 else Wrapped(ns[0]) + WrappedList(ns[1..])
  }

  predicate NoParens(s: string) {
    Count(s, '(') == 0 && Count(s, ')') == 0
  }

  /** Trees of numbers, variables, operators and calls whose leaf, operator
      and function names hold no parentheses. */
  predicate Plain(n: Node) {
    match n
    case Num(t) => NoParens(ValueStr(t.value))
    case Var(t) => t.value.VStr? && NoParens(t.value.s)
    case BinOp(l, op, r) => NoParens(ValueStr(op.value)) && Plain(l) && Plain(r)
    case FunctionCall(name, args) => NoParens(CallName(name)) && forall i :: 0 <= i < |args| ==> Plain(args[i])
    case _ => false
  }

  lemma {:induction false} PlainIsCppExpr(n: Node)
    requires Plain(n)
    ensures IsCppExpr(n)
    decreases n
  {
    match n
    case BinOp(l, _, r) =>
      PlainIsCppExpr(l);
      PlainIsCppExpr(r);
    case FunctionCall(_, args) =>
      forall i | 0 <= i < |args| ensures IsCppExpr(args[i]) {
        PlainIsCppExpr(args[i]);
      }
    case _ =>
  }

  lemma CountConcat5(a: string, b: string, c: string, d: string, e: string, ch: char)
    ensures Count(a + b + c + d + e, ch) == Count(a, ch) + Count(b, ch) + Count(c, ch) + Count(d, ch) + Count(e, ch)
  {
    CountAppend(a, b, ch);
    CountAppend(a + b, c, ch);
    CountAppend(a + b + c, d, ch);
    CountAppend(a + b + c + d, e, ch);
  }

  /** Fully parenthesised: the text of a plain expression has one opening
      and one closing parenthesis per operator and per call, and no
      others. */
  lemma {:induction false} FullyParenthesised(n: Node)
    requires Plain(n)
    ensures IsCppExpr(n)
    ensures ExprText(n).Ok?
    ensures Count(ExprText(n).value, '(') == Wrapped(n)
    ensures Count(ExprText(n).value, ')') == Wrapped(n)
    decreases Size(n), 1
  {
    PlainIsCppExpr(n);
    match n
    case BinOp(l, op, r) =>
      FullyParenthesised(l);
      FullyParenthesised(r);
      BinOpParens(ExprText(l).value, ValueStr(op.value), ExprText(r).value);
    case FunctionCall(name, args) =>
      FullyParenthesisedList(args);
      var a := Join(ArgTexts(args).value, ", ");
      assert ExprText(n).value == CallName(name) + "(" + a + ")" + "";
      CountConcat5(CallName(name), "(", a, ")", "", '(');
      CountConcat5(CallName(name), "(", a, ")", "", ')');
    case Num(_) =>
    case Var(_) =>
  }

  lemma BinOpParens(l: string, op: string, r: string)
    requires NoParens(op)
    ensures Count("(" + l + " " + op + " " + r + ")", '(') == Count(l, '(') + Count(r, '(') + 1
    ensures Count("(" + l + " " + op + " " + r + ")", ')') == Count(l, ')') + Count(r, ')') + 1
  {
    CountParts("(", l, " ", op, '(');
    CountParts("(" + l + " " + op, " ", r, ")", '(');
    CountParts("(", l, " ", op, ')');
    CountParts("(" + l + " " + op, " ", r, ")", ')');
  }

  lemma CountParts(a: string, b: string, c: string, d: string, ch: char)
    ensures Count(a + b + c + d, ch) == Count(a, ch) + Count(b, ch) + Count(c, ch) + Count(d, ch)
  {
    CountAppend(a, b, ch);
    CountAppend(a + b, c, ch);
    CountAppend(a + b + c, d, ch);
  }

  lemma {:induction false} FullyParenthesisedList(ns: seq<Node>)
    requires forall i :: 0 <= i < |ns| ==> Plain(ns[i])
    ensures forall i :: 0 <= i < |ns| ==> IsCppExpr(ns[i])
    ensures ArgTexts(ns).Ok?
    ensures Count(Join(ArgTexts(ns).value, ", "), '(') == WrappedList(ns)
    ensures Count(Join(ArgTexts(ns).value, ", "), ')') == WrappedList(ns)
    decreases SizeList(ns), 2
  {
    forall i | 0 <= i < |ns| ensures IsCppExpr(ns[i]) {
      PlainIsCppExpr(ns[i]);
    }
    if ns != [] {
      FullyParenthesised(ns[0]);
      FullyParenthesisedList(ns[1..]);
      var first := ExprText(ns[0]).value;
      var restTexts := ArgTexts(ns[1..]).value;
      assert ArgTexts(ns).value == [first] + restTexts;
      if restTexts == [] {
        assert Join([first] + restTexts, ", ") == first;
      } else {
        assert ([first] + restTexts)[1..] == restTexts;
        assert Join([first] + restTexts, ", ") == first + ", " + Join(restTexts, ", ") + "" + "";
        CountConcat5(first, ", ", Join(restTexts, ", "), "", "", '(');
        CountConcat5(first, ", ", Join(restTexts, ", "), "", "", ')');
      }
    }
  }

  // ---- statements ----

  const IncludeRuntime: string := "#include \"ignis_runtime.h\""
  const IncludeCstdint: string := "#include <cstdint>"

  /** The generator's state: the writer, and the console. */
  datatype Emitted = Emitted(w: Writer, console: seq<string>)

  function Line(o: Emitted, line: string): Emitted {
    o.(w := AddLine(o.w, line))
  }

  /** A parameter the emitter can read: `type_node` a type and `var_node` a
      variable. */
  predicate IsParam(p: Node) {
    p.Param? && p.typeNode.Type? && p.varNode.Var?
  }

  /** The trees `visit` can emit as statements: every attribute the
      visitors read exists, and expression positions hold expressions. The
      return type of `main` is never looked at. */
  predicate Emittable(n: Node) {
    match n
    case Program(ds) => forall i :: 0 <= i < |ds| ==> Emittable(ds[i])
    case FunctionDecl(t, name, ps, b) =>
      (name != "main" ==> t.Type?) && (forall i :: 0 <= i < |ps| ==> IsParam(ps[i])) && Emittable(b)
    case Block(cs) => forall i :: 0 <= i < |cs| ==> Emittable(cs[i])
    case VarDecl(t, v, a, _) => t.Type? && v.Var? && (a.Some? ==> IsCppExpr(a.value))
    case Assign(l, _, r) => IsCppExpr(l) && IsCppExpr(r)
    case Return(v) => v.Some? ==> IsCppExpr(v.value)
    case LoopStmt(b) => Emittable(b)
    case IfExpr(c, t, e) => IsCppExpr(c) && Emittable(t) && (e.Some? ==> Emittable(e.value))
    case BreakStmt => true
    case _ => IsCppExpr(n)
  }

  function ParamTexts(ps: seq<Node>): (r: seq<string>)
    requires forall i :: 0 <= i < |ps| ==> IsParam(ps[i])
    ensures |r| == |ps|
  {
    if ps == [] then []
    else
      [ParamText(ps[0])] + ParamTexts(ps[1..])
  }

  /** One entry of `params_list`: the parameter's type, a space, its name. */
  function ParamText(p: Node): string
    requires IsParam(p)
  {
    ParamType(p.typeNode) + " " + ValueStr(p.varNode.token.value)
  }

  /** The header line of a function: `main` always returns `int`. */
  function FunctionHeader(t: Node, name: string, ps: seq<Node>): string
    requires name != "main" ==> t.Type?
    requires forall i :: 0 <= i < |ps| ==> IsParam(ps[i])
  {
    var returnType := if name == "main" then "int" else MapType(t, false);
    returnType + " " + name + "(" + Join(ParamTexts(ps), ", ") + ")"
  }

  /** Visiting an expression for its effects only: its text is dropped. */
  function ExprEffect(n: Node, o: Emitted): Result<Emitted>
    requires IsCppExpr(n)
  {
    var _ :- ExprText(n);
    Ok(o.(console := o.console + ExprWarnings(n)))
  }

  /** `visit_VarDecl`: a declaration initialised by a string literal is
      emitted `const`. */
  function VarDeclStmt(t: Node, v: Node, a: Option<Node>, o: Emitted): Result<Emitted>
    requires t.Type? && v.Var? && (a.Some? ==> IsCppExpr(a.value))
  {
    var varType := MapType(t, a.Some? && a.value.StringLiteral?);
    var varName := ValueStr(v.token.value);
    match a
    case Some(init) =>
      var e :- ExprText(init);
      Ok(Line(o.(console := o.console + ExprWarnings(init)), varType + " " + varName + " = " + e + ";"))
    case None => Ok(Line(o, varType + " " + varName + ";"))
  }

  /** `visit_Assign`: the left side is rendered before the right. */
  function AssignStmt(l: Node, r: Node, o: Emitted): Result<Emitted>
    requires IsCppExpr(l) && IsCppExpr(r)
  {
    var left :- ExprText(l);
    var right :- ExprText(r);
    Ok(Line(o.(console := o.console + ExprWarnings(l) + ExprWarnings(r)), left + " = " + right + ";"))
  }

  function ReturnStmt(v: Option<Node>, o: Emitted): Result<Emitted>
    requires v.Some? ==> IsCppExpr(v.value)
  {
    match v
    case Some(e) =>
      var text :- ExprText(e);
      Ok(Line(o.(console := o.console + ExprWarnings(e)), "return " + text + ";"))
    case None => Ok(Line(o, "return;"))
  }

  /** `visit(node, writer)` in statement position: the new writer and
      console, or the exception. */
  function Stmt(n: Node, o: Emitted): Result<Emitted>
    requires Emittable(n)
    decreases Size(n), 1
  {
    match n
    case Program(ds) =>
      Decls(ds, Line(Line(Line(o, IncludeRuntime), IncludeCstdint), ""))
    case FunctionDecl(t, name, ps, b) => Stmt(b, Line(o, FunctionHeader(t, name, ps)))
    case Block(cs) =>
      var inner :- BlockBody(cs, o.(w := EnterBlock(o.w)));
      Ok(inner.(w := ExitBlock(inner.w)))
    case VarDecl(t, v, a, _) => VarDeclStmt(t, v, a, o)
    case Assign(l, _, r) => AssignStmt(l, r, o)
    case Return(v) => ReturnStmt(v, o)
    case LoopStmt(b) => Stmt(b, Line(o, "for (;;)"))
    case IfExpr(_, _, _) => IfStmt(n, o)
    case BreakStmt => Ok(Line(o, "break;"))
    case _ => ExprEffect(n, o)
  }

  /** `visit_IfExpr`: the condition line, the then-block, and the else-block
      after an `else` line when there is one. */
  function IfStmt(n: Node, o: Emitted): Result<Emitted>
    requires n.IfExpr? && Emittable(n)
    decreases Size(n), 0
  {
    var cond :- ExprText(n.condition);
    var afterIf :- Stmt(n.ifBlock, Line(o.(console := o.console + ExprWarnings(n.condition)), "if (" + cond + ")"));
    match n.elseBlock
    case None => Ok(afterIf)
    case Some(elseBlock) =>
      assert SizeOpt(n.elseBlock) == Size(elseBlock);
      Stmt(elseBlock, Line(afterIf, "else"))
  }

  /** The loop of `visit_Program`: each declaration, then an empty line. */
  function Decls(ds: seq<Node>, o: Emitted): Result<Emitted>
    requires forall i :: 0 <= i < |ds| ==> Emittable(ds[i])
    decreases SizeList(ds), 3
  {
    if ds == [] then Ok(o)
    else
      var o1 :- Stmt(ds[0], o);
      Decls(ds[1..], Line(o1, ""))
  }

  /** One child of a block: a call is a statement of its own. */
  function BlockChild(c: Node, o: Emitted): Result<Emitted>
    requires Emittable(c)
    decreases Size(c), 2
  {
    if c.FunctionCall? then
      var e :- ExprText(c);
      Ok(Line(o.(console := o.console + ExprWarnings(c)), e + ";"))
    else Stmt(c, o)
  }

  /** The loop of `visit_Block`. */
  function BlockBody(cs: seq<Node>, o: Emitted): Result<Emitted>
    requires forall i :: 0 <= i < |cs| ==> Emittable(cs[i])
    decreases SizeList(cs), 3
  {
    if cs == [] then Ok(o)
    else
      var o1 :- BlockChild(cs[0], o);
      BlockBody(cs[1..], o1)
  }

  /** `generate(tree)`: the code of a fresh writer after visiting the
      tree. */
  function Generate(tree: Node, console: seq<string>): Result<(string, seq<string>)>
    requires Emittable(tree)
  {
    var o :- Stmt(tree, Emitted(Writer([], 0), console));
    Ok((GetCode(o.w), o.console))
  }
}
