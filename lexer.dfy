/** The lexer of `ignis/lexer.py`: a character cursor over the source text that
    produces one token per `get_next_token` call.

    The pure functions (`RunEnd`, `BlockEnd`, `CommentEnd`, `Scan`, `Lex`) say
    what the cursor computes from a position; the class `Lexer` is the cursor
    itself, and each of its methods is proved to do what the matching
    function says. */
module Lexing {
  import opened Wrappers
  import opened Text
  import opened Tokens

  // ---------------------------------------------------------------------
  // Character classes (ASCII view of `str.isspace`, `isalpha`, `isalnum`)
  // ---------------------------------------------------------------------

  /** `c.isspace()` on ASCII: tab, newline, vertical tab, form feed, carriage
      return, the four separators `\x1c`..`\x1f` and the blank. */
  predicate IsSpace(c: char) {
    (9 <= c as int <= 13) || (28 <= c as int <= 32)
  }

  predicate IsAlpha(c: char) {
    ('a' <= c <= 'z') || ('A' <= c <= 'Z')
  }

  /** A character that may continue an identifier (`isalnum()` or `_`). */
  predicate IsIdentChar(c: char) {
    IsAlpha(c) || IsDigit(c) || c == '_'
  }

  predicate NotNewline(c: char) {
    c != '\n'
  }

  /** The character under a cursor at `i`, `None` past the end. */
  function CharAt(text: string, i: nat): Option<char> {
    if i < |text| then Some(text[i]) else None
  }

  // ---------------------------------------------------------------------
  // What each cursor loop computes
  // ---------------------------------------------------------------------

  /** Where a loop `while current_char is not None and inRun(current_char):
      advance()` started at `p` stops: the end of the maximal run of
      `inRun` characters beginning at `p`. */
  function RunEnd(text: string, p: nat, inRun: char -> bool): (q: nat)
    ensures p <= q
    ensures q == p || q <= |text|
    ensures forall i :: p <= i < q ==> inRun(text[i])
    ensures q < |text| ==> !inRun(text[q])
    decreases |text| - p
  {
    if p < |text| && inRun(text[p]) then RunEnd(text, p + 1, inRun) else p
  }

  const UnterminatedComment: string := "Lexer error: Unterminated multi-line comment."

  // The nested-comment loop of `skip_comment`, entered at `p` with
  // `depth` comments open: the position just past the closing `*/` that
  // brings the depth back to 0, or the error raised at end of input.
  function BlockEnd(text: string, p: nat, depth: nat): (r: Result<nat>)
    requires depth > 0
    ensures r.Ok? ==> p + 2 <= r.value <= |text| && text[r.value - 2] == '*' && text[r.value - 1] == '/'
    ensures r.Err? ==> r.msg == UnterminatedComment
    decreases |text| - p
  {
    if p >= |text| then Err(UnterminatedComment)
    else if text[p] == '/' && CharAt(text, p + 1) == Some('*') then BlockEnd(text, p + 2, depth + 1)
    else if text[p] == '*' && CharAt(text, p + 1) == Some('/') then
      (if depth == 1 then Ok(p + 2) else BlockEnd(text, p + 2, depth - 1))
    else BlockEnd(text, p + 1, depth)
  }

  // `skip_comment` from `p`: past a `//` comment up to (not past) the next
  // newline, past a complete nested `/* ... */` comment, and nowhere otherwise.
  function CommentEnd(text: string, p: nat): Result<nat> {
    if CharAt(text, p) == Some('/') && CharAt(text, p + 1) == Some('/') then Ok(RunEnd(text, p, NotNewline))
    else if CharAt(text, p) == Some('/') && CharAt(text, p + 1) == Some('*') then BlockEnd(text, p + 2, 1)
    else Ok(p)
  }

  function InvalidCharacter(c: char): string {
    "Lexer error: Invalid character '" + [c] + "'"
  }

  /** `get_next_token` from a cursor at `p`: the token returned and the
      cursor position afterwards, or the lexer error raised. A token other
      than EOF consumes at least one character; EOF is returned with the
      cursor at (or beyond) the end of the text. */
  function Scan(text: string, p: nat): (r: Result<(Token, nat)>)
    ensures r.Ok? && r.value.0.kind != EOF ==> p < r.value.1 <= |text|
    ensures r.Ok? && r.value.0.kind == EOF ==> r.value.0 == EofToken && r.value.1 == if p < |text| then |text| else p
    decreases |text| - p
  {
    if p >= |text| then Ok((EofToken, p))
    else
      var c := text[p];
      if IsSpace(c) then Scan(text, RunEnd(text, p, IsSpace))
      else if c == '/' && (CharAt(text, p + 1) == Some('/') || CharAt(text, p + 1) == Some('*')) then
        match CommentEnd(text, p)
        case Err(m) => Err(m)
        case Ok(q) => Scan(text, q)
      else ScanToken(text, p)
  }

  /** The token part of `get_next_token` once whitespace and comments are
      skipped: a number, a word, or the longest operator at `p`. */
  function ScanToken(text: string, p: nat): (r: Result<(Token, nat)>)
    requires p < |text|
    ensures r.Ok? ==> r.value.0.kind != EOF && p < r.value.1 <= |text|
  {
    var c := text[p];
    if IsDigit(c) then
      var q := RunEnd(text, p, IsDigit);
      Ok((Token(INTEGER, VInt(DecimalValue(text[p..q]))), q))
    else if IsAlpha(c) || c == '_' then
      var q := RunEnd(text, p, IsIdentChar);
      Ok((KeywordOrIdentifier(text[p..q]), q))
    else OperatorToken(text, p)
  }

  /** The operator branch of `get_next_token`: three characters before two
      before one, and an error for a character no operator starts with. */
  function OperatorToken(text: string, p: nat): (r: Result<(Token, nat)>)
    requires p < |text|
    ensures r.Ok? ==> r.value.0.kind != EOF && p < r.value.1 <= |text|
  {
    var c := text[p];
    if c == '=' && CharAt(text, p + 1) == Some('=') && CharAt(text, p + 2) == Some('=') then
      Ok((Token(TYPE_EQUAL, VStr("===")), p + 3))
    else if c == '=' && CharAt(text, p + 1) == Some('=') then Ok((Token(EQUAL, VStr("==")), p + 2))
    else if c == '!' && CharAt(text, p + 1) == Some('=') then Ok((Token(NOT_EQUAL, VStr("!=")), p + 2))
    else if c == '<' && CharAt(text, p + 1) == Some('=') then Ok((Token(LESS_EQUAL, VStr("<=")), p + 2))
    else if c == '>' && CharAt(text, p + 1) == Some('=') then Ok((Token(GREATER_EQUAL, VStr(">=")), p + 2))
    else
      match SingleCharType(c)
      case Some(t) => Ok((Token(t, VStr(EnumValue(t))), p + 1))
      case None => Err(InvalidCharacter(c))
  }

  /** `Token(TokenType.INTEGER, self.number())`, passing on the exception
      `number()` may raise. */
  function IntegerToken(n: Result<nat>): Result<Token> {
    match n
    case Ok(v) => Ok(Token(INTEGER, VInt(v)))
    case Err(m) => Err(m)
  }

  /** How a token stream ends: in EOF, or in the lexer error a further
      `get_next_token` call raises. */
  datatype Tail = AtEof | LexFail(msg: string)

  /** Everything successive `get_next_token` calls return: the tokens before
      EOF, then how the stream ends. */
  datatype Stream = Stream(toks: seq<Token>, tail: Tail)

  /** The stream the lexer yields from position `p`. It is finite (one token
      per consumed character at most), holds no EOF token, and ends either in
      EOF or in a lexer error. */
  function Lex(text: string, p: nat): (s: Stream)
    ensures forall i :: 0 <= i < |s.toks| ==> s.toks[i].kind != EOF
    ensures |s.toks| <= |text| - p || (p >= |text| && s.toks == [])
    decreases |text| - p
  {
    match Scan(text, p)
    case Err(m) => Stream([], LexFail(m))
    case Ok((t, q)) =>
      if t.kind == EOF then Stream([], AtEof)
      else
        var rest := Lex(text, q);
        Stream([t] + rest.toks, rest.tail)
  }

  // ---------------------------------------------------------------------
  // The cursor
  // ---------------------------------------------------------------------

  class Lexer {
    const text: string
    var pos: nat
    var currentChar: Option<char>

    /** `current_char` is always the character at `pos`, or `None` past the end. */
    ghost predicate Valid()
      reads this
    {
      currentChar == CharAt(text, pos)
    }

    constructor (text: string)
      ensures Valid() && this.text == text && pos == 0
    {
      this.text := text;
      pos := 0;
      currentChar := if 0 < |text| then Some(text[0]) else None;
    }

    method Advance()
      requires Valid()
      modifies this
      ensures Valid() && pos == old(pos) + 1
    {
      pos := pos + 1;
      if pos > |text| - 1 {
        currentChar := None;
      } else {
        currentChar := Some(text[pos]);
      }
    }

    /** `peek(offset)`: the character `offset` places ahead of the cursor. */
    function Peek(offset: nat): (c: Option<char>)
      reads this
      ensures c == CharAt(text, pos + offset)
    {
      var peekPos := pos + offset;
      if peekPos > |text| - 1 then None else Some(text[peekPos])
    }

    method SkipWhitespace()
      requires Valid()
      modifies this
      ensures Valid() && pos == RunEnd(text, old(pos), IsSpace)
    {
      while currentChar.Some? && IsSpace(currentChar.value)
        invariant Valid() && old(pos) <= pos
        invariant RunEnd(text, pos, IsSpace) == RunEnd(text, old(pos), IsSpace)
        decreases |text| - pos
      {
        Advance();
      }
    }

    method SkipComment() returns (r: Result<()>)
      requires Valid()
      modifies this
      ensures r.Ok? ==> Valid() && CommentEnd(text, old(pos)) == Ok(pos)
      ensures r.Err? ==> CommentEnd(text, old(pos)) == Err(r.msg)
    {
      if currentChar == Some('/') && Peek(1) == Some('/') {
        while currentChar.Some? && currentChar.value != '\n'
          invariant Valid() && old(pos) <= pos
          invariant RunEnd(text, pos, NotNewline) == RunEnd(text, old(pos), NotNewline)
          decreases |text| - pos
        {
          Advance();
        }
        return Ok(());
      }
      if currentChar == Some('/') && Peek(1) == Some('*') {
        ghost var target := BlockEnd(text, pos + 2, 1);
        assert CommentEnd(text, pos) == target;
        Advance();
        Advance();
        var nestingLevel: nat := 1;
        while nestingLevel > 0
          invariant Valid()
          invariant nestingLevel > 0 ==> BlockEnd(text, pos, nestingLevel) == target
          invariant nestingLevel == 0 ==> target == Ok(pos)
          decreases |text| - pos, nestingLevel
        {
          if currentChar.None? {
            return Err(UnterminatedComment);
          } else if currentChar == Some('/') && Peek(1) == Some('*') {
            Advance();
            Advance();
            nestingLevel := nestingLevel + 1;
          } else if currentChar == Some('*') && Peek(1) == Some('/') {
            Advance();
            Advance();
            nestingLevel := nestingLevel - 1;
          } else {
            Advance();
          }
        }
        return Ok(());
      }
      return Ok(());
    }

    /** `number()`: reads the digit run at the cursor and converts it with
        `int(...)`, which raises on an empty run. */
    method Number() returns (r: Result<nat>)
      requires Valid()
      modifies this
      ensures Valid() && pos == RunEnd(text, old(pos), IsDigit)
      ensures r == if pos == old(pos) then Err("invalid literal for int() with base 10: ''")
                   else Ok(DecimalValue(text[old(pos)..pos]))
    {
      var result := "";
      while currentChar.Some? && IsDigit(currentChar.value)
        invariant Valid() && old(pos) <= pos
        invariant pos == old(pos) || pos <= |text|
        invariant pos > old(pos) ==> result == text[old(pos)..pos]
        invariant pos == old(pos) ==> result == ""
        invariant RunEnd(text, pos, IsDigit) == RunEnd(text, old(pos), IsDigit)
        decreases |text| - pos
      {
        result := result + [currentChar.value];
        Advance();
      }
      if result == "" {
        return Err("invalid literal for int() with base 10: ''");
      }
      return Ok(DecimalValue(result));
    }

    /** `identifier()`: reads the run of letters, digits and `_` at the cursor
        and looks it up in the keyword table. */
    method Identifier() returns (t: Token)
      requires Valid()
      modifies this
      ensures Valid() && pos == RunEnd(text, old(pos), IsIdentChar)
      ensures t == KeywordOrIdentifier(if pos == old(pos) then "" else text[old(pos)..pos])
    {
      var result := "";
      while currentChar.Some? && IsIdentChar(currentChar.value)
        invariant Valid() && old(pos) <= pos
        invariant pos == old(pos) || pos <= |text|
        invariant pos > old(pos) ==> result == text[old(pos)..pos]
        invariant pos == old(pos) ==> result == ""
        invariant RunEnd(text, pos, IsIdentChar) == RunEnd(text, old(pos), IsIdentChar)
        decreases |text| - pos
      {
        result := result + [currentChar.value];
        Advance();
      }
      t := KeywordOrIdentifier(result);
    }

    method GetNextToken() returns (r: Result<Token>)
      requires Valid()
      modifies this
      ensures r.Ok? ==> Valid() && Scan(text, old(pos)) == Ok((r.value, pos))
      ensures r.Err? ==> Scan(text, old(pos)) == Err(r.msg)
    {
      while currentChar.Some?
        invariant Valid() && old(pos) <= pos
        invariant Scan(text, pos) == Scan(text, old(pos))
        decreases |text| - pos
      {
        var c := currentChar.value;
        if IsSpace(c) {
          SkipWhitespace();
          continue;
        }
        if c == '/' && (Peek(1) == Some('/') || Peek(1) == Some('*')) {
          var skipped := SkipComment();
          if skipped.Err? {
            return Err(skipped.msg);
          }
          continue;
        }
        assert Scan(text, pos) == ScanToken(text, pos);
        if IsDigit(c) {
          var n := Number();
          return IntegerToken(n);
        }
        if IsAlpha(c) || c == '_' {
          var t := Identifier();
          return Ok(t);
        }
        assert Scan(text, pos) == OperatorToken(text, pos);
        if c == '=' && Peek(1) == Some('=') && Peek(2) == Some('=') {
          Advance();
          Advance();
          Advance();
          return Ok(Token(TYPE_EQUAL, VStr("===")));
        }
        if c == '=' && Peek(1) == Some('=') {
          Advance();
          Advance();
          return Ok(Token(EQUAL, VStr("==")));
        }
        if c == '!' && Peek(1) == Some('=') {
          Advance();
          Advance();
          return Ok(Token(NOT_EQUAL, VStr("!=")));
        }
        if c == '<' && Peek(1) == Some('=') {
          Advance();
          Advance();
          return Ok(Token(LESS_EQUAL, VStr("<=")));
        }
        if c == '>' && Peek(1) == Some('=') {
          Advance();
          Advance();
          return Ok(Token(GREATER_EQUAL, VStr(">=")));
        }
        var tokenType := SingleCharType(c);
        if tokenType.Some? {
          var token := Token(tokenType.value, VStr(EnumValue(tokenType.value)));
          Advance();
          return Ok(token);
        }
        return Err(InvalidCharacter(c));
      }
      return Ok(EofToken);
    }
  }
}
