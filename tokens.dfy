/** The token vocabulary of the lexer: the `TokenType` enumeration, the
    `Token` record and its `__str__` rendering, and the keyword table. */
module Tokens {
  import opened Wrappers
  import opened Text

  /** The members of the `TokenType` enumeration, in declaration order. */
  datatype TokenType =
    | PLUS | MINUS | MULTIPLY | DIVIDE | LPAREN | RPAREN | LBRACE | RBRACE
    | SEMICOLON | ASSIGN | LESS | GREATER
    | EQUAL | NOT_EQUAL | LESS_EQUAL | GREATER_EQUAL | TYPE_EQUAL
    | KW_INT | KW_MUT | KW_CONST | KW_RETURN | KW_IF | KW_ELSE | KW_ELIF | KW_WHILE
    | IDENTIFIER | INTEGER | EOF

  /** A token's `value`: Python's None, a `str` or an `int`. */
  datatype Value = VNone | VStr(s: string) | VInt(i: int)

  datatype Token = Token(kind: TokenType, value: Value)

  /** `Token(TokenType.EOF, None)`, what the lexer returns at end of input. */
  const EofToken: Token := Token(EOF, VNone)

  /** `TokenType.X.name`. */
  function Name(t: TokenType): string {
    match t
    case PLUS => "PLUS"                case MINUS => "MINUS"
    case MULTIPLY => "MULTIPLY"        case DIVIDE => "DIVIDE"
    case LPAREN => "LPAREN"            case RPAREN => "RPAREN"
    case LBRACE => "LBRACE"            case RBRACE => "RBRACE"
    case SEMICOLON => "SEMICOLON"      case ASSIGN => "ASSIGN"
    case LESS => "LESS"                case GREATER => "GREATER"
    case EQUAL => "EQUAL"              case NOT_EQUAL => "NOT_EQUAL"
    case LESS_EQUAL => "LESS_EQUAL"    case GREATER_EQUAL => "GREATER_EQUAL"
    case TYPE_EQUAL => "TYPE_EQUAL"
    case KW_INT => "KW_INT"            case KW_MUT => "KW_MUT"
    case KW_CONST => "KW_CONST"        case KW_RETURN => "KW_RETURN"
    case KW_IF => "KW_IF"              case KW_ELSE => "KW_ELSE"
    case KW_ELIF => "KW_ELIF"          case KW_WHILE => "KW_WHILE"
    case IDENTIFIER => "IDENTIFIER"    case INTEGER => "INTEGER"
    case EOF => "EOF"
  }

  /** `TokenType.X.value`. */
  function EnumValue(t: TokenType): string {
    match t
    case PLUS => "+"          case MINUS => "-"          case MULTIPLY => "*"
    case DIVIDE => "/"        case LPAREN => "("         case RPAREN => ")"
    case LBRACE => "{"        case RBRACE => "}"         case SEMICOLON => ";"
    case ASSIGN => "="        case LESS => "<"           case GREATER => ">"
    case EQUAL => "=="        case NOT_EQUAL => "!="     case LESS_EQUAL => "<="
    case GREATER_EQUAL => ">=" case TYPE_EQUAL => "==="
    case KW_INT => "int"      case KW_MUT => "mut"       case KW_CONST => "const"
    case KW_RETURN => "return" case KW_IF => "if"        case KW_ELSE => "else"
    case KW_ELIF => "elif"    case KW_WHILE => "while"
    case IDENTIFIER => "IDENTIFIER" case INTEGER => "INTEGER" case EOF => "EOF"
  }

  /** `str(TokenType.X)`, as it appears in the parser's error messages. */
  function EnumStr(t: TokenType): string {
    "TokenType." + Name(t)
  }

  /** The lookup `TokenType(c)` by value for a one-character string: `None`
      where Python raises `ValueError`. */
  function SingleCharType(c: char): (r: Option<TokenType>)
    ensures r.Some? ==> EnumValue(r.value) == [c]
  {
    match c
    case '+' => Some(PLUS)       case '-' => Some(MINUS)
    case '*' => Some(MULTIPLY)   case '/' => Some(DIVIDE)
    case '(' => Some(LPAREN)     case ')' => Some(RPAREN)
    case '{' => Some(LBRACE)     case '}' => Some(RBRACE)
    case ';' => Some(SEMICOLON)  case '=' => Some(ASSIGN)
    case '<' => Some(LESS)       case '>' => Some(GREATER)
    case _ => None
  }

  /** `TokenType(c)` succeeds exactly for the twelve one-character members:
      no other member's value is a single character. */
  lemma SingleCharTypeComplete(c: char, t: TokenType)
    ensures SingleCharType(c) == Some(t) <==> EnumValue(t) == [c]
  {
  }

  /** `RESERVED_KEYWORDS`: the eight reserved words and their token types. */
  function Keyword(word: string): Option<TokenType> {
    if word == "int" then Some(KW_INT)
    else if word == "mut" then Some(KW_MUT)
    else if word == "const" then Some(KW_CONST)
    else if word == "return" then Some(KW_RETURN)
    else if word == "if" then Some(KW_IF)
    else if word == "else" then Some(KW_ELSE)
    else if word == "elif" then Some(KW_ELIF)
    else if word == "while" then Some(KW_WHILE)
    else None
  }

  /** `RESERVED_KEYWORDS.get(word, Token(TokenType.IDENTIFIER, word))`. */
  function KeywordOrIdentifier(word: string): (t: Token)
    ensures t.value == VStr(word)
    ensures t.kind == IDENTIFIER <==> Keyword(word).None?
  {
    match Keyword(word)
    case Some(k) => Token(k, VStr(word))
    case None => Token(IDENTIFIER, VStr(word))
  }

  const ReservedWords: set<string> := {"int", "mut", "const", "return", "if", "else", "elif", "while"}

  /** The keyword table holds exactly the eight reserved words. */
  lemma KeywordIffReserved(word: string)
    ensures Keyword(word).Some? <==> word in ReservedWords
  {
  }

  /** A keyword's token type has the keyword itself as its enumeration value. */
  lemma KeywordValue(word: string)
    requires Keyword(word).Some?
    ensures EnumValue(Keyword(word).value) == word
  {
  }

  function HexDigit(d: nat): char
    requires d < 16
  {
    "0123456789abcdef"[d]
  }

  /** One character of Python's `repr` of a string delimited by `quote`
      (ASCII control characters get `\t`, `\n`, `\r` or `\xHH`). */
  function ReprChar(c: char, quote: char): string {
    if c == quote || c == '\\' then ['\\', c]
    else if c == '\t' then "\\t"
    else if c == '\n' then "\\n"
    else if c == '\r' then "\\r"
    else if c < ' ' || c as int == 127 then ['\\', 'x', HexDigit(c as nat / 16), HexDigit(c as nat % 16)]
    else [c]
  }

  function ReprBody(s: string, quote: char): string {
    if s == [] then "" else ReprChar(s[0], quote) + ReprBody(s[1..], quote)
  }

  /** Python's `repr(s)`: single quotes unless `s` holds a `'` and no `"`. */
  function PyRepr(s: string): string {
    var quote := if '\'' in s && '"' !in s then '"' else '\'';
    [quote] + ReprBody(s, quote) + [quote]
  }

  /** Strings of letters, digits and `_` (identifiers and keywords) are shown
      by `repr` between single quotes and otherwise unchanged. */
  lemma {:induction false} PyReprPlain(s: string)
    requires forall i :: 0 <= i < |s| ==> s[i] == '_' || 'a' <= s[i] <= 'z' || 'A' <= s[i] <= 'Z' || IsDigit(s[i])
    ensures PyRepr(s) == "'" + s + "'"
  {
    PlainBody(s);
  }

  lemma {:induction false} PlainBody(s: string)
    requires forall i :: 0 <= i < |s| ==> s[i] == '_' || 'a' <= s[i] <= 'z' || 'A' <= s[i] <= 'Z' || IsDigit(s[i])
    ensures ReprBody(s, '\'') == s
  {
    if s != [] {
      PlainBody(s[1..]);
      assert s == [s[0]] + s[1..];
    }
  }

  /** Python's `repr(v)` for a token value. */
  function ValueRepr(v: Value): string {
    match v
    case VNone => "None"
    case VStr(s) => PyRepr(s)
    case VInt(i) => IntToString(i)
  }

  /** Python's `str(v)` (an f-string field) for a token value. */
  function ValueStr(v: Value): string {
    match v
    case VNone => "None"
    case VStr(s) => s
    case VInt(i) => IntToString(i)
  }

  /** `Token.__str__`: `Token(NAME, repr(value))`. */
  function TokenStr(t: Token): string {
    "Token(" + Name(t.kind) + ", " + ValueRepr(t.value) + ")"
  }
}
