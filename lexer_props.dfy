/** Properties of the lexer specification in module `Lexing`: what each kind
    of token consumes, longest-match operators, comments, and the behaviour
    at end of input. */
module LexerProps {
  import opened Wrappers
  import opened Text
  import opened Tokens
  import opened Lexing

  /** The values of the operator members of `TokenType`. */
  predicate IsOperator(w: string) {
    w == "===" || w == "==" || w == "!=" || w == "<=" || w == ">=" || w == "+" || w == "-" || w == "*" || w == "/"
    || w == "(" || w == ")" || w == "{" || w == "}" || w == ";" || w == "=" || w == "<" || w == ">"
  }

  predicate StartsWithAt(text: string, p: nat, w: string) {
    p + |w| <= |text| && text[p..p + |w|] == w
  }

  /** A position where `get_next_token` must read an operator: not blank,
      no digit, no identifier start, no comment opener. */
  predicate OperatorPosition(text: string, p: nat) {
    p < |text| && !IsSpace(text[p]) && !IsDigit(text[p]) && !IsAlpha(text[p]) && text[p] != '_'
    && !StartsWithAt(text, p, "//") && !StartsWithAt(text, p, "/*")
  }

  lemma StartsWithAtChars(text: string, p: nat, w: string)
    ensures StartsWithAt(text, p, w) <==> p + |w| <= |text| && forall i :: 0 <= i < |w| ==> text[p + i] == w[i]
  {
    if p + |w| <= |text| && (forall i :: 0 <= i < |w| ==> text[p + i] == w[i]) {
      assert text[p..p + |w|] == w;
    }
  }

  /** Longest match: at an operator position the lexer succeeds exactly when
      some operator spells the text there, returns the longest such operator
      (so `===` beats `==` beats `=`, and `!=`, `<=`, `>=` beat `<`, `>`), with
      a token type whose value is that operator; otherwise it raises
      "Invalid character". */
  lemma LongestOperator(text: string, p: nat)
    requires OperatorPosition(text, p)
    ensures Scan(text, p).Ok? <==> exists w :: IsOperator(w) && StartsWithAt(text, p, w)
    ensures Scan(text, p).Ok? ==>
      var (t, q) := Scan(text, p).value;
      p < q <= |text| && IsOperator(text[p..q]) && t.value == VStr(text[p..q]) && EnumValue(t.kind) == text[p..q]
      && forall w :: IsOperator(w) && StartsWithAt(text, p, w) ==> |w| <= q - p
    ensures Scan(text, p).Err? ==> Scan(text, p).msg == InvalidCharacter(text[p])
  {
    ScanAtOperatorPosition(text, p);
    var r := OperatorToken(text, p);
    if r.Ok? {
      var (t, q) := r.value;
      OperatorTokenSpells(text, p);
      assert StartsWithAt(text, p, text[p..q]);
      NoLongerOperator(text, p);
    } else {
      NoOperatorSpelled(text, p);
    }
  }

  lemma ScanAtOperatorPosition(text: string, p: nat)
    requires OperatorPosition(text, p)
    ensures Scan(text, p) == OperatorToken(text, p)
  {
    if p + 1 < |text| {
      assert text[p..p + 2] == [text[p], text[p + 1]];
    }
  }

  /** The operators have one to three characters; the one-character ones are
      the one-character token types, the longer ones end in `=` after one of
      `=`, `!`, `<`, `>`, and the only three-character one is `===`. */
  lemma OperatorShape(w: string)
    requires IsOperator(w)
    ensures 1 <= |w| <= 3
    ensures |w| == 1 ==> SingleCharType(w[0]).Some?
    ensures |w| >= 2 ==> w[1] == '=' && (w[0] == '=' || w[0] == '!' || w[0] == '<' || w[0] == '>')
    ensures |w| == 3 ==> w == "==="
  {
  }

  lemma NoLongerOperator(text: string, p: nat)
    requires p < |text| && OperatorToken(text, p).Ok?
    ensures forall w :: IsOperator(w) && StartsWithAt(text, p, w) ==> |w| <= OperatorToken(text, p).value.1 - p
  {
    forall w | IsOperator(w) && StartsWithAt(text, p, w)
      ensures |w| <= OperatorToken(text, p).value.1 - p
    {
      SpelledChars(text, p, w);
      OperatorShape(w);
    }
  }

  lemma NoOperatorSpelled(text: string, p: nat)
    requires p < |text| && OperatorToken(text, p).Err?
    ensures forall w :: IsOperator(w) ==> !StartsWithAt(text, p, w)
    ensures OperatorToken(text, p).msg == InvalidCharacter(text[p])
  {
    forall w | IsOperator(w)
      ensures !StartsWithAt(text, p, w)
    {
      if StartsWithAt(text, p, w) {
        SpelledChars(text, p, w);
        OperatorShape(w);
      }
    }
  }

  lemma SpelledChars(text: string, p: nat, w: string)
    requires StartsWithAt(text, p, w)
    ensures forall i :: 0 <= i < |w| ==> text[p + i] == w[i]
  {
    forall i | 0 <= i < |w|
      ensures text[p + i] == w[i]
    {
      assert text[p..p + |w|][i] == text[p + i];
    }
  }

  /** The operator token spells the text it consumes. */
  lemma OperatorTokenSpells(text: string, p: nat)
    requires p < |text| && OperatorToken(text, p).Ok?
    ensures var (t, q) := OperatorToken(text, p).value;
      IsOperator(text[p..q]) && t.value == VStr(text[p..q]) && EnumValue(t.kind) == text[p..q]
  {
    var (t, q) := OperatorToken(text, p).value;
    if q == p + 1 {
      assert text[p..q] == [text[p]];
    } else if q == p + 2 {
      assert text[p..q] == [text[p], text[p + 1]];
    } else {
      assert text[p..q] == [text[p], text[p + 1], text[p + 2]];
    }
  }

  /** An identifier is the maximal run of letters, digits and `_` starting at a
      letter or `_`; it is a keyword token exactly when the run is one of the
      eight reserved words, and the token's value is the run itself. */
  lemma WordToken(text: string, p: nat)
    requires p < |text| && (IsAlpha(text[p]) || text[p] == '_')
    ensures Scan(text, p).Ok?
    ensures var (t, q) := Scan(text, p).value;
      p < q <= |text| && (forall i :: p <= i < q ==> IsIdentChar(text[i])) && (q == |text| || !IsIdentChar(text[q]))
      && t.value == VStr(text[p..q])
      && (t.kind == IDENTIFIER <==> text[p..q] !in ReservedWords)
      && (t.kind != IDENTIFIER ==> EnumValue(t.kind) == text[p..q])
  {
    assert !IsSpace(text[p]) && text[p] != '/' && !IsDigit(text[p]);
    assert Scan(text, p) == ScanToken(text, p);
    var q := RunEnd(text, p, IsIdentChar);
    var w := text[p..q];
    assert Scan(text, p) == Ok((KeywordOrIdentifier(w), q));
    KeywordIffReserved(w);
    if Keyword(w).Some? {
      KeywordValue(w);
    }
  }

  /** An INTEGER token carries the decimal value of the maximal digit run at
      the cursor. */
  lemma IntegerToken(text: string, p: nat)
    requires p < |text| && IsDigit(text[p])
    ensures Scan(text, p).Ok?
    ensures var (t, q) := Scan(text, p).value;
      p < q <= |text| && (forall i :: p <= i < q ==> IsDigit(text[i])) && (q == |text| || !IsDigit(text[q]))
      && t.kind == INTEGER && t.value == VInt(DecimalValue(text[p..q]))
  {
    assert Scan(text, p) == ScanToken(text, p);
  }

  /** `RunEnd` stops exactly at the first character outside the run. */
  lemma {:induction false} RunEndAt(text: string, p: nat, q: nat, inRun: char -> bool)
    requires p <= q <= |text|
    requires forall i :: p <= i < q ==> inRun(text[i])
    requires q == |text| || !inRun(text[q])
    ensures RunEnd(text, p, inRun) == q
    decreases q - p
  {
    if p < q {
      RunEndAt(text, p + 1, q, inRun);
    }
  }

  /** Printing a number and lexing it back gives the number: the text
      `str(n)` followed by anything that is not a digit scans as one INTEGER
      token of value `n` covering exactly the printed digits. */
  lemma ScanPrintedNumber(n: nat, rest: string)
    requires rest == [] || !IsDigit(rest[0])
    ensures Scan(NatToString(n) + rest, 0) == Ok((Token(INTEGER, VInt(n)), |NatToString(n)|))
  {
    var digits := NatToString(n);
    var text := digits + rest;
    assert forall i :: 0 <= i < |digits| ==> text[i] == digits[i];
    RunEndAt(text, 0, |digits|, IsDigit);
    assert text[0..|digits|] == digits;
    DecimalOfNatToString(n);
    assert Scan(text, 0) == ScanToken(text, 0);
  }

  /** A `//` comment is skipped up to, and not past, the next newline (or the
      end of the text); lexing goes on from there. */
  lemma LineComment(text: string, p: nat)
    requires StartsWithAt(text, p, "//")
    ensures var q := RunEnd(text, p, NotNewline);
      p < q <= |text| && (forall i :: p <= i < q ==> text[i] != '\n') && (q == |text| || text[q] == '\n')
      && Scan(text, p) == Scan(text, q)
  {
    assert text[p] == text[p..p + 2][0] == '/';
    assert text[p + 1] == text[p..p + 2][1] == '/';
    assert CommentEnd(text, p) == Ok(RunEnd(text, p, NotNewline));
  }

  // A block comment is skipped through the closing `*` `/` pair that brings
  // its nesting depth back to 0; end of input inside it raises
  // "Unterminated multi-line comment".
  lemma BlockComment(text: string, p: nat)
    requires StartsWithAt(text, p, "/*")
    ensures match BlockEnd(text, p + 2, 1)
      case Ok(q) => p + 4 <= q <= |text| && text[q - 2] == '*' && text[q - 1] == '/' && Scan(text, p) == Scan(text, q)
      case Err(_) => Scan(text, p) == Err(UnterminatedComment)
  {
    StartsWithAtChars(text, p, "/*");
    assert CommentEnd(text, p) == BlockEnd(text, p + 2, 1);
  }

  // Comments nest: the first closing pair closes only the inner comment, and
  // lexing resumes after the outer one.
  lemma NestedCommentExample()
    ensures Scan("/* a /* b */ c */x", 0) == Ok((Token(IDENTIFIER, VStr("x")), 18))
  {
    var text := "/* a /* b */ c */x";
    // The scan, one character (or one pair) at a time.
    assert BlockEnd(text, 15, 1) == Ok(17);
    assert BlockEnd(text, 14, 1) == BlockEnd(text, 15, 1);
    assert BlockEnd(text, 13, 1) == BlockEnd(text, 14, 1);
    assert BlockEnd(text, 12, 1) == BlockEnd(text, 13, 1);
    assert BlockEnd(text, 10, 2) == BlockEnd(text, 12, 1);
    assert BlockEnd(text, 9, 2) == BlockEnd(text, 10, 2);
    assert BlockEnd(text, 8, 2) == BlockEnd(text, 9, 2);
    assert BlockEnd(text, 7, 2) == BlockEnd(text, 8, 2);
    assert BlockEnd(text, 5, 1) == BlockEnd(text, 7, 2);
    assert BlockEnd(text, 4, 1) == BlockEnd(text, 5, 1);
    assert BlockEnd(text, 3, 1) == BlockEnd(text, 4, 1);
    assert BlockEnd(text, 2, 1) == BlockEnd(text, 3, 1);
    assert Scan(text, 0) == Scan(text, 17);
    assert text[17..18] == "x";
    assert Scan(text, 17) == ScanToken(text, 17);
  }

  // A nested comment whose outer level is never closed is an error, although
  // the text contains a closing pair.
  lemma UnterminatedNestedExample()
    ensures Scan("/* /* */", 0) == Err(UnterminatedComment)
  {
    assert BlockEnd("/* /* */", 2, 1).Err?;
  }

  /** A lone `!` is not a token. */
  lemma BangIsInvalid()
    ensures Scan("!", 0) == Err(InvalidCharacter('!'))
  {
    assert Scan("!", 0) == OperatorToken("!", 0);
  }

  /** Once `get_next_token` has returned EOF it returns EOF again, without
      moving, for ever: the rest of the stream is empty and ends in EOF. */
  lemma EofIsStable(text: string, p: nat)
    requires Scan(text, p).Ok? && Scan(text, p).value.0.kind == EOF
    ensures var q := Scan(text, p).value.1;
      Scan(text, q) == Ok((EofToken, q)) && Lex(text, q) == Stream([], AtEof)
  {
  }

  /** One unfolding of `Lex`: the stream's first entry is what one
      `get_next_token` call returns, and the rest is the stream from where
      that token ends. */
  lemma LexFirstToken(text: string, p: nat)
    ensures var s := Lex(text, p);
      match Scan(text, p)
      case Err(m) => s == Stream([], LexFail(m))
      case Ok((t, q)) =>
        if t.kind == EOF then s == Stream([], AtEof)
        else 0 < |s.toks| && s.toks[0] == t && Lex(text, q) == Stream(s.toks[1..], s.tail)
  {
    match Scan(text, p)
    case Err(m) =>
    case Ok((t, q)) =>
      if t.kind != EOF {
        var rest := Lex(text, q);
        assert Lex(text, p).toks[1..] == rest.toks;
      }
  }
}
