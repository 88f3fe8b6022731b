/** The diagnostic reporter: a message headed by its level and code, the
    offending token, its `file:line:col` location, and a snippet of up to
    five numbered source lines with a caret under the reported column. An
    error sets `hadError` and raises; a warning sets `hadWarning` and prints
    the message. */
module Diagnostics {
  import opened Wrappers
  import opened Text
  import opened Tokens

  /** A token together with the position the reporter reads from it. */
  datatype Located = Located(token: Token, line: int, col: int)

  // ---- the snippet ----

  /** `max(0, line_num - 3)`: the first source index shown. */
  function WindowStart(lineNum: int): nat {
    if lineNum - 3 > 0 then lineNum - 3 else 0
  }

  /** `min(len(source_lines), line_num + 2)`: one past the last index shown. */
  function WindowEnd(count: nat, lineNum: int): int {
    if count < lineNum + 2 then count else lineNum + 2
  }

  /** `f"{i + 1:4} | "`: the 1-based line number right-aligned in four
      columns, then the gutter. */
  function NumberPrefix(i: nat): string {
    PadLeft(NatToString(i + 1), 4) + " | "
  }

  /** The caret row under a line shown behind `prefix`. */
  function CaretRow(prefix: string, col: int): string {
    Spaces(|prefix| + col - 1) + "^"
  }

  /** The rows shown for source index `i`: the numbered line, and the caret
      row when it is the reported line. */
  function RowsAt(lines: seq<string>, i: nat, lineNum: int, col: int): seq<string>
    requires i < |lines|
  {
    [NumberPrefix(i) + lines[i]] + (if i + 1 == lineNum then [CaretRow(NumberPrefix(i), col)] else [])
  }

  /** The rows for source indices `s` up to, not including, `e`. */
  function RowsFrom(lines: seq<string>, s: nat, e: int, lineNum: int, col: int): seq<string>
    requires e <= s || e <= |lines|
    decreases e - s
  {
    if e <= s then [] else RowsFrom(lines, s, e - 1, lineNum, col) + RowsAt(lines, e - 1, lineNum, col)
  }

  /** The snippet of the reported position, as rows. */
  function SnippetRows(lines: seq<string>, lineNum: int, col: int): seq<string> {
    RowsFrom(lines, WindowStart(lineNum), WindowEnd(|lines|, lineNum), lineNum, col)
  }

  /** Rows as text, each ended by a newline. */
  function Unlines(rows: seq<string>): string {
    if rows == [] then "" else Unlines(rows[..|rows| - 1]) + rows[|rows| - 1] + "\n"
  }

  lemma UnlinesSnoc(rows: seq<string>, r: string)
    ensures Unlines(rows + [r]) == Unlines(rows) + (r + "\n")
  {
    assert (rows + [r])[..|rows + [r]| - 1] == rows;
  }

  lemma {:induction false} UnlinesAppend(a: seq<string>, b: seq<string>)
    ensures Unlines(a + b) == Unlines(a) + Unlines(b)
    decreases |b|
  {
    if b == [] {
      assert a + b == a;
    } else {
      var c := b[..|b| - 1];
      assert a + b == (a + c) + [b[|b| - 1]];
      UnlinesSnoc(a + c, b[|b| - 1]);
      UnlinesAppend(a, c);
      UnlinesSnoc(c, b[|b| - 1]);
      assert b == c + [b[|b| - 1]];
    }
  }

  /** The window is the source indices from three before the reported line
      to one after it, clipped to the file. */
  lemma WindowIsClipped(count: nat, lineNum: int, i: int)
    ensures WindowEnd(count, lineNum) <= count
    ensures WindowStart(lineNum) <= i < WindowEnd(count, lineNum)
      <==> 0 <= i < count && lineNum - 3 <= i < lineNum + 2
  {
  }

  /** The rows of a range: one per source line, and one caret row exactly
      when the reported line falls in the range. */
  lemma {:induction false} RowsFromLength(lines: seq<string>, s: nat, e: int, lineNum: int, col: int)
    requires e <= |lines|
    ensures |RowsFrom(lines, s, e, lineNum, col)|
      == (if e > s then e - s else 0) + (if s < lineNum <= e then 1 else 0)
    decreases e - s
  {
    if e > s {
      RowsFromLength(lines, s, e - 1, lineNum, col);
    }
  }

  lemma {:induction false} RowsFromSplit(lines: seq<string>, s: nat, m: nat, e: int, lineNum: int, col: int)
    requires s <= m <= e <= |lines|
    ensures RowsFrom(lines, s, e, lineNum, col) == RowsFrom(lines, s, m, lineNum, col) + RowsFrom(lines, m, e, lineNum, col)
    decreases e - m
  {
    if e == m {
      assert RowsFrom(lines, m, e, lineNum, col) == [];
    } else {
      var a := RowsFrom(lines, s, m, lineNum, col);
      var b := RowsFrom(lines, m, e - 1, lineNum, col);
      var c := RowsAt(lines, e - 1, lineNum, col);
      RowsFromSplit(lines, s, m, e - 1, lineNum, col);
      assert RowsFrom(lines, s, e, lineNum, col) == RowsFrom(lines, s, e - 1, lineNum, col) + c;
      assert RowsFrom(lines, m, e, lineNum, col) == b + c;
      assert (a + b) + c == a + (b + c);
    }
  }

  /** The snippet shows every line of the window and has a caret row exactly
      when the reported line exists in the file. */
  lemma SnippetLength(lines: seq<string>, lineNum: int, col: int)
    ensures |SnippetRows(lines, lineNum, col)|
      == (if WindowEnd(|lines|, lineNum) > WindowStart(lineNum) then WindowEnd(|lines|, lineNum) - WindowStart(lineNum) else 0)
       + (if 1 <= lineNum <= |lines| then 1 else 0)
  {
    RowsFromLength(lines, WindowStart(lineNum), WindowEnd(|lines|, lineNum), lineNum, col);
  }

  /** The caret row comes right after the reported line's own row. */
  lemma CaretFollowsLine(lines: seq<string>, lineNum: int, col: int)
    requires 1 <= lineNum <= |lines|
    ensures var rows := SnippetRows(lines, lineNum, col);
      var k := lineNum - 1 - WindowStart(lineNum);
      0 <= k && k + 1 < |rows|
      && rows[k] == NumberPrefix(lineNum - 1) + lines[lineNum - 1]
      && rows[k + 1] == CaretRow(NumberPrefix(lineNum - 1), col)
  {
    var s := WindowStart(lineNum);
    var e := WindowEnd(|lines|, lineNum);
    var i := lineNum - 1;
    var before := RowsFrom(lines, s, i, lineNum, col);
    var after := RowsFrom(lines, i + 1, e, lineNum, col);
    RowsFromSplit(lines, s, i, e, lineNum, col);
    RowsFromSplit(lines, i, i + 1, e, lineNum, col);
    RowsFromLength(lines, s, i, lineNum, col);
    assert |before| == i - s;
    assert RowsFrom(lines, i, i + 1, lineNum, col) == RowsAt(lines, i, lineNum, col);
    assert SnippetRows(lines, lineNum, col) == before + (RowsAt(lines, i, lineNum, col) + after);
  }

  /** The caret sits under column `col` of the reported line: the row is
      blank up to the caret, and the caret's index in its row is the index
      of that column's character in the numbered line above it. */
  lemma CaretUnderColumn(prefix: string, line: string, col: int)
    requires 1 <= col <= |line|
    ensures var c := CaretRow(prefix, col);
      |c| == |prefix| + col
      && c[|c| - 1] == '^'
      && (forall j :: 0 <= j < |c| - 1 ==> c[j] == ' ')
      && (prefix + line)[|c| - 1] == line[col - 1]
  {
  }

  lemma {:induction false} ShortNumber(n: nat)
    ensures n < 10 ==> |NatToString(n)| == 1
    ensures n < 100 ==> |NatToString(n)| <= 2
    ensures n < 1000 ==> |NatToString(n)| <= 3
    ensures n < 10000 ==> |NatToString(n)| <= 4
  {
    if n >= 10 {
      ShortNumber(n / 10);
    }
  }

  /** Line numbers below 10000 take a seven-character prefix: the number at
      the right of four columns, then ` | `. */
  lemma PrefixWidth(i: nat)
    requires i + 1 < 10000
    ensures |NumberPrefix(i)| == 7
    ensures NumberPrefix(i)[4..] == " | "
    ensures NumberPrefix(i)[4 - |NatToString(i + 1)|..4] == NatToString(i + 1)
  {
    ShortNumber(i + 1);
    var p := PadLeft(NatToString(i + 1), 4);
    assert NumberPrefix(i)[..4] == p;
  }

  // ---- the message ----

  function Location(filePath: string, line: int, col: int): string {
    "--> " + filePath + ":" + IntToString(line) + ":" + IntToString(col)
  }

  /** The full message of `_report`. */
  function FullMessage(level: string, code: string, message: string, t: Located,
                       filePath: string, lines: seq<string>): string {
    level + " " + (code + ": " + message) + "\n" + TokenStr(t.token) + "\n"
      + Location(filePath, t.line, t.col) + "\n\n" + Unlines(SnippetRows(lines, t.line, t.col))
  }

  /** The message is four rows, the header, the token, the location and a
      blank row, followed by the snippet's rows. */
  lemma MessageLayout(level: string, code: string, message: string, t: Located,
                      filePath: string, lines: seq<string>)
    ensures FullMessage(level, code, message, t, filePath, lines)
      == Unlines([level + " " + code + ": " + message, TokenStr(t.token), Location(filePath, t.line, t.col), ""]
                 + SnippetRows(lines, t.line, t.col))
  {
    var h := level + " " + code + ": " + message;
    assert level + " " + (code + ": " + message) == h;
    HeadRows(h, TokenStr(t.token), Location(filePath, t.line, t.col));
    UnlinesAppend([h, TokenStr(t.token), Location(filePath, t.line, t.col), ""], SnippetRows(lines, t.line, t.col));
  }

  lemma HeadRows(h: string, tok: string, loc: string)
    ensures Unlines([h, tok, loc, ""]) == h + "\n" + tok + "\n" + loc + "\n\n"
  {
    UnlinesSnoc([], h);
    assert [h] == [] + [h];
    UnlinesSnoc([h], tok);
    assert [h, tok] == [h] + [tok];
    UnlinesSnoc([h, tok], loc);
    assert [h, tok, loc] == [h, tok] + [loc];
    UnlinesSnoc([h, tok, loc], "");
    assert [h, tok, loc, ""] == [h, tok, loc] + [""];
    var u1 := h + "\n";
    var u2 := u1 + (tok + "\n");
    assert u2 == h + "\n" + tok + "\n";
    var u3 := u2 + (loc + "\n");
    assert u3 == h + "\n" + tok + "\n" + loc + "\n";
    assert u3 + ("" + "\n") == h + "\n" + tok + "\n" + loc + "\n\n";
  }

  /** The loop of `_report` that builds the snippet. */
  method BuildSnippet(lines: seq<string>, lineNum: int, colNum: int) returns (snippet: string)
    ensures snippet == Unlines(SnippetRows(lines, lineNum, colNum))
  {
    snippet := "";
    var startLine := if 0 > lineNum - 3 then 0 else lineNum - 3;
    var endLine := if |lines| < lineNum + 2 then |lines| else lineNum + 2;
    var i := startLine;
    while i < endLine
      invariant startLine <= i && (i == startLine || i <= endLine)
      invariant snippet == Unlines(RowsFrom(lines, startLine, i, lineNum, colNum))
    {
      ghost var before := snippet;
      var line := lines[i];
      var lineNumberStr := PadLeft(NatToString(i + 1), 4) + " | ";
      snippet := snippet + (lineNumberStr + line + "\n");
      if i + 1 == lineNum {
        var pointerPadding := Spaces(|lineNumberStr| + colNum - 1);
        snippet := snippet + (pointerPadding + "^\n");
      }
      SnippetStep(lines, startLine, i, lineNum, colNum, before, snippet);
      i := i + 1;
    }
    assert startLine == WindowStart(lineNum) && endLine == WindowEnd(|lines|, lineNum);
    if i == startLine {
      assert RowsFrom(lines, startLine, endLine, lineNum, colNum) == [];
    }
  }

  /** One pass of the snippet loop: the numbered line, then the caret row
      when it is the reported line. */
  lemma SnippetStep(lines: seq<string>, s: nat, i: nat, lineNum: int, col: int, before: string, after: string)
    requires s <= i < |lines|
    requires before == Unlines(RowsFrom(lines, s, i, lineNum, col))
    requires after == if i + 1 == lineNum
      then before + (NumberPrefix(i) + lines[i] + "\n") + (Spaces(|NumberPrefix(i)| + col - 1) + "^\n")
      else before + (NumberPrefix(i) + lines[i] + "\n")
    ensures after == Unlines(RowsFrom(lines, s, i + 1, lineNum, col))
  {
    var rows := RowsFrom(lines, s, i, lineNum, col);
    var row := NumberPrefix(i) + lines[i];
    assert RowsFrom(lines, s, i + 1, lineNum, col) == rows + RowsAt(lines, i, lineNum, col);
    UnlinesSnoc(rows, row);
    if i + 1 == lineNum {
      var pad := Spaces(|NumberPrefix(i)| + col - 1);
      var caret := CaretRow(NumberPrefix(i), col);
      assert caret + "\n" == pad + "^\n";
      assert rows + RowsAt(lines, i, lineNum, col) == rows + [row] + [caret];
      UnlinesSnoc(rows + [row], caret);
    } else {
      assert rows + RowsAt(lines, i, lineNum, col) == rows + [row];
    }
  }

  // ---- the reporter ----

  class ErrorReporter {
    const filePath: string
    const sourceLines: seq<string>
    var hadError: bool
    var hadWarning: bool
    /** The console output of warnings, one entry per `print`. */
    var printed: seq<string>

    constructor(filePath: string, sourceLines: seq<string>)
      ensures this.filePath == filePath && this.sourceLines == sourceLines
      ensures !hadError && !hadWarning && printed == []
    {
      this.filePath := filePath;
      this.sourceLines := sourceLines;
      hadError := false;
      hadWarning := false;
      printed := [];
    }

    /** `_report`: set the flag of the level, build the message, and raise
        it as an error or print it. */
    method Report(level: string, code: string, message: string, token: Located) returns (r: Result<()>)
      modifies this
      ensures hadError == (old(hadError) || level == "Error")
      ensures hadWarning == (old(hadWarning) || level == "Warning")
      ensures level == "Error" ==>
        r == Err("Compiler error:\n" + FullMessage(level, code, message, token, filePath, sourceLines))
        && printed == old(printed)
      ensures level != "Error" ==>
        r == Ok(()) && printed == old(printed) + [FullMessage(level, code, message, token, filePath, sourceLines) + "\n"]
    {
      if level == "Error" {
        hadError := true;
      } else if level == "Warning" {
        hadWarning := true;
      }
      var lineNum, colNum := token.line, token.col;
      var header := code + ": " + message;
      var tokenText := TokenStr(token.token);
      var location := "--> " + filePath + ":" + IntToString(lineNum) + ":" + IntToString(colNum);
      var snippet := BuildSnippet(sourceLines, lineNum, colNum);
      var fullMessage := level + " " + header + "\n" + tokenText + "\n" + location + "\n\n" + snippet;
      if level == "Error" {
        return Err("Compiler error:\n" + fullMessage);
      } else {
        printed := printed + [fullMessage + "\n"];
        return Ok(());
      }
    }

    /** `error`: always raises, and records that an error happened. */
    method Error(code: string, message: string, token: Located) returns (r: Result<()>)
      modifies this
      ensures hadError && hadWarning == old(hadWarning) && printed == old(printed)
      ensures r == Err("Compiler error:\n" + FullMessage("Error", code, message, token, filePath, sourceLines))
    {
      r := Report("Error", code, message, token);
    }

    /** `warning`: prints the message and records that a warning happened. */
    method Warning(code: string, message: string, token: Located) returns (r: Result<()>)
      modifies this
      ensures hadWarning && hadError == old(hadError)
      ensures r == Ok(())
      ensures printed == old(printed) + [FullMessage("Warning", code, message, token, filePath, sourceLines) + "\n"]
    {
      r := Report("Warning", code, message, token);
    }
  }
}
