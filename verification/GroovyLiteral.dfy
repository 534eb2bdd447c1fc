/** The printer of single-quoted Groovy literals in internal/gitlab/generator.go, and a reader that inverts it. */
module GroovyLiteral {
  import opened Options

  const LINE_SEPARATOR: char := '\U{2028}'
  const PARAGRAPH_SEPARATOR: char := '\U{2029}'

  /** One pass of the source: every `c` becomes `to`, from left to right. */
  function ReplaceAll(s: string, c: char, to: string): (r: string) {
    if s == "" then "" else (if s[0] == c then to else [s[0]]) + ReplaceAll(s[1..], c, to)
  }

  function SevenPasses(value: string): string {
    var v1 := ReplaceAll(value, '\\', "\\\\");
    var v2 := ReplaceAll(v1, '\'', "\\'");
    var v3 := ReplaceAll(v2, '$', "\\$");
    var v4 := ReplaceAll(v3, '\r', "\\r");
    var v5 := ReplaceAll(v4, '\n', "\\n");
    var v6 := ReplaceAll(v5, LINE_SEPARATOR, "\\u2028");
    ReplaceAll(v6, PARAGRAPH_SEPARATOR, "\\u2029")
  }

  function GroovyString(value: string): string { "'" + SevenPasses(value) + "'" }

  /** The escape of one character. */
  function Escape(c: char): string {
    if c == '\\' then "\\\\"
    else if c == '\'' then "\\'"
    else if c == '$' then "\\$"
    else if c == '\r' then "\\r"
    else if c == '\n' then "\\n"
    else if c == LINE_SEPARATOR then "\\u2028"
    else if c == PARAGRAPH_SEPARATOR then "\\u2029"
    else [c]
  }

  function EscapeAll(value: string): string {
    if value == "" then "" else Escape(value[0]) + EscapeAll(value[1..])
  }

  // ---------------------------------------------------------------- seven passes are one escape per character

  lemma {:induction false} ReplaceAllConcat(a: string, b: string, c: char, to: string)
    ensures ReplaceAll(a + b, c, to) == ReplaceAll(a, c, to) + ReplaceAll(b, c, to)
  {
    if a == "" {
      assert a + b == b;
    } else {
      assert (a + b)[1..] == a[1..] + b;
      ReplaceAllConcat(a[1..], b, c, to);
    }
  }

  lemma PassesConcat(a: string, b: string)
    ensures SevenPasses(a + b) == SevenPasses(a) + SevenPasses(b)
  {
    ReplaceAllConcat(a, b, '\\', "\\\\");
    var a1, b1 := ReplaceAll(a, '\\', "\\\\"), ReplaceAll(b, '\\', "\\\\");
    ReplaceAllConcat(a1, b1, '\'', "\\'");
    var a2, b2 := ReplaceAll(a1, '\'', "\\'"), ReplaceAll(b1, '\'', "\\'");
    ReplaceAllConcat(a2, b2, '$', "\\$");
    var a3, b3 := ReplaceAll(a2, '$', "\\$"), ReplaceAll(b2, '$', "\\$");
    ReplaceAllConcat(a3, b3, '\r', "\\r");
    var a4, b4 := ReplaceAll(a3, '\r', "\\r"), ReplaceAll(b3, '\r', "\\r");
    ReplaceAllConcat(a4, b4, '\n', "\\n");
    var a5, b5 := ReplaceAll(a4, '\n', "\\n"), ReplaceAll(b4, '\n', "\\n");
    ReplaceAllConcat(a5, b5, LINE_SEPARATOR, "\\u2028");
    var a6, b6 := ReplaceAll(a5, LINE_SEPARATOR, "\\u2028"), ReplaceAll(b5, LINE_SEPARATOR, "\\u2028");
    ReplaceAllConcat(a6, b6, PARAGRAPH_SEPARATOR, "\\u2029");
  }

  lemma ReplaceOne(x: char, c: char, to: string)
    ensures ReplaceAll([x], c, to) == if x == c then to else [x]
  {
    assert ReplaceAll([x][1..], c, to) == "";
  }

  lemma ReplaceTwo(x: char, y: char, c: char, to: string)
    requires x != c && y != c
    ensures ReplaceAll([x, y], c, to) == [x, y]
  {
    assert [x, y][1..] == [y];
    ReplaceOne(y, c, to);
  }

  /** The backslash that one pass writes is safe from the later passes: backslashes go first. */
  lemma PassesOfOne(x: char)
    ensures SevenPasses([x]) == Escape(x)
  {
    ReplaceOne(x, '\\', "\\\\");
    ReplaceOne(x, '\'', "\\'");
    ReplaceOne(x, '$', "\\$");
    ReplaceOne(x, '\r', "\\r");
    ReplaceOne(x, '\n', "\\n");
    ReplaceOne(x, LINE_SEPARATOR, "\\u2028");
    ReplaceOne(x, PARAGRAPH_SEPARATOR, "\\u2029");
    if x == '\\' {
      LaterPassesKeep('\\', '\\');
    } else if x == '\'' {
      LaterPassesKeep('\\', '\'');
    } else if x == '$' {
      LaterPassesKeep('\\', '$');
    } else if x == '\r' {
      LaterPassesKeep('\\', 'r');
    } else if x == '\n' {
      LaterPassesKeep('\\', 'n');
    } else if x == LINE_SEPARATOR {
    }
  }

  /** What is printed for one character: seven have an escape, every other one stands for itself. */
  lemma PrintedCharacter(c: char)
    ensures c in {'\\', '\'', '$'} ==> SevenPasses([c]) == ['\\', c]
    ensures c == '\n' ==> SevenPasses([c]) == ['\\', 'n']
    ensures c == '\r' ==> SevenPasses([c]) == ['\\', 'r']
    ensures c == '\U{2028}' ==> SevenPasses([c]) == ['\\', 'u', '2', '0', '2', '8']
    ensures c == '\U{2029}' ==> SevenPasses([c]) == ['\\', 'u', '2', '0', '2', '9']
    ensures c !in {'\\', '\'', '$', '\n', '\r', '\U{2028}', '\U{2029}'} ==> SevenPasses([c]) == [c]
  {
    PassesOfOne(c);
  }

  lemma LaterPassesKeep(x: char, y: char)
    requires x == '\\' && y in {'\\', '\'', '$', 'r', 'n'}
    ensures y == '\\' ==> ReplaceAll([x, y], '\'', "\\'") == [x, y]
    ensures y in {'\\', '\''} ==> ReplaceAll([x, y], '$', "\\$") == [x, y]
    ensures y in {'\\', '\'', '$'} ==> ReplaceAll([x, y], '\r', "\\r") == [x, y]
    ensures ReplaceAll([x, y], '\n', "\\n") == [x, y]
    ensures ReplaceAll([x, y], LINE_SEPARATOR, "\\u2028") == [x, y]
    ensures ReplaceAll([x, y], PARAGRAPH_SEPARATOR, "\\u2029") == [x, y]
  {
    if y == '\\' { ReplaceTwo(x, y, '\'', "\\'"); }
    if y in {'\\', '\''} { ReplaceTwo(x, y, '$', "\\$"); }
    if y in {'\\', '\'', '$'} { ReplaceTwo(x, y, '\r', "\\r"); }
    ReplaceTwo(x, y, '\n', "\\n");
    ReplaceTwo(x, y, LINE_SEPARATOR, "\\u2028");
    ReplaceTwo(x, y, PARAGRAPH_SEPARATOR, "\\u2029");
  }

  /** The seven sequential passes equal one escape per character. */
  lemma {:induction false} SevenPassesAreOne(value: string)
    ensures SevenPasses(value) == EscapeAll(value)
  {
    if value == "" {
      assert ReplaceAll("", '\\', "\\\\") == "";
    } else {
      assert value == [value[0]] + value[1..];
      PassesConcat([value[0]], value[1..]);
      PassesOfOne(value[0]);
      SevenPassesAreOne(value[1..]);
    }
  }

  // ---------------------------------------------------------------- the reader

  function HexDigit(c: char): (digit: int)
    ensures -1 <= digit < 16
  {
    if '0' <= c <= '9' then c as int - '0' as int
    else if 'a' <= c <= 'f' then c as int - 'a' as int + 10
    else if 'A' <= c <= 'F' then c as int - 'A' as int + 10
    else -1
  }

  lemma HexDigitsMean(v: nat)
    requires v < 16
    ensures HexDigit("0123456789abcdef"[v]) == v && HexDigit("0123456789ABCDEF"[v]) == v
  {
  }

  /** The character behind backslash-u, when its four hexadecimal digits denote one. */
  function UnicodeEscape(digits: string): (c: Option<char>)
    requires |digits| == 4
  {
    var d0, d1, d2, d3 := HexDigit(digits[0]), HexDigit(digits[1]), HexDigit(digits[2]), HexDigit(digits[3]);
    if d0 < 0 || d1 < 0 || d2 < 0 || d3 < 0 then None
    else
      var code := d0 * 4096 + d1 * 256 + d2 * 16 + d3;
      if 0xD800 <= code < 0xE000 then None else Some(code as char)
  }

  /** Reads the rest of a single-quoted literal: its value, and the text behind the closing quote. */
  function ReadBody(text: string): (r: Option<(string, string)>)
    decreases |text|
  {
    if text == "" || text[0] == '\n' || text[0] == '\r' then None
    else if text[0] == '\'' then Some(("", text[1..]))
    else if text[0] != '\\' then Prepend(text[0], ReadBody(text[1..]))
    else if |text| < 2 then None
    else if text[1] in {'\\', '\'', '$'} then Prepend(text[1], ReadBody(text[2..]))
    else if text[1] == 'r' then Prepend('\r', ReadBody(text[2..]))
    else if text[1] == 'n' then Prepend('\n', ReadBody(text[2..]))
    else if text[1] == 'u' && |text| >= 6 then
      match UnicodeEscape(text[2..6])
      case None => None
      case Some(c) => Prepend(c, ReadBody(text[6..]))
    else None
  }

  function Prepend(c: char, r: Option<(string, string)>): Option<(string, string)> {
    match r
    case None => None
    case Some((value, rest)) => Some(([c] + value, rest))
  }

  function ReadLiteral(text: string): Option<(string, string)> {
    if text != "" && text[0] == '\'' then ReadBody(text[1..]) else None
  }

  lemma ReadEscaped(c: char, tail: string)
    ensures ReadBody(Escape(c) + tail) == Prepend(c, ReadBody(tail))
  {
    var text := Escape(c) + tail;
    if |Escape(c)| == 1 {
      assert text[1..] == tail;
    } else if |Escape(c)| == 2 {
      assert text[2..] == tail;
    } else {
      assert text[2..6] == if c == LINE_SEPARATOR then "2028" else "2029";
      assert text[6..] == tail;
    }
  }

  lemma {:induction false} ReadEscapedAll(value: string, rest: string)
    ensures ReadBody(EscapeAll(value) + "'" + rest) == Some((value, rest))
  {
    if value == "" {
      assert EscapeAll(value) + "'" + rest == "'" + rest;
    } else {
      var tail := EscapeAll(value[1..]) + "'" + rest;
      assert EscapeAll(value) + "'" + rest == Escape(value[0]) + tail;
      ReadEscaped(value[0], tail);
      ReadEscapedAll(value[1..], rest);
      assert [value[0]] + value[1..] == value;
    }
  }

  /** Round trip: whatever text follows the printed literal, the reader gives back the value and that text. No
      value can close its literal early. */
  lemma PrintedLiteralReadsBack(value: string, rest: string)
    ensures ReadLiteral(GroovyString(value) + rest) == Some((value, rest))
  {
    SevenPassesAreOne(value);
    ReadEscapedAll(value, rest);
    assert (GroovyString(value) + rest)[1..] == EscapeAll(value) + "'" + rest;
  }

  /** Different values print differently, and no printed literal is the beginning of another. */
  lemma PrintingIsInjective(a: string, b: string, restA: string, restB: string)
    requires GroovyString(a) + restA == GroovyString(b) + restB
    ensures a == b && restA == restB
  {
    PrintedLiteralReadsBack(a, restA);
    PrintedLiteralReadsBack(b, restB);
  }
}
