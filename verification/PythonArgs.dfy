/** The Python list literal that carries a program's arguments
    (packages/databricks-execute/src/core.ts), written by the source and read
    back by the rules of Python. */
module PythonArgs {
  import opened Wrappers

  // ----------------------------------------------------------------- writing

  /** `s.replace(/c/gu, sub)` */
  function ReplaceAll(s: string, c: char, sub: string): string {
    if s == "" then "" else (if s[0] == c then sub else [s[0]]) + ReplaceAll(s[1..], c, sub)
  }

  function EscapePythonString(s: string): string {
    ReplaceAll(ReplaceAll(s, '\\', "\\\\"), '\'', "\\'")
  }

  function Escaped(argv: seq<string>): seq<string> {
    seq(|argv|, i requires 0 <= i < |argv| => EscapePythonString(argv[i]))
  }

  /** `['${argv.map(escapePythonString).join("', '")}']` */
  function ListLiteral(argv: seq<string>): string {
    "['" + Join(Escaped(argv), "', '") + "']"
  }

  // ----------------------------------------------------------------- reading

  /** The characters that cannot stand in a string literal on one line, and the
      one that cannot stand in a program. */
  predicate IsBarred(c: char) {
    c == '\0' || c == '\n' || c == '\r'
  }

  /** The escapes of section 2.4.1 of the Python 3.11 Language Reference that
      stand for one character; `None` for the others. */
  function SimpleEscape(c: char): Option<char> {
    match c
    case '\\' => Some('\\')
    case '\'' => Some('\'')
    case '"' => Some('"')
    case 'a' => Some('\U{07}')
    case 'b' => Some('\U{08}')
    case 'f' => Some('\U{0C}')
    case 'n' => Some('\n')
    case 'r' => Some('\r')
    case 't' => Some('\t')
    case 'v' => Some('\U{0B}')
    case _ => None
  }

  /** Octal, hexadecimal and named escapes, which this reader does not read. */
  predicate IsNumericEscape(c: char) {
    '0' <= c <= '7' || c == 'x' || c == 'N' || c == 'u' || c == 'U'
  }

  function Prepend(text: string, r: Option<(string, string)>): Option<(string, string)> {
    match r
    case Some((value, rest)) => Some((text + value, rest))
    case None => None
  }

  /** A string literal after its opening single quote: its value, and the text
      after its closing quote. An unknown escape keeps its backslash. */
  function ReadString(s: string): (r: Option<(string, string)>)
    ensures r.Some? ==> |r.value.1| < |s|
  {
    if s == "" || IsBarred(s[0]) then None
    else if s[0] == '\'' then Some(("", s[1..]))
    else if s[0] == '\\' then
      if |s| == 1 || s[1] == '\0' || s[1] == '\r' || IsNumericEscape(s[1]) then None
      else if s[1] == '\n' then ReadString(s[2..])
      else if SimpleEscape(s[1]).Some? then Prepend([SimpleEscape(s[1]).value], ReadString(s[2..]))
      else Prepend(s[..2], ReadString(s[2..]))
    else Prepend(s[..1], ReadString(s[1..]))
  }

  function SkipSpaces(s: string): (r: string)
    ensures |r| <= |s|
  {
    if s != "" && s[0] == ' ' then SkipSpaces(s[1..]) else s
  }

  /** The string literals of a list, up to the closing bracket at the end. */
  function ReadItems(s: string): Option<seq<string>>
    decreases |s|
  {
    if s == "" || s[0] != '\'' then None
    else
      match ReadString(s[1..])
      case None => None
      case Some((value, after)) =>
        var rest := SkipSpaces(after);
        if rest == "]" then Some([value])
        else if rest == "" || rest[0] != ',' then None
        else
          match ReadItems(SkipSpaces(rest[1..]))
          case None => None
          case Some(values) => Some([value] + values)
  }

  function ReadList(s: string): Option<seq<string>> {
    if s == "" || s[0] != '[' then None
    else if SkipSpaces(s[1..]) == "]" then Some([])
    else ReadItems(SkipSpaces(s[1..]))
  }

  // ------------------------------------------------------------------- proof

  predicate Readable(s: string) {
    '\0' !in s && '\n' !in s && '\r' !in s
  }

  predicate AllReadable(argv: seq<string>) {
    forall i | 0 <= i < |argv| :: Readable(argv[i])
  }

  function EscapeChar(c: char): string {
    if c == '\\' then "\\\\" else if c == '\'' then "\\'" else [c]
  }

  lemma {:induction false} ReplaceConcat(a: string, b: string, c: char, sub: string)
    ensures ReplaceAll(a + b, c, sub) == ReplaceAll(a, c, sub) + ReplaceAll(b, c, sub)
  {
    if a == "" {
      assert a + b == b;
    } else {
      assert (a + b)[1..] == a[1..] + b;
      ReplaceConcat(a[1..], b, c, sub);
    }
  }

  /** The two passes escape every character by itself. */
  lemma EscapeIsPerCharacter(s: string)
    ensures s == "" ==> EscapePythonString(s) == ""
    ensures s != "" ==> EscapePythonString(s) == EscapeChar(s[0]) + EscapePythonString(s[1..])
    ensures s != "" ==> EscapeChar(s[0]) == if s[0] == '\\' then "\\\\" else if s[0] == '\'' then "\\'" else [s[0]]
  {
    if s != "" {
      var first := if s[0] == '\\' then "\\\\" else [s[0]];
      ReplaceConcat(first, ReplaceAll(s[1..], '\\', "\\\\"), '\'', "\\'");
      assert ReplaceAll(first, '\'', "\\'") == EscapeChar(s[0]) by {
        assert first[1..] == if s[0] == '\\' then "\\" else "";
        assert "\\"[1..] == "";
      }
    }
  }

  /** The one-character escapes. */
  lemma PythonEscapes(c: char)
    ensures SimpleEscape('\\') == Some('\\') && SimpleEscape('\'') == Some('\'') && SimpleEscape('"') == Some('"')
    ensures SimpleEscape('a') == Some('\U{07}') && SimpleEscape('b') == Some('\U{08}') && SimpleEscape('f') == Some('\U{0C}')
    ensures SimpleEscape('n') == Some('\n') && SimpleEscape('r') == Some('\r') && SimpleEscape('t') == Some('\t')
    ensures SimpleEscape('v') == Some('\U{0B}')
    ensures SimpleEscape(c).Some? ==>
              c == '\\' || c == '\'' || c == '"' || c == 'a' || c == 'b' || c == 'f' || c == 'n' || c == 'r' || c == 't' || c == 'v'
  {}

  lemma ReadEscapedChar(c: char, tail: string)
    ensures ReadString(EscapeChar(c) + tail) == if IsBarred(c) then None else Prepend([c], ReadString(tail))
  {
    var text := EscapeChar(c) + tail;
    assert text[|EscapeChar(c)|..] == tail;
    assert text[..1] == [text[0]];
  }

  /** A literal reads as the string it was made from, or not at all. */
  lemma {:induction false} ReadEscaped(s: string, rest: string)
    ensures ReadString(EscapePythonString(s) + "'" + rest) == if Readable(s) then Some((s, rest)) else None
  {
    EscapeIsPerCharacter(s);
    if s == "" {
      assert "" + "'" + rest == "'" + rest;
    } else {
      ReadEscaped(s[1..], rest);
      var tail := EscapePythonString(s[1..]) + "'" + rest;
      Concatenation(EscapeChar(s[0]), EscapePythonString(s[1..]), "'");
      Concatenation(EscapeChar(s[0]), EscapePythonString(s[1..]) + "'", rest);
      ReadEscapedChar(s[0], tail);
      ReadableByParts(s);
    }
  }

  lemma ReadableByParts(s: string)
    requires s != ""
    ensures s == [s[0]] + s[1..] && (Readable(s) <==> !IsBarred(s[0]) && Readable(s[1..]))
  {}

  /** The last literal of a list. */
  lemma ReadLast(s: string)
    ensures ReadItems("'" + EscapePythonString(s) + "']") == if Readable(s) then Some([s]) else None
  {
    var text := "'" + EscapePythonString(s) + "']";
    assert text[1..] == EscapePythonString(s) + "'" + "]";
    ReadEscaped(s, "]");
  }

  /** A literal with others after it. */
  lemma ReadNext(s: string, next: string)
    requires next != "" && next[0] == '\''
    ensures ReadItems("'" + EscapePythonString(s) + "', " + next) ==
            if !Readable(s) || ReadItems(next).None? then None else Some([s] + ReadItems(next).value)
  {
    var text, rest := "'" + EscapePythonString(s) + "', " + next, ", " + next;
    assert text[1..] == EscapePythonString(s) + "'" + rest;
    ReadEscaped(s, rest);
    assert rest[1..] == " " + next && (" " + next)[1..] == next;
    assert SkipSpaces(rest) == rest && SkipSpaces(rest[1..]) == next;
  }

  lemma AllReadableByParts(argv: seq<string>)
    requires argv != []
    ensures AllReadable(argv) <==> Readable(argv[0]) && AllReadable(argv[1..])
  {
    assert forall i | 1 <= i < |argv| :: argv[i] == argv[1..][i - 1];
  }

  /** The literal, argument by argument. */
  lemma LiteralByArgument(argv: seq<string>)
    ensures argv == [] ==> ListLiteral(argv) == "['']"
    ensures |argv| == 1 ==> ListLiteral(argv) == "['" + EscapePythonString(argv[0]) + "']"
    ensures |argv| > 1 ==> ListLiteral(argv) == "['" + EscapePythonString(argv[0]) + "', " + ListLiteral(argv[1..])[1..]
  {
    if |argv| > 1 {
      ItemsByParts(argv);
      assert ListLiteral(argv) == "[" + Items(argv) && ListLiteral(argv[1..])[1..] == Items(argv[1..]);
      assert "[" + "'" == "['";
    }
  }

  /** What stands between the brackets. */
  function Items(argv: seq<string>): string {
    "'" + Join(Escaped(argv), "', '") + "']"
  }

  lemma ItemsByParts(argv: seq<string>)
    requires |argv| > 1
    ensures Items(argv) == "'" + EscapePythonString(argv[0]) + "', " + Items(argv[1..])
  {
    var first, others := EscapePythonString(argv[0]), Join(Escaped(argv[1..]), "', '");
    assert Escaped(argv)[1..] == Escaped(argv[1..]);
    assert Escaped(argv)[0] == first;
    assert Join(Escaped(argv), "', '") == first + "', '" + others;
    assert "'" + (first + "', '" + others) + "']" == "'" + first + "', " + ("'" + others + "']");
  }

  lemma {:induction false} ReadJoined(argv: seq<string>)
    requires argv != []
    ensures ReadItems(Items(argv)) == if AllReadable(argv) then Some(argv) else None
  {
    AllReadableByParts(argv);
    Partition(argv);
    if |argv| == 1 {
      ReadLast(argv[0]);
      assert Join(Escaped(argv), "', '") == EscapePythonString(argv[0]);
      assert AllReadable(argv[1..]) && [argv[0]] == argv;
    } else {
      var rest := argv[1..];
      ReadJoined(rest);
      ItemsByParts(argv);
      ReadNext(argv[0], Items(rest));
    }
  }

  lemma Partition(argv: seq<string>)
    requires argv != []
    ensures argv == [argv[0]] + argv[1..]
  {}

  /** The literal reads back as the arguments exactly when there is at least one
      and none has a NUL, a carriage return or a line feed. */
  lemma ListRoundTripIff(argv: seq<string>)
    ensures ReadList(ListLiteral(argv)) == Some(argv) <==> argv != [] && AllReadable(argv)
  {
    var text := Items(argv);
    assert ListLiteral(argv)[1..] == text;
    assert SkipSpaces(text) == text;
    if argv == [] {
      NoArguments();
    } else {
      ReadJoined(argv);
    }
  }

  /** No arguments at all become one empty argument. */
  lemma NoArguments()
    ensures ReadList(ListLiteral([])) == Some([""])
  {
    ReadEscaped("", "]");
    EscapeIsPerCharacter("");
    assert ListLiteral([]) == "['']" && "['']"[1..] == "'']" && "'']"[1..] == "'" + "]";
    assert "" + "'" + "]" == "'" + "]";
    assert SkipSpaces("'']") == "'']" && SkipSpaces("]") == "]";
  }
}
