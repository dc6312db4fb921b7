/** Where a line of a notebook cell is in the file, and how a cell's URI encodes
    its handle (packages/databricks-vscode/src/bundle/BundlePipelinesManager.ts). */
module NotebookCells {
  import opened Wrappers
  import opened StringOrder

  // ---------------------------------------------------- the two expressions

  const MARKER := "# COMMAND ----------"

  /** The length of `\r?\n` at the start, 0 when it does not match there. */
  function Newline(s: string): (n: nat)
    ensures n <= |s|
  {
    if s != "" && s[0] == '\n' then 1
    else if |s| > 1 && s[0] == '\r' && s[1] == '\n' then 2
    else 0
  }

  /** The characters that `.` does not match. */
  predicate IsTerminator(c: char) {
    c == '\n' || c == '\r' || c == '\U{2028}' || c == '\U{2029}'
  }

  /** The length of `.*`, which cannot stop early: what follows must be a newline. */
  function DotStar(s: string): (n: nat)
    ensures n <= |s|
  {
    if s == "" || IsTerminator(s[0]) then 0 else 1 + DotStar(s[1..])
  }

  datatype Separator = Separator(title: string, length: nat)

  /** The line of the separator expression that may start after a newline. */
  function TitleLine(s: string): (r: Option<Separator>)
    ensures r.Some? ==> 0 < r.value.length <= |s|
  {
    if !(MARKER <= s) then None
    else
      var n := |MARKER| + DotStar(s[|MARKER|..]);
      if Newline(s[n..]) == 0 then None else Some(Separator(s[..n], n + Newline(s[n..])))
  }

  /** A match of the whole expression at the start. */
  function Match(s: string): (r: Option<Separator>)
    ensures r.Some? ==> 0 < r.value.length <= |s|
  {
    var n := Newline(s);
    if n == 0 then None
    else
      match TitleLine(s[n..])
      case None => None
      case Some(line) => Some(Separator(line.title, n + line.length))
  }

  function PutFirst(c: char, parts: seq<string>): seq<string>
    requires parts != []
  {
    [[c] + parts[0]] + parts[1..]
  }

  /** `text.split(/\r?\n/)` */
  function Lines(s: string): (r: seq<string>)
    ensures r != []
    decreases |s|
  {
    if Newline(s) > 0 then [""] + Lines(s[Newline(s)..])
    else if s == "" then [""]
    else PutFirst(s[0], Lines(s[1..]))
  }

  /** The split at the separators: a match that starts inside another one, as the
      newline between two separator lines does, is none. */
  function Cells(s: string): (r: seq<string>)
    ensures r != []
    decreases |s|
  {
    if Match(s).Some? then [""] + Cells(s[Match(s).value.length..])
    else if s == "" then [""]
    else PutFirst(s[0], Cells(s[1..]))
  }

  /** The separator lines that the split takes away. */
  function Titles(s: string): (r: seq<string>)
    ensures |r| + 1 == |Cells(s)|
    decreases |s|
  {
    if Match(s).Some? then [Match(s).value.title] + Titles(s[Match(s).value.length..])
    else if s == "" then []
    else Titles(s[1..])
  }

  // ------------------------------------------------------- locationToRange

  datatype Location = Location(cellNumber: Option<int>, lineNumber: Option<int>)

  /** `cells.slice(0, end)` */
  function Front(cells: seq<string>, end: int): seq<string> {
    if end > |cells| then cells
    else if end >= 0 then cells[..end]
    else if -end > |cells| then []
    else cells[..|cells| + end]
  }

  /** How many lines the given cells take in the file, each with the separator
      line after it. */
  function LinesBefore(cells: seq<string>): nat {
    if cells == [] then 0 else LinesBefore(cells[..|cells| - 1]) + |Lines(cells[|cells| - 1])| + 1
  }

  method LocationToLine(text: string, location: Location, isPythonNotebook: bool) returns (line: int)
    ensures line == location.lineNumber.GetOr(1) - 1 +
                    if isPythonNotebook then LinesBefore(Front(Cells(text), location.cellNumber.GetOr(1) - 1)) else 0
    ensures isPythonNotebook && 1 <= location.cellNumber.GetOr(1) <= |Cells(text)| ==>
              var lines := Lines(Cells(text)[location.cellNumber.GetOr(1) - 1]);
              1 <= location.lineNumber.GetOr(1) <= |lines| ==>
                0 <= line < |Lines(text)| && Lines(text)[line] == lines[location.lineNumber.GetOr(1) - 1]
  {
    var cellIndex := location.cellNumber.GetOr(1) - 1;
    line := location.lineNumber.GetOr(1) - 1;
    if isPythonNotebook {
      var prevCells := Front(Cells(text), cellIndex);
      var prevCellLines := |prevCells|;
      for i := 0 to |prevCells|
        invariant prevCellLines == LinesBefore(prevCells[..i]) + |prevCells| - i
      {
        assert prevCells[..i + 1][..i] == prevCells[..i];
        prevCellLines := prevCellLines + |Lines(prevCells[i])|;
      }
      assert prevCells[..|prevCells|] == prevCells;
      if 0 <= cellIndex < |Cells(text)| && 0 <= line < |Lines(Cells(text)[cellIndex])| {
        LineOfCell(text, cellIndex, line);
      }
      line := line + prevCellLines;
    }
  }

  // ------------------------------------------------------------------- proof

  /** The lines of the cells with the separator lines between them. */
  function Interleaved(cells: seq<string>, titles: seq<string>): seq<string>
    requires |cells| == |titles| + 1
  {
    if titles == [] then Lines(cells[0])
    else Lines(cells[0]) + ([titles[0]] + Interleaved(cells[1..], titles[1..]))
  }

  /** The text starts with a line without terminators and its newline. */
  predicate IsOneLine(s: string, line: Separator) {
    var n := |line.title|;
    && n < line.length <= |s| && line.title == s[..n] && Newline(s[n..]) == line.length - n
    && forall i | 0 <= i < n :: !IsTerminator(s[i])
  }

  lemma PutFirstOfSum(c: char, parts: seq<string>, more: seq<string>)
    requires parts != []
    ensures PutFirst(c, parts + more) == PutFirst(c, parts) + more
  {}

  lemma LinesOfCharacter(s: string)
    requires s != "" && !IsTerminator(s[0])
    ensures Lines(s) == PutFirst(s[0], Lines(s[1..]))
  {}

  lemma {:induction false} LinesOfLine(s: string, line: Separator)
    requires IsOneLine(s, line)
    ensures Lines(s) == [line.title] + Lines(s[line.length..])
    decreases |s|
  {
    if line.title == "" {
      assert s[0..] == s;
    } else {
      var rest, n := s[1..], |line.title|;
      var shorter := Separator(rest[..n - 1], line.length - 1);
      assert rest[n - 1..] == s[n..] && rest[line.length - 1..] == s[line.length..];
      assert [s[0]] + shorter.title == line.title;
      LinesOfLine(rest, shorter);
      LinesOfCharacter(s);
      PutFirstOfSum(s[0], [shorter.title], Lines(s[line.length..]));
    }
  }

  lemma {:induction false} NoTerminatorInDotStar(s: string)
    ensures forall i | 0 <= i < DotStar(s) :: !IsTerminator(s[i])
  {
    if DotStar(s) > 0 {
      NoTerminatorInDotStar(s[1..]);
      assert forall i | 1 <= i < DotStar(s) :: s[i] == s[1..][i - 1];
    }
  }

  lemma TitleIsOneLine(s: string)
    requires TitleLine(s).Some?
    ensures IsOneLine(s, TitleLine(s).value)
  {
    NoTerminatorInDotStar(s[|MARKER|..]);
    var n := |MARKER| + DotStar(s[|MARKER|..]);
    assert forall i | |MARKER| <= i < n :: s[i] == s[|MARKER|..][i - |MARKER|];
  }

  lemma LinesOfMatch(s: string)
    requires Match(s).Some?
    ensures Lines(s) == [""] + ([Match(s).value.title] + Lines(s[Match(s).value.length..]))
  {
    var n := Newline(s);
    TitleIsOneLine(s[n..]);
    LinesOfLine(s[n..], TitleLine(s[n..]).value);
    assert s[n..][TitleLine(s[n..]).value.length..] == s[Match(s).value.length..];
  }

  /** The first cell is a prefix of the text. */
  lemma {:induction false} FirstCellIsPrefix(s: string)
    ensures Cells(s)[0] <= s
    decreases |s|
  {
    if Match(s).None? && s != "" {
      FirstCellIsPrefix(s[1..]);
      assert s == [s[0]] + s[1..];
    }
  }

  /** A carriage return before a line feed changes nothing. */
  lemma CarriageReturnIsSilent(s: string)
    requires s != "" && s[0] == '\n'
    ensures Lines(['\r'] + s) == Lines(s) && (Match(['\r'] + s).Some? <==> Match(s).Some?)
  {
    assert (['\r'] + s)[2..] == s[1..];
  }

  /** Splitting the cells into lines, with the separator lines put back, gives the
      lines of the file. */
  lemma {:induction false} CellsInterleave(s: string)
    ensures Lines(s) == Interleaved(Cells(s), Titles(s))
    decreases |s|
  {
    if Match(s).Some? {
      LinesOfMatch(s);
      var rest := s[Match(s).value.length..];
      CellsInterleave(rest);
      assert Cells(s)[1..] == Cells(rest) && Titles(s)[1..] == Titles(rest);
    } else if s != "" {
      CellsInterleave(s[1..]);
      FirstCellIsPrefix(s[1..]);
      FirstCharacter(s);
    }
  }

  /** One character before the first cell. */
  lemma FirstCharacter(s: string)
    requires s != "" && Match(s).None? && Cells(s[1..])[0] <= s[1..]
    requires Lines(s[1..]) == Interleaved(Cells(s[1..]), Titles(s[1..]))
    ensures Lines(s) == Interleaved(Cells(s), Titles(s))
  {
    var first, more := Cells(s[1..])[0], Cells(s[1..])[1..];
    assert Cells(s[1..]) == [first] + more;
    PutBeforeLines(s, first, more, Titles(s[1..]));
  }

  lemma PutBeforeLines(s: string, first: string, more: seq<string>, titles: seq<string>)
    requires s != "" && first <= s[1..] && |more| == |titles|
    requires Newline(s) == 2 ==> first != ""
    requires Lines(s[1..]) == Interleaved([first] + more, titles)
    ensures Lines(s) == Interleaved([[s[0]] + first] + more, titles)
  {
    var cell := [s[0]] + first;
    assert ([cell] + more)[1..] == ([first] + more)[1..] == more;
    assert cell[1..] == first;
    if Newline(s) == 2 {
      assert s == ['\r'] + s[1..];
      CarriageReturnIsSilent(s[1..]);
      CarriageReturnIsSilent(first);
      SameFirstLines([cell] + more, [first] + more, titles);
    } else if Newline(s) == 1 {
      LongerFirstLines([cell] + more, [first] + more, titles);
    } else {
      LongerFirstLine([cell] + more, [first] + more, titles, s[0]);
    }
  }

  lemma SameFirstLines(cells: seq<string>, others: seq<string>, titles: seq<string>)
    requires |cells| == |others| == |titles| + 1 && cells[1..] == others[1..]
    requires Lines(cells[0]) == Lines(others[0])
    ensures Interleaved(cells, titles) == Interleaved(others, titles)
  {}

  lemma LongerFirstLines(cells: seq<string>, others: seq<string>, titles: seq<string>)
    requires |cells| == |others| == |titles| + 1 && cells[1..] == others[1..]
    requires Lines(cells[0]) == [""] + Lines(others[0])
    ensures Interleaved(cells, titles) == [""] + Interleaved(others, titles)
  {}

  lemma LongerFirstLine(cells: seq<string>, others: seq<string>, titles: seq<string>, c: char)
    requires |cells| == |others| == |titles| + 1 && cells[1..] == others[1..]
    requires Lines(cells[0]) == PutFirst(c, Lines(others[0]))
    ensures Interleaved(others, titles) != []
    ensures Interleaved(cells, titles) == PutFirst(c, Interleaved(others, titles))
  {
    if titles != [] {
      PutFirstOfSum(c, Lines(others[0]), [titles[0]] + Interleaved(others[1..], titles[1..]));
    }
  }

  lemma {:induction false} InterleavedLine(cells: seq<string>, titles: seq<string>, k: nat, n: nat)
    requires |cells| == |titles| + 1 && k < |cells| && n < |Lines(cells[k])|
    ensures LinesBefore(cells[..k]) + n < |Interleaved(cells, titles)|
    ensures Interleaved(cells, titles)[LinesBefore(cells[..k]) + n] == Lines(cells[k])[n]
  {
    if k == 0 {
      FirstLines(cells, titles, n);
    } else {
      InterleavedLine(cells[1..], titles[1..], k - 1, n);
      assert cells[1..][..k - 1] == cells[..k][1..];
      LinesBeforeFromFront(cells[..k]);
      LaterLines(cells, titles, LinesBefore(cells[1..][..k - 1]) + n);
    }
  }

  lemma FirstLines(cells: seq<string>, titles: seq<string>, n: nat)
    requires |cells| == |titles| + 1 && n < |Lines(cells[0])|
    ensures n < |Interleaved(cells, titles)| && Interleaved(cells, titles)[n] == Lines(cells[0])[n]
  {}

  lemma LaterLines(cells: seq<string>, titles: seq<string>, n: nat)
    requires |cells| == |titles| + 1 > 1 && n < |Interleaved(cells[1..], titles[1..])|
    ensures var at := |Lines(cells[0])| + 1 + n;
            at < |Interleaved(cells, titles)| &&
            Interleaved(cells, titles)[at] == Interleaved(cells[1..], titles[1..])[n]
  {}

  lemma {:induction false} LinesBeforeFromFront(cells: seq<string>)
    requires cells != []
    ensures LinesBefore(cells) == |Lines(cells[0])| + 1 + LinesBefore(cells[1..])
  {
    var last := |cells| - 1;
    if last > 0 {
      LinesBeforeFromFront(cells[..last]);
      assert cells[1..][..last - 1] == cells[..last][1..];
    }
  }

  /** Line n of cell k is the line of the file at the computed offset. */
  lemma {:induction false} LineOfCell(s: string, k: nat, n: nat)
    requires k < |Cells(s)| && n < |Lines(Cells(s)[k])|
    ensures LinesBefore(Cells(s)[..k]) + n < |Lines(s)|
    ensures Lines(s)[LinesBefore(Cells(s)[..k]) + n] == Lines(Cells(s)[k])[n]
  {
    CellsInterleave(s);
    InterleavedLine(Cells(s), Titles(s), k, n);
  }

  // ------------------------------------------------- the cells, line by line

  predicate IsBreak(s: string) {
    s == "\n" || s == "\r\n"
  }

  predicate IsLine(s: string) {
    '\n' !in s && '\r' !in s
  }

  predicate AreLines(lines: seq<string>, breaks: seq<string>) {
    && |lines| == |breaks| + 1
    && (forall i | 0 <= i < |lines| :: IsLine(lines[i])) && (forall i | 0 <= i < |breaks| :: IsBreak(breaks[i]))
  }

  /** The lines with the breaks between them. */
  function TextOf(lines: seq<string>, breaks: seq<string>): string
    requires |lines| == |breaks| + 1
  {
    if breaks == [] then lines[0] else lines[0] + (breaks[0] + TextOf(lines[1..], breaks[1..]))
  }

  predicate IsMarkerLine(line: string) {
    "# COMMAND ----------" <= line && '\U{2028}' !in line && '\U{2029}' !in line
  }

  function PutBefore(text: string, parts: seq<string>): seq<string>
    requires parts != []
  {
    [text + parts[0]] + parts[1..]
  }

  /** The text between the marker lines. The first and the last line separate nothing,
      nor does one that comes right after a separator. */
  function CellTexts(lines: seq<string>, breaks: seq<string>): (r: seq<string>)
    requires |lines| == |breaks| + 1
    ensures r != []
  {
    if breaks == [] then lines
    else if |breaks| > 1 && IsMarkerLine(lines[1]) then [lines[0]] + CellTexts(lines[2..], breaks[2..])
    else PutBefore(lines[0] + breaks[0], CellTexts(lines[1..], breaks[1..]))
  }

  lemma CellsAfterCharacter(s: string)
    requires s != "" && s[0] != '\n' && s[0] != '\r'
    ensures Cells(s) == PutFirst(s[0], Cells(s[1..])) == PutBefore([s[0]], Cells(s[1..]))
  {
    assert Newline(s) == 0;
  }

  lemma PutBeforeTwice(a: string, b: string, parts: seq<string>)
    requires parts != []
    ensures PutBefore(a, PutBefore(b, parts)) == PutBefore(a + b, parts)
    ensures PutBefore("", parts) == parts
  {
    assert a + (b + parts[0]) == a + b + parts[0] && "" + parts[0] == parts[0];
  }

  lemma {:induction false} CellsAfterStart(s: string, n: nat)
    requires n <= |s| && IsLine(s[..n])
    ensures Cells(s) == PutBefore(s[..n], Cells(s[n..]))
  {
    var parts := Cells(s[n..]);
    if n == 0 {
      PutBeforeTwice("", "", parts);
      assert s[..0] == "" && s[0..] == s;
    } else {
      StartByParts(s, n);
      CellsAfterCharacter(s);
      CellsAfterStart(s[1..], n - 1);
      PutBeforeTwice([s[0]], s[1..n], parts);
    }
  }

  lemma StartByParts(s: string, n: nat)
    requires 0 < n <= |s| && IsLine(s[..n])
    ensures s[0] != '\n' && s[0] != '\r' && IsLine(s[1..n])
    ensures s[1..][..n - 1] == s[1..n] && s[1..][n - 1..] == s[n..] && [s[0]] + s[1..n] == s[..n]
  {
    assert s[0] in s[..n] && s[1..n] == s[..n][1..];
  }

  lemma CellsAfterLine(line: string, rest: string)
    requires IsLine(line)
    ensures Cells(line + rest) == PutBefore(line, Cells(rest))
  {
    assert (line + rest)[..|line|] == line && (line + rest)[|line|..] == rest;
    CellsAfterStart(line + rest, |line|);
  }

  lemma CellsAfterBreak(br: string, rest: string)
    requires IsBreak(br)
    ensures Cells(br + rest) ==
            match TitleLine(rest)
            case None => PutBefore(br, Cells(rest))
            case Some(line) => [""] + Cells(rest[line.length..])
  {
    var s := br + rest;
    assert Newline(s) == |br| && s[|br|..] == rest;
    if TitleLine(rest).None? {
      assert Newline("\n" + rest) == 1 && ("\n" + rest)[1..] == rest;
      assert Cells("\n" + rest) == PutFirst('\n', Cells(rest));
      if br == "\r\n" {
        assert s[1..] == "\n" + rest;
        assert ['\r'] + (['\n'] + Cells(rest)[0]) == br + Cells(rest)[0];
      }
    } else {
      assert s[Match(s).value.length..] == rest[TitleLine(rest).value.length..];
    }
  }

  lemma {:induction false} DotStarReaches(line: string, tail: string)
    requires IsLine(line) && (tail != "" ==> tail[0] == '\n' || tail[0] == '\r')
    ensures DotStar(line + tail) <= |line|
    ensures DotStar(line + tail) == |line| <==> '\U{2028}' !in line && '\U{2029}' !in line
    ensures DotStar(line + tail) < |line| ==> IsTerminator(line[DotStar(line + tail)])
  {
    if line == "" {
      assert line + tail == tail;
    } else {
      assert (line + tail)[1..] == line[1..] + tail;
      assert line[0] in line && line == [line[0]] + line[1..];
      DotStarReaches(line[1..], tail);
    }
  }

  lemma MarkerInLine(line: string, tail: string)
    requires IsLine(line) && (tail != "" ==> tail[0] == '\n' || tail[0] == '\r')
    ensures MARKER <= line + tail <==> MARKER <= line
  {
    assert forall i | 0 <= i < |MARKER| :: !IsTerminator(MARKER[i]);
    if |line| < |MARKER| {
      assert tail != "" ==> (line + tail)[|line|] == tail[0];
    } else {
      assert (line + tail)[..|MARKER|] == line[..|MARKER|];
    }
  }

  /** A separator is a marker line with a line after it. */
  lemma TitleOfLine(line: string, br: string, rest: string)
    requires IsLine(line) && (IsBreak(br) || (br == "" && rest == ""))
    ensures TitleLine(line + (br + rest)) ==
            if br != "" && IsMarkerLine(line) then Some(Separator(line, |line| + |br|)) else None
  {
    MarkerInLine(line, br + rest);
    if MARKER <= line {
      var more := line[|MARKER|..];
      assert line == MARKER + more && MARKER + more + (br + rest) == MARKER + (more + (br + rest));
      MarkerHasNoTerminator(more);
      TitleAfterMarker(more, br, rest);
    }
  }

  lemma MarkerHasNoTerminator(more: string)
    ensures IsMarkerLine(MARKER + more) <==> '\U{2028}' !in more && '\U{2029}' !in more
    ensures IsLine(MARKER + more) <==> IsLine(more)
  {
    assert forall i | 0 <= i < |MARKER| :: !IsTerminator(MARKER[i]);
    assert forall c | c in MARKER :: !IsTerminator(c);
    assert (MARKER + more)[..|MARKER|] == MARKER;
  }

  lemma TitleAfterMarker(more: string, br: string, rest: string)
    requires IsLine(more) && (IsBreak(br) || (br == "" && rest == ""))
    ensures TitleLine(MARKER + (more + (br + rest))) ==
            if br != "" && '\U{2028}' !in more && '\U{2029}' !in more
            then Some(Separator(MARKER + more, |MARKER| + |more| + |br|)) else None
  {
    var tail := br + rest;
    var s, d := MARKER + (more + tail), DotStar(more + tail);
    assert s[..|MARKER|] == MARKER && s[|MARKER|..] == more + tail;
    DotStarReaches(more, tail);
    if d == |more| {
      assert s[|MARKER| + d..] == tail && s[..|MARKER| + d] == MARKER + more;
      assert IsBreak(br) ==> Newline(tail) == |br|;
    } else {
      assert s[|MARKER| + d..][0] == more[d];
      assert more[d] in more;
    }
  }

  lemma CellsOfTwoLines(line: string, br: string, rest: string)
    requires IsLine(line) && IsBreak(br)
    ensures Cells(line + (br + rest)) ==
            match TitleLine(rest)
            case None => PutBefore(line + br, Cells(rest))
            case Some(title) => [line] + Cells(rest[title.length..])
  {
    CellsAfterLine(line, br + rest);
    CellsAfterBreak(br, rest);
    if TitleLine(rest).None? {
      PutBeforeTwice(line, br, Cells(rest));
    } else {
      assert line + "" == line;
    }
  }

  lemma TextByParts(lines: seq<string>, breaks: seq<string>)
    requires AreLines(lines, breaks) && breaks != []
    ensures AreLines(lines[1..], breaks[1..])
    ensures TextOf(lines, breaks) == lines[0] + (breaks[0] + TextOf(lines[1..], breaks[1..]))
    ensures |breaks| > 1 ==> AreLines(lines[2..], breaks[2..])
    ensures |breaks| > 1 ==>
              TextOf(lines[1..], breaks[1..]) == lines[1] + (breaks[1] + TextOf(lines[2..], breaks[2..]))
  {
    if |breaks| > 1 {
      assert lines[1..][1..] == lines[2..] && breaks[1..][1..] == breaks[2..];
    }
  }

  /** The split of a text at its separators, said line by line. */
  lemma {:induction false} CellsOfLines(lines: seq<string>, breaks: seq<string>)
    requires AreLines(lines, breaks)
    ensures Cells(TextOf(lines, breaks)) == CellTexts(lines, breaks)
    decreases |lines|
  {
    if breaks == [] {
      CellsAfterLine(lines[0], "");
      assert lines[0] + "" == lines[0] && Cells("") == [""] && lines == [lines[0]];
    } else {
      var rest := TextOf(lines[1..], breaks[1..]);
      TextByParts(lines, breaks);
      CellsOfTwoLines(lines[0], breaks[0], rest);
      CellsOfLines(lines[1..], breaks[1..]);
      SecondLine(lines, breaks);
      if |breaks| > 1 {
        CellsOfLines(lines[2..], breaks[2..]);
      }
    }
  }

  /** Whether the second line is a separator, and what comes after it. */
  lemma SecondLine(lines: seq<string>, breaks: seq<string>)
    requires AreLines(lines, breaks) && breaks != []
    ensures var rest := TextOf(lines[1..], breaks[1..]);
            if |breaks| > 1 && IsMarkerLine(lines[1]) then
              TitleLine(rest).Some? && rest[TitleLine(rest).value.length..] == TextOf(lines[2..], breaks[2..])
            else TitleLine(rest) == None
  {
    var rest := TextOf(lines[1..], breaks[1..]);
    TextByParts(lines, breaks);
    if |breaks| == 1 {
      TitleOfLine(lines[1], "", "");
      assert rest == lines[1] + ("" + "");
    } else {
      var last := TextOf(lines[2..], breaks[2..]);
      TitleOfLine(lines[1], breaks[1], last);
      assert rest[|lines[1]| + |breaks[1]|..] == last;
    }
  }

  // ---------------------------------------------------------------- cell URIs

  const LENGTHS := "WXYZabcdef"

  const RADIX := 7

  /** `handle.toString(7)` */
  function Digits(n: nat): (s: string)
    ensures s != ""
  {
    (if n < RADIX then "" else Digits(n / RADIX)) + [('0' as int + n % RADIX) as char]
  }

  function Prefix(digits: string): char
    requires digits != ""
  {
    if |digits| < |LENGTHS| then LENGTHS[|digits| - 1] else 'z'
  }

  function Fragment(handle: nat): string {
    [Prefix(Digits(handle))] + (Digits(handle) + "sZmlsZQ==")
  }

  /** The first character tells how many digits follow, up to nine. */
  lemma PrefixOfLength(digits: string)
    requires digits != ""
    ensures Prefix(digits) == if |digits| < 10 then "WXYZabcde"[|digits| - 1] else 'z'
  {}

  lemma FragmentExamples()
    ensures Fragment(0) == "W0sZmlsZQ==" && Fragment(6) == "W6sZmlsZQ==" && Fragment(7) == "X10sZmlsZQ=="
  {
    assert Digits(7) == "10" && Digits(6) == "6" && Digits(0) == "0";
  }

  function Value(digits: string): int {
    if digits == "" then 0
    else Value(digits[..|digits| - 1]) * RADIX + (digits[|digits| - 1] as int - '0' as int)
  }

  /** The digits between the prefix and the constant tail. */
  function Decode(fragment: string): int
    requires |fragment| >= 10
  {
    Value(fragment[1..|fragment| - 9])
  }

  lemma {:induction false} ValueOfDigits(n: nat)
    ensures Value(Digits(n)) == n
  {
    if n >= RADIX {
      ValueOfDigits(n / RADIX);
    }
    var front := if n < RADIX then "" else Digits(n / RADIX);
    assert Digits(n)[..|Digits(n)| - 1] == front;
  }

  /** The fragment gives the handle back, so no two cells share one. */
  lemma DecodeFragment(handle: nat)
    ensures |Fragment(handle)| >= 10 && Decode(Fragment(handle)) == handle
  {
    var fragment := Fragment(handle);
    assert |"sZmlsZQ=="| == 9;
    assert fragment[1..|fragment| - 9] == Digits(handle);
    ValueOfDigits(handle);
  }

  function Power(k: nat): nat {
    if k == 0 then 1 else RADIX * Power(k - 1)
  }

  lemma {:induction false} DigitsWithin(n: nat, k: nat)
    requires k > 0
    ensures |Digits(n)| <= k <==> n < Power(k)
  {
    if k == 1 {
      assert Power(1) == RADIX * Power(0);
    } else if n >= RADIX {
      DigitsWithin(n / RADIX, k - 1);
    } else {
      PowerIsPositive(k - 1);
    }
  }

  lemma {:induction false} PowerIsPositive(k: nat)
    ensures Power(k) > 0
  {
    if k > 0 {
      PowerIsPositive(k - 1);
    }
  }

  lemma {:induction false} MoreDigits(a: nat, b: nat)
    requires a < b
    ensures |Digits(a)| <= |Digits(b)|
  {
    if a >= RADIX && a / RADIX < b / RADIX {
      MoreDigits(a / RADIX, b / RADIX);
    }
  }

  /** Among handles with equally many digits, the texts are in numeric order. */
  lemma {:induction false} SameLengthInOrder(a: nat, b: nat)
    requires a < b && |Digits(a)| == |Digits(b)|
    ensures Before(Digits(a), Digits(b))
  {
    var c, d := [('0' as int + a % RADIX) as char], [('0' as int + b % RADIX) as char];
    if a < RADIX || a / RADIX == b / RADIX {
      assert Before(c, d);
      if a >= RADIX {
        BeforeBySuffix(Digits(a / RADIX), c, d);
      }
    } else {
      SameLengthInOrder(a / RADIX, b / RADIX);
      BeforeIsStrict(Digits(a / RADIX), Digits(b / RADIX));
      BeforeByPrefix(Digits(a / RADIX), Digits(b / RADIX), c, d);
    }
  }

  lemma FragmentsInOrder(a: nat, b: nat)
    requires a < b && (|Digits(a)| == |Digits(b)| || |Digits(a)| < |LENGTHS|)
    ensures Before(Fragment(a), Fragment(b))
  {
    MoreDigits(a, b);
    var tail := "sZmlsZQ==";
    if |Digits(a)| == |Digits(b)| {
      SameLengthInOrder(a, b);
      BeforeIsStrict(Digits(a), Digits(b));
      BeforeByPrefix(Digits(a), Digits(b), tail, tail);
      BeforeBySuffix([Prefix(Digits(a))], Digits(a) + tail, Digits(b) + tail);
    } else {
      PrefixGrows(Digits(a), Digits(b));
      assert Fragment(a)[0] < Fragment(b)[0];
    }
  }

  lemma PrefixGrows(a: string, b: string)
    requires 0 < |a| < |b| && |a| < |LENGTHS|
    ensures Prefix(a) < Prefix(b)
  {}

  ghost predicate InOrderBelow(bound: nat) {
    forall a: nat, b: nat | a < b < bound :: Before(Fragment(a), Fragment(b))
  }

  /** The character order of the fragments is the numeric order of the handles
      exactly as far as 7 to the 10th: from there on, two lengths share a prefix. */
  lemma FragmentsInOrderIff(bound: nat)
    ensures InOrderBelow(bound) <==> bound <= Power(10)
  {
    if bound <= Power(10) {
      forall a: nat, b: nat | a < b < bound
        ensures Before(Fragment(a), Fragment(b))
      {
        DigitsWithin(a, 10);
        DigitsWithin(b, 10);
        MoreDigits(a, b);
        FragmentsInOrder(a, b);
      }
    } else {
      PowersOutOfOrder();
      assert Power(9) < Power(10) by {
        PowerIsPositive(9);
      }
      assert !Before(Fragment(Power(9)), Fragment(Power(10)));
    }
  }

  function Zeros(n: nat): string {
    if n == 0 then "" else Zeros(n - 1) + "0"
  }

  lemma {:induction false} DigitsOfPower(k: nat)
    ensures Digits(Power(k)) == "1" + Zeros(k) && |Zeros(k)| == k
  {
    if k == 0 {
      assert Digits(1) == "" + "1";
    } else {
      DigitsOfPower(k - 1);
      PowerIsPositive(k - 1);
      assert Power(k) / RADIX == Power(k - 1) && Power(k) % RADIX == 0;
      Concatenation("1", Zeros(k - 1), "0");
    }
  }

  lemma PowersOutOfOrder()
    ensures !Before(Fragment(Power(9)), Fragment(Power(10)))
  {
    DigitsOfPower(9);
    DigitsOfPower(10);
    var shared, tail := "1" + Zeros(9), "sZmlsZQ==";
    assert Digits(Power(10)) == shared + "0" by {
      Concatenation("1", Zeros(9), "0");
    }
    Concatenation(shared, "0", tail);
    BeforeBySuffix(shared, tail, "0" + tail);
    BeforeBySuffix("z", shared + tail, shared + ("0" + tail));
  }
}
