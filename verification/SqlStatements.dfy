/** The SQL statement splitter that runs `%sql` cells
    (packages/databricks-vscode/resources/python/00-databricks-init.py).

    A character automaton with one character of lookahead says where the
    semicolons that separate statements are. The parser class is proved against
    it, and the rest of the module is about what the automaton's cuts mean. */
module SqlStatements {
  import opened Wrappers

  // -------------------------------------------------------------- automaton

  /** What a position of the text is inside of. The second character of a
      two-character token has a mode of its own. */
  datatype Mode =
    | Code
    | LineOpen | Line
    | BlockOpen | Block | BlockClose
    | Quoted(quote: char) | Escaped(quote: char)

  predicate StartsWith(s: string, a: char, b: char) {
    |s| >= 2 && s[0] == a && s[1] == b
  }

  predicate IsQuote(c: char) {
    c == '\'' || c == '"' || c == '`'
  }

  /** The mode after the first character of `s`. */
  function Next(mode: Mode, s: string): Mode
    requires s != ""
  {
    match mode
    case Code =>
      if StartsWith(s, '-', '-') then LineOpen
      else if StartsWith(s, '/', '*') then BlockOpen
      else if IsQuote(s[0]) then Quoted(s[0])
      else Code
    case LineOpen => Line
    case Line => if s[0] == '\n' then Code else Line
    case BlockOpen => Block
    case Block => if StartsWith(s, '*', '/') then BlockClose else Block
    case BlockClose => Code
    case Quoted(q) => if StartsWith(s, '\\', q) then Escaped(q) else if s[0] == q then Code else Quoted(q)
    case Escaped(q) => Quoted(q)
  }

  /** The mode at position `i` of `s`, if `mode` is the mode at its start. */
  function ModeAt(mode: Mode, s: string, i: nat): Mode
    requires i <= |s|
    decreases i
  {
    if i == 0 then mode else ModeAt(Next(mode, s), s[1..], i - 1)
  }

  /** How many characters the scanner reads before it is in `Code`. */
  function Until(mode: Mode, s: string): (n: nat)
    ensures n <= |s|
    decreases |s|
  {
    if mode == Code || s == "" then 0 else 1 + Until(Next(mode, s), s[1..])
  }

  lemma {:induction false} UntilIsFirst(mode: Mode, s: string)
    ensures forall i | 0 <= i < Until(mode, s) :: ModeAt(mode, s, i) != Code
    ensures Until(mode, s) == |s| || ModeAt(mode, s, Until(mode, s)) == Code
    decreases |s|
  {
    if mode != Code && s != "" {
      UntilIsFirst(Next(mode, s), s[1..]);
      assert forall i | 1 <= i < Until(mode, s) :: ModeAt(mode, s, i) == ModeAt(Next(mode, s), s[1..], i - 1);
    }
  }

  /** A semicolon that separates statements. */
  predicate IsCut(mode: Mode, s: string, i: nat) {
    i < |s| && s[i] == ';' && ModeAt(mode, s, i) == Code
  }

  /** Text put in front of the first piece. */
  function Glue(text: string, pieces: seq<string>): (r: seq<string>)
    requires pieces != []
    ensures r != []
  {
    [text + pieces[0]] + pieces[1..]
  }

  /** The text between the cuts. */
  function Pieces(mode: Mode, s: string): (r: seq<string>)
    ensures r != []
    decreases s
  {
    if s == "" then [""]
    else if mode == Code && s[0] == ';' then [""] + Pieces(Code, s[1..])
    else Glue([s[0]], Pieces(Next(mode, s), s[1..]))
  }

  // -------------------------------------------------------------- statements

  /** The characters that Python's `str.strip` removes. */
  predicate IsSpace(c: char) {
    || '\t' <= c <= '\r' || '\U{1C}' <= c <= ' ' || c == '\U{85}' || c == '\U{A0}' || c == '\U{1680}'
    || '\U{2000}' <= c <= '\U{200A}' || c == '\U{2028}' || c == '\U{2029}' || c == '\U{202F}' || c == '\U{205F}'
    || c == '\U{3000}'
  }

  predicate AllSpace(s: string) {
    forall c | c in s :: IsSpace(c)
  }

  function StripLeft(s: string): string {
    if s != "" && IsSpace(s[0]) then StripLeft(s[1..]) else s
  }

  function StripRight(s: string): string {
    if s != "" && IsSpace(s[|s| - 1]) then StripRight(s[..|s| - 1]) else s
  }

  function Strip(s: string): string {
    StripRight(StripLeft(s))
  }

  /** Every piece stripped, blank ones dropped. */
  function Statements(pieces: seq<string>): seq<string> {
    if pieces == [] then []
    else
      var stmt := Strip(pieces[0]);
      (if stmt == "" then [] else [stmt]) + Statements(pieces[1..])
  }

  lemma GlueGlue(a: string, b: string, pieces: seq<string>)
    requires pieces != []
    ensures Glue(a, Glue(b, pieces)) == Glue(a + b, pieces)
  {
    assert a + (b + pieces[0]) == (a + b) + pieces[0];
  }

  /** From position `start` of `sql`, with the automaton in `Code`, no statement
      ends before position `here`, where the automaton is in `mode`. */
  ghost predicate Reached(sql: string, start: nat, here: nat, mode: Mode) {
    && start <= here <= |sql|
    && Pieces(Code, sql[start..]) == Glue(sql[start..here], Pieces(mode, sql[here..]))
  }

  lemma ReachedStart(sql: string, start: nat)
    requires start <= |sql|
    ensures Reached(sql, start, start, Code)
  {
    GlueNothing("", Pieces(Code, sql[start..]));
    assert sql[start..start] == "";
  }

  /** Where the scanner, in `mode` at `here`, comes to be in `Code`, or the end. */
  function EndFrom(sql: string, here: nat, mode: Mode): nat
    requires here <= |sql|
  {
    here + Until(mode, sql[here..])
  }

  /** The end of what starts at `here`: the first position after it at which the
      scanner is in `Code`. */
  function TokenEnd(sql: string, here: nat): nat
    requires here < |sql|
  {
    EndFrom(sql, here + 1, Next(Code, sql[here..]))
  }

  lemma TokenEndIsFirst(sql: string, here: nat)
    requires here < |sql|
    ensures var n := TokenEnd(sql, here) - here;
            && 0 < n <= |sql| - here
            && (forall i | 0 < i < n :: ModeAt(Code, sql[here..], i) != Code)
            && (n == |sql| - here || ModeAt(Code, sql[here..], n) == Code)
  {
    var mode, rest := Next(Code, sql[here..]), sql[here + 1..];
    assert sql[here..][1..] == rest;
    UntilIsFirst(mode, rest);
    forall i | 0 < i <= TokenEnd(sql, here) - here
      ensures ModeAt(Code, sql[here..], i) == ModeAt(mode, rest, i - 1)
    {}
  }

  /** One character read. */
  lemma ReachedNext(sql: string, start: nat, here: nat, mode: Mode)
    requires Reached(sql, start, here, mode) && here < |sql|
    requires !(mode == Code && sql[here] == ';')
    ensures Reached(sql, start, here + 1, Next(mode, sql[here..]))
    ensures EndFrom(sql, here + 1, Next(mode, sql[here..])) ==
            if mode == Code then TokenEnd(sql, here) else EndFrom(sql, here, mode)
  {
    assert sql[here..][1..] == sql[here + 1..];
    GlueGlue(sql[start..here], [sql[here]], Pieces(Next(mode, sql[here..]), sql[here + 1..]));
    assert sql[start..here] + [sql[here]] == sql[start..here + 1];
  }

  /** The three branches inside a string. */
  lemma ReachedInString(sql: string, start: nat, here: nat, quote: char)
    requires Reached(sql, start, here, Quoted(quote)) && here < |sql|
    ensures var escape := here + 1 < |sql| && sql[here] == '\\' && sql[here + 1] == quote;
            Reached(sql, start, if escape then here + 2 else here + 1,
                    if !escape && sql[here] == quote then Code else Quoted(quote)) &&
            EndFrom(sql, if escape then here + 2 else here + 1,
                    if !escape && sql[here] == quote then Code else Quoted(quote)) ==
            EndFrom(sql, here, Quoted(quote))
  {
    ReachedNext(sql, start, here, Quoted(quote));
    if StartsWith(sql[here..], '\\', quote) {
      ReachedNext(sql, start, here + 1, Escaped(quote));
    }
  }

  /** The openings of a comment and of a string. */
  lemma ReachedLine(sql: string, start: nat)
    requires start <= |sql| && StartsWith(sql[start..], '-', '-')
    ensures Reached(sql, start, start + 2, Line) && EndFrom(sql, start + 2, Line) == TokenEnd(sql, start)
  {
    ReachedStart(sql, start);
    ReachedNext(sql, start, start, Code);
    ReachedNext(sql, start, start + 1, LineOpen);
  }

  lemma ReachedBlock(sql: string, start: nat)
    requires start <= |sql| && StartsWith(sql[start..], '/', '*')
    ensures Reached(sql, start, start + 2, Block) && EndFrom(sql, start + 2, Block) == TokenEnd(sql, start)
  {
    ReachedStart(sql, start);
    ReachedNext(sql, start, start, Code);
    ReachedNext(sql, start, start + 1, BlockOpen);
  }

  lemma ReachedQuoted(sql: string, start: nat, quote: char)
    requires start < |sql| && sql[start] == quote && IsQuote(quote)
    ensures Reached(sql, start, start + 1, Quoted(quote))
    ensures EndFrom(sql, start + 1, Quoted(quote)) == TokenEnd(sql, start)
  {
    ReachedStart(sql, start);
    ReachedNext(sql, start, start, Code);
  }

  /** The end of the text ends every mode. */
  lemma ReachedEnd(sql: string, start: nat, mode: Mode)
    requires start <= |sql| && Reached(sql, start, |sql|, mode)
    ensures Reached(sql, start, |sql|, Code)
  {
    assert sql[|sql|..] == "";
  }

  lemma GlueNothing(text: string, rest: seq<string>)
    ensures rest != [] ==> Glue("", rest) == rest
    ensures Glue(text, [""] + rest) == [text] + rest
  {
    assert text + ([""] + rest)[0] == text;
    assert rest != [] ==> "" + rest[0] == rest[0];
  }

  // ------------------------------------------------------------- the parser

  class SqlStatementParser {
    const sql: string
    var position: nat
    var statements: seq<string>
    var current: string

    ghost predicate Valid()
      reads this
    {
      position <= |sql|
    }

    /** Everything the parser will have returned when it is done. */
    ghost function Outcome(): seq<string>
      requires Valid()
      reads this
    {
      statements + Statements(Glue(current, Pieces(Code, sql[position..])))
    }

    constructor (sql: string)
      ensures Valid() && this.sql == sql && position == 0 && statements == [] && current == ""
    {
      this.sql := sql;
      position, statements, current := 0, [], "";
    }

    function Peek(): Option<char>
      reads this
    {
      if position < |sql| then Some(sql[position]) else None
    }

    function PeekNext(): Option<char>
      reads this
    {
      if position + 1 < |sql| then Some(sql[position + 1]) else None
    }

    method Consume() returns (c: Option<char>)
      requires Valid()
      modifies this`position, this`current
      ensures Valid() && c == old(Peek())
      ensures position == if c.Some? then old(position) + 1 else old(position)
      ensures current == old(current) + sql[old(position)..position]
    {
      c := Peek();
      if c.Some? {
        position := position + 1;
        current := current + [c.value];
      }
    }

    method ConsumeNext() returns (c: Option<char>, next: Option<char>)
      requires Valid()
      modifies this`position, this`current
      ensures Valid() && c == old(Peek()) && next == old(PeekNext())
      ensures position == if c.Some? && next.Some? then old(position) + 2 else old(position)
      ensures current == old(current) + sql[old(position)..position]
    {
      c, next := Peek(), PeekNext();
      if c.Some? && next.Some? {
        position := position + 2;
        current := current + [c.value, next.value];
      }
    }

    method AddStatement()
      requires Valid()
      modifies this`statements, this`current
      ensures Valid() && current == ""
      ensures statements == old(statements) + Statements([old(current)])
    {
      if current != "" {
        var stmt := Strip(current);
        if stmt != "" {
          statements := statements + [stmt];
        }
        current := "";
      }
    }

    /** What has been read holds no separator, and ends where the scanner is first in
        `Code` again. */
    twostate predicate TokenRead()
      reads this
    {
      && old(position) < |sql| && position == TokenEnd(sql, old(position))
      && old(position) < position && Reached(sql, old(position), position, Code)
      && current == old(current) + sql[old(position)..position]
    }

    /** One turn of the loop in `ParseLineComment`; `closed` when it returns. */
    method LineStep(ghost start: nat) returns (closed: bool)
      requires Peek().Some? && Reached(sql, start, position, Line)
      modifies this`position, this`current
      ensures old(position) < position && Reached(sql, start, position, if closed then Code else Line)
      ensures EndFrom(sql, position, if closed then Code else Line) == old(EndFrom(sql, position, Line))
      ensures current == old(current) + sql[old(position)..position]
    {
      ReachedNext(sql, start, position, Line);
      closed := Peek() == Some('\n');
      var _ := Consume();
    }

    method ParseLineComment()
      requires Valid() && StartsWith(sql[position..], '-', '-')
      modifies this`position, this`current
      ensures Valid() && TokenRead()
    {
      ghost var start := position;
      ReachedLine(sql, start);
      var _, _ := ConsumeNext();
      while Peek().Some?
        invariant Valid() && start < position && Reached(sql, start, position, Line)
        invariant EndFrom(sql, position, Line) == TokenEnd(sql, start)
        invariant current == old(current) + sql[start..position]
        decreases |sql| - position
      {
        var closed := LineStep(start);
        if closed { return; }
      }
      ReachedEnd(sql, start, Line);
    }

    /** One turn of the loop in `ParseBlockComment`; `closed` when it returns. */
    method BlockStep(ghost start: nat) returns (closed: bool)
      requires Peek().Some? && Reached(sql, start, position, Block)
      modifies this`position, this`current
      ensures old(position) < position && Reached(sql, start, position, if closed then Code else Block)
      ensures EndFrom(sql, position, if closed then Code else Block) == old(EndFrom(sql, position, Block))
      ensures current == old(current) + sql[old(position)..position]
    {
      ReachedNext(sql, start, position, Block);
      closed := Peek() == Some('*') && PeekNext() == Some('/');
      if closed {
        ReachedNext(sql, start, position + 1, BlockClose);
        var _, _ := ConsumeNext();
      } else {
        var _ := Consume();
      }
    }

    method ParseBlockComment()
      requires Valid() && StartsWith(sql[position..], '/', '*')
      modifies this`position, this`current
      ensures Valid() && TokenRead()
    {
      ghost var start := position;
      ReachedBlock(sql, start);
      var _, _ := ConsumeNext();
      while Peek().Some?
        invariant Valid() && start < position && Reached(sql, start, position, Block)
        invariant EndFrom(sql, position, Block) == TokenEnd(sql, start)
        invariant current == old(current) + sql[start..position]
        decreases |sql| - position
      {
        var closed := BlockStep(start);
        if closed { return; }
      }
      ReachedEnd(sql, start, Block);
    }

    /** One turn of the loop in `ParseString`; `closed` when it returns. */
    method StringStep(quote: char, ghost start: nat) returns (closed: bool)
      requires Peek().Some? && Reached(sql, start, position, Quoted(quote))
      modifies this`position, this`current
      ensures old(position) < position && Reached(sql, start, position, if closed then Code else Quoted(quote))
      ensures EndFrom(sql, position, if closed then Code else Quoted(quote)) == old(EndFrom(sql, position, Quoted(quote)))
      ensures current == old(current) + sql[old(position)..position]
    {
      ReachedInString(sql, start, position, quote);
      closed := false;
      if Peek() == Some('\\') && PeekNext() == Some(quote) {
        var _, _ := ConsumeNext();
      } else if Peek() == Some(quote) {
        var _ := Consume();
        closed := true;
      } else {
        var _ := Consume();
      }
    }

    method ParseString(quote: char)
      requires Valid() && Peek() == Some(quote) && IsQuote(quote)
      modifies this`position, this`current
      ensures Valid() && TokenRead()
    {
      ghost var start := position;
      ReachedQuoted(sql, start, quote);
      var _ := Consume();
      while Peek().Some?
        invariant Valid() && start < position && Reached(sql, start, position, Quoted(quote))
        invariant EndFrom(sql, position, Quoted(quote)) == TokenEnd(sql, start)
        invariant current == old(current) + sql[start..position]
        decreases |sql| - position
      {
        var closed := StringStep(quote, start);
        if closed { return; }
      }
      ReachedEnd(sql, start, Quoted(quote));
    }

    /** The branches of the main loop, the semicolon excepted. */
    method ParseToken()
      requires Valid() && position < |sql| && sql[position] != ';'
      modifies this`position, this`current
      ensures Valid() && TokenRead()
    {
      ghost var start := position;
      var c, next := Peek(), PeekNext();
      if c == Some('-') && next == Some('-') {
        ParseLineComment();
      } else if c == Some('/') && next == Some('*') {
        ParseBlockComment();
      } else if c == Some('\'') {
        ParseString('\'');
      } else if c == Some('"') {
        ParseString('"');
      } else if c == Some('`') {
        ParseString('`');
      } else {
        ReachedStart(sql, start);
        ReachedNext(sql, start, start, Code);
        var _ := Consume();
      }
    }

    method Parse() returns (r: seq<string>)
      requires Valid()
      modifies this`position, this`current, this`statements
      ensures Valid() && position == |sql| && current == ""
      ensures r == statements == old(Outcome())
    {
      while position < |sql|
        invariant Valid() && Outcome() == old(Outcome())
        decreases |sql| - position
      {
        ghost var text, from := current, position;
        if Peek() == Some(';') {
          Separated(sql, statements, text, from);
          position := position + 1;
          AddStatement();
        } else {
          ParseToken();
          GlueGlue(text, sql[from..position], Pieces(Code, sql[position..]));
        }
      }
      GlueNothing(current, []);
      assert sql[position..] == "";
      AddStatement();
      r := statements;
    }
  }

  /** A separator moves the text read so far to the statements. */
  lemma Separated(sql: string, statements: seq<string>, text: string, here: nat)
    requires here < |sql| && sql[here] == ';'
    ensures statements + Statements(Glue(text, Pieces(Code, sql[here..])))
         == statements + Statements([text]) + Statements(Glue("", Pieces(Code, sql[here + 1..])))
  {
    var rest := Pieces(Code, sql[here + 1..]);
    assert sql[here..][1..] == sql[here + 1..];
    GlueNothing(text, rest);
    assert ([text] + rest)[1..] == rest && [text][1..] == [];
  }

  // ---------------------------------------------------- what the pieces are

  lemma JoinGlue(text: string, pieces: seq<string>, separator: string)
    requires pieces != []
    ensures Join(Glue(text, pieces), separator) == text + Join(pieces, separator)
  {
    if |pieces| > 1 {
      assert Glue(text, pieces)[1..] == pieces[1..];
      assert (text + pieces[0]) + separator + Join(pieces[1..], separator)
          == text + (pieces[0] + separator + Join(pieces[1..], separator));
    }
  }

  lemma JoinBlank(pieces: seq<string>, separator: string)
    requires pieces != []
    ensures Join([""] + pieces, separator) == separator + Join(pieces, separator)
  {
    assert ([""] + pieces)[1..] == pieces;
    assert "" + separator == separator;
  }

  /** Nothing is lost: the pieces and the semicolons between them are the text. */
  lemma {:induction false} PiecesCoverText(mode: Mode, s: string)
    ensures Join(Pieces(mode, s), ";") == s
    decreases s
  {
    if s != "" {
      if mode == Code && s[0] == ';' {
        PiecesCoverText(Code, s[1..]);
        JoinBlank(Pieces(Code, s[1..]), ";");
        assert ";" + s[1..] == s;
      } else {
        PiecesCoverText(Next(mode, s), s[1..]);
        JoinGlue([s[0]], Pieces(Next(mode, s), s[1..]), ";");
        assert [s[0]] + s[1..] == s;
      }
    }
  }

  /** Where piece `k` ends. */
  function PieceEnd(pieces: seq<string>, k: nat): nat
    requires k < |pieces|
  {
    if k == 0 then |pieces[0]| else |pieces[0]| + 1 + PieceEnd(pieces[1..], k - 1)
  }

  lemma {:induction false} CutEndsPiece(mode: Mode, s: string, i: nat) returns (k: nat)
    requires IsCut(mode, s, i)
    ensures k < |Pieces(mode, s)| - 1 && PieceEnd(Pieces(mode, s), k) == i
    decreases s
  {
    if mode == Code && s[0] == ';' {
      if i == 0 {
        k := 0;
      } else {
        var j := CutEndsPiece(Code, s[1..], i - 1);
        k := j + 1;
        assert Pieces(mode, s)[1..] == Pieces(Code, s[1..]);
      }
    } else {
      k := CutEndsPiece(Next(mode, s), s[1..], i - 1);
      assert Pieces(mode, s)[1..] == Pieces(Next(mode, s), s[1..])[1..];
    }
  }

  lemma {:induction false} PieceEndsAtCut(mode: Mode, s: string, k: nat)
    requires k < |Pieces(mode, s)| - 1
    ensures IsCut(mode, s, PieceEnd(Pieces(mode, s), k))
    decreases s
  {
    if mode == Code && s[0] == ';' {
      assert Pieces(mode, s)[1..] == Pieces(Code, s[1..]);
      if k > 0 {
        PieceEndsAtCut(Code, s[1..], k - 1);
      }
    } else {
      assert Pieces(mode, s)[1..] == Pieces(Next(mode, s), s[1..])[1..];
      PieceEndsAtCut(Next(mode, s), s[1..], k);
    }
  }

  /** The ends of all pieces but the last are the cuts, and there is no other cut. */
  lemma PiecesEndAtCuts(mode: Mode, s: string, i: nat)
    ensures IsCut(mode, s, i) <==> exists k :: 0 <= k < |Pieces(mode, s)| - 1 && PieceEnd(Pieces(mode, s), k) == i
  {
    if IsCut(mode, s, i) {
      var k := CutEndsPiece(mode, s, i);
    }
    forall k | 0 <= k < |Pieces(mode, s)| - 1 && PieceEnd(Pieces(mode, s), k) == i
      ensures IsCut(mode, s, i)
    {
      PieceEndsAtCut(mode, s, k);
    }
  }

  // ---------------------------------------------------------------- strip

  lemma StripParts(s: string) returns (left: string, right: string)
    ensures s == left + Strip(s) + right && AllSpace(left) && AllSpace(right)
    ensures Strip(s) != "" ==> !IsSpace(Strip(s)[0]) && !IsSpace(Strip(s)[|Strip(s)| - 1])
  {
    left := StripLeftParts(s);
    right := StripRightParts(StripLeft(s));
    assert s == left + (Strip(s) + right);
    if Strip(s) != "" {
      assert Strip(s)[0] == StripLeft(s)[0];
    }
  }

  lemma {:induction false} StripLeftParts(s: string) returns (left: string)
    ensures s == left + StripLeft(s) && AllSpace(left)
    ensures StripLeft(s) != "" ==> !IsSpace(StripLeft(s)[0])
  {
    if s != "" && IsSpace(s[0]) {
      var rest := StripLeftParts(s[1..]);
      left := [s[0]] + rest;
    } else {
      left := "";
    }
  }

  lemma {:induction false} StripRightParts(s: string) returns (right: string)
    ensures s == StripRight(s) + right && AllSpace(right)
    ensures StripRight(s) != "" ==> !IsSpace(StripRight(s)[|StripRight(s)| - 1])
  {
    if s != "" && IsSpace(s[|s| - 1]) {
      var rest := StripRightParts(s[..|s| - 1]);
      right := rest + [s[|s| - 1]];
      assert s == s[..|s| - 1] + [s[|s| - 1]];
    } else {
      right := "";
    }
  }

  lemma {:induction false} StripLeftOf(left: string, s: string)
    requires AllSpace(left)
    ensures StripLeft(left + s) == StripLeft(s)
  {
    if left == "" {
      assert left + s == s;
    } else {
      assert (left + s)[1..] == left[1..] + s;
      StripLeftOf(left[1..], s);
    }
  }

  lemma {:induction false} StripRightOf(s: string, right: string)
    requires AllSpace(right) && s != "" && !IsSpace(s[|s| - 1])
    ensures StripRight(s + right) == s
  {
    if right == "" {
      assert s + right == s;
    } else {
      var last := |s + right| - 1;
      assert (s + right)[..last] == s + right[..|right| - 1];
      StripRightOf(s, right[..|right| - 1]);
    }
  }

  /** Text that starts and ends with something visible. */
  predicate Trimmed(s: string) {
    s != "" && !IsSpace(s[0]) && !IsSpace(s[|s| - 1])
  }

  lemma StripAround(left: string, s: string, right: string)
    requires AllSpace(left) && AllSpace(right) && Trimmed(s)
    ensures Strip(left + s + right) == s
  {
    assert left + s + right == left + (s + right);
    StripLeftOf(left, s + right);
    StripRightOf(s, right);
  }

  // ------------------------------------------------------- statements reparse

  /** The mode after all of `s`, when nothing follows. */
  function End(mode: Mode, s: string): Mode
    decreases s
  {
    if s == "" then mode else End(Next(mode, s), s[1..])
  }

  predicate NoCut(mode: Mode, s: string)
    decreases s
  {
    s == "" || (!(mode == Code && s[0] == ';') && NoCut(Next(mode, s), s[1..]))
  }

  /** A character that completes no two-character token. */
  predicate Neutral(c: char) {
    c != '-' && c != '*' && c != '/' && !IsQuote(c)
  }

  /** Quotes other than the three quote characters do not occur. */
  predicate Sane(mode: Mode) {
    match mode
    case Quoted(q) => IsQuote(q)
    case Escaped(q) => IsQuote(q)
    case _ => true
  }

  /** What follows a neutral character does not change what is before it. */
  lemma {:induction false} SplitAtNeutral(mode: Mode, p: string, r: string)
    requires Sane(mode) && (r != "" ==> Neutral(r[0]))
    ensures NoCut(mode, p + r) <==> NoCut(mode, p) && NoCut(End(mode, p), r)
    ensures End(mode, p + r) == End(End(mode, p), r)
    decreases p
  {
    if p == "" {
      assert p + r == r;
    } else {
      assert (p + r)[1..] == p[1..] + r;
      assert Next(mode, p + r) == Next(mode, p);
      SplitAtNeutral(Next(mode, p), p[1..], r);
    }
  }

  lemma {:induction false} EndIsSane(mode: Mode, s: string)
    requires Sane(mode)
    ensures Sane(End(mode, s))
    decreases s
  {
    if s != "" {
      EndIsSane(Next(mode, s), s[1..]);
    }
  }

  /** White space between statements leaves the automaton in `Code`. */
  lemma {:induction false} SkipSpace(left: string, s: string)
    requires AllSpace(left)
    ensures NoCut(Code, left + s) <==> NoCut(Code, s)
    ensures End(Code, left + s) == End(Code, s)
    decreases left
  {
    if left == "" {
      assert left + s == s;
    } else {
      assert (left + s)[1..] == left[1..] + s;
      assert left[0] in left;
      assert Next(Code, left + s) == Code;
      SkipSpace(left[1..], s);
    }
  }

  /** The pieces of a text that is one piece, with a separator and more after it. */
  lemma {:induction false} PiecesOfOne(mode: Mode, p: string, rest: string)
    requires Sane(mode) && NoCut(mode, p) && End(mode, p) == Code
    ensures Pieces(mode, p + ";" + rest) == [p] + Pieces(Code, rest)
    decreases p
  {
    var s := p + ";" + rest;
    if p == "" {
      assert s == ";" + rest;
      assert s[1..] == rest;
    } else {
      assert s[1..] == p[1..] + ";" + rest;
      assert Next(mode, s) == Next(mode, p);
      PiecesOfOne(Next(mode, p), p[1..], rest);
      assert [p[0]] + p[1..] == p;
    }
  }

  lemma {:induction false} PiecesOfWhole(mode: Mode, p: string)
    requires NoCut(mode, p)
    ensures Pieces(mode, p) == [p]
    decreases p
  {
    if p != "" {
      PiecesOfWhole(Next(mode, p), p[1..]);
      assert [p[0]] + p[1..] == p;
    }
  }

  /** Every piece is uncut, and every piece but the last ends in `Code`. */
  lemma {:induction false} PiecesAreUncut(mode: Mode, s: string)
    requires Sane(mode)
    ensures NoCut(mode, Pieces(mode, s)[0])
    ensures |Pieces(mode, s)| > 1 ==> End(mode, Pieces(mode, s)[0]) == Code
    ensures forall k | 1 <= k < |Pieces(mode, s)| :: NoCut(Code, Pieces(mode, s)[k])
    ensures forall k | 1 <= k < |Pieces(mode, s)| - 1 :: End(Code, Pieces(mode, s)[k]) == Code
    decreases s
  {
    if s != "" {
      if mode == Code && s[0] == ';' {
        PiecesAreUncut(Code, s[1..]);
        var rest := Pieces(Code, s[1..]);
        assert forall k | 1 <= k < |Pieces(mode, s)| :: Pieces(mode, s)[k] == rest[k - 1];
      } else {
        PiecesAreUncut(Next(mode, s), s[1..]);
        FirstPieceAfter(mode, s);
      }
    }
  }

  /** The first piece read in context and the first piece read alone agree. */
  lemma FirstPieceAfter(mode: Mode, s: string)
    requires s != "" && Sane(mode) && !(mode == Code && s[0] == ';')
    ensures var p := Pieces(mode, s)[0]; p != "" && p[0] == s[0] && p[1..] == Pieces(Next(mode, s), s[1..])[0]
    ensures var p := Pieces(mode, s)[0]; Next(mode, p) == Next(mode, s)
  {
    var rest := Pieces(Next(mode, s), s[1..])[0];
    assert ([s[0]] + rest)[1..] == rest;
    if |s| > 1 && Next(mode, s) != Code {
      assert rest != "" && rest[0] == s[1];
    }
  }

  /** What every returned statement is: trimmed, one piece on its own, and closed
      by a newline if another statement follows. */
  predicate Standalone(stmt: string) {
    Trimmed(stmt) && NoCut(Code, stmt)
  }

  predicate Closed(stmt: string) {
    End(Code, stmt + "\n") == Code
  }

  ghost predicate AllStandalone(stmts: seq<string>) {
    && (forall k | 0 <= k < |stmts| :: Standalone(stmts[k]))
    && (forall k | 0 <= k < |stmts| - 1 :: Closed(stmts[k]))
  }

  /** Only the first character of a two-character token is ever pending. */
  predicate Pending(mode: Mode) {
    mode.LineOpen? || mode.BlockOpen? || mode.BlockClose? || mode.Escaped?
  }

  lemma {:induction false} EndIsNotPending(mode: Mode, s: string)
    requires Pending(mode) ==> s != ""
    ensures !Pending(End(mode, s))
    decreases s
  {
    if s != "" {
      EndIsNotPending(Next(mode, s), s[1..]);
    }
  }

  /** White space leads back to `Code` only from `Code` and from a line comment. */
  lemma {:induction false} SpaceCloses(mode: Mode, right: string)
    requires AllSpace(right) && Sane(mode) && !Pending(mode) && End(mode, right) == Code
    ensures mode == Code || mode == Line
    decreases right
  {
    if right != "" {
      assert right[0] in right;
      if mode != Code && mode != Line {
        assert Next(mode, right) == mode;
        SpaceCloses(mode, right[1..]);
      }
    }
  }

  lemma StrippedPiece(p: string)
    requires NoCut(Code, p) && Strip(p) != ""
    ensures Standalone(Strip(p))
    ensures End(Code, p) == Code ==> Closed(Strip(p))
  {
    var stmt := Strip(p);
    var left, right := StripParts(p);
    assert p == left + (stmt + right);
    SkipSpace(left, stmt + right);
    assert right != "" ==> right[0] in right;
    SplitAtNeutral(Code, stmt, right);
    SplitAtNeutral(Code, stmt, "\n");
    if End(Code, p) == Code {
      EndIsNotPending(Code, stmt);
      EndIsSane(Code, stmt);
      SpaceCloses(End(Code, stmt), right);
    }
  }

  lemma {:induction false} StatementsStandalone(pieces: seq<string>)
    requires forall k | 0 <= k < |pieces| :: NoCut(Code, pieces[k])
    requires forall k | 0 <= k < |pieces| - 1 :: End(Code, pieces[k]) == Code
    ensures AllStandalone(Statements(pieces))
  {
    if pieces != [] {
      StatementsStandalone(pieces[1..]);
      if Strip(pieces[0]) != "" {
        StrippedPiece(pieces[0]);
      }
    }
  }

  lemma ParsedStandalone(s: string)
    ensures AllStandalone(Statements(Pieces(Code, s)))
  {
    PiecesAreUncut(Code, s);
    StatementsStandalone(Pieces(Code, s));
  }

  /** Every statement of a text parses to just itself. */
  lemma StatementReparses(s: string, k: nat)
    requires k < |Statements(Pieces(Code, s))|
    ensures var stmt := Statements(Pieces(Code, s))[k]; Statements(Pieces(Code, stmt)) == [stmt]
  {
    ParsedStandalone(s);
    var stmt := Statements(Pieces(Code, s))[k];
    PiecesOfWhole(Code, stmt);
    StripAround("", stmt, "");
    assert "" + stmt + "" == stmt;
    assert Statements([stmt]) == [stmt] + Statements([stmt][1..]);
  }

  lemma {:induction false} JoinedReparses(left: string, stmts: seq<string>)
    requires AllSpace(left) && AllStandalone(stmts)
    ensures Statements(Pieces(Code, left + Join(stmts, "\n;\n"))) == stmts
    decreases stmts
  {
    if stmts == [] {
      SkipSpace(left, "");
      assert left + "" == left;
      PiecesOfWhole(Code, left);
      StripLeftOf(left, "");
    } else {
      var stmt := stmts[0];
      SkipSpace(left, stmt);
      if |stmts| == 1 {
        PiecesOfWhole(Code, left + stmt);
        StripAround(left, stmt, "");
        assert left + stmt + "" == left + stmt;
      } else {
        var p, rest := left + stmt + "\n", "\n" + Join(stmts[1..], "\n;\n");
        SkipSpace(left, stmt + "\n");
        assert left + (stmt + "\n") == p;
        SplitAtNeutral(Code, stmt, "\n");
        PiecesOfOne(Code, p, rest);
        assert left + Join(stmts, "\n;\n") == p + ";" + rest;
        StripAround(left, stmt, "\n");
        JoinedReparses("\n", stmts[1..]);
        assert ([p] + Pieces(Code, rest))[1..] == Pieces(Code, rest);
      }
    }
  }

  /** The statements of a text, joined by newline, semicolon, newline, parse to
      the same statements, unterminated strings and comments included. */
  lemma StatementsRoundTrip(s: string)
    ensures var stmts := Statements(Pieces(Code, s));
            Statements(Pieces(Code, Join(stmts, "\n;\n"))) == stmts
  {
    ParsedStandalone(s);
    var stmts := Statements(Pieces(Code, s));
    JoinedReparses("", stmts);
    assert "" + Join(stmts, "\n;\n") == Join(stmts, "\n;\n");
  }

  lemma {:induction false} FirstPieceRunsOn(mode: Mode, stmt: string, rest: string)
    requires Sane(mode) && NoCut(mode, stmt) && End(mode, stmt) != Code
    requires rest != "" && Neutral(rest[0])
    ensures var p := Pieces(mode, stmt + rest)[0]; |p| > |stmt| && p[..|stmt|] == stmt && p[|stmt|] == rest[0]
    decreases stmt
  {
    if stmt == "" {
      assert stmt + rest == rest;
    } else {
      assert (stmt + rest)[1..] == stmt[1..] + rest;
      assert Next(mode, stmt + rest) == Next(mode, stmt);
      FirstPieceRunsOn(Next(mode, stmt), stmt[1..], rest);
    }
  }

  lemma ClosedSeparates(first: string, second: string)
    requires Standalone(first) && Standalone(second) && End(Code, first) == Code
    ensures Statements(Pieces(Code, first + ";" + second)) == [first, second]
  {
    PiecesOfOne(Code, first, second);
    PiecesOfWhole(Code, second);
    StripAround("", first, "");
    StripAround("", second, "");
    assert "" + first + "" == first && "" + second + "" == second;
    assert [first, second][1..] == [second] && [second][1..] == [];
    assert [first] + Pieces(Code, second) == [first, second];
    assert Statements([second]) == [second];
  }

  lemma OpenRunsOn(first: string, second: string)
    requires Standalone(first) && End(Code, first) != Code
    ensures Statements(Pieces(Code, first + ";" + second)) != [first, second]
  {
    var s := first + ";" + second;
    assert s == first + (";" + second);
    FirstPieceRunsOn(Code, first, ";" + second);
    var p := Pieces(Code, s)[0];
    assert p[0] == first[0];
    var right := StripRightParts(p);
    assert right != "" ==> p[|p| - |right|] in right;
    assert p == Strip(p) + right;
    assert Statements(Pieces(Code, s))[0] == Strip(p) != first;
  }

  /** A semicolon without the newline separates two statements exactly when the
      first does not end inside a comment or a string. */
  lemma BareSemicolonSeparatesIffClosed(first: string, second: string)
    requires Standalone(first) && Standalone(second)
    ensures Statements(Pieces(Code, first + ";" + second)) == [first, second] <==> End(Code, first) == Code
  {
    if End(Code, first) == Code {
      ClosedSeparates(first, second);
    } else {
      OpenRunsOn(first, second);
    }
  }

  // ------------------------------------------- the same without the automaton

  predicate IsQuoteMark(c: char) {
    c in "'\"`"
  }

  /** A comment that runs to the end of its line. */
  predicate IsLineComment(t: string) {
    |t| >= 3 && t[..2] == "--" && t[|t| - 1] == '\n' && '\n' !in t[2..|t| - 1]
  }

  predicate IsBlockComment(t: string) {
    |t| >= 4 && t[..2] == "/*" && ClosesAt(t, |t| - 2) && forall i | 2 <= i < |t| - 2 :: !ClosesAt(t, i)
  }

  predicate ClosesAt(t: string, i: nat) {
    i + 1 < |t| && t[i] == '*' && t[i + 1] == '/'
  }

  /** A string, a quoted name or a name in backticks: the mark occurs inside only
      after a backslash. */
  predicate IsQuotedText(t: string) {
    && |t| >= 2 && IsQuoteMark(t[0]) && t[|t| - 1] == t[0]
    && (forall i | 1 <= i < |t| - 1 && t[i] == t[0] :: t[i - 1] == '\\')
    && t[|t| - 2] != '\\'
  }

  /** The same, when the text ends first. */
  predicate IsUnclosed(t: string) {
    || (|t| >= 2 && t[..2] == "--" && '\n' !in t[2..])
    || (|t| >= 2 && t[..2] == "/*" && forall i | 2 <= i < |t| :: !ClosesAt(t, i))
    || (|t| >= 1 && IsQuoteMark(t[0]) && forall i | 1 <= i < |t| && t[i] == t[0] :: t[i - 1] == '\\')
  }

  predicate Opens(s: string) {
    s != "" && (IsQuoteMark(s[0]) || s[..if |s| < 2 then |s| else 2] in ["--", "/*"])
  }

  /** What a text may begin with: a comment, a quoted text, or one character at
      which none of these begins. */
  predicate IsToken(t: string, rest: string) {
    || IsLineComment(t) || IsBlockComment(t) || IsQuotedText(t)
    || (rest == "" && IsUnclosed(t))
    || (|t| == 1 && !Opens(t + rest))
  }

  predicate AreTokens(ts: seq<string>) {
    ts == [] || (IsToken(ts[0], Join(ts[1..], "")) && AreTokens(ts[1..]))
  }

  /** The tokens between the semicolons, each group as a text. */
  function Grouped(ts: seq<string>): (r: seq<string>)
    ensures r != []
  {
    if ts == [] then [""]
    else if ts[0] == ";" then [""] + Grouped(ts[1..])
    else Glue(ts[0], Grouped(ts[1..]))
  }

  lemma GlueFirst(mode: Mode, t: string, rest: string, tail: seq<string>)
    requires t != "" && !(mode == Code && t[0] == ';') && tail != []
    requires Pieces(Next(mode, t + rest), t[1..] + rest) == Glue(t[1..], tail)
    ensures Pieces(mode, t + rest) == Glue(t, tail)
  {
    assert (t + rest)[1..] == t[1..] + rest;
    GlueGlue([t[0]], t[1..], tail);
    assert [t[0]] + t[1..] == t;
  }

  lemma {:induction false} LineHides(t: string, rest: string)
    requires t != "" && t[|t| - 1] == '\n' && '\n' !in t[..|t| - 1]
    ensures Pieces(Line, t + rest) == Glue(t, Pieces(Code, rest))
    decreases t
  {
    if |t| == 1 {
      GlueNothing("", Pieces(Code, rest));
      assert t[1..] + rest == rest;
    } else {
      assert t[..|t| - 1][0] == t[0];
      assert t[1..][..|t| - 2] == t[..|t| - 1][1..];
      LineHides(t[1..], rest);
    }
    GlueFirst(Line, t, rest, Pieces(Code, rest));
  }

  lemma {:induction false} BlockHides(t: string, rest: string)
    requires |t| >= 2 && ClosesAt(t, |t| - 2) && forall i | 0 <= i < |t| - 2 :: !ClosesAt(t, i)
    ensures Pieces(Block, t + rest) == Glue(t, Pieces(Code, rest))
    decreases t
  {
    if |t| == 2 {
      assert t[1..] == "/" && t[1..] + rest == "/" + rest;
      GlueNothing("", Pieces(Code, rest));
      assert "/"[1..] == "" && "/"[1..] + rest == rest;
      GlueFirst(BlockClose, "/", rest, Pieces(Code, rest));
    } else {
      assert !ClosesAt(t, 0);
      assert forall i | 0 <= i < |t| - 2 :: ClosesAt(t[1..], i) <==> ClosesAt(t, i + 1);
      BlockHides(t[1..], rest);
    }
    GlueFirst(Block, t, rest, Pieces(Code, rest));
  }

  lemma {:induction false} QuoteHides(q: char, t: string, rest: string)
    requires IsQuoteMark(q) && t != "" && t[|t| - 1] == q && (|t| > 1 ==> t[0] != q && t[|t| - 2] != '\\')
    requires forall i | 1 <= i < |t| - 1 && t[i] == q :: t[i - 1] == '\\'
    ensures Pieces(Quoted(q), t + rest) == Glue(t, Pieces(Code, rest))
    decreases t
  {
    if |t| == 1 {
      GlueNothing("", Pieces(Code, rest));
      assert t[1..] + rest == rest;
    } else if t[0] == '\\' && t[1] == q {
      var inner := t[1..];
      assert inner[1..] == t[2..];
      QuoteHides(q, t[2..], rest);
      GlueFirst(Escaped(q), inner, rest, Pieces(Code, rest));
    } else {
      QuoteHides(q, t[1..], rest);
    }
    GlueFirst(Quoted(q), t, rest, Pieces(Code, rest));
  }

  lemma {:induction false} LineNeverCloses(t: string)
    requires '\n' !in t
    ensures NoCut(Line, t)
    decreases t
  {
    if t != "" {
      LineNeverCloses(t[1..]);
    }
  }

  lemma {:induction false} BlockNeverCloses(t: string)
    requires forall i | 0 <= i < |t| :: !ClosesAt(t, i)
    ensures NoCut(Block, t)
    decreases t
  {
    if t != "" {
      assert !ClosesAt(t, 0);
      assert forall i | 0 <= i < |t| - 1 :: ClosesAt(t[1..], i) <==> ClosesAt(t, i + 1);
      BlockNeverCloses(t[1..]);
    }
  }

  lemma {:induction false} QuoteNeverCloses(q: char, t: string)
    requires IsQuoteMark(q) && (t != "" ==> t[0] != q)
    requires forall i | 1 <= i < |t| && t[i] == q :: t[i - 1] == '\\'
    ensures NoCut(Quoted(q), t)
    decreases t
  {
    if t != "" {
      if |t| >= 2 && t[0] == '\\' && t[1] == q {
        assert t[1..][1..] == t[2..];
        QuoteNeverCloses(q, t[2..]);
      } else {
        QuoteNeverCloses(q, t[1..]);
      }
    }
  }

  lemma UnclosedHides(t: string)
    requires IsUnclosed(t)
    ensures Pieces(Code, t) == [t]
  {
    if IsQuoteMark(t[0]) {
      QuoteNeverCloses(t[0], t[1..]);
    } else {
      UnclosedComment(t);
    }
    PiecesOfWhole(Code, t);
  }

  lemma UnclosedComment(t: string)
    requires IsUnclosed(t) && !IsQuoteMark(t[0])
    ensures NoCut(Code, t)
  {
    assert t[..2][0] == t[0] && t[..2][1] == t[1] && t[1..][1..] == t[2..];
    if t[0] == '-' {
      assert t[..2] == "--";
      LineNeverCloses(t[2..]);
    } else {
      assert forall i | 0 <= i < |t| - 2 :: ClosesAt(t[2..], i) <==> ClosesAt(t, i + 2);
      BlockNeverCloses(t[2..]);
    }
  }

  lemma LineCommentHides(t: string, rest: string)
    requires IsLineComment(t)
    ensures Pieces(Code, t + rest) == Glue(t, Pieces(Code, rest))
  {
    assert t[..2][0] == '-' && t[..2][1] == '-' && t[1..][1..] == t[2..];
    assert t[2..][..|t| - 3] == t[2..|t| - 1];
    LineHides(t[2..], rest);
    GlueFirst(LineOpen, t[1..], rest, Pieces(Code, rest));
    GlueFirst(Code, t, rest, Pieces(Code, rest));
  }

  lemma BlockCommentHides(t: string, rest: string)
    requires IsBlockComment(t)
    ensures Pieces(Code, t + rest) == Glue(t, Pieces(Code, rest))
  {
    assert t[..2][0] == '/' && t[..2][1] == '*' && t[1..][1..] == t[2..];
    assert forall i | 0 <= i < |t| - 2 :: ClosesAt(t[2..], i) <==> ClosesAt(t, i + 2);
    BlockHides(t[2..], rest);
    GlueFirst(BlockOpen, t[1..], rest, Pieces(Code, rest));
    GlueFirst(Code, t, rest, Pieces(Code, rest));
  }

  lemma QuotedTextHides(t: string, rest: string)
    requires IsQuotedText(t)
    ensures Pieces(Code, t + rest) == Glue(t, Pieces(Code, rest))
  {
    QuoteHides(t[0], t[1..], rest);
    GlueFirst(Code, t, rest, Pieces(Code, rest));
  }

  lemma CharacterStands(t: string, rest: string)
    requires |t| == 1 && !Opens(t + rest)
    ensures Pieces(Code, t + rest) == if t == ";" then [""] + Pieces(Code, rest) else Glue(t, Pieces(Code, rest))
  {
    var s := t + rest;
    assert s[1..] == rest && s[0] == t[0];
    assert |s| >= 2 ==> s[..2] == [s[0], s[1]];
    assert Next(Code, s) == Code;
    assert t == [t[0]];
  }

  lemma TokenHides(t: string, rest: string)
    requires IsToken(t, rest)
    ensures Pieces(Code, t + rest) == if t == ";" then [""] + Pieces(Code, rest) else Glue(t, Pieces(Code, rest))
  {
    if IsLineComment(t) {
      LineCommentHides(t, rest);
    } else if IsBlockComment(t) {
      BlockCommentHides(t, rest);
    } else if IsQuotedText(t) {
      QuotedTextHides(t, rest);
    } else if |t| == 1 && !Opens(t + rest) {
      CharacterStands(t, rest);
    } else {
      UnclosedHides(t);
      assert t + rest == t && t + "" == t;
    }
  }

  /** The text read as comments, quoted texts and single characters: exactly the
      semicolons that stand alone are what separates the pieces. */
  lemma {:induction false} PiecesOfTokens(ts: seq<string>)
    requires AreTokens(ts)
    ensures Pieces(Code, Join(ts, "")) == Grouped(ts)
  {
    if ts != [] {
      var rest := Join(ts[1..], "");
      PiecesOfTokens(ts[1..]);
      TokenHides(ts[0], rest);
      assert Join(ts, "") == ts[0] + rest by {
        assert ts[0] + "" == ts[0];
      }
    }
  }

  lemma LineToken(s: string) returns (t: string)
    requires |s| >= 2 && s[..2] == "--"
    ensures 0 < |t| <= |s| && t == s[..|t|] && IsToken(t, s[|t|..])
  {
    var i := 2;
    while i < |s| && s[i] != '\n'
      invariant 2 <= i <= |s| && '\n' !in s[2..i]
    {
      i := i + 1;
    }
    t := if i < |s| then s[..i + 1] else s;
    assert i < |s| ==> t[2..|t| - 1] == s[2..i];
    assert t[..2] == s[..2];
  }

  lemma BlockToken(s: string) returns (t: string)
    requires |s| >= 2 && s[..2] == "/*"
    ensures 0 < |t| <= |s| && t == s[..|t|] && IsToken(t, s[|t|..])
  {
    var i := 2;
    while i < |s| && !ClosesAt(s, i)
      invariant 2 <= i <= |s| && forall k | 2 <= k < i :: !ClosesAt(s, k)
    {
      i := i + 1;
    }
    t := if i < |s| then s[..i + 2] else s;
    assert t[..2] == s[..2];
    assert forall k | 2 <= k < |t| - 1 :: ClosesAt(t, k) <==> ClosesAt(s, k);
  }

  lemma QuoteToken(s: string) returns (t: string)
    requires s != "" && IsQuoteMark(s[0])
    ensures 0 < |t| <= |s| && t == s[..|t|] && IsToken(t, s[|t|..])
  {
    var i := 1;
    while i < |s| && (s[i] != s[0] || s[i - 1] == '\\')
      invariant 1 <= i <= |s| && forall k | 1 <= k < i && s[k] == s[0] :: s[k - 1] == '\\'
    {
      i := i + 1;
    }
    t := if i < |s| then s[..i + 1] else s;
  }

  /** Every text can be read so. */
  lemma {:induction false} EveryTextHasTokens(s: string) returns (ts: seq<string>)
    ensures AreTokens(ts) && Join(ts, "") == s
    decreases s
  {
    if s == "" {
      ts := [];
    } else {
      var t: string;
      if IsQuoteMark(s[0]) {
        t := QuoteToken(s);
      } else if |s| >= 2 && s[..2] == "--" {
        t := LineToken(s);
      } else if |s| >= 2 && s[..2] == "/*" {
        t := BlockToken(s);
      } else {
        t := s[..1];
        assert t + s[1..] == s;
      }
      var rest := EveryTextHasTokens(s[|t|..]);
      ts := [t] + rest;
      assert ts[1..] == rest;
      assert t + "" + s[|t|..] == s;
    }
  }

  /** `SqlStatementParser(sql_string).parse()`: what is between the semicolons that
      stand alone, stripped, blank statements dropped. */
  method ParseText(sql: string) returns (r: seq<string>)
    ensures forall ts | AreTokens(ts) && Join(ts, "") == sql :: r == Statements(Grouped(ts))
  {
    var parser := new SqlStatementParser(sql);
    assert sql[0..] == sql;
    GlueNothing("", Pieces(Code, sql));
    r := parser.Parse();
    forall ts | AreTokens(ts) && Join(ts, "") == sql
      ensures r == Statements(Grouped(ts))
    {
      PiecesOfTokens(ts);
    }
  }

  /** The characters that are stripped. */
  lemma WhiteSpace(c: char)
    ensures IsSpace(c) <==>
            c in " \t\n\r\U{B}\U{C}\U{1C}\U{1D}\U{1E}\U{1F}\U{85}\U{A0}\U{1680}\U{2000}\U{2001}\U{2002}\U{2003}"
              + "\U{2004}\U{2005}\U{2006}\U{2007}\U{2008}\U{2009}\U{200A}\U{2028}\U{2029}\U{202F}\U{205F}\U{3000}"
  {}
}
