/** How the assumptions table is read, and when it reads back what was printed. */
module AssumptionParser {
  import opened Basics
  import opened Text
  import opened AssumptionTable

  predicate IsTableLine(line: string) {
    Strip(line) != "" && Strip(line)[0] == '|'
  }

  function TableLines(lines: seq<string>): seq<string> {
    if lines == [] then []
    else if IsTableLine(lines[0]) then [lines[0]] + TableLines(lines[1..])
    else TableLines(lines[1..])
  }

  /** A line without its outer pipes. */
  function RowBody(line: string): string {
    var t := Strip(line);
    var u := if t != "" && t[0] == '|' then t[1..] else t;
    if u != "" && u[|u| - 1] == '|' then u[..|u| - 1] else u
  }

  function ParseRow(line: string): Option<AssumptionRow> {
    var cells := SplitPipes(RowBody(line));
    if |cells| == 4 then Some(Trimmed(RowOf(cells))) else None
  }

  function ParseRows(lines: seq<string>): Option<seq<AssumptionRow>> {
    if lines == [] then Some([]) else
    var first, rest := ParseRow(lines[0]), ParseRows(lines[1..]);
    if first.None? || rest.None? then None else Some([first.value] + rest.value)
  }

  /** `_parse_table`: None is the error of a malformed store. */
  function ParseTable(text: string): Option<seq<AssumptionRow>> {
    var lines := TableLines(SplitLines(text));
    if lines == [] then Some([])
    else if |lines| < 2 then None
    else ParseRows(lines[2..])
  }

  lemma {:induction false} TableLinesStartWithAPipe(lines: seq<string>)
    ensures forall l :: l in TableLines(lines) <==> l in lines && Strip(l) != "" && Strip(l)[0] == '|'
  {
    if lines != [] {
      TableLinesStartWithAPipe(lines[1..]);
      assert lines == [lines[0]] + lines[1..];
    }
  }

  /** A text without a line that starts with a pipe is a table without rows; one with only a header is malformed. */
  lemma NoTableIsNoRows(text: string)
    ensures (forall l | l in SplitLines(text) :: Strip(l) == "" || Strip(l)[0] != '|') ==> ParseTable(text) == Some([])
    ensures |TableLines(SplitLines(text))| == 1 ==> ParseTable(text) == None
  {
    var lines := TableLines(SplitLines(text));
    TableLinesStartWithAPipe(SplitLines(text));
    if lines != [] { assert lines[0] in lines; }
  }

  predicate OneLineRow(row: AssumptionRow) {
    OneLine(row.axis) && OneLine(row.options) && OneLine(row.position) && OneLine(row.triggers)
  }

  function TrimmedRows(rows: seq<AssumptionRow>): seq<AssumptionRow> {
    if rows == [] then [] else [Trimmed(rows[0])] + TrimmedRows(rows[1..])
  }

  // ---------------------------------------------------------------- strip

  lemma {:induction false} StripLeftPadded(a: string, s: string)
    requires Blank(a)
    ensures StripLeft(a + s) == StripLeft(s)
  {
    if a == "" {
      assert a + s == s;
    } else {
      assert (a + s)[1..] == a[1..] + s;
      StripLeftPadded(a[1..], s);
    }
  }

  lemma {:induction false} StripRightPadded(s: string, b: string)
    requires Blank(b)
    ensures StripRight(s + b) == StripRight(s)
    decreases |b|
  {
    if b == "" {
      assert s + b == s;
    } else {
      assert (s + b)[..|s + b| - 1] == s + b[..|b| - 1];
      StripRightPadded(s, b[..|b| - 1]);
    }
  }

  /** Text between two characters that are not white space strips to itself. */
  lemma StripAnchored(a: string, s: string, b: string)
    requires Blank(a) && Blank(b) && s != "" && !IsSpace(s[0]) && !IsSpace(s[|s| - 1])
    ensures Strip(a + s + b) == s
  {
    assert a + s + b == a + (s + b);
    StripLeftPadded(a, s + b);
    StripRightPadded(s, b);
  }

  lemma {:induction false} StripLeftIs(s: string) returns (i: nat)
    ensures i <= |s| && StripLeft(s) == s[i..] && Blank(s[..i])
    ensures i < |s| ==> !IsSpace(s[i])
  {
    if s != "" && IsSpace(s[0]) {
      i := StripLeftIs(s[1..]);
      assert s[1..][i..] == s[i + 1..];
      assert forall n | 0 <= n < i + 1 :: s[n] == if n == 0 then s[0] else s[1..][..i][n - 1];
      i := i + 1;
    } else {
      i := 0;
    }
  }

  lemma {:induction false} StripRightIs(s: string) returns (j: nat)
    ensures j <= |s| && StripRight(s) == s[..j] && Blank(s[j..])
    ensures j > 0 ==> !IsSpace(s[j - 1])
    decreases |s|
  {
    if s != "" && IsSpace(s[|s| - 1]) {
      j := StripRightIs(s[..|s| - 1]);
      assert s[..|s| - 1][..j] == s[..j];
      assert forall n | j <= n < |s| :: s[n] == if n == |s| - 1 then s[n] else s[..|s| - 1][j..][n - j];
    } else {
      j := |s|;
    }
  }

  /** Stripping cuts white space off both ends and stops at the first other character. */
  lemma StripIs(s: string) returns (i: nat, j: nat)
    ensures i <= j <= |s| && Strip(s) == s[i..j] && Blank(s[..i]) && Blank(s[j..])
    ensures i < j ==> !IsSpace(s[i]) && !IsSpace(s[j - 1])
  {
    i := StripLeftIs(s);
    var n := StripRightIs(s[i..]);
    j := i + n;
    assert s[i..][..n] == s[i..j] && s[i..][n..] == s[j..];
    if n > 0 { assert s[i..][n - 1] == s[j - 1]; }
  }

  lemma StripTwice(s: string)
    ensures Strip(" " + s + " ") == Strip(s) && Strip(" " + s) == Strip(s)
  {
    assert " " + s + " " == " " + (s + " ");
    StripLeftPadded(" ", s + " ");
    StripLeftPadded(" ", s);
    StripRightPadded(StripLeft(s), " ");
    var i := StripLeftIs(s);
    if i < |s| {
      assert s + " " == s[..i] + (s[i..] + " ");
      StripLeftPadded(s[..i], s[i..] + " ");
    } else {
      assert s[..i] == s && s + " " == s + (" " + "");
      StripLeftPadded(s, " ");
      assert StripLeft(" ") == StripLeft(" "[1..]);
    }
  }

  // ---------------------------------------------------------------- a whole row reads back

  /** The outer pipes of a line go. */
  lemma OuterPipesGo(body: string)
    ensures IsTableLine("|" + body + " |") && RowBody("|" + body + " |") == body + " "
  {
    var line := "|" + body + " |";
    assert "" + line + "" == line;
    StripAnchored("", line, "");
    assert line[1..] == body + " |";
    assert (body + " |")[..|body| + 1] == body + " ";
  }

  lemma RenderedRowBody(row: AssumptionRow)
    ensures IsTableLine(RenderRow(row)) && RowBody(RenderRow(row)) == Body(Columns(row)) + " "
  {
    OuterPipesGo(Body(Columns(row)));
  }

  lemma RowReadsBack(row: AssumptionRow)
    ensures IsTableLine(RenderRow(row)) && ParseRow(RenderRow(row)) == Some(Trimmed(row))
  {
    RenderedRowBody(row);
    assert " "[1..] == "" && " " + "" == " ";
    BodySplits(Columns(row), " ");
    SpacedColumns(row);
    StripTwice(row.axis);
    StripTwice(row.options);
    StripTwice(row.position);
    StripTwice(row.triggers);
  }

  lemma SpacedColumns(row: AssumptionRow)
    ensures Spaced(Columns(row), " ") ==
            [" " + row.axis + " ", " " + row.options + " ", " " + row.position + " ", " " + row.triggers + " "]
  {
    var c := Columns(row);
    assert c[1..] == [row.options, row.position, row.triggers];
    assert c[1..][1..] == [row.position, row.triggers];
    assert c[1..][1..][1..] == [row.triggers];
    assert Spaced([row.triggers], " ") == [" " + row.triggers + " "];
    assert Spaced([row.position, row.triggers], " ") == [" " + row.position + " "] + Spaced([row.triggers], " ");
    assert Spaced(c[1..], " ") == [" " + row.options + " "] + Spaced([row.position, row.triggers], " ");
  }

  // ---------------------------------------------------------------- lines

  /** What is left of a text after the break that `rest` follows. */
  function AfterBreak(b: char, rest: string): string {
    if b == '\r' && rest != "" && rest[0] == '\n' then rest[1..] else rest
  }

  lemma FirstLine(line: string, b: char, rest: string)
    requires OneLine(line) && IsBreak(b)
    ensures SplitLines(line + [b] + rest) == [line] + SplitLines(AfterBreak(b, rest))
  {
    var text := line + [b] + rest;
    assert text == line + ([b] + rest);
    LineEndAt(line, [b] + rest);
    assert text[|line|..] == [b] + rest;
    assert text[|line| + 1..] == rest;
    if b == '\r' && rest != "" && rest[0] == '\n' {
      assert text[|line| + 2..] == rest[1..];
    }
  }

  lemma AfterBreakExtends(b: char, x: string, rest: string)
    requires rest != "" && rest[0] != '\n'
    ensures AfterBreak(b, x + rest) == AfterBreak(b, x) + rest
  {
    if x != "" { assert (x + rest)[1..] == x[1..] + rest; } else { assert x + rest == rest; }
  }

  /** A text that starts with a blank line has the table lines of what follows. */
  lemma BlankLineSkipped(w: string, n: nat, rest: string)
    requires Blank(w) && n < |w| && OneLine(w[..n]) && IsBreak(w[n])
    requires rest != "" && rest[0] == ' '
    ensures var w' := AfterBreak(w[n], w[n + 1..]);
            |w'| < |w| && Blank(w') && TableLines(SplitLines(w + rest)) == TableLines(SplitLines(w' + rest))
  {
    var after := w[n + 1..];
    assert w + rest == w[..n] + [w[n]] + (after + rest);
    FirstLine(w[..n], w[n], after + rest);
    AfterBreakExtends(w[n], after, rest);
    BlankLine(w[..n]);
  }

  /** The end of a row whose last cell ends in white space that contains a break. */
  lemma {:induction false} BlankEndOfRow(w: string, tail: string) returns (v: string)
    requires Blank(w)
    ensures Blank(v)
    ensures TableLines(SplitLines(w + (" |\n" + tail))) == [v + " |"] + TableLines(SplitLines(tail))
    decreases |w|
  {
    var n := LineEnd(w);
    if n == |w| {
      v := w;
      assert w[..n] == w;
      assert w + (" |\n" + tail) == (w + " |") + ['\n'] + tail;
      FirstLine(w + " |", '\n', tail);
      BarLine(w);
    } else {
      BlankLineSkipped(w, n, " |\n" + tail);
      v := BlankEndOfRow(AfterBreak(w[n], w[n + 1..]), tail);
    }
  }

  lemma BarLine(w: string)
    requires Blank(w)
    ensures IsTableLine(w + " |") && ParseRow(w + " |").None?
  {
    assert w + " |" == (w + " ") + "|" + "";
    StripAnchored(w + " ", "|", "");
    assert SplitPipes("") == [""];
  }

  lemma BlankLine(w: string)
    requires Blank(w)
    ensures !IsTableLine(w)
  {
    StripLeftPadded(w, "");
    assert w + "" == w;
  }

  lemma BadHeadSpoilsAll(lines: seq<string>)
    requires lines != [] && ParseRow(lines[0]).None?
    ensures ParseRows(lines).None?
  {
  }

  lemma BadTailSpoilsAll(lines: seq<string>)
    requires lines != [] && ParseRows(lines[1..]).None?
    ensures ParseRows(lines).None?
  {
  }

  lemma {:induction false} OneBadLineSpoilsAll(lines: seq<string>, n: nat)
    requires n < |lines| && ParseRow(lines[n]).None?
    ensures ParseRows(lines).None?
  {
    if n == 0 {
      BadHeadSpoilsAll(lines);
    } else {
      OneBadLineSpoilsAll(lines[1..], n - 1);
      BadTailSpoilsAll(lines);
    }
  }

  // ---------------------------------------------------------------- a broken row never reads back

  lemma {:induction false} FewerCellsInAPrefix(s: string, n: nat)
    requires n <= |s|
    ensures |SplitPipes(s[..n])| <= |SplitPipes(s)|
    decreases |s|
  {
    if n > 0 {
      if |s| > 1 && s[0] == '\\' && s[1] == '|' {
        if n >= 2 {
          assert s[..n][2..] == s[2..][..n - 2];
          FewerCellsInAPrefix(s[2..], n - 2);
        } else {
          assert s[..n][1..] == "";
        }
      } else {
        assert s[..n][1..] == s[1..][..n - 1];
        FewerCellsInAPrefix(s[1..], n - 1);
      }
    }
  }

  lemma PrependKeepsOneLine(text: string, cells: seq<string>)
    requires cells != [] && forall c | c in cells :: OneLine(c)
    ensures OneLine(text) ==> forall c | c in Prepend(text, cells) :: OneLine(c)
  {
    assert cells[0] in cells;
    forall c | c in Prepend(text, cells) && OneLine(text) ensures OneLine(c) {
      assert c == text + cells[0] || c in cells;
    }
  }

  lemma {:induction false} CellsOfOneLine(s: string)
    requires OneLine(s)
    ensures forall c | c in SplitPipes(s) :: OneLine(c)
    decreases |s|
  {
    if s == "" {
    } else if |s| > 1 && s[0] == '\\' && s[1] == '|' {
      CellsOfOneLine(s[2..]);
      PrependKeepsOneLine("|", SplitPipes(s[2..]));
    } else {
      CellsOfOneLine(s[1..]);
      PrependKeepsOneLine([s[0]], SplitPipes(s[1..]));
    }
  }

  lemma StripKeepsOneLine(s: string)
    requires OneLine(s)
    ensures OneLine(Strip(s))
  {
    var i, j := StripIs(s);
  }

  lemma Shave(s: string, i: nat, j: nat)
    requires i < j <= |s|
    ensures s[i..j][1..] == s[i + 1..j] && s[i..j][..j - i - 1] == s[i..j - 1]
    ensures s[i..j][0] == s[i] && s[i..j][j - i - 1] == s[j - 1]
  {
  }

  /** What the parser makes of a line is cut out of that line. */
  lemma RowBodyIsAPart(line: string) returns (i: nat, j: nat)
    ensures i <= j <= |line| && RowBody(line) == line[i..j]
    ensures line != "" && line[0] == '|' ==> i == 1
  {
    i, j := StripIs(line);
    if i < j {
      Shave(line, i, j);
      if line[i] == '|' { i := i + 1; }
    }
    if i < j {
      Shave(line, i, j);
      if line[j - 1] == '|' { j := j - 1; }
    }
  }

  // ---------------------------------------------------------------- where a row breaks

  /** The first cell of a row that holds a break, and the parts of it around its first break. */
  datatype Breakage = Breakage(k: nat, p: string, b: char, q: string)

  ghost predicate BreaksAt(cells: seq<string>, x: Breakage) {
    && x.k < |cells| && cells[x.k] == x.p + [x.b] + x.q
    && OneLine(x.p) && IsBreak(x.b) && (forall i | 0 <= i < x.k :: OneLine(cells[i]))
  }

  /** The cells that are left of a row cut at its first break. */
  function Fragment(cells: seq<string>, x: Breakage): (r: seq<string>)
    requires x.k < |cells|
    ensures |r| == x.k + 1
  {
    cells[..x.k] + [x.p]
  }

  lemma {:induction false} FindBreakage(cells: seq<string>) returns (x: Breakage)
    requires exists i :: 0 <= i < |cells| && !OneLine(cells[i])
    ensures BreaksAt(cells, x)
  {
    if !OneLine(cells[0]) {
      var n := LineEnd(cells[0]);
      assert cells[0][..|cells[0]|] == cells[0];
      x := Breakage(0, cells[0][..n], cells[0][n], cells[0][n + 1..]);
      assert cells[0] == x.p + [x.b] + x.q;
    } else {
      var i :| 0 <= i < |cells| && !OneLine(cells[i]);
      assert cells[1..][i - 1] == cells[i];
      x := FindBreakage(cells[1..]);
      assert forall j | 1 <= j < |cells| :: cells[j] == cells[1..][j - 1];
      x := x.(k := x.k + 1);
    }
  }

  lemma {:induction false} EscapeConcat(a: string, b: string)
    ensures Escape(a + b) == Escape(a) + Escape(b)
  {
    if a == "" {
      assert a + b == b;
    } else {
      assert (a + b)[1..] == a[1..] + b;
      EscapeConcat(a[1..], b);
    }
  }

  lemma {:induction false} EscapeKeepsOneLine(cell: string)
    requires OneLine(cell)
    ensures OneLine(Escape(cell))
  {
    if cell != "" { EscapeKeepsOneLine(cell[1..]); }
  }

  lemma CellBreaks(p: string, b: char, q: string)
    requires OneLine(p) && IsBreak(b)
    ensures Escape(p + [b] + q) == Escape(p) + ([b] + Escape(q)) && OneLine(Escape(p))
  {
    EscapeConcat(p + [b], q);
    EscapeConcat(p, [b]);
    assert Escape([b]) == [b] by { assert [b][1..] == ""; }
    EscapeKeepsOneLine(p);
  }

  lemma FirstBodyBreaks(cells: seq<string>, x: Breakage) returns (rest: string)
    requires BreaksAt(cells, x) && x.k == 0
    ensures Body(cells) == Body(Fragment(cells, x)) + ([x.b] + rest) && OneLine(Body(Fragment(cells, x)))
    ensures |cells| == 1 ==> rest == Escape(x.q)
  {
    var others := if |cells| == 1 then "" else " |" + Body(cells[1..]);
    rest := Escape(x.q) + others;
    CellBreaks(x.p, x.b, x.q);
    assert Fragment(cells, x) == [x.p];
    assert Body([x.p]) == " " + Escape(x.p);
  }

  /** The rendered cells up to the break, the break, and the rest. */
  lemma {:induction false} BodyBreaks(cells: seq<string>, x: Breakage) returns (rest: string)
    requires BreaksAt(cells, x)
    ensures Body(cells) == Body(Fragment(cells, x)) + ([x.b] + rest)
    ensures OneLine(Body(Fragment(cells, x)))
    ensures x.k == |cells| - 1 ==> rest == Escape(x.q)
    decreases |cells|
  {
    if x.k == 0 {
      rest := FirstBodyBreaks(cells, x);
    } else {
      LaterBreak(cells, x);
      rest := BodyBreaks(cells[1..], x.(k := x.k - 1));
      LaterBodyBreaks(cells, x, rest);
    }
  }

  lemma LaterBreak(cells: seq<string>, x: Breakage)
    requires BreaksAt(cells, x) && x.k > 0
    ensures BreaksAt(cells[1..], x.(k := x.k - 1))
    ensures Fragment(cells, x)[0] == cells[0] && Fragment(cells, x)[1..] == Fragment(cells[1..], x.(k := x.k - 1))
  {
    assert forall j | 1 <= j < |cells| :: cells[j] == cells[1..][j - 1];
  }

  /** One more cell before the break. */
  lemma LaterBodyBreaks(cells: seq<string>, x: Breakage, rest: string)
    requires BreaksAt(cells, x) && x.k > 0 && BreaksAt(cells[1..], x.(k := x.k - 1))
    requires var part := Body(Fragment(cells[1..], x.(k := x.k - 1)));
             Body(cells[1..]) == part + ([x.b] + rest) && OneLine(part)
    ensures Body(cells) == Body(Fragment(cells, x)) + ([x.b] + rest)
    ensures OneLine(Body(Fragment(cells, x)))
  {
    LaterBreak(cells, x);
    EscapeKeepsOneLine(cells[0]);
    Regroup(" " + Escape(cells[0]), " |", Body(Fragment(cells[1..], x.(k := x.k - 1))), [x.b] + rest);
  }

  /** The first line of a broken row, and the text after it. */
  lemma BrokenRowLines(row: AssumptionRow, x: Breakage, tail: string) returns (rest: string)
    requires BreaksAt(Columns(row), x)
    ensures TableLines(SplitLines(RenderRow(row) + "\n" + tail)) ==
            ["|" + Body(Fragment(Columns(row), x))] + TableLines(SplitLines(AfterBreak(x.b, rest + (" |\n" + tail))))
    ensures x.k == 3 ==> rest == Escape(x.q)
  {
    var body := Body(Fragment(Columns(row), x));
    rest := BodyBreaks(Columns(row), x);
    assert RenderRow(row) + "\n" + tail == ("|" + body) + [x.b] + (rest + (" |\n" + tail));
    FirstLine("|" + body, x.b, rest + (" |\n" + tail));
    StartsWithBar(body);
  }

  lemma StartsWithBar(s: string)
    ensures IsTableLine("|" + s)
  {
    var i, j := StripIs("|" + s);
  }

  // ---------------------------------------------------------------- the round trip

  lemma {:induction false} EscapeBlank(q: string)
    requires Blank(q)
    ensures Escape(q) == q
  {
    if q != "" {
      EscapeBlank(q[1..]);
      assert q == [q[0]] + q[1..];
    }
  }

  lemma FragmentCells(cells: seq<string>, x: Breakage)
    requires BreaksAt(cells, x)
    ensures |SplitPipes(RowBody("|" + Body(Fragment(cells, x))))| <= x.k + 1
    ensures OneLine(RowBody("|" + Body(Fragment(cells, x))))
  {
    var rest := BodyBreaks(cells, x);
    var body := Body(Fragment(cells, x));
    var i, j := RowBodyIsAPart("|" + body);
    assert ("|" + body)[1..j] == body[..j - 1];
    FewerCellsInAPrefix(body, j - 1);
    assert SplitPipes("") == [""] && body + "" == body;
    BodySplits(Fragment(cells, x), "");
  }

  lemma {:induction false} BodySnoc(cells: seq<string>, p: string)
    requires cells != []
    ensures Body(cells + [p]) == Body(cells) + " |" + (" " + Escape(p))
  {
    if |cells| == 1 {
      assert (cells + [p])[1..] == [p];
    } else {
      assert (cells + [p])[1..] == cells[1..] + [p];
      BodySnoc(cells[1..], p);
      Regroup(" " + Escape(cells[0]), " |", Body(cells[1..]), " |" + (" " + Escape(p)));
    }
  }

  /** A row cut in the white space before its last cell lost that cell. */
  lemma BlankLastCellIsLost(cells: seq<string>, p: string)
    requires |cells| == 3 && Blank(p)
    ensures |SplitPipes(RowBody("|" + Body(cells + [p])))| == 3
  {
    var body := Body(cells);
    BodySnoc(cells, p);
    EscapeBlank(p);
    assert "|" + (body + " |" + (" " + p)) == "|" + body + " |" + (" " + p);
    BlankAfterBar(body, p);
    OneSpaceCell();
    BodySplits(cells, " ");
  }

  /** White space after the last pipe goes, and the pipe with it. */
  lemma BlankAfterBar(body: string, p: string)
    requires Blank(p)
    ensures RowBody("|" + body + " |" + (" " + p)) == body + " "
  {
    var line := "|" + body + " |";
    assert "" + line + (" " + p) == line + (" " + p);
    StripAnchored("", line, " " + p);
    var inner := body + " |";
    assert line[1..] == inner;
    assert inner[..|inner| - 1] == body + " ";
  }

  lemma OneSpaceCell()
    ensures SplitPipes(" ") == [" "]
  {
    assert " "[1..] == "" && " " + "" == " ";
  }

  lemma TextStays(d: string, i: nat, j: nat, m: nat)
    requires i <= j <= |d| && Blank(d[..i]) && Blank(d[j..]) && m < |d| && !IsSpace(d[m])
    ensures i <= m < j
  {
    forall t | 0 <= t < i ensures IsSpace(d[t]) { assert d[..i][t] == d[t]; }
    forall t | j <= t < |d| ensures IsSpace(d[t]) { assert d[j..][t - j] == d[t]; }
  }

  /** Stripping cannot remove a break that has other text on both sides. */
  lemma InnerBreakSurvives(p: string, b: char, q: string)
    requires IsBreak(b) && !Blank(p) && !Blank(q)
    ensures !OneLine(Strip(p + [b] + q))
  {
    var d := p + [b] + q;
    var i, j := StripIs(d);
    var m :| 0 <= m < |p| && !IsSpace(p[m]);
    var n :| 0 <= n < |q| && !IsSpace(q[n]);
    assert d[m] == p[m] && d[|p| + 1 + n] == q[n];
    TextStays(d, i, j, m);
    TextStays(d, i, j, |p| + 1 + n);
    assert Strip(d)[|p| - i] == d[|p|];
  }

  lemma BrokenRowNeverReadsBack(row: AssumptionRow, tail: string)
    requires !OneLineRow(row)
    ensures var lines := TableLines(SplitLines(RenderRow(row) + "\n" + tail));
            lines != [] && (ParseRow(lines[0]) != Some(Trimmed(row)) || ParseRows(lines).None?)
  {
    var cells := Columns(row);
    assert !OneLine(cells[0]) || !OneLine(cells[1]) || !OneLine(cells[2]) || !OneLine(cells[3]);
    var x := FindBreakage(cells);
    var rest := BrokenRowLines(row, x, tail);
    FragmentCells(cells, x);
    if x.k == 3 {
      if Blank(x.q) {
        EscapeBlank(x.q);
        AfterBreakExtends(x.b, x.q, " |\n" + tail);
        var v := BlankEndOfRow(AfterBreak(x.b, x.q), tail);
        BarLine(v);
        OneBadLineSpoilsAll(TableLines(SplitLines(RenderRow(row) + "\n" + tail)), 1);
      } else if Blank(x.p) {
        BlankLastCellIsLost(cells[..3], x.p);
      } else {
        InnerBreakSurvives(x.p, x.b, x.q);
        FragmentReadsOneLine("|" + Body(Fragment(cells, x)));
      }
    }
  }

  lemma FragmentReadsOneLine(line: string)
    requires OneLine(RowBody(line))
    ensures ParseRow(line).Some? ==> OneLine(ParseRow(line).value.triggers)
  {
    CellsOfOneLine(RowBody(line));
    if |SplitPipes(RowBody(line))| == 4 {
      assert SplitPipes(RowBody(line))[3] in SplitPipes(RowBody(line));
      StripKeepsOneLine(SplitPipes(RowBody(line))[3]);
    }
  }

  lemma RenderedRowIsOneLine(row: AssumptionRow)
    requires OneLineRow(row)
    ensures OneLine(RenderRow(row))
  {
    BodyKeepsOneLine(Columns(row));
  }

  lemma {:induction false} BodyKeepsOneLine(cells: seq<string>)
    requires cells != [] && forall c | c in cells :: OneLine(c)
    ensures OneLine(Body(cells))
  {
    EscapeKeepsOneLine(cells[0]);
    if |cells| > 1 { BodyKeepsOneLine(cells[1..]); }
  }

  lemma GoodRowLines(head: AssumptionRow, tail: string)
    requires OneLineRow(head)
    ensures TableLines(SplitLines(RenderRow(head) + "\n" + tail)) == [RenderRow(head)] + TableLines(SplitLines(tail))
    ensures ParseRow(RenderRow(head)) == Some(Trimmed(head))
  {
    RenderedRowIsOneLine(head);
    FirstLine(RenderRow(head), '\n', tail);
    RowReadsBack(head);
  }

  lemma GoodRowDecides(line: string, lines: seq<string>, head: AssumptionRow, rows: seq<AssumptionRow>)
    requires ParseRow(line) == Some(Trimmed(head))
    ensures ParseRows([line] + lines) == Some(TrimmedRows([head] + rows))
            <==> ParseRows(lines) == Some(TrimmedRows(rows))
  {
    assert ([line] + lines)[1..] == lines && ([head] + rows)[1..] == rows;
    if ParseRows(lines).Some? {
      var trimmed := ParseRows(lines).value;
      assert ([Trimmed(head)] + trimmed)[1..] == trimmed;
      assert ([Trimmed(head)] + TrimmedRows(rows))[1..] == TrimmedRows(rows);
    }
  }

  lemma BadRowDecides(lines: seq<string>, head: AssumptionRow, rows: seq<AssumptionRow>)
    requires lines != [] && (ParseRow(lines[0]) != Some(Trimmed(head)) || ParseRows(lines).None?)
    ensures ParseRows(lines) != Some(TrimmedRows([head] + rows))
  {
    if ParseRows(lines).Some? {
      assert ParseRows(lines).value[0] == ParseRow(lines[0]).value;
      assert TrimmedRows([head] + rows)[0] == Trimmed(head);
    }
  }

  lemma {:induction false} RowsReadBackExactly(rows: seq<AssumptionRow>)
    ensures ParseRows(TableLines(SplitLines(JoinLines(RenderRows(rows))))) == Some(TrimmedRows(rows))
            <==> forall row | row in rows :: OneLineRow(row)
  {
    if rows == [] {
      assert JoinLines(RenderRows(rows)) == "";
    } else {
      var head, tail := rows[0], JoinLines(RenderRows(rows[1..]));
      assert JoinLines(RenderRows(rows)) == RenderRow(head) + "\n" + tail by {
        assert RenderRows(rows)[1..] == RenderRows(rows[1..]);
      }
      RowsReadBackExactly(rows[1..]);
      assert rows == [head] + rows[1..];
      if OneLineRow(head) {
        GoodRowLines(head, tail);
        GoodRowDecides(RenderRow(head), TableLines(SplitLines(tail)), head, rows[1..]);
      } else {
        BrokenRowNeverReadsBack(head, tail);
        BadRowDecides(TableLines(SplitLines(RenderRow(head) + "\n" + tail)), head, rows[1..]);
      }
    }
  }

  /** A line that starts with a pipe is a table line of its own. */
  lemma BarLineFirst(line: string, lines: seq<string>)
    requires OneLine(line) && line != "" && line[0] == '|'
    ensures TableLines(SplitLines(JoinLines([line] + lines))) == [line] + TableLines(SplitLines(JoinLines(lines)))
  {
    assert ([line] + lines)[1..] == lines;
    FirstLine(line, '\n', JoinLines(lines));
    StartsWithBar(line[1..]);
    assert "|" + line[1..] == line;
  }

  lemma TableHead(header: string, separator: string, lines: seq<string>)
    requires OneLine(header) && OneLine(separator)
    requires header != "" && header[0] == '|' && separator != "" && separator[0] == '|'
    ensures TableLines(SplitLines(JoinLines([header, separator] + lines)))
            == [header, separator] + TableLines(SplitLines(JoinLines(lines)))
  {
    assert [header, separator] + lines == [header] + ([separator] + lines);
    BarLineFirst(header, [separator] + lines);
    BarLineFirst(separator, lines);
  }

  lemma HeadIsTableLines()
    ensures OneLine(HEADER) && OneLine(SEPARATOR)
    ensures HEADER != "" && HEADER[0] == '|' && SEPARATOR != "" && SEPARATOR[0] == '|'
  {
  }

  lemma ParsedUnderHead(text: string, header: string, separator: string, lines: seq<string>)
    requires TableLines(SplitLines(text)) == [header, separator] + lines
    ensures ParseTable(text) == ParseRows(lines)
  {
    assert ([header, separator] + lines)[2..] == lines;
  }

  /**
   A printed table reads back as its rows with trimmed cells exactly when no cell contains a character
   that `str.splitlines` breaks at. Pipes, backslashes and escaped pipes in cells never matter.
   */
  lemma TableRoundTrip(rows: seq<AssumptionRow>)
    ensures ParseTable(RenderTable(rows)) == Some(TrimmedRows(rows)) <==> forall row | row in rows :: OneLineRow(row)
  {
    HeadIsTableLines();
    TableHead(HEADER, SEPARATOR, RenderRows(rows));
    ParsedUnderHead(RenderTable(rows), HEADER, SEPARATOR, TableLines(SplitLines(JoinLines(RenderRows(rows)))));
    RowsReadBackExactly(rows);
  }
}
