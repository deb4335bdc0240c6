/** The product-assumptions table: how it is printed and how it is read back. */
module AssumptionTable {
  import opened Basics
  import opened Text

  datatype AssumptionRow = AssumptionRow(axis: string, options: string, position: string, triggers: string)

  function Columns(row: AssumptionRow): seq<string> {
    [row.axis, row.options, row.position, row.triggers]
  }

  function RowOf(cells: seq<string>): AssumptionRow
    requires |cells| == 4
  {
    AssumptionRow(cells[0], cells[1], cells[2], cells[3])
  }

  /** Every cell without the white space around it. */
  function Trimmed(row: AssumptionRow): AssumptionRow {
    AssumptionRow(Strip(row.axis), Strip(row.options), Strip(row.position), Strip(row.triggers))
  }

  // ---------------------------------------------------------------- printing

  /** `cell.replace("|", "\\|")` */
  function Escape(cell: string): string {
    if cell == "" then ""
    else (if cell[0] == '|' then "\\|" else [cell[0]]) + Escape(cell[1..])
  }

  /** `" " + " | ".join(escaped cells)` */
  function Body(cells: seq<string>): string
    requires cells != []
  {
    " " + Escape(cells[0]) + (if |cells| == 1 then "" else " |" + Body(cells[1..]))
  }

  /** One line of the table. */
  function RenderRow(row: AssumptionRow): string {
    "|" + Body(Columns(row)) + " |"
  }

  const HEADER := "| axis | options | position | triggers |"
  const SEPARATOR := "| -- | -- | -- | -- |"

  function RenderRows(rows: seq<AssumptionRow>): (lines: seq<string>) {
    if rows == [] then [] else [RenderRow(rows[0])] + RenderRows(rows[1..])
  }

  function RenderTable(rows: seq<AssumptionRow>): string {
    JoinLines([HEADER, SEPARATOR] + RenderRows(rows))
  }

  // ---------------------------------------------------------------- splitting

  /** Text that turned out to stand before the first of `cells`. */
  function Prepend(text: string, cells: seq<string>): (r: seq<string>)
    requires cells != []
    ensures |r| == |cells|
  {
    [text + cells[0]] + cells[1..]
  }

  /** The cells of a row body: cut at every pipe that no backslash precedes, with `\|` read as a pipe. */
  function SplitPipes(body: string): (cells: seq<string>)
    ensures |cells| >= 1
    decreases |body|
  {
    if body == "" then [""]
    else if |body| > 1 && body[0] == '\\' && body[1] == '|' then Prepend("|", SplitPipes(body[2..]))
    else if body[0] == '|' then [""] + SplitPipes(body[1..])
    else Prepend([body[0]], SplitPipes(body[1..]))
  }

  lemma PrependTwice(a: string, b: string, cells: seq<string>)
    requires cells != []
    ensures Prepend(a, Prepend(b, cells)) == Prepend(a + b, cells)
    ensures Prepend("", cells) == cells
  {
    assert a + (b + cells[0]) == (a + b) + cells[0];
    assert "" + cells[0] == cells[0];
  }

  lemma PipeEndsCell(buf: string, rest: string)
    ensures Prepend(buf, SplitPipes("|" + rest)) == [buf] + Prepend("", SplitPipes(rest))
  {
    assert ("|" + rest)[1..] == rest && buf + "" == buf;
    PrependTwice("", "", SplitPipes(rest));
  }

  lemma EscapedPipeFirst(rest: string)
    ensures SplitPipes("\\|" + rest) == Prepend("|", SplitPipes(rest))
  {
    assert ("\\|" + rest)[2..] == rest;
  }

  lemma OtherCharFirst(c: char, rest: string)
    requires c != '|' && !(c == '\\' && rest != "" && rest[0] == '|')
    ensures SplitPipes([c] + rest) == Prepend([c], SplitPipes(rest))
  {
    assert ([c] + rest)[1..] == rest;
  }

  lemma EscapedPipeIsText(buf: string, rest: string)
    ensures Prepend(buf, SplitPipes("\\|" + rest)) == Prepend(buf + "|", SplitPipes(rest))
  {
    EscapedPipeFirst(rest);
    PrependTwice(buf, "|", SplitPipes(rest));
  }

  lemma OtherCharIsText(buf: string, c: char, rest: string)
    requires c != '|' && !(c == '\\' && rest != "" && rest[0] == '|')
    ensures Prepend(buf, SplitPipes([c] + rest)) == Prepend(buf + [c], SplitPipes(rest))
  {
    OtherCharFirst(c, rest);
    PrependTwice(buf, [c], SplitPipes(rest));
  }

  predicate EscapedPipeAt(body: string, i: nat)
    requires i < |body|
  {
    body[i] == '\\' && i + 1 < |body| && body[i + 1] == '|'
  }

  /** What one round of the loop does to the cells that are still to come. */
  lemma RoundKeepsCells(body: string, i: nat, buf: string)
    requires i < |body|
    ensures EscapedPipeAt(body, i) ==>
              Prepend(buf, SplitPipes(body[i..])) == Prepend(buf + "|", SplitPipes(body[i + 2..]))
    ensures body[i] == '|' ==> Prepend(buf, SplitPipes(body[i..])) == [buf] + Prepend("", SplitPipes(body[i + 1..]))
    ensures body[i] != '|' && !EscapedPipeAt(body, i) ==>
              Prepend(buf, SplitPipes(body[i..])) == Prepend(buf + [body[i]], SplitPipes(body[i + 1..]))
  {
    var rest := body[i + 1..];
    assert body[i..] == [body[i]] + rest;
    if EscapedPipeAt(body, i) {
      assert body[i..] == "\\|" + body[i + 2..];
      EscapedPipeIsText(buf, body[i + 2..]);
    } else if body[i] == '|' {
      PipeEndsCell(buf, rest);
    } else {
      OtherCharIsText(buf, body[i], rest);
    }
  }

  /** `_split_unescaped_pipes` */
  method SplitUnescapedPipes(body: string) returns (cells: seq<string>)
    ensures cells == SplitPipes(body)
  {
    cells := [];
    var buf := "";
    var i := 0;
    PrependTwice("", "", SplitPipes(body));
    assert body[0..] == body;
    while i < |body|
      invariant i <= |body|
      invariant cells + Prepend(buf, SplitPipes(body[i..])) == SplitPipes(body)
    {
      RoundKeepsCells(body, i, buf);
      if body[i] == '\\' && i + 1 < |body| && body[i + 1] == '|' {
        buf := buf + "|";
        i := i + 2;
        continue;
      }
      if body[i] == '|' {
        cells := cells + [buf];
        buf := "";
        i := i + 1;
        continue;
      }
      buf := buf + [body[i]];
      i := i + 1;
    }
    assert Prepend(buf, SplitPipes(body[|body|..])) == [buf] by { assert buf + "" == buf; }
    cells := cells + [buf];
  }

  /** A cell comes back unescaped, provided no pipe follows it at once. */
  lemma {:induction false} EscapedCellSplits(cell: string, rest: string)
    requires rest == "" || rest[0] != '|'
    ensures SplitPipes(Escape(cell) + rest) == Prepend(cell, SplitPipes(rest))
  {
    if cell == "" {
      assert Escape(cell) + rest == rest;
      PrependTwice("", "", SplitPipes(rest));
    } else {
      EscapedCellSplits(cell[1..], rest);
      EscapedCharSplits(cell[0], cell[1..], rest);
      PrependTwice([cell[0]], cell[1..], SplitPipes(rest));
      assert [cell[0]] + cell[1..] == cell;
    }
  }

  /** The first character of an escaped cell goes in front of what follows. */
  lemma EscapedCharSplits(c: char, cell: string, rest: string)
    requires rest == "" || rest[0] != '|'
    ensures SplitPipes(Escape([c] + cell) + rest) == Prepend([c], SplitPipes(Escape(cell) + rest))
  {
    var more := Escape(cell) + rest;
    EscapeOne(c, cell);
    EscapeStartsSafe(cell);
    if c == '|' {
      assert "\\|" + Escape(cell) + rest == "\\|" + more;
      EscapedPipeFirst(more);
    } else {
      assert [c] + Escape(cell) + rest == [c] + more;
      OtherCharFirst(c, more);
    }
  }

  lemma EscapeOne(c: char, cell: string)
    ensures Escape([c] + cell) == (if c == '|' then "\\|" else [c]) + Escape(cell)
  {
    assert ([c] + cell)[1..] == cell;
  }

  lemma EscapeStartsSafe(cell: string)
    ensures Escape(cell) != "" ==> Escape(cell)[0] != '|'
  {
  }

  function Spaced(cells: seq<string>, rest: string): (r: seq<string>)
    requires cells != []
    ensures |r| == |cells|
  {
    if |cells| == 1 then [" " + cells[0] + rest] else [" " + cells[0] + " "] + Spaced(cells[1..], rest)
  }

  lemma SeparatorSplits(cell: string, more: string)
    ensures SplitPipes(" " + Escape(cell) + " |" + more) == [" " + cell + " "] + SplitPipes(more)
  {
    var first := Escape(cell);
    assert " " + first + " |" + more == " " + (first + (" |" + more));
    assert (" " + (first + (" |" + more)))[1..] == first + (" |" + more);
    assert (" |" + more)[1..] == "|" + more && ("|" + more)[1..] == more;
    assert " " + "" == " ";
    assert SplitPipes(" |" + more) == Prepend(" ", [""] + SplitPipes(more)) == [" "] + SplitPipes(more);
    EscapedCellSplits(cell, " |" + more);
    assert Prepend(cell, [" "] + SplitPipes(more)) == [cell + " "] + SplitPipes(more);
    assert " " + (cell + " ") == " " + cell + " ";
  }

  lemma LastCellSplits(cell: string, rest: string)
    requires (rest == "" || rest[0] != '|') && SplitPipes(rest) == [rest]
    ensures SplitPipes(" " + Escape(cell) + rest) == [" " + cell + rest]
  {
    assert " " + Escape(cell) + rest == " " + (Escape(cell) + rest);
    EscapedCellSplits(cell, rest);
    OtherCharIsText("", ' ', Escape(cell) + rest);
    PrependTwice("", "", SplitPipes(" " + (Escape(cell) + rest)));
    assert " " + (cell + rest) == " " + cell + rest;
  }

  lemma Regroup(a: string, b: string, c: string, d: string)
    ensures a + (b + c) + d == a + b + (c + d)
  {
  }

  lemma {:induction false} BodySplits(cells: seq<string>, rest: string)
    requires cells != [] && (rest == "" || rest[0] != '|') && SplitPipes(rest) == [rest]
    ensures SplitPipes(Body(cells) + rest) == Spaced(cells, rest)
    decreases |cells|
  {
    var first := " " + Escape(cells[0]);
    if |cells| == 1 {
      assert Body(cells) == first + "" == first;
      LastCellSplits(cells[0], rest);
    } else {
      BodySplits(cells[1..], rest);
      SeparatorSplits(cells[0], Body(cells[1..]) + rest);
      Regroup(first, " |", Body(cells[1..]), rest);
    }
  }
}
