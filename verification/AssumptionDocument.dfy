/** The stored assumptions document: what `save` accepts, and what `load` then gives back. */
module AssumptionDocument {
  import opened Basics
  import opened Text
  import opened AssumptionTable
  import opened AssumptionParser

  datatype Error = NewlineInCell(axis: string) | DuplicateAxes | Malformed

  datatype Result<+T> = Ok(value: T) | Err(error: Error)

  const SOFT_CAP := 20

  function JoinSpaced(words: seq<string>): string {
    if words == [] then "" else if |words| == 1 then words[0] else words[0] + " " + JoinSpaced(words[1..])
  }

  /** The key an axis is known by; `lower` stands for `str.lower`. */
  function NormalAxis(lower: string -> string, axis: string): string {
    JoinSpaced(Fields(lower(Strip(axis))))
  }

  predicate UniqueAxes(lower: string -> string, rows: seq<AssumptionRow>) {
    forall i, j | 0 <= i < j < |rows| :: NormalAxis(lower, rows[i].axis) != NormalAxis(lower, rows[j].axis)
  }

  /** The only two line breaks that `save` looks for. */
  predicate HasNewline(cell: string) {
    '\n' in cell || '\r' in cell
  }

  predicate PassesGuard(row: AssumptionRow) {
    forall cell | cell in Columns(row) :: !HasNewline(cell)
  }

  predicate Saveable(lower: string -> string, rows: seq<AssumptionRow>) {
    (forall row | row in rows :: PassesGuard(row)) && UniqueAxes(lower, rows)
  }

  /** What `load` makes of the stored document. */
  function Loaded(lower: string -> string, doc: Option<string>): Result<seq<AssumptionRow>> {
    match doc
    case None => Ok([])
    case Some(text) =>
      match ParseTable(text)
      case None => Err(Malformed)
      case Some(rows) => if UniqueAxes(lower, rows) then Ok(rows) else Err(DuplicateAxes)
  }

  /** `_reject_duplicate_axes`, over the counts of normalized axes. */
  method HasDuplicateAxes(lower: string -> string, rows: seq<AssumptionRow>) returns (duplicate: bool)
    ensures duplicate <==> !UniqueAxes(lower, rows)
  {
    var counts: map<string, nat> := map[];
    for i := 0 to |rows|
      invariant forall k | 0 <= k < i :: NormalAxis(lower, rows[k].axis) in counts
      invariant forall axis | axis in counts :: exists k | 0 <= k < i :: NormalAxis(lower, rows[k].axis) == axis
      invariant UniqueAxes(lower, rows[..i])
    {
      var axis := NormalAxis(lower, rows[i].axis);
      if axis in counts {
        ghost var k :| 0 <= k < i && NormalAxis(lower, rows[k].axis) == axis;
        return true;
      }
      counts := counts[axis := 1];
      assert rows[..i + 1] == rows[..i] + [rows[i]];
    }
    assert rows[..|rows|] == rows;
    return false;
  }

  /** `_render_table` */
  method Render(rows: seq<AssumptionRow>) returns (text: string)
    ensures text == RenderTable(rows)
  {
    var lines := [HEADER, SEPARATOR];
    assert rows[0..] == rows;
    for i := 0 to |rows|
      invariant lines + RenderRows(rows[i..]) == [HEADER, SEPARATOR] + RenderRows(rows)
    {
      assert rows[i..][1..] == rows[i + 1..];
      lines := lines + [RenderRow(rows[i])];
    }
    assert lines + [] == lines;
    text := JoinLines(lines);
  }

  method TableLinesOf(text: string) returns (lines: seq<string>)
    ensures lines == TableLines(SplitLines(text))
  {
    var all := SplitLines(text);
    lines := [];
    assert all[0..] == all;
    for i := 0 to |all|
      invariant lines + TableLines(all[i..]) == TableLines(all)
    {
      assert all[i..][1..] == all[i + 1..];
      if Strip(all[i]) != "" && Strip(all[i])[0] == '|' {
        lines := lines + [all[i]];
      }
    }
  }

  /** Rows already read, followed by what the other lines give. */
  function Resume(rows: seq<AssumptionRow>, rest: Option<seq<AssumptionRow>>): Option<seq<AssumptionRow>> {
    if rest.None? then None else Some(rows + rest.value)
  }

  lemma ResumeRow(rows: seq<AssumptionRow>, lines: seq<string>)
    requires lines != []
    ensures ParseRow(lines[0]).None? ==> Resume(rows, ParseRows(lines)).None?
    ensures ParseRow(lines[0]).Some? ==>
      Resume(rows, ParseRows(lines)) == Resume(rows + [ParseRow(lines[0]).value], ParseRows(lines[1..]))
  {
    if ParseRow(lines[0]).Some? && ParseRows(lines[1..]).Some? {
      var row, rest := ParseRow(lines[0]).value, ParseRows(lines[1..]).value;
      assert rows + ([row] + rest) == (rows + [row]) + rest;
    }
  }

  method ReadRow(line: string) returns (r: Option<AssumptionRow>)
    ensures r == ParseRow(line)
  {
    var body := Strip(line);
    if body != "" && body[0] == '|' { body := body[1..]; }
    if body != "" && body[|body| - 1] == '|' { body := body[..|body| - 1]; }
    var cells := SplitUnescapedPipes(body);
    r := if |cells| == 4 then Some(Trimmed(RowOf(cells))) else None;
  }

  /** `_parse_table`; the first row with a wrong number of cells ends it. */
  method Read(text: string) returns (r: Option<seq<AssumptionRow>>)
    ensures r == ParseTable(text)
  {
    var lines := TableLinesOf(text);
    if lines == [] { return Some([]); }
    if |lines| < 2 { return None; }
    r := ReadRows(lines[2..]);
  }

  method ReadRows(lines: seq<string>) returns (r: Option<seq<AssumptionRow>>)
    ensures r == ParseRows(lines)
  {
    var rows := [];
    assert lines[0..] == lines;
    assert ParseRows(lines).Some? ==> [] + ParseRows(lines).value == ParseRows(lines).value;
    for i := 0 to |lines|
      invariant Resume(rows, ParseRows(lines[i..])) == ParseRows(lines)
    {
      assert lines[i..][1..] == lines[i + 1..];
      ResumeRow(rows, lines[i..]);
      var row := ReadRow(lines[i]);
      if row.None? { return None; }
      rows := rows + [row.value];
    }
    assert rows + [] == rows;
    r := Some(rows);
  }

  class AssumptionStore {
    const lower: string -> string
    var doc: Option<string>

    constructor (lower: string -> string, doc: Option<string>)
      ensures this.lower == lower && this.doc == doc
    {
      this.lower := lower;
      this.doc := doc;
    }

    method Load() returns (r: Result<seq<AssumptionRow>>)
      ensures r == Loaded(lower, doc)
    {
      if doc.None? { return Ok([]); }
      var rows := Read(doc.value);
      if rows.None? { return Err(Malformed); }
      var duplicate := HasDuplicateAxes(lower, rows.value);
      r := if duplicate then Err(DuplicateAxes) else Ok(rows.value);
    }

    /** Writes only what passes every check; the flag asks for the warning of a long table. */
    method Save(rows: seq<AssumptionRow>) returns (r: Result<bool>)
      modifies this
      ensures r.Ok? <==> Saveable(lower, rows)
      ensures r.Ok? ==> doc == Some(RenderTable(rows)) && (r.value <==> |rows| > 20)
      ensures r.Err? ==> doc == old(doc)
      ensures r.Err? ==> (r.error.NewlineInCell? <==> exists row | row in rows :: !PassesGuard(row))
    {
      for i := 0 to |rows|
        invariant forall k | 0 <= k < i :: PassesGuard(rows[k])
        invariant doc == old(doc)
      {
        var row := rows[i];
        if HasNewline(row.axis) || HasNewline(row.options) || HasNewline(row.position) || HasNewline(row.triggers) {
          assert row.axis in Columns(row) && row.options in Columns(row);
          assert row.position in Columns(row) && row.triggers in Columns(row);
          assert row in rows && !PassesGuard(row);
          return Err(NewlineInCell(row.axis));
        }
      }
      var duplicate := HasDuplicateAxes(lower, rows);
      if duplicate { return Err(DuplicateAxes); }
      var text := Render(rows);
      doc := Some(text);
      r := Ok(|rows| > SOFT_CAP);
    }
  }

  // ---------------------------------------------------------------- save, then load

  lemma StripIsIdempotent(s: string)
    ensures Strip(Strip(s)) == Strip(s)
  {
    var i, j := StripIs(s);
    var t := Strip(s);
    if t != "" {
      assert t == "" + t + "";
      StripAnchored("", t, "");
    }
  }

  lemma {:induction false} TrimmedAt(rows: seq<AssumptionRow>)
    ensures |TrimmedRows(rows)| == |rows|
    ensures forall i | 0 <= i < |rows| :: TrimmedRows(rows)[i] == Trimmed(rows[i])
  {
    if rows != [] { TrimmedAt(rows[1..]); }
  }

  lemma TrimmedKeepsAxes(lower: string -> string, rows: seq<AssumptionRow>)
    ensures UniqueAxes(lower, TrimmedRows(rows)) <==> UniqueAxes(lower, rows)
  {
    TrimmedAt(rows);
    forall i | 0 <= i < |rows|
      ensures NormalAxis(lower, TrimmedRows(rows)[i].axis) == NormalAxis(lower, rows[i].axis)
    {
      StripIsIdempotent(rows[i].axis);
    }
  }

  /**
   What `save` wrote loads as the same rows, trimmed, exactly when no cell holds any of the characters
   that end a line. The guard of `save` looks for two of them only.
   */
  lemma SavedRowsLoad(lower: string -> string, rows: seq<AssumptionRow>)
    requires Saveable(lower, rows)
    ensures Loaded(lower, Some(RenderTable(rows))) == Ok(TrimmedRows(rows))
            <==> forall row | row in rows :: OneLineRow(row)
  {
    TableRoundTrip(rows);
    TrimmedKeepsAxes(lower, rows);
  }

  /** A form feed in a cell passes the guard of `save`, and the row does not come back. */
  lemma GuardMissesABreak(lower: string -> string) returns (rows: seq<AssumptionRow>)
    ensures Saveable(lower, rows)
    ensures Loaded(lower, Some(RenderTable(rows))) != Ok(TrimmedRows(rows))
  {
    var cell := ['\U{00000C}'];
    rows := [AssumptionRow("a", "b", cell, "c")];
    assert IsBreak(cell[0]);
    assert !OneLineRow(rows[0]);
    SavedRowsLoad(lower, rows);
  }

  // ---------------------------------------------------------------- load, then save

  lemma {:induction false} SplitLinesAreOneLine(s: string)
    ensures forall l | l in SplitLines(s) :: OneLine(l)
    decreases |s|
  {
    if s != "" {
      var n := LineEnd(s);
      if n == |s| {
        assert s[..n] == s;
      } else {
        SplitLinesAreOneLine(s[n + BreakLength(s[n..])..]);
      }
    }
  }

  lemma {:induction false} TableLinesAreLines(lines: seq<string>)
    ensures forall l | l in TableLines(lines) :: l in lines
  {
    if lines != [] { TableLinesAreLines(lines[1..]); }
  }

  predicate Tidy(row: AssumptionRow) {
    OneLineRow(row) && Trimmed(row) == row
  }

  lemma ParsedRowIsTidy(line: string)
    requires OneLine(line)
    ensures ParseRow(line).Some? ==> Tidy(ParseRow(line).value)
  {
    var i, j := RowBodyIsAPart(line);
    CellsOfOneLine(RowBody(line));
    var cells := SplitPipes(RowBody(line));
    forall k | 0 <= k < |cells| ensures OneLine(Strip(cells[k])) && Strip(Strip(cells[k])) == Strip(cells[k]) {
      assert cells[k] in cells;
      StripKeepsOneLine(cells[k]);
      StripIsIdempotent(cells[k]);
    }
  }

  lemma {:induction false} ParsedRowsAreTidy(lines: seq<string>)
    requires forall l | l in lines :: OneLine(l)
    ensures ParseRows(lines).Some? ==> forall row | row in ParseRows(lines).value :: Tidy(row)
  {
    if lines != [] {
      ParsedRowIsTidy(lines[0]);
      ParsedRowsAreTidy(lines[1..]);
    }
  }

  lemma {:induction false} TidyRowsStay(rows: seq<AssumptionRow>)
    requires forall row | row in rows :: Tidy(row)
    ensures TrimmedRows(rows) == rows
  {
    if rows != [] {
      assert rows[0] in rows && rows == [rows[0]] + rows[1..];
      TidyRowsStay(rows[1..]);
    }
  }

  lemma OneLinePassesGuard(row: AssumptionRow)
    requires OneLineRow(row)
    ensures PassesGuard(row)
  {
    forall cell | cell in Columns(row) ensures !HasNewline(cell) {
      assert OneLine(cell);
    }
  }

  /** Whatever document loads, its rows can be saved again and load unchanged. */
  lemma LoadedRowsSurviveASave(lower: string -> string, doc: Option<string>)
    requires Loaded(lower, doc).Ok?
    ensures Saveable(lower, Loaded(lower, doc).value)
    ensures Loaded(lower, Some(RenderTable(Loaded(lower, doc).value))) == Loaded(lower, doc)
  {
    var rows := Loaded(lower, doc).value;
    if doc.Some? {
      SplitLinesAreOneLine(doc.value);
      var lines := TableLines(SplitLines(doc.value));
      TableLinesAreLines(SplitLines(doc.value));
      if |lines| >= 2 { ParsedRowsAreTidy(lines[2..]); }
    }
    assert forall row | row in rows :: Tidy(row);
    TidyRowsStay(rows);
    forall row | row in rows ensures PassesGuard(row) { OneLinePassesGuard(row); }
    SavedRowsLoad(lower, rows);
  }
}
