/** The string operations of Python that the table and listing formats rest on. */
module Text {

  /** Characters that `str.splitlines` breaks at. */
  predicate IsBreak(c: char) {
    var n := c as int;
    10 <= n <= 13 || 28 <= n <= 30 || n == 0x85 || n == 0x2028 || n == 0x2029
  }

  /** Characters that `str.strip` and `str.split` treat as white space. */
  predicate IsSpace(c: char) {
    var n := c as int;
    9 <= n <= 13 || 28 <= n <= 32 || n == 0x85 || n == 0xA0 || n == 0x1680 || 0x2000 <= n <= 0x200A
    || n == 0x2028 || n == 0x2029 || n == 0x202F || n == 0x205F || n == 0x3000
  }

  /** The line feed, the carriage return and eight more. */
  lemma BreaksAre(c: char)
    ensures IsBreak(c) <==> c in "\n\r" || c as int in {0x0B, 0x0C, 0x1C, 0x1D, 0x1E, 0x85, 0x2028, 0x2029}
  {
  }

  /** All breaks, the tab, the blank, the unit separator, and the other blanks of Unicode. */
  lemma SpacesAre(c: char)
    ensures IsSpace(c) <==>
            || IsBreak(c) || c in "\t "
            || c as int in {0x1F, 0xA0, 0x1680, 0x2000, 0x2001, 0x2002, 0x2003, 0x2004, 0x2005, 0x2006, 0x2007, 0x2008,
                            0x2009, 0x200A, 0x202F, 0x205F, 0x3000}
  {
  }

  predicate OneLine(s: string) {
    forall i | 0 <= i < |s| :: !IsBreak(s[i])
  }

  predicate Blank(s: string) {
    forall i | 0 <= i < |s| :: IsSpace(s[i])
  }

  predicate Solid(s: string) {
    s != "" && forall i | 0 <= i < |s| :: !IsSpace(s[i])
  }

  // ---------------------------------------------------------------- strip

  function StripLeft(s: string): string {
    if s != "" && IsSpace(s[0]) then StripLeft(s[1..]) else s
  }

  function StripRight(s: string): string {
    if s != "" && IsSpace(s[|s| - 1]) then StripRight(s[..|s| - 1]) else s
  }

  function Strip(s: string): string {
    StripRight(StripLeft(s))
  }

  // ---------------------------------------------------------------- lines

  /** The length of the first line of `s`. */
  function LineEnd(s: string): (n: nat)
    ensures n <= |s| && OneLine(s[..n]) && (n < |s| ==> IsBreak(s[n]))
  {
    if s == "" || IsBreak(s[0]) then 0
    else
      var n := LineEnd(s[1..]);
      assert forall i | 0 <= i < n + 1 :: s[i] == if i == 0 then s[0] else s[1..][..n][i - 1];
      n + 1
  }

  /** A carriage return and the line feed after it are one break. */
  function BreakLength(s: string): nat
    requires s != ""
  {
    if |s| > 1 && s[0] == '\r' && s[1] == '\n' then 2 else 1
  }

  function SplitLines(s: string): seq<string>
    decreases |s|
  {
    if s == "" then [] else
    var n := LineEnd(s);
    if n == |s| then [s] else [s[..n]] + SplitLines(s[n + BreakLength(s[n..])..])
  }

  /** Every line followed by a line feed. */
  function JoinLines(lines: seq<string>): string {
    if lines == [] then "" else lines[0] + "\n" + JoinLines(lines[1..])
  }

  lemma {:induction false} LineEndAt(line: string, rest: string)
    requires OneLine(line) && (rest == "" || IsBreak(rest[0]))
    ensures LineEnd(line + rest) == |line|
  {
    if line == "" {
      assert line + rest == rest;
    } else {
      assert (line + rest)[1..] == line[1..] + rest;
      LineEndAt(line[1..], rest);
    }
  }

  lemma {:induction false} JoinedLinesSplit(lines: seq<string>)
    requires forall l | l in lines :: OneLine(l)
    ensures SplitLines(JoinLines(lines)) == lines
  {
    if lines != [] {
      var rest := JoinLines(lines[1..]);
      var text := JoinLines(lines);
      assert text == lines[0] + ("\n" + rest);
      LineEndAt(lines[0], "\n" + rest);
      assert text[|lines[0]|..] == "\n" + rest;
      assert text[|lines[0]| + 1..] == rest;
      JoinedLinesSplit(lines[1..]);
    }
  }

  // ---------------------------------------------------------------- fields

  /** The length of the first field of `s`, which starts with one. */
  function FieldEnd(s: string): (n: nat)
    ensures n <= |s|
    ensures s != "" && !IsSpace(s[0]) ==> n > 0
  {
    if s == "" || IsSpace(s[0]) then 0 else 1 + FieldEnd(s[1..])
  }

  /** `str.split()` */
  function Fields(s: string): seq<string>
    decreases |s|
  {
    if s == "" then []
    else if IsSpace(s[0]) then Fields(s[1..])
    else [s[..FieldEnd(s)]] + Fields(s[FieldEnd(s)..])
  }

  lemma {:induction false} FieldEndAt(field: string, rest: string)
    requires Solid(field) && (rest == "" || IsSpace(rest[0]))
    ensures FieldEnd(field + rest) == |field|
  {
    if |field| == 1 {
      assert (field + rest)[1..] == rest;
    } else {
      assert (field + rest)[1..] == field[1..] + rest;
      FieldEndAt(field[1..], rest);
    }
  }

  lemma FirstField(field: string, rest: string)
    requires Solid(field) && (rest == "" || IsSpace(rest[0]))
    ensures Fields(field + rest) == [field] + Fields(rest)
  {
    FieldEndAt(field, rest);
    assert (field + rest)[..|field|] == field && (field + rest)[|field|..] == rest;
  }

  lemma SpaceIsSkipped(rest: string)
    ensures Fields(" " + rest) == Fields(rest)
  {
    assert (" " + rest)[1..] == rest;
  }

  lemma LastField(field: string)
    requires Solid(field)
    ensures Fields(field) == [field]
  {
    FirstField(field, "");
    assert field + "" == field;
  }

  /** The first of several fields. */
  lemma NextField(field: string, rest: string)
    requires Solid(field)
    ensures Fields(field + (" " + rest)) == [field] + Fields(rest)
  {
    FirstField(field, " " + rest);
    SpaceIsSkipped(rest);
  }

  lemma SpacedRegroup(a: string, b: string, c: string)
    ensures a + " " + b + " " + c == a + (" " + (b + (" " + c)))
  {
    var last := " " + c;
    assert a + " " + b + last == a + (" " + (b + last));
    assert a + " " + b + " " + c == a + " " + b + last;
  }

  lemma ThreeFields(a: string, b: string, c: string)
    requires Solid(a) && Solid(b) && Solid(c)
    ensures Fields(a + " " + b + " " + c) == [a, b, c]
  {
    SpacedRegroup(a, b, c);
    NextField(a, b + (" " + c));
    NextField(b, c);
    LastField(c);
  }

  lemma {:induction false} BlankHasNoFields(s: string)
    ensures Blank(s) <==> Fields(s) == []
    decreases |s|
  {
    if s != "" && IsSpace(s[0]) {
      BlankHasNoFields(s[1..]);
      assert forall i | 0 < i < |s| :: s[i] == s[1..][i - 1];
    }
  }
}
