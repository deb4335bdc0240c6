/** What an owner reads off `adb forward --list` and `adb reverse --list`. */
module FixtureListing {
  import opened Basics
  import opened SessionProtocol
  import opened Text

  // ---------------------------------------------------------------- what adb prints

  /** A reverse listing is about one device and starts its rows with a transport label. */
  function PrintRow(kind: Kind, transport: string, m: Mapping): string {
    match kind
    case Forward => m.serial + " " + m.local + " " + m.remote
    case Reverse => transport + " " + m.remote + " " + m.local
  }

  function PrintRows(kind: Kind, transport: string, rows: seq<Mapping>): (lines: seq<string>)
    ensures |lines| == |rows|
  {
    seq(|rows|, i requires 0 <= i < |rows| => PrintRow(kind, transport, rows[i]))
  }

  function PrintListing(kind: Kind, transport: string, rows: seq<Mapping>): string {
    JoinLines(PrintRows(kind, transport, rows))
  }

  predicate Printable(m: Mapping) {
    Solid(m.serial) && Solid(m.local) && Solid(m.remote)
  }

  // ---------------------------------------------------------------- what the owner reads

  function ReadRow(kind: Kind, selected: string, fields: seq<string>): Mapping
    requires |fields| == 3
  {
    match kind
    case Forward => Mapping(fields[0], fields[1], fields[2])
    case Reverse => Mapping(selected, fields[2], fields[1])
  }

  /** The mappings of a listing, or None if a line that is not blank has not three fields. */
  function ReadLines(kind: Kind, selected: string, lines: seq<string>): Option<seq<Mapping>> {
    if lines == [] then Some([]) else
    var last := |lines| - 1;
    var before := ReadLines(kind, selected, lines[..last]);
    if before.None? || Fields(lines[last]) == [] then before
    else if |Fields(lines[last])| != 3 then None
    else Some(before.value + [ReadRow(kind, selected, Fields(lines[last]))])
  }

  lemma {:induction false} ReadLinesFails(kind: Kind, selected: string, lines: seq<string>, n: nat)
    requires n <= |lines| && ReadLines(kind, selected, lines[..n]).None?
    ensures ReadLines(kind, selected, lines).None?
    decreases |lines|
  {
    if n < |lines| {
      assert lines[..|lines| - 1][..n] == lines[..n];
      ReadLinesFails(kind, selected, lines[..|lines| - 1], n);
    } else {
      assert lines[..n] == lines;
    }
  }

  method FixtureMappings(kind: Kind, selected: string, output: string) returns (r: Option<seq<Mapping>>)
    ensures r == ReadLines(kind, selected, SplitLines(output))
  {
    var lines := SplitLines(output);
    var mappings: seq<Mapping> := [];
    for n := 0 to |lines|
      invariant ReadLines(kind, selected, lines[..n]) == Some(mappings)
    {
      assert lines[..n + 1][..n] == lines[..n];
      BlankHasNoFields(lines[n]);
      if Strip(lines[n]) == "" {
        StripsToNothing(lines[n]);
        continue;
      }
      StripsToNothing(lines[n]);
      var fields := Fields(lines[n]);
      if |fields| != 3 {
        ReadLinesFails(kind, selected, lines, n + 1);
        return None;
      }
      mappings := mappings + [ReadRow(kind, selected, fields)];
    }
    assert lines[..|lines|] == lines;
    r := Some(mappings);
  }

  lemma {:induction false} StripsToNothing(s: string)
    ensures Strip(s) == "" <==> Blank(s)
  {
    StripLeftToNothing(s);
    var t := StripLeft(s);
    if t != "" { StripRightKeepsFirst(t); }
  }

  lemma {:induction false} StripLeftToNothing(s: string)
    ensures StripLeft(s) == "" <==> Blank(s)
    ensures StripLeft(s) != "" ==> !IsSpace(StripLeft(s)[0])
  {
    if s != "" && IsSpace(s[0]) {
      StripLeftToNothing(s[1..]);
      assert forall i | 0 < i < |s| :: s[i] == s[1..][i - 1];
    }
  }

  lemma {:induction false} StripRightKeepsFirst(s: string)
    requires s != "" && !IsSpace(s[0])
    ensures StripRight(s) != ""
    decreases |s|
  {
    if IsSpace(s[|s| - 1]) { StripRightKeepsFirst(s[..|s| - 1]); }
  }

  // ---------------------------------------------------------------- reading inverts printing

  lemma SolidIsOneLine(s: string)
    requires Solid(s)
    ensures OneLine(s)
  {
    forall i | 0 <= i < |s| ensures !IsBreak(s[i]) { assert !IsSpace(s[i]); }
  }

  lemma PrintedRow(kind: Kind, transport: string, m: Mapping, selected: string)
    requires Printable(m) && Solid(transport) && (kind == Reverse ==> m.serial == selected)
    ensures OneLine(PrintRow(kind, transport, m))
    ensures |Fields(PrintRow(kind, transport, m))| == 3
            && ReadRow(kind, selected, Fields(PrintRow(kind, transport, m))) == m
  {
    SolidIsOneLine(m.serial);
    SolidIsOneLine(m.local);
    SolidIsOneLine(m.remote);
    SolidIsOneLine(transport);
    match kind
    case Forward => ThreeFields(m.serial, m.local, m.remote);
    case Reverse => ThreeFields(transport, m.remote, m.local);
  }

  lemma ReadLinesSnoc(kind: Kind, selected: string, lines: seq<string>, line: string)
    requires ReadLines(kind, selected, lines).Some? && |Fields(line)| == 3
    ensures ReadLines(kind, selected, lines + [line]) ==
            Some(ReadLines(kind, selected, lines).value + [ReadRow(kind, selected, Fields(line))])
  {
    assert (lines + [line])[..|lines|] == lines;
  }

  lemma {:induction false} PrintedRowsRead(kind: Kind, transport: string, rows: seq<Mapping>, selected: string)
    requires Solid(transport)
    requires forall m | m in rows :: Printable(m) && (kind == Reverse ==> m.serial == selected)
    ensures ReadLines(kind, selected, PrintRows(kind, transport, rows)) == Some(rows)
  {
    if rows != [] {
      var front, last := rows[..|rows| - 1], rows[|rows| - 1];
      assert rows == front + [last];
      assert PrintRows(kind, transport, rows) == PrintRows(kind, transport, front) + [PrintRow(kind, transport, last)];
      PrintedRowsRead(kind, transport, front, selected);
      PrintedRow(kind, transport, last, selected);
      ReadLinesSnoc(kind, selected, PrintRows(kind, transport, front), PrintRow(kind, transport, last));
    }
  }

  /** Both column orders: the owner reads exactly the mappings that adb printed. */
  lemma ListingRoundTrip(kind: Kind, transport: string, rows: seq<Mapping>, selected: string)
    requires Solid(transport)
    requires forall m | m in rows :: Printable(m) && (kind == Reverse ==> m.serial == selected)
    ensures ReadLines(kind, selected, SplitLines(PrintListing(kind, transport, rows))) == Some(rows)
  {
    var lines := PrintRows(kind, transport, rows);
    forall l | l in lines ensures OneLine(l) {
      var i :| 0 <= i < |lines| && lines[i] == l;
      PrintedRow(kind, transport, rows[i], selected);
    }
    JoinedLinesSplit(lines);
    PrintedRowsRead(kind, transport, rows, selected);
  }

  // ---------------------------------------------------------------- reading answers a lookup

  /** The rows that use the endpoint of fixture `f`. */
  function SameEndpoint(rows: seq<Mapping>, f: Fixture): seq<Mapping> {
    if rows == [] then [] else
    var last := |rows| - 1;
    var before := SameEndpoint(rows[..last], f);
    if (if f.kind == Forward then rows[last].local == f.local else rows[last].remote == f.remote)
    then before + [rows[last]] else before
  }

  function StateOf(rows: seq<Mapping>, serial: string, f: Fixture): MappingState {
    var same := SameEndpoint(rows, f);
    if same == [] then MappingAbsent
    else if |same| == 1 && same[0] == MappingOf(serial, f) then MappingExact
    else MappingUnsafe
  }

  /** The endpoint under which a mapping of `kind` is kept. */
  function Slot(kind: Kind, m: Mapping): Endpoint {
    match kind
    case Forward => HostPort(m.local)
    case Reverse => DevicePort(m.serial, m.remote)
  }

  predicate Listed(kind: Kind, serial: string, k: Endpoint) {
    match kind
    case Forward => k.HostPort?
    case Reverse => k.DevicePort? && k.serial == serial
  }

  /** Every mapping is kept under its own endpoint. */
  ghost predicate Coherent(table: map<Endpoint, Entry>) {
    forall k | k in table :: k == Slot(if k.HostPort? then Forward else Reverse, table[k].mapping)
  }

  /** `rows` lists what `table` holds for `kind` and `serial`, each endpoint once, in some order. */
  ghost predicate Lists(rows: seq<Mapping>, table: map<Endpoint, Entry>, kind: Kind, serial: string) {
    && (forall m | m in rows ::
          Listed(kind, serial, Slot(kind, m)) && Slot(kind, m) in table && table[Slot(kind, m)].mapping == m)
    && (forall k | k in table && Listed(kind, serial, k) :: table[k].mapping in rows)
    && (forall i, j | 0 <= i < j < |rows| :: Slot(kind, rows[i]) != Slot(kind, rows[j]))
  }

  lemma {:induction false} SameEndpointIs(rows: seq<Mapping>, f: Fixture)
    ensures forall m :: m in SameEndpoint(rows, f) <==>
              m in rows && (if f.kind == Forward then m.local == f.local else m.remote == f.remote)
  {
    if rows != [] {
      SameEndpointIs(rows[..|rows| - 1], f);
      assert rows == rows[..|rows| - 1] + [rows[|rows| - 1]];
    }
  }

  lemma {:induction false} SameEndpointIsUnique(rows: seq<Mapping>, table: map<Endpoint, Entry>, serial: string,
                                                f: Fixture)
    requires forall m | m in rows :: Listed(f.kind, serial, Slot(f.kind, m))
    requires forall i, j | 0 <= i < j < |rows| :: Slot(f.kind, rows[i]) != Slot(f.kind, rows[j])
    ensures |SameEndpoint(rows, f)| <= 1
  {
    if rows != [] {
      var last := |rows| - 1;
      var before := rows[..last];
      assert forall m | m in before :: m in rows;
      SameEndpointIsUnique(before, table, serial, f);
      SameEndpointIs(before, f);
      if SameEndpoint(before, f) != [] {
        var m := SameEndpoint(before, f)[0];
        assert m in SameEndpoint(before, f);
        var i :| 0 <= i < last && before[i] == m;
        assert Slot(f.kind, rows[i]) != Slot(f.kind, rows[last]);
        assert rows[last] in rows && m in rows;
      }
    }
  }

  /** The listing answers exact, absent or unsafe exactly as a look into the mapping table would. */
  lemma ListingAnswersLookup(rows: seq<Mapping>, table: map<Endpoint, Entry>, serial: string, f: Fixture)
    requires Lists(rows, table, f.kind, serial) && Coherent(table)
    ensures StateOf(rows, serial, f) == Lookup(table, serial, f)
  {
    SameEndpointIs(rows, f);
    SameEndpointIsUnique(rows, table, serial, f);
    var k := Key(serial, f);
    var same := SameEndpoint(rows, f);
    assert same != [] ==> same[0] in same;
    if k in table {
      assert Listed(f.kind, serial, k);
      assert table[k].mapping in same;
    }
  }
}
