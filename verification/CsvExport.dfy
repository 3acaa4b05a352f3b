/** The CSV export: the rows of a snapshot, written cell by cell. */
module CsvDocuments {
  import opened Basics
  import opened Unicode
  import opened Serialization

  /** A number in decimal digits. */
  function Number(n: nat): Text { if n < 10 then [48 + n] else Number(n / 10) + [48 + n % 10] }

  const LINE_END: Text := [CR, LF]

  // ----- what is exported

  /** Texts that were formatted elsewhere (addresses, means, deviations, times) come as they are. */
  datatype Responder = Responder(
    name: Text, ip: Text, hits: nat, best: nat, average: Text, worst: nat, last: nat, jitter: Text, stddev: Text,
    country: Text, asn: Text, isp: Text)

  datatype Hop = Hop(
    name: Text, ip: Text, number: nat, loss: Text, sent: nat, returned: nat, best: nat, average: Text, worst: nat,
    last: nat, jitter: Text, stddev: Text, country: Text, asn: Text, isp: Text, responders: seq<Responder>)

  datatype Snapshot = Snapshot(
    target: Text, session: nat, started: Text, endedAt: nat, ended: Text, duration: nat, hops: seq<Hop>)

  /** The localized texts: the column headers and the name of a silent host. */
  datatype Labels = Labels(headers: seq<Text>, noResponse: Text)

  datatype Row = Row(cells: seq<Text>, kind: Text, ip: Text)

  const COLUMNS := 14

  /** "hop", "responder" and "  + ". */
  const HOP_KIND: Text := [104, 111, 112]

  const RESPONDER_KIND: Text := [114, 101, 115, 112, 111, 110, 100, 101, 114]

  const INDENT: Text := [32, 32, 43, 32]

  // ----- rows

  function PrimaryHost(h: Hop, labels: Labels): Text {
    var name := if h.name == [] && h.responders != [] then h.responders[0].name else h.name;
    if name == [] then labels.noResponse else name
  }

  function HopRow(h: Hop, labels: Labels): (r: Row)
    ensures |r.cells| == COLUMNS
  {
    var some := h.returned != 0;
    Row([PrimaryHost(h, labels), Number(h.number), h.loss, Number(h.sent), Number(h.returned),
         if some then Number(h.best) else [], if some then h.average else [], if some then Number(h.worst) else [],
         if some then Number(h.last) else [], if some then h.jitter else [], if some then h.stddev else [],
         h.country, h.asn, h.isp],
        HOP_KIND, h.ip)
  }

  function ResponderRow(h: Hop, r: Responder): (row: Row)
    ensures |row.cells| == COLUMNS
  {
    Row([INDENT + r.name, Number(h.number), [], [], Number(r.hits), Number(r.best), r.average, Number(r.worst),
         Number(r.last), r.jitter, r.stddev, r.country, r.asn, r.isp],
        RESPONDER_KIND, r.ip)
  }

  /** A row for every responder from `index` on. */
  function OtherRows(h: Hop, index: nat): (rows: seq<Row>)
    ensures |rows| == if index < |h.responders| then |h.responders| - index else 0
    decreases |h.responders| - index
  {
    if index >= |h.responders| then [] else [ResponderRow(h, h.responders[index])] + OtherRows(h, index + 1)
  }

  function HopRows(h: Hop, labels: Labels): seq<Row> { [HopRow(h, labels)] + OtherRows(h, 1) }

  function Rows(hops: seq<Hop>, labels: Labels): seq<Row> {
    if hops == [] then [] else HopRows(hops[0], labels) + Rows(hops[1..], labels)
  }

  method MakeRows(hops: seq<Hop>, labels: Labels) returns (rows: seq<Row>)
    ensures rows == Rows(hops, labels)
  {
    rows := [];
    for i := 0 to |hops|
      invariant rows + Rows(hops[i..], labels) == Rows(hops, labels)
    {
      ghost var was, later := rows, Rows(hops[i + 1..], labels);
      assert hops[i..][1..] == hops[i + 1..];
      var row := MakeHopRow(hops[i], labels);
      rows := MakeOtherRows(hops[i], rows + [row]);
      Regroup(was, [row], OtherRows(hops[i], 1));
      Regroup(was, HopRows(hops[i], labels), later);
    }
    assert rows + [] == rows;
  }

  /** Rows for all responders but the first, which the row of the hop shows. */
  method MakeOtherRows(h: Hop, before: seq<Row>) returns (rows: seq<Row>)
    ensures rows == before + OtherRows(h, 1)
  {
    rows := before;
    var index := 1;
    while index < |h.responders|
      invariant rows + OtherRows(h, index) == before + OtherRows(h, 1)
    {
      var alternative := MakeResponderRow(h, h.responders[index]);
      Regroup(rows, [alternative], OtherRows(h, index + 1));
      rows := rows + [alternative];
      index := index + 1;
    }
    assert rows + [] == rows;
  }

  method MakeHopRow(h: Hop, labels: Labels) returns (row: Row)
    ensures row == HopRow(h, labels)
  {
    var name := h.name;
    if name == [] && h.responders != [] { name := h.responders[0].name; }
    var cells: seq<Text> := [[], [], [], [], [], [], [], [], [], [], [], [], [], []];
    cells := cells[0 := if name == [] then labels.noResponse else name][1 := Number(h.number)][2 := h.loss];
    cells := cells[3 := Number(h.sent)][4 := Number(h.returned)];
    if h.returned != 0 {
      cells := cells[5 := Number(h.best)][6 := h.average][7 := Number(h.worst)];
      cells := cells[8 := Number(h.last)][9 := h.jitter][10 := h.stddev];
    }
    cells := cells[11 := h.country][12 := h.asn][13 := h.isp];
    row := Row(cells, HOP_KIND, h.ip);
  }

  method MakeResponderRow(h: Hop, r: Responder) returns (row: Row)
    ensures row == ResponderRow(h, r)
  {
    var cells: seq<Text> := [[], [], [], [], [], [], [], [], [], [], [], [], [], []];
    cells := cells[0 := INDENT + r.name][1 := Number(h.number)][4 := Number(r.hits)];
    cells := cells[5 := Number(r.best)][6 := r.average][7 := Number(r.worst)];
    cells := cells[8 := Number(r.last)][9 := r.jitter][10 := r.stddev];
    cells := cells[11 := r.country][12 := r.asn][13 := r.isp];
    row := Row(cells, RESPONDER_KIND, r.ip);
  }

  // ----- records and lines

  /** What a record says: the row, with formulas made harmless. */
  function RowLead(s: Snapshot, row: Row): seq<Text> {
    [Protected(s.target, true), Number(s.session), row.kind, Protected(row.ip, true), s.started,
     if s.endedAt != 0 then s.ended else [], Number(s.duration)]
  }

  function Guarded(cells: seq<Text>): (values: seq<Text>)
    ensures |values| == |cells|
  {
    if cells == [] then [] else [Protected(cells[0], true)] + Guarded(cells[1..])
  }

  function RowRecord(s: Snapshot, row: Row): seq<Text> { RowLead(s, row) + Guarded(row.cells) }

  /** The names of the seven leading columns. */
  const NAMES: seq<string> :=
    ["target", "session_id", "row_kind", "ip", "started_at_utc", "ended_at_utc", "duration_ms"]

  function Names(names: seq<string>): (values: seq<Text>)
    ensures |values| == |names|
  {
    if names == [] then [] else [Ascii(names[0])] + Names(names[1..])
  }

  function HeaderRecord(labels: Labels): seq<Text> { Names(NAMES) + Guarded(labels.headers) }

  /** Every value as it is written. */
  function Written(values: seq<Text>): (cells: seq<Text>)
    ensures |cells| == |values|
  {
    if values == [] then [] else [Quoted(values[0])] + Written(values[1..])
  }

  /** Cells with commas between them and a line end after them. */
  function Line(cells: seq<Text>): Text
    requires cells != []
  {
    cells[0] + (if |cells| == 1 then LINE_END else [COMMA] + Line(cells[1..]))
  }

  function Lines(s: Snapshot, rows: seq<Row>): Text {
    if rows == [] then [] else Line(Written(RowRecord(s, rows[0]))) + Lines(s, rows[1..])
  }

  function Csv(s: Snapshot, labels: Labels): Text {
    Line(Written(HeaderRecord(labels))) + Lines(s, Rows(s.hops, labels))
  }

  // ----- writing

  /** Cells each followed by a comma. */
  function Lead(cells: seq<Text>): Text {
    if cells == [] then [] else (cells[0] + [COMMA]) + Lead(cells[1..])
  }

  lemma {:induction false} LineSplits(a: seq<Text>, b: seq<Text>)
    requires b != []
    ensures a + b != [] && Line(a + b) == Lead(a) + Line(b)
  {
    if a == [] {
      assert a + b == b;
    } else {
      assert (a + b)[1..] == a[1..] + b;
      LineSplits(a[1..], b);
      Regroup(a[0], [COMMA], Lead(a[1..]) + Line(b));
      Regroup(a[0] + [COMMA], Lead(a[1..]), Line(b));
    }
  }

  lemma {:induction false} LeadGrows(cells: seq<Text>, cell: Text)
    ensures Lead(cells + [cell]) == Lead(cells) + (cell + [COMMA])
  {
    if cells == [] {
      assert cells + [cell] == [cell] && [cell][1..] == [];
      assert Lead([cell]) == (cell + [COMMA]) + [];
    } else {
      assert (cells + [cell])[1..] == cells[1..] + [cell];
      LeadGrows(cells[1..], cell);
      Regroup(cells[0] + [COMMA], Lead(cells[1..]), cell + [COMMA]);
    }
  }

  lemma {:induction false} WrittenJoin(a: seq<Text>, b: seq<Text>)
    ensures Written(a + b) == Written(a) + Written(b)
  {
    if a == [] {
      assert a + b == b;
    } else {
      assert (a + b)[1..] == a[1..] + b;
      WrittenJoin(a[1..], b);
    }
  }

  /** One more cell and its comma. */
  method WriteLead(output: Text, cell: Text, ghost was: Text, ghost done: seq<Text>) returns (longer: Text)
    requires output == was + Lead(done)
    ensures longer == was + Lead(done + [cell])
  {
    longer := output + cell + [COMMA];
    LeadGrows(done, cell);
    Regroup(was, Lead(done), cell + [COMMA]);
    Regroup(output, cell, [COMMA]);
  }

  /** What is still to be written of a line of which `index` cells are. */
  ghost function Remaining(cells: seq<Text>, index: nat): Text
    requires index <= |cells| && cells != []
  {
    if index == 0 then Line(cells) else if index == |cells| then LINE_END else [COMMA] + Line(cells[index..])
  }

  lemma RemainingStep(cells: seq<Text>, index: nat)
    requires index < |cells|
    ensures
      var rest := cells[index] + Remaining(cells, index + 1);
      Remaining(cells, index) == if index == 0 then rest else [COMMA] + rest
  {
    assert cells[index..][1..] == cells[index + 1..];
    assert cells[0..] == cells;
  }

  lemma {:induction false} WrittenAt(cells: seq<Text>, i: nat)
    requires i < |cells|
    ensures Written(Guarded(cells))[i] == Cell(cells[i], true)
  {
    if i > 0 { WrittenAt(cells[1..], i - 1); }
  }

  /** The remaining cells, all guarded against formulas, and the line end. */
  method WriteCells(output: Text, cells: seq<Text>) returns (longer: Text)
    requires cells != []
    ensures longer == output + Line(Written(Guarded(cells)))
  {
    longer := output;
    ghost var all := Written(Guarded(cells));
    for index := 0 to |cells|
      invariant longer + Remaining(all, index) == output + Line(all)
    {
      RemainingStep(all, index);
      ghost var rest := Remaining(all, index + 1);
      WrittenAt(cells, index);
      if index != 0 {
        Regroup(longer, [COMMA], all[index] + rest);
        longer := longer + [COMMA];
      }
      var cell := CsvCell(cells[index]);
      Regroup(longer, cell, rest);
      longer := longer + cell;
    }
    longer := longer + LINE_END;
  }

  lemma {:induction false} AsciiIsPlain(s: string)
    requires IsBare(s)
    ensures Plain(Ascii(s))
  {
    if s != [] {
      AsciiIsPlain(s[1..]);
      assert Ascii(s)[1..] == Ascii(s[1..]);
    }
  }

  lemma {:induction false} NumberIsPlain(n: nat)
    ensures Plain(Number(n))
  {
    if n >= 10 {
      NumberIsPlain(n / 10);
      PlainAt(Number(n / 10), 0);
    }
    PlainFrom(Number(n));
  }

  /** The seven leading cells of a row. */
  method WriteRowLead(output: Text, s: Snapshot, row: Row) returns (longer: Text)
    ensures longer == output + Lead(Written(RowLead(s, row)))
  {
    longer := WriteIdentity(output, s, row);
    longer := WriteTimes(longer, s);
    LeadIsWritten(s, row);
    LeadJoin(IdentityCells(s, row), TimeCells(s));
    Regroup(output, Lead(IdentityCells(s, row)), Lead(TimeCells(s)));
  }

  /** The leading cells as they are written: numbers without quotes. */
  ghost function IdentityCells(s: Snapshot, row: Row): seq<Text> {
    [Cell(s.target, true), Number(s.session), Cell(row.kind, false), Cell(row.ip, true)]
  }

  ghost function TimeCells(s: Snapshot): seq<Text> {
    [Cell(s.started, false), if s.endedAt != 0 then Cell(s.ended, false) else [], Number(s.duration)]
  }

  method WriteIdentity(output: Text, s: Snapshot, row: Row) returns (longer: Text)
    ensures longer == output + Lead(IdentityCells(s, row))
  {
    assert output + [] == output;
    var target := CsvCell(s.target);
    longer := WriteLead(output, target, output, []);
    longer := WriteLead(longer, Number(s.session), output, [target]);
    var kind := CsvCell(row.kind, false);
    longer := WriteLead(longer, kind, output, [target, Number(s.session)]);
    var ip := CsvCell(row.ip);
    longer := WriteLead(longer, ip, output, [target, Number(s.session), kind]);
    assert [target, Number(s.session), kind] + [ip] == IdentityCells(s, row);
  }

  method WriteTimes(output: Text, s: Snapshot) returns (longer: Text)
    ensures longer == output + Lead(TimeCells(s))
  {
    assert output + [] == output;
    var started := CsvCell(s.started, false);
    longer := WriteLead(output, started, output, []);
    var ended := [];
    if s.endedAt != 0 { ended := CsvCell(s.ended, false); }
    longer := WriteLead(longer, ended, output, [started]);
    longer := WriteLead(longer, Number(s.duration), output, [started, ended]);
  }

  lemma {:induction false} LeadJoin(a: seq<Text>, b: seq<Text>)
    ensures Lead(a + b) == Lead(a) + Lead(b)
  {
    if a == [] {
      assert a + b == b;
    } else {
      assert (a + b)[1..] == a[1..] + b;
      LeadJoin(a[1..], b);
      Regroup(a[0] + [COMMA], Lead(a[1..]), Lead(b));
    }
  }

  lemma LeadIsWritten(s: Snapshot, row: Row)
    ensures Written(RowLead(s, row)) == IdentityCells(s, row) + TimeCells(s)
  {
    NumberIsPlain(s.session);
    NumberIsPlain(s.duration);
    var r := RowLead(s, row);
    assert r == [r[0], r[1], r[2], r[3], r[4], r[5], r[6]];
    WrittenSeven(r[0], r[1], r[2], r[3], r[4], r[5], r[6]);
  }

  lemma WrittenSeven(a: Text, b: Text, c: Text, d: Text, e: Text, f: Text, g: Text)
    ensures
      Written([a, b, c, d, e, f, g])
      == [Quoted(a), Quoted(b), Quoted(c), Quoted(d), Quoted(e), Quoted(f), Quoted(g)]
  {
    assert [a, b, c, d, e, f, g][1..] == [b, c, d, e, f, g] && [b, c, d, e, f, g][1..] == [c, d, e, f, g];
    assert [c, d, e, f, g][1..] == [d, e, f, g] && [d, e, f, g][1..] == [e, f, g];
    assert [e, f, g][1..] == [f, g] && [f, g][1..] == [g] && [g][1..] == [];
    assert Written([g]) == [Quoted(g)] && Written([f, g]) == [Quoted(f), Quoted(g)];
    assert Written([e, f, g]) == [Quoted(e), Quoted(f), Quoted(g)];
    assert Written([d, e, f, g]) == [Quoted(d), Quoted(e), Quoted(f), Quoted(g)];
    assert Written([c, d, e, f, g]) == [Quoted(c), Quoted(d), Quoted(e), Quoted(f), Quoted(g)];
  }

  predicate IsBare(s: string) {
    forall i | 0 <= i < |s| :: s[i] != ',' && s[i] != '"' && s[i] != '\r' && s[i] != '\n'
  }

  lemma {:induction false} NamesStayBare(names: seq<string>)
    requires forall i | 0 <= i < |names| :: IsBare(names[i])
    ensures Written(Names(names)) == Names(names)
  {
    if names != [] {
      AsciiIsPlain(names[0]);
      NamesStayBare(names[1..]);
      assert Names(names)[1..] == Names(names[1..]);
    }
  }

  method WriteHeader(names: seq<string>, headers: seq<Text>) returns (document: Text)
    requires headers != [] && forall i | 0 <= i < |names| :: IsBare(names[i])
    ensures document == Line(Written(Names(names) + Guarded(headers)))
  {
    document := WriteCells(Lead(Names(names)), headers);
    NamesFirst(names, Guarded(headers));
  }

  lemma NamesAreBare()
    ensures forall i | 0 <= i < |NAMES| :: IsBare(NAMES[i])
  {
  }

  lemma NamesFirst(names: seq<string>, values: seq<Text>)
    requires values != [] && forall i | 0 <= i < |names| :: IsBare(names[i])
    ensures Line(Written(Names(names) + values)) == Lead(Names(names)) + Line(Written(values))
  {
    NamesStayBare(names);
    WrittenJoin(Names(names), values);
    LineSplits(Names(names), Written(values));
  }

  /** One line of the document. */
  method WriteRow(output: Text, s: Snapshot, row: Row) returns (longer: Text)
    requires row.cells != []
    ensures longer == output + Line(Written(RowRecord(s, row)))
  {
    longer := WriteRowLead(output, s, row);
    longer := WriteCells(longer, row.cells);
    WrittenJoin(RowLead(s, row), Guarded(row.cells));
    LineSplits(Written(RowLead(s, row)), Written(Guarded(row.cells)));
    Regroup(output, Lead(Written(RowLead(s, row))), Line(Written(Guarded(row.cells))));
  }

  predicate Full(rows: seq<Row>) { forall r | r in rows :: |r.cells| == COLUMNS }

  lemma OneMoreFull(r: Row, rows: seq<Row>)
    requires |r.cells| == COLUMNS && Full(rows)
    ensures Full([r] + rows)
  {
  }

  /** Every row has a cell for every column. */
  lemma {:induction false} RowsAreFull(hops: seq<Hop>, labels: Labels)
    ensures Full(Rows(hops, labels))
  {
    if hops != [] {
      RowsAreFull(hops[1..], labels);
      OtherRowsAreFull(hops[0], 1);
    }
  }

  lemma {:induction false} OtherRowsAreFull(h: Hop, index: nat)
    ensures Full(OtherRows(h, index))
    decreases |h.responders| - index
  {
    if index < |h.responders| {
      OtherRowsAreFull(h, index + 1);
      OneMoreFull(ResponderRow(h, h.responders[index]), OtherRows(h, index + 1));
    }
  }

  method SerializeCsv(s: Snapshot, labels: Labels) returns (document: Text)
    requires |labels.headers| == COLUMNS
    ensures document == Csv(s, labels)
  {
    NamesAreBare();
    document := WriteHeader(NAMES, labels.headers);
    var rows := MakeRows(s.hops, labels);
    RowsAreFull(s.hops, labels);
    ghost var header := document;
    for i := 0 to |rows|
      invariant document + Lines(s, rows[i..]) == header + Lines(s, rows)
    {
      assert rows[i..][1..] == rows[i + 1..] && rows[i] in rows;
      Regroup(document, Line(Written(RowRecord(s, rows[i]))), Lines(s, rows[i + 1..]));
      document := WriteRow(document, s, rows[i]);
    }
    assert document + [] == document;
  }
}
