/** Section 2 of RFC 4180 as a reader, and what it makes of the exported document. */
module CsvReading {
  import opened Basics
  import opened Unicode
  import opened Serialization
  import opened CsvDocuments

  /** Something read, and the text after it. */
  datatype Piece<+T> = Bad | Piece(value: T, rest: Text)

  /** Inside quotes: everything up to a single quote, two quotes standing for one. */
  function ReadQuoted(s: Text): (r: Piece<Text>)
    ensures r.Piece? ==> |r.rest| < |s|
  {
    if s == [] then Bad
    else if s[0] != QUOTE then
      var r := ReadQuoted(s[1..]);
      if r.Bad? then Bad else Piece([s[0]] + r.value, r.rest)
    else if |s| >= 2 && s[1] == QUOTE then
      var r := ReadQuoted(s[2..]);
      if r.Bad? then Bad else Piece([QUOTE] + r.value, r.rest)
    else Piece([], s[1..])
  }

  /** Outside quotes: everything up to a comma, a quote or a line break. */
  function ReadPlain(s: Text): (r: Piece<Text>)
    ensures r.Piece? && |r.rest| <= |s|
  {
    if s == [] || IsSpecial(s[0]) then Piece([], s)
    else
      var r := ReadPlain(s[1..]);
      Piece([s[0]] + r.value, r.rest)
  }

  function ReadField(s: Text): (r: Piece<Text>)
    ensures r.Piece? ==> |r.rest| <= |s|
  {
    if s != [] && s[0] == QUOTE then ReadQuoted(s[1..]) else ReadPlain(s)
  }

  /** Fields between commas up to a line break or the end of the text. */
  function ReadRecord(s: Text): (r: Piece<seq<Text>>)
    ensures r.Piece? && s != [] ==> |r.rest| < |s|
    decreases |s|
  {
    var f := ReadField(s);
    if f.Bad? then Bad
    else if f.rest == [] then Piece([f.value], [])
    else if f.rest[0] == COMMA then
      var r := ReadRecord(f.rest[1..]);
      if r.Bad? then Bad else Piece([f.value] + r.value, r.rest)
    else if |f.rest| >= 2 && f.rest[..2] == LINE_END then Piece([f.value], f.rest[2..])
    else Bad
  }

  /** All records of a text. */
  function ReadFile(s: Text): Option<seq<seq<Text>>>
    decreases |s|
  {
    if s == [] then Some([])
    else
      var r := ReadRecord(s);
      if r.Bad? then None
      else match ReadFile(r.rest)
        case None => None
        case Some(records) => Some([r.value] + records)
  }

  // ----- a field

  /** What may follow a field. */
  predicate Stops(s: Text) { s != [] && (s[0] == COMMA || s[0] == CR) }

  lemma {:induction false} PlainReadBack(v: Text, tail: Text)
    requires Plain(v) && Stops(tail)
    ensures ReadPlain(v + tail) == Piece(v, tail)
  {
    if v == [] {
      assert v + tail == tail;
    } else {
      assert (v + tail)[1..] == v[1..] + tail;
      PlainReadBack(v[1..], tail);
      assert [v[0]] + v[1..] == v;
    }
  }

  lemma OneMoreUnit(u: Unit, later: Text)
    ensures
      var r := ReadQuoted(later);
      ReadQuoted((if u == QUOTE then [QUOTE, QUOTE] else [u]) + later)
      == if r.Bad? then Bad else Piece([u] + r.value, r.rest)
  {
    if u == QUOTE {
      assert ([QUOTE, QUOTE] + later)[2..] == later;
    } else {
      assert ([u] + later)[1..] == later;
    }
  }

  lemma {:induction false} QuotedReadBack(v: Text, tail: Text)
    requires Stops(tail)
    ensures ReadQuoted(Doubled(v) + ([QUOTE] + tail)) == Piece(v, tail)
  {
    if v == [] {
      var s := [QUOTE] + tail;
      assert Doubled(v) + s == s && s[1..] == tail;
    } else {
      var later := Doubled(v[1..]) + ([QUOTE] + tail);
      QuotedReadBack(v[1..], tail);
      OneMoreUnit(v[0], later);
      Regroup(if v[0] == QUOTE then [QUOTE, QUOTE] else [v[0]], Doubled(v[1..]), [QUOTE] + tail);
      assert [v[0]] + v[1..] == v;
    }
  }

  lemma FieldReadBack(v: Text, tail: Text)
    requires Stops(tail)
    ensures ReadField(Quoted(v) + tail) == Piece(v, tail)
  {
    var s := Quoted(v) + tail;
    if Plain(v) {
      if v != [] { assert s[0] == v[0]; } else { assert s == tail; }
      PlainReadBack(v, tail);
    } else {
      assert s == [QUOTE] + (Doubled(v) + ([QUOTE] + tail));
      assert s[1..] == Doubled(v) + ([QUOTE] + tail);
      QuotedReadBack(v, tail);
    }
  }

  // ----- a record

  lemma LastField(v: Text, tail: Text)
    ensures ReadRecord(Quoted(v) + (LINE_END + tail)) == Piece([v], tail)
  {
    var after := LINE_END + tail;
    FieldReadBack(v, after);
    assert after[..2] == LINE_END && after[2..] == tail;
  }

  lemma OneMoreField(v: Text, later: Text)
    ensures
      var r := ReadRecord(later);
      ReadRecord(Quoted(v) + ([COMMA] + later)) == if r.Bad? then Bad else Piece([v] + r.value, r.rest)
  {
    var after := [COMMA] + later;
    FieldReadBack(v, after);
    assert after[1..] == later;
  }

  lemma {:induction false} RecordReadBack(values: seq<Text>, tail: Text)
    requires values != []
    ensures ReadRecord(Line(Written(values)) + tail) == Piece(values, tail)
  {
    var v := values[0];
    if |values| == 1 {
      LastField(v, tail);
      Regroup(Quoted(v), LINE_END, tail);
      assert values == [v];
    } else {
      var more := Line(Written(values[1..]));
      RecordReadBack(values[1..], tail);
      OneMoreField(v, more + tail);
      assert Written(values)[1..] == Written(values[1..]);
      Regroup([COMMA], more, tail);
      Regroup(Quoted(v), [COMMA] + more, tail);
      assert [v] + values[1..] == values;
    }
  }

  // ----- the document

  function RowRecords(s: Snapshot, rows: seq<Row>): seq<seq<Text>> {
    if rows == [] then [] else [RowRecord(s, rows[0])] + RowRecords(s, rows[1..])
  }

  lemma OneMoreRecord(values: seq<Text>, later: Text, records: seq<seq<Text>>)
    requires values != [] && ReadFile(later) == Some(records)
    ensures ReadFile(Line(Written(values)) + later) == Some([values] + records)
  {
    RecordReadBack(values, later);
    assert Line(Written(values)) + later != [] by { LineIsLong(Written(values)); }
  }

  lemma LineIsLong(cells: seq<Text>)
    requires cells != []
    ensures Line(cells) != []
  {
  }

  lemma {:induction false} LinesReadBack(s: Snapshot, rows: seq<Row>)
    ensures ReadFile(Lines(s, rows)) == Some(RowRecords(s, rows))
  {
    if rows != [] {
      LinesReadBack(s, rows[1..]);
      OneMoreRecord(RowRecord(s, rows[0]), Lines(s, rows[1..]), RowRecords(s, rows[1..]));
    }
  }

  /** Reading the exported document gives the header and one record per row, whatever the cells hold. */
  lemma DocumentReadBack(s: Snapshot, labels: Labels)
    requires |labels.headers| == COLUMNS
    ensures ReadFile(Csv(s, labels)) == Some([HeaderRecord(labels)] + RowRecords(s, Rows(s.hops, labels)))
  {
    LinesReadBack(s, Rows(s.hops, labels));
    OneMoreRecord(HeaderRecord(labels), Lines(s, Rows(s.hops, labels)), RowRecords(s, Rows(s.hops, labels)));
  }

  lemma {:induction false} RecordAt(s: Snapshot, rows: seq<Row>, i: nat)
    requires i < |rows|
    ensures |RowRecords(s, rows)| == |rows| && RowRecords(s, rows)[i] == RowRecord(s, rows[i])
  {
    if i > 0 {
      RecordAt(s, rows[1..], i - 1);
    } else if |rows| > 1 {
      RecordAt(s, rows[1..], 0);
    }
  }

  lemma {:induction false} GuardedAt(cells: seq<Text>, i: nat)
    requires i < |cells|
    ensures Guarded(cells)[i] == Protected(cells[i], true)
  {
    if i > 0 { GuardedAt(cells[1..], i - 1); }
  }

  /** A record has 21 fields; the last 14 are the row's cells, each as it was or, if it looked like a formula,
      after an apostrophe. */
  lemma RecordIsFull(s: Snapshot, row: Row, j: nat)
    requires |row.cells| == COLUMNS && j < COLUMNS
    ensures |RowRecord(s, row)| == 21 && RowRecord(s, row)[7 + j] == Protected(row.cells[j], true)
  {
    GuardedAt(row.cells, j);
    var lead, cells := RowLead(s, row), Guarded(row.cells);
    assert (lead + cells)[|lead| + j] == cells[j];
  }

  // ----- the rows

  function RowCount(hops: seq<Hop>): nat {
    if hops == [] then 0
    else (if |hops[0].responders| <= 1 then 1 else |hops[0].responders|) + RowCount(hops[1..])
  }

  /** A row per hop and one per responder but the first. */
  lemma {:induction false} RowsCount(hops: seq<Hop>, labels: Labels)
    ensures |Rows(hops, labels)| == RowCount(hops)
  {
    if hops != [] {
      RowsCount(hops[1..], labels);
    }
  }

  /** No protected cell starts as a formula would: exactly those that would get an apostrophe, and no other cell
      changes. */
  lemma ProtectedIsHarmless(value: Text)
    ensures
      var v := Protected(value, true);
      && (v == [] || (v[0] != EQUALS && v[0] != PLUS && v[0] != MINUS && v[0] != AT))
      && (v == value || v == [APOSTROPHE] + value)
      && (v != value <==> value != [] && value[0] in {EQUALS, PLUS, MINUS, AT})
  {
  }

  lemma {:induction false} DoublingNeverShortens(v: Text)
    ensures |Doubled(v)| >= |v|
  {
    if v != [] { DoublingNeverShortens(v[1..]); }
  }

  /** A cell is put in quotes only where it needs them. */
  lemma QuotedIff(v: Text)
    ensures Quoted(v) != v <==> exists i :: 0 <= i < |v| && v[i] in {COMMA, QUOTE, CR, LF}
  {
    if Plain(v) { PlainAt(v, 0); } else { DoublingNeverShortens(v); }
    if forall i | 0 <= i < |v| :: !IsSpecial(v[i]) { PlainFrom(v); }
  }

  /** Writing and reading, as the program and a reader of its file would. */
  method ExportAndRead(s: Snapshot, labels: Labels) returns (records: Option<seq<seq<Text>>>)
    requires |labels.headers| == COLUMNS
    ensures records == Some([HeaderRecord(labels)] + RowRecords(s, Rows(s.hops, labels)))
  {
    var document := SerializeCsv(s, labels);
    DocumentReadBack(s, labels);
    records := ReadFile(document);
  }
}
