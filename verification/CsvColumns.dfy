/** What a reader of the exported file finds under each column. */
module CsvColumns {
  import opened Basics
  import opened Unicode
  import opened Serialization
  import opened CsvDocuments
  import opened CsvReading

  datatype Column =
    | Target | SessionId | RowKind | Ip | StartedAt | EndedAt | DurationMs
    | Host | HopNumber | Loss | Sent | Received | Best | Average | Worst | Last | Jitter | StdDev
    | Country | Asn | Isp

  /** The order of the columns, as the header gives it. */
  function Place(c: Column): nat {
    match c
    case Target => 0 case SessionId => 1 case RowKind => 2 case Ip => 3 case StartedAt => 4 case EndedAt => 5
    case DurationMs => 6
    case Host => 7 case HopNumber => 8 case Loss => 9 case Sent => 10 case Received => 11 case Best => 12
    case Average => 13 case Worst => 14 case Last => 15 case Jitter => 16 case StdDev => 17
    case Country => 18 case Asn => 19 case Isp => 20
  }

  const WIDTH := 21

  /** The field of a record under a column; nothing if the record is too short. */
  function TextIn(record: seq<Text>, c: Column): Text { if Place(c) < |record| then record[Place(c)] else [] }

  // ----- numbers

  predicate IsDigitUnit(u: Unit) { 48 <= u <= 57 }

  /** The number a text of digits shows. */
  function NumberOf(t: Text): Option<nat> {
    if t == [] || !IsDigitUnit(Basics.Last(t)) then None
    else if |t| == 1 then Some(t[0] - 48)
    else match NumberOf(Front(t))
      case None => None
      case Some(n) => Some(10 * n + (Basics.Last(t) - 48))
  }

  function NumberIn(record: seq<Text>, c: Column): Option<nat> { NumberOf(TextIn(record, c)) }

  /** A number as it is written is read as that number, and is never taken for a formula. */
  lemma {:induction false} NumberReadBack(n: nat)
    ensures NumberOf(Number(n)) == Some(n)
    ensures Number(n) != [] && IsDigitUnit(Number(n)[0])
  {
    if n >= 10 {
      NumberReadBack(n / 10);
      assert Front(Number(n)) == Number(n / 10);
    }
  }

  lemma NumberStays(n: nat)
    ensures Protected(Number(n), true) == Number(n) && NumberOf(Protected(Number(n), true)) == Some(n)
  {
    NumberReadBack(n);
  }

  // ----- a record by its columns

  /** What a column tells: a number; a text, which has an apostrophe in front if it looks like a formula; or a text
      as it is. */
  datatype Field = Numeral(n: nat) | Guarding(text: Text) | Plainly(text: Text)

  predicate Tells(record: seq<Text>, c: Column, f: Field) {
    match f
    case Numeral(n) => NumberIn(record, c) == Some(n)
    case Guarding(text) => TextIn(record, c) == Protected(text, true)
    case Plainly(text) => TextIn(record, c) == text
  }

  /** What all rows of a file share, and what else the first columns say of a row. */
  function LeadField(s: Snapshot, kind: Text, ip: Text, c: Column): Field {
    match c
    case Target => Guarding(s.target)
    case SessionId => Numeral(s.session)
    case RowKind => Plainly(kind)
    case Ip => Guarding(ip)
    case StartedAt => Plainly(s.started)
    case EndedAt => Plainly(if s.endedAt == 0 then [] else s.ended)
    case DurationMs => Numeral(s.duration)
    case _ => Plainly([])
  }

  /** A time of a hop; none if nothing has come back from it. */
  function IfAny(h: Hop, f: Field): Field { if h.returned == 0 then Plainly([]) else f }

  /** What the columns are to say of a hop. Its name is its own, or that of its first responder, or what stands for a
      host that does not answer. */
  function HopField(s: Snapshot, h: Hop, labels: Labels, c: Column): Field {
    match c
    case Host =>
      Guarding(if h.name != [] then h.name
               else if h.responders != [] && h.responders[0].name != [] then h.responders[0].name
               else labels.noResponse)
    case HopNumber => Numeral(h.number)
    case Loss => Guarding(h.loss)
    case Sent => Numeral(h.sent)
    case Received => Numeral(h.returned)
    case Best => IfAny(h, Numeral(h.best))
    case Average => IfAny(h, Guarding(h.average))
    case Worst => IfAny(h, Numeral(h.worst))
    case Last => IfAny(h, Numeral(h.last))
    case Jitter => IfAny(h, Guarding(h.jitter))
    case StdDev => IfAny(h, Guarding(h.stddev))
    case Country => Guarding(h.country)
    case Asn => Guarding(h.asn)
    case Isp => Guarding(h.isp)
    case _ => LeadField(s, HOP_KIND, h.ip, c)
  }

  /** And of a further responder of that hop. */
  function ResponderField(s: Snapshot, h: Hop, r: Responder, c: Column): Field {
    match c
    case Host => Guarding(INDENT + r.name)
    case HopNumber => Numeral(h.number)
    case Loss => Plainly([])
    case Sent => Plainly([])
    case Received => Numeral(r.hits)
    case Best => Numeral(r.best)
    case Average => Guarding(r.average)
    case Worst => Numeral(r.worst)
    case Last => Numeral(r.last)
    case Jitter => Guarding(r.jitter)
    case StdDev => Guarding(r.stddev)
    case Country => Guarding(r.country)
    case Asn => Guarding(r.asn)
    case Isp => Guarding(r.isp)
    case _ => LeadField(s, RESPONDER_KIND, r.ip, c)
  }

  lemma LeadTells(s: Snapshot, row: Row, c: Column)
    requires |row.cells| == COLUMNS && Place(c) < 7
    ensures Tells(RowRecord(s, row), c, LeadField(s, row.kind, row.ip, c))
  {
    var lead, cells := RowLead(s, row), Guarded(row.cells);
    assert (lead + cells)[Place(c)] == lead[Place(c)];
    NumberReadBack(s.session);
    NumberReadBack(s.duration);
  }

  /** The cell that says it. */
  predicate IsCell(cell: Text, f: Field) {
    match f
    case Numeral(n) => cell == Number(n)
    case Guarding(text) => cell == text
    case Plainly(text) => cell == text == []
  }

  lemma CellTells(s: Snapshot, row: Row, c: Column, f: Field)
    requires |row.cells| == COLUMNS && Place(c) >= 7 && IsCell(row.cells[Place(c) - 7], f)
    ensures Tells(RowRecord(s, row), c, f)
  {
    RecordIsFull(s, row, Place(c) - 7);
    if f.Numeral? { NumberStays(f.n); }
  }

  lemma HopCell(s: Snapshot, h: Hop, labels: Labels, c: Column)
    requires Place(c) >= 7
    ensures IsCell(HopRow(h, labels).cells[Place(c) - 7], HopField(s, h, labels, c))
  {
  }

  lemma ResponderCell(s: Snapshot, h: Hop, r: Responder, c: Column)
    requires Place(c) >= 7
    ensures IsCell(ResponderRow(h, r).cells[Place(c) - 7], ResponderField(s, h, r, c))
  {
  }

  /** Read by column, the record of a hop gives the hop back. */
  lemma HopReadBack(s: Snapshot, h: Hop, labels: Labels, row: Row, c: Column)
    requires row == HopRow(h, labels)
    ensures Tells(RowRecord(s, row), c, HopField(s, h, labels, c))
  {
    if Place(c) < 7 {
      LeadTells(s, row, c);
    } else {
      HopCell(s, h, labels, c);
      CellTells(s, row, c, HopField(s, h, labels, c));
    }
  }

  lemma ResponderReadBack(s: Snapshot, h: Hop, r: Responder, row: Row, c: Column)
    requires row == ResponderRow(h, r)
    ensures Tells(RowRecord(s, row), c, ResponderField(s, h, r, c))
  {
    if Place(c) < 7 {
      LeadTells(s, row, c);
    } else {
      ResponderCell(s, h, r, c);
      CellTells(s, row, c, ResponderField(s, h, r, c));
    }
  }

  /** The first row of a hop is its own, and the others are those of its responders, without the first. */
  function FieldOf(s: Snapshot, h: Hop, labels: Labels, j: nat, c: Column): Field
    requires j == 0 || j < |h.responders|
  {
    if j == 0 then HopField(s, h, labels, c) else ResponderField(s, h, h.responders[j], c)
  }

  // ----- where the rows are

  lemma {:induction false} OtherRowAt(h: Hop, index: nat, j: nat)
    requires index <= j < |h.responders|
    ensures OtherRows(h, index)[j - index] == ResponderRow(h, h.responders[j])
    decreases |h.responders| - index
  {
    if index < j { OtherRowAt(h, index + 1, j); }
  }

  lemma RowReadBack(s: Snapshot, h: Hop, labels: Labels, j: nat, row: Row, c: Column)
    requires j == 0 || j < |h.responders|
    requires row == HopRows(h, labels)[j]
    ensures Tells(RowRecord(s, row), c, FieldOf(s, h, labels, j, c))
  {
    if j == 0 {
      HopReadBack(s, h, labels, row, c);
    } else {
      OtherRowAt(h, 1, j);
      ResponderReadBack(s, h, h.responders[j], row, c);
    }
  }

  lemma Later<T>(first: seq<T>, later: seq<T>, n: nat)
    requires n < |later|
    ensures (first + later)[|first| + n] == later[n]
  {
  }

  /** Pieces one after the other. */
  function Flat<T>(pieces: seq<seq<T>>): seq<T> {
    if pieces == [] then [] else pieces[0] + Flat(pieces[1..])
  }

  lemma {:induction false} FlatAt<T>(pieces: seq<seq<T>>, i: nat, j: nat)
    requires i < |pieces| && j < |pieces[i]|
    ensures |Flat(pieces[..i])| + j < |Flat(pieces)| && Flat(pieces)[|Flat(pieces[..i])| + j] == pieces[i][j]
    decreases i
  {
    if i == 0 {
      assert pieces[..0] == [];
    } else {
      FlatAt(pieces[1..], i - 1, j);
      assert pieces[..i][0] == pieces[0] && pieces[..i][1..] == pieces[1..][..i - 1];
    }
  }

  function Pieces(hops: seq<Hop>, labels: Labels): seq<seq<Row>> {
    seq(|hops|, i requires 0 <= i < |hops| => HopRows(hops[i], labels))
  }

  lemma {:induction false} RowsAreFlat(hops: seq<Hop>, labels: Labels)
    ensures Rows(hops, labels) == Flat(Pieces(hops, labels))
  {
    if hops != [] {
      RowsAreFlat(hops[1..], labels);
      assert Pieces(hops, labels)[1..] == Pieces(hops[1..], labels);
    }
  }

  lemma CountIsFlat(hops: seq<Hop>, labels: Labels, i: nat)
    requires i <= |hops|
    ensures |Flat(Pieces(hops, labels)[..i])| == RowCount(hops[..i])
  {
    assert Pieces(hops, labels)[..i] == Pieces(hops[..i], labels);
    RowsAreFlat(hops[..i], labels);
    RowsCount(hops[..i], labels);
  }

  /** The rows of a hop stand together, after those of the hops before it. */
  lemma RowAt(hops: seq<Hop>, labels: Labels, i: nat, j: nat)
    requires i < |hops| && j < |HopRows(hops[i], labels)|
    ensures RowCount(hops[..i]) + j < |Rows(hops, labels)|
    ensures Rows(hops, labels)[RowCount(hops[..i]) + j] == HopRows(hops[i], labels)[j]
  {
    RowsAreFlat(hops, labels);
    CountIsFlat(hops, labels, i);
    FlatAt(Pieces(hops, labels), i, j);
  }

  lemma RecordReadBackAt(s: Snapshot, labels: Labels, records: seq<seq<Text>>, header: seq<Text>, i: nat, j: nat,
                         c: Column)
    requires i < |s.hops| && (j == 0 || j < |s.hops[i].responders|)
    requires records == [header] + RowRecords(s, Rows(s.hops, labels))
    ensures
      var k := 1 + RowCount(s.hops[..i]) + j;
      && k < |records| && |records[k]| == WIDTH && Tells(records[k], c, FieldOf(s, s.hops[i], labels, j, c))
  {
    var rows, k := Rows(s.hops, labels), RowCount(s.hops[..i]) + j;
    RowAt(s.hops, labels, i, j);
    RecordAt(s, rows, k);
    Later([header], RowRecords(s, rows), k);
    RowsAreFull(s.hops, labels);
    assert rows[k] in rows;
    RecordIsFull(s, rows[k], 0);
    RowReadBack(s, s.hops[i], labels, j, rows[k], c);
  }

  /** Every hop, and every responder of it but the first, can be read back from the file by column: from the record
      that stands where it stands in the trace. */
  lemma FileReadBack(s: Snapshot, labels: Labels, i: nat, j: nat, c: Column)
    requires |labels.headers| == COLUMNS
    requires i < |s.hops| && (j == 0 || j < |s.hops[i].responders|)
    ensures
      var file, k := ReadFile(Csv(s, labels)), 1 + RowCount(s.hops[..i]) + j;
      && file.Some? && k < |file.value| && |file.value[k]| == WIDTH
      && Tells(file.value[k], c, FieldOf(s, s.hops[i], labels, j, c))
  {
    DocumentReadBack(s, labels);
    var records := [HeaderRecord(labels)] + RowRecords(s, Rows(s.hops, labels));
    RecordReadBackAt(s, labels, records, HeaderRecord(labels), i, j, c);
  }
}
