/** The finance export as CSV text, read back by the grammar of section 2 of RFC 4180. */
module FinanceCsv {
  import opened Wrappers
  import opened Decimal

  // ----- writing -----

  predicate Special(c: char) {
    c == '"' || c == ',' || c == '\r' || c == '\n'
  }

  predicate NeedsQuotes(value: string) {
    exists i :: 0 <= i < |value| && Special(value[i])
  }

  function DoubleQuotes(value: string): string {
    if value == "" then ""
    else (if value[0] == '"' then "\"\"" else [value[0]]) + DoubleQuotes(value[1..])
  }

  lemma {:induction false} DoubledLength(value: string)
    ensures |DoubleQuotes(value)| >= |value|
  {
    if value != "" {
      DoubledLength(value[1..]);
    }
  }

  function CsvCell(value: string): string {
    if NeedsQuotes(value) then "\"" + DoubleQuotes(value) + "\"" else value
  }

  function CsvRow(cells: seq<string>): string {
    if cells == [] then ""
    else if |cells| == 1 then CsvCell(cells[0])
    else CsvCell(cells[0]) + "," + CsvRow(cells[1..])
  }

  function CsvText(rows: seq<seq<string>>): string {
    if rows == [] then ""
    else if |rows| == 1 then CsvRow(rows[0])
    else CsvRow(rows[0]) + "\r\n" + CsvText(rows[1..])
  }

  // ----- reading: RFC 4180 -----

  /** escaped: up to the closing quote, with doubled quotes as one. */
  function ReadEscaped(t: string): (r: Option<(string, string)>)
    ensures r.Some? ==> |r.value.1| < |t|
  {
    if t == "" then None
    else if t[0] != '"' then
      match ReadEscaped(t[1..])
      case None => None
      case Some((v, rest)) => Some(([t[0]] + v, rest))
    else if |t| > 1 && t[1] == '"' then
      match ReadEscaped(t[2..])
      case None => None
      case Some((v, rest)) => Some(("\"" + v, rest))
    else Some(("", t[1..]))
  }

  /** non-escaped: as much plain text as there is. */
  function ReadPlain(t: string): (r: (string, string))
    ensures |r.1| <= |t|
  {
    if t == "" || Special(t[0]) then ("", t)
    else var (v, rest) := ReadPlain(t[1..]); ([t[0]] + v, rest)
  }

  function ReadField(t: string): (r: Option<(string, string)>)
    ensures r.Some? ==> |r.value.1| <= |t|
  {
    if t != "" && t[0] == '"' then ReadEscaped(t[1..]) else Some(ReadPlain(t))
  }

  /** record: fields separated by commas. */
  function ReadRecord(t: string): (r: Option<(seq<string>, string)>)
    ensures r.Some? ==> |r.value.1| <= |t|
    decreases |t|
  {
    match ReadField(t)
    case None => None
    case Some((field, rest)) =>
      if rest != "" && rest[0] == ',' then
        match ReadRecord(rest[1..])
        case None => None
        case Some((fields, after)) => Some(([field] + fields, after))
      else Some(([field], rest))
  }

  predicate StartsLine(t: string) {
    |t| >= 2 && t[0] == '\r' && t[1] == '\n'
  }

  /** file: records separated by CRLF, with an optional CRLF at the end. */
  function ReadFile(t: string): Option<seq<seq<string>>>
    decreases |t|
  {
    match ReadRecord(t)
    case None => None
    case Some((record, rest)) =>
      if rest == "" || rest == "\r\n" then Some([record])
      else if StartsLine(rest) then
        match ReadFile(rest[2..])
        case None => None
        case Some(records) => Some([record] + records)
      else None
  }

  // ----- round trip -----

  /** What may follow a field. */
  predicate FieldEnds(r: string) {
    r == "" || r[0] == ',' || StartsLine(r)
  }

  lemma Assoc(a: string, b: string, c: string)
    ensures (a + b) + c == a + (b + c)
  {
  }

  lemma EscapedGoesOn(c: char, rest: string, value: string, r: string)
    requires ReadEscaped(rest) == Some((value, r))
    ensures ReadEscaped((if c == '"' then "\"\"" else [c]) + rest) == Some(([c] + value, r))
  {
    var t := (if c == '"' then "\"\"" else [c]) + rest;
    if c == '"' {
      assert t[2..] == rest;
    } else {
      assert t[1..] == rest;
    }
  }

  lemma {:induction false} EscapedReads(value: string, r: string)
    requires r == "" || r[0] != '"'
    ensures ReadEscaped(DoubleQuotes(value) + ("\"" + r)) == Some((value, r))
  {
    if value == "" {
      assert DoubleQuotes(value) + ("\"" + r) == "\"" + r;
      assert ("\"" + r)[1..] == r;
    } else {
      var rest := DoubleQuotes(value[1..]) + ("\"" + r);
      EscapedReads(value[1..], r);
      EscapedGoesOn(value[0], rest, value[1..], r);
      Assoc(if value[0] == '"' then "\"\"" else [value[0]], DoubleQuotes(value[1..]), "\"" + r);
      assert value == [value[0]] + value[1..];
    }
  }

  lemma {:induction false} PlainReads(value: string, r: string)
    requires !NeedsQuotes(value) && (r == "" || Special(r[0]))
    ensures ReadPlain(value + r) == (value, r)
  {
    if value == "" {
      assert value + r == r;
    } else {
      var rest := value[1..];
      assert forall i :: 0 <= i < |rest| ==> rest[i] == value[i + 1];
      PlainReads(rest, r);
      assert (value + r)[1..] == rest + r && value == [value[0]] + rest;
      assert !Special(value[0]);
    }
  }

  lemma AfterQuote(t: string, r: string)
    ensures ("\"" + t + "\"" + r)[0] == '"'
    ensures ("\"" + t + "\"" + r)[1..] == t + ("\"" + r)
  {
  }

  lemma Regroup(a: string, b: string, c: string, d: string)
    ensures a + b + c + d == a + (b + (c + d))
  {
  }

  lemma QuotedCellReads(value: string, r: string)
    requires r == "" || r[0] != '"'
    ensures ReadField("\"" + DoubleQuotes(value) + "\"" + r) == Some((value, r))
  {
    EscapedReads(value, r);
    AfterQuote(DoubleQuotes(value), r);
  }

  lemma PlainCellReads(value: string, r: string)
    requires !NeedsQuotes(value) && (r == "" || (Special(r[0]) && r[0] != '"'))
    ensures ReadField(value + r) == Some((value, r))
  {
    PlainReads(value, r);
    if value != "" {
      assert !Special(value[0]) && (value + r)[0] == value[0];
    } else {
      assert value + r == r;
    }
  }

  /** Any cell content, quotes, commas and line breaks included, reads back as itself. */
  lemma CellReads(value: string, r: string)
    requires FieldEnds(r)
    ensures ReadField(CsvCell(value) + r) == Some((value, r))
  {
    if NeedsQuotes(value) {
      QuotedCellReads(value, r);
    } else {
      PlainCellReads(value, r);
    }
  }

  lemma RecordGoesOn(t: string, field: string, more: string, fields: seq<string>, after: string)
    requires ReadField(t) == Some((field, "," + more)) && ReadRecord(more) == Some((fields, after))
    ensures ReadRecord(t) == Some(([field] + fields, after))
  {
    assert ("," + more)[1..] == more;
  }

  lemma {:induction false} RowReads(cells: seq<string>, r: string)
    requires cells != [] && (r == "" || StartsLine(r))
    ensures ReadRecord(CsvRow(cells) + r) == Some((cells, r))
    decreases |cells|
  {
    if |cells| == 1 {
      CellReads(cells[0], r);
      assert cells == [cells[0]];
    } else {
      var more := CsvRow(cells[1..]) + r;
      RowReads(cells[1..], r);
      CellReads(cells[0], "," + more);
      Regroup(CsvCell(cells[0]), ",", CsvRow(cells[1..]), r);
      RecordGoesOn(CsvRow(cells) + r, cells[0], more, cells[1..], r);
      assert cells == [cells[0]] + cells[1..];
    }
  }

  lemma FileGoesOn(t: string, record: seq<string>, more: string, records: seq<seq<string>>)
    requires ReadRecord(t) == Some((record, "\r\n" + more)) && more != "" && ReadFile(more) == Some(records)
    ensures ReadFile(t) == Some([record] + records)
  {
    var rest := "\r\n" + more;
    assert rest[2..] == more && |rest| > 2;
  }

  lemma RowNotEmpty(cells: seq<string>)
    requires |cells| >= 2
    ensures CsvRow(cells) != ""
  {
  }

  lemma {:induction false} TextNotEmpty(rows: seq<seq<string>>)
    requires rows != [] && forall i :: 0 <= i < |rows| ==> |rows[i]| >= 2
    ensures CsvText(rows) != ""
  {
    RowNotEmpty(rows[0]);
  }

  /** Reading the export by the grammar gives back exactly its cells. */
  lemma {:induction false} CsvRoundTrip(rows: seq<seq<string>>)
    requires rows != [] && forall i :: 0 <= i < |rows| ==> |rows[i]| >= 2
    ensures ReadFile(CsvText(rows)) == Some(rows)
    decreases |rows|
  {
    if |rows| == 1 {
      RowReads(rows[0], "");
      assert CsvRow(rows[0]) + "" == CsvRow(rows[0]);
      assert rows == [rows[0]];
    } else {
      var more := CsvText(rows[1..]);
      CsvRoundTrip(rows[1..]);
      TextNotEmpty(rows[1..]);
      RowReads(rows[0], "\r\n" + more);
      assert CsvText(rows) == CsvRow(rows[0]) + ("\r\n" + more);
      FileGoesOn(CsvText(rows), rows[0], more, rows[1..]);
      assert rows == [rows[0]] + rows[1..];
    }
  }

  // ----- amounts -----

  /** `padStart` with zeros. */
  function PadStart(s: string, width: nat): string {
    if |s| >= width then s else Zeros(width - |s|) + s
  }

  lemma {:induction false} ZerosLength(n: nat)
    ensures |Zeros(n)| == n
  {
    if n > 0 { ZerosLength(n - 1); }
  }

  lemma PadStartLength(s: string, width: nat)
    ensures |PadStart(s, width)| == if |s| > width then |s| else width
  {
    if |s| < width { ZerosLength(width - |s|); }
  }

  /** Digits with a point before the last `scale` of them. */
  function PlacePoint(digits: string, scale: nat): string {
    PadStartLength(digits, scale + 1);
    var padded := PadStart(digits, scale + 1);
    padded[..|padded| - scale] + "." + padded[|padded| - scale..]
  }

  /** An integer amount of minor units as a decimal. */
  function ExactDecimal(amount: string, scale: nat): string {
    if scale == 0 then amount
    else if amount != "" && amount[0] == '-' then "-" + PlacePoint(amount[1..], scale)
    else PlacePoint(amount, scale)
  }

  lemma PadStartValue(digits: string, width: nat)
    requires AllDigits(digits)
    ensures AllDigits(PadStart(digits, width)) && Value(PadStart(digits, width)) == Value(digits)
  {
    if |digits| < width {
      ZerosValue(width - |digits|, digits);
    }
  }

  lemma PlacePointKeepsValue(digits: string, scale: nat) returns (whole: string, fraction: string)
    requires IsNumber(digits)
    ensures PlacePoint(digits, scale) == whole + "." + fraction
    ensures whole != "" && |fraction| == scale
    ensures AllDigits(whole + fraction) && Value(whole + fraction) == Value(digits)
    ensures |whole + fraction| == if |digits| > scale then |digits| else scale + 1
  {
    var padded := PadStart(digits, scale + 1);
    PadStartLength(digits, scale + 1);
    PadStartValue(digits, scale + 1);
    whole, fraction := padded[..|padded| - scale], padded[|padded| - scale..];
    assert whole + fraction == padded;
  }

  /** The sign is put back in front. */
  lemma SignKept(digits: string, scale: nat)
    requires IsNumber(digits)
    ensures ExactDecimal("-" + digits, scale) == "-" + ExactDecimal(digits, scale)
    ensures scale > 0 ==> ExactDecimal(digits, scale) == PlacePoint(digits, scale)
  {
    var amount := "-" + digits;
    assert amount[0] == '-' && amount[1..] == digits && IsDigit(digits[0]);
  }

  /**
   * The decimal has the amount's sign, a whole part, exactly `scale` fraction digits after a point, and
   * the value of its digits. An amount without a scale stays as it is.
   */
  lemma ExactDecimalKeepsValue(digits: string, scale: nat) returns (whole: string, fraction: string)
    requires IsNumber(digits)
    ensures ExactDecimal(digits, scale) == if scale == 0 then whole else whole + "." + fraction
    ensures ExactDecimal("-" + digits, scale) == "-" + ExactDecimal(digits, scale)
    ensures whole != "" && |fraction| == scale
    ensures AllDigits(whole + fraction) && Value(whole + fraction) == Value(digits)
    ensures scale == 0 ==> whole == digits
    ensures scale > 0 ==> |whole + fraction| == if |digits| > scale then |digits| else scale + 1
  {
    SignKept(digits, scale);
    if scale == 0 {
      whole, fraction := digits, "";
      assert whole + fraction == digits;
    } else {
      whole, fraction := PlacePointKeepsValue(digits, scale);
    }
  }

  // ----- the export -----

  datatype EntryKind = Payment | Refund | Invoice

  datatype Entry = Entry(
    kind: EntryKind, reference: string, order: string, status: string, amount: string, scale: nat,
    currency: string, occurredAt: string, description: string)

  function KindLabel(kind: EntryKind, english: bool): string {
    match kind
    case Payment => if english then "Payment" else "\U{652F}\U{4ED8}"
    case Refund => if english then "Refund" else "\U{9000}\U{6B3E}"
    case Invoice => if english then "Invoice" else "\U{53D1}\U{7968}"
  }

  function EntryCells(e: Entry, english: bool): seq<string> {
    var amount := ExactDecimal(e.amount, e.scale);
    [KindLabel(e.kind, english), e.reference, e.order, e.status,
     if e.kind.Refund? then "-" + amount else amount,
     e.currency, e.occurredAt, e.description]
  }

  /** The header row. */
  function Headers(english: bool): seq<string> {
    if english then ["Type", "Reference", "Order", "Status", "Amount", "Currency", "Occurred at", "Description"]
    else
      ["\U{7C7B}\U{578B}", "\U{7F16}\U{53F7}", "\U{8BA2}\U{5355}", "\U{72B6}\U{6001}", "\U{91D1}\U{989D}",
       "\U{5E01}\U{79CD}", "\U{53D1}\U{751F}\U{65F6}\U{95F4}", "\U{8BF4}\U{660E}"]
  }

  function Table(entries: seq<Entry>, english: bool): seq<seq<string>> {
    [Headers(english)] + seq(|entries|, i requires 0 <= i < |entries| => EntryCells(entries[i], english))
  }

  /** `storeFinanceCsv`, given the entries in export order. */
  function StoreFinanceCsv(entries: seq<Entry>, english: bool): string {
    CsvText(Table(entries, english))
  }

  /** The row tells the entry, column by column; exactly a refund's amount gets a minus sign before it. */
  predicate Tells(row: seq<string>, e: Entry, english: bool) {
    && |row| == 8
    && row[0] == (match e.kind
                  case Payment => if english then "Payment" else "\U{652F}\U{4ED8}"
                  case Refund => if english then "Refund" else "\U{9000}\U{6B3E}"
                  case Invoice => if english then "Invoice" else "\U{53D1}\U{7968}")
    && row[1] == e.reference && row[2] == e.order && row[3] == e.status
    && (e.kind.Refund? ==> row[4] == "-" + ExactDecimal(e.amount, e.scale))
    && (!e.kind.Refund? ==> row[4] == ExactDecimal(e.amount, e.scale))
    && row[5] == e.currency && row[6] == e.occurredAt && row[7] == e.description
  }

  lemma CellsTell(e: Entry, english: bool)
    ensures Tells(EntryCells(e, english), e, english)
  {
  }

  lemma TableRows(entries: seq<Entry>, english: bool)
    ensures
      var rows := Table(entries, english);
      && |rows| == 1 + |entries| && rows[0] == Headers(english) && |rows[0]| == 8
      && forall i :: 0 <= i < |entries| ==> rows[i + 1] == EntryCells(entries[i], english)
  {
  }

  /** The export reads back as its header and one row per entry that tells it, whatever the entries contain. */
  lemma ExportReadsBack(entries: seq<Entry>, english: bool) returns (rows: seq<seq<string>>)
    ensures ReadFile(StoreFinanceCsv(entries, english)) == Some(rows)
    ensures |rows| == 1 + |entries| && |rows[0]| == 8
    ensures english ==>
              rows[0] == ["Type", "Reference", "Order", "Status", "Amount", "Currency", "Occurred at", "Description"]
    ensures !english ==>
              rows[0] ==
              ["\U{7C7B}\U{578B}", "\U{7F16}\U{53F7}", "\U{8BA2}\U{5355}", "\U{72B6}\U{6001}", "\U{91D1}\U{989D}",
               "\U{5E01}\U{79CD}", "\U{53D1}\U{751F}\U{65F6}\U{95F4}", "\U{8BF4}\U{660E}"]
    ensures forall i :: 0 <= i < |entries| ==> Tells(rows[i + 1], entries[i], english)
  {
    rows := Table(entries, english);
    TableRows(entries, english);
    CsvRoundTrip(rows);
    forall i | 0 <= i < |entries| ensures Tells(rows[i + 1], entries[i], english) {
      CellsTell(entries[i], english);
    }
  }

  /** A cell is quoted only where it must be. */
  lemma QuotedOnlyIfNeeded(value: string)
    ensures CsvCell(value) == value <==>
            forall i :: 0 <= i < |value| ==> value[i] !in {'"', ',', '\r', '\n'}
  {
    if NeedsQuotes(value) {
      DoubledLength(value);
    }
  }
}
