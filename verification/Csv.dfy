/**
 * The CSV branch of the report export, and a reader for RFC 4180 section 2 that inverts it.
 * Lines end in LF, as the writer's do, where the RFC has CRLF.
 */
module Csv {
  import opened Prelude

  /** An exported record: its properties in order, values already turned into strings. */
  type Record = seq<(string, string)>

  const SHIPMENT_COLUMNS := ["AWB", "Status", "MerchantID", "DistributorID", "WarehouseID", "Weight", "DeclaredValue",
                             "isCOD", "CODAmount", "OriginCity", "DestinationCity", "CreatedAt"]
  const TRANSACTION_COLUMNS := ["TransactionID", "WalletID", "UserID", "Type", "Amount", "BalanceBefore", "BalanceAfter",
                                "Reference", "PerformedBy", "CreatedAt"]

  // ----- writer -----

  function Keys(item: Record): (keys: seq<string>)
    ensures |keys| == |item| && forall i | 0 <= i < |item| :: keys[i] == item[i].0
  {
    seq(|item|, i requires 0 <= i < |item| => item[i].0)
  }

  /** item[header] ?? '' */
  function Lookup(item: Record, header: string): string {
    if item == [] then "" else if item[0].0 == header then item[0].1 else Lookup(item[1..], header)
  }

  /** The first value under a name, and nothing where a record lacks the column: `item` is what comes before it. */
  lemma {:induction false} LookupIs(item: Record, header: string, value: string, rest: Record)
    requires forall i | 0 <= i < |item| :: item[i].0 != header
    ensures Lookup(item, header) == "" && Lookup(item + [(header, value)] + rest, header) == value
  {
    if item != [] {
      LookupIs(item[1..], header, value, rest);
      assert (item + [(header, value)] + rest)[1..] == item[1..] + [(header, value)] + rest;
    }
  }

  function Row(item: Record, headers: seq<string>): (row: seq<string>)
    ensures |row| == |headers| && forall i | 0 <= i < |headers| :: row[i] == Lookup(item, headers[i])
  {
    seq(|headers|, i requires 0 <= i < |headers| => Lookup(item, headers[i]))
  }

  function EscapedChar(c: char): string {
    if c == '"' then "\"\"" else [c]
  }

  /** val.replace(/"/g, '""') */
  function Escape(val: string): string {
    if val == "" then "" else EscapedChar(val[0]) + Escape(val[1..])
  }

  function Quote(val: string): string {
    "\"" + Escape(val) + "\""
  }

  /** Array.prototype.join */
  function Join(parts: seq<string>, separator: string): string {
    if parts == [] then ""
    else if |parts| == 1 then parts[0]
    else parts[0] + separator + Join(parts[1..], separator)
  }

  function Quoted(row: seq<string>): (quoted: seq<string>)
    ensures |quoted| == |row| && forall i | 0 <= i < |row| :: quoted[i] == Quote(row[i])
  {
    seq(|row|, i requires 0 <= i < |row| => Quote(row[i]))
  }

  /** The table a reader should see: the column names, then one row per record. */
  function Table(data: seq<Record>): seq<seq<string>>
    requires data != []
  {
    [Keys(data[0])] + Rows(data, Keys(data[0]))
  }

  function Rows(data: seq<Record>, headers: seq<string>): (rows: seq<seq<string>>)
    ensures |rows| == |data| && forall i | 0 <= i < |data| :: rows[i] == Row(data[i], headers)
  {
    seq(|data|, i requires 0 <= i < |data| => Row(data[i], headers))
  }

  /** The lines of a table: unquoted column names, then quoted rows. */
  function Print(headers: seq<string>, rows: seq<seq<string>>): string {
    Join([Join(headers, ",")] + RowLines(rows), "\n")
  }

  function RowLines(rows: seq<seq<string>>): (lines: seq<string>)
    ensures |lines| == |rows| && forall i | 0 <= i < |rows| :: lines[i] == Join(Quoted(rows[i]), ",")
  {
    seq(|rows|, i requires 0 <= i < |rows| => Join(Quoted(rows[i]), ","))
  }

  /** The exported text: nothing for no data, else the table under the first record's column names. */
  function Export(data: seq<Record>): string {
    if data == [] then "" else Print(Keys(data[0]), Rows(data, Keys(data[0])))
  }

  method GenerateCsv(data: seq<Record>) returns (csv: string)
    ensures csv == Export(data)
  {
    if data == [] {
      return "";
    }
    var headers := Keys(data[0]);
    var csvRows := [Join(headers, ",")];
    for n := 0 to |data|
      invariant csvRows == [Join(headers, ",")] + RowLines(Rows(data, headers))[..n]
    {
      var values := [];
      for c := 0 to |headers|
        invariant values == Quoted(Row(data[n], headers))[..c]
      {
        values := values + [Quote(Lookup(data[n], headers[c]))];
      }
      assert values == Quoted(Row(data[n], headers));
      csvRows := csvRows + [Join(values, ",")];
    }
    assert csvRows == [Join(headers, ",")] + RowLines(Rows(data, headers));
    csv := Join(csvRows, "\n");
  }

  // ----- reader -----

  datatype Parsed<T> = Parsed(value: T, rest: string)

  /** The inside of a quoted field, up to and including its closing quote; a doubled quote stands for one. */
  function ParseQuoted(s: string): (r: Option<Parsed<string>>)
    ensures r.Some? ==> |r.value.rest| < |s|
  {
    if s == "" then None
    else if s[0] != '"' then
      match ParseQuoted(s[1..])
      case None => None
      case Some(p) => Some(Parsed([s[0]] + p.value, p.rest))
    else if |s| > 1 && s[1] == '"' then
      match ParseQuoted(s[2..])
      case None => None
      case Some(p) => Some(Parsed("\"" + p.value, p.rest))
    else Some(Parsed("", s[1..]))
  }

  predicate Special(c: char) {
    c == '"' || c == ',' || c == '\n'
  }

  /** An unquoted field: everything before the next quote, comma or line end. */
  function ParsePlain(s: string): (p: Parsed<string>)
    ensures |p.rest| <= |s|
  {
    if s == "" || Special(s[0]) then Parsed("", s)
    else var p := ParsePlain(s[1..]); Parsed([s[0]] + p.value, p.rest)
  }

  function ParseField(s: string): (r: Option<Parsed<string>>)
    ensures r.Some? ==> |r.value.rest| <= |s|
  {
    if s != "" && s[0] == '"' then ParseQuoted(s[1..]) else Some(ParsePlain(s))
  }

  function ParseRecord(s: string): (r: Option<Parsed<seq<string>>>)
    ensures r.Some? ==> |r.value.rest| <= |s|
    decreases |s|
  {
    match ParseField(s)
    case None => None
    case Some(p) =>
      if p.rest == "" || p.rest[0] != ',' then Some(Parsed([p.value], p.rest))
      else match ParseRecord(p.rest[1..])
        case None => None
        case Some(q) => Some(Parsed([p.value] + q.value, q.rest))
  }

  /** A whole file; the line end after the last record may be missing. */
  function ParseFile(s: string): Option<seq<seq<string>>>
    decreases |s|
  {
    match ParseRecord(s)
    case None => None
    case Some(p) =>
      if p.rest == "" || p.rest == "\n" then Some([p.value])
      else if p.rest[0] != '\n' then None
      else match ParseFile(p.rest[1..])
        case None => None
        case Some(records) => Some([p.value] + records)
  }

  // ----- the reader undoes the writer -----

  /** One more escaped character in front of a quoted field that can be read. */
  lemma {:induction false} ParseQuotedChar(c: char, tail: string)
    requires ParseQuoted(tail).Some?
    ensures var p := ParseQuoted(tail).value; ParseQuoted(EscapedChar(c) + tail) == Some(Parsed([c] + p.value, p.rest))
  {
    var head := EscapedChar(c);
    assert (head + tail)[|head|..] == tail;
  }

  lemma FourStrings(a: string, b: string, c: string, d: string)
    ensures a + b + c + d == a + (b + c + d)
  {
  }

  lemma {:induction false} QuotedFieldRoundTrip(val: string, rest: string)
    requires rest == "" || rest[0] != '"'
    ensures ParseQuoted(Escape(val) + "\"" + rest) == Some(Parsed(val, rest))
  {
    if val == "" {
      assert Escape(val) + "\"" + rest == "\"" + rest;
    } else {
      QuotedFieldRoundTrip(val[1..], rest);
      ParseQuotedChar(val[0], Escape(val[1..]) + "\"" + rest);
      FourStrings(EscapedChar(val[0]), Escape(val[1..]), "\"", rest);
      assert [val[0]] + val[1..] == val;
    }
  }

  ghost predicate Plain(header: string) {
    forall i | 0 <= i < |header| :: !Special(header[i])
  }

  lemma {:induction false} PlainFieldRoundTrip(header: string, rest: string)
    requires Plain(header) && (rest == "" || Special(rest[0]))
    ensures ParsePlain(header + rest) == Parsed(header, rest)
  {
    if header == "" {
      assert header + rest == rest;
    } else {
      PlainFieldRoundTrip(header[1..], rest);
      assert (header + rest)[1..] == header[1..] + rest;
      assert [header[0]] + header[1..] == header;
    }
  }

  ghost predicate PlainColumns(columns: seq<string>) {
    columns != [] && forall i | 0 <= i < |columns| :: Plain(columns[i])
  }

  ghost predicate EndsRecord(rest: string) {
    rest == "" || rest[0] == '\n'
  }

  lemma QuotedField(val: string, rest: string)
    requires rest == "" || rest[0] != '"'
    ensures ParseField(Quote(val) + rest) == Some(Parsed(val, rest))
  {
    QuotedFieldRoundTrip(val, rest);
    assert (Quote(val) + rest)[1..] == Escape(val) + "\"" + rest;
  }

  lemma PlainField(header: string, rest: string)
    requires Plain(header) && (rest == "" || rest[0] == ',' || rest[0] == '\n')
    ensures ParseField(header + rest) == Some(Parsed(header, rest))
  {
    PlainFieldRoundTrip(header, rest);
    assert header != "" ==> (header + rest)[0] == header[0];
    assert header == "" ==> header + rest == rest;
  }

  /** One more field in front of a record that can be read. */
  lemma {:induction false} FieldThenRecord(s: string, val: string, tail: string, vals: seq<string>, rest: string)
    requires ParseField(s) == Some(Parsed(val, "," + tail)) && ParseRecord(tail) == Some(Parsed(vals, rest))
    ensures ParseRecord(s) == Some(Parsed([val] + vals, rest))
  {
    assert ("," + tail)[1..] == tail;
  }

  lemma JoinCons(parts: seq<string>, separator: string, rest: string)
    requires |parts| > 1
    ensures Join(parts, separator) + rest == parts[0] + (separator + (Join(parts[1..], separator) + rest))
  {
  }

  lemma {:induction false} RowRoundTrip(row: seq<string>, rest: string)
    requires row != [] && EndsRecord(rest)
    ensures ParseRecord(Join(Quoted(row), ",") + rest) == Some(Parsed(row, rest))
  {
    if |row| == 1 {
      QuotedField(row[0], rest);
      assert [row[0]] == row;
    } else {
      var tail := Join(Quoted(row[1..]), ",") + rest;
      assert Quoted(row)[1..] == Quoted(row[1..]);
      JoinCons(Quoted(row), ",", rest);
      QuotedField(row[0], "," + tail);
      RowRoundTrip(row[1..], rest);
      FieldThenRecord(Quote(row[0]) + ("," + tail), row[0], tail, row[1..], rest);
      assert [row[0]] + row[1..] == row;
    }
  }

  lemma {:induction false} PlainFieldThenRecord(header: string, tail: string, headers: seq<string>, rest: string)
    requires Plain(header) && ParseRecord(tail) == Some(Parsed(headers, rest))
    ensures ParseRecord(header + ("," + tail)) == Some(Parsed([header] + headers, rest))
  {
    PlainField(header, "," + tail);
    FieldThenRecord(header + ("," + tail), header, tail, headers, rest);
  }

  lemma {:induction false} HeaderRoundTrip(headers: seq<string>, rest: string)
    requires PlainColumns(headers) && EndsRecord(rest)
    ensures ParseRecord(Join(headers, ",") + rest) == Some(Parsed(headers, rest))
  {
    if |headers| == 1 {
      PlainField(headers[0], rest);
      assert [headers[0]] == headers;
    } else {
      var tail := Join(headers[1..], ",") + rest;
      HeaderRoundTrip(headers[1..], rest);
      PlainFieldThenRecord(headers[0], tail, headers[1..], rest);
      JoinCons(headers, ",", rest);
      assert [headers[0]] + headers[1..] == headers;
    }
  }

  /** One more record in front of a file that can be read. */
  lemma {:induction false} RecordThenFile(s: string, record: seq<string>, tail: string, records: seq<seq<string>>)
    requires ParseRecord(s) == Some(Parsed(record, "\n" + tail)) && tail != "" && ParseFile(tail) == Some(records)
    ensures ParseFile(s) == Some([record] + records)
  {
    assert ("\n" + tail)[1..] == tail;
  }

  lemma {:induction false} RowThenFile(row: seq<string>, tail: string, rows: seq<seq<string>>)
    requires row != [] && tail != "" && ParseFile(tail) == Some(rows)
    ensures ParseFile(Join(Quoted(row), ",") + ("\n" + tail)) == Some([row] + rows)
  {
    RowRoundTrip(row, "\n" + tail);
    RecordThenFile(Join(Quoted(row), ",") + ("\n" + tail), row, tail, rows);
  }

  lemma JoinIsCons(parts: seq<string>, separator: string)
    requires |parts| > 1
    ensures Join(parts, separator) == parts[0] + (separator + Join(parts[1..], separator))
  {
  }

  lemma {:induction false} OneRowRoundTrip(row: seq<string>)
    requires row != []
    ensures ParseFile(Join(Quoted(row), ",")) == Some([row])
  {
    RowRoundTrip(row, "");
    assert Join(Quoted(row), ",") + "" == Join(Quoted(row), ",");
  }

  ghost predicate IsReadBack(rows: seq<seq<string>>) {
    var text := Join(RowLines(rows), "\n");
    text != "" && ParseFile(text) == Some(rows)
  }

  /** One more row in front of rows that are read back */
  lemma {:induction false} RowThenRows(row: seq<string>, rows: seq<seq<string>>)
    requires row != [] && rows != [] && IsReadBack(rows)
    ensures IsReadBack([row] + rows)
  {
    var lines, tail := RowLines([row] + rows), Join(RowLines(rows), "\n");
    assert lines[1..] == RowLines(rows) && lines[0] == Join(Quoted(row), ",");
    RowThenFile(row, tail, rows);
    JoinIsCons(lines, "\n");
  }

  lemma {:induction false} RowsRoundTrip(rows: seq<seq<string>>)
    requires rows != [] && forall i | 0 <= i < |rows| :: rows[i] != []
    ensures IsReadBack(rows)
  {
    if |rows| == 1 {
      OneRowRoundTrip(rows[0]);
      assert [rows[0]] == rows;
      assert RowLines(rows) == [Join(Quoted(rows[0]), ",")];
    } else {
      RowsRoundTrip(rows[1..]);
      RowThenRows(rows[0], rows[1..]);
      assert [rows[0]] + rows[1..] == rows;
    }
  }

  /** Reading back what was written gives the column names and, for every record, its values. */
  lemma CsvRoundTrip(data: seq<Record>)
    requires data != [] && PlainColumns(Keys(data[0]))
    ensures ParseFile(Export(data)) == Some(Table(data)) && Export(data) != ""
  {
    var headers := Keys(data[0]);
    var rows := Rows(data, headers);
    var lines := RowLines(rows);
    var tail := Join(lines, "\n");
    assert ([Join(headers, ",")] + lines)[1..] == lines;
    assert Print(headers, rows) == Join(headers, ",") + ("\n" + tail);
    HeaderRoundTrip(headers, "\n" + tail);
    RowsRoundTrip(rows);
    RecordThenFile(Print(headers, rows), headers, tail, rows);
  }

  // ----- the two exports -----

  ghost predicate Distinct(columns: seq<string>) {
    forall i, j | 0 <= i < j < |columns| :: columns[i] != columns[j]
  }

  /** Every record has the same columns, distinct ones that need no quotes; there may be no records. */
  ghost predicate IsUniform(data: seq<Record>) {
    data != [] ==>
      && Distinct(Keys(data[0])) && PlainColumns(Keys(data[0]))
      && forall item | item in data :: Keys(item) == Keys(data[0])
  }

  lemma {:induction false} LookupFinds(item: Record, i: nat)
    requires i < |item| && Distinct(Keys(item))
    ensures Lookup(item, item[i].0) == item[i].1
  {
    assert Keys(item)[0] == item[0].0;
    if i > 0 {
      assert Keys(item)[i] == item[i].0;
      assert forall k | 0 <= k < |item| - 1 :: Keys(item[1..])[k] == Keys(item)[k + 1];
      LookupFinds(item[1..], i - 1);
    }
  }

  lemma RowHoldsValues(item: Record, i: nat)
    requires i < |item| && Distinct(Keys(item))
    ensures Row(item, Keys(item))[i] == item[i].1
  {
    LookupFinds(item, i);
  }

  /** Different data never export alike, whatever columns they have, and only no data export to nothing. */
  lemma ExportIsInjective(a: seq<Record>, b: seq<Record>)
    requires IsUniform(a) && IsUniform(b)
    ensures Export(a) == Export(b) ==> a == b
  {
    if a != [] { CsvRoundTrip(a); }
    if b != [] { CsvRoundTrip(b); }
    if a != [] && b != [] && Export(a) == Export(b) {
      var columns := Keys(a[0]);
      assert Table(a)[0] == columns && Table(b)[0] == Keys(b[0]);
      assert Table(a)[1..] == Rows(a, columns) && Table(b)[1..] == Rows(b, columns);
      forall n | 0 <= n < |a| ensures a[n] == b[n] {
        assert a[n] in a && b[n] in b;
        SameRow(a[n], b[n], columns);
      }
    }
  }

  lemma SameRow(x: Record, y: Record, columns: seq<string>)
    requires Distinct(columns) && Keys(x) == columns && Keys(y) == columns && Row(x, columns) == Row(y, columns)
    ensures x == y
  {
    forall i | 0 <= i < |columns| ensures x[i] == y[i] {
      RowHoldsValues(x, i);
      RowHoldsValues(y, i);
    }
  }

  /** Both exports have distinct column names that need no quotes, so both results above apply to them. */
  lemma {:induction false} ShipmentColumns()
    ensures PlainColumns(SHIPMENT_COLUMNS) && Distinct(SHIPMENT_COLUMNS)
  {
    ShipmentColumnsArePlain();
    ShipmentColumnsDiffer();
  }

  lemma {:induction false} ShipmentColumnsArePlain()
    ensures PlainColumns(SHIPMENT_COLUMNS)
  {
    var c := SHIPMENT_COLUMNS;
    assert Plain(c[0]) && Plain(c[1]) && Plain(c[2]) && Plain(c[3]);
    assert Plain(c[4]) && Plain(c[5]) && Plain(c[6]) && Plain(c[7]);
    assert Plain(c[8]) && Plain(c[9]) && Plain(c[10]) && Plain(c[11]);
  }

  lemma {:induction false} ShipmentColumnsDiffer()
    ensures Distinct(SHIPMENT_COLUMNS)
  {
    var c := SHIPMENT_COLUMNS;
    assert |c[1]| == |c[5]| == 6 && c[1][0] != c[5][0];
    assert |c[2]| == |c[9]| == 10 && c[2][0] != c[9][0];
    assert |c[3]| == |c[6]| == 13 && c[3][1] != c[6][1];
    assert |c[8]| == |c[11]| == 9 && c[8][1] != c[11][1];
    assert |c[0]| == 3 && |c[4]| == 11 && |c[7]| == 5 && |c[10]| == 15;
  }

  lemma {:induction false} TransactionColumns()
    ensures PlainColumns(TRANSACTION_COLUMNS) && Distinct(TRANSACTION_COLUMNS)
  {
    TransactionColumnsArePlain();
    TransactionColumnsDiffer();
  }

  lemma {:induction false} TransactionColumnsArePlain()
    ensures PlainColumns(TRANSACTION_COLUMNS)
  {
    var c := TRANSACTION_COLUMNS;
    assert Plain(c[0]) && Plain(c[1]) && Plain(c[2]) && Plain(c[3]) && Plain(c[4]);
    assert Plain(c[5]) && Plain(c[6]) && Plain(c[7]) && Plain(c[8]) && Plain(c[9]);
  }

  lemma {:induction false} TransactionColumnsDiffer()
    ensures Distinct(TRANSACTION_COLUMNS)
  {
    var c := TRANSACTION_COLUMNS;
    assert |c[2]| == |c[4]| == 6 && c[2][0] != c[4][0];
    assert |c[7]| == |c[9]| == 9 && c[7][0] != c[9][0];
    assert |c[0]| == 13 && |c[1]| == 8 && |c[3]| == 4 && |c[5]| == 13 && |c[6]| == 12 && |c[8]| == 11;
    assert c[0][0] != c[5][0];
  }
}
