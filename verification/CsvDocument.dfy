/** `results.csv` as text (raspberry-scanner/local_csv_rows.py), and a reader for it following
    section 2 of RFC 4180 with LF line ends. */
module CsvDocument {
  import opened Options
  import opened Text

  const HEADERS: seq<string> := [
    "schema_version", "export_id", "exported_at", "device_id", "inventory_id", "aisle_id",
    "capture_session_id", "capture_photo_id", "client_file_id", "capture_order", "captured_at",
    "position_code", "position_label_id", "position_payload_raw", "internal_code", "label_id",
    "quantity", "quantity_status", "detection_status", "source", "requires_review", "error_code", "notes"]

  type Row = map<string, string>

  ghost predicate Complete(headers: seq<string>, row: Row) {
    forall h :: h in headers ==> h in row
  }

  /** Every row has a value for every header; a missing one is a KeyError in the source. */
  ghost predicate AllComplete(headers: seq<string>, rows: seq<Row>) {
    forall i :: 0 <= i < |rows| ==> Complete(headers, rows[i])
  }

  // ----- printing -----

  predicate IsFormulaChar(c: char) {
    c == '=' || c == '+' || c == '-' || c == '@' || c == '\t' || c == '\r'
  }

  /** A cell that a spreadsheet would take for a formula. */
  predicate IsFormula(value: string) {
    value != "" && IsFormulaChar(value[0])
  }

  function Neutralize(value: string): string {
    if IsFormula(value) then "'" + value else value
  }

  predicate NeedsQuotes(value: string) {
    '"' in value || ',' in value || '\n' in value || '\r' in value
  }

  function DoubleQuotes(value: string): string {
    if value == "" then ""
    else (if value[0] == '"' then "\"\"" else [value[0]]) + DoubleQuotes(value[1..])
  }

  function EscapeField(raw: string): string {
    var value := Neutralize(raw);
    if NeedsQuotes(value) then "\"" + DoubleQuotes(value) + "\"" else value
  }

  function Cells(headers: seq<string>, row: Row): (r: seq<string>)
    requires Complete(headers, row)
    ensures |r| == |headers| && forall i :: 0 <= i < |r| ==> r[i] == row[headers[i]]
  {
    seq(|headers|, i requires 0 <= i < |headers| => row[headers[i]])
  }

  function Escaped(values: seq<string>): (r: seq<string>)
    ensures |r| == |values| && forall i :: 0 <= i < |r| ==> r[i] == EscapeField(values[i])
  {
    seq(|values|, i requires 0 <= i < |values| => EscapeField(values[i]))
  }

  function Line(headers: seq<string>, row: Row): string
    requires Complete(headers, row)
  {
    Join(',', Escaped(Cells(headers, row)))
  }

  function Lines(headers: seq<string>, rows: seq<Row>): (r: seq<string>)
    requires AllComplete(headers, rows)
    ensures |r| == |rows| && forall i :: 0 <= i < |r| ==> r[i] == Line(headers, rows[i])
  {
    seq(|rows|, i requires 0 <= i < |rows| => Line(headers, rows[i]))
  }

  /** The whole document. */
  function Document(headers: seq<string>, rows: seq<Row>): string
    requires AllComplete(headers, rows)
  {
    Join('\n', [Join(',', headers)] + Lines(headers, rows)) + "\n"
  }

  method BuildLine(headers: seq<string>, row: Row) returns (line: string)
    requires Complete(headers, row)
    ensures line == Line(headers, row)
  {
    var fields: seq<string> := [];
    for k := 0 to |headers|
      invariant |fields| == k
      invariant forall j :: 0 <= j < k ==> fields[j] == EscapeField(row[headers[j]])
    {
      fields := fields + [EscapeField(row[headers[k]])];
    }
    assert fields == Escaped(Cells(headers, row));
    line := Join(',', fields);
  }

  method BuildCsvDocument(headers: seq<string>, rows: seq<Row>) returns (text: string)
    requires AllComplete(headers, rows)
    ensures text == Document(headers, rows)
  {
    hide Line, Join;
    var lines := [Join(',', headers)];
    for i := 0 to |rows|
      invariant |lines| == i + 1 && lines[0] == Join(',', headers)
      invariant forall k :: 0 <= k < i ==> lines[k + 1] == Line(headers, rows[k])
    {
      var line := BuildLine(headers, rows[i]);
      lines := lines + [line];
    }
    assert lines == [Join(',', headers)] + Lines(headers, rows);
    text := Join('\n', lines) + "\n";
  }

  // ----- neutralisation -----

  /** No printed value starts like a formula, and neutralising twice changes nothing more. */
  lemma NeutralizeIsSafe(value: string)
    ensures !IsFormula(Neutralize(value))
    ensures Neutralize(Neutralize(value)) == Neutralize(value)
  {
  }

  /** Neutralisation is not injective: it identifies exactly a formula with its quoted twin. */
  lemma NeutralizeCollidesIff(a: string, b: string)
    ensures Neutralize(a) == Neutralize(b)
      <==> a == b || (IsFormula(b) && a == "'" + b) || (IsFormula(a) && b == "'" + a)
  {
    assert ("'" + a)[1..] == a;
    assert ("'" + b)[1..] == b;
  }

  // ----- reading -----

  datatype Mode = Start | Plain | Quoted | Closed

  datatype Reader = Reader(mode: Mode, field: string, fields: seq<string>, records: seq<seq<string>>)

  const BEGIN: Reader := Reader(Start, "", [], [])

  function EndField(r: Reader): Reader {
    Reader(Start, "", r.fields + [r.field], r.records)
  }

  function EndRecord(r: Reader): Reader {
    Reader(Start, "", [], r.records + [r.fields + [r.field]])
  }

  /** One character; None is a malformed document. */
  function ReadChar(r: Reader, c: char): Option<Reader> {
    match r.mode
    case Quoted =>
      if c == '"' then Some(r.(mode := Closed)) else Some(r.(field := r.field + [c]))
    case Closed =>
      if c == '"' then Some(r.(mode := Quoted, field := r.field + [c]))
      else if c == ',' then Some(EndField(r))
      else if c == '\n' then Some(EndRecord(r))
      else None
    case _ =>
      if c == ',' then Some(EndField(r))
      else if c == '\n' then Some(EndRecord(r))
      else if c == '"' then (if r.mode == Start then Some(r.(mode := Quoted)) else None)
      else if c == '\r' then None
      else Some(r.(mode := Plain, field := r.field + [c]))
  }

  function ReadAll(r: Reader, text: string): Option<Reader>
    decreases |text|
  {
    if text == "" then Some(r)
    else
      var next := ReadChar(r, text[0]);
      if next.None? then None else ReadAll(next.value, text[1..])
  }

  /** The records of a document; a last line without a line end counts. */
  function Read(text: string): Option<seq<seq<string>>> {
    var end := ReadAll(BEGIN, text);
    if end.None? || end.value.mode == Quoted then None
    else if end.value.mode == Start && end.value.fields == [] then Some(end.value.records)
    else Some(EndRecord(end.value).records)
  }

  lemma {:induction false} ReadConcat(r: Reader, a: string, b: string)
    ensures ReadAll(r, a + b)
         == if ReadAll(r, a).None? then None else ReadAll(ReadAll(r, a).value, b)
    decreases |a|
  {
    if a == "" {
      assert a + b == b;
    } else {
      assert (a + b)[0] == a[0] && (a + b)[1..] == a[1..] + b;
      var next := ReadChar(r, a[0]);
      if next.Some? { ReadConcat(next.value, a[1..], b); }
    }
  }

  /** Inside quotes, the doubled value reads as the value. */
  lemma {:induction false} ReadQuoted(r: Reader, value: string)
    requires r.mode == Quoted
    ensures ReadAll(r, DoubleQuotes(value)) == Some(r.(field := r.field + value))
    decreases |value|
  {
    if value == "" {
      assert r.field + value == r.field;
    } else {
      var next := r.(field := r.field + [value[0]]);
      ReadQuoted(next, value[1..]);
      assert next.field + value[1..] == r.field + value;
    }
  }

  lemma {:induction false} ReadPlain(r: Reader, value: string)
    requires r.mode == Start || r.mode == Plain
    requires !NeedsQuotes(value)
    ensures ReadAll(r, value)
         == Some(r.(mode := if value == "" then r.mode else Plain, field := r.field + value))
    decreases |value|
  {
    if value == "" {
      assert r.field + value == r.field;
    } else {
      var next := ReadChar(r, value[0]).value;
      assert value[0] in value;
      ReadPlain(next, value[1..]);
      assert next.field + value[1..] == r.field + value;
    }
  }

  /** An escaped field reads back as its neutralised value. */
  lemma ReadField(r: Reader, raw: string)
    requires r.mode == Start && r.field == ""
    ensures ReadAll(r, EscapeField(raw)).Some?
    ensures var r' := ReadAll(r, EscapeField(raw)).value;
      r'.mode != Quoted && r'.field == Neutralize(raw) && r'.fields == r.fields && r'.records == r.records
  {
    var value := Neutralize(raw);
    if NeedsQuotes(value) {
      var open := r.(mode := Quoted);
      var inner := DoubleQuotes(value);
      assert "\"" + inner + "\"" == "\"" + (inner + "\"");
      ReadConcat(r, "\"", inner + "\"");
      assert ReadAll(r, "\"") == Some(open) by { assert "\""[1..] == ""; }
      ReadConcat(open, inner, "\"");
      ReadQuoted(open, value);
      assert open.field + value == value;
      assert "\""[1..] == "";
    } else {
      ReadPlain(r, value);
      assert r.field + value == value;
    }
  }

  function Neutralized(values: seq<string>): (r: seq<string>)
    ensures |r| == |values| && forall i :: 0 <= i < |r| ==> r[i] == Neutralize(values[i])
  {
    seq(|values|, i requires 0 <= i < |values| => Neutralize(values[i]))
  }

  /** A field and the delimiter after it. */
  lemma ReadFieldThen(r: Reader, raw: string, delimiter: char, rest: string)
    requires r.mode == Start && r.field == "" && (delimiter == ',' || delimiter == '\n')
    ensures ReadAll(r, EscapeField(raw) + [delimiter] + rest)
         == ReadAll(if delimiter == ','
                    then Reader(Start, "", r.fields + [Neutralize(raw)], r.records)
                    else Reader(Start, "", [], r.records + [r.fields + [Neutralize(raw)]]), rest)
  {
    hide EscapeField, Neutralize;
    ReadField(r, raw);
    assert EscapeField(raw) + [delimiter] + rest == EscapeField(raw) + ([delimiter] + rest);
    ReadConcat(r, EscapeField(raw), [delimiter] + rest);
    assert ([delimiter] + rest)[1..] == rest;
  }

  lemma {:induction false} ReadLine(r: Reader, values: seq<string>, rest: string)
    requires r.mode == Start && r.field == "" && values != []
    ensures ReadAll(r, Join(',', Escaped(values)) + "\n" + rest)
         == ReadAll(Reader(Start, "", [], r.records + [r.fields + Neutralized(values)]), rest)
    decreases |values|
  {
    hide EscapeField, Neutralize, ReadAll;
    var first := EscapeField(values[0]);
    if |values| == 1 {
      ReadFieldThen(r, values[0], '\n', rest);
      assert Neutralized(values) == [Neutralize(values[0])];
    } else {
      var tail := Join(',', Escaped(values[1..])) + "\n" + rest;
      var next := Reader(Start, "", r.fields + [Neutralize(values[0])], r.records);
      assert Escaped(values)[1..] == Escaped(values[1..]);
      assert Join(',', Escaped(values)) + "\n" + rest == first + [','] + tail;
      ReadFieldThen(r, values[0], ',', tail);
      ReadLine(next, values[1..], rest);
      assert next.fields + Neutralized(values[1..]) == r.fields + Neutralized(values);
    }
  }

  // ----- the header line prints and reads as itself -----

  predicate IsNameChar(c: char) {
    'a' <= c <= 'z' || c == '_'
  }

  ghost predicate IsName(s: string) {
    forall i :: 0 <= i < |s| ==> IsNameChar(s[i])
  }

  ghost predicate Names(headers: seq<string>) {
    forall i :: 0 <= i < |headers| ==> IsName(headers[i])
  }

  lemma NameIsPlain(s: string)
    requires IsName(s)
    ensures EscapeField(s) == s && Neutralize(s) == s
  {
  }

  lemma HeaderPrintsAsItself(headers: seq<string>)
    requires Names(headers)
    ensures Escaped(headers) == headers && Neutralized(headers) == headers
  {
    hide EscapeField, Neutralize;
    forall i | 0 <= i < |headers| ensures EscapeField(headers[i]) == headers[i] && Neutralize(headers[i]) == headers[i] {
      NameIsPlain(headers[i]);
    }
  }

  lemma HeadersAreNames()
    ensures |HEADERS| == 23 && Names(HEADERS)
  {
    IdentityNames();
    PositionNames();
    ResultNames();
    hide IsName;
  }

  lemma IdentityNames()
    ensures IsName("schema_version") && IsName("export_id") && IsName("exported_at") && IsName("device_id")
    ensures IsName("inventory_id") && IsName("aisle_id") && IsName("capture_session_id") && IsName("capture_photo_id")
  {
  }

  lemma PositionNames()
    ensures IsName("client_file_id") && IsName("capture_order") && IsName("captured_at") && IsName("position_code")
    ensures IsName("position_label_id") && IsName("position_payload_raw") && IsName("internal_code") && IsName("label_id")
  {
  }

  lemma ResultNames()
    ensures IsName("quantity") && IsName("quantity_status") && IsName("detection_status") && IsName("source")
    ensures IsName("requires_review") && IsName("error_code") && IsName("notes")
  {
  }

  // ----- the round trip -----

  /** The records a reader should find: per row, its neutralised values in header order. */
  function Expected(headers: seq<string>, rows: seq<Row>): (r: seq<seq<string>>)
    requires AllComplete(headers, rows)
    ensures |r| == |rows|
    ensures forall i :: 0 <= i < |r| ==> r[i] == Neutralized(Cells(headers, rows[i]))
  {
    seq(|rows|, i requires 0 <= i < |rows| => Neutralized(Cells(headers, rows[i])))
  }

  lemma {:induction false} ReadLines(r: Reader, headers: seq<string>, rows: seq<Row>)
    requires r.mode == Start && r.field == "" && r.fields == [] && rows != [] && headers != []
    requires AllComplete(headers, rows)
    ensures ReadAll(r, Join('\n', Lines(headers, rows)) + "\n")
         == Some(Reader(Start, "", [], r.records + Expected(headers, rows)))
    decreases |rows|
  {
    hide EscapeField, Neutralize, Cells, Join, Line, Escaped, ReadAll, Neutralized;
    var values := Cells(headers, rows[0]);
    var next := Reader(Start, "", [], r.records + [Neutralized(values)]);
    assert [] + Neutralized(values) == Neutralized(values);
    LineIs(headers, rows[0]);
    if |rows| == 1 {
      ReadLine(r, values, "");
      JoinOne('\n', Lines(headers, rows));
      EndOfText(next);
      assert Expected(headers, rows) == [Neutralized(values)];
    } else {
      var rest := Join('\n', Lines(headers, rows[1..])) + "\n";
      assert Lines(headers, rows)[1..] == Lines(headers, rows[1..]);
      JoinStep('\n', Lines(headers, rows));
      ReadLine(r, values, rest);
      ReadLines(next, headers, rows[1..]);
      assert Expected(headers, rows) == [Neutralized(values)] + Expected(headers, rows[1..]);
      assert next.records + Expected(headers, rows[1..]) == r.records + Expected(headers, rows);
    }
  }

  lemma LineIs(headers: seq<string>, row: Row)
    requires Complete(headers, row)
    ensures Line(headers, row) == Join(',', Escaped(Cells(headers, row)))
  {
  }

  lemma EndOfText(r: Reader)
    ensures ReadAll(r, "") == Some(r)
  {
  }

  lemma JoinOne(c: char, parts: seq<string>)
    requires |parts| == 1
    ensures Join(c, parts) + [c] == parts[0] + [c] + ""
  {
  }

  lemma JoinStep(c: char, parts: seq<string>)
    requires |parts| >= 2
    ensures Join(c, parts) + [c] == parts[0] + [c] + (Join(c, parts[1..]) + [c])
  {
  }

  lemma ReadsBack(headers: seq<string>, rows: seq<Row>)
    requires AllComplete(headers, rows) && headers != [] && Names(headers)
    ensures Read(Document(headers, rows)) == Some([headers] + Expected(headers, rows))
  {
    hide EscapeField, Neutralize, Cells, Names;
    HeaderPrintsAsItself(headers);
    var header := Join(',', headers);
    var r1 := Reader(Start, "", [], [headers]);
    assert [] + headers == headers;
    assert [] + [headers] == [headers];
    if rows == [] {
      ReadLine(BEGIN, headers, "");
      assert [header] + Lines(headers, rows) == [header];
      assert Document(headers, rows) == header + "\n" + "";
      assert [headers] + Expected(headers, rows) == [headers];
    } else {
      var rest := Join('\n', Lines(headers, rows)) + "\n";
      JoinConcat('\n', [header], Lines(headers, rows));
      assert Document(headers, rows) == header + "\n" + rest;
      ReadLine(BEGIN, headers, rest);
      ReadLines(r1, headers, rows);
    }
  }

  /** Printing any rows and reading the document recovers the header and, row by row, the 23
      neutralised values. */
  lemma DocumentReadsBack(rows: seq<Row>)
    requires AllComplete(HEADERS, rows)
    ensures Read(Document(HEADERS, rows)) == Some([HEADERS] + Expected(HEADERS, rows))
    ensures forall i :: 0 <= i < |rows| ==> |Expected(HEADERS, rows)[i]| == 23
  {
    hide Names, Read, Document;
    HeadersAreNames();
    ReadsBack(HEADERS, rows);
  }

  /** Two row lists print alike exactly when they agree after neutralisation. */
  lemma DocumentsEqualIff(headers: seq<string>, rows: seq<Row>, rows': seq<Row>)
    requires AllComplete(headers, rows) && AllComplete(headers, rows') && headers != [] && Names(headers)
    ensures Document(headers, rows) == Document(headers, rows') <==> Expected(headers, rows) == Expected(headers, rows')
  {
    hide EscapeField, Neutralize, Names, Read, Join, Cells;
    ReadsBack(headers, rows);
    ReadsBack(headers, rows');
    var e, e' := Expected(headers, rows), Expected(headers, rows');
    assert ([headers] + e)[1..] == e && ([headers] + e')[1..] == e';
    if e == e' {
      forall i | 0 <= i < |rows| ensures Line(headers, rows[i]) == Line(headers, rows'[i]) {
        assert e[i] == e'[i];
        SameLine(headers, rows[i], rows'[i]);
      }
      assert Lines(headers, rows) == Lines(headers, rows');
    }
  }

  lemma SameLine(headers: seq<string>, row: Row, row': Row)
    requires Complete(headers, row) && Complete(headers, row')
    requires Neutralized(Cells(headers, row)) == Neutralized(Cells(headers, row'))
    ensures Line(headers, row) == Line(headers, row')
  {
    var v, v' := Cells(headers, row), Cells(headers, row');
    forall i | 0 <= i < |headers| ensures EscapeField(v[i]) == EscapeField(v'[i]) {
      assert Neutralized(v)[i] == Neutralized(v')[i];
    }
    assert Escaped(v) == Escaped(v');
  }
}
