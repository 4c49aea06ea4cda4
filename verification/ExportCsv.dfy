/** From photos to the text of `results.csv` and back (raspberry-scanner/local_csv_rows.py). */
module ExportCsv {
  import opened Options
  import opened Text
  import opened LocalCsvRows
  import CsvDocument

  /** What every row of one export shares. */
  datatype Context = Context(
    exportId: string, exportedAt: string, deviceId: string, inventoryId: string, aisleId: string, sessionId: string)

  function Quantity(q: Option<int>): string {
    if q.None? then "" else if q.value < 0 then "-" + Decimal(-q.value) else Decimal(q.value)
  }

  function IdentityCells(c: Context): map<string, string> {
    map["schema_version" := "1.1", "export_id" := c.exportId, "exported_at" := c.exportedAt,
        "device_id" := c.deviceId, "inventory_id" := c.inventoryId, "aisle_id" := c.aisleId,
        "capture_session_id" := c.sessionId]
  }

  function PhotoCells(r: Row): map<string, string> {
    map["capture_photo_id" := r.photoId, "client_file_id" := r.photoId, "capture_order" := Decimal(r.order),
        "captured_at" := r.capturedAt, "position_code" := r.position.code,
        "position_label_id" := r.position.labelId, "position_payload_raw" := r.position.payload]
  }

  function ResultCells(r: Row): map<string, string> {
    map["internal_code" := r.internalCode, "label_id" := r.labelId, "quantity" := Quantity(r.quantity),
        "quantity_status" := r.quantityStatus, "detection_status" := "RESOLVED", "source" := r.source,
        "requires_review" := "false", "error_code" := "", "notes" := ""]
  }

  function CellsOf(c: Context, r: Row): CsvDocument.Row {
    IdentityCells(c) + PhotoCells(r) + ResultCells(r)
  }

  function AllCells(c: Context, rows: seq<Row>): (cells: seq<CsvDocument.Row>)
    ensures |cells| == |rows| && forall i :: 0 <= i < |rows| ==> cells[i] == CellsOf(c, rows[i])
  {
    seq(|rows|, i requires 0 <= i < |rows| => CellsOf(c, rows[i]))
  }

  lemma CellsAreComplete(c: Context, r: Row)
    ensures CsvDocument.Complete(CsvDocument.HEADERS, CellsOf(c, r))
  {
    hide Decimal, Quantity;
  }

  lemma AllComplete(c: Context, rows: seq<Row>)
    ensures CsvDocument.AllComplete(CsvDocument.HEADERS, AllCells(c, rows))
  {
    hide CellsOf;
    forall i | 0 <= i < |rows| ensures CsvDocument.Complete(CsvDocument.HEADERS, AllCells(c, rows)[i]) {
      CellsAreComplete(c, rows[i]);
    }
  }

  /** The exported text. */
  function ResultsCsv(c: Context, rows: seq<Row>): string {
    AllComplete(c, rows);
    CsvDocument.Document(CsvDocument.HEADERS, AllCells(c, rows))
  }

  method BuildResultsCsv(c: Context, parse: LabelParser, photos: seq<Photo>) returns (text: Option<string>)
    ensures match Build(parse, photos)
      case Ok(rows) => text == Some(ResultsCsv(c, rows))
      case Err(_) => text == None
  {
    var result := BuildLocalCsvRows(parse, photos);
    match result {
      case Err(_) => text := None;
      case Ok(rows) =>
        AllComplete(c, rows);
        var document := CsvDocument.BuildCsvDocument(CsvDocument.HEADERS, AllCells(c, rows));
        text := Some(document);
    }
  }

  /** What stands in the 23 columns of one row, in the order of the headers. */
  function Columns(c: Context, r: Row): (values: seq<string>)
    ensures |values| == 23
  {
    ["1.1", c.exportId, c.exportedAt, c.deviceId, c.inventoryId, c.aisleId, c.sessionId,
     r.photoId, r.photoId, Decimal(r.order), r.capturedAt,
     r.position.code, r.position.labelId, r.position.payload,
     r.internalCode, r.labelId, Quantity(r.quantity), r.quantityStatus, "RESOLVED", r.source, "false", "", ""]
  }

  lemma IdentityColumns(c: Context, r: Row, k: nat)
    requires k < 7
    ensures CsvDocument.HEADERS[k] in CellsOf(c, r) && CellsOf(c, r)[CsvDocument.HEADERS[k]] == Columns(c, r)[k]
  {
    hide IdentityCells, PhotoCells, ResultCells, Columns;
    IdentityCell(c, r, k);
    NotInPhoto(r, k);
    NotInResult(r, k);
  }

  lemma IdentityCell(c: Context, r: Row, k: nat)
    requires k < 7
    ensures CsvDocument.HEADERS[k] in IdentityCells(c) && IdentityCells(c)[CsvDocument.HEADERS[k]] == Columns(c, r)[k]
  {
    hide Decimal, Quantity;
  }

  lemma NotInPhoto(r: Row, k: nat)
    requires k < 7
    ensures CsvDocument.HEADERS[k] !in PhotoCells(r)
  {
    hide Decimal;
  }

  lemma NotInResult(r: Row, k: nat)
    requires k < 7
    ensures CsvDocument.HEADERS[k] !in ResultCells(r)
  {
    hide Decimal, Quantity;
  }

  lemma PhotoColumns(c: Context, r: Row, k: nat)
    requires 7 <= k < 14
    ensures CsvDocument.HEADERS[k] in CellsOf(c, r) && CellsOf(c, r)[CsvDocument.HEADERS[k]] == Columns(c, r)[k]
  {
    hide Decimal, Quantity, IdentityCells;
  }

  lemma ResultColumns(c: Context, r: Row, k: nat)
    requires 14 <= k < 23
    ensures CsvDocument.HEADERS[k] in CellsOf(c, r) && CellsOf(c, r)[CsvDocument.HEADERS[k]] == Columns(c, r)[k]
  {
    hide Decimal, Quantity, IdentityCells, PhotoCells;
  }

  lemma CellsAreColumns(c: Context, r: Row)
    requires CsvDocument.Complete(CsvDocument.HEADERS, CellsOf(c, r))
    ensures CsvDocument.Cells(CsvDocument.HEADERS, CellsOf(c, r)) == Columns(c, r)
  {
    hide CellsOf, Columns;
    HeaderCount();
    forall k | 0 <= k < 23 ensures CellsOf(c, r)[CsvDocument.HEADERS[k]] == Columns(c, r)[k] {
      if k < 7 { IdentityColumns(c, r, k); }
      else if k < 14 { PhotoColumns(c, r, k); }
      else { ResultColumns(c, r, k); }
    }
  }

  lemma HeaderCount()
    ensures |CsvDocument.HEADERS| == 23
  {
  }

  /** Reading `results.csv` back gives, after the header, one record per row with its 23 columns, up to
      neutralisation - which leaves the photo's number as it is. */
  lemma ReadingTheExport(c: Context, rows: seq<Row>, records: seq<seq<string>>, i: nat)
    requires CsvDocument.Read(ResultsCsv(c, rows)) == Some([CsvDocument.HEADERS] + records)
    requires i < |rows|
    ensures |records| == |rows| && records[i] == CsvDocument.Neutralized(Columns(c, rows[i]))
    ensures records[i][9] == Decimal(rows[i].order)
  {
    hide Decimal, Quantity, CellsOf, CsvDocument.Read, CsvDocument.Document, CsvDocument.Neutralize, CsvDocument.Cells;
    AllComplete(c, rows);
    CsvDocument.DocumentReadsBack(AllCells(c, rows));
    var expected := CsvDocument.Expected(CsvDocument.HEADERS, AllCells(c, rows));
    assert ([CsvDocument.HEADERS] + records)[1..] == records;
    assert ([CsvDocument.HEADERS] + expected)[1..] == expected;
    CellsAreColumns(c, rows[i]);
    NumeralIsPlain(rows[i].order);
  }

  lemma NumeralIsPlain(n: nat)
    ensures CsvDocument.Neutralize(Decimal(n)) == Decimal(n)
  {
    hide Decimal;
    assert Decimal(n)[0] in Decimal(n);
  }
}
