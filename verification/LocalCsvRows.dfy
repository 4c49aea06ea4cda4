/** The rows of `results.csv` (raspberry-scanner/local_csv_rows.py). Parsing a product label line is a
    parameter. */
module LocalCsvRows {
  import opened Options
  import opened Text
  import opened Sorting
  import opened ScanSemantics

  datatype Photo = Photo(id: string, number: nat, capturedAt: string, exportLine: string, semantics: Option<Semantics>)

  /** A line that is a VALID product label, read. */
  type LabelParser = string -> Option<Product>

  datatype Row = Row(
    photoId: string,
    order: nat,
    capturedAt: string,
    position: Position,
    internalCode: string,
    labelId: string,
    quantity: Option<int>,
    quantityStatus: string,
    source: string)

  const LABEL := "LOCAL_POSITION_LABEL"
  const SCAN := "LOCAL_CODE_SCAN"

  function SemanticsOf(p: Photo): Semantics {
    if p.semantics.Some? then p.semantics.value else Legacy(p.exportLine)
  }

  function ParsePositionLine(line: string): Position {
    var parts := SplitOn('|', line);
    if |parts| < 4 || parts[0] != "POSITION" then NOWHERE
    else
      var tag, pallet := Strip(parts[1]), Strip(parts[2]);
      Position(Or(tag, pallet), tag, line)
  }

  /** The line `_export_line` makes of a recognised position (raspberry-scanner/capture.py). */
  function PositionLine(labelId: string, pallet: string, side: string): string {
    Join('|', ["POSITION", Strip(labelId), Strip(pallet), Upper(Strip(side))])
  }

  /** A position line reads back as its label, which is also the position's code, with the whole line as payload -
      exactly when the label has no '|' in it. */
  lemma PositionLineReadsBackIff(labelId: string, pallet: string, side: string)
    requires Strip(labelId) != ""
    ensures var line := PositionLine(labelId, pallet, side);
      && StartsWith(line, POSITION_PREFIX)
      && (ParsePositionLine(line) == Position(Strip(labelId), Strip(labelId), line) <==> Free('|', Strip(labelId)))
  {
    hide Strip, Join, SplitOn, Upper;
    var l := Strip(labelId);
    var rest := Join('|', [Strip(pallet), Upper(Strip(side))]);
    var line := PositionLine(labelId, pallet, side);
    LineParts(l, Strip(pallet), Upper(Strip(side)));
    var parts := ["POSITION"] + (SplitOn('|', l) + SplitOn('|', rest));
    assert SplitOn('|', line) == parts;
    JoinSplit('|', l);
    assert parts[1] == SplitOn('|', l)[0];
    if Free('|', l) {
      SplitFree('|', l);
      assert Strip(l) == l;
    } else {
      StripStaysFree('|', parts[1]);
    }
  }

  lemma LineParts(l: string, pallet: string, side: string)
    ensures var line := Join('|', ["POSITION", l, pallet, side]);
      && StartsWith(line, POSITION_PREFIX)
      && SplitOn('|', line) == ["POSITION"] + (SplitOn('|', l) + SplitOn('|', Join('|', [pallet, side])))
      && |SplitOn('|', Join('|', [pallet, side]))| >= 2
  {
    hide SplitOn, Join;
    var line, tail, rest := Join('|', ["POSITION", l, pallet, side]), Join('|', [l, pallet, side]), Join('|', [pallet, side]);
    JoinConcat('|', ["POSITION"], [l, pallet, side]);
    JoinConcat('|', [l], [pallet, side]);
    JoinConcat('|', [pallet], [side]);
    JoinOne("POSITION");
    JoinOne(l);
    assert ["POSITION"] + [l, pallet, side] == ["POSITION", l, pallet, side] && [l] + [pallet, side] == [l, pallet, side];
    assert [pallet] + [side] == [pallet, side];
    SplitFree('|', "POSITION");
    SplitConcat('|', "POSITION", tail);
    SplitConcat('|', l, rest);
    SplitConcat('|', Join('|', [pallet]), Join('|', [side]));
    assert line[..9] == POSITION_PREFIX;
  }

  lemma JoinOne(s: string)
    ensures Join('|', [s]) == s
  {
  }

  // ----- positions -----

  predicate ByNumber(p: Photo, q: Photo) {
    p.number <= q.number
  }

  predicate IsPositionPhoto(s: Semantics) {
    || s.classification == "POSITION"
    || StartsWith(s.exportLine, POSITION_PREFIX)
    || PositionFromSnapshot(s.snapshot, s.rawPayload).Some?
  }

  /** One photo of the from-scratch scan. */
  function Update(position: Position, s: Semantics): Position {
    var supplier := PositionFromSnapshot(s.snapshot, s.rawPayload);
    if s.classification == "POSITION" && supplier.Some? then supplier.value
    else if StartsWith(s.exportLine, POSITION_PREFIX) then ParsePositionLine(s.exportLine)
    else position
  }

  function PositionAfter(ps: seq<Photo>): Position {
    if ps == [] then NOWHERE else Update(PositionAfter(ps[..|ps| - 1]), SemanticsOf(ps[|ps| - 1]))
  }

  /** The photos before the first with a greater number. */
  function UpTo(ps: seq<Photo>, number: int): (r: seq<Photo>)
    ensures |r| <= |ps| && r == ps[..|r|]
    ensures forall i :: 0 <= i < |r| ==> r[i].number <= number
    ensures |r| < |ps| ==> ps[|r|].number > number
  {
    if ps == [] || ps[0].number > number then [] else [ps[0]] + UpTo(ps[1..], number)
  }

  function FromScratch(photos: seq<Photo>, number: int): Position {
    PositionAfter(UpTo(Sort(ByNumber, photos), number))
  }

  method RunningPositionFromPhotos(photos: seq<Photo>, number: int) returns (position: Position)
    ensures position == FromScratch(photos, number)
  {
    hide Sort, SemanticsOf, ParsePositionLine, PositionFromSnapshot;
    var sorted := Sort(ByNumber, photos);
    position := NOWHERE;
    var i := 0;
    assert sorted[..0] == [];
    while i < |sorted|
      invariant 0 <= i <= |UpTo(sorted, number)|
      invariant position == PositionAfter(sorted[..i])
    {
      if sorted[i].number > number { break; }
      var s := SemanticsOf(sorted[i]);
      assert sorted[..i + 1][..i] == sorted[..i];
      i := i + 1;
      if s.classification == "POSITION" {
        var supplier := PositionFromSnapshot(s.snapshot, s.rawPayload);
        if supplier.Some? {
          position := supplier.value;
          continue;
        }
      }
      if StartsWith(s.exportLine, POSITION_PREFIX) {
        position := ParsePositionLine(s.exportLine);
      }
    }
    assert UpTo(sorted, number) == sorted[..i];
  }

  /** What the row loop takes from one photo. */
  function Observed(s: Semantics): Option<Position> {
    if !IsPositionPhoto(s) then None
    else
      var supplier := PositionFromSnapshot(s.snapshot, s.rawPayload);
      if supplier.Some? then supplier
      else if StartsWith(s.exportLine, POSITION_PREFIX) then Some(ParsePositionLine(s.exportLine))
      else None
  }

  function LastObserved(ps: seq<Photo>): Option<Position> {
    if ps == [] then None
    else
      var o := Observed(SemanticsOf(ps[|ps| - 1]));
      if o.Some? then o else LastObserved(ps[..|ps| - 1])
  }

  /** The running position the row of photo `i` gets, with the fallback. */
  function RunningAt(sorted: seq<Photo>, i: nat): Position
    requires i < |sorted|
  {
    var o := LastObserved(sorted[..i + 1]);
    if o.Some? then o.value else FromScratch(sorted, sorted[i].number)
  }

  ghost predicate DistinctNumbers(photos: seq<Photo>) {
    forall i, j :: 0 <= i < j < |photos| ==> photos[i].number != photos[j].number
  }

  ghost predicate AllWellMade(photos: seq<Photo>) {
    forall p :: p in photos ==> WellMade(SemanticsOf(p))
  }

  ghost predicate Ascending(ps: seq<Photo>) {
    forall i, j :: 0 <= i < j < |ps| ==> ps[i].number < ps[j].number
  }

  lemma {:induction false} InsertAscends(p: Photo, ps: seq<Photo>)
    requires Ascending(ps) && forall q :: q in ps ==> q.number != p.number
    ensures Ascending(Insert(ByNumber, p, ps))
    ensures forall q :: q in Insert(ByNumber, p, ps) <==> q == p || q in ps
  {
    if ps != [] && !ByNumber(p, ps[0]) {
      InsertAscends(p, ps[1..]);
      var rest := Insert(ByNumber, p, ps[1..]);
      assert ps == [ps[0]] + ps[1..];
      assert forall j :: 0 <= j < |rest| ==> rest[j] in rest;
    }
  }

  lemma {:induction false} SortAscends(photos: seq<Photo>)
    requires DistinctNumbers(photos)
    ensures Ascending(Sort(ByNumber, photos))
    ensures forall p :: p in Sort(ByNumber, photos) <==> p in photos
  {
    if photos != [] {
      SortAscends(photos[1..]);
      assert photos == [photos[0]] + photos[1..];
      InsertAscends(photos[0], Sort(ByNumber, photos[1..]));
    }
  }

  lemma SortedAlready(sorted: seq<Photo>)
    requires Ascending(sorted)
    ensures Sort(ByNumber, sorted) == sorted
  {
    SortOfSorted(ByNumber, sorted);
  }

  /** The scan up to a photo's own number covers exactly the photos up to it. */
  lemma {:induction false} UpToOwnNumber(sorted: seq<Photo>, i: nat)
    requires Ascending(sorted) && i < |sorted|
    ensures UpTo(sorted, sorted[i].number) == sorted[..i + 1]
    decreases i
  {
    if i == 0 {
      assert UpTo(sorted[1..], sorted[0].number) == [];
    } else {
      UpToOwnNumber(sorted[1..], i - 1);
      assert sorted[..i + 1] == [sorted[0]] + sorted[1..][..i];
    }
  }

  lemma {:induction false} ScanFollowsObservations(ps: seq<Photo>)
    requires AllWellMade(ps)
    ensures PositionAfter(ps) == match LastObserved(ps) case Some(p) => p case None => NOWHERE
  {
    if ps != [] {
      assert ps[|ps| - 1] in ps;
      ScanFollowsObservations(ps[..|ps| - 1]);
    }
  }

  lemma WellMadePrefix(photos: seq<Photo>, sorted: seq<Photo>, n: nat)
    requires AllWellMade(photos) && (forall p :: p in sorted <==> p in photos) && n <= |sorted|
    ensures AllWellMade(sorted[..n])
  {
    hide WellMade, SemanticsOf;
    assert forall p :: p in sorted[..n] ==> p in sorted;
  }

  /** The position carried along by the row loop is, at every photo, the one a scan of all photos up to
      it finds from scratch; and when nothing has been observed yet, the fallback finds nothing. */
  lemma IncrementalIsFromScratch(photos: seq<Photo>, i: nat)
    requires DistinctNumbers(photos) && AllWellMade(photos) && i < |photos|
    ensures var sorted := Sort(ByNumber, photos);
      && RunningAt(sorted, i) == PositionAfter(sorted[..i + 1]) == FromScratch(photos, sorted[i].number)
      && (LastObserved(sorted[..i + 1]).None? ==> RunningAt(sorted, i) == NOWHERE)
  {
    hide PositionAfter, LastObserved, UpTo, Sort, AllWellMade, DistinctNumbers, Ascending;
    var sorted := Sort(ByNumber, photos);
    SortAscends(photos);
    SortedAlready(sorted);
    UpToOwnNumber(sorted, i);
    WellMadePrefix(photos, sorted, i + 1);
    ScanFollowsObservations(sorted[..i + 1]);
  }

  /** A position remembered for something not classified as one is seen by the row loop only. */
  lemma OtherwiseTheyDiffer()
    ensures var s := Semantics("ITEM", "", "", "", Some(Snapshot(None, Some(PositionBranch("VALID", "A", "", "", "")))));
      var photos := [Photo("p", 1, "", "", Some(s))];
      !WellMade(s) && RunningAt(photos, 0) == Position("A", "A", "A") && FromScratch(photos, 1) == NOWHERE
  {
    var s := Semantics("ITEM", "", "", "", Some(Snapshot(None, Some(PositionBranch("VALID", "A", "", "", "")))));
    var photos := [Photo("p", 1, "", "", Some(s))];
    assert Strip("A") == "A" && Strip("") == "";
    assert PositionFromSnapshot(s.snapshot, "") == Some(Position("A", "A", "A"));
    assert photos[..1] == photos && photos[..0] == [];
    SortedAlready(photos);
    UpToOwnNumber(photos, 0);
  }

  // ----- products -----

  predicate IsItem(s: Semantics) {
    s.classification == "ITEM"
  }

  function ProductsOf(parse: LabelParser, s: Semantics): (r: seq<Product>)
    ensures |r| <= 1
  {
    if s.classification == "RAW" && s.selectionMode == "ALL" then [Product("", s.rawPayload, None)]
    else if ProductsFromSnapshot(s.snapshot) != [] then ProductsFromSnapshot(s.snapshot)
    else if !IsItem(s) then []
    else
      var parsed := parse(s.exportLine);
      if parsed.None? then [] else [parsed.value.(labelId := Strip(parsed.value.labelId))]
  }

  function LabelOf(p: Product): string {
    Strip(p.labelId)
  }

  /** The label a photo bears, if any. */
  function PhotoLabel(parse: LabelParser, p: Photo): string {
    var products := ProductsOf(parse, SemanticsOf(p));
    if products == [] then "" else LabelOf(products[0])
  }

  function LabelsOf(parse: LabelParser, ps: seq<Photo>): set<string> {
    if ps == [] then {}
    else
      var tag := PhotoLabel(parse, ps[|ps| - 1]);
      LabelsOf(parse, ps[..|ps| - 1]) + (if tag == "" then {} else {tag})
  }

  lemma {:induction false} LabelsAre(parse: LabelParser, ps: seq<Photo>, tag: string)
    ensures tag in LabelsOf(parse, ps) <==> tag != "" && exists i :: 0 <= i < |ps| && PhotoLabel(parse, ps[i]) == tag
  {
    hide PhotoLabel;
    if ps != [] {
      var front := ps[..|ps| - 1];
      LabelsAre(parse, front, tag);
      if i :| 0 <= i < |ps| && PhotoLabel(parse, ps[i]) == tag { assert i == |ps| - 1 || front[i] == ps[i]; }
      if i :| 0 <= i < |front| && PhotoLabel(parse, front[i]) == tag { assert front[i] == ps[i]; }
    }
  }

  // ----- rows -----

  function PositionRow(p: Photo, position: Position): Row {
    Row(p.id, p.number, p.capturedAt, position, "", "", None, "NOT_APPLICABLE", LABEL)
  }

  function ProductRow(p: Photo, position: Position, product: Product): Row {
    Row(p.id, p.number, p.capturedAt, position,
        Strip(product.internalCode), LabelOf(product), product.quantity, "PRESENT", SCAN)
  }

  /** The row of one photo, given the labels borne by earlier ones: none for a repeated label and for a
      scan that is neither a position nor a product. */
  function RowFor(parse: LabelParser, sorted: seq<Photo>, i: nat): Option<Row>
    requires i < |sorted|
  {
    var s, position := SemanticsOf(sorted[i]), RunningAt(sorted, i);
    var products := ProductsOf(parse, s);
    if products == [] then
      if !IsPositionPhoto(s) then None
      else if StartsWith(s.exportLine, POSITION_PREFIX)
      then Some(PositionRow(sorted[i], ParsePositionLine(s.exportLine)))
      else Some(PositionRow(sorted[i], position))
    else if LabelOf(products[0]) in LabelsOf(parse, sorted[..i]) then
      if IsItem(s) || !IsPositionPhoto(s) then None else Some(PositionRow(sorted[i], position))
    else Some(ProductRow(sorted[i], position, products[0]))
  }

  function RowsOf(parse: LabelParser, sorted: seq<Photo>, n: nat): seq<Row>
    requires n <= |sorted|
  {
    if n == 0 then []
    else
      var row := RowFor(parse, sorted, n - 1);
      RowsOf(parse, sorted, n - 1) + (if row.Some? then [row.value] else [])
  }

  predicate IsProductRow(r: Row) {
    r.source == SCAN && (Strip(r.internalCode) != "" || Strip(r.labelId) != "")
  }

  predicate AnyProduct(rows: seq<Row>) {
    exists i :: 0 <= i < |rows| && IsProductRow(rows[i])
  }

  function Build(parse: LabelParser, photos: seq<Photo>): Result<seq<Row>> {
    var sorted := Sort(ByNumber, photos);
    var rows := RowsOf(parse, sorted, |sorted|);
    if rows == [] then Err("PACKAGE_EXPORT_EMPTY")
    else if !AnyProduct(rows) then Err("PACKAGE_EXPORT_NO_PRODUCTS")
    else Ok(rows)
  }

  lemma NextRow(parse: LabelParser, sorted: seq<Photo>, i: nat)
    requires i < |sorted|
    ensures RowsOf(parse, sorted, i + 1)
      == RowsOf(parse, sorted, i) + (if RowFor(parse, sorted, i).Some? then [RowFor(parse, sorted, i).value] else [])
    ensures LabelsOf(parse, sorted[..i + 1])
      == LabelsOf(parse, sorted[..i]) + (if PhotoLabel(parse, sorted[i]) == "" then {} else {PhotoLabel(parse, sorted[i])})
    ensures LastObserved(sorted[..i + 1])
      == if Observed(SemanticsOf(sorted[i])).Some? then Observed(SemanticsOf(sorted[i])) else LastObserved(sorted[..i])
  {
    hide RowFor, PhotoLabel, Observed, SemanticsOf;
    assert sorted[..i + 1][..i] == sorted[..i];
  }

  /** The loop over one photo's products: those with a label already emitted are skipped. */
  method FilterProducts(products: seq<Product>, emitted0: set<string>)
    returns (filtered: seq<Product>, emitted: set<string>, duplicate: bool)
    requires |products| <= 1
    ensures var tag := if products == [] then "" else LabelOf(products[0]);
      && emitted == emitted0 + (if tag == "" then {} else {tag})
      && duplicate == (tag != "" && tag in emitted0)
      && filtered == (if duplicate then [] else products)
  {
    filtered, emitted, duplicate := [], emitted0, false;
    for k := 0 to |products|
      invariant k == 0 ==> filtered == [] && emitted == emitted0 && !duplicate
      invariant k == 1 ==> var tag := LabelOf(products[0]);
        && emitted == emitted0 + (if tag == "" then {} else {tag})
        && duplicate == (tag != "" && tag in emitted0)
        && filtered == (if duplicate then [] else products)
    {
      var tag := LabelOf(products[k]);
      if tag != "" && tag in emitted {
        duplicate := true;
        continue;
      }
      if tag != "" { emitted := emitted + {tag}; }
      filtered := filtered + [products[k]];
    }
  }

  lemma {:induction false} NoEmptyLabel(parse: LabelParser, ps: seq<Photo>)
    ensures "" !in LabelsOf(parse, ps)
  {
    hide PhotoLabel;
    if ps != [] { NoEmptyLabel(parse, ps[..|ps| - 1]); }
  }

  /** One turn of the row loop. */
  method AddRow(parse: LabelParser, sorted: seq<Photo>, i: nat, running: Option<Position>, emitted: set<string>)
    returns (row: Option<Row>, running': Option<Position>, emitted': set<string>)
    requires i < |sorted|
    requires running == LastObserved(sorted[..i]) && emitted == LabelsOf(parse, sorted[..i])
    ensures row == RowFor(parse, sorted, i)
    ensures running' == LastObserved(sorted[..i + 1]) && emitted' == LabelsOf(parse, sorted[..i + 1])
  {
    hide SemanticsOf, ProductsOf, LastObserved, LabelsOf, ParsePositionLine, PositionFromSnapshot, FromScratch, RowsOf, Strip;
    var photo := sorted[i];
    var s := SemanticsOf(photo);
    NextRow(parse, sorted, i);
    NoEmptyLabel(parse, sorted[..i]);
    running', emitted' := running, emitted;
    if IsPositionPhoto(s) {
      var supplier := PositionFromSnapshot(s.snapshot, s.rawPayload);
      if supplier.Some? {
        running' := supplier;
      } else if StartsWith(s.exportLine, POSITION_PREFIX) {
        running' := Some(ParsePositionLine(s.exportLine));
      }
    }
    var position;
    if running'.Some? {
      position := running'.value;
    } else {
      position := RunningPositionFromPhotos(sorted, photo.number);
    }
    var products := ProductsOf(parse, s);
    if IsPositionPhoto(s) && products == [] {
      var own := if StartsWith(s.exportLine, POSITION_PREFIX) then ParsePositionLine(s.exportLine) else position;
      row := Some(PositionRow(photo, own));
      return;
    }
    var filtered, duplicate;
    filtered, emitted', duplicate := FilterProducts(products, emitted);
    if filtered == [] {
      if duplicate && IsItem(s) {
        row := None;
      } else if IsPositionPhoto(s) {
        row := Some(PositionRow(photo, position));
      } else {
        row := None;
      }
    } else {
      row := Some(ProductRow(photo, position, filtered[0]));
    }
  }

  method BuildLocalCsvRows(parse: LabelParser, photos: seq<Photo>) returns (result: Result<seq<Row>>)
    ensures result == Build(parse, photos)
  {
    hide RowFor, RowsOf, LastObserved, LabelsOf, IsProductRow, Sort;
    var sorted := Sort(ByNumber, photos);
    var rows: seq<Row>, running: Option<Position>, emitted: set<string> := [], None, {};
    assert sorted[..0] == [];
    BeforeAnyRow(parse, sorted);
    for i := 0 to |sorted|
      invariant rows == RowsOf(parse, sorted, i)
      invariant running == LastObserved(sorted[..i]) && emitted == LabelsOf(parse, sorted[..i])
    {
      NextRow(parse, sorted, i);
      var row;
      row, running, emitted := AddRow(parse, sorted, i, running, emitted);
      if row.Some? { rows := rows + [row.value]; } else { assert rows + [] == rows; }
    }
    if rows == [] {
      return Err("PACKAGE_EXPORT_EMPTY");
    }
    var k := 0;
    while k < |rows|
      invariant 0 <= k <= |rows| && forall j :: 0 <= j < k ==> !IsProductRow(rows[j])
    {
      if IsProductRow(rows[k]) { return Ok(rows); }
      k := k + 1;
    }
    result := Err("PACKAGE_EXPORT_NO_PRODUCTS");
  }

  lemma BeforeAnyRow(parse: LabelParser, sorted: seq<Photo>)
    ensures RowsOf(parse, sorted, 0) == [] && LastObserved([]) == None && LabelsOf(parse, []) == {}
  {
  }

  // ----- what the rows say -----

  ghost predicate OfPhoto(parse: LabelParser, sorted: seq<Photo>, n: nat, r: Row)
    requires n <= |sorted|
  {
    exists i :: 0 <= i < n && RowFor(parse, sorted, i) == Some(r)
  }

  lemma {:induction false} RowsAreOfPhotos(parse: LabelParser, sorted: seq<Photo>, n: nat)
    requires n <= |sorted|
    ensures forall r :: r in RowsOf(parse, sorted, n) <==> OfPhoto(parse, sorted, n, r)
  {
    hide RowFor;
    if n > 0 {
      RowsAreOfPhotos(parse, sorted, n - 1);
      forall r ensures r in RowsOf(parse, sorted, n) <==> OfPhoto(parse, sorted, n, r) {
        var row := RowFor(parse, sorted, n - 1);
        assert r in RowsOf(parse, sorted, n) <==> r in RowsOf(parse, sorted, n - 1) || row == Some(r);
        assert OfPhoto(parse, sorted, n, r) <==> OfPhoto(parse, sorted, n - 1, r) || row == Some(r);
      }
    }
  }

  /** Every row is the row of some photo... */
  lemma PhotoOf(parse: LabelParser, sorted: seq<Photo>, n: nat, r: Row) returns (i: nat)
    requires n <= |sorted| && r in RowsOf(parse, sorted, n)
    ensures i < n && RowFor(parse, sorted, i) == Some(r)
  {
    hide RowFor;
    RowsAreOfPhotos(parse, sorted, n);
    assert OfPhoto(parse, sorted, n, r);
    i :| 0 <= i < n && RowFor(parse, sorted, i) == Some(r);
  }

  /** ... and every photo's row is there. */
  lemma RowIsListed(parse: LabelParser, sorted: seq<Photo>, n: nat, i: nat)
    requires i < n <= |sorted| && RowFor(parse, sorted, i).Some?
    ensures RowFor(parse, sorted, i).value in RowsOf(parse, sorted, n)
  {
    hide RowFor;
    RowsAreOfPhotos(parse, sorted, n);
    assert OfPhoto(parse, sorted, n, RowFor(parse, sorted, i).value);
  }

  lemma RowIsOfPhoto(parse: LabelParser, sorted: seq<Photo>, i: nat)
    requires i < |sorted| && RowFor(parse, sorted, i).Some?
    ensures var r := RowFor(parse, sorted, i).value;
      r.order == sorted[i].number && r.photoId == sorted[i].id && r.capturedAt == sorted[i].capturedAt
  {
    hide SemanticsOf, ProductsOf, LabelsOf, RunningAt, ParsePositionLine;
  }

  lemma {:induction false} RowsAscend(parse: LabelParser, sorted: seq<Photo>, n: nat)
    requires Ascending(sorted) && n <= |sorted|
    ensures forall a, b :: 0 <= a < b < |RowsOf(parse, sorted, n)| ==>
      RowsOf(parse, sorted, n)[a].order < RowsOf(parse, sorted, n)[b].order
  {
    hide RowFor;
    if n > 0 {
      RowsAscend(parse, sorted, n - 1);
      if RowFor(parse, sorted, n - 1).Some? {
        RowIsOfPhoto(parse, sorted, n - 1);
        RowsBelow(parse, sorted, n - 1);
      }
    }
  }

  lemma RowsBelow(parse: LabelParser, sorted: seq<Photo>, n: nat)
    requires Ascending(sorted) && n < |sorted|
    ensures forall a :: 0 <= a < |RowsOf(parse, sorted, n)| ==> RowsOf(parse, sorted, n)[a].order < sorted[n].number
  {
    hide RowFor;
    var rows := RowsOf(parse, sorted, n);
    forall a | 0 <= a < |rows| ensures rows[a].order < sorted[n].number {
      var i := PhotoOf(parse, sorted, n, rows[a]);
      RowIsOfPhoto(parse, sorted, i);
    }
  }

  /** Photos give at most one row each, in strictly increasing `capture_order`. */
  lemma OneRowPerPhoto(parse: LabelParser, photos: seq<Photo>)
    requires DistinctNumbers(photos) && Build(parse, photos).Ok?
    ensures var rows := Build(parse, photos).value;
      && (forall a, b :: 0 <= a < b < |rows| ==> rows[a].order < rows[b].order)
      && (forall a :: 0 <= a < |rows| ==> exists p :: p in photos && p.number == rows[a].order && p.id == rows[a].photoId)
  {
    hide RowFor, RowsOf, Sort, Ascending, DistinctNumbers;
    var sorted := Sort(ByNumber, photos);
    var rows := RowsOf(parse, sorted, |sorted|);
    SortAscends(photos);
    RowsAscend(parse, sorted, |sorted|);
    forall a | 0 <= a < |rows| ensures exists p :: p in photos && p.number == rows[a].order && p.id == rows[a].photoId {
      var i := PhotoOf(parse, sorted, |sorted|, rows[a]);
      RowIsOfPhoto(parse, sorted, i);
      assert sorted[i] in photos;
    }
  }

  predicate HasProduct(parse: LabelParser, p: Photo) {
    ProductsOf(parse, SemanticsOf(p)) != []
  }

  /** A photo has a product row exactly when it bears a product whose label no lower-numbered photo
      bears. */
  lemma ProductRowIff(parse: LabelParser, sorted: seq<Photo>, i: nat)
    requires i < |sorted|
    ensures (RowFor(parse, sorted, i).Some? && RowFor(parse, sorted, i).value.source == SCAN)
      <==> HasProduct(parse, sorted[i])
           && (PhotoLabel(parse, sorted[i]) == ""
               || forall j :: 0 <= j < i ==> PhotoLabel(parse, sorted[j]) != PhotoLabel(parse, sorted[i]))
    ensures RowFor(parse, sorted, i).Some? && RowFor(parse, sorted, i).value.source == SCAN ==>
      RowFor(parse, sorted, i).value == ProductRow(sorted[i], RunningAt(sorted, i), ProductsOf(parse, SemanticsOf(sorted[i]))[0])
      && RowFor(parse, sorted, i).value.labelId == PhotoLabel(parse, sorted[i])
  {
    hide SemanticsOf, ProductsOf, RunningAt, ParsePositionLine, Strip, IsPositionPhoto;
    var tag := PhotoLabel(parse, sorted[i]);
    LabelsAre(parse, sorted[..i], tag);
    assert forall j :: 0 <= j < i ==> sorted[..i][j] == sorted[j];
  }

  /** The lowest-numbered photo bearing a label. */
  lemma FirstBearer(parse: LabelParser, sorted: seq<Photo>, i: nat) returns (j: nat)
    requires i < |sorted|
    ensures j <= i && PhotoLabel(parse, sorted[j]) == PhotoLabel(parse, sorted[i])
    ensures forall k :: 0 <= k < j ==> PhotoLabel(parse, sorted[k]) != PhotoLabel(parse, sorted[i])
  {
    hide PhotoLabel;
    j := 0;
    while PhotoLabel(parse, sorted[j]) != PhotoLabel(parse, sorted[i])
      invariant j <= i
      invariant forall k :: 0 <= k < j ==> PhotoLabel(parse, sorted[k]) != PhotoLabel(parse, sorted[i])
      decreases i - j
    {
      j := j + 1;
    }
  }

  lemma LabelMeansProduct(parse: LabelParser, p: Photo)
    ensures PhotoLabel(parse, p) != "" ==> HasProduct(parse, p)
  {
    hide ProductsOf, SemanticsOf;
  }

  predicate Scans(rows: seq<Row>, a: int, tag: string) {
    0 <= a < |rows| && rows[a].source == SCAN && rows[a].labelId == tag
  }

  /** A label borne by some photo is in a row. */
  lemma LabelIsListed(parse: LabelParser, sorted: seq<Photo>, i: nat)
    requires i < |sorted| && PhotoLabel(parse, sorted[i]) != ""
    ensures exists a :: Scans(RowsOf(parse, sorted, |sorted|), a, PhotoLabel(parse, sorted[i]))
  {
    hide PhotoLabel, RowFor, RowsOf, HasProduct;
    var tag, rows := PhotoLabel(parse, sorted[i]), RowsOf(parse, sorted, |sorted|);
    var j := FirstBearer(parse, sorted, i);
    LabelMeansProduct(parse, sorted[j]);
    ProductRowIff(parse, sorted, j);
    RowIsListed(parse, sorted, |sorted|, j);
    var a :| 0 <= a < |rows| && rows[a] == RowFor(parse, sorted, j).value;
    assert Scans(rows, a, tag);
  }

  /** A listed label is borne by a photo of the row's number, and by none before it. */
  lemma ListedOnFirstBearer(parse: LabelParser, sorted: seq<Photo>, a: int, tag: string) returns (i: nat)
    requires Scans(RowsOf(parse, sorted, |sorted|), a, tag) && tag != ""
    ensures i < |sorted| && sorted[i].number == RowsOf(parse, sorted, |sorted|)[a].order
    ensures PhotoLabel(parse, sorted[i]) == tag
    ensures forall k :: 0 <= k < i ==> PhotoLabel(parse, sorted[k]) != tag
  {
    hide PhotoLabel, RowFor, RowsOf, HasProduct;
    var rows := RowsOf(parse, sorted, |sorted|);
    i := PhotoOf(parse, sorted, |sorted|, rows[a]);
    RowIsOfPhoto(parse, sorted, i);
    ProductRowIff(parse, sorted, i);
  }

  /** The labels in product rows are exactly the labels the photos bear; each is listed once, in the row
      of the lowest-numbered photo bearing it. */
  lemma LabelsExactlyOnce(parse: LabelParser, photos: seq<Photo>, tag: string)
    requires DistinctNumbers(photos) && tag != "" && Build(parse, photos).Ok?
    ensures var rows := Build(parse, photos).value;
      && ((exists a :: Scans(rows, a, tag)) <==> exists p :: p in photos && PhotoLabel(parse, p) == tag)
      && (forall a, b :: Scans(rows, a, tag) && Scans(rows, b, tag) ==> a == b)
      && (forall a, p :: 0 <= a < |rows| && Scans(rows, a, tag) && p in photos && PhotoLabel(parse, p) == tag ==>
            rows[a].order <= p.number)
  {
    hide PhotoLabel, RowFor, RowsOf, Sort, DistinctNumbers, Scans;
    var sorted := Sort(ByNumber, photos);
    var rows := RowsOf(parse, sorted, |sorted|);
    SortAscends(photos);
    RowsAscend(parse, sorted, |sorted|);
    if p :| p in photos && PhotoLabel(parse, p) == tag {
      assert p in sorted;
      var i :| 0 <= i < |sorted| && sorted[i] == p;
      LabelIsListed(parse, sorted, i);
    }
    forall a | Scans(rows, a, tag)
      ensures exists p :: p in photos && PhotoLabel(parse, p) == tag
      ensures 0 <= a < |rows| && forall p :: p in photos && PhotoLabel(parse, p) == tag ==> rows[a].order <= p.number
    {
      ListedLow(parse, photos, sorted, a, tag);
    }
    forall a, b | Scans(rows, a, tag) && Scans(rows, b, tag) ensures a == b {
      ListedTogether(parse, photos, sorted, a, b, tag);
    }
  }

  lemma ListedLow(parse: LabelParser, photos: seq<Photo>, sorted: seq<Photo>, a: int, tag: string)
    requires Ascending(sorted) && (forall p :: p in sorted <==> p in photos) && tag != ""
    requires Scans(RowsOf(parse, sorted, |sorted|), a, tag)
    ensures 0 <= a < |RowsOf(parse, sorted, |sorted|)|
    ensures exists p :: p in photos && PhotoLabel(parse, p) == tag && p.number == RowsOf(parse, sorted, |sorted|)[a].order
    ensures forall p :: p in photos && PhotoLabel(parse, p) == tag ==> RowsOf(parse, sorted, |sorted|)[a].order <= p.number
  {
    hide PhotoLabel, RowsOf;
    var i := ListedOnFirstBearer(parse, sorted, a, tag);
    assert sorted[i] in photos;
    forall p | p in photos && PhotoLabel(parse, p) == tag ensures sorted[i].number <= p.number {
      assert p in sorted;
    }
  }

  lemma ListedTogether(parse: LabelParser, photos: seq<Photo>, sorted: seq<Photo>, a: int, b: int, tag: string)
    requires Ascending(sorted) && tag != ""
    requires var rows := RowsOf(parse, sorted, |sorted|);
      && Scans(rows, a, tag) && Scans(rows, b, tag)
      && forall x, y :: 0 <= x < y < |rows| ==> rows[x].order < rows[y].order
    ensures a == b
  {
    hide PhotoLabel, RowsOf, Ascending;
    var i := ListedOnFirstBearer(parse, sorted, a, tag);
    var j := ListedOnFirstBearer(parse, sorted, b, tag);
    assert i == j;
    var rows := RowsOf(parse, sorted, |sorted|);
    assert rows[a].order == rows[b].order;
  }

  /** A product without a label always has its row. */
  lemma UnlabelledIsNeverDropped(parse: LabelParser, photos: seq<Photo>, p: Photo)
    requires p in photos && DistinctNumbers(photos) && Build(parse, photos).Ok?
    requires HasProduct(parse, p) && PhotoLabel(parse, p) == ""
    ensures exists r ::
      && r in Build(parse, photos).value && r.source == SCAN && r.order == p.number && r.labelId == ""
      && r.internalCode == Strip(ProductsOf(parse, SemanticsOf(p))[0].internalCode)
  {
    hide PhotoLabel, RowFor, RowsOf, Sort, DistinctNumbers, ProductsOf, SemanticsOf, Strip;
    var sorted := Sort(ByNumber, photos);
    SortAscends(photos);
    assert p in sorted;
    var i :| 0 <= i < |sorted| && sorted[i] == p;
    ProductRowIff(parse, sorted, i);
    RowIsListed(parse, sorted, |sorted|, i);
    assert RowFor(parse, sorted, i).value in RowsOf(parse, sorted, |sorted|);
  }

  ghost predicate HasProductRow(rows: seq<Row>, p: Photo) {
    exists r :: r in rows && r.source == SCAN && r.order == p.number
  }

  ghost predicate BornBefore(parse: LabelParser, photos: seq<Photo>, p: Photo, tag: string) {
    exists q :: q in photos && q.number < p.number && PhotoLabel(parse, q) == tag
  }

  lemma BornBeforeInOrder(parse: LabelParser, photos: seq<Photo>, sorted: seq<Photo>, i: nat, tag: string)
    requires Ascending(sorted) && (forall p :: p in sorted <==> p in photos) && i < |sorted|
    ensures BornBefore(parse, photos, sorted[i], tag) <==> exists j :: 0 <= j < i && PhotoLabel(parse, sorted[j]) == tag
  {
    hide PhotoLabel;
    if q :| q in photos && q.number < sorted[i].number && PhotoLabel(parse, q) == tag {
      assert q in sorted;
      var j :| 0 <= j < |sorted| && sorted[j] == q;
      assert j < i;
    }
    if j :| 0 <= j < i && PhotoLabel(parse, sorted[j]) == tag {
      assert sorted[j] in photos;
    }
  }

  /** A photo that bears a product keeps its row exactly when its label is empty or no lower-numbered photo
      bears it. */
  lemma ProductRowKeptIff(parse: LabelParser, photos: seq<Photo>, p: Photo)
    requires p in photos && DistinctNumbers(photos) && Build(parse, photos).Ok? && HasProduct(parse, p)
    ensures HasProductRow(Build(parse, photos).value, p)
      <==> PhotoLabel(parse, p) == "" || !BornBefore(parse, photos, p, PhotoLabel(parse, p))
  {
    hide PhotoLabel, RowFor, RowsOf, Sort, DistinctNumbers, HasProduct, BornBefore;
    var sorted := Sort(ByNumber, photos);
    var rows := RowsOf(parse, sorted, |sorted|);
    SortAscends(photos);
    assert p in sorted;
    var i :| 0 <= i < |sorted| && sorted[i] == p;
    ProductRowIff(parse, sorted, i);
    BornBeforeInOrder(parse, photos, sorted, i, PhotoLabel(parse, p));
    if RowFor(parse, sorted, i).Some? {
      RowIsOfPhoto(parse, sorted, i);
      RowIsListed(parse, sorted, |sorted|, i);
    }
    if r :| r in rows && r.source == SCAN && r.order == p.number {
      var k := PhotoOf(parse, sorted, |sorted|, r);
      RowIsOfPhoto(parse, sorted, k);
      assert k == i;
    }
  }

  /** The code of a recognised item stands in for a missing label, so that a second scan of an item known
      by its code alone is dropped: it keeps its row exactly when no lower-numbered photo bears that code as
      its label. */
  lemma CodeOnlyKeptIff(parse: LabelParser, photos: seq<Photo>, p: Photo, item: ItemBranch, position: Option<PositionBranch>)
    requires p in photos && DistinctNumbers(photos) && Build(parse, photos).Ok?
    requires SemanticsOf(p).classification == "ITEM" && SemanticsOf(p).snapshot == Some(Snapshot(Some(item), position))
    requires item.status == "VALID" && Strip(item.labelId) == "" && Strip(Or(item.sku, item.internalCode)) != ""
    ensures var code := Strip(Or(item.sku, item.internalCode));
      && PhotoLabel(parse, p) == code
      && (HasProductRow(Build(parse, photos).value, p) <==> !BornBefore(parse, photos, p, code))
  {
    hide SemanticsOf, Strip, DistinctNumbers, Build, BornBefore, HasProductRow;
    CodeIsTrimmed(item);
    assert ProductsFromSnapshot(SemanticsOf(p).snapshot) != [];
    ProductRowKeptIff(parse, photos, p);
  }

  lemma CodeIsTrimmed(item: ItemBranch)
    ensures Strip(Strip(Or(item.sku, item.internalCode))) == Strip(Or(item.sku, item.internalCode))
  {
    hide LStrip, RStrip;
  }

  predicate SaysProduct(r: Row, p: Photo, product: Product) {
    r == Row(p.id, p.number, p.capturedAt, r.position, Strip(product.internalCode), Strip(product.labelId),
             product.quantity, "PRESENT", SCAN)
  }

  /** What a product row says: the photo it is of, and that photo's product. */
  lemma ProductRowIs(parse: LabelParser, photos: seq<Photo>, r: Row)
    requires Build(parse, photos).Ok? && DistinctNumbers(photos) && r in Build(parse, photos).value && r.source == SCAN
    ensures exists p :: p in photos && HasProduct(parse, p) && SaysProduct(r, p, ProductsOf(parse, SemanticsOf(p))[0])
  {
    hide RowFor, RowsOf, Sort, DistinctNumbers, ProductsOf, SemanticsOf, RunningAt;
    var sorted := Sort(ByNumber, photos);
    SortAscends(photos);
    var i := PhotoOf(parse, sorted, |sorted|, r);
    ProductRowIff(parse, sorted, i);
    assert sorted[i] in photos;
  }

  /** A photo of a position without a product has a row with that position: the one its line spells, or the one in
      force. */
  lemma PositionRowIs(parse: LabelParser, photos: seq<Photo>, p: Photo)
    requires Build(parse, photos).Ok? && DistinctNumbers(photos) && AllWellMade(photos) && p in photos
    requires !HasProduct(parse, p) && IsPositionPhoto(SemanticsOf(p))
    ensures var line := SemanticsOf(p).exportLine;
      Row(p.id, p.number, p.capturedAt,
          if StartsWith(line, POSITION_PREFIX) then ParsePositionLine(line) else FromScratch(photos, p.number),
          "", "", None, "NOT_APPLICABLE", LABEL)
      in Build(parse, photos).value
  {
    hide RowsOf, Sort, DistinctNumbers, AllWellMade, ProductsOf, SemanticsOf, RunningAt, ParsePositionLine, IsPositionPhoto;
    hide FromScratch, PositionAfter;
    var sorted := Sort(ByNumber, photos);
    SortAscends(photos);
    assert p in sorted;
    var i :| 0 <= i < |sorted| && sorted[i] == p;
    SortedLength(photos);
    IncrementalIsFromScratch(photos, i);
    RowIsListed(parse, sorted, |sorted|, i);
  }

  lemma SortedLength(photos: seq<Photo>)
    ensures |Sort(ByNumber, photos)| == |photos|
  {
    hide Sort;
    SortContents(ByNumber, photos);
    assert |multiset(Sort(ByNumber, photos))| == |multiset(photos)|;
  }

  /** With well-made semantics, each product row carries the position in force at its photo. */
  lemma RowsCarryThePosition(parse: LabelParser, photos: seq<Photo>, a: int)
    requires DistinctNumbers(photos) && AllWellMade(photos) && Build(parse, photos).Ok?
    requires 0 <= a < |Build(parse, photos).value| && Build(parse, photos).value[a].source == SCAN
    ensures Build(parse, photos).value[a].position == FromScratch(photos, Build(parse, photos).value[a].order)
  {
    hide PhotoLabel, RowFor, RowsOf, Sort, DistinctNumbers, AllWellMade, ProductsOf, SemanticsOf;
    hide Strip, RunningAt, FromScratch, PositionAfter;
    var sorted := Sort(ByNumber, photos);
    var rows := RowsOf(parse, sorted, |sorted|);
    var i := PhotoOf(parse, sorted, |sorted|, rows[a]);
    ProductRowIff(parse, sorted, i);
    RowIsOfPhoto(parse, sorted, i);
    IncrementalIsFromScratch(photos, i);
  }

  // ----- when the export is refused -----

  predicate Shows(parse: LabelParser, p: Photo) {
    HasProduct(parse, p) || IsPositionPhoto(SemanticsOf(p))
  }

  /** A product with something to print. */
  predicate Sellable(parse: LabelParser, p: Photo) {
    HasProduct(parse, p)
    && (PhotoLabel(parse, p) != "" || Strip(ProductsOf(parse, SemanticsOf(p))[0].internalCode) != "")
  }

  lemma RowOnlyIfShows(parse: LabelParser, sorted: seq<Photo>, i: nat)
    requires i < |sorted|
    ensures RowFor(parse, sorted, i).Some? ==> Shows(parse, sorted[i])
    ensures !HasProduct(parse, sorted[i]) && Shows(parse, sorted[i]) ==> RowFor(parse, sorted, i).Some?
    ensures HasProduct(parse, sorted[i]) && PhotoLabel(parse, sorted[i]) == "" ==> RowFor(parse, sorted, i).Some?
  {
    hide SemanticsOf, ProductsOf, RunningAt, ParsePositionLine, Strip, IsPositionPhoto, LabelsOf;
    NoEmptyLabel(parse, sorted[..i]);
  }

  /** There are no rows exactly when no photo shows a position or a product. */
  lemma EmptyIff(parse: LabelParser, photos: seq<Photo>)
    requires DistinctNumbers(photos)
    ensures Build(parse, photos) == Err("PACKAGE_EXPORT_EMPTY") <==> forall p :: p in photos ==> !Shows(parse, p)
  {
    hide PhotoLabel, RowFor, RowsOf, Sort, DistinctNumbers, Shows, HasProduct, IsProductRow;
    var sorted := Sort(ByNumber, photos);
    var rows := RowsOf(parse, sorted, |sorted|);
    SortAscends(photos);
    if rows != [] {
      var i := PhotoOf(parse, sorted, |sorted|, rows[0]);
      RowOnlyIfShows(parse, sorted, i);
      assert sorted[i] in photos;
    }
    forall p | p in photos && Shows(parse, p) ensures rows != [] {
      assert p in sorted;
      var i :| 0 <= i < |sorted| && sorted[i] == p;
      RowOnlyIfShows(parse, sorted, i);
      if RowFor(parse, sorted, i).Some? { RowIsListed(parse, sorted, |sorted|, i); }
      if PhotoLabel(parse, p) != "" { LabelIsListed(parse, sorted, i); }
    }
  }

  lemma ScanRowShows(parse: LabelParser, sorted: seq<Photo>, i: nat)
    requires i < |sorted| && RowFor(parse, sorted, i).Some? && IsProductRow(RowFor(parse, sorted, i).value)
    ensures Sellable(parse, sorted[i])
  {
    hide RowFor, ProductsOf, SemanticsOf, Strip, RunningAt;
    ProductRowIff(parse, sorted, i);
    StripTwice(parse, sorted[i]);
  }

  lemma StripTwice(parse: LabelParser, p: Photo)
    ensures HasProduct(parse, p) ==>
      var code := ProductsOf(parse, SemanticsOf(p))[0].internalCode;
      Strip(Strip(code)) == Strip(code)
    ensures Strip(PhotoLabel(parse, p)) == PhotoLabel(parse, p)
  {
    hide LStrip, RStrip, ProductsOf, SemanticsOf;
  }

  lemma SellableHasProductRow(parse: LabelParser, sorted: seq<Photo>, i: nat)
    requires i < |sorted| && Sellable(parse, sorted[i])
    ensures AnyProduct(RowsOf(parse, sorted, |sorted|))
  {
    hide RowFor, RowsOf, ProductsOf, SemanticsOf, Strip, RunningAt;
    var rows := RowsOf(parse, sorted, |sorted|);
    StripTwice(parse, sorted[i]);
    if PhotoLabel(parse, sorted[i]) != "" {
      LabelIsListed(parse, sorted, i);
      var a :| Scans(rows, a, PhotoLabel(parse, sorted[i]));
      assert IsProductRow(rows[a]);
    } else {
      ProductRowIff(parse, sorted, i);
      RowIsListed(parse, sorted, |sorted|, i);
      var a :| 0 <= a < |rows| && rows[a] == RowFor(parse, sorted, i).value;
      assert IsProductRow(rows[a]);
    }
  }

  /** Rows are built exactly when some photo bears a product with a label or a code. */
  lemma BuiltIff(parse: LabelParser, photos: seq<Photo>)
    requires DistinctNumbers(photos)
    ensures Build(parse, photos).Ok? <==> exists p :: p in photos && Sellable(parse, p)
  {
    hide RowFor, RowsOf, Sort, DistinctNumbers, Sellable, IsProductRow;
    var sorted := Sort(ByNumber, photos);
    var rows := RowsOf(parse, sorted, |sorted|);
    SortAscends(photos);
    if p :| p in photos && Sellable(parse, p) {
      assert p in sorted;
      var i :| 0 <= i < |sorted| && sorted[i] == p;
      SellableHasProductRow(parse, sorted, i);
    }
    if AnyProduct(rows) {
      var a :| 0 <= a < |rows| && IsProductRow(rows[a]);
      var i := PhotoOf(parse, sorted, |sorted|, rows[a]);
      ScanRowShows(parse, sorted, i);
      assert sorted[i] in photos;
    }
  }
}
