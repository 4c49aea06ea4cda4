/** The identity of an exported package: what a lost ZIP must be rebuilt from to reproduce the checksums
    recorded at its first export (raspberry-scanner/session_package_export.py, session_package_upload.py). */
module PackageIdentity {
  import opened Options
  import opened PhotoNames
  import opened Text
  import C = CsvDocument
  import E = ExportCsv
  import EffectLists
  import F = PackageFingerprint
  import L = LocalCsvRows
  import M = CaptureModel
  import U = PackageUpload

  type Hash = string -> string

  /** SHA-256 in hexadecimal. */
  ghost predicate GoodHash(hash: Hash) {
    && (forall x :: hash(x) != "" && Free('|', hash(x)))
    && (forall x, y :: hash(x) == hash(y) ==> x == y)
  }

  /** What a package is built from besides the session's context: the device, the rows and the photos. */
  datatype Content = Content(deviceId: string, rows: seq<L.Row>, assets: seq<F.Asset>)

  ghost predicate Exportable(x: Content) {
    F.NumbersIdentify(x.assets) && forall a :: a in x.assets ==> F.Plain(a)
  }

  /** Resolved photos that the device named are exportable. */
  lemma SelectedIsExportable(
    ps: seq<M.Photo>, dir: string, files: map<(string, string), M.Bytes>, escapes: F.Escapes, x: Content)
    requires F.SelectCompletePhotos(ps).Ok?
    requires F.Resolves(dir, files, escapes, F.SelectCompletePhotos(ps).value, Ok(x.assets))
    requires forall p :: p in ps ==> p.fileName == PhotoFileName(p.id, p.number) && Free('|', p.id)
    ensures Exportable(x)
  {
    hide F.Plain, F.SelectCompletePhotos, F.ResolveOne, F.DistinctNumbers, F.DistinctIds, Free, PhotoFileName;
    F.SelectedIff(ps);
    var selected := F.SelectCompletePhotos(ps).value;
    forall i | 0 <= i < |selected|
      ensures selected[i] in ps && x.assets[i].number == selected[i].number && F.Plain(x.assets[i])
    {
      assert selected[i] in multiset(selected);
      ResolvedAs(dir, files, escapes, selected[i], x.assets[i]);
      F.NamedIsPlain(x.assets[i]);
    }
    forall a, b | a in x.assets && b in x.assets && a.number == b.number ensures a == b {
      var i :| 0 <= i < |selected| && x.assets[i] == a;
      var j :| 0 <= j < |selected| && x.assets[j] == b;
      NumberIdentifies(ps, selected[i], selected[j]);
    }
  }

  lemma ResolvedAs(dir: string, files: map<(string, string), M.Bytes>, escapes: F.Escapes, p: M.Photo, a: F.Asset)
    requires F.ResolveOne(dir, files, escapes, p) == Ok(a)
    ensures a.id == p.id && a.number == p.number && a.fileName == p.fileName
  {
  }

  lemma NumberIdentifies(ps: seq<M.Photo>, p: M.Photo, q: M.Photo)
    requires F.DistinctNumbers(ps) && p in ps && q in ps && p.number == q.number
    ensures p == q
  {
  }

  function Shared(id: string, context: U.Context, exportId: string, exportedAt: string, x: Content): E.Context {
    E.Context(exportId, exportedAt, x.deviceId, context.inventoryId, context.aisleId, id)
  }

  function CsvChecksum(hash: Hash, c: E.Context, x: Content): string {
    hash(E.ResultsCsv(c, x.rows))
  }

  function PackageChecksum(hash: Hash, hex: F.Hex, c: E.Context, x: Content): string {
    hash(F.Payload(hex, CsvChecksum(hash, c, x), x.assets))
  }

  /** The build an export of this content meets. */
  function BuiltFrom(hash: Hash, hex: F.Hex, c: E.Context, x: Content): U.Build {
    U.Built(CsvChecksum(hash, c, x), PackageChecksum(hash, hex, c, x), true)
  }

  // ----- equal checksums mean equal content -----

  ghost predicate SameCells(c: E.Context, r: L.Row, c': E.Context, r': L.Row) {
    E.CellsAreComplete(c, r);
    E.CellsAreComplete(c', r');
    forall h :: h in C.HEADERS ==> C.Neutralize(E.CellsOf(c, r)[h]) == C.Neutralize(E.CellsOf(c', r')[h])
  }

  /** The same rows, cell by cell, up to the quote that keeps a cell from being a formula. */
  ghost predicate SameSheet(c: E.Context, rows: seq<L.Row>, c': E.Context, rows': seq<L.Row>) {
    |rows| == |rows'| && forall i :: 0 <= i < |rows| ==> SameCells(c, rows[i], c', rows'[i])
  }

  lemma SameRecordIff(c: E.Context, r: L.Row, c': E.Context, r': L.Row)
    requires C.Complete(C.HEADERS, E.CellsOf(c, r)) && C.Complete(C.HEADERS, E.CellsOf(c', r'))
    ensures C.Neutralized(C.Cells(C.HEADERS, E.CellsOf(c, r))) == C.Neutralized(C.Cells(C.HEADERS, E.CellsOf(c', r')))
      <==> SameCells(c, r, c', r')
  {
    hide C.Neutralize, E.CellsOf;
    var a, b := C.Neutralized(C.Cells(C.HEADERS, E.CellsOf(c, r))), C.Neutralized(C.Cells(C.HEADERS, E.CellsOf(c', r')));
    if a == b {
      forall h | h in C.HEADERS ensures C.Neutralize(E.CellsOf(c, r)[h]) == C.Neutralize(E.CellsOf(c', r')[h]) {
        var i :| 0 <= i < |C.HEADERS| && C.HEADERS[i] == h;
        assert a[i] == b[i];
      }
    }
    if SameCells(c, r, c', r') {
      forall i | 0 <= i < |a| ensures a[i] == b[i] {
        assert C.HEADERS[i] in C.HEADERS;
      }
    }
  }

  lemma SameTextIff(c: E.Context, rows: seq<L.Row>, c': E.Context, rows': seq<L.Row>)
    ensures E.ResultsCsv(c, rows) == E.ResultsCsv(c', rows') <==> SameSheet(c, rows, c', rows')
  {
    hide C.Neutralize, E.CellsOf, SameCells, C.Document, C.Complete, C.Names;
    E.AllComplete(c, rows);
    E.AllComplete(c', rows');
    C.HeadersAreNames();
    C.DocumentsEqualIff(C.HEADERS, E.AllCells(c, rows), E.AllCells(c', rows'));
    var a, b := C.Expected(C.HEADERS, E.AllCells(c, rows)), C.Expected(C.HEADERS, E.AllCells(c', rows'));
    if |rows| == |rows'| {
      forall i | 0 <= i < |rows| ensures a[i] == b[i] <==> SameCells(c, rows[i], c', rows'[i]) {
        SameRecordIff(c, rows[i], c', rows'[i]);
      }
    }
  }

  /** Both checksums are reproduced exactly by the same sheet and the same photos, in any order. */
  lemma SameChecksumsIff(hash: Hash, hex: F.Hex, c: E.Context, x: Content, c': E.Context, x': Content)
    requires GoodHash(hash) && F.GoodHex(hex) && Exportable(x) && Exportable(x')
    ensures BuiltFrom(hash, hex, c, x) == BuiltFrom(hash, hex, c', x')
      <==> SameSheet(c, x.rows, c', x'.rows) && multiset(x.assets) == multiset(x'.assets)
  {
    hide F.Payload, F.GoodHex, F.Plain, F.NumbersIdentify, E.ResultsCsv, SameSheet;
    SameTextIff(c, x.rows, c', x'.rows);
    F.PayloadsEqualIff(hex, CsvChecksum(hash, c, x), CsvChecksum(hash, c', x'), x.assets, x'.assets);
  }

  // ----- rebuilding a lost ZIP -----

  /** A first export, any attempts after it, and a rebuild once the ZIP is lost. */
  ghost predicate FirstExported(
    bound: U.Bindings, s: U.State, id: string, context: U.Context, w: U.ExportWorld,
    hash: Hash, hex: F.Hex, x: Content)
  {
    && U.Inv(bound, s) && U.Load(s.files, id).None? && U.Possible(U.DoExport(id, context, w))
    && w.build == BuiltFrom(hash, hex, Shared(id, context, w.freshId, w.now, x), x)
    && U.Export(s.files, id, bound(U.SafeName(id)), context, w).1.Ok?
  }

  function AfterFirst(bound: U.Bindings, s: U.State, id: string, context: U.Context, w: U.ExportWorld): U.State {
    U.Step(bound, s, U.Attempt(U.DoExport(id, context, w), 1))
  }

  lemma FirstRecord(
    bound: U.Bindings, s: U.State, id: string, context: U.Context, w: U.ExportWorld,
    hash: Hash, hex: F.Hex, x: Content)
    requires FirstExported(bound, s, id, context, w, hash, hex, x)
    ensures var s' := AfterFirst(bound, s, id, context, w);
      && U.Inv(bound, s')
      && U.ContextError(bound(U.SafeName(id)), context).None?
      && U.Load(s'.files, id).Some?
      && var r := U.Load(s'.files, id).value;
         r.exportId == w.freshId && r.exportedAt == Some(w.now)
         && r.csvChecksum == Some(w.build.csvChecksum) && r.packageChecksum == Some(w.build.packageChecksum)
  {
    hide U.SafeName, U.Inv, U.ContextError, BuiltFrom;
    U.StepKeeps(bound, s, U.Attempt(U.DoExport(id, context, w), 1));
    var es := U.Export(s.files, id, bound(U.SafeName(id)), context, w).0;
    assert |es| == 1 && es == [es[0]];
    assert es[..1] == es;
    EffectLists.OneEffect(U.Apply, s, es[0]);
  }

  /** However often it was retried, refused or cut short in between, a lost ZIP is rebuilt exactly when the
      package was not previewed yet and the sheet - device included - and the photos are those of the first
      export. */
  lemma LostZipIsRebuiltIff(
    bound: U.Bindings, s: U.State, id: string, context: U.Context, w: U.ExportWorld, later: seq<U.Attempt>,
    w': U.ExportWorld, hash: Hash, hex: F.Hex, x: Content, x': Content)
    requires GoodHash(hash) && F.GoodHex(hex) && Exportable(x) && Exportable(x')
    requires FirstExported(bound, s, id, context, w, hash, hex, x) && U.AllPossible(later)
    requires var s' := U.Run(bound, AfterFirst(bound, s, id, context, w), later);
      !w'.zipPresent && w'.build == BuiltFrom(hash, hex, Shared(id, context, w.freshId, w.now, x'), x')
    ensures var s' := U.Run(bound, AfterFirst(bound, s, id, context, w), later);
      && U.Load(s'.files, id).Some?
      && var r := U.Load(s'.files, id).value;
         && r.exportId == w.freshId && r.exportedAt == Some(w.now)
         && (U.Export(s'.files, id, bound(U.SafeName(id)), context, w').1.Ok?
             <==> && (r.state == U.EXPORTED || r.state == U.FAILED)
                  && SameSheet(Shared(id, context, w.freshId, w.now, x), x.rows,
                               Shared(id, context, w.freshId, w.now, x'), x'.rows)
                  && multiset(x.assets) == multiset(x'.assets))
  {
    hide U.SafeName, U.Inv, U.ContextError, U.Run, U.Export, BuiltFrom, GoodHash, F.GoodHex, Exportable, SameSheet, Shared;
    var s1 := AfterFirst(bound, s, id, context, w);
    FirstRecord(bound, s, id, context, w, hash, hex, x);
    U.RunKeeps(bound, s1, later);
    var s' := U.Run(bound, s1, later);
    KeptIdentity(s1, s', id);
    var c, c' := Shared(id, context, w.freshId, w.now, x), Shared(id, context, w.freshId, w.now, x');
    ChecksumsAreText(hash, hex, c, x);
    var r := U.Load(s'.files, id).value;
    assert U.Built(r.csvChecksum.value, r.packageChecksum.value, true) == BuiltFrom(hash, hex, c, x);
    U.RebuildIff(s'.files, id, bound(U.SafeName(id)), context, w');
    SameChecksumsIff(hash, hex, c, x, c', x');
  }

  lemma KeptIdentity(s: U.State, s': U.State, id: string)
    requires U.NoneLost(s, s') && U.Load(s.files, id).Some?
    ensures U.Load(s'.files, id).Some? && U.SameIdentity(U.Load(s.files, id).value, U.Load(s'.files, id).value)
  {
    hide U.SafeName;
  }

  lemma ChecksumsAreText(hash: Hash, hex: F.Hex, c: E.Context, x: Content)
    requires GoodHash(hash)
    ensures BuiltFrom(hash, hex, c, x).Built?
    ensures BuiltFrom(hash, hex, c, x).csvChecksum != "" && BuiltFrom(hash, hex, c, x).packageChecksum != ""
    ensures BuiltFrom(hash, hex, c, x).published
  {
  }

  // ----- the device -----

  lemma DeviceCell(c: E.Context, r: L.Row)
    ensures "device_id" in E.CellsOf(c, r) && E.CellsOf(c, r)["device_id"] == c.deviceId
    ensures "device_id" in C.HEADERS
  {
    hide Decimal, E.Quantity;
    assert C.HEADERS[3] == "device_id";
  }

  /** Every row carries the device id, so that the same session exported from another device is another
      sheet - unless the two ids differ by the quote of a formula only. */
  lemma SameSheetIffSameDevice(c: E.Context, deviceId: string, rows: seq<L.Row>)
    requires rows != []
    ensures SameSheet(c, rows, c.(deviceId := deviceId), rows) <==> C.Neutralize(c.deviceId) == C.Neutralize(deviceId)
  {
    hide C.Neutralize, E.CellsOf, SameCells;
    var c' := c.(deviceId := deviceId);
    forall i | 0 <= i < |rows|
      ensures SameCells(c, rows[i], c', rows[i]) <==> C.Neutralize(c.deviceId) == C.Neutralize(deviceId)
    {
      SameCellsIffSameDevice(c, deviceId, rows[i]);
    }
    if SameSheet(c, rows, c', rows) {
      assert SameCells(c, rows[0], c', rows[0]);
    }
  }

  lemma SameCellsIffSameDevice(c: E.Context, deviceId: string, r: L.Row)
    ensures SameCells(c, r, c.(deviceId := deviceId), r) <==> C.Neutralize(c.deviceId) == C.Neutralize(deviceId)
  {
    hide C.Neutralize, E.CellsOf;
    E.CellsAreComplete(c, r);
    DeviceCell(c, r);
    DeviceCell(c.(deviceId := deviceId), r);
    OtherCellsStay(c, deviceId, r);
  }

  lemma OtherCellsStay(c: E.Context, deviceId: string, r: L.Row)
    ensures var c' := c.(deviceId := deviceId);
      forall h :: h in E.CellsOf(c, r) && h != "device_id" ==> h in E.CellsOf(c', r) && E.CellsOf(c', r)[h] == E.CellsOf(c, r)[h]
  {
    hide Decimal, E.Quantity, E.PhotoCells, E.ResultCells;
  }
}
