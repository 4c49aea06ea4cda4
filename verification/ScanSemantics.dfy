/** What is remembered of an accepted scan, and what an export reads from it
    (raspberry-scanner/scan_semantics.py). A snapshot stands for its JSON text, and each of its fields
    for the text of the value, empty when absent or falsy. */
module ScanSemantics {
  import opened Options
  import opened Text

  datatype ItemBranch = ItemBranch(
    status: string, labelId: string, sku: string, internalCode: string, quantity: Option<int>)
  datatype PositionBranch = PositionBranch(
    status: string, positionId: string, pallet: string, side: string, normalizedPayload: string)
  datatype Snapshot = Snapshot(item: Option<ItemBranch>, position: Option<PositionBranch>)

  datatype Semantics = Semantics(
    classification: string,
    selectionMode: string,
    rawPayload: string,
    exportLine: string,
    snapshot: Option<Snapshot>)

  datatype Recognition = Recognition(selectionMode: string, item: Option<ItemBranch>, position: Option<PositionBranch>)
  datatype Decision = Decision(accepted: bool, classification: string, recognition: Option<Recognition>)

  datatype Product = Product(labelId: string, internalCode: string, quantity: Option<int>)
  datatype Position = Position(code: string, labelId: string, payload: string)

  const NOWHERE := Position("", "", "")

  function Or(a: string, b: string): string {
    if a != "" then a else b
  }

  predicate StartsWith(s: string, prefix: string) {
    |prefix| <= |s| && s[..|prefix|] == prefix
  }

  const POSITION_PREFIX := "POSITION|"

  // ----- making semantics -----

  function BuildScanSemantics(raw: string, d: Decision, exportLine: string): Option<Semantics> {
    if !d.accepted || d.recognition.None? then None
    else
      var r := d.recognition.value;
      if d.classification == "RAW" && r.selectionMode == "ALL" then
        Some(Semantics(d.classification, r.selectionMode, raw, exportLine, None))
      else
        var item :=
          if d.classification == "ITEM" && r.item.Some? && r.item.value.status == "VALID"
          then Some(r.item.value.(sku := Or(r.item.value.sku, r.item.value.internalCode), internalCode := ""))
          else None;
        var position :=
          if d.classification == "POSITION" && r.position.Some? && r.position.value.status == "VALID"
          then r.position
          else None;
        Some(Semantics(d.classification, r.selectionMode, raw, exportLine,
          if item.None? && position.None? then None else Some(Snapshot(item, position))))
  }

  function Legacy(line: string): Semantics {
    Semantics(if StartsWith(line, POSITION_PREFIX) then "POSITION" else "ITEM", "LEGACY", line, line, None)
  }

  // ----- reading snapshots -----

  function ProductsFromSnapshot(snapshot: Option<Snapshot>): (r: seq<Product>)
    ensures |r| <= 1
    ensures forall p :: p in r ==> p.labelId != "" && Trimmed(p.labelId)
  {
    if snapshot.None? || snapshot.value.item.None? || snapshot.value.item.value.status != "VALID" then []
    else
      var item := snapshot.value.item.value;
      var tag, sku := Strip(item.labelId), Strip(Or(item.sku, item.internalCode));
      if tag == "" && sku == "" then [] else [Product(Or(tag, sku), sku, item.quantity)]
  }

  function PositionFromSnapshot(snapshot: Option<Snapshot>, rawPayload: string): Option<Position> {
    if snapshot.None? || snapshot.value.position.None? || snapshot.value.position.value.status != "VALID" then None
    else
      var p := snapshot.value.position.value;
      var id, normalized := Strip(p.positionId), Strip(p.normalizedPayload);
      if id == "" then None
      else Some(Position(Or(normalized, id), id, Or(Strip(rawPayload), Or(normalized, id))))
  }

  /** A valid position is only remembered for a scan classified as one. */
  predicate WellMade(s: Semantics) {
    PositionFromSnapshot(s.snapshot, s.rawPayload).Some? ==> s.classification == "POSITION"
  }

  lemma BuiltIsWellMade(raw: string, d: Decision, exportLine: string)
    requires BuildScanSemantics(raw, d, exportLine).Some?
    ensures WellMade(BuildScanSemantics(raw, d, exportLine).value)
  {
  }

  lemma LegacyIsWellMade(line: string)
    ensures WellMade(Legacy(line))
  {
  }

  /** What the snapshot keeps of an item is what the scan recognised, under either name of its code. */
  lemma BuiltKeepsItem(raw: string, d: Decision, exportLine: string)
    requires BuildScanSemantics(raw, d, exportLine).Some? && d.classification == "ITEM"
    ensures ProductsFromSnapshot(BuildScanSemantics(raw, d, exportLine).value.snapshot)
      == ProductsFromSnapshot(Some(Snapshot(d.recognition.value.item, None)))
  {
    hide Strip;
  }

  /** So is a position, with whatever the scan carried. */
  lemma BuiltKeepsPosition(raw: string, d: Decision, exportLine: string)
    requires BuildScanSemantics(raw, d, exportLine).Some? && d.classification == "POSITION"
    ensures var s := BuildScanSemantics(raw, d, exportLine).value;
      && s.classification == "POSITION" && s.exportLine == exportLine && s.rawPayload == raw
      && PositionFromSnapshot(s.snapshot, raw) == PositionFromSnapshot(Some(Snapshot(None, d.recognition.value.position)), raw)
      && ProductsFromSnapshot(s.snapshot) == []
  {
    hide Strip;
  }

  /** A scan is remembered exactly when it was accepted by a recognition; a RAW one of mode ALL without any
      branches. */
  lemma BuiltIff(raw: string, d: Decision, exportLine: string)
    ensures BuildScanSemantics(raw, d, exportLine).Some? <==> d.accepted && d.recognition.Some?
    ensures d.accepted && d.recognition.Some? ==>
      var s := BuildScanSemantics(raw, d, exportLine).value;
      && s == Semantics(d.classification, d.recognition.value.selectionMode, raw, exportLine, s.snapshot)
      && (d.classification != "ITEM" && d.classification != "POSITION" ==> s.snapshot.None?)
  {
  }

  /** What a valid position says: its own payload where it has one, and the scanned text before that. */
  lemma PositionIs(p: PositionBranch, rawPayload: string)
    requires p.status == "VALID" && Strip(p.positionId) != ""
    ensures var position := PositionFromSnapshot(Some(Snapshot(None, Some(p))), rawPayload);
      && position.Some? && position.value.labelId == Strip(p.positionId)
      && position.value.code == (if Strip(p.normalizedPayload) != "" then Strip(p.normalizedPayload) else Strip(p.positionId))
      && position.value.payload == (if Strip(rawPayload) != "" then Strip(rawPayload) else position.value.code)
  {
  }

  /** What a valid item says: its code is the SKU, or the internal code where there is none; its label is its own, or
      that code; with neither it is no product. */
  lemma ProductIs(item: ItemBranch, position: Option<PositionBranch>)
    requires item.status == "VALID"
    ensures var code := Strip(if item.sku != "" then item.sku else item.internalCode);
      ProductsFromSnapshot(Some(Snapshot(Some(item), position)))
      == if Strip(item.labelId) == "" && code == "" then []
         else [Product(if Strip(item.labelId) != "" then Strip(item.labelId) else code, code, item.quantity)]
  {
  }
}
