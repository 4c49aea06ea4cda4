/** Exporting a session package and uploading it through preview and confirm
    (raspberry-scanner/session_package_upload.py, package_upload_store.py). What an operation does to
    the world is a list of effects; a crash, or an exception the code does not catch, leaves any
    prefix of it. */
module PackageUpload {
  import opened EffectLists
  import opened Options
  import opened Text

  datatype UploadState = EXPORTED | PREVIEWED | CONFIRMED | FAILED

  datatype Record = Record(
    sessionId: string,
    exportId: string,
    inventoryId: string,
    aisleId: string,
    zipPath: string,
    state: UploadState,
    packageId: Option<string>,
    error: Option<string>,
    previewedAt: Option<string>,
    confirmedAt: Option<string>,
    exportedAt: Option<string>,
    csvChecksum: Option<string>,
    packageChecksum: Option<string>)

  /** What the backend client gives back. */
  datatype Answer =
    | Response(packageId: string, exportId: string, inventoryId: string, status: string, duplicate: bool)
    | ClientError(code: string, message: string)

  /** The client refuses a response that lacks an id. */
  predicate ClientReturns(a: Answer) {
    a.Response? ==> a.packageId != "" && a.exportId != "" && a.inventoryId != ""
  }

  datatype Effect =
    | Saved(record: Record)
    | PreviewSent(inventoryId: string, zipPath: string)
    | PreviewAnswered(answer: Answer)
    | ConfirmSent(inventoryId: string, exportId: string)
    | ConfirmAnswered(answer: Answer)

  /** The durable binding of a capture session; empty strings when it has none. */
  datatype Binding = Binding(inventoryId: string, aisleId: string)

  datatype State = State(files: map<string, Record>, trace: seq<Effect>)

  const READY := "PREVIEWED"
  const SUCCESS := "CONFIRMED"

  /** Python's truth of an optional string. */
  predicate Truthy(o: Option<string>) {
    o.Some? && o.value != ""
  }

  function OrElse(o: Option<string>, otherwise: string): string {
    if Truthy(o) then o.value else otherwise
  }

  /** The name a session's record is stored under. */
  function SafeName(sessionId: string): string {
    seq(|sessionId|, i requires 0 <= i < |sessionId| => if sessionId[i] == '/' then '_' else sessionId[i])
  }

  function Apply(s: State, e: Effect): State {
    var files := if e.Saved? then s.files[SafeName(e.record.sessionId) := e.record] else s.files;
    State(files, s.trace + [e])
  }

  function Load(files: map<string, Record>, sessionId: string): Option<Record> {
    if SafeName(sessionId) in files then Some(files[SafeName(sessionId)]) else None
  }

  // ----- export -----

  datatype Context = Context(inventoryId: string, aisleId: string, outputDirectory: string, aisleCode: string)

  datatype ExportResult = ExportResult(
    exportId: string, exportedAt: string, zipPath: string, csvChecksum: string, packageChecksum: string)

  /** What building the package comes to: the code of the check of the session's photos, assets or rows
      that fails, or the two checksums and whether the ZIP could be put in place. */
  datatype Build = NotBuilt(code: string) | Built(csvChecksum: string, packageChecksum: string, published: bool)

  /** What an export meets: is the recorded ZIP there, the build, a fresh id and the clock. */
  datatype ExportWorld = ExportWorld(zipPresent: bool, build: Build, freshId: string, now: string)

  function ZipPath(context: Context, exportId: string): string {
    context.outputDirectory + "/" + context.aisleCode + "_" + exportId + ".zip"
  }

  /** `_validate_ids` and `_validate_session_export_context`. */
  function ContextError(binding: Binding, context: Context): Option<string> {
    if Strip(context.inventoryId) == "" then Some("EXPORT_INVENTORY_ID_REQUIRED")
    else if Strip(context.aisleId) == "" then Some("EXPORT_AISLE_ID_REQUIRED")
    else if binding.inventoryId == "" || binding.aisleId == "" then Some("EXPORT_SESSION_INVENTORY_CONTEXT_MISSING")
    else if binding.inventoryId != context.inventoryId then Some("EXPORT_SESSION_INVENTORY_MISMATCH")
    else if binding.aisleId != context.aisleId then Some("EXPORT_SESSION_AISLE_MISMATCH")
    else None
  }

  /** `export_finished_session_package`, given the identity to reproduce. */
  function ExportPackage(binding: Binding, context: Context, w: ExportWorld,
                         exportId: Option<string>, exportedAt: Option<string>,
                         expectedCsv: Option<string>, expectedPackage: Option<string>): Result<ExportResult>
  {
    if ContextError(binding, context).Some? then Err(ContextError(binding, context).value)
    else
      match w.build
      case NotBuilt(code) => Err(code)
      case Built(csv, package, published) =>
        if Truthy(expectedCsv) && csv != expectedCsv.value then Err("EXPORT_IDENTITY_CSV_MISMATCH")
        else if Truthy(expectedPackage) && package != expectedPackage.value then Err("EXPORT_IDENTITY_PACKAGE_MISMATCH")
        else if !published then Err("EXPORT_NOT_PUBLISHED")
        else
          var id := OrElse(exportId, w.freshId);
          Ok(ExportResult(id, OrElse(exportedAt, w.now), ZipPath(context, id), csv, package))
  }

  /** `_persist_export_record`, both branches. */
  function PersistedRecord(sessionId: string, context: Context, result: ExportResult, previous: Option<Record>): Record {
    var preserved := previous.Some? && (previous.value.state == CONFIRMED || previous.value.state == PREVIEWED);
    Record(
      sessionId, result.exportId, context.inventoryId, context.aisleId, result.zipPath,
      if preserved then previous.value.state else EXPORTED,
      if preserved then previous.value.packageId else None,
      None,
      if preserved then previous.value.previewedAt else None,
      if preserved then previous.value.confirmedAt else None,
      Some(result.exportedAt), Some(result.csvChecksum), Some(result.packageChecksum))
  }

  datatype ExportOutcome = ExportOutcome(exportId: string, zipPath: string, reused: bool, state: UploadState)

  function Export(files: map<string, Record>, sessionId: string, binding: Binding, context: Context, w: ExportWorld)
    : (seq<Effect>, Result<ExportOutcome>)
  {
    var previous := Load(files, sessionId);
    if previous.Some? && w.zipPresent then
      ([], Ok(ExportOutcome(previous.value.exportId, previous.value.zipPath, true, previous.value.state)))
    else if previous.Some? && (previous.value.state == PREVIEWED || previous.value.state == CONFIRMED) then
      ([], Err("EXPORT_RECOVERY_LOCKED"))
    else
      var built :=
        if previous.Some? then
          var r := previous.value;
          ExportPackage(binding, context, w, Some(r.exportId), r.exportedAt, r.csvChecksum, r.packageChecksum)
        else ExportPackage(binding, context, w, None, None, None, None);
      match built
      case Err(code) => ([], Err(code))
      case Ok(result) =>
        ([Saved(PersistedRecord(sessionId, context, result, previous))],
         Ok(ExportOutcome(result.exportId, result.zipPath, false, EXPORTED)))
  }

  // ----- upload -----

  datatype UploadWorld = UploadWorld(
    zipPresent: bool, preview: Answer, confirm: Answer, previewTime: string, confirmTime: string)

  datatype UploadOutcome = UploadOutcome(
    exportId: string, packageId: string, inventoryId: string, previewSkipped: bool, duplicate: bool)

  /** `_validate_preview_response` and `_validate_confirm_response`: the code of the first check that
      fails. */
  function Refusal(a: Answer, exportId: string, inventoryId: string, status: string,
                   codes: (string, string, string)): Option<string>
  {
    match a
    case ClientError(code, _) => Some(code)
    case Response(_, x, inv, st, _) =>
      if inv != inventoryId then Some(codes.0)
      else if x != exportId then Some(codes.1)
      else if st != status then Some(codes.2)
      else None
  }

  const PREVIEW_CODES := ("PREVIEW_INVENTORY_MISMATCH", "PREVIEW_EXPORT_ID_MISMATCH", "PREVIEW_NOT_READY")
  const CONFIRM_CODES := ("CONFIRM_INVENTORY_MISMATCH", "CONFIRM_EXPORT_ID_MISMATCH", "CONFIRM_NOT_COMPLETE")

  function MarkPreviewed(r: Record, packageId: string, now: string): Record {
    r.(state := PREVIEWED, packageId := Some(packageId), error := None, previewedAt := Some(now))
  }

  function MarkConfirmed(r: Record, packageId: string, now: string): Record {
    r.(state := CONFIRMED, packageId := Some(packageId), error := None,
       previewedAt := Some(OrElse(r.previewedAt, now)), confirmedAt := Some(now))
  }

  function MarkFailed(r: Record, code: string): Record {
    r.(state := FAILED, error := Some(code))
  }

  /** `_mark_failed`: what it writes, given the record then stored, if any. */
  function FailureEffects(stored: Option<Record>, r: Record, code: string): seq<Effect> {
    if stored.Some? && stored.value.state == CONFIRMED then [] else [Saved(MarkFailed(r, code))]
  }

  /** From the confirm request on. */
  function ConfirmPart(stored: Record, r: Record, w: UploadWorld, skipped: bool): (seq<Effect>, Result<UploadOutcome>) {
    var asked := [ConfirmSent(r.inventoryId, r.exportId), ConfirmAnswered(w.confirm)];
    var refusal := Refusal(w.confirm, r.exportId, r.inventoryId, SUCCESS, CONFIRM_CODES);
    if refusal.Some? then
      (asked + FailureEffects(Some(stored), r, refusal.value), Err(refusal.value))
    else
      (asked + [Saved(MarkConfirmed(r, w.confirm.packageId, w.confirmTime))],
       Ok(UploadOutcome(r.exportId, w.confirm.packageId, r.inventoryId, skipped, w.confirm.duplicate)))
  }

  /** The preview, and the confirm if it is answered well. */
  function PreviewPart(r: Record, w: UploadWorld): (seq<Effect>, Result<UploadOutcome>) {
    var asked := [PreviewSent(r.inventoryId, r.zipPath), PreviewAnswered(w.preview)];
    var refusal := Refusal(w.preview, r.exportId, r.inventoryId, READY, PREVIEW_CODES);
    if refusal.Some? then
      (asked + FailureEffects(Some(r), r, refusal.value), Err(refusal.value))
    else
      var previewed := MarkPreviewed(r, w.preview.packageId, w.previewTime);
      var rest := ConfirmPart(previewed, previewed, w, false);
      (asked + [Saved(previewed)] + rest.0, rest.1)
  }

  function Upload(files: map<string, Record>, sessionId: string, inventoryId: string, w: UploadWorld)
    : (seq<Effect>, Result<UploadOutcome>)
  {
    var loaded := Load(files, sessionId);
    if loaded.None? then ([], Err("PACKAGE_NOT_EXPORTED"))
    else
      var r := loaded.value;
      if r.inventoryId != inventoryId then ([], Err("INVENTORY_ID_MISMATCH"))
      else if r.state == CONFIRMED && Truthy(r.packageId) then
        ([], Ok(UploadOutcome(r.exportId, r.packageId.value, r.inventoryId, true, true)))
      else if !w.zipPresent then ([], Err("PACKAGE_ZIP_MISSING"))
      else if r.state == PREVIEWED then ConfirmPart(r, r, w, true)
      else PreviewPart(r, w)
  }

  // ----- runs -----

  datatype Op =
    | DoExport(sessionId: string, context: Context, ew: ExportWorld)
    | DoUpload(sessionId: string, inventoryId: string, uw: UploadWorld)

  /** What the environment guarantees: fresh ids and checksums are not empty, the client's answers
      carry ids. */
  predicate Possible(op: Op) {
    match op
    case DoExport(_, _, w) =>
      && w.freshId != "" && w.now != ""
      && (w.build.Built? ==> w.build.csvChecksum != "" && w.build.packageChecksum != "")
    case DoUpload(_, _, w) => ClientReturns(w.preview) && ClientReturns(w.confirm)
  }

  /** The bindings of the sessions, by the name their records are stored under. */
  type Bindings = string -> Binding

  function Effects(bound: Bindings, s: State, op: Op): seq<Effect> {
    match op
    case DoExport(id, context, w) => Export(s.files, id, bound(SafeName(id)), context, w).0
    case DoUpload(id, inventoryId, w) => Upload(s.files, id, inventoryId, w).0
  }

  /** An operation of which only the first `kept` effects happen. */
  datatype Attempt = Attempt(op: Op, kept: nat)

  function Happened(bound: Bindings, s: State, a: Attempt): seq<Effect> {
    var es := Effects(bound, s, a.op);
    if a.kept < |es| then es[..a.kept] else es
  }

  function Step(bound: Bindings, s: State, a: Attempt): State {
    ApplyAll(Apply, s, Happened(bound, s, a))
  }

  function Run(bound: Bindings, s: State, attempts: seq<Attempt>): State
    decreases |attempts|
  {
    if attempts == [] then s else Run(bound, Step(bound, s, attempts[0]), attempts[1..])
  }

  const BLANK := State(map[], [])

  // ----- what every run keeps -----

  predicate IsReadyFor(e: Effect, inventoryId: string, exportId: string, status: string) {
    match e
    case PreviewAnswered(Response(_, x, inv, st, _)) =>
      status == READY && x == exportId && inv == inventoryId && st == READY
    case ConfirmAnswered(Response(_, x, inv, st, _)) =>
      status == SUCCESS && x == exportId && inv == inventoryId && st == SUCCESS
    case _ => false
  }

  /** The backend has answered READY (to a preview) or SUCCESS (to a confirm) for this export. */
  ghost predicate Answered(trace: seq<Effect>, inventoryId: string, exportId: string, status: string) {
    exists i :: 0 <= i < |trace| && IsReadyFor(trace[i], inventoryId, exportId, status)
  }

  ghost predicate RecordOk(bound: Bindings, name: string, r: Record, trace: seq<Effect>) {
    && SafeName(r.sessionId) == name
    && r.exportId != "" && Truthy(r.exportedAt) && Truthy(r.csvChecksum) && Truthy(r.packageChecksum)
    && Binding(r.inventoryId, r.aisleId) == bound(name)
    && (r.state == PREVIEWED ==> Answered(trace, r.inventoryId, r.exportId, READY))
    && (r.state == CONFIRMED ==> Truthy(r.packageId) && Answered(trace, r.inventoryId, r.exportId, SUCCESS))
  }

  ghost predicate ConfirmsJustified(trace: seq<Effect>) {
    forall i :: 0 <= i < |trace| && trace[i].ConfirmSent? ==>
      Answered(trace[..i], trace[i].inventoryId, trace[i].exportId, READY)
  }

  ghost predicate Inv(bound: Bindings, s: State) {
    && (forall name :: name in s.files ==> RecordOk(bound, name, s.files[name], s.trace))
    && ConfirmsJustified(s.trace)
  }

  predicate SameIdentity(r: Record, r': Record) {
    && r.exportId == r'.exportId && r.exportedAt == r'.exportedAt
    && r.csvChecksum == r'.csvChecksum && r.packageChecksum == r'.packageChecksum
    && r.inventoryId == r'.inventoryId && r.aisleId == r'.aisleId
  }

  predicate Follows(r: Record, r': Record) {
    SameIdentity(r, r') && (r.state == CONFIRMED ==> r' == r)
  }

  predicate NoneLost(s: State, s': State) {
    && (forall name :: name in s.files ==> name in s'.files && Follows(s.files[name], s'.files[name]))
    && s.trace <= s'.trace
  }

  /** An effect that is in order here. */
  ghost predicate InOrder(bound: Bindings, s: State, e: Effect) {
    match e
    case Saved(r) =>
      var name := SafeName(r.sessionId);
      RecordOk(bound, name, r, s.trace) && (name in s.files ==> Follows(s.files[name], r))
    case ConfirmSent(inv, x) => Answered(s.trace, inv, x, READY)
    case _ => true
  }

  ghost predicate AllInOrder(bound: Bindings, s: State, es: seq<Effect>)
    decreases |es|
  {
    es == [] || (InOrder(bound, s, es[0]) && AllInOrder(bound, Apply(s, es[0]), es[1..]))
  }

  lemma AnsweredStays(trace: seq<Effect>, more: seq<Effect>, inventoryId: string, exportId: string, status: string)
    requires Answered(trace, inventoryId, exportId, status)
    ensures Answered(trace + more, inventoryId, exportId, status)
  {
    hide IsReadyFor;
    var i :| 0 <= i < |trace| && IsReadyFor(trace[i], inventoryId, exportId, status);
    assert (trace + more)[i] == trace[i];
  }

  lemma RecordStaysOk(bound: Bindings, name: string, r: Record, trace: seq<Effect>, more: seq<Effect>)
    requires RecordOk(bound, name, r, trace)
    ensures RecordOk(bound, name, r, trace + more)
  {
    hide Answered, SafeName;
    if r.state == PREVIEWED { AnsweredStays(trace, more, r.inventoryId, r.exportId, READY); }
    if r.state == CONFIRMED { AnsweredStays(trace, more, r.inventoryId, r.exportId, SUCCESS); }
  }

  lemma ApplyKeeps(bound: Bindings, s: State, e: Effect)
    requires Inv(bound, s) && InOrder(bound, s, e)
    ensures Inv(bound, Apply(s, e)) && NoneLost(s, Apply(s, e))
  {
    hide Answered, RecordOk, SafeName;
    var after := Apply(s, e);
    forall name | name in after.files ensures RecordOk(bound, name, after.files[name], after.trace) {
      RecordStaysOk(bound, name, after.files[name], s.trace, [e]);
    }
    forall i | 0 <= i < |after.trace| && after.trace[i].ConfirmSent?
      ensures Answered(after.trace[..i], after.trace[i].inventoryId, after.trace[i].exportId, READY)
    {
      assert after.trace[..i] == s.trace[..i];
      if i == |s.trace| { assert s.trace[..i] == s.trace; }
    }
  }

  lemma NoneLostTransitive(s: State, t: State, u: State)
    requires NoneLost(s, t) && NoneLost(t, u)
    ensures NoneLost(s, u)
  {
  }

  lemma {:induction false} AllInOrderKeeps(bound: Bindings, s: State, es: seq<Effect>)
    requires Inv(bound, s) && AllInOrder(bound, s, es)
    ensures Inv(bound, ApplyAll(Apply, s, es)) && NoneLost(s, ApplyAll(Apply, s, es))
    decreases |es|
  {
    hide Inv, NoneLost, InOrder, Apply;
    if es == [] {
      NothingLost(s);
    } else {
      ApplyKeeps(bound, s, es[0]);
      AllInOrderKeeps(bound, Apply(s, es[0]), es[1..]);
      NoneLostTransitive(s, Apply(s, es[0]), ApplyAll(Apply, s, es));
    }
  }

  lemma NothingLost(s: State)
    ensures NoneLost(s, s)
  {
  }

  lemma {:induction false} PrefixInOrder(bound: Bindings, s: State, es: seq<Effect>, n: nat)
    requires AllInOrder(bound, s, es) && n <= |es|
    ensures AllInOrder(bound, s, es[..n])
    decreases n
  {
    hide InOrder, Apply;
    if n > 0 {
      assert es[..n][1..] == es[1..][..n - 1];
      PrefixInOrder(bound, Apply(s, es[0]), es[1..], n - 1);
    }
  }

  lemma {:induction false} InOrderConcat(bound: Bindings, s: State, es: seq<Effect>, fs: seq<Effect>)
    requires AllInOrder(bound, s, es) && AllInOrder(bound, ApplyAll(Apply, s, es), fs)
    ensures AllInOrder(bound, s, es + fs)
    decreases |es|
  {
    hide InOrder, Apply;
    if es == [] {
      assert es + fs == fs;
    } else {
      assert (es + fs)[1..] == es[1..] + fs;
      InOrderConcat(bound, Apply(s, es[0]), es[1..], fs);
    }
  }

  /** An export, if it writes anything, writes one EXPORTED record with no package id: the branch of
      `_persist_export_record` that preserves PREVIEWED and CONFIRMED is never taken. */
  lemma PreservingBranchIsUnreachable(files: map<string, Record>, id: string, binding: Binding, context: Context,
                                      w: ExportWorld)
    ensures var (es, result) := Export(files, id, binding, context, w);
      || es == []
      || (|es| == 1 && es[0].Saved? && es[0].record.state == EXPORTED && es[0].record.packageId == None
          && (Load(files, id).Some? ==> Load(files, id).value.state == EXPORTED || Load(files, id).value.state == FAILED))
  {
  }

  lemma ExportInOrder(bound: Bindings, s: State, id: string, context: Context, w: ExportWorld)
    requires Inv(bound, s) && Possible(DoExport(id, context, w))
    ensures AllInOrder(bound, s, Export(s.files, id, bound(SafeName(id)), context, w).0)
  {
    hide SafeName, Answered, ConfirmsJustified;
    var (es, _) := Export(s.files, id, bound(SafeName(id)), context, w);
    if es != [] {
      assert InOrder(bound, s, es[0]);
      assert es[1..] == [];
    }
  }

  /** The two requests leave the stored records alone. */
  lemma AskedInOrder(bound: Bindings, s: State, a: Effect, b: Effect)
    requires Inv(bound, s) && InOrder(bound, s, a) && !a.Saved?
    requires b.PreviewAnswered? || b.ConfirmAnswered?
    ensures AllInOrder(bound, s, [a, b])
    ensures ApplyAll(Apply, s, [a, b]) == State(s.files, s.trace + [a, b])
    ensures Inv(bound, State(s.files, s.trace + [a, b]))
  {
    hide SafeName, Answered, ConfirmsJustified, RecordOk, NoneLost, Inv;
    var next := Apply(s, a);
    assert [a, b][1..] == [b] && [b][1..] == [];
    assert AllInOrder(bound, Apply(next, b), []);
    assert AllInOrder(bound, next, [b]);
    assert Apply(next, b) == State(s.files, s.trace + [a, b]);
    assert ApplyAll(Apply, next, [b]) == Apply(next, b);
    ApplyKeeps(bound, s, a);
    ApplyKeeps(bound, next, b);
  }

  lemma SavedInOrder(bound: Bindings, s: State, r: Record)
    requires InOrder(bound, s, Saved(r))
    ensures AllInOrder(bound, s, [Saved(r)])
  {
    assert [Saved(r)][1..] == [];
  }

  ghost predicate Stores(s: State, r: Record) {
    SafeName(r.sessionId) in s.files && s.files[SafeName(r.sessionId)] == r
  }

  /** Failing a record that is not confirmed is always in order. */
  lemma FailureInOrder(bound: Bindings, s: State, r: Record, code: string)
    requires Inv(bound, s) && Stores(s, r)
    ensures AllInOrder(bound, s, FailureEffects(Some(r), r, code))
  {
    hide SafeName, Answered, ConfirmsJustified;
    if r.state != CONFIRMED {
      assert RecordOk(bound, SafeName(r.sessionId), r, s.trace);
      SavedInOrder(bound, s, MarkFailed(r, code));
    }
  }

  lemma ConfirmInOrder(bound: Bindings, s: State, r: Record, w: UploadWorld, skipped: bool)
    requires Inv(bound, s) && Stores(s, r) && r.state == PREVIEWED && ClientReturns(w.confirm)
    ensures AllInOrder(bound, s, ConfirmPart(r, r, w, skipped).0)
  {
    hide SafeName, ConfirmsJustified, Answered, MarkFailed, FailureEffects, AllInOrder, ApplyAll;
    var a, b := ConfirmSent(r.inventoryId, r.exportId), ConfirmAnswered(w.confirm);
    assert RecordOk(bound, SafeName(r.sessionId), r, s.trace);
    AskedInOrder(bound, s, a, b);
    var asked := State(s.files, s.trace + [a, b]);
    var refusal := Refusal(w.confirm, r.exportId, r.inventoryId, SUCCESS, CONFIRM_CODES);
    if refusal.Some? {
      FailureInOrder(bound, asked, r, refusal.value);
      InOrderConcat(bound, s, [a, b], FailureEffects(Some(r), r, refusal.value));
    } else {
      var confirmed := MarkConfirmed(r, w.confirm.packageId, w.confirmTime);
      LastAnswers(s.trace + [a], b, r.inventoryId, r.exportId, SUCCESS);
      assert s.trace + [a] + [b] == asked.trace;
      assert RecordOk(bound, SafeName(r.sessionId), r, asked.trace);
      SavedInOrder(bound, asked, confirmed);
      InOrderConcat(bound, s, [a, b], [Saved(confirmed)]);
    }
  }

  lemma LastAnswers(trace: seq<Effect>, e: Effect, inventoryId: string, exportId: string, status: string)
    requires IsReadyFor(e, inventoryId, exportId, status)
    ensures Answered(trace + [e], inventoryId, exportId, status)
  {
    assert (trace + [e])[|trace|] == e;
  }

  lemma PreviewInOrder(bound: Bindings, s: State, r: Record, w: UploadWorld)
    requires Inv(bound, s) && Stores(s, r) && r.state != PREVIEWED && r.state != CONFIRMED
    requires ClientReturns(w.preview) && ClientReturns(w.confirm)
    ensures AllInOrder(bound, s, PreviewPart(r, w).0)
  {
    hide SafeName, ConfirmsJustified, Answered, MarkFailed, FailureEffects, AllInOrder, ApplyAll, ConfirmPart;
    var a, b := PreviewSent(r.inventoryId, r.zipPath), PreviewAnswered(w.preview);
    assert RecordOk(bound, SafeName(r.sessionId), r, s.trace);
    AskedInOrder(bound, s, a, b);
    var asked := State(s.files, s.trace + [a, b]);
    var refusal := Refusal(w.preview, r.exportId, r.inventoryId, READY, PREVIEW_CODES);
    if refusal.Some? {
      FailureInOrder(bound, asked, r, refusal.value);
      InOrderConcat(bound, s, [a, b], FailureEffects(Some(r), r, refusal.value));
    } else {
      var previewed := MarkPreviewed(r, w.preview.packageId, w.previewTime);
      LastAnswers(s.trace + [a], b, r.inventoryId, r.exportId, READY);
      assert s.trace + [a] + [b] == asked.trace;
      assert RecordOk(bound, SafeName(r.sessionId), r, asked.trace);
      SavedThen(bound, asked, previewed, ConfirmPart(previewed, previewed, w, false).0, w);
      InOrderConcat(bound, s, [a, b], [Saved(previewed)] + ConfirmPart(previewed, previewed, w, false).0);
      assert [a, b] + ([Saved(previewed)] + ConfirmPart(previewed, previewed, w, false).0)
          == [a, b] + [Saved(previewed)] + ConfirmPart(previewed, previewed, w, false).0;
    }
  }

  lemma SavedThen(bound: Bindings, s: State, r: Record, rest: seq<Effect>, w: UploadWorld)
    requires Inv(bound, s) && InOrder(bound, s, Saved(r)) && r.state == PREVIEWED
    requires rest == ConfirmPart(r, r, w, false).0 && ClientReturns(w.confirm)
    ensures AllInOrder(bound, s, [Saved(r)] + rest)
  {
    hide SafeName, Inv, ConfirmPart, InOrder;
    ApplyKeeps(bound, s, Saved(r));
    ConfirmInOrder(bound, Apply(s, Saved(r)), r, w, false);
    assert ([Saved(r)] + rest)[1..] == rest;
  }

  lemma UploadInOrder(bound: Bindings, s: State, id: string, inventoryId: string, w: UploadWorld)
    requires Inv(bound, s) && Possible(DoUpload(id, inventoryId, w))
    ensures AllInOrder(bound, s, Upload(s.files, id, inventoryId, w).0)
  {
    hide SafeName, ConfirmsJustified, Answered, ConfirmPart, PreviewPart;
    var (es, _) := Upload(s.files, id, inventoryId, w);
    if es != [] {
      var r := s.files[SafeName(id)];
      assert RecordOk(bound, SafeName(id), r, s.trace);
      if r.state == PREVIEWED {
        ConfirmInOrder(bound, s, r, w, true);
      } else {
        PreviewInOrder(bound, s, r, w);
      }
    }
  }

  lemma StepKeeps(bound: Bindings, s: State, a: Attempt)
    requires Inv(bound, s) && Possible(a.op)
    ensures Inv(bound, Step(bound, s, a)) && NoneLost(s, Step(bound, s, a))
  {
    hide Inv, NoneLost, AllInOrder, Export, Upload, ApplyAll;
    match a.op {
      case DoExport(id, context, w) => ExportInOrder(bound, s, id, context, w);
      case DoUpload(id, inventoryId, w) => UploadInOrder(bound, s, id, inventoryId, w);
    }
    var es := Effects(bound, s, a.op);
    if a.kept < |es| { PrefixInOrder(bound, s, es, a.kept); }
    AllInOrderKeeps(bound, s, Happened(bound, s, a));
  }

  predicate AllPossible(attempts: seq<Attempt>) {
    forall i :: 0 <= i < |attempts| ==> Possible(attempts[i].op)
  }

  lemma {:induction false} RunKeeps(bound: Bindings, s: State, attempts: seq<Attempt>)
    requires Inv(bound, s) && AllPossible(attempts)
    ensures Inv(bound, Run(bound, s, attempts)) && NoneLost(s, Run(bound, s, attempts))
    decreases |attempts|
  {
    hide Inv, NoneLost, Step;
    if attempts == [] {
      NothingLost(s);
    } else {
      StepKeeps(bound, s, attempts[0]);
      RunKeeps(bound, Step(bound, s, attempts[0]), attempts[1..]);
      NoneLostTransitive(s, Step(bound, s, attempts[0]), Run(bound, s, attempts));
    }
  }

  lemma BlankInv(bound: Bindings)
    ensures Inv(bound, BLANK)
  {
  }

  /** Once a session's record exists, its export id, export time, both checksums and its inventory and
      aisle never change again, whatever is retried, refused or cut short. */
  lemma IdentityIsFrozen(bound: Bindings, earlier: seq<Attempt>, later: seq<Attempt>, name: string)
    requires AllPossible(earlier) && AllPossible(later)
    requires name in Run(bound, BLANK, earlier).files
    ensures var s := Run(bound, BLANK, earlier);
      var s' := Run(bound, s, later);
      name in s'.files && SameIdentity(s.files[name], s'.files[name])
  {
    hide Inv, SameIdentity, Run;
    BlankInv(bound);
    RunKeeps(bound, BLANK, earlier);
    RunKeeps(bound, Run(bound, BLANK, earlier), later);
  }

  /** A confirmed record is never touched again. */
  lemma ConfirmedIsNeverLeft(bound: Bindings, earlier: seq<Attempt>, later: seq<Attempt>, name: string)
    requires AllPossible(earlier) && AllPossible(later)
    requires name in Run(bound, BLANK, earlier).files
    requires Run(bound, BLANK, earlier).files[name].state == CONFIRMED
    ensures var s := Run(bound, BLANK, earlier);
      var s' := Run(bound, s, later);
      name in s'.files && s'.files[name] == s.files[name]
  {
    hide Inv, SameIdentity, Run;
    BlankInv(bound);
    RunKeeps(bound, BLANK, earlier);
    RunKeeps(bound, Run(bound, BLANK, earlier), later);
  }

  /** A confirm request is only ever sent after a preview of the same export and inventory was answered
      READY; and a stored CONFIRMED was answered SUCCESS. */
  lemma ConfirmOnlyAfterPreview(bound: Bindings, attempts: seq<Attempt>)
    requires AllPossible(attempts)
    ensures var s := Run(bound, BLANK, attempts);
      && (forall i :: 0 <= i < |s.trace| && s.trace[i].ConfirmSent? ==>
            exists j :: 0 <= j < i && IsReadyFor(s.trace[j], s.trace[i].inventoryId, s.trace[i].exportId, READY))
      && (forall name :: name in s.files && s.files[name].state == CONFIRMED ==>
            Answered(s.trace, s.files[name].inventoryId, s.files[name].exportId, SUCCESS))
  {
    hide Run, IsReadyFor;
    BlankInv(bound);
    RunKeeps(bound, BLANK, attempts);
    var s := Run(bound, BLANK, attempts);
    forall i | 0 <= i < |s.trace| && s.trace[i].ConfirmSent?
      ensures exists j :: 0 <= j < i && IsReadyFor(s.trace[j], s.trace[i].inventoryId, s.trace[i].exportId, READY)
    {
      var before := s.trace[..i];
      assert Answered(before, s.trace[i].inventoryId, s.trace[i].exportId, READY);
      var j :| 0 <= j < |before| && IsReadyFor(before[j], s.trace[i].inventoryId, s.trace[i].exportId, READY);
      assert s.trace[j] == before[j];
    }
  }

  predicate IsConfirmed(s: State, id: string) {
    Load(s.files, id).Some? && Load(s.files, id).value.state == CONFIRMED
  }

  /** What keeps CONFIRMED is the stored package id: with one, no operation does anything to the record;
      without one, an upload can take the record back to PREVIEWED. */
  lemma ConfirmedIsLeftIff(bound: Bindings, s: State, id: string)
    requires SafeName(id) in s.files
    requires var r := s.files[SafeName(id)];
      r.state == CONFIRMED && SafeName(r.sessionId) == SafeName(id) && r.exportId != "" && r.inventoryId != ""
    ensures (exists inventoryId, w, kept ::
        && Possible(DoUpload(id, inventoryId, w))
        && !IsConfirmed(Step(bound, s, Attempt(DoUpload(id, inventoryId, w), kept)), id))
      <==> !Truthy(s.files[SafeName(id)].packageId)
  {
    hide SafeName;
    var r := s.files[SafeName(id)];
    if Truthy(r.packageId) {
      forall inventoryId, w, kept: nat
        ensures Step(bound, s, Attempt(DoUpload(id, inventoryId, w), kept)) == s
      {
        assert Upload(s.files, id, inventoryId, w).0 == [];
      }
    } else {
      var ready := Response("package", r.exportId, r.inventoryId, READY, false);
      var w := UploadWorld(true, ready, ready, "", "");
      LeavesConfirmed(bound, s, id, r, w);
    }
  }

  lemma LeavesConfirmed(bound: Bindings, s: State, id: string, r: Record, w: UploadWorld)
    requires Load(s.files, id) == Some(r) && SafeName(r.sessionId) == SafeName(id)
    requires r.state == CONFIRMED && !Truthy(r.packageId)
    requires w.zipPresent && w.preview == Response("package", r.exportId, r.inventoryId, READY, false)
    ensures !IsConfirmed(Step(bound, s, Attempt(DoUpload(id, r.inventoryId, w), 3)), id)
  {
    hide SafeName, ConfirmPart;
    var es := Upload(s.files, id, r.inventoryId, w).0;
    var previewed := MarkPreviewed(r, "package", w.previewTime);
    var asked := [PreviewSent(r.inventoryId, r.zipPath), PreviewAnswered(w.preview)];
    ConfirmPartLength(previewed, w);
    assert es[..3] == asked + [Saved(previewed)];
    ThreeEffects(s, asked[0], asked[1], Saved(previewed));
    assert asked + [Saved(previewed)] == [asked[0], asked[1], Saved(previewed)];
  }

  lemma ConfirmPartLength(r: Record, w: UploadWorld)
    ensures |ConfirmPart(r, r, w, false).0| >= 2
  {
  }

  lemma ThreeEffects(s: State, a: Effect, b: Effect, c: Effect)
    ensures ApplyAll(Apply, s, [a, b, c]) == Apply(Apply(Apply(s, a), b), c)
  {
    hide Apply;
    assert [a, b, c][1..] == [b, c];
    TwoEffects(Apply, Apply(s, a), b, c);
  }

  lemma {:induction false} LastSaveStays(s: State, es: seq<Effect>, r: Record)
    ensures var s' := ApplyAll(Apply, s, es + [Saved(r)]);
      SafeName(r.sessionId) in s'.files && s'.files[SafeName(r.sessionId)] == r
    decreases |es|
  {
    hide SafeName;
    if es == [] {
      assert [] + [Saved(r)] == [Saved(r)] && [Saved(r)][1..] == [];
    } else {
      assert (es + [Saved(r)])[1..] == es[1..] + [Saved(r)];
      LastSaveStays(Apply(s, es[0]), es[1..], r);
    }
  }

  /** An upload that succeeds leaves the record CONFIRMED with the package it reports, and every later
      upload of that session and inventory reports the same package, as a duplicate, and sends nothing. */
  lemma UploadOnce(s: State, id: string, inventoryId: string, w: UploadWorld, w': UploadWorld)
    requires SafeName(id) in s.files ==> SafeName(s.files[SafeName(id)].sessionId) == SafeName(id)
    requires ClientReturns(w.confirm)
    requires Upload(s.files, id, inventoryId, w).1.Ok?
    ensures var (es, result) := Upload(s.files, id, inventoryId, w);
      var s' := ApplyAll(Apply, s, es);
      && Load(s'.files, id).Some? && Load(s'.files, id).value.state == CONFIRMED
      && Load(s'.files, id).value.packageId == Some(result.value.packageId)
      && Upload(s'.files, id, inventoryId, w')
         == ([], Ok(UploadOutcome(result.value.exportId, result.value.packageId, inventoryId, true, true)))
  {
    hide SafeName;
    var (es, result) := Upload(s.files, id, inventoryId, w);
    var r := s.files[SafeName(id)];
    if es != [] {
      var base := if r.state == PREVIEWED then r else MarkPreviewed(r, w.preview.packageId, w.previewTime);
      var confirmed := MarkConfirmed(base, w.confirm.packageId, w.confirmTime);
      assert es == es[..|es| - 1] + [Saved(confirmed)];
      LastSaveStays(s, es[..|es| - 1], confirmed);
    }
  }

  /** After a preview or confirm, a lost ZIP can no longer be rebuilt; before, a rebuild is refused
      unless it reproduces both recorded checksums. */
  lemma RebuildIff(files: map<string, Record>, id: string, binding: Binding, context: Context, w: ExportWorld)
    requires Load(files, id).Some? && !w.zipPresent
    requires var r := Load(files, id).value; r.exportId != "" && Truthy(r.csvChecksum) && Truthy(r.packageChecksum)
    ensures var r := Load(files, id).value;
      Export(files, id, binding, context, w).1.Ok?
      <==> && (r.state == EXPORTED || r.state == FAILED)
           && ContextError(binding, context).None?
           && w.build == Built(r.csvChecksum.value, r.packageChecksum.value, true)
  {
    hide SafeName, ContextError;
  }

  // ----- when an operation succeeds -----

  /** The backend's answer is about this export and inventory, and says this status. */
  predicate Says(a: Answer, r: Record, status: string) {
    a.Response? && a.exportId == r.exportId && a.inventoryId == r.inventoryId && a.status == status
  }

  /** An upload succeeds exactly on a stored record of that inventory which either is confirmed with its package, or
      has its ZIP in place, a good answer to the preview unless it was previewed before, and a good answer to the
      confirm - a FAILED record like an EXPORTED one. */
  lemma UploadSucceedsIff(files: map<string, Record>, id: string, inventoryId: string, w: UploadWorld)
    ensures Upload(files, id, inventoryId, w).1.Ok?
      <==> && Load(files, id).Some?
           && var r := Load(files, id).value;
              && r.inventoryId == inventoryId
              && (|| (r.state == CONFIRMED && Truthy(r.packageId))
                  || (&& w.zipPresent
                      && (r.state == PREVIEWED || Says(w.preview, r, READY))
                      && Says(w.confirm, r, SUCCESS)))
  {
    hide SafeName;
  }

  /** What a successful upload of an unconfirmed record sends, stores and answers. */
  lemma UploadDoes(files: map<string, Record>, id: string, inventoryId: string, w: UploadWorld)
    requires Upload(files, id, inventoryId, w).1.Ok?
    requires var r := Load(files, id).value; !(r.state == CONFIRMED && Truthy(r.packageId))
    ensures var (es, result) := Upload(files, id, inventoryId, w);
      var r := Load(files, id).value;
      var skipped := r.state == PREVIEWED;
      var previewed := if skipped then r
        else r.(state := PREVIEWED, packageId := Some(w.preview.packageId), error := None, previewedAt := Some(w.previewTime));
      var since := if Truthy(previewed.previewedAt) then previewed.previewedAt else Some(w.confirmTime);
      && es == (if skipped then []
                else [PreviewSent(inventoryId, r.zipPath), PreviewAnswered(w.preview), Saved(previewed)])
               + [ConfirmSent(inventoryId, r.exportId), ConfirmAnswered(w.confirm),
                  Saved(previewed.(state := CONFIRMED, packageId := Some(w.confirm.packageId), error := None,
                                   previewedAt := since, confirmedAt := Some(w.confirmTime)))]
      && result == Ok(UploadOutcome(r.exportId, w.confirm.packageId, inventoryId, skipped, w.confirm.duplicate))
  {
    hide SafeName;
  }

  /** An upload that gets as far as a request and is then refused, or gets an error back, leaves the record FAILED
      with the error it reports - so that a later upload starts with the preview again - and nothing else of it
      changed but what the preview had set. */
  lemma RefusedUploadIsMarked(s: State, id: string, inventoryId: string, w: UploadWorld)
    requires SafeName(id) in s.files && SafeName(s.files[SafeName(id)].sessionId) == SafeName(id)
    requires s.files[SafeName(id)].state != CONFIRMED
    requires s.files[SafeName(id)].inventoryId == inventoryId && w.zipPresent
    requires Upload(s.files, id, inventoryId, w).1.Err?
    ensures var (es, result) := Upload(s.files, id, inventoryId, w);
      var s' := ApplyAll(Apply, s, es);
      && Load(s'.files, id).Some?
      && var r, r' := s.files[SafeName(id)], Load(s'.files, id).value;
         && r'.state == FAILED && r'.error == Some(result.code)
         && r' == r.(state := FAILED, error := Some(result.code), packageId := r'.packageId, previewedAt := r'.previewedAt)
         && (r.state == PREVIEWED || !Says(w.preview, r, READY) ==>
               r'.packageId == r.packageId && r'.previewedAt == r.previewedAt)
  {
    hide SafeName;
    var (es, result) := Upload(s.files, id, inventoryId, w);
    var r := s.files[SafeName(id)];
    var skipped := r.state == PREVIEWED;
    var base := if skipped || !Says(w.preview, r, READY) then r else MarkPreviewed(r, w.preview.packageId, w.previewTime);
    var failed := MarkFailed(base, result.code);
    assert es == es[..|es| - 1] + [Saved(failed)];
    LastSaveStays(s, es[..|es| - 1], failed);
  }

  /** The context of an export is accepted exactly when its inventory and aisle are not blank and are those the
      session is bound to. */
  lemma ContextAcceptedIff(binding: Binding, context: Context)
    ensures ContextError(binding, context).None?
      <==> && Strip(context.inventoryId) != "" && Strip(context.aisleId) != ""
           && binding == Binding(context.inventoryId, context.aisleId)
  {
    assert Strip("") == "";
  }

  /** A first export succeeds exactly when its context is accepted and the package is built and put in place; it
      stores an EXPORTED record of just that, under a fresh id and the present time. While the recorded ZIP is there
      an export only reports it. */
  lemma FirstExport(files: map<string, Record>, id: string, binding: Binding, context: Context, w: ExportWorld)
    requires Load(files, id).None?
    ensures var (es, result) := Export(files, id, binding, context, w);
      && (result.Ok? <==> ContextError(binding, context).None? && w.build.Built? && w.build.published)
      && (result.Ok? ==>
            && result.value == ExportOutcome(w.freshId, ZipPath(context, w.freshId), false, EXPORTED)
            && es == [Saved(Record(
                 id, w.freshId, context.inventoryId, context.aisleId, ZipPath(context, w.freshId), EXPORTED,
                 None, None, None, None, Some(w.now), Some(w.build.csvChecksum), Some(w.build.packageChecksum)))])
      && (result.Err? ==> es == [])
  {
    hide SafeName, ContextError, ZipPath;
  }

  lemma KnownZipPath()
    ensures ZipPath(Context("inv", "aisle", "out", "04"), "x1") == "out/04_x1.zip"
  {
  }

  lemma PresentZipIsReported(files: map<string, Record>, id: string, binding: Binding, context: Context, w: ExportWorld)
    requires Load(files, id).Some? && w.zipPresent
    ensures var r := Load(files, id).value;
      Export(files, id, binding, context, w) == ([], Ok(ExportOutcome(r.exportId, r.zipPath, true, r.state)))
  {
    hide SafeName;
  }

  // ----- the code -----

  /** The store's files, with everything sent and saved so far. */
  class PackageUploadStore {
    var files: map<string, Record>
    ghost var trace: seq<Effect>

    ghost function View(): State
      reads this
    {
      State(files, trace)
    }

    constructor ()
      ensures View() == BLANK
    {
      files, trace := map[], [];
    }

    method LoadRecord(sessionId: string) returns (record: Option<Record>)
      ensures record == Load(files, sessionId)
    {
      var name := SafeName(sessionId);
      record := if name in files then Some(files[name]) else None;
    }

    method Save(record: Record)
      modifies this
      ensures View() == Apply(old(View()), Saved(record))
    {
      files := files[SafeName(record.sessionId) := record];
      trace := trace + [Saved(record)];
    }

    ghost method Happens(e: Effect)
      requires !e.Saved?
      modifies this`trace
      ensures View() == Apply(old(View()), e)
    {
      trace := trace + [e];
    }

    method EnsureSessionPackageExported(sessionId: string, binding: Binding, context: Context, w: ExportWorld)
      returns (result: Result<ExportOutcome>)
      modifies this
      ensures var (es, r) := Export(old(files), sessionId, binding, context, w);
        result == r && View() == ApplyAll(Apply, old(View()), es)
    {
      var record := LoadRecord(sessionId);
      var built;
      if record.Some? {
        var r := record.value;
        if w.zipPresent {
          return Ok(ExportOutcome(r.exportId, r.zipPath, true, r.state));
        }
        if r.state == PREVIEWED || r.state == CONFIRMED {
          return Err("EXPORT_RECOVERY_LOCKED");
        }
        built := ExportPackage(binding, context, w, Some(r.exportId), r.exportedAt, r.csvChecksum, r.packageChecksum);
      } else {
        built := ExportPackage(binding, context, w, None, None, None, None);
      }
      if built.Err? {
        return Err(built.code);
      }
      var updated := PersistedRecord(sessionId, context, built.value, record);
      Save(updated);
      OneEffect(Apply, old(View()), Saved(updated));
      result := Ok(ExportOutcome(built.value.exportId, built.value.zipPath, false, EXPORTED));
    }

    method MarkRecordFailed(r: Record, code: string)
      modifies this
      ensures View() == ApplyAll(Apply, old(View()), FailureEffects(Load(old(files), r.sessionId), r, code))
    {
      var current := LoadRecord(r.sessionId);
      if current.Some? && current.value.state == CONFIRMED {
        return;
      }
      Save(MarkFailed(r, code));
      OneEffect(Apply, old(View()), Saved(MarkFailed(r, code)));
    }

    method Confirm(r: Record, w: UploadWorld, skipped: bool) returns (result: Result<UploadOutcome>)
      requires Stores(View(), r)
      modifies this
      ensures var (es, res) := ConfirmPart(r, r, w, skipped);
        result == res && View() == ApplyAll(Apply, old(View()), es)
    {
      hide SafeName;
      ghost var s := View();
      ghost var asked := [ConfirmSent(r.inventoryId, r.exportId), ConfirmAnswered(w.confirm)];
      Happens(ConfirmSent(r.inventoryId, r.exportId));
      Happens(ConfirmAnswered(w.confirm));
      TwoEffects(Apply, s, asked[0], asked[1]);
      var refusal := Refusal(w.confirm, r.exportId, r.inventoryId, SUCCESS, CONFIRM_CODES);
      if refusal.Some? {
        MarkRecordFailed(r, refusal.value);
        ApplyConcat(Apply, s, asked, FailureEffects(Some(r), r, refusal.value));
        return Err(refusal.value);
      }
      var confirmed := MarkConfirmed(r, w.confirm.packageId, w.confirmTime);
      ApplyConcat(Apply, s, asked, [Saved(confirmed)]);
      OneEffect(Apply, View(), Saved(confirmed));
      Save(confirmed);
      result := Ok(UploadOutcome(r.exportId, w.confirm.packageId, r.inventoryId, skipped, w.confirm.duplicate));
    }

    method UploadSessionPackage(sessionId: string, inventoryId: string, w: UploadWorld)
      returns (result: Result<UploadOutcome>)
      requires SafeName(sessionId) in files ==> SafeName(files[SafeName(sessionId)].sessionId) == SafeName(sessionId)
      modifies this
      ensures var (es, r) := Upload(old(files), sessionId, inventoryId, w);
        result == r && View() == ApplyAll(Apply, old(View()), es)
    {
      hide SafeName, ConfirmPart, FailureEffects;
      ghost var s := View();
      var record := LoadRecord(sessionId);
      if record.None? {
        return Err("PACKAGE_NOT_EXPORTED");
      }
      var r := record.value;
      if r.inventoryId != inventoryId {
        return Err("INVENTORY_ID_MISMATCH");
      }
      if r.state == CONFIRMED && Truthy(r.packageId) {
        return Ok(UploadOutcome(r.exportId, r.packageId.value, r.inventoryId, true, true));
      }
      if !w.zipPresent {
        return Err("PACKAGE_ZIP_MISSING");
      }
      if r.state == PREVIEWED {
        result := Confirm(r, w, true);
        return;
      }
      ghost var asked := [PreviewSent(inventoryId, r.zipPath), PreviewAnswered(w.preview)];
      Happens(PreviewSent(inventoryId, r.zipPath));
      Happens(PreviewAnswered(w.preview));
      TwoEffects(Apply, s, asked[0], asked[1]);
      var refusal := Refusal(w.preview, r.exportId, inventoryId, READY, PREVIEW_CODES);
      if refusal.Some? {
        MarkRecordFailed(r, refusal.value);
        ApplyConcat(Apply, s, asked, FailureEffects(Some(r), r, refusal.value));
        return Err(refusal.value);
      }
      var previewed := MarkPreviewed(r, w.preview.packageId, w.previewTime);
      ghost var rest := ConfirmPart(previewed, previewed, w, false).0;
      ApplyConcat(Apply, s, asked, [Saved(previewed)]);
      OneEffect(Apply, View(), Saved(previewed));
      Save(previewed);
      ApplyConcat(Apply, s, asked + [Saved(previewed)], rest);
      result := Confirm(previewed, w, false);
    }
  }
}
