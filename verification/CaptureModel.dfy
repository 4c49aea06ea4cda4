/** Aisle capture and its durable store, as values: what each critical section of
    raspberry-scanner/capture.py does to the service's memory and to the disk. */
module CaptureModel {
  import opened Options
  import opened PhotoNames

  // ----- the data -----

  type Bytes = seq<bv8>

  /** SHA-256, taken to be injective: a digest stands for the content it was computed from. */
  datatype Digest = Sha256(content: Bytes)

  datatype Phase = Idle | Active | ExportFailed | Finished

  datatype PhotoStatus = Capturing | Complete | PhotoFailed

  datatype Photo = Photo(
    id: string,
    number: nat,
    scannerSequence: int,
    line: string,
    status: PhotoStatus,
    fileName: string,
    digest: Option<Digest>,
    size: Option<nat>)

  datatype ExportRecord = ExportRecord(scannerSequence: int, line: string)

  datatype Job = Job(photoId: string, number: nat, fileName: string, sessionId: string)

  datatype Counters = Counters(
    physical: nat,
    rejected: nat,
    f2Accepted: nat,
    notExportable: nat,
    accepted: nat)

  const ZERO: Counters := Counters(0, 0, 0, 0, 0)

  /** The fields of `CaptureService` that its methods update. */
  datatype Memory = Memory(
    phase: Phase,
    accepting: bool,
    sessionId: Option<string>,
    records: seq<ExportRecord>,
    photos: seq<Photo>,
    nextNumber: nat,
    counters: Counters,
    fatal: bool,
    queue: seq<Job>,
    inflight: int)

  const BLANK: Memory := Memory(Idle, true, None, [], [], 1, ZERO, false, [], 0)

  datatype StoredSession = StoredSession(
    sessionId: string,
    phase: Phase,
    records: seq<ExportRecord>,
    photos: seq<Photo>,
    nextNumber: nat,
    counters: Counters)

  /** Session files by id, the active pointer, and photo files by session directory and name. */
  datatype Disk = Disk(
    sessions: map<string, StoredSession>,
    active: Option<string>,
    files: map<(string, string), Bytes>)

  const EMPTY_DISK: Disk := Disk(map[], None, map[])

  /** Photos are taken only when both a camera and a session store are configured. */
  datatype Config = Config(camera: bool, store: bool) {
    predicate TakesPhotos() { camera && store }
  }

  /** One decoded reading; `line` is what `_export_line` makes of it. */
  datatype Reading = Reading(sequence: int, accepted: bool, line: Option<string>)

  datatype Verdict = Accepted | Refused | Raised

  // ----- durable writes -----

  datatype Write =
    | PutSession(session: StoredSession)
    | PutActive(id: string)
    | ClearActive

  function ApplyWrite(d: Disk, w: Write): Disk {
    match w
    case PutSession(s) => d.(sessions := d.sessions[s.sessionId := s])
    case PutActive(id) => d.(active := Some(id))
    case ClearActive => d.(active := None)
  }

  function ApplyWrites(d: Disk, ws: seq<Write>): Disk
    decreases |ws|
  {
    if ws == [] then d else ApplyWrites(ApplyWrite(d, ws[0]), ws[1..])
  }

  /** `CaptureSessionStore.save`: the session file first, then the active pointer. */
  function SaveWrites(s: StoredSession): seq<Write> {
    [PutSession(s)]
    + (match s.phase
       case Active => [PutActive(s.sessionId)]
       case Idle => []
       case _ => [ClearActive])
  }

  /** A save succeeds, or raises after `done` of its atomic writes took effect. */
  datatype SaveOutcome = Saved | Broke(done: nat, osError: bool)

  function Save(d: Disk, s: StoredSession, o: SaveOutcome): Disk {
    var ws := SaveWrites(s);
    match o
    case Saved => ApplyWrites(d, ws)
    case Broke(done, _) => ApplyWrites(d, if done < |ws| then ws[..done] else ws)
  }

  predicate Persists(cfg: Config, m: Memory) {
    cfg.store && m.sessionId.Some? && m.phase != Idle
  }

  function Stored(m: Memory): StoredSession
    requires m.sessionId.Some?
  {
    StoredSession(m.sessionId.value, m.phase, m.records, m.photos, m.nextNumber, m.counters)
  }

  /** `_persist_session_locked`: the disk afterwards. */
  function Persist(cfg: Config, m: Memory, d: Disk, o: SaveOutcome): Disk {
    if Persists(cfg, m) then Save(d, Stored(m), o) else d
  }

  predicate PersistSucceeds(cfg: Config, m: Memory, o: SaveOutcome) {
    Persists(cfg, m) ==> o.Saved?
  }

  // ----- the critical sections -----

  /** What a critical section leaves behind. */
  datatype Effect = Effect(m: Memory, d: Disk, verdict: Verdict)

  function PersistAs(cfg: Config, m: Memory, d: Disk, o: SaveOutcome): Effect {
    Effect(m, Persist(cfg, m, d, o), if PersistSucceeds(cfg, m, o) then Accepted else Raised)
  }

  function Start(cfg: Config, m: Memory, d: Disk, newId: string, o: SaveOutcome): Effect {
    if m.phase != Idle && m.phase != Finished then Effect(m, d, Refused)
    else
      PersistAs(cfg,
        Memory(Active, true, Some(newId), [], [], 1, ZERO, m.fatal, m.queue, m.inflight), d, o)
  }

  /** `cleared` is false when unlinking the active pointer raises. */
  function AbortStart(cfg: Config, m: Memory, d: Disk, cleared: bool): Effect {
    if m.phase != Active || m.records != [] then Effect(m, d, Refused)
    else
      Effect(m.(phase := Idle, accepting := false, sessionId := None),
             if cfg.store && cleared then d.(active := None) else d,
             if cfg.store && !cleared then Raised else Accepted)
  }

  /** The new photo and its job, once the reading has been counted. */
  function NewPhoto(m: Memory, r: Reading, photoId: string): Photo
    requires r.line.Some?
  {
    Photo(photoId, m.nextNumber, r.sequence, r.line.value, Capturing,
          PhotoFileName(photoId, m.nextNumber), None, None)
  }

  function JobFor(p: Photo, sessionId: string): Job {
    Job(p.id, p.number, p.fileName, sessionId)
  }

  /** The last part of `record`: list the photo, save, and hand out its job - or take it all back. */
  function Photograph(cfg: Config, m: Memory, d: Disk, r: Reading, photoId: string, o: SaveOutcome): (Effect, Option<Job>)
    requires r.line.Some? && m.sessionId.Some?
  {
    var p := NewPhoto(m, r, photoId);
    var m2 := m.(photos := m.photos + [p], nextNumber := m.nextNumber + 1, inflight := m.inflight + 1);
    var d2 := Persist(cfg, m2, d, o);
    if PersistSucceeds(cfg, m2, o)
    then (Effect(m2, d2, Accepted), Some(JobFor(p, m.sessionId.value)))
    else (Effect(m.(fatal := true, accepting := false), d2, Raised), None)
  }

  function Record(cfg: Config, m: Memory, d: Disk, r: Reading, photoId: string, o: SaveOutcome): (Effect, Option<Job>)
  {
    if m.fatal then (Effect(m, d, Raised), None)
    else if m.phase != Active || !m.accepting then (Effect(m, d, Accepted), None)
    else
      var c := m.counters;
      if !r.accepted then
        var m1 := m.(counters := c.(physical := c.physical + 1, rejected := c.rejected + 1));
        (PersistAs(cfg, m1, d, o), None)
      else if r.line.None? then
        var m1 := m.(counters := c.(physical := c.physical + 1, f2Accepted := c.f2Accepted + 1,
                                    notExportable := c.notExportable + 1));
        (PersistAs(cfg, m1, d, o), None)
      else
        var m1 := m.(counters := c.(physical := c.physical + 1, f2Accepted := c.f2Accepted + 1,
                                    accepted := c.accepted + 1),
                     records := m.records + [ExportRecord(r.sequence, r.line.value)]);
        if cfg.TakesPhotos() && m.sessionId.Some? then Photograph(cfg, m1, d, r, photoId, o)
        else (Effect(m1, d, Accepted), None)
  }

  predicate CanFinish(m: Memory) {
    m.phase == Active || m.phase == ExportFailed
  }

  ghost predicate AllTerminal(photos: seq<Photo>) {
    forall i :: 0 <= i < |photos| ==> photos[i].status != Capturing
  }

  predicate AnyCapturing(photos: seq<Photo>) {
    exists i :: 0 <= i < |photos| && photos[i].status == Capturing
  }

  /** The last section of `finish`; `exported` says whether writing the text file succeeded. */
  function FinishLocked(cfg: Config, m: Memory, d: Disk, exported: bool, o: SaveOutcome): Effect {
    if !CanFinish(m) then Effect(m, d, Refused)
    else if AnyCapturing(m.photos) then Effect(m, d, Refused)
    else if m.records == [] || exported then PersistAs(cfg, m.(phase := Finished), d, o)
    else
      var m1 := m.(phase := ExportFailed);
      Effect(m1, Persist(cfg, m1, d, o), Raised)
  }

  function MarkExportFailed(cfg: Config, m: Memory, d: Disk, o: SaveOutcome): Effect {
    if m.phase == Idle then Effect(m, d, Refused)
    else PersistAs(cfg, m.(phase := ExportFailed), d, o)
  }

  function WithStatus(p: Photo, id: string, status: PhotoStatus, jpeg: Option<Bytes>): Photo {
    if p.id != id then p
    else p.(status := status,
            digest := if jpeg.Some? then Some(Sha256(jpeg.value)) else None,
            size := if jpeg.Some? then Some(|jpeg.value|) else None)
  }

  function UpdatePhotos(photos: seq<Photo>, id: string, status: PhotoStatus, jpeg: Option<Bytes>): (r: seq<Photo>)
    ensures |r| == |photos|
    ensures forall i :: 0 <= i < |photos| ==> r[i] == WithStatus(photos[i], id, status, jpeg)
  {
    seq(|photos|, i requires 0 <= i < |photos| => WithStatus(photos[i], id, status, jpeg))
  }

  /** `_update_photo_record`. */
  function UpdatePhoto(cfg: Config, m: Memory, d: Disk, id: string, status: PhotoStatus, jpeg: Option<Bytes>,
                       o: SaveOutcome): Effect {
    PersistAs(cfg, m.(photos := UpdatePhotos(m.photos, id, status, jpeg)), d, o)
  }

  // ----- restart -----

  /** `load_active`: only a session stored as ACTIVE comes back. */
  function LoadActive(d: Disk): Option<StoredSession> {
    if d.active.Some? && d.active.value in d.sessions && d.sessions[d.active.value].phase == Active
    then Some(d.sessions[d.active.value])
    else None
  }

  type Files = map<(string, string), Bytes>

  /** One photo met by the restoring loop: what becomes of it, and of the photo files. */
  function RecoverFiles(p: Photo, dir: string, files: Files): Files {
    if p.status == Capturing then files - {(dir, p.fileName)} else files
  }

  function Recover(p: Photo, dir: string, files: Files): Photo {
    if p.status == Capturing || (p.status == Complete && p.fileName != "" && (dir, p.fileName) !in files)
    then p.(status := PhotoFailed, digest := None, size := None)
    else p
  }

  /** The loop over all photos, in order. */
  function RecoverAll(photos: seq<Photo>, dir: string, files: Files): (r: (seq<Photo>, Files))
    ensures |r.0| == |photos|
  {
    if photos == [] then ([], files)
    else
      var rest := RecoverAll(photos[1..], dir, RecoverFiles(photos[0], dir, files));
      ([Recover(photos[0], dir, files)] + rest.0, rest.1)
  }

  /** `_restore_active_session_if_present` in a process that has just started. */
  function Restore(cfg: Config, d: Disk, o: SaveOutcome): Effect {
    if !cfg.store || LoadActive(d).None? then Effect(BLANK, d, Accepted)
    else
      var s := LoadActive(d).value;
      var (photos, files) := RecoverAll(s.photos, s.sessionId, d.files);
      var m := Memory(s.phase, true, Some(s.sessionId), s.records, photos, s.nextNumber, s.counters, false, [], 0);
      PersistAs(cfg, m, d.(files := files), o)
  }
}
