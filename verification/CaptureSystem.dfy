/** The capture service as a step system: the threads that call `record`, the photo worker,
    the serialised start/abort/finish requests, unserialised `mark_export_failed`, and process
    crashes with restart. */
module CaptureSystem {
  import opened Options
  import opened PhotoNames
  import opened CaptureModel

  // ----- state -----

  /** Where the photo worker is (`_photo_worker_loop` and `_execute_photo_job`). */
  datatype Worker =
    | Waiting
    | Holding(job: Job)               // taken from the queue
    | Wrote(job: Job, jpeg: Bytes)    // file in place, record not updated
    | Failing(job: Job)               // in the except branch, before unlinking
    | Unlinked(job: Job)              // file removed, record not updated
    | Breaking(job: Job)              // an exception is on its way to `_fail_pipeline_fatal`
    | Done(job: Job)                  // before the in-flight count goes down

  /** Where the one `finish` request is. */
  datatype Finisher = NotFinishing | CheckFatal | CheckIdle | Recheck | AtLock

  datatype System = System(
    up: bool,
    m: Memory,
    pending: set<Job>,                // threads between the lock and `queue.put`
    worker: Worker,
    finisher: Finisher,
    d: Disk,
    used: set<string>,                // ids ever drawn by uuid4
    metadataFailed: bool,             // some metadata write for a new photo has failed
    unphotographed: bool,             // some reading was recorded by a process that takes no photos
    written: set<(string, seq<ExportRecord>)>)  // text files finish has written: the session, its records

  /** A process has just started on an empty disk. */
  const INITIAL: System := System(true, BLANK, {}, Waiting, NotFinishing, EMPTY_DISK, {}, false, false, {})

  /** Some record may have no photo. */
  predicate Loose(s: System) {
    s.metadataFailed || s.unphotographed
  }

  // ----- events -----

  datatype Shot =
    | Taken(jpeg: Bytes)
    | Refused(written: Option<Bytes>)   // a camera-operation error, possibly after the file was replaced
    | Broken(written: Option<Bytes>)    // any other exception

  datatype Event =
    | DoStart(newId: string, o: SaveOutcome)
    | DoAbort(cleared: bool)
    | DoRecord(reading: Reading, photoId: string, o: SaveOutcome)
    | DoPut(job: Job)
    | DoTake
    | DoShoot(shot: Shot)
    | DoComplete(o: SaveOutcome)
    | DoUnlink(removed: bool)
    | DoFail(o: SaveOutcome)
    | DoBreak
    | DoRelease
    | FinishBegin
    | FinishCheck
    | FinishLast(exported: bool, o: SaveOutcome)
    | DoMark(o: SaveOutcome)
    | Crash
    | RestartBroken(photosSeen: nat, o: SaveOutcome)
    | Restart(o: SaveOutcome)

  predicate Enabled(cfg: Config, s: System, e: Event) {
    if !s.up then
      match e
      case Restart(o) => !cfg.store || LoadActive(s.d).None? || o.Saved?
      case RestartBroken(n, o) =>
        cfg.store && LoadActive(s.d).Some? && n <= |LoadActive(s.d).value.photos| && o.Broke?
      case _ => false
    else
      match e
      case DoStart(newId, _) => s.finisher.NotFinishing? && newId !in s.used
      case DoAbort(_) => s.finisher.NotFinishing?
      case DoRecord(_, photoId, _) => photoId !in s.used
      case DoPut(job) => job in s.pending
      case DoTake => s.worker.Waiting? && s.m.queue != []
      case DoShoot(_) => s.worker.Holding?
      case DoComplete(_) => s.worker.Wrote?
      case DoUnlink(_) => s.worker.Failing?
      case DoFail(_) => s.worker.Unlinked?
      case DoBreak => s.worker.Breaking?
      case DoRelease => s.worker.Done?
      case FinishBegin => s.finisher.NotFinishing?
      case FinishCheck => s.finisher.CheckFatal? || s.finisher.CheckIdle? || s.finisher.Recheck?
      case FinishLast(_, _) => s.finisher.AtLock?
      case DoMark(_) => true
      case Crash => true
      case _ => false
  }

  // ----- steps -----

  function With(s: System, e: Effect): System {
    s.(m := e.m, d := e.d)
  }

  function PutFile(s: System, job: Job, content: Option<Bytes>): System {
    if content.Some?
    then s.(d := s.d.(files := s.d.files[(job.sessionId, job.fileName) := content.value]))
    else s
  }

  function StepStart(cfg: Config, s: System, newId: string, o: SaveOutcome): System {
    With(s, Start(cfg, s.m, s.d, newId, o)).(used := s.used + {newId})
  }

  function StepAbort(cfg: Config, s: System, cleared: bool): System {
    With(s, AbortStart(cfg, s.m, s.d, cleared))
  }

  function StepRecord(cfg: Config, s: System, r: Reading, photoId: string, o: SaveOutcome): System {
    var (effect, job) := Record(cfg, s.m, s.d, r, photoId, o);
    With(s, effect).(
      used := s.used + {photoId},
      pending := s.pending + (if job.Some? then {job.value} else {}),
      metadataFailed := s.metadataFailed || (effect.m.fatal && !s.m.fatal),
      unphotographed := s.unphotographed || (!cfg.TakesPhotos() && effect.m.records != s.m.records))
  }

  function StepPut(s: System, job: Job): System {
    s.(pending := s.pending - {job}, m := s.m.(queue := s.m.queue + [job]))
  }

  function StepTake(s: System): System
    requires s.m.queue != []
  {
    s.(worker := Holding(s.m.queue[0]), m := s.m.(queue := s.m.queue[1..]))
  }

  function StepShoot(s: System, job: Job, shot: Shot): System {
    match shot
    case Taken(jpeg) => PutFile(s, job, Some(jpeg)).(worker := Wrote(job, jpeg))
    case Refused(written) => PutFile(s, job, written).(worker := Failing(job))
    case Broken(written) => PutFile(s, job, written).(worker := Breaking(job))
  }

  function StepComplete(cfg: Config, s: System, job: Job, jpeg: Bytes, o: SaveOutcome): System {
    var effect := UpdatePhoto(cfg, s.m, s.d, job.photoId, Complete, Some(jpeg), o);
    With(s, effect).(worker :=
      if effect.verdict == Accepted then Done(job)
      else if o.Broke? && o.osError then Failing(job) else Breaking(job))
  }

  function StepUnlink(s: System, job: Job, removed: bool): System {
    if removed
    then s.(d := s.d.(files := s.d.files - {(job.sessionId, job.fileName)}), worker := Unlinked(job))
    else s.(worker := Breaking(job))
  }

  function StepFail(cfg: Config, s: System, job: Job, o: SaveOutcome): System {
    var effect := UpdatePhoto(cfg, s.m, s.d, job.photoId, PhotoFailed, None, o);
    With(s, effect).(worker := if effect.verdict == Accepted then Done(job) else Breaking(job))
  }

  function StepBreak(s: System, job: Job): System {
    s.(m := s.m.(accepting := false, fatal := true), worker := Done(job))
  }

  function StepRelease(s: System): System {
    s.(m := s.m.(inflight := s.m.inflight - 1), worker := Waiting)
  }

  function StepFinishBegin(s: System): System {
    if CanFinish(s.m) then s.(m := s.m.(accepting := false), finisher := CheckFatal) else s
  }

  /** The wait loop looks at the fatal flag, then at the pipeline; `finish` looks at the flag once more. */
  function StepFinishCheck(cfg: Config, s: System): System {
    match s.finisher
    case CheckFatal =>
      if s.m.fatal then s.(finisher := NotFinishing)
      else s.(finisher := if cfg.TakesPhotos() then CheckIdle else Recheck)
    case CheckIdle =>
      s.(finisher := if s.m.inflight <= 0 && s.m.queue == [] then Recheck else CheckFatal)
    case Recheck =>
      s.(finisher := if s.m.fatal then NotFinishing else AtLock)
    case _ => s
  }

  /** The last section of finish comes to writing the text file. */
  predicate WritesFile(m: Memory) {
    CanFinish(m) && !AnyCapturing(m.photos) && m.records != [] && m.sessionId.Some?
  }

  function StepFinishLast(cfg: Config, s: System, exported: bool, o: SaveOutcome): System {
    With(s, FinishLocked(cfg, s.m, s.d, exported, o)).(
      finisher := NotFinishing,
      written := s.written + (if exported && WritesFile(s.m) then {(s.m.sessionId.value, s.m.records)} else {}))
  }

  function StepMark(cfg: Config, s: System, o: SaveOutcome): System {
    With(s, MarkExportFailed(cfg, s.m, s.d, o))
  }

  function StepCrash(s: System): System {
    s.(up := false, m := BLANK, pending := {}, worker := Waiting, finisher := NotFinishing)
  }

  /** The restoring constructor dies after `photosSeen` photos, or in its save when it has seen them all. */
  function StepRestartBroken(cfg: Config, s: System, photosSeen: nat, o: SaveOutcome): System
    requires LoadActive(s.d).Some? && photosSeen <= |LoadActive(s.d).value.photos|
  {
    var session := LoadActive(s.d).value;
    if photosSeen < |session.photos|
    then s.(d := s.d.(files := RecoverAll(session.photos[..photosSeen], session.sessionId, s.d.files).1))
    else s.(d := Restore(cfg, s.d, o).d)
  }

  function StepRestart(cfg: Config, s: System, o: SaveOutcome): System {
    With(s.(up := true), Restore(cfg, s.d, o))
  }

  function Next(cfg: Config, s: System, e: Event): System
    requires Enabled(cfg, s, e)
  {
    match e
    case DoStart(newId, o) => StepStart(cfg, s, newId, o)
    case DoAbort(cleared) => StepAbort(cfg, s, cleared)
    case DoRecord(r, photoId, o) => StepRecord(cfg, s, r, photoId, o)
    case DoPut(job) => StepPut(s, job)
    case DoTake => StepTake(s)
    case DoShoot(shot) => StepShoot(s, s.worker.job, shot)
    case DoComplete(o) => StepComplete(cfg, s, s.worker.job, s.worker.jpeg, o)
    case DoUnlink(removed) => StepUnlink(s, s.worker.job, removed)
    case DoFail(o) => StepFail(cfg, s, s.worker.job, o)
    case DoBreak => StepBreak(s, s.worker.job)
    case DoRelease => StepRelease(s)
    case FinishBegin => StepFinishBegin(s)
    case FinishCheck => StepFinishCheck(cfg, s)
    case FinishLast(exported, o) => StepFinishLast(cfg, s, exported, o)
    case DoMark(o) => StepMark(cfg, s, o)
    case Crash => StepCrash(s)
    case RestartBroken(photosSeen, o) => StepRestartBroken(cfg, s, photosSeen, o)
    case Restart(o) => StepRestart(cfg, s, o)
  }

  /** The state after a list of events, each enabled when it happens. */
  ghost predicate IsRun(cfg: Config, s: System, events: seq<Event>)
    decreases |events|
  {
    events == [] || (Enabled(cfg, s, events[0]) && IsRun(cfg, Next(cfg, s, events[0]), events[1..]))
  }

  ghost function After(cfg: Config, s: System, events: seq<Event>): System
    requires IsRun(cfg, s, events)
    decreases |events|
  {
    if events == [] then s else After(cfg, Next(cfg, s, events[0]), events[1..])
  }

  /** What happens under one configuration; another one takes over only while no process runs. */
  datatype Life = Life(cfg: Config, events: seq<Event>)

  /** No process has run yet. */
  const OFF: System := INITIAL.(up := false)

  ghost predicate IsHistory(s: System, lives: seq<Life>)
    decreases |lives|
  {
    lives == []
    || (!s.up && IsRun(lives[0].cfg, s, lives[0].events)
        && IsHistory(After(lives[0].cfg, s, lives[0].events), lives[1..]))
  }

  ghost function Outcome(s: System, lives: seq<Life>): System
    requires IsHistory(s, lives)
    decreases |lives|
  {
    if lives == [] then s else Outcome(After(lives[0].cfg, s, lives[0].events), lives[1..])
  }

  /** The configuration of the last process, if there was one. */
  function Current(lives: seq<Life>): Config {
    if lives == [] then Config(false, false) else lives[|lives| - 1].cfg
  }

  // ----- what is in the pipeline -----

  ghost function WorkerJobs(w: Worker): iset<Job> {
    if w.Waiting? then iset{} else iset{w.job}
  }

  ghost function Queued(q: seq<Job>): iset<Job> {
    iset j | j in q
  }

  ghost function Pending(s: System): iset<Job> {
    iset j | j in s.pending
  }

  /** Jobs between creation and the release of the in-flight count. */
  ghost function InFlight(s: System): iset<Job> {
    Pending(s) + Queued(s.m.queue) + WorkerJobs(s.worker)
  }

  /** Jobs whose photo record the worker may still update. */
  ghost function Live(s: System): iset<Job> {
    Pending(s) + Queued(s.m.queue) + (if s.worker.Done? then iset{} else WorkerJobs(s.worker))
  }

  /** Jobs the worker has not begun to execute. */
  ghost function Untouched(s: System): iset<Job> {
    Pending(s) + Queued(s.m.queue) + (if s.worker.Holding? then iset{s.worker.job} else iset{})
  }
}
