/** What the operations of the capture service achieve: what a finish, a shot and a restart come to, and what
    the readings of a session add up to. */
module CaptureOutcomes {
  import opened Options
  import opened PhotoNames
  import opened CaptureModel
  import opened CaptureSystem
  import opened CaptureInvariant
  import opened CaptureSteps
  import opened CaptureDiskSteps
  import opened CaptureWorkerSteps
  import opened CaptureTheorems

  // ----- finish -----

  /** A FINISHED session with records has its text file, written with exactly these records. */
  ghost predicate Backed(phase: Phase, id: string, records: seq<ExportRecord>, written: set<(string, seq<ExportRecord>)>) {
    phase == Finished && records != [] ==> (id, records) in written
  }

  /** All stored sessions are backed, and the active pointer leads to a stored one. */
  ghost predicate DiskBacked(d: Disk, written: set<(string, seq<ExportRecord>)>) {
    && (forall id :: id in d.sessions ==> Backed(d.sessions[id].phase, id, d.sessions[id].records, written))
    && (d.active.Some? ==> d.active.value in d.sessions)
  }

  ghost predicate MemoryBacked(m: Memory, written: set<(string, seq<ExportRecord>)>) {
    m.sessionId.Some? ==> Backed(m.phase, m.sessionId.value, m.records, written)
  }

  /** Beside the files: while a finish is under way the session can be finished. */
  ghost predicate Filed(s: System) {
    && MemoryBacked(s.m, s.written)
    && DiskBacked(s.d, s.written)
    && (!s.finisher.NotFinishing? ==> CanFinish(s.m))
  }

  lemma SaveBacked(cfg: Config, m: Memory, d: Disk, o: SaveOutcome, written: set<(string, seq<ExportRecord>)>)
    requires MemoryBacked(m, written) && DiskBacked(d, written)
    ensures DiskBacked(Persist(cfg, m, d, o), written)
  {
    PersistEffect(cfg, m, d, o);
    hide Persist;
  }

  lemma UnfinishedBacked(m: Memory, written: set<(string, seq<ExportRecord>)>)
    requires m.phase != Finished
    ensures MemoryBacked(m, written)
  {
  }

  lemma RecordKeepsFiled(cfg: Config, s: System, r: Reading, photoId: string, o: SaveOutcome)
    requires Inv(cfg, s) && s.up && Filed(s)
    ensures Filed(StepRecord(cfg, s, r, photoId, o))
  {
    MemoryFacts(cfg, s);
    hide Inv, Persist, Counted, StepRecord, DiskBacked, MemoryBacked;
    var m := s.m;
    if m.fatal || m.phase != Active || !m.accepting {
      RecordIgnored(cfg, s, r, photoId, o);
    } else if !r.accepted || r.line.None? {
      RecordCounted(cfg, s, r, photoId, o);
      var m' := m.(counters := Counted(m.counters, r));
      UnfinishedBacked(m', s.written);
      SaveBacked(cfg, m', s.d, o, s.written);
    } else {
      RecordAccepted(cfg, s, r, photoId, o);
      var m' := Photographed(m, r, photoId, Counted(m.counters, r));
      UnfinishedBacked(m', s.written);
      UnfinishedBacked(StepRecord(cfg, s, r, photoId, o).m, s.written);
      SaveBacked(cfg, m', s.d, o, s.written);
    }
  }

  lemma RestoreBacked(cfg: Config, d: Disk, o: SaveOutcome, written: set<(string, seq<ExportRecord>)>)
    requires DiskBacked(d, written)
    ensures var e := Restore(cfg, d, o); DiskBacked(e.d, written) && MemoryBacked(e.m, written)
  {
    RestoreIs(cfg, d, o);
    if cfg.store && LoadActive(d).Some? {
      RebornShape(d);
      RebornSessions(d);
      hide Persist, Reborn, Restore;
      UnfinishedBacked(Reborn(d).0, written);
      SaveBacked(cfg, Reborn(d).0, Reborn(d).1, o, written);
    }
  }

  lemma RebornSessions(d: Disk)
    requires LoadActive(d).Some?
    ensures Reborn(d).1.sessions == d.sessions && Reborn(d).1.active == d.active
  {
    hide RecoverAll;
  }

  lemma FinishState(cfg: Config, s: System, exported: bool, o: SaveOutcome)
    requires Inv(cfg, s) && s.up && s.finisher.AtLock? && CanFinish(s.m)
    ensures var phase := if s.m.records == [] || exported then Finished else ExportFailed;
      var m := s.m.(phase := phase);
      && m.sessionId.Some?
      && StepFinishLast(cfg, s, exported, o)
         == s.(m := m, d := Persist(cfg, m, s.d, o), finisher := NotFinishing,
               written := s.written + (if exported && s.m.records != [] then {(s.m.sessionId.value, s.m.records)} else {}))
      && (FinishLocked(cfg, s.m, s.d, exported, o).verdict == Accepted
          <==> phase == Finished && PersistSucceeds(cfg, m, o))
  {
    GuardNeverFires(cfg, s);
    MemoryFacts(cfg, s);
    hide Inv, Persist, AnyCapturing;
  }

  lemma FinishKeepsFiled(cfg: Config, s: System, exported: bool, o: SaveOutcome)
    requires Inv(cfg, s) && s.up && s.finisher.AtLock? && Filed(s)
    ensures Filed(StepFinishLast(cfg, s, exported, o))
  {
    hide Inv, Persist, StepFinishLast;
    FinishState(cfg, s, exported, o);
    var s' := StepFinishLast(cfg, s, exported, o);
    assert DiskBacked(s.d, s'.written);
    assert MemoryBacked(s'.m, s'.written);
    SaveBacked(cfg, s'.m, s.d, o, s'.written);
  }

  lemma StepKeepsFiled(cfg: Config, s: System, e: Event)
    requires Inv(cfg, s) && Enabled(cfg, s, e) && Filed(s)
    ensures Filed(Next(cfg, s, e))
  {
    hide Inv, Persist, Restore, RecoverAll, UpdatePhotos, AnyCapturing, DiskBacked, StepRecord, StepFinishLast;
    match e
    case DoStart(newId, o) =>
      var m := Memory(Active, true, Some(newId), [], [], 1, ZERO, s.m.fatal, s.m.queue, s.m.inflight);
      SaveBacked(cfg, m, s.d, o, s.written);
    case DoRecord(r, photoId, o) => RecordKeepsFiled(cfg, s, r, photoId, o);
    case DoComplete(o) =>
      var m := s.m.(photos := UpdatePhotos(s.m.photos, s.worker.job.photoId, Complete, Some(s.worker.jpeg)));
      SaveBacked(cfg, m, s.d, o, s.written);
    case DoFail(o) =>
      var m := s.m.(photos := UpdatePhotos(s.m.photos, s.worker.job.photoId, PhotoFailed, None));
      SaveBacked(cfg, m, s.d, o, s.written);
    case FinishLast(exported, o) => FinishKeepsFiled(cfg, s, exported, o);
    case DoMark(o) =>
      SaveBacked(cfg, s.m.(phase := ExportFailed), s.d, o, s.written);
    case DoAbort(cleared) => SameSessionsBacked(s.d, Next(cfg, s, e).d, s.written);
    case DoShoot(shot) => SameSessionsBacked(s.d, Next(cfg, s, e).d, s.written);
    case DoUnlink(removed) => SameSessionsBacked(s.d, Next(cfg, s, e).d, s.written);
    case Restart(o) =>
      Down(cfg, s);
      RestoreBacked(cfg, s.d, o, s.written);
    case RestartBroken(photosSeen, o) =>
      Down(cfg, s);
      RestoreBacked(cfg, s.d, o, s.written);
      if photosSeen < |LoadActive(s.d).value.photos| { SameSessionsBacked(s.d, Next(cfg, s, e).d, s.written); }
    case _ =>
  }

  lemma Down(cfg: Config, s: System)
    requires Inv(cfg, s) && !s.up
    ensures s.m == BLANK && s.finisher.NotFinishing?
  {
  }

  lemma SameSessionsBacked(d: Disk, d': Disk, written: set<(string, seq<ExportRecord>)>)
    requires DiskBacked(d, written) && d'.sessions == d.sessions && (d'.active == d.active || d'.active.None?)
    ensures DiskBacked(d', written)
  {
  }

  lemma {:induction false} RunKeepsFiled(cfg: Config, s: System, events: seq<Event>)
    requires Inv(cfg, s) && Filed(s) && IsRun(cfg, s, events)
    ensures Filed(After(cfg, s, events))
    decreases |events|
  {
    hide Inv, Next, Enabled, Filed;
    if events != [] {
      StepKeepsFiled(cfg, s, events[0]);
      if s.up { KeepsUp(cfg, s, events[0]); } else { KeepsDown(cfg, s, events[0]); }
      RunKeepsFiled(cfg, Next(cfg, s, events[0]), events[1..]);
    }
  }

  lemma {:induction false} HistoryKeepsFiled(cfg: Config, s: System, lives: seq<Life>)
    requires Inv(cfg, s) && Filed(s) && IsHistory(s, lives)
    ensures Filed(Outcome(s, lives))
    decreases |lives|
  {
    hide Inv, IsRun, After, Filed;
    if lives != [] {
      var life := lives[0];
      AnyConfig(cfg, life.cfg, s);
      RunKeepsFiled(life.cfg, s, life.events);
      RunKeepsInv(life.cfg, s, life.events);
      HistoryKeepsFiled(life.cfg, After(life.cfg, s, life.events), lives[1..]);
    }
  }

  lemma AlwaysFiled(lives: seq<Life>)
    requires IsHistory(OFF, lives)
    ensures Filed(Outcome(OFF, lives))
  {
    hide Outcome, IsHistory;
    HistoryKeepsFiled(Current([]), OFF, lives);
  }

  /** In every history, whatever failed or crashed: a session that is FINISHED, in memory or on disk, and has
      records has had its text file written with exactly these records. */
  lemma FinishedHasItsFile(lives: seq<Life>)
    requires IsHistory(OFF, lives)
    ensures var s := Outcome(OFF, lives);
      && (s.m.phase == Finished && s.m.records != [] ==>
            s.m.sessionId.Some? && (s.m.sessionId.value, s.m.records) in s.written)
      && (forall id :: id in s.d.sessions && s.d.sessions[id].phase == Finished && s.d.sessions[id].records != [] ==>
            (id, s.d.sessions[id].records) in s.written)
  {
    hide Outcome, IsHistory, Inv;
    AlwaysFiled(lives);
    Reachable(lives);
    MemoryFacts(Current(lives), Outcome(OFF, lives));
  }

  /** The active pointer never names a session that is not stored, wherever a save was cut off. */
  lemma PointerNamesAStoredSession(lives: seq<Life>)
    requires IsHistory(OFF, lives)
    ensures var d := Outcome(OFF, lives).d;
      d.active.Some? ==> d.active.value in d.sessions
  {
    hide Outcome, IsHistory;
    AlwaysFiled(lives);
  }

  /** Whenever a finish reaches its last section it settles the session: FINISHED exactly when there was nothing
      to write or the file was written, EXPORT_FAILED otherwise, and answered well exactly when it is FINISHED
      and saved. Nothing else in memory changes; a save that succeeds stores just that, no longer active. */
  lemma FinishOutcome(lives: seq<Life>, exported: bool, o: SaveOutcome)
    requires IsHistory(OFF, lives) && Outcome(OFF, lives).up && Outcome(OFF, lives).finisher.AtLock?
    ensures var cfg, s := Current(lives), Outcome(OFF, lives);
      var s' := Next(cfg, s, FinishLast(exported, o));
      && s'.m == s.m.(phase := if s.m.records == [] || exported then Finished else ExportFailed)
      && s'.finisher.NotFinishing? && s.m.sessionId.Some?
      && (FinishLocked(cfg, s.m, s.d, exported, o).verdict == Accepted
          <==> (s.m.records == [] || exported) && (cfg.store ==> o.Saved?))
      && (cfg.store && o.Saved? ==>
            && s'.d.active.None?
            && s'.d.sessions == s.d.sessions[s.m.sessionId.value := Stored(s'.m)])
  {
    hide Outcome, IsHistory, Inv, Persist, StepFinishLast;
    var cfg, s := Current(lives), Outcome(OFF, lives);
    Reachable(lives);
    AlwaysFiled(lives);
    FinishState(cfg, s, exported, o);
    PersistEffect(cfg, Next(cfg, s, FinishLast(exported, o)).m, s.d, o);
  }

  // ----- one photo -----

  /** The photo of a job is settled and every other one stays. */
  ghost predicate SettledAs(m: Memory, m': Memory, job: Job, status: PhotoStatus, jpeg: Option<Bytes>) {
    && 1 <= job.number <= |m.photos| && |m'.photos| == |m.photos|
    && m'.photos[job.number - 1] == m.photos[job.number - 1].(
         status := status,
         digest := if jpeg.Some? then Some(Sha256(jpeg.value)) else None,
         size := if jpeg.Some? then Some(|jpeg.value|) else None)
    && (forall i :: 0 <= i < |m.photos| && i != job.number - 1 ==> m'.photos[i] == m.photos[i])
    && m' == m.(photos := m'.photos)
  }

  lemma SettledIsExact(m: Memory, job: Job, status: PhotoStatus, jpeg: Option<Bytes>)
    requires Numbered(m.photos, m.nextNumber) && JobOk(m, job)
    ensures SettledAs(m, Settled(m, job, status, jpeg), job, status, jpeg)
  {
  }

  /** What a save leaves of the session in memory. */
  lemma SavedIsStored(cfg: Config, m: Memory, d: Disk)
    requires Persists(cfg, m)
    ensures var d' := Persist(cfg, m, d, Saved);
      m.sessionId.value in d'.sessions && d'.sessions[m.sessionId.value] == Stored(m)
  {
    PersistEffect(cfg, m, d, Saved);
  }

  lemma BusyPersists(cfg: Config, s: System)
    requires Inv(cfg, s) && !s.worker.Waiting?
    ensures Persists(cfg, s.m) && s.m.sessionId == Some(s.worker.job.sessionId)
    ensures 1 <= s.worker.job.number <= |s.m.photos|
    ensures s.m.photos[s.worker.job.number - 1].fileName == s.worker.job.fileName
    ensures s.m.photos[s.worker.job.number - 1].id == s.worker.job.photoId
  {
    WorkerBusy(cfg, s);
    hide Inv;
  }

  /** A photo taken is in its file at once... */
  lemma ShotIsWritten(cfg: Config, s: System, jpeg: Bytes)
    requires Inv(cfg, s) && s.up && s.worker.Holding?
    ensures var job := s.worker.job;
      var s1 := Next(cfg, s, DoShoot(Taken(jpeg)));
      && s1.worker == Wrote(job, jpeg) && s1.m == s.m
      && s1.d.files == s.d.files[(job.sessionId, job.fileName) := jpeg]
  {
    hide Inv;
  }

  /** ... and once its record is updated it is COMPLETE with the digest and size of that file, in memory and, if
      the save succeeds, on disk, and the worker is done with it. */
  lemma UpdateCompletes(cfg: Config, s: System, o: SaveOutcome)
    requires Inv(cfg, s) && s.up && s.worker.Wrote?
    ensures var job, jpeg := s.worker.job, s.worker.jpeg;
      var s' := Next(cfg, s, DoComplete(o));
      && SettledAs(s.m, s'.m, job, Complete, Some(jpeg))
      && s.m.photos[job.number - 1].id == job.photoId
      && (job.sessionId, s'.m.photos[job.number - 1].fileName) in s'.d.files
      && s'.d.files[(job.sessionId, s'.m.photos[job.number - 1].fileName)] == jpeg
      && (o.Saved? ==>
            s'.worker == Done(job) && job.sessionId in s'.d.sessions && s'.d.sessions[job.sessionId] == Stored(s'.m))
      && (!o.Saved? ==> s'.worker == if o.osError then Failing(job) else Breaking(job))
  {
    WorkerBusy(cfg, s);
    BusyPersists(cfg, s);
    WroteFile(cfg, s);
    hide Inv, Persist, Numbered, JobOk, SettledAs;
    var m := Settled(s.m, s.worker.job, Complete, Some(s.worker.jpeg));
    SettledIsExact(s.m, s.worker.job, Complete, Some(s.worker.jpeg));
    SettledSame(s.m, m, s.worker.job, Complete, Some(s.worker.jpeg));
    PersistEffect(cfg, m, s.d, o);
    SavedIsStored(cfg, m, s.d);
  }

  lemma SettledSame(m: Memory, m': Memory, job: Job, status: PhotoStatus, jpeg: Option<Bytes>)
    requires SettledAs(m, m', job, status, jpeg)
    ensures 1 <= job.number <= |m.photos| == |m'.photos|
    ensures m'.photos[job.number - 1].fileName == m.photos[job.number - 1].fileName
    ensures m'.phase == m.phase && m'.sessionId == m.sessionId
  {
  }

  lemma WroteFile(cfg: Config, s: System)
    requires Inv(cfg, s) && s.worker.Wrote?
    ensures (s.worker.job.sessionId, s.worker.job.fileName) in s.d.files
    ensures s.d.files[(s.worker.job.sessionId, s.worker.job.fileName)] == s.worker.jpeg
  {
    hide DiskOk, MemoryOk, FilesPresent, CapturingHasJob, QuietWhen, NotRevived, Matched, JobsOk, JobsFresh, Unshared;
  }

  /** The file of a shot that the camera refuses is removed... */
  lemma RefusalFails(cfg: Config, s: System, written: Option<Bytes>)
    requires Inv(cfg, s) && s.up && s.worker.Holding?
    ensures var job := s.worker.job;
      var s1 := Next(cfg, s, DoShoot(Shot.Refused(written)));
      var s2 := Next(cfg, s1, DoUnlink(true));
      && s1.worker == Failing(job) && s2.worker == Unlinked(job) && s2.m == s.m
      && s2.d.files == s.d.files - {(job.sessionId, job.fileName)}
  {
    hide Inv;
    var job := s.worker.job;
    if written.Some? {
      assert s.d.files[(job.sessionId, job.fileName) := written.value] - {(job.sessionId, job.fileName)}
          == s.d.files - {(job.sessionId, job.fileName)};
    }
  }

  /** ... and then its record is marked PHOTO_FAILED, without digest or size, and saved. */
  lemma UpdateFails(cfg: Config, s: System, o: SaveOutcome)
    requires Inv(cfg, s) && s.up && s.worker.Unlinked?
    ensures var job := s.worker.job;
      var s' := Next(cfg, s, DoFail(o));
      && SettledAs(s.m, s'.m, job, PhotoFailed, None)
      && s.m.photos[job.number - 1].id == job.photoId && s'.d.files == s.d.files
      && (o.Saved? ==>
            s'.worker == Done(job) && job.sessionId in s'.d.sessions && s'.d.sessions[job.sessionId] == Stored(s'.m))
      && (!o.Saved? ==> s'.worker == Breaking(job))
  {
    WorkerBusy(cfg, s);
    BusyPersists(cfg, s);
    hide Inv, Persist, Numbered, JobOk, SettledAs;
    var m := Settled(s.m, s.worker.job, PhotoFailed, None);
    SettledIsExact(s.m, s.worker.job, PhotoFailed, None);
    SettledSame(s.m, m, s.worker.job, PhotoFailed, None);
    PersistEffect(cfg, m, s.d, o);
    SavedIsStored(cfg, m, s.d);
  }

  // ----- restart -----

  /** What a restart makes of a stored photo. */
  function Reviewed(p: Photo, dir: string, files: Files): Photo {
    if p.status == PhotoFailed || (p.status == Complete && (dir, p.fileName) in files) then p
    else p.(status := PhotoFailed, digest := None, size := None)
  }

  /** The files of unfinished photos. */
  function Unfinished(photos: seq<Photo>, dir: string): set<(string, string)> {
    set i | 0 <= i < |photos| && photos[i].status == Capturing :: (dir, photos[i].fileName)
  }

  lemma {:induction false} RecoverExactly(photos: seq<Photo>, dir: string, files: Files)
    requires DistinctNames(photos) && forall i :: 0 <= i < |photos| ==> photos[i].fileName != ""
    ensures var (r, files') := RecoverAll(photos, dir, files);
      && (forall i :: 0 <= i < |photos| ==> r[i] == Reviewed(photos[i], dir, files))
      && files' == files - Unfinished(photos, dir)
  {
    if photos == [] {
      assert files - {} == files;
    } else {
      var files1 := RecoverFiles(photos[0], dir, files);
      RecoverExactly(photos[1..], dir, files1);
      forall i | 1 <= i < |photos| ensures (dir, photos[i].fileName) in files1 <==> (dir, photos[i].fileName) in files {
        assert photos[0].fileName != photos[i].fileName;
      }
      var first := if photos[0].status == Capturing then {(dir, photos[0].fileName)} else {};
      UnfinishedCons(photos, dir, first);
      assert files1 == files - first;
      assert files1 - Unfinished(photos[1..], dir) == files - Unfinished(photos, dir);
    }
  }

  lemma UnfinishedCons(photos: seq<Photo>, dir: string, first: set<(string, string)>)
    requires photos != []
    requires first == if photos[0].status == Capturing then {(dir, photos[0].fileName)} else {}
    ensures Unfinished(photos, dir) == first + Unfinished(photos[1..], dir)
  {
    forall x | x in Unfinished(photos, dir) ensures x in first + Unfinished(photos[1..], dir) {
      var i :| 0 <= i < |photos| && photos[i].status == Capturing && x == (dir, photos[i].fileName);
      if i > 0 { assert photos[1..][i - 1] == photos[i]; }
    }
  }

  lemma StoredNames(d: Disk, used: set<string>, id: string)
    requires DiskOk(d, used) && id in d.sessions
    ensures d.sessions[id].sessionId == id
    ensures forall i :: 0 <= i < |d.sessions[id].photos| ==> d.sessions[id].photos[i].fileName != ""
    ensures DistinctNames(d.sessions[id].photos)
  {
    hide IdsUsed, CountsAgree, Evidence, AllTerminal;
    NumberedNames(d.sessions[id].photos, d.sessions[id].nextNumber);
    forall i | 0 <= i < |d.sessions[id].photos| ensures d.sessions[id].photos[i].fileName != "" {
      assert |d.sessions[id].photos[i].fileName| > 0;
    }
  }

  /** A restart with a store resumes the session that the active pointer leads to if it is stored ACTIVE: records,
      counters and numbering as stored, accepting readings again without a fatal error; a photo stays COMPLETE
      exactly when its file is there, unfinished ones become PHOTO_FAILED and lose their files, and no other file
      is touched. Otherwise the process starts blank. */
  lemma RestartResumes(lives: seq<Life>, cfg: Config, o: SaveOutcome)
    requires IsHistory(OFF, lives)
    requires !Outcome(OFF, lives).up && Enabled(cfg, Outcome(OFF, lives), Restart(o))
    ensures var s := Outcome(OFF, lives);
      var s' := Next(cfg, s, Restart(o));
      if cfg.store && s.d.active.Some? && s.d.active.value in s.d.sessions && s.d.sessions[s.d.active.value].phase == Active
      then
        var was := s.d.sessions[s.d.active.value];
        && s'.m == Memory(Active, true, s.d.active, was.records, s'.m.photos, was.nextNumber, was.counters, false, [], 0)
        && |s'.m.photos| == |was.photos|
        && (forall i :: 0 <= i < |was.photos| ==> s'.m.photos[i] == Reviewed(was.photos[i], s.d.active.value, s.d.files))
        && s'.d.files == s.d.files - Unfinished(was.photos, s.d.active.value)
      else s'.m == BLANK && s'.d == s.d
  {
    Reachable(lives);
    var s := Outcome(OFF, lives);
    AnyConfig(Current(lives), cfg, s);
    hide IsHistory, Outcome;
    RestartResult(cfg, s, o);
  }

  lemma RestartResult(cfg: Config, s: System, o: SaveOutcome)
    requires Inv(cfg, s) && !s.up
    ensures var s' := StepRestart(cfg, s, o);
      if cfg.store && LoadActive(s.d).Some? then
        var was := LoadActive(s.d).value;
        && s.d.active == Some(was.sessionId)
        && s'.m == Memory(Active, true, s.d.active, was.records, s'.m.photos, was.nextNumber, was.counters, false, [], 0)
        && |s'.m.photos| == |was.photos|
        && (forall i :: 0 <= i < |was.photos| ==> s'.m.photos[i] == Reviewed(was.photos[i], was.sessionId, s.d.files))
        && s'.d.files == s.d.files - Unfinished(was.photos, was.sessionId)
      else s'.m == BLANK && s'.d == s.d
  {
    if cfg.store && LoadActive(s.d).Some? {
      var was := LoadActive(s.d).value;
      StoredNames(s.d, s.used, s.d.active.value);
      hide Inv, Persist, Reviewed, Unfinished, RecoverAll;
      RecoverExactly(was.photos, was.sessionId, s.d.files);
      RestoreIs(cfg, s.d, o);
      PersistEffect(cfg, Reborn(s.d).0, Reborn(s.d).1, o);
    }
  }

  // ----- what the readings of a session add up to -----

  /** `record` looks at a reading. */
  predicate Looks(s: System) {
    s.up && !s.m.fatal && s.m.phase == Active && s.m.accepting
  }

  ghost function Looked(cfg: Config, s: System, events: seq<Event>): seq<Reading>
    requires IsRun(cfg, s, events)
    decreases |events|
  {
    if events == [] then []
    else
      (if events[0].DoRecord? && Looks(s) then [events[0].reading] else [])
      + Looked(cfg, Next(cfg, s, events[0]), events[1..])
  }

  predicate IsRejected(r: Reading) { !r.accepted }
  predicate IsAccepted(r: Reading) { r.accepted }
  predicate IsSilent(r: Reading) { r.accepted && r.line.None? }
  predicate IsExported(r: Reading) { r.accepted && r.line.Some? }

  function Select(rs: seq<Reading>, p: Reading -> bool): (r: seq<Reading>)
    ensures forall i :: 0 <= i < |r| ==> p(r[i])
  {
    if rs == [] then [] else (if p(rs[0]) then [rs[0]] else []) + Select(rs[1..], p)
  }

  function Lines(rs: seq<Reading>): (r: seq<ExportRecord>)
    requires forall i :: 0 <= i < |rs| ==> rs[i].line.Some?
    ensures |r| == |rs| && forall i :: 0 <= i < |r| ==> r[i] == ExportRecord(rs[i].sequence, rs[i].line.value)
  {
    seq(|rs|, i requires 0 <= i < |rs| => ExportRecord(rs[i].sequence, rs[i].line.value))
  }

  /** The counters and records of `m'` are those of `m` with these readings added. */
  ghost predicate Adds(m: Memory, m': Memory, rs: seq<Reading>) {
    && m'.counters == Counters(
         m.counters.physical + |rs|,
         m.counters.rejected + |Select(rs, IsRejected)|,
         m.counters.f2Accepted + |Select(rs, IsAccepted)|,
         m.counters.notExportable + |Select(rs, IsSilent)|,
         m.counters.accepted + |Select(rs, IsExported)|)
    && m'.records == m.records + Lines(Select(rs, IsExported))
  }

  predicate ChangesSession(e: Event) {
    e.DoStart? || e.DoAbort? || e.Crash? || e.Restart? || e.RestartBroken?
  }

  lemma SelectCons(r: Reading, rs: seq<Reading>, p: Reading -> bool)
    ensures Select([r] + rs, p) == (if p(r) then [r] else []) + Select(rs, p)
  {
    assert ([r] + rs)[1..] == rs;
  }

  lemma AddsNothing(m: Memory, m': Memory)
    requires m'.counters == m.counters && m'.records == m.records
    ensures Adds(m, m', [])
  {
  }

  lemma AddsOne(m: Memory, m': Memory, m'': Memory, r: Reading, rs: seq<Reading>)
    requires m'.counters == Counted(m.counters, r)
    requires m'.records == m.records + (if IsExported(r) then [ExportRecord(r.sequence, r.line.value)] else [])
    requires Adds(m', m'', rs)
    ensures Adds(m, m'', [r] + rs)
  {
    SelectCons(r, rs, IsRejected);
    SelectCons(r, rs, IsAccepted);
    SelectCons(r, rs, IsSilent);
    SelectCons(r, rs, IsExported);
    hide Select;
    var all, more := Lines(Select([r] + rs, IsExported)), Lines(Select(rs, IsExported));
    assert all == (if IsExported(r) then [ExportRecord(r.sequence, r.line.value)] else []) + more;
  }

  lemma OneRecord(cfg: Config, s: System, r: Reading, photoId: string, o: SaveOutcome)
    requires Inv(cfg, s) && s.up
    ensures var m' := StepRecord(cfg, s, r, photoId, o).m;
      if Looks(s) then
        && m'.counters == Counted(s.m.counters, r)
        && m'.records == s.m.records + (if IsExported(r) then [ExportRecord(r.sequence, r.line.value)] else [])
      else m' == s.m
  {
    MemoryFacts(cfg, s);
    hide Inv, Persist, Counted, StepRecord;
    if !Looks(s) { RecordIgnored(cfg, s, r, photoId, o); }
    else if !r.accepted || r.line.None? { RecordCounted(cfg, s, r, photoId, o); }
    else { RecordAccepted(cfg, s, r, photoId, o); }
  }

  lemma OthersAddNothing(cfg: Config, s: System, e: Event)
    requires s.up && Enabled(cfg, s, e) && !ChangesSession(e) && !e.DoRecord?
    ensures Next(cfg, s, e).up
    ensures Next(cfg, s, e).m.counters == s.m.counters && Next(cfg, s, e).m.records == s.m.records
  {
    hide Persist, UpdatePhotos, AnyCapturing;
  }

  /** Between a start and whatever ends the session, the five counters and the records are exactly the tallies of
      the readings looked at: each is counted as rejected, as accepted without a line, or as accepted with a line,
      and the lines of the last kind are the records, in order. */
  lemma {:induction false} ReadingsAddUp(cfg: Config, s: System, events: seq<Event>)
    requires Inv(cfg, s) && s.up && IsRun(cfg, s, events)
    requires forall i :: 0 <= i < |events| ==> !ChangesSession(events[i])
    ensures Adds(s.m, After(cfg, s, events).m, Looked(cfg, s, events))
    decreases |events|
  {
    hide Inv, Next, Enabled, Adds;
    if events == [] {
      AddsNothing(s.m, s.m);
    } else {
      var e, rest := events[0], events[1..];
      var s' := Next(cfg, s, e);
      var later := Looked(cfg, s', rest);
      KeepsUp(cfg, s, e);
      OneEvent(cfg, s, e);
      ReadingsAddUp(cfg, s', rest);
      if e.DoRecord? && Looks(s) {
        AddsOne(s.m, s'.m, After(cfg, s', rest).m, e.reading, later);
      } else {
        AddsSame(s.m, s'.m, After(cfg, s', rest).m, later);
        assert [] + later == later;
      }
    }
  }

  lemma OneEvent(cfg: Config, s: System, e: Event)
    requires Inv(cfg, s) && s.up && Enabled(cfg, s, e) && !ChangesSession(e)
    ensures var s' := Next(cfg, s, e);
      && s'.up
      && (if e.DoRecord? && Looks(s) then
            && s'.m.counters == Counted(s.m.counters, e.reading)
            && s'.m.records == s.m.records
                 + (if IsExported(e.reading) then [ExportRecord(e.reading.sequence, e.reading.line.value)] else [])
          else s'.m.counters == s.m.counters && s'.m.records == s.m.records)
  {
    hide Inv, Counted, StepRecord, Looks;
    match e
    case DoRecord(r, photoId, o) =>
      OneRecord(cfg, s, r, photoId, o);
      RecordStaysUp(cfg, s, r, photoId, o);
    case _ => OthersAddNothing(cfg, s, e);
  }

  lemma RecordStaysUp(cfg: Config, s: System, r: Reading, photoId: string, o: SaveOutcome)
    ensures StepRecord(cfg, s, r, photoId, o).up == s.up
  {
    hide Record;
  }

  lemma AddsSame(m: Memory, m': Memory, m'': Memory, rs: seq<Reading>)
    requires m'.counters == m.counters && m'.records == m.records && Adds(m', m'', rs)
    ensures Adds(m, m'', rs)
  {
    hide Select, Lines;
  }

  // ----- start, abort, mark -----

  /** A start is refused, with no effect but a drawn id, exactly while a session is open; otherwise the new
      session is ACTIVE, accepting, empty and - if there is a store and it works - on disk and active. A fatal
      error of an earlier session stays. */
  lemma StartOutcome(cfg: Config, s: System, newId: string, o: SaveOutcome)
    requires Inv(cfg, s) && s.up && Enabled(cfg, s, DoStart(newId, o))
    ensures var s' := Next(cfg, s, DoStart(newId, o));
      if CanFinish(s.m) then s' == s.(used := s.used + {newId})
      else
        && s'.m.phase == Active && s'.m.accepting && s'.m.sessionId == Some(newId) && s'.m.fatal == s.m.fatal
        && s'.m.records == [] && s'.m.photos == [] && s'.m.nextNumber == 1 && s'.m.counters == ZERO
        && s'.m.queue == s.m.queue && s'.m.inflight == s.m.inflight
        && (cfg.store && o.Saved? ==>
              s'.d.active == Some(newId) && s'.d.sessions == s.d.sessions[newId := Stored(s'.m)])
  {
    hide Inv, Persist;
    PersistEffect(cfg, Memory(Active, true, Some(newId), [], [], 1, ZERO, s.m.fatal, s.m.queue, s.m.inflight), s.d, o);
  }

  /** A start can be withdrawn exactly while its session is ACTIVE and without records; it leaves no session, and
      the pointer is cleared if there is a store and that works. */
  lemma AbortOutcome(cfg: Config, s: System, cleared: bool)
    requires Inv(cfg, s) && s.up && Enabled(cfg, s, DoAbort(cleared))
    ensures var s' := Next(cfg, s, DoAbort(cleared));
      if s.m.phase != Active || s.m.records != [] then s' == s
      else
        && s'.m.phase == Idle && s'.m.sessionId.None? && !s'.m.accepting
        && s'.d == if cfg.store && cleared then s.d.(active := None) else s.d
  {
    hide Inv;
  }

  /** Marking reopens a FINISHED session for another finish, and leaves an idle service alone. */
  lemma MarkOutcome(cfg: Config, s: System, o: SaveOutcome)
    requires Inv(cfg, s) && s.up
    ensures var s' := Next(cfg, s, DoMark(o));
      if s.m.phase == Idle then s' == s
      else
        && s'.m == s.m.(phase := ExportFailed) && CanFinish(s'.m)
        && (cfg.store && o.Saved? ==>
              && s'.d.active.None?
              && s'.d.sessions == s.d.sessions[s.m.sessionId.value := Stored(s'.m)])
  {
    MemoryFacts(cfg, s);
    hide Inv, Persist;
    PersistEffect(cfg, s.m.(phase := ExportFailed), s.d, o);
  }

  // ----- a reading, and a finish, from beginning to end -----

  lemma RunCons(cfg: Config, s: System, e: Event, rest: seq<Event>)
    requires Enabled(cfg, s, e) && IsRun(cfg, Next(cfg, s, e), rest)
    ensures IsRun(cfg, s, [e] + rest) && After(cfg, s, [e] + rest) == After(cfg, Next(cfg, s, e), rest)
  {
    hide Next, Enabled;
    assert ([e] + rest)[1..] == rest;
  }

  /** With a camera and a store, nothing failing and the pipeline idle, an accepted reading ends as one more record
      and one more COMPLETE photo with its digest and its file, in memory and on disk, with the pipeline idle
      again. */
  lemma ReadingIsCaptured(cfg: Config, s: System, r: Reading, photoId: string, jpeg: Bytes)
    returns (events: seq<Event>)
    requires Inv(cfg, s) && Looks(s) && Quiet(s) && cfg.TakesPhotos()
    requires IsExported(r) && photoId !in s.used
    ensures IsRun(cfg, s, events)
    ensures var s' := After(cfg, s, events);
      && Looks(s') && Quiet(s') && s'.finisher == s.finisher
      && s'.m.records == s.m.records + [ExportRecord(r.sequence, r.line.value)]
      && s'.m.photos == s.m.photos + [NewPhoto(s.m, r, photoId).(
           status := Complete, digest := Some(Sha256(jpeg)), size := Some(|jpeg|))]
      && s'.m.sessionId == s.m.sessionId && s'.m.sessionId.Some?
      && s'.d.files == s.d.files[(s.m.sessionId.value, PhotoFileName(photoId, s.m.nextNumber)) := jpeg]
      && s'.m.sessionId.value in s'.d.sessions && s'.d.sessions[s'.m.sessionId.value] == Stored(s'.m)
  {
    MemoryFacts(cfg, s);
    hide Inv, Next, IsRun, After, SettledAs, PhotoFileName, Counted;
    var job := JobFor(NewPhoto(s.m, r, photoId), s.m.sessionId.value);
    var s1, s2, s3, s4 := ShotTaken(cfg, s, r, photoId, jpeg);
    var s5 := Next(cfg, s4, DoComplete(Saved));
    UpdateCompletes(cfg, s4, Saved);
    SaveKeepsFiles(cfg, s4, job, jpeg);
    LastPhotoSettled(s.m, s4.m, s5.m, job, NewPhoto(s.m, r, photoId), jpeg);
    ReleaseStep(cfg, s5, job);
    events := [DoRecord(r, photoId, Saved), DoPut(job), DoTake, DoShoot(Taken(jpeg)), DoComplete(Saved), DoRelease];
    SixEvents(cfg, s, s1, s2, s3, s4, s5, events[0], events[1], events[2], events[3], events[4], events[5]);
    SameStored(s5.m, Next(cfg, s5, DoRelease).m);
  }

  lemma ReleaseStep(cfg: Config, s: System, job: Job)
    requires s.up && s.worker == Done(job)
    ensures Enabled(cfg, s, DoRelease)
    ensures Next(cfg, s, DoRelease) == s.(m := s.m.(inflight := s.m.inflight - 1), worker := Waiting)
  {
  }

  lemma SameStored(m: Memory, m': Memory)
    requires m.sessionId.Some? && m' == m.(inflight := m'.inflight)
    ensures Stored(m') == Stored(m)
  {
  }

  lemma SaveKeepsFiles(cfg: Config, s: System, job: Job, jpeg: Bytes)
    requires s.up && s.worker == Wrote(job, jpeg)
    ensures var s' := Next(cfg, s, DoComplete(Saved));
      s'.d.files == s.d.files && s'.up && s'.pending == s.pending && s'.m.queue == s.m.queue && s'.finisher == s.finisher
      && s'.used == s.used
  {
    PersistEffect(cfg, s.m.(photos := UpdatePhotos(s.m.photos, job.photoId, Complete, Some(jpeg))), s.d, Saved);
    hide Persist;
  }

  lemma LastPhotoSettled(m: Memory, m4: Memory, m5: Memory, job: Job, p: Photo, jpeg: Bytes)
    requires m4.photos == m.photos + [p] && job.number == |m.photos| + 1
    requires SettledAs(m4, m5, job, Complete, Some(jpeg))
    ensures m5.photos == m.photos + [p.(status := Complete, digest := Some(Sha256(jpeg)), size := Some(|jpeg|))]
    ensures m5 == m4.(photos := m5.photos)
  {
  }

  lemma RecordStep(cfg: Config, s: System, r: Reading, photoId: string)
    requires Inv(cfg, s) && Looks(s) && Quiet(s) && cfg.TakesPhotos()
    requires IsExported(r) && photoId !in s.used && s.m.sessionId.Some?
    ensures var job := JobFor(NewPhoto(s.m, r, photoId), s.m.sessionId.value);
      var m := Photographed(s.m, r, photoId, Counted(s.m.counters, r));
      var e := DoRecord(r, photoId, Saved);
      && Enabled(cfg, s, e) && Inv(cfg, Next(cfg, s, e))
      && Next(cfg, s, e) == s.(m := m, d := Next(cfg, s, e).d, used := s.used + {photoId}, pending := {job})
      && Next(cfg, s, e).d.files == s.d.files && job.number == |s.m.photos| + 1
  {
    NextIsLength(cfg, s);
    hide Inv, Persist, Counted, StepRecord;
    RecordAccepted(cfg, s, r, photoId, Saved);
    PersistEffect(cfg, Photographed(s.m, r, photoId, Counted(s.m.counters, r)), s.d, Saved);
    assert {} + {JobFor(NewPhoto(s.m, r, photoId), s.m.sessionId.value)}
        == {JobFor(NewPhoto(s.m, r, photoId), s.m.sessionId.value)};
    KeepsUp(cfg, s, DoRecord(r, photoId, Saved));
  }

  lemma TakeStep(cfg: Config, s: System, job: Job)
    requires Inv(cfg, s) && s.up && s.pending == {job} && s.m.queue == [] && s.worker.Waiting?
    ensures Enabled(cfg, s, DoPut(job))
    ensures var s' := Next(cfg, s, DoPut(job));
      Enabled(cfg, s', DoTake)
      && Next(cfg, s', DoTake) == s.(pending := {}, worker := Holding(job)) && Inv(cfg, Next(cfg, s', DoTake))
  {
    hide Inv;
    var s' := Next(cfg, s, DoPut(job));
    assert {job} - {job} == {} && [] + [job] == [job] && [job][1..] == [];
    KeepsUp(cfg, s, DoPut(job));
    KeepsUp(cfg, s', DoTake);
  }

  /** The first four of the six events. */
  lemma ShotTaken(cfg: Config, s: System, r: Reading, photoId: string, jpeg: Bytes)
    returns (s1: System, s2: System, s3: System, s4: System)
    requires Inv(cfg, s) && Looks(s) && Quiet(s) && cfg.TakesPhotos()
    requires IsExported(r) && photoId !in s.used && s.m.sessionId.Some?
    ensures var job := JobFor(NewPhoto(s.m, r, photoId), s.m.sessionId.value);
      && Enabled(cfg, s, DoRecord(r, photoId, Saved)) && s1 == Next(cfg, s, DoRecord(r, photoId, Saved))
      && Enabled(cfg, s1, DoPut(job)) && s2 == Next(cfg, s1, DoPut(job))
      && Enabled(cfg, s2, DoTake) && s3 == Next(cfg, s2, DoTake)
      && Enabled(cfg, s3, DoShoot(Taken(jpeg))) && s4 == Next(cfg, s3, DoShoot(Taken(jpeg)))
      && Inv(cfg, s4) && s4.up && s4.worker == Wrote(job, jpeg) && s4.pending == {} && s4.m.queue == []
      && s4.finisher == s.finisher && job.number == |s.m.photos| + 1
      && s4.m == Photographed(s.m, r, photoId, Counted(s.m.counters, r))
      && s4.d.files == s.d.files[(job.sessionId, job.fileName) := jpeg]
  {
    hide Inv, Next, Counted, PhotoFileName;
    var job := JobFor(NewPhoto(s.m, r, photoId), s.m.sessionId.value);
    RecordStep(cfg, s, r, photoId);
    s1 := Next(cfg, s, DoRecord(r, photoId, Saved));
    TakeStep(cfg, s1, job);
    s2 := Next(cfg, s1, DoPut(job));
    s3 := Next(cfg, s2, DoTake);
    s4 := Next(cfg, s3, DoShoot(Taken(jpeg)));
    KeepsUp(cfg, s3, DoShoot(Taken(jpeg)));
    ShotIsWritten(cfg, s3, jpeg);
    ShotKeepsRest(cfg, s3, jpeg);
  }

  lemma ShotKeepsRest(cfg: Config, s: System, jpeg: Bytes)
    requires s.up && s.worker.Holding?
    ensures var s' := Next(cfg, s, DoShoot(Taken(jpeg)));
      s'.up && s'.pending == s.pending && s'.finisher == s.finisher && s'.used == s.used
  {
  }

  lemma NextIsLength(cfg: Config, s: System)
    requires Inv(cfg, s)
    ensures s.m.nextNumber == |s.m.photos| + 1
  {
    hide DiskOk, FilesPresent, PipelineOk, CapturingHasJob, QuietWhen, NotRevived, Matched, IdsUsed, Evidence;
  }

  lemma SixEvents(cfg: Config, s: System, s1: System, s2: System, s3: System, s4: System, s5: System,
                  e1: Event, e2: Event, e3: Event, e4: Event, e5: Event, e6: Event)
    requires Enabled(cfg, s, e1) && s1 == Next(cfg, s, e1)
    requires Enabled(cfg, s1, e2) && s2 == Next(cfg, s1, e2)
    requires Enabled(cfg, s2, e3) && s3 == Next(cfg, s2, e3)
    requires Enabled(cfg, s3, e4) && s4 == Next(cfg, s3, e4)
    requires Enabled(cfg, s4, e5) && s5 == Next(cfg, s4, e5)
    requires Enabled(cfg, s5, e6)
    ensures IsRun(cfg, s, [e1, e2, e3, e4, e5, e6])
    ensures After(cfg, s, [e1, e2, e3, e4, e5, e6]) == Next(cfg, s5, e6)
  {
    hide Next, Enabled;
    assert IsRun(cfg, Next(cfg, s5, e6), []);
    RunCons(cfg, s5, e6, []);
    assert [e6] + [] == [e6];
    RunCons(cfg, s4, e5, [e6]);
    assert [e5] + [e6] == [e5, e6];
    RunCons(cfg, s3, e4, [e5, e6]);
    assert [e4] + [e5, e6] == [e4, e5, e6];
    RunCons(cfg, s2, e3, [e4, e5, e6]);
    assert [e3] + [e4, e5, e6] == [e3, e4, e5, e6];
    RunCons(cfg, s1, e2, [e3, e4, e5, e6]);
    assert [e2] + [e3, e4, e5, e6] == [e2, e3, e4, e5, e6];
    RunCons(cfg, s, e1, [e2, e3, e4, e5, e6]);
    assert [e1] + [e2, e3, e4, e5, e6] == [e1, e2, e3, e4, e5, e6];
  }

  /** A finish of an open session with an idle pipeline and no fatal error gets to its last section, having only
      stopped the recording; with a fatal error it gives up there. */
  lemma FinishGetsThrough(cfg: Config, s: System) returns (events: seq<Event>)
    requires s.up && s.finisher.NotFinishing? && CanFinish(s.m) && Quiet(s) && s.m.inflight == 0
    ensures IsRun(cfg, s, events)
    ensures After(cfg, s, events)
      == s.(m := s.m.(accepting := false), finisher := if s.m.fatal then NotFinishing else AtLock)
  {
    hide IsRun, After;
    var s1 := Next(cfg, s, FinishBegin);
    var s2 := Next(cfg, s1, FinishCheck);
    if s.m.fatal {
      events := [FinishBegin, FinishCheck];
      Ends(cfg, s1, FinishCheck);
      RunCons(cfg, s, FinishBegin, [FinishCheck]);
      assert [FinishBegin] + [FinishCheck] == events;
    } else if !cfg.TakesPhotos() {
      events := [FinishBegin, FinishCheck, FinishCheck];
      Ends(cfg, s2, FinishCheck);
      RunCons(cfg, s1, FinishCheck, [FinishCheck]);
      assert [FinishCheck] + [FinishCheck] == [FinishCheck, FinishCheck];
      RunCons(cfg, s, FinishBegin, [FinishCheck, FinishCheck]);
      assert [FinishBegin] + [FinishCheck, FinishCheck] == events;
    } else {
      events := [FinishBegin, FinishCheck, FinishCheck, FinishCheck];
      var s3 := Next(cfg, s2, FinishCheck);
      Ends(cfg, s3, FinishCheck);
      RunCons(cfg, s2, FinishCheck, [FinishCheck]);
      assert [FinishCheck] + [FinishCheck] == [FinishCheck, FinishCheck];
      RunCons(cfg, s1, FinishCheck, [FinishCheck, FinishCheck]);
      assert [FinishCheck] + [FinishCheck, FinishCheck] == [FinishCheck, FinishCheck, FinishCheck];
      RunCons(cfg, s, FinishBegin, [FinishCheck, FinishCheck, FinishCheck]);
      assert [FinishBegin] + [FinishCheck, FinishCheck, FinishCheck] == events;
    }
  }

  lemma Ends(cfg: Config, s: System, e: Event)
    requires Enabled(cfg, s, e)
    ensures IsRun(cfg, s, [e]) && After(cfg, s, [e]) == Next(cfg, s, e)
  {
    hide Next, Enabled;
    assert IsRun(cfg, Next(cfg, s, e), []);
    RunCons(cfg, s, e, []);
    assert [e] + [] == [e];
  }
}
