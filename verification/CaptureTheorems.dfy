/** What holds in every run of the capture system. */
module CaptureTheorems {
  import opened Options
  import opened PhotoNames
  import opened CaptureModel
  import opened CaptureSystem
  import opened CaptureInvariant
  import opened CaptureSteps
  import opened CaptureDiskSteps
  import opened CaptureWorkerSteps

  lemma KeepsUp(cfg: Config, s: System, e: Event)
    requires Inv(cfg, s) && s.up && Enabled(cfg, s, e)
    ensures Inv(cfg, Next(cfg, s, e))
  {
    hide Inv, StepStart, StepAbort, StepRecord, StepPut, StepTake, StepShoot, StepComplete, StepUnlink, StepFail;
    hide StepBreak, StepRelease, StepFinishBegin, StepFinishCheck, StepFinishLast, StepMark, StepCrash;
    match e
    case DoStart(newId, o) => KeepsStart(cfg, s, newId, o);
    case DoAbort(cleared) => KeepsAbort(cfg, s, cleared);
    case DoRecord(r, photoId, o) => KeepsRecord(cfg, s, r, photoId, o);
    case DoPut(job) => KeepsPut(cfg, s, job);
    case DoTake => KeepsTake(cfg, s);
    case DoShoot(shot) => KeepsShoot(cfg, s, shot);
    case DoComplete(o) => KeepsComplete(cfg, s, o);
    case DoUnlink(removed) => KeepsUnlink(cfg, s, removed);
    case DoFail(o) => KeepsFail(cfg, s, o);
    case DoBreak => KeepsBreak(cfg, s);
    case DoRelease => KeepsRelease(cfg, s);
    case FinishBegin => KeepsFinishBegin(cfg, s);
    case FinishCheck => KeepsFinishCheck(cfg, s);
    case FinishLast(exported, o) => KeepsFinishLast(cfg, s, exported, o);
    case DoMark(o) => KeepsMark(cfg, s, o);
    case Crash => KeepsCrash(cfg, s);
  }

  lemma KeepsDown(cfg: Config, s: System, e: Event)
    requires Inv(cfg, s) && !s.up && Enabled(cfg, s, e)
    ensures Inv(cfg, Next(cfg, s, e))
  {
    hide Inv, StepRestartBroken, StepRestart;
    match e
    case RestartBroken(photosSeen, o) => KeepsRestartBroken(cfg, s, photosSeen, o);
    case Restart(o) => KeepsRestart(cfg, s, o);
  }

  /** Every reachable state satisfies the invariant, whatever the interleaving, failures and crashes. */
  lemma {:induction false} RunKeepsInv(cfg: Config, s: System, events: seq<Event>)
    requires Inv(cfg, s) && IsRun(cfg, s, events)
    ensures Inv(cfg, After(cfg, s, events))
    decreases |events|
  {
    hide Inv, Next, Enabled;
    if events != [] {
      if s.up { KeepsUp(cfg, s, events[0]); } else { KeepsDown(cfg, s, events[0]); }
      RunKeepsInv(cfg, Next(cfg, s, events[0]), events[1..]);
    }
  }

  /** While no process runs, the invariant does not depend on the configuration. */
  lemma AnyConfig(cfg: Config, cfg': Config, s: System)
    requires Inv(cfg, s) && !s.up
    ensures Inv(cfg', s)
  {
    hide DiskOk, MemoryOk, FilesPresent, PipelineOk, CapturingHasJob, NotRevived, Matched;
  }

  /** Every state of every history satisfies the invariant, though each process may be configured with or
      without a camera and a store. */
  lemma {:induction false} HistoryKeepsInv(cfg: Config, s: System, lives: seq<Life>)
    requires Inv(cfg, s) && IsHistory(s, lives)
    ensures Inv(if lives == [] then cfg else Current(lives), Outcome(s, lives))
    decreases |lives|
  {
    hide Inv, IsRun, After;
    if lives != [] {
      var life := lives[0];
      AnyConfig(cfg, life.cfg, s);
      RunKeepsInv(life.cfg, s, life.events);
      HistoryKeepsInv(life.cfg, After(life.cfg, s, life.events), lives[1..]);
    }
  }

  lemma Reachable(lives: seq<Life>)
    requires IsHistory(OFF, lives)
    ensures Inv(Current(lives), Outcome(OFF, lives))
  {
    hide Outcome, IsHistory;
    HistoryKeepsInv(Current([]), OFF, lives);
  }

  /** A run of one process on an empty disk is a history. */
  lemma RunsAreHistories(cfg: Config, events: seq<Event>)
    requires IsRun(cfg, INITIAL, events)
    ensures var lives := [Life(cfg, [Restart(Saved)] + events)];
      IsHistory(OFF, lives) && Outcome(OFF, lives) == After(cfg, INITIAL, events)
  {
    var all := [Restart(Saved)] + events;
    assert all[1..] == events && all[0] == Restart(Saved);
    assert Next(cfg, OFF, Restart(Saved)) == INITIAL;
    assert [Life(cfg, all)][1..] == [];
  }

  // ----- the photo pipeline -----

  /** In every reachable state the in-flight count is exact, and an unsettled photo has a job
      unless a fatal error is on record. */
  lemma PipelineIsExact(lives: seq<Life>)
    requires IsHistory(OFF, lives)
    ensures var s := Outcome(OFF, lives);
      && s.m.inflight == |s.pending| + |s.m.queue| + (if s.worker.Waiting? then 0 else 1)
      && (!s.m.fatal ==>
            forall i :: 0 <= i < |s.m.photos| && s.m.photos[i].status == Capturing ==> HasLiveJob(s, i + 1))
  {
    Reachable(lives);
    hide DiskOk, MemoryOk, FilesPresent, Matched, NotRevived, QuietWhen, JobsOk, JobsFresh, IsRun;
  }

  /** The `capture_photos_not_terminal` guard is unreachable, and a FINISHED session, in memory
      or stored, has only terminal photos and no job left. */
  lemma FinishedIsTerminal(lives: seq<Life>)
    requires IsHistory(OFF, lives)
    ensures var s := Outcome(OFF, lives);
      && (s.finisher.AtLock? ==> !AnyCapturing(s.m.photos))
      && (s.m.phase == Finished ==> AllTerminal(s.m.photos) && InFlight(s) == iset{})
      && (forall id :: id in s.d.sessions && s.d.sessions[id].phase == Finished ==>
            AllTerminal(s.d.sessions[id].photos))
  {
    Reachable(lives);
    var s := Outcome(OFF, lives);
    if s.finisher.AtLock? && s.up { GuardNeverFires(Current(lives), s); }
    hide FilesPresent, Matched, NotRevived, JobsOk, JobsFresh, IsRun, PipelineOk, CapturingHasJob;
    hide Numbered, IdsUsed, CountsAgree, Evidence;
  }

  /** Every reading looked at is counted once and every accepted one is recorded, in memory and on disk. */
  lemma CountsAreConserved(lives: seq<Life>)
    requires IsHistory(OFF, lives)
    ensures var s := Outcome(OFF, lives);
      && (s.m.phase != Idle ==> CountsAgree(s.m.counters, s.m.records))
      && (forall id :: id in s.d.sessions ==> CountsAgree(s.d.sessions[id].counters, s.d.sessions[id].records))
  {
    Reachable(lives);
    hide FilesPresent, Matched, NotRevived, IsRun, PipelineOk, CapturingHasJob, QuietWhen;
    hide Numbered, IdsUsed, CountsAgree, Evidence, AllTerminal;
  }

  // ----- crash and restart -----

  /** Every COMPLETE photo has its file, with the recorded digest and size. */
  ghost predicate EvidenceComplete(photos: seq<Photo>, dir: string, files: Files) {
    forall i :: 0 <= i < |photos| && photos[i].status == Complete ==>
      && (dir, photos[i].fileName) in files
      && photos[i].digest == Some(Sha256(files[(dir, photos[i].fileName)]))
      && photos[i].size == Some(|files[(dir, photos[i].fileName)]|)
  }

  /** Whatever happened before - crashes inside a save, a photo write, a finish or an earlier restart
      included - a restart, be it with another configuration, that brings a session back has only terminal
      photos, evidence for every COMPLETE one, and photos numbered 1..n with n+1 next. */
  lemma RestartIsSafe(lives: seq<Life>, cfg: Config, o: SaveOutcome)
    requires IsHistory(OFF, lives)
    requires !Outcome(OFF, lives).up && Enabled(cfg, Outcome(OFF, lives), Restart(o))
    ensures var s := Next(cfg, Outcome(OFF, lives), Restart(o));
      s.m.phase != Idle ==>
        && s.m.phase == Active && s.m.sessionId.Some?
        && AllTerminal(s.m.photos)
        && EvidenceComplete(s.m.photos, s.m.sessionId.value, s.d.files)
        && Numbered(s.m.photos, s.m.nextNumber)
        && s.m.sessionId.value in s.d.sessions && s.d.sessions[s.m.sessionId.value] == Stored(s.m)
  {
    Reachable(lives);
    var s0 := Outcome(OFF, lives);
    AnyConfig(Current(lives), cfg, s0);
    var s := Next(cfg, s0, Restart(o));
    KeepsRestart(cfg, s0, o);
    RestoredSession(cfg, s0, o);
    hide DiskOk, Matched, NotRevived, IsHistory, PipelineOk, CapturingHasJob, QuietWhen;
    hide Numbered, IdsUsed, CountsAgree, AllTerminal, Restore;
  }

  lemma RestoredSession(cfg: Config, s: System, o: SaveOutcome)
    requires Inv(cfg, s) && !s.up && Enabled(cfg, s, Restart(o))
    ensures var s' := StepRestart(cfg, s, o);
      s'.m.phase != Idle ==>
        && s'.worker.Waiting? && s'.m.phase == Active && s'.m.sessionId.Some? && AllTerminal(s'.m.photos)
        && s'.m.sessionId.value in s'.d.sessions && s'.d.sessions[s'.m.sessionId.value] == Stored(s'.m)
  {
    hide DiskOk, MemoryOk, Matched, FilesPresent, Restore, Reborn, Persist, LoadActive, AllTerminal;
    RestoreIs(cfg, s.d, o);
    if cfg.store && LoadActive(s.d).Some? {
      RebornShape(s.d);
      RebornMemory(s.d, s.used);
      PersistEffect(cfg, Reborn(s.d).0, Reborn(s.d).1, o);
    }
  }

  // ----- a session that has left ACTIVE on disk never comes back -----

  ghost predicate ClosedOnDisk(d: Disk, id: string) {
    id in d.sessions && d.sessions[id].phase != Active
  }

  lemma SaveKeepsClosed(cfg: Config, m: Memory, d: Disk, o: SaveOutcome, id: string)
    requires ClosedOnDisk(d, id)
    requires !(m.phase == Active && m.sessionId == Some(id))
    ensures ClosedOnDisk(Persist(cfg, m, d, o), id)
  {
    PersistEffect(cfg, m, d, o);
    hide Persist;
  }

  lemma ClosedStaysClosed(cfg: Config, s: System, e: Event, id: string)
    requires Inv(cfg, s) && Enabled(cfg, s, e) && ClosedOnDisk(s.d, id)
    ensures ClosedOnDisk(Next(cfg, s, e).d, id)
  {
    hide MemoryOk, Matched, FilesPresent, Persist, PipelineOk, CapturingHasJob, QuietWhen, StoredOk;
    hide Restore, RecoverAll, UpdatePhotos, AnyCapturing;
    match e
    case DoStart(newId, o) =>
      SaveKeepsClosed(cfg, Memory(Active, true, Some(newId), [], [], 1, ZERO, s.m.fatal, s.m.queue, s.m.inflight),
                      s.d, o, id);
    case DoRecord(r, photoId, o) => RecordKeepsClosed(cfg, s, r, photoId, o, id);
    case DoComplete(o) =>
      SaveKeepsClosed(cfg, s.m.(photos := UpdatePhotos(s.m.photos, s.worker.job.photoId, Complete, Some(s.worker.jpeg))),
                      s.d, o, id);
    case DoFail(o) =>
      SaveKeepsClosed(cfg, s.m.(photos := UpdatePhotos(s.m.photos, s.worker.job.photoId, PhotoFailed, None)),
                      s.d, o, id);
    case FinishLast(exported, o) =>
      SaveKeepsClosed(cfg, s.m.(phase := Finished), s.d, o, id);
      SaveKeepsClosed(cfg, s.m.(phase := ExportFailed), s.d, o, id);
    case DoMark(o) => SaveKeepsClosed(cfg, s.m.(phase := ExportFailed), s.d, o, id);
    case Restart(o) => RestoreKeepsClosed(cfg, s.d, o, id);
    case RestartBroken(photosSeen, o) => RestoreKeepsClosed(cfg, s.d, o, id);
    case _ =>
  }

  lemma RecordKeepsClosed(cfg: Config, s: System, r: Reading, photoId: string, o: SaveOutcome, id: string)
    requires NotRevived(s) && ClosedOnDisk(s.d, id)
    ensures ClosedOnDisk(StepRecord(cfg, s, r, photoId, o).d, id)
  {
    hide Persist, Counted, StepRecord, ClosedOnDisk;
    var m := s.m;
    if m.fatal || m.phase != Active || !m.accepting {
      RecordIgnored(cfg, s, r, photoId, o);
    } else if !r.accepted || r.line.None? {
      RecordCounted(cfg, s, r, photoId, o);
      NotThisOne(s, id);
      SaveKeepsClosed(cfg, m.(counters := Counted(m.counters, r)), s.d, o, id);
    } else if m.sessionId.Some? {
      RecordAccepted(cfg, s, r, photoId, o);
      NotThisOne(s, id);
      SaveKeepsClosed(cfg, Photographed(m, r, photoId, Counted(m.counters, r)), s.d, o, id);
    } else {
      RecordWithoutSession(cfg, s, r, photoId, o);
    }
  }

  lemma RecordWithoutSession(cfg: Config, s: System, r: Reading, photoId: string, o: SaveOutcome)
    requires s.m.sessionId.None?
    ensures StepRecord(cfg, s, r, photoId, o).d == s.d
  {
  }

  lemma NotThisOne(s: System, id: string)
    requires NotRevived(s) && ClosedOnDisk(s.d, id) && s.m.phase == Active
    ensures s.m.sessionId != Some(id)
  {
  }

  lemma RestoreKeepsClosed(cfg: Config, d: Disk, o: SaveOutcome, id: string)
    requires ClosedOnDisk(d, id)
    requires forall k :: k in d.sessions ==> d.sessions[k].sessionId == k
    ensures ClosedOnDisk(Restore(cfg, d, o).d, id)
  {
    hide Persist, RecoverAll;
    RestoreIs(cfg, d, o);
    if cfg.store && LoadActive(d).Some? {
      SaveKeepsClosed(cfg, Reborn(d).0, Reborn(d).1, o, id);
    }
  }

  lemma {:induction false} RunKeepsClosed(cfg: Config, s: System, events: seq<Event>, id: string)
    requires Inv(cfg, s) && ClosedOnDisk(s.d, id) && IsRun(cfg, s, events)
    ensures ClosedOnDisk(After(cfg, s, events).d, id)
    decreases |events|
  {
    hide Inv, Next, Enabled, ClosedOnDisk;
    if events != [] {
      var e := events[0];
      ClosedStaysClosed(cfg, s, e, id);
      if s.up { KeepsUp(cfg, s, e); } else { KeepsDown(cfg, s, e); }
      RunKeepsClosed(cfg, Next(cfg, s, e), events[1..], id);
    }
  }

  lemma {:induction false} HistoryKeepsClosed(cfg: Config, s: System, lives: seq<Life>, id: string)
    requires Inv(cfg, s) && ClosedOnDisk(s.d, id) && IsHistory(s, lives)
    ensures ClosedOnDisk(Outcome(s, lives).d, id)
    decreases |lives|
  {
    hide Inv, IsRun, After, ClosedOnDisk;
    if lives != [] {
      var life := lives[0];
      AnyConfig(cfg, life.cfg, s);
      RunKeepsClosed(life.cfg, s, life.events, id);
      RunKeepsInv(life.cfg, s, life.events);
      HistoryKeepsClosed(life.cfg, After(life.cfg, s, life.events), lives[1..], id);
    }
  }

  /** A session stored as FINISHED or EXPORT_FAILED is never stored as ACTIVE again, and no process -
      running or restarted, under whatever configuration - ever has it ACTIVE in memory. */
  lemma FinishedIsNeverRevived(cfg: Config, s: System, events: seq<Event>, lives: seq<Life>, id: string)
    requires Inv(cfg, s) && ClosedOnDisk(s.d, id) && IsRun(cfg, s, events)
    requires IsHistory(After(cfg, s, events), lives)
    ensures var s' := Outcome(After(cfg, s, events), lives);
      ClosedOnDisk(s'.d, id) && !(s'.m.phase == Active && s'.m.sessionId == Some(id))
  {
    hide DiskOk, MemoryOk, Matched, FilesPresent, PipelineOk, CapturingHasJob, QuietWhen, IsRun, After, IsHistory, Outcome;
    var s1 := After(cfg, s, events);
    RunKeepsInv(cfg, s, events);
    RunKeepsClosed(cfg, s, events, id);
    HistoryKeepsClosed(cfg, s1, lives, id);
    HistoryKeepsInv(cfg, s1, lives);
  }

  // ----- failed metadata writes -----

  lemma {:induction false} CameraPhotographsRun(cfg: Config, s: System, events: seq<Event>)
    requires cfg.TakesPhotos() && IsRun(cfg, s, events)
    ensures After(cfg, s, events).unphotographed == s.unphotographed
    decreases |events|
  {
    hide Start, AbortStart, Record, UpdatePhoto, FinishLocked, MarkExportFailed, Restore, RecoverAll;
    if events != [] {
      CameraPhotographsRun(cfg, Next(cfg, s, events[0]), events[1..]);
    }
  }

  /** Nothing is recorded without a photo as long as every process takes photos. */
  lemma {:induction false} CamerasPhotographAll(s: System, lives: seq<Life>)
    requires IsHistory(s, lives) && forall i :: 0 <= i < |lives| ==> lives[i].cfg.TakesPhotos()
    ensures Outcome(s, lives).unphotographed == s.unphotographed
    decreases |lives|
  {
    hide IsRun, After;
    if lives != [] {
      var life := lives[0];
      CameraPhotographsRun(life.cfg, s, life.events);
      CamerasPhotographAll(After(life.cfg, s, life.events), lives[1..]);
    }
  }

  /** As long as no metadata write fails and no process records without photos, records and photos match
      one to one, in memory and on disk. */
  lemma RecordsMatchPhotos(lives: seq<Life>)
    requires IsHistory(OFF, lives) && !Loose(Outcome(OFF, lives))
    ensures var s := Outcome(OFF, lives);
      && OneToOne(s.m.records, s.m.photos)
      && (forall id :: id in s.d.sessions ==> OneToOne(s.d.sessions[id].records, s.d.sessions[id].photos))
  {
    Reachable(lives);
    hide DiskOk, MemoryOk, FilesPresent, NotRevived, IsRun, PipelineOk, CapturingHasJob, QuietWhen;
    hide OneToOne;
  }

  /** An accepted reading keeps the match exactly when its metadata is saved; otherwise the record is
      left without a photo and the fatal flag is up. */
  lemma MatchKeptIffSaved(cfg: Config, s: System, r: Reading, photoId: string, o: SaveOutcome)
    requires Inv(cfg, s) && s.up && photoId !in s.used && cfg.TakesPhotos()
    requires !s.m.fatal && s.m.phase == Active && s.m.accepting && r.accepted && r.line.Some?
    requires OneToOne(s.m.records, s.m.photos)
    ensures var s' := Next(cfg, s, DoRecord(r, photoId, o));
      && (OneToOne(s'.m.records, s'.m.photos) <==> o.Saved?)
      && (!o.Saved? ==> s'.m.fatal && !s'.m.accepting && s'.m.photos == s.m.photos
                        && s'.m.records == s.m.records + [ExportRecord(r.sequence, r.line.value)]
                        && s'.m.inflight == s.m.inflight && s'.pending == s.pending)
  {
    MemoryFacts(cfg, s);
    hide Inv, Persist, CountsAgree;
    RecordAccepted(cfg, s, r, photoId, o);
    if o.Saved? { PhotographedMatched(s.m, r, photoId, Counted(s.m.counters, r)); }
  }

  /** The service has met a fatal pipeline error in an open session that has records. */
  ghost predicate Stranded(s: System) {
    s.up && s.m.fatal && !s.m.accepting && CanFinish(s.m) && s.m.records != []
  }

  lemma StrandedStep(cfg: Config, s: System, e: Event)
    requires Inv(cfg, s) && Stranded(s) && Enabled(cfg, s, e) && !e.Crash?
    ensures Stranded(Next(cfg, s, e)) && Next(cfg, s, e).m.records == s.m.records
  {
    hide DiskOk, MemoryOk, Matched, FilesPresent, Persist, PipelineOk, CapturingHasJob, NotRevived;
    hide UpdatePhotos, AnyCapturing, Numbered;
    match e
    case DoRecord(r, photoId, o) => RecordIgnored(cfg, s, r, photoId, o);
    case _ =>
  }

  lemma RecordFatal(cfg: Config, s: System, r: Reading, photoId: string, o: SaveOutcome)
    requires s.up && !s.m.fatal && StepRecord(cfg, s, r, photoId, o).m.fatal
    requires s.m.phase == Active ==> s.m.sessionId.Some?
    ensures Stranded(StepRecord(cfg, s, r, photoId, o))
  {
    hide Persist, StepRecord, Counted;
    if s.m.phase != Active || !s.m.accepting { RecordIgnored(cfg, s, r, photoId, o); }
    else if !r.accepted || r.line.None? { RecordCounted(cfg, s, r, photoId, o); }
    else { RecordAccepted(cfg, s, r, photoId, o); }
  }

  lemma BreakStrands(cfg: Config, s: System)
    requires Inv(cfg, s) && s.up && s.worker.Breaking?
    ensures Stranded(StepBreak(s, s.worker.job))
  {
    hide DiskOk, Matched, FilesPresent, CapturingHasJob, NotRevived, PipelineOk;
    hide Numbered, IdsUsed, CountsAgree, Evidence, AllTerminal;
    WorkerBusy(cfg, s);
  }

  /** How the fatal flag comes up: from the worker, or from a failed metadata write. */
  lemma FatalMeansStranded(cfg: Config, s: System, e: Event)
    requires Inv(cfg, s) && s.up && Enabled(cfg, s, e) && !s.m.fatal && Next(cfg, s, e).m.fatal
    ensures Stranded(Next(cfg, s, e))
  {
    hide Inv, Persist, UpdatePhotos, AnyCapturing, StepRecord, Stranded;
    match e
    case DoRecord(r, photoId, o) =>
      MemoryFacts(cfg, s);
      RecordFatal(cfg, s, r, photoId, o);
    case DoBreak => BreakStrands(cfg, s);
    case _ =>
  }

  /** A fatal error is permanent: until the process dies, no reading is recorded, no new session
      starts and the session is never finished. */
  lemma {:induction false} FatalIsPermanent(cfg: Config, s: System, events: seq<Event>)
    requires Inv(cfg, s) && Stranded(s) && IsRun(cfg, s, events) && Crash !in events
    ensures var s' := After(cfg, s, events);
      Stranded(s') && s'.m.records == s.m.records && s'.m.phase != Finished
    decreases |events|
  {
    hide Inv, Next, Enabled;
    if events != [] {
      var e := events[0];
      assert e in events;
      StrandedStep(cfg, s, e);
      KeepsUp(cfg, s, e);
      assert Crash !in events[1..];
      FatalIsPermanent(cfg, Next(cfg, s, e), events[1..]);
    }
  }

  // ----- what is on disk after an accepted reading -----

  /** An accepted reading is on disk at once exactly when a camera is configured beside the store. */
  lemma AcceptedIsStoredIffCamera(cfg: Config, s: System, r: Reading, photoId: string)
    requires Inv(cfg, s) && s.up && photoId !in s.used && cfg.store
    requires !s.m.fatal && s.m.phase == Active && s.m.accepting && r.accepted && r.line.Some?
    requires s.m.sessionId.Some? && s.m.sessionId.value in s.d.sessions
    requires s.d.sessions[s.m.sessionId.value] == Stored(s.m)
    ensures var s' := Next(cfg, s, DoRecord(r, photoId, Saved));
      s'.m.sessionId == s.m.sessionId && s'.m.sessionId.value in s'.d.sessions
      && (s'.d.sessions[s'.m.sessionId.value] == Stored(s'.m) <==> cfg.camera)
  {
    hide Inv, Persist;
    RecordAccepted(cfg, s, r, photoId, Saved);
    if cfg.camera {
      PersistEffect(cfg, Photographed(s.m, r, photoId, Counted(s.m.counters, r)), s.d, Saved);
    } else {
      assert |s.m.records + [ExportRecord(r.sequence, r.line.value)]| != |s.m.records|;
    }
  }
}
