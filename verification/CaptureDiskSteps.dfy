/** Each event that writes to the disk keeps the capture invariant. */
module CaptureDiskSteps {
  import opened Options
  import opened PhotoNames
  import opened CaptureModel
  import opened CaptureSystem
  import opened CaptureInvariant
  import opened CaptureSteps

  // ----- saving the session -----

  ghost predicate DiskMatched(d: Disk, loose: bool) {
    !loose ==>
      forall id :: id in d.sessions ==> OneToOne(d.sessions[id].records, d.sessions[id].photos)
  }

  /** What must hold of the memory that is about to be saved. */
  ghost predicate Savable(m: Memory, d: Disk, used: set<string>, loose: bool) {
    && DiskOk(d, used)
    && DiskMatched(d, loose)
    && MemoryOk(m, d.files, used)
    && (!loose ==> OneToOne(m.records, m.photos))
    && (m.phase == Active && m.sessionId.Some? && m.sessionId.value in d.sessions ==>
          d.sessions[m.sessionId.value].phase == Active)
  }

  lemma MatchedParts(s: System)
    requires Matched(s)
    ensures DiskMatched(s.d, Loose(s))
    ensures !Loose(s) ==> OneToOne(s.m.records, s.m.photos)
  {
    hide OneToOne;
  }

  lemma PersistSession(cfg: Config, m: Memory, d: Disk, o: SaveOutcome, used: set<string>, loose: bool)
    requires Savable(m, d, used, loose)
    ensures Savable(m, Persist(cfg, m, d, o), used, loose)
    ensures Persist(cfg, m, d, o).files == d.files
  {
    PersistEffect(cfg, m, d, o);
    hide Numbered, IdsUsed, CountsAgree, Evidence, AllTerminal, OneToOne, Save, Persist;
    if Persists(cfg, m) {
      assert StoredOk(Stored(m), d.files, used);
    }
  }

  /** The invariant of a state whose memory has just been saved. */
  lemma SavedSession(s: System)
    requires Savable(s.m, s.d, s.used, Loose(s))
    requires FilesPresent(s.m, s.d.files, s.worker)
    ensures SessionInv(s)
  {
    hide DiskOk, MemoryOk, FilesPresent, OneToOne;
  }

  lemma UsedGrows(d: Disk, used: set<string>, more: set<string>)
    requires DiskOk(d, used) && used <= more
    ensures DiskOk(d, more)
  {
    hide Numbered, CountsAgree, Evidence, AllTerminal;
  }

  lemma MemoryUsedGrows(m: Memory, files: Files, used: set<string>, more: set<string>)
    requires MemoryOk(m, files, used) && used <= more
    ensures MemoryOk(m, files, more)
  {
    hide Numbered, CountsAgree, Evidence, AllTerminal;
  }

  // ----- jobs across a save -----

  lemma SaveKeepsFresh(cfg: Config, m: Memory, d: Disk, o: SaveOutcome, jobs: iset<Job>)
    requires JobsOk(m, jobs) && JobsFresh(m, d, jobs)
    ensures JobsFresh(m, Persist(cfg, m, d, o), jobs)
  {
    PersistEffect(cfg, m, d, o);
    hide Persist;
  }

  lemma SamePhotosJobs(m: Memory, m': Memory, d: Disk, jobs: iset<Job>, untouched: iset<Job>)
    requires m'.photos == m.photos && m'.sessionId == m.sessionId
    requires JobsOk(m, jobs) && JobsFresh(m, d, untouched)
    ensures JobsOk(m', jobs) && JobsFresh(m', d, untouched)
  {
  }

  lemma FewerJobs(m: Memory, d: Disk, jobs: iset<Job>, jobs': iset<Job>)
    requires jobs' <= jobs
    ensures JobsOk(m, jobs) ==> JobsOk(m, jobs')
    ensures JobsFresh(m, d, jobs) ==> JobsFresh(m, d, jobs')
  {
  }

  // ----- start -----

  lemma StartSession(cfg: Config, s: System, newId: string, o: SaveOutcome)
    requires SessionInv(s) && newId !in s.used
    requires s.m.phase == Idle || s.m.phase == Finished
    ensures SessionInv(StepStart(cfg, s, newId, o))
  {
    hide DiskOk, MemoryOk, Matched, NotRevived, FilesPresent, DiskMatched, OneToOne, Persist;
    var s' := StepStart(cfg, s, newId, o);
    var m := Memory(Active, true, Some(newId), [], [], 1, ZERO, s.m.fatal, s.m.queue, s.m.inflight);
    MatchedParts(s);
    UsedGrows(s.d, s.used, s'.used);
    NewIdUnstored(s.d, s.used, newId);
    FreshMemory(m, s.d.files, s'.used);
    EmptySession(m, s'.d.files, s.worker);
    PersistSession(cfg, m, s.d, o, s'.used, Loose(s));
    SavedSession(s');
  }

  lemma EmptySession(m: Memory, files: Files, w: Worker)
    requires m.records == [] && m.photos == []
    ensures OneToOne(m.records, m.photos) && FilesPresent(m, files, w)
  {
  }

  lemma KeepsStart(cfg: Config, s: System, newId: string, o: SaveOutcome)
    requires Inv(cfg, s) && s.up && s.finisher.NotFinishing? && newId !in s.used
    ensures Inv(cfg, StepStart(cfg, s, newId, o))
  {
    hide DiskOk, MemoryOk, FilesPresent, Matched, NotRevived, Persist;
    if s.m.phase == Idle || s.m.phase == Finished {
      var s' := StepStart(cfg, s, newId, o);
      StartSession(cfg, s, newId, o);
      hide PipelineOk;
      NoJobs(s');
    } else {
      assert StepStart(cfg, s, newId, o) == s.(used := s.used + {newId});
      MoreUsed(cfg, s, s.used + {newId});
    }
  }

  lemma NewIdUnstored(d: Disk, used: set<string>, id: string)
    requires DiskOk(d, used) && id !in used
    ensures id !in d.sessions
  {
    hide StoredOk;
  }

  lemma FreshMemory(m: Memory, files: Files, used: set<string>)
    requires m.phase == Active && m.sessionId.Some? && m.sessionId.value in used
    requires m.records == [] && m.photos == [] && m.nextNumber == 1 && m.counters == ZERO
    ensures MemoryOk(m, files, used)
  {
  }

  lemma MoreUsed(cfg: Config, s: System, more: set<string>)
    requires Inv(cfg, s) && s.used <= more
    ensures Inv(cfg, s.(used := more))
  {
    hide DiskOk, MemoryOk, FilesPresent, OneToOne, CapturingHasJob;
    hide JobsOk, JobsFresh, WorkerFile, Unshared, Live, InFlight, Untouched;
    var s' := s.(used := more);
    UsedGrows(s.d, s.used, more);
    MemoryUsedGrows(s.m, s.d.files, s.used, more);
    SameJobSets(s, s');
    FrameLive(s, s');
  }

  lemma SameJobSets(s: System, s': System)
    requires s'.pending == s.pending && s'.worker == s.worker && s'.m.queue == s.m.queue
    ensures InFlight(s') == InFlight(s) && Live(s') == Live(s) && Untouched(s') == Untouched(s)
  {
  }

  // ----- sections that leave the photos alone -----

  /** The memory is replaced, then saved; photos, jobs and the pipeline are as before. */
  ghost predicate SamePipeline(s: System, m: Memory) {
    m.photos == s.m.photos && m.sessionId == s.m.sessionId && m.queue == s.m.queue && m.inflight == s.m.inflight
  }

  lemma SavePipeline(cfg: Config, s: System, m: Memory, o: SaveOutcome)
    requires PipelineOk(s) && SamePipeline(s, m)
    ensures PipelineOk(s.(m := m, d := Persist(cfg, m, s.d, o)))
  {
    hide JobsOk, JobsFresh, Unshared, WorkerFile, InFlight, Untouched, Live, Persist;
    var s' := s.(m := m, d := Persist(cfg, m, s.d, o));
    SameJobSets(s, s');
    SamePhotosJobs(s.m, m, s.d, InFlight(s), Untouched(s));
    UntouchedInFlight(s);
    FewerJobs(m, s.d, InFlight(s), Untouched(s));
    SaveKeepsFresh(cfg, m, s.d, o, Untouched(s));
    PersistEffect(cfg, m, s.d, o);
  }

  lemma UntouchedInFlight(s: System)
    ensures Untouched(s) <= InFlight(s)
  {
  }

  lemma KeepsSave(cfg: Config, s: System, m: Memory, o: SaveOutcome)
    requires Inv(cfg, s) && s.up && SamePipeline(s, m)
    requires m.records == s.m.records && m.nextNumber == s.m.nextNumber && m.fatal == s.m.fatal
    requires m.accepting == s.m.accepting
    requires m.phase == s.m.phase || (m.phase == ExportFailed && s.m.phase != Idle)
             || (m.phase == Finished && s.m.phase != Idle && AllTerminal(s.m.photos) && Quiet(s))
    requires m.counters == s.m.counters || CountsAgree(m.counters, m.records)
    ensures Inv(cfg, s.(m := m, d := Persist(cfg, m, s.d, o)))
  {
    hide DiskOk, Matched, FilesPresent, OneToOne, CapturingHasJob, PipelineOk, DiskMatched;
    hide Numbered, IdsUsed, CountsAgree, Evidence, AllTerminal, Live, Persist;
    var s' := s.(m := m, d := Persist(cfg, m, s.d, o));
    MatchedParts(s);
    PersistSession(cfg, m, s.d, o, s.used, Loose(s));
    FilesFrame(s.m, m, s.d.files, s.worker);
    SavedSession(s');
    SavePipeline(cfg, s, m, o);
    SameJobSets(s, s');
    FrameLive(s, s');
  }

  lemma FilesFrame(m: Memory, m': Memory, files: Files, w: Worker)
    requires FilesPresent(m, files, w) && m'.photos == m.photos && m'.sessionId == m.sessionId
    requires m.phase == Idle ==> m'.phase == Idle
    ensures FilesPresent(m', files, w)
  {
  }

  lemma KeepsMark(cfg: Config, s: System, o: SaveOutcome)
    requires Inv(cfg, s) && s.up
    ensures Inv(cfg, StepMark(cfg, s, o))
  {
    hide Inv, Persist;
    if s.m.phase != Idle {
      KeepsSave(cfg, s, s.m.(phase := ExportFailed), o);
    }
  }

  /** The guard in `finish` never fires: when the last section runs, every photo is terminal. */
  lemma GuardNeverFires(cfg: Config, s: System)
    requires Inv(cfg, s) && s.up && s.finisher.AtLock?
    ensures AllTerminal(s.m.photos) && !AnyCapturing(s.m.photos)
  {
    hide DiskOk, MemoryOk, FilesPresent, Matched, NotRevived, PipelineOk;
    forall i | 0 <= i < |s.m.photos| ensures s.m.photos[i].status != Capturing {
      assert Live(s) == iset{};
      assert !HasLiveJob(s, i + 1);
    }
  }

  /** The finisher may leave at any time; what it wrote elsewhere is not part of the invariant. */
  lemma KeepsLeaving(cfg: Config, s: System, written: set<(string, seq<ExportRecord>)>)
    requires Inv(cfg, s) && s.up
    ensures Inv(cfg, s.(finisher := NotFinishing, written := written))
  {
    hide DiskOk, MemoryOk, FilesPresent, OneToOne, CapturingHasJob, AllTerminal;
    hide JobsOk, JobsFresh, WorkerFile, Unshared, Live, InFlight, Untouched;
    var s' := s.(finisher := NotFinishing, written := written);
    SameJobSets(s, s');
    FrameLive(s, s');
  }

  lemma KeepsFinishLast(cfg: Config, s: System, exported: bool, o: SaveOutcome)
    requires Inv(cfg, s) && s.up && s.finisher.AtLock?
    ensures Inv(cfg, StepFinishLast(cfg, s, exported, o))
  {
    hide Inv, Persist, AllTerminal, AnyCapturing, CanFinish;
    GuardNeverFires(cfg, s);
    QuietAtLock(cfg, s);
    var s1 := With(s, FinishLocked(cfg, s.m, s.d, exported, o));
    var phase := if s.m.records == [] || exported then Finished else ExportFailed;
    if CanFinish(s.m) {
      OpenWhenFinishing(s.m);
      KeepsSave(cfg, s, s.m.(phase := phase), o);
    } else {
      assert s1 == s;
    }
    KeepsLeaving(cfg, s1, StepFinishLast(cfg, s, exported, o).written);
  }

  lemma QuietAtLock(cfg: Config, s: System)
    requires Inv(cfg, s) && s.finisher.AtLock?
    ensures Quiet(s)
  {
    hide DiskOk, MemoryOk, FilesPresent, Matched, NotRevived, PipelineOk, CapturingHasJob;
  }

  lemma OpenWhenFinishing(m: Memory)
    requires CanFinish(m)
    ensures m.phase != Idle
  {
  }

  // ----- record -----

  /** Readings that take no photo. */
  lemma KeepsCounting(cfg: Config, s: System, c: Counters, o: SaveOutcome)
    requires Inv(cfg, s) && s.up && CountsAgree(c, s.m.records)
    ensures Inv(cfg, s.(m := s.m.(counters := c), d := Persist(cfg, s.m.(counters := c), s.d, o)))
  {
    hide Inv, Persist;
    KeepsSave(cfg, s, s.m.(counters := c), o);
  }

  /** Without a camera, or without a store, an accepted reading only grows the records in memory. */
  lemma KeepsUnphotographed(cfg: Config, s: System, r: ExportRecord, c: Counters)
    requires Inv(cfg, s) && s.up && !cfg.TakesPhotos() && s.m.phase == Active
    requires CountsAgree(c, s.m.records + [r])
    ensures Inv(cfg, s.(m := s.m.(counters := c, records := s.m.records + [r]), unphotographed := true))
  {
    hide DiskOk, OneToOne;
    hide Numbered, IdsUsed, CountsAgree, Evidence, AllTerminal, Live, JobsOk, JobsFresh, Unshared, WorkerFile;
    var s' := s.(m := s.m.(counters := c, records := s.m.records + [r]), unphotographed := true);
    SameJobSets(s, s');
    SamePhotosJobs(s.m, s'.m, s.d, InFlight(s), Untouched(s));
    FrameLive(s, s');
  }

  /** The memory once the new photo is listed. */
  ghost function Photographed(m: Memory, r: Reading, photoId: string, c: Counters): Memory
    requires r.line.Some?
  {
    m.(counters := c,
       records := m.records + [ExportRecord(r.sequence, r.line.value)],
       photos := m.photos + [NewPhoto(m, r, photoId)],
       nextNumber := m.nextNumber + 1,
       inflight := m.inflight + 1)
  }

  lemma PhotographedMemory(m: Memory, r: Reading, photoId: string, c: Counters, files: Files, used: set<string>)
    requires r.line.Some? && MemoryOk(m, files, used) && photoId !in used && m.phase == Active
    requires CountsAgree(c, m.records + [ExportRecord(r.sequence, r.line.value)])
    ensures MemoryOk(Photographed(m, r, photoId, c), files, used + {photoId})
  {
    hide CountsAgree;
    var m' := Photographed(m, r, photoId, c);
    assert Numbered(m'.photos, m'.nextNumber);
  }

  lemma PhotographedMatched(m: Memory, r: Reading, photoId: string, c: Counters)
    requires r.line.Some? && OneToOne(m.records, m.photos)
    ensures OneToOne(Photographed(m, r, photoId, c).records, Photographed(m, r, photoId, c).photos)
  {
  }

  lemma PhotographedFiles(m: Memory, r: Reading, photoId: string, c: Counters, files: Files, w: Worker)
    requires r.line.Some? && FilesPresent(m, files, w)
    ensures FilesPresent(Photographed(m, r, photoId, c), files, w)
  {
  }

  /** Listing the new photo and saving, whether or not the save raises. */
  lemma PhotographSession(cfg: Config, s: System, r: Reading, photoId: string, c: Counters, o: SaveOutcome, failed: bool)
    requires SessionInv(s) && s.m.phase == Active && cfg.TakesPhotos() && r.line.Some? && photoId !in s.used
    requires CountsAgree(c, s.m.records + [ExportRecord(r.sequence, r.line.value)])
    requires Loose(s) ==> failed
    ensures var m := Photographed(s.m, r, photoId, c);
            Savable(m, Persist(cfg, m, s.d, o), s.used + {photoId}, failed)
            && FilesPresent(m, s.d.files, s.worker)
  {
    hide DiskOk, MemoryOk, Matched, FilesPresent, OneToOne, Persist, CountsAgree;
    var m := Photographed(s.m, r, photoId, c);
    var used := s.used + {photoId};
    MatchedParts(s);
    UsedGrows(s.d, s.used, used);
    PhotographedMemory(s.m, r, photoId, c, s.d.files, s.used);
    PhotographedFiles(s.m, r, photoId, c, s.d.files, s.worker);
    if !Loose(s) { PhotographedMatched(s.m, r, photoId, c); }
    PersistSession(cfg, m, s.d, o, used, failed);
  }

  lemma NewJobUnshared(s: System, job: Job)
    requires PipelineOk(s) && job.number > |s.m.photos|
    ensures Unshared(s.pending + {job}, s.m.queue, s.worker)
    ensures job !in s.pending
  {
    hide JobsFresh, WorkerFile, CountExact;
    forall a | a in InFlight(s) ensures a.number < job.number { assert JobOk(s.m, a); }
    assert forall i :: 0 <= i < |s.m.queue| ==> s.m.queue[i] in Queued(s.m.queue);
    assert forall i :: 0 <= i < |s.m.queue| ==> s.m.queue[i] in InFlight(s);
  }

  lemma LongerPhotosJobs(m: Memory, m': Memory, d: Disk, jobs: iset<Job>, untouched: iset<Job>)
    requires m.photos <= m'.photos && m'.sessionId == m.sessionId
    requires JobsOk(m, jobs) && JobsFresh(m, d, untouched)
    ensures JobsOk(m', jobs) && JobsFresh(m', d, untouched)
  {
  }

  lemma ShorterPhotosJobs(m: Memory, m': Memory, d: Disk, d': Disk, jobs: iset<Job>, untouched: iset<Job>)
    requires m.photos <= m'.photos && m'.sessionId == m.sessionId && untouched <= jobs
    requires JobsOk(m, jobs) && JobsFresh(m, d, untouched) && JobsFresh(m', d', untouched)
    ensures JobsFresh(m, d', untouched)
  {
  }

  lemma PhotographJobs(cfg: Config, s: System, m: Memory, o: SaveOutcome)
    requires PipelineOk(s) && s.m.photos <= m.photos && m.sessionId == s.m.sessionId
    ensures JobsOk(m, InFlight(s)) && JobsFresh(m, Persist(cfg, m, s.d, o), Untouched(s))
  {
    hide JobsOk, JobsFresh, Unshared, WorkerFile, InFlight, Untouched, Persist;
    UntouchedInFlight(s);
    LongerPhotosJobs(s.m, m, s.d, InFlight(s), Untouched(s));
    FewerJobs(m, s.d, InFlight(s), Untouched(s));
    SaveKeepsFresh(cfg, m, s.d, o, Untouched(s));
  }

  lemma NewJobOk(cfg: Config, m: Memory, r: Reading, photoId: string, c: Counters, d: Disk, o: SaveOutcome)
    requires r.line.Some? && m.sessionId.Some? && m.phase == Active && cfg.store && o.Saved?
    requires m.nextNumber == |m.photos| + 1
    ensures var m' := Photographed(m, r, photoId, c);
            var job := JobFor(NewPhoto(m, r, photoId), m.sessionId.value);
            JobOk(m', job) && JobFresh(m', Persist(cfg, m', d, o), job)
  {
    hide Persist;
    PersistEffect(cfg, Photographed(m, r, photoId, c), d, o);
  }

  lemma OneMoreJob(m: Memory, d: Disk, jobs: iset<Job>, job: Job)
    ensures JobsOk(m, jobs) && JobOk(m, job) ==> JobsOk(m, jobs + iset{job})
    ensures JobsFresh(m, d, jobs) && JobFresh(m, d, job) ==> JobsFresh(m, d, jobs + iset{job})
  {
  }

  lemma MoreCapturing(s: System, s': System, job: Job)
    requires CapturingHasJob(s) && s'.m.fatal == s.m.fatal
    requires Live(s') == Live(s) + iset{job}
    requires |s'.m.photos| == |s.m.photos| + 1 && s.m.photos <= s'.m.photos && job.number == |s'.m.photos|
    ensures CapturingHasJob(s')
  {
    hide Live;
    forall i | 0 <= i < |s'.m.photos| && s'.m.photos[i].status == Capturing && !s'.m.fatal
      ensures HasLiveJob(s', i + 1)
    {
      if i < |s.m.photos| {
        assert s.m.photos[i].status == Capturing;
        var live :| live in Live(s) && live.number == i + 1;
        assert live in Live(s');
      } else {
        assert job in Live(s');
      }
    }
  }

  lemma PhotographPipeline(cfg: Config, s: System, r: Reading, photoId: string, c: Counters, o: SaveOutcome)
    requires PipelineOk(s) && CapturingHasJob(s) && s.m.phase == Active && s.m.sessionId.Some?
    requires cfg.TakesPhotos() && r.line.Some? && o.Saved? && s.m.nextNumber == |s.m.photos| + 1
    ensures var m := Photographed(s.m, r, photoId, c);
            var s' := s.(m := m, d := Persist(cfg, m, s.d, o), used := s.used + {photoId},
                         pending := s.pending + {JobFor(NewPhoto(s.m, r, photoId), s.m.sessionId.value)});
            PipelineOk(s') && CapturingHasJob(s')
  {
    hide JobsOk, JobsFresh, Unshared, WorkerFile, Persist, JobOk, JobFresh, CapturingHasJob;
    var m := Photographed(s.m, r, photoId, c);
    var job := JobFor(NewPhoto(s.m, r, photoId), s.m.sessionId.value);
    var s' := s.(m := m, d := Persist(cfg, m, s.d, o), used := s.used + {photoId}, pending := s.pending + {job});
    PhotographJobs(cfg, s, m, o);
    NewJobOk(cfg, s.m, r, photoId, c, s.d, o);
    OneMoreJob(m, s'.d, InFlight(s), job);
    OneMoreJob(m, s'.d, Untouched(s), job);
    NewJobUnshared(s, job);
    PersistEffect(cfg, m, s.d, o);
    OneMorePending(s, s', job);
    MoreCapturing(s, s', job);
  }

  lemma OneMorePending(s: System, s': System, job: Job)
    requires s'.pending == s.pending + {job} && s'.m.queue == s.m.queue && s'.worker == s.worker
    ensures InFlight(s') == InFlight(s) + iset{job}
    ensures Untouched(s') == Untouched(s) + iset{job}
    ensures Live(s') == Live(s) + iset{job}
  {
    hide Queued;
  }

  lemma KeepsPhotograph(cfg: Config, s: System, r: Reading, photoId: string, c: Counters, o: SaveOutcome)
    requires Inv(cfg, s) && s.up && s.m.phase == Active && s.m.accepting && s.m.sessionId.Some?
    requires cfg.TakesPhotos() && r.line.Some? && o.Saved? && photoId !in s.used
    requires CountsAgree(c, s.m.records + [ExportRecord(r.sequence, r.line.value)])
    ensures var m := Photographed(s.m, r, photoId, c);
            Inv(cfg, s.(m := m, d := Persist(cfg, m, s.d, o), used := s.used + {photoId},
                        pending := s.pending + {JobFor(NewPhoto(s.m, r, photoId), s.m.sessionId.value)}))
  {
    hide DiskOk, Matched, FilesPresent, PipelineOk, CapturingHasJob, NotRevived, Savable;
    hide Persist, CountsAgree, IdsUsed, Evidence, AllTerminal;
    var m := Photographed(s.m, r, photoId, c);
    var s' := s.(m := m, d := Persist(cfg, m, s.d, o), used := s.used + {photoId},
                 pending := s.pending + {JobFor(NewPhoto(s.m, r, photoId), s.m.sessionId.value)});
    PhotographSession(cfg, s, r, photoId, c, o, Loose(s));
    PersistEffect(cfg, m, s.d, o);
    SavedSession(s');
    PhotographPipeline(cfg, s, r, photoId, c, o);
  }

  /** The metadata write failed: the record stays, the photo and its job are taken back. */
  lemma KeepsMetadataFailure(cfg: Config, s: System, r: Reading, photoId: string, c: Counters, o: SaveOutcome)
    requires Inv(cfg, s) && s.up && s.m.phase == Active && s.m.accepting
    requires cfg.TakesPhotos() && r.line.Some? && photoId !in s.used
    requires CountsAgree(c, s.m.records + [ExportRecord(r.sequence, r.line.value)])
    ensures var m := Photographed(s.m, r, photoId, c);
            var m1 := s.m.(counters := c, records := m.records, fatal := true, accepting := false);
            Inv(cfg, s.(m := m1, d := Persist(cfg, m, s.d, o), used := s.used + {photoId}, metadataFailed := true))
  {
    hide DiskOk, FilesPresent, OneToOne, MemoryOk, Persist, CountsAgree, CapturingHasJob;
    hide JobsOk, JobsFresh, Unshared, WorkerFile, Live, InFlight, Untouched;
    var m := Photographed(s.m, r, photoId, c);
    var m1 := s.m.(counters := c, records := m.records, fatal := true, accepting := false);
    var s' := s.(m := m1, d := Persist(cfg, m, s.d, o), used := s.used + {photoId}, metadataFailed := true);
    PhotographSession(cfg, s, r, photoId, c, o, true);
    PersistEffect(cfg, m, s.d, o);
    RolledBackMemory(s.m, m1, c, s.d.files, s.used, s'.used);
    FilesFrame(s.m, m1, s.d.files, s.worker);
    PhotographJobs(cfg, s, m, o);
    UntouchedInFlight(s);
    SamePhotosJobs(s.m, m1, s.d, InFlight(s), Untouched(s));
    ShorterPhotosJobs(m1, m, s.d, s'.d, InFlight(s), Untouched(s));
    SameJobSets(s, s');
    FatalNeedsNoJob(s');
  }

  lemma FatalNeedsNoJob(s: System)
    requires s.m.fatal
    ensures CapturingHasJob(s)
  {
  }

  lemma RolledBackMemory(m: Memory, m1: Memory, c: Counters, files: Files, used: set<string>, more: set<string>)
    requires MemoryOk(m, files, used) && used <= more && m.phase == Active
    requires m1.phase == m.phase && m1.sessionId == m.sessionId && m1.photos == m.photos
    requires m1.nextNumber == m.nextNumber && |m1.records| == |m.records| + 1
    requires m1.counters == c && CountsAgree(c, m1.records)
    ensures MemoryOk(m1, files, more)
  {
    hide Numbered, CountsAgree, Evidence, AllTerminal;
  }

  /** The counters after a reading that is looked at. */
  function Counted(c: Counters, r: Reading): Counters {
    if !r.accepted then c.(physical := c.physical + 1, rejected := c.rejected + 1)
    else if r.line.None? then
      c.(physical := c.physical + 1, f2Accepted := c.f2Accepted + 1, notExportable := c.notExportable + 1)
    else c.(physical := c.physical + 1, f2Accepted := c.f2Accepted + 1, accepted := c.accepted + 1)
  }

  lemma RecordIgnored(cfg: Config, s: System, r: Reading, photoId: string, o: SaveOutcome)
    requires s.m.fatal || s.m.phase != Active || !s.m.accepting
    ensures StepRecord(cfg, s, r, photoId, o) == s.(used := s.used + {photoId})
  {
    assert s.pending + {} == s.pending;
  }

  lemma RecordCounted(cfg: Config, s: System, r: Reading, photoId: string, o: SaveOutcome)
    requires !s.m.fatal && s.m.phase == Active && s.m.accepting && (!r.accepted || r.line.None?)
    ensures var m := s.m.(counters := Counted(s.m.counters, r));
            StepRecord(cfg, s, r, photoId, o)
            == s.(m := m, d := Persist(cfg, m, s.d, o)).(used := s.used + {photoId})
  {
    hide Persist;
    assert s.pending + {} == s.pending;
  }

  lemma RecordAccepted(cfg: Config, s: System, r: Reading, photoId: string, o: SaveOutcome)
    requires !s.m.fatal && s.m.phase == Active && s.m.accepting && r.accepted && r.line.Some?
    requires s.m.sessionId.Some?
    ensures var c := Counted(s.m.counters, r);
            var m := Photographed(s.m, r, photoId, c);
            var used := s.used + {photoId};
            StepRecord(cfg, s, r, photoId, o)
            == if !cfg.TakesPhotos() then
                 s.(m := s.m.(counters := c, records := m.records), unphotographed := true).(used := used)
               else if o.Saved? then
                 s.(m := m, d := Persist(cfg, m, s.d, o), used := used,
                    pending := s.pending + {JobFor(NewPhoto(s.m, r, photoId), s.m.sessionId.value)})
               else
                 s.(m := s.m.(counters := c, records := m.records, fatal := true, accepting := false),
                    d := Persist(cfg, m, s.d, o), used := used, metadataFailed := true)
  {
    hide Persist;
    assert s.pending + {} == s.pending;
  }

  lemma CountedAgree(c: Counters, r: Reading, records: seq<ExportRecord>)
    requires CountsAgree(c, records)
    ensures if r.accepted && r.line.Some?
            then CountsAgree(Counted(c, r), records + [ExportRecord(r.sequence, r.line.value)])
            else CountsAgree(Counted(c, r), records)
  {
  }

  lemma KeepsRecord(cfg: Config, s: System, r: Reading, photoId: string, o: SaveOutcome)
    requires Inv(cfg, s) && s.up && photoId !in s.used
    ensures Inv(cfg, StepRecord(cfg, s, r, photoId, o))
  {
    hide Inv, Persist, StepRecord, CountsAgree, Counted;
    MemoryFacts(cfg, s);
    var used := s.used + {photoId};
    var c := Counted(s.m.counters, r);
    if s.m.fatal || s.m.phase != Active || !s.m.accepting {
      RecordIgnored(cfg, s, r, photoId, o);
      MoreUsed(cfg, s, used);
    } else {
      CountedAgree(s.m.counters, r, s.m.records);
      if !r.accepted || r.line.None? {
        RecordCounted(cfg, s, r, photoId, o);
        KeepsCounting(cfg, s, c, o);
        MoreUsed(cfg, s.(m := s.m.(counters := c), d := Persist(cfg, s.m.(counters := c), s.d, o)), used);
      } else {
        RecordAccepted(cfg, s, r, photoId, o);
        if !cfg.TakesPhotos() {
          var e := ExportRecord(r.sequence, r.line.value);
          KeepsUnphotographed(cfg, s, e, c);
          MoreUsed(cfg, s.(m := s.m.(counters := c, records := s.m.records + [e]), unphotographed := true), used);
        } else if o.Saved? {
          KeepsPhotograph(cfg, s, r, photoId, c, o);
        } else {
          KeepsMetadataFailure(cfg, s, r, photoId, c, o);
        }
      }
    }
  }

  lemma MemoryFacts(cfg: Config, s: System)
    requires Inv(cfg, s)
    ensures s.m.phase != Idle ==> s.m.sessionId.Some? && CountsAgree(s.m.counters, s.m.records)
  {
    hide DiskOk, Matched, FilesPresent, PipelineOk, CapturingHasJob, NotRevived, QuietWhen;
    hide Numbered, IdsUsed, Evidence, AllTerminal;
  }
}
