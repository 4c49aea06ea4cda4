/** Each event keeps the capture invariant. */
module CaptureSteps {
  import opened Options
  import opened PhotoNames
  import opened CaptureModel
  import opened CaptureSystem
  import opened CaptureInvariant

  // ----- events that only move jobs or flags -----

  /** The session fields of the memory, and everything durable, are as before. */
  ghost predicate SameSession(s: System, s': System) {
    && s'.up == s.up && s'.d == s.d && s'.used == s.used && s'.metadataFailed == s.metadataFailed
    && s'.unphotographed == s.unphotographed
    && s'.m.phase == s.m.phase && s'.m.sessionId == s.m.sessionId && s'.m.records == s.m.records
    && s'.m.photos == s.m.photos && s'.m.nextNumber == s.m.nextNumber && s'.m.counters == s.m.counters
  }

  ghost predicate SessionInv(s: System) {
    && DiskOk(s.d, s.used)
    && MemoryOk(s.m, s.d.files, s.used)
    && FilesPresent(s.m, s.d.files, s.worker)
    && NotRevived(s)
    && Matched(s)
  }

  lemma FrameSession(s: System, s': System)
    requires SessionInv(s) && SameSession(s, s')
    requires s.worker.Unlinked? && s'.worker != s.worker ==>
               (1 <= s.worker.job.number <= |s.m.photos|
                && s.m.photos[s.worker.job.number - 1].status != Complete)
    ensures SessionInv(s')
  {
    hide Numbered, IdsUsed, CountsAgree, Evidence, AllTerminal, StoredOk, OneToOne;
  }

  /** Jobs stay valid when only the queue, the flags or the in-flight count change. */
  lemma FrameJobs(s: System, s': System)
    requires JobsOk(s.m, InFlight(s)) && InFlight(s') <= InFlight(s)
    requires JobsFresh(s.m, s.d, Untouched(s)) && Untouched(s') <= Untouched(s)
    requires SameSession(s, s')
    ensures JobsOk(s'.m, InFlight(s')) && JobsFresh(s'.m, s'.d, Untouched(s'))
  {
    hide InFlight, Untouched;
  }

  lemma FrameLive(s: System, s': System)
    requires CapturingHasJob(s) && s'.m.photos == s.m.photos
    requires s'.m.fatal || (s'.m.fatal == s.m.fatal && Live(s) <= Live(s'))
    ensures CapturingHasJob(s')
  {
    hide Live;
  }

  lemma PutUnshared(pending: set<Job>, queue: seq<Job>, w: Worker, job: Job)
    requires Unshared(pending, queue, w) && job in pending
    ensures Unshared(pending - {job}, queue + [job], w)
  {
    var q := queue + [job];
    forall a, i | a in pending - {job} && 0 <= i < |q| ensures a.number != q[i].number {
      if i == |queue| { assert q[i] == job; } else { assert q[i] == queue[i]; }
    }
  }

  lemma QueuedAppend(q: seq<Job>, job: Job)
    ensures Queued(q + [job]) == Queued(q) + iset{job}
  {
  }

  lemma KeepsPut(cfg: Config, s: System, job: Job)
    requires Inv(cfg, s) && s.up && job in s.pending
    ensures Inv(cfg, StepPut(s, job))
  {
    hide DiskOk, MemoryOk, FilesPresent, NotRevived, Matched;
    hide JobsOk, JobsFresh, WorkerFile, CapturingHasJob, Unshared, Queued;
    var s' := StepPut(s, job);
    QueuedAppend(s.m.queue, job);
    FrameSession(s, s');
    FrameJobs(s, s');
    FrameLive(s, s');
    PutUnshared(s.pending, s.m.queue, s.worker, job);
  }

  lemma KeepsTake(cfg: Config, s: System)
    requires Inv(cfg, s) && s.up && s.worker.Waiting? && s.m.queue != []
    ensures Inv(cfg, StepTake(s))
  {
    hide DiskOk, MemoryOk, FilesPresent, NotRevived, Matched;
    hide JobsOk, JobsFresh, WorkerFile, CapturingHasJob, Unshared, Queued;
    var s' := StepTake(s);
    QueuedHead(s.m.queue);
    FrameSession(s, s');
    FrameJobs(s, s');
    FrameLive(s, s');
    TakeUnshared(s.pending, s.m.queue, s.worker);
    NoWorkerFile(s'.worker, s'.d.files);
  }

  lemma NoWorkerFile(w: Worker, files: Files)
    requires !w.Wrote? && !w.Unlinked?
    ensures WorkerFile(w, files)
  {
  }

  lemma QueuedHead(q: seq<Job>)
    requires q != []
    ensures Queued(q) == iset{q[0]} + Queued(q[1..])
  {
    assert q == [q[0]] + q[1..];
  }

  lemma TakeUnshared(pending: set<Job>, queue: seq<Job>, w: Worker)
    requires Unshared(pending, queue, w) && queue != [] && w.Waiting?
    ensures Unshared(pending, queue[1..], Holding(queue[0]))
  {
  }

  lemma KeepsBreak(cfg: Config, s: System)
    requires Inv(cfg, s) && s.up && s.worker.Breaking?
    ensures Inv(cfg, StepBreak(s, s.worker.job))
  {
    hide DiskOk, MemoryOk, FilesPresent, NotRevived, Matched;
    hide JobsOk, JobsFresh, WorkerFile, CapturingHasJob, Queued;
    var s' := StepBreak(s, s.worker.job);
    FrameSession(s, s');
    FrameJobs(s, s');
    FrameLive(s, s');
    NoWorkerFile(s'.worker, s'.d.files);
  }

  lemma KeepsRelease(cfg: Config, s: System)
    requires Inv(cfg, s) && s.up && s.worker.Done?
    ensures Inv(cfg, StepRelease(s))
  {
    hide DiskOk, MemoryOk, FilesPresent, NotRevived, Matched;
    hide JobsOk, JobsFresh, WorkerFile, CapturingHasJob, Queued;
    var s' := StepRelease(s);
    FrameSession(s, s');
    FrameJobs(s, s');
    FrameLive(s, s');
    NoWorkerFile(s'.worker, s'.d.files);
  }

  /** Steps of the finisher change only its own position and, at the start, the accepting flag. */
  lemma KeepsFinisher(cfg: Config, s: System, accepting: bool, finisher: Finisher)
    requires Inv(cfg, s) && s.up
    requires QuietWhen(cfg, s.(m := s.m.(accepting := accepting), finisher := finisher))
    ensures Inv(cfg, s.(m := s.m.(accepting := accepting), finisher := finisher))
  {
    hide DiskOk, MemoryOk, FilesPresent, NotRevived, Matched;
    hide JobsOk, JobsFresh, WorkerFile, CapturingHasJob, Queued, Unshared, QuietWhen;
    var s' := s.(m := s.m.(accepting := accepting), finisher := finisher);
    FrameSession(s, s');
    FrameJobs(s, s');
    FrameLive(s, s');
  }

  lemma KeepsFinishBegin(cfg: Config, s: System)
    requires Inv(cfg, s) && s.up && s.finisher.NotFinishing?
    ensures Inv(cfg, StepFinishBegin(s))
  {
    if CanFinish(s.m) {
      KeepsFinisher(cfg, s, false, CheckFatal);
    }
  }

  lemma FinishCheckQuiet(cfg: Config, s: System)
    requires QuietWhen(cfg, s) && CountExact(s)
    ensures QuietWhen(cfg, StepFinishCheck(cfg, s))
  {
  }

  lemma KeepsFinishCheck(cfg: Config, s: System)
    requires Inv(cfg, s) && s.up && (s.finisher.CheckFatal? || s.finisher.CheckIdle? || s.finisher.Recheck?)
    ensures Inv(cfg, StepFinishCheck(cfg, s))
  {
    var s' := StepFinishCheck(cfg, s);
    assert s' == s.(m := s.m.(accepting := s.m.accepting), finisher := s'.finisher);
    hide QuietWhen, DiskOk, MemoryOk, FilesPresent, NotRevived, Matched, CapturingHasJob;
    hide JobsOk, JobsFresh, WorkerFile, Unshared, CountExact;
    FinishCheckQuiet(cfg, s);
    KeepsFinisher(cfg, s, s.m.accepting, s'.finisher);
  }

  lemma KeepsCrash(cfg: Config, s: System)
    requires Inv(cfg, s) && s.up
    ensures Inv(cfg, StepCrash(s))
  {
    hide DiskOk, StoredOk, PipelineOk, MemoryOk;
    var s' := StepCrash(s);
    BlankMemory(s.d.files, s.used);
    NoJobs(s');
  }

  lemma BlankMemory(files: Files, used: set<string>)
    ensures MemoryOk(BLANK, files, used)
  {
  }

  lemma NoJobsWithoutPhotos(s: System)
    requires JobsOk(s.m, InFlight(s)) && s.m.photos == []
    ensures Quiet(s)
  {
    hide JobsOk;
    if job :| job in InFlight(s) {
      NoJobWithoutPhoto(s.m, InFlight(s), job);
    }
    assert forall job :: job in s.pending ==> job in InFlight(s);
    if s.m.queue != [] { QueuedNonempty(s.m.queue); }
  }

  lemma NoJobWithoutPhoto(m: Memory, jobs: iset<Job>, job: Job)
    requires JobsOk(m, jobs) && job in jobs
    ensures m.photos != []
  {
  }

  lemma QueuedNonempty(q: seq<Job>)
    requires q != []
    ensures Queued(q) != iset{}
  {
    assert q[0] in Queued(q);
  }

  lemma KeepsAbort(cfg: Config, s: System, cleared: bool)
    requires Inv(cfg, s) && s.up && s.finisher.NotFinishing?
    ensures Inv(cfg, StepAbort(cfg, s, cleared))
  {
    hide StoredOk, JobsOk, JobsFresh, Unshared;
    if s.m.phase == Active && s.m.records == [] {
      NoJobsWithoutPhotos(s);
      var s' := StepAbort(cfg, s, cleared);
      assert InFlight(s') == iset{} && Untouched(s') == iset{};
      NoJobs(s');
    }
  }

  lemma NoJobs(s: System)
    requires Quiet(s) && s.m.inflight == 0
    ensures PipelineOk(s)
  {
  }
}
