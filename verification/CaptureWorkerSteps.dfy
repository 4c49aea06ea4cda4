/** Each step of the photo worker, and each restart, keeps the capture invariant. */
module CaptureWorkerSteps {
  import opened Options
  import opened PhotoNames
  import opened CaptureModel
  import opened CaptureSystem
  import opened CaptureInvariant
  import opened CaptureSteps
  import opened CaptureDiskSteps

  // ----- file names separate photos -----

  /** Two photos that share a file name have the same number. */
  lemma NameMeansNumber(photos: seq<Photo>, nextNumber: nat, i: nat, photos': seq<Photo>, nextNumber': nat, j: nat)
    requires Numbered(photos, nextNumber) && i < |photos|
    requires Numbered(photos', nextNumber') && j < |photos'|
    requires photos[i].fileName == photos'[j].fileName
    ensures i == j
  {
    NamesDiffer(photos[i].id, i + 1, photos'[j].id, j + 1);
  }

  /** Writing a photo file disturbs no COMPLETE photo, as the one photo with that name is not COMPLETE. */
  lemma PutKeepsEvidence(photos: seq<Photo>, nextNumber: nat, dir: string, files: Files,
                         mine: seq<Photo>, nextMine: nat, k: nat, key: (string, string), content: Bytes)
    requires Numbered(photos, nextNumber) && Evidence(photos, dir, files)
    requires Numbered(mine, nextMine) && k < |mine| && key.1 == mine[k].fileName
    requires dir == key.0 && k < |photos| ==> photos[k].status != Complete
    ensures Evidence(photos, dir, files[key := content])
  {
    forall i | 0 <= i < |photos| && photos[i].status == Complete
      ensures (dir, photos[i].fileName) != key
    {
      if (dir, photos[i].fileName) == key {
        NameMeansNumber(photos, nextNumber, i, mine, nextMine, k);
      }
    }
  }

  /** Removing a photo file can only lose files, never change one. */
  lemma FewerFilesEvidence(photos: seq<Photo>, dir: string, files: Files, files': Files)
    requires Evidence(photos, dir, files)
    requires files'.Keys <= files.Keys && forall k :: k in files' ==> files'[k] == files[k]
    ensures Evidence(photos, dir, files')
  {
  }

  lemma FewerFilesDisk(d: Disk, files': Files, used: set<string>)
    requires DiskOk(d, used)
    requires files'.Keys <= d.files.Keys && forall k :: k in files' ==> files'[k] == d.files[k]
    ensures DiskOk(d.(files := files'), used)
  {
    hide Evidence, Numbered, IdsUsed, CountsAgree, AllTerminal;
    forall id | id in d.sessions
      ensures StoredOk(d.sessions[id], files', used)
    {
      FewerFilesEvidence(d.sessions[id].photos, d.sessions[id].sessionId, d.files, files');
    }
  }

  lemma FewerFilesMemory(m: Memory, files: Files, files': Files, used: set<string>)
    requires MemoryOk(m, files, used)
    requires files'.Keys <= files.Keys && forall k :: k in files' ==> files'[k] == files[k]
    ensures MemoryOk(m, files', used)
  {
    hide Evidence, Numbered, IdsUsed, CountsAgree, AllTerminal;
    if m.phase != Idle {
      FewerFilesEvidence(m.photos, m.sessionId.value, files, files');
    }
  }

  // ----- taking the photo -----

  lemma PutDisk(m: Memory, d: Disk, job: Job, content: Bytes, used: set<string>)
    requires DiskOk(d, used) && Numbered(m.photos, m.nextNumber)
    requires JobOk(m, job) && JobFresh(m, d, job)
    ensures DiskOk(d.(files := d.files[(job.sessionId, job.fileName) := content]), used)
  {
    hide Evidence, Numbered, IdsUsed, CountsAgree, AllTerminal;
    var key := (job.sessionId, job.fileName);
    forall id | id in d.sessions
      ensures StoredOk(d.sessions[id], d.files[key := content], used)
    {
      var s := d.sessions[id];
      PutKeepsEvidence(s.photos, s.nextNumber, s.sessionId, d.files, m.photos, m.nextNumber,
                       job.number - 1, key, content);
    }
  }

  lemma PutMemory(m: Memory, d: Disk, job: Job, content: Bytes, used: set<string>)
    requires MemoryOk(m, d.files, used)
    requires JobOk(m, job) && JobFresh(m, d, job)
    ensures MemoryOk(m, d.files[(job.sessionId, job.fileName) := content], used)
  {
    hide Evidence, Numbered, IdsUsed, CountsAgree, AllTerminal;
    if m.phase != Idle {
      PutKeepsEvidence(m.photos, m.nextNumber, m.sessionId.value, d.files, m.photos, m.nextNumber,
                       job.number - 1, (job.sessionId, job.fileName), content);
    }
  }

  lemma MoreFilesPresent(m: Memory, files: Files, files': Files, w: Worker, w': Worker)
    requires FilesPresent(m, files, w) && files.Keys <= files'.Keys && !w.Unlinked?
    ensures FilesPresent(m, files', w')
  {
  }

  /** After the shot: the file may be there, and the worker has moved on. */
  lemma KeepsShot(cfg: Config, s: System, content: Option<Bytes>, w: Worker)
    requires Inv(cfg, s) && s.up && s.worker.Holding?
    requires w.Wrote? || w.Failing? || w.Breaking?
    requires w.job == s.worker.job && (w.Wrote? ==> content == Some(w.jpeg))
    ensures Inv(cfg, PutFile(s, s.worker.job, content).(worker := w))
  {
    hide DiskOk, OneToOne, FilesPresent, CapturingHasJob, Queued;
    hide Numbered, IdsUsed, CountsAgree, Evidence, AllTerminal, JobOk, JobFresh;
    var job := s.worker.job;
    var s' := PutFile(s, job, content).(worker := w);
    if content.Some? {
      PutDisk(s.m, s.d, job, content.value, s.used);
      PutMemory(s.m, s.d, job, content.value, s.used);
    }
    MoreFilesPresent(s.m, s.d.files, s'.d.files, s.worker, w);
    assert Untouched(s') <= Untouched(s);
    assert InFlight(s') == InFlight(s) && Live(s') == Live(s);
    FrameLive(s, s');
    FilesDoNotMatterToJobs(s.m, s.d, s'.d.files, Untouched(s));
  }

  lemma FilesDoNotMatter(d: Disk, files: Files)
    ensures forall failed :: DiskMatched(d, failed) ==> DiskMatched(d.(files := files), failed)
  {
  }

  lemma FilesDoNotMatterToJobs(m: Memory, d: Disk, files: Files, jobs: iset<Job>)
    requires JobsFresh(m, d, jobs)
    ensures JobsFresh(m, d.(files := files), jobs)
  {
  }

  lemma KeepsShoot(cfg: Config, s: System, shot: Shot)
    requires Inv(cfg, s) && s.up && s.worker.Holding?
    ensures Inv(cfg, StepShoot(s, s.worker.job, shot))
  {
    hide Inv;
    match shot
    case Taken(jpeg) => KeepsShot(cfg, s, Some(jpeg), Wrote(s.worker.job, jpeg));
    case Refused(written) => KeepsShot(cfg, s, written, Failing(s.worker.job));
    case Broken(written) => KeepsShot(cfg, s, written, Breaking(s.worker.job));
  }

  // ----- updating the photo record -----

  /** The memory with one photo's outcome settled. */
  ghost function Settled(m: Memory, job: Job, status: PhotoStatus, jpeg: Option<Bytes>): Memory {
    m.(photos := UpdatePhotos(m.photos, job.photoId, status, jpeg))
  }

  lemma SettledMemory(m: Memory, job: Job, status: PhotoStatus, jpeg: Option<Bytes>, files: Files, used: set<string>)
    requires MemoryOk(m, files, used) && JobOk(m, job) && m.phase != Finished && m.phase != Idle
    requires status == Complete ==>
               (jpeg.Some? && (job.sessionId, job.fileName) in files
                && files[(job.sessionId, job.fileName)] == jpeg.value)
    ensures MemoryOk(Settled(m, job, status, jpeg), files, used)
  {
    hide CountsAgree, AllTerminal;
  }

  lemma SettledMatched(m: Memory, job: Job, status: PhotoStatus, jpeg: Option<Bytes>)
    requires OneToOne(m.records, m.photos)
    ensures OneToOne(m.records, Settled(m, job, status, jpeg).photos)
  {
  }

  lemma SettledFiles(m: Memory, job: Job, status: PhotoStatus, jpeg: Option<Bytes>, files: Files, w: Worker, w': Worker)
    requires FilesPresent(m, files, w) && JobOk(m, job) && Numbered(m.photos, m.nextNumber)
    requires !w.Waiting? && w.job == job
    requires status == Complete ==> (job.sessionId, job.fileName) in files
    ensures FilesPresent(Settled(m, job, status, jpeg), files, w')
  {
  }

  /** Settling one photo leaves the other jobs as they were. */
  lemma SettledJobs(m: Memory, d: Disk, job: Job, status: PhotoStatus, jpeg: Option<Bytes>,
                    jobs: iset<Job>, untouched: iset<Job>)
    requires Numbered(m.photos, m.nextNumber) && JobOk(m, job)
    requires JobsOk(m, jobs) && JobsFresh(m, d, untouched)
    requires forall a :: a in untouched ==> a.number != job.number
    ensures JobsOk(Settled(m, job, status, jpeg), jobs)
    ensures JobsFresh(Settled(m, job, status, jpeg), d, untouched)
  {
    hide Numbered;
    SettledEach(m, job, status, jpeg);
    hide Settled;
    var m' := Settled(m, job, status, jpeg);
    forall a | a in jobs ensures JobOk(m', a) {
      assert JobOk(m, a);
    }
    forall a | a in untouched ensures JobFresh(m', d, a) {
      assert JobFresh(m, d, a);
    }
  }

  lemma SettledEach(m: Memory, job: Job, status: PhotoStatus, jpeg: Option<Bytes>)
    requires Numbered(m.photos, m.nextNumber) && JobOk(m, job)
    ensures var m' := Settled(m, job, status, jpeg);
            && m'.sessionId == m.sessionId && |m'.photos| == |m.photos|
            && (forall i :: 0 <= i < |m.photos| ==>
                  m'.photos[i].id == m.photos[i].id && m'.photos[i].fileName == m.photos[i].fileName)
            && (forall i :: 0 <= i < |m.photos| && i != job.number - 1 ==> m'.photos[i] == m.photos[i])
  {
  }

  lemma OthersUntouched(s: System)
    requires Unshared(s.pending, s.m.queue, s.worker) && !s.worker.Waiting? && !s.worker.Holding?
    ensures forall a :: a in Untouched(s) ==> a.number != s.worker.job.number
  {
  }

  lemma SettledLive(s: System, s': System, status: PhotoStatus, jpeg: Option<Bytes>)
    requires CapturingHasJob(s) && s'.m.fatal == s.m.fatal && status != Capturing
    requires !s.worker.Waiting? && JobOk(s.m, s.worker.job) && Numbered(s.m.photos, s.m.nextNumber)
    requires s'.m.photos == Settled(s.m, s.worker.job, status, jpeg).photos
    requires Live(s) <= Live(s') + iset{s.worker.job}
    ensures CapturingHasJob(s')
  {
    hide Live, Numbered, Settled;
    var k := s.worker.job.number - 1;
    SettledIs(s.m, s.worker.job, status, jpeg);
    forall i | 0 <= i < |s'.m.photos| && s'.m.photos[i].status == Capturing && !s'.m.fatal
      ensures HasLiveJob(s', i + 1)
    {
      assert i != k;
      assert HasLiveJob(s, i + 1);
      var live :| live in Live(s) && live.number == i + 1;
      assert live in Live(s');
    }
  }

  lemma SettledIs(m: Memory, job: Job, status: PhotoStatus, jpeg: Option<Bytes>)
    ensures Settled(m, job, status, jpeg).photos == UpdatePhotos(m.photos, job.photoId, status, jpeg)
  {
  }

  /** The worker settles its photo, saves, and moves on. */
  lemma KeepsSettle(cfg: Config, s: System, status: PhotoStatus, jpeg: Option<Bytes>, o: SaveOutcome, w: Worker)
    requires Inv(cfg, s) && s.up && status != Capturing
    requires s.worker.Wrote? || s.worker.Unlinked?
    requires s.worker.Wrote? && status == Complete ==> jpeg == Some(s.worker.jpeg)
    requires s.worker.Unlinked? ==> status == PhotoFailed
    requires w.Done? || w.Failing? || w.Breaking?
    requires w.job == s.worker.job
    ensures var m := Settled(s.m, s.worker.job, status, jpeg);
            Inv(cfg, s.(m := m, d := Persist(cfg, m, s.d, o), worker := w))
  {
    var job := s.worker.job;
    var m := Settled(s.m, job, status, jpeg);
    var s' := s.(m := m, d := Persist(cfg, m, s.d, o), worker := w);
    SettleSession(cfg, s, status, jpeg, o, w);
    SettlePipeline(cfg, s, status, jpeg, o, w);
    SettleRest(cfg, s, status, jpeg, o, w);
    hide DiskOk, MemoryOk, FilesPresent, PipelineOk, CapturingHasJob, QuietWhen, NotRevived, Matched;
    hide Persist, Settled;
  }

  lemma WorkerBusy(cfg: Config, s: System)
    requires Inv(cfg, s) && !s.worker.Waiting?
    ensures s.m.phase != Idle && s.m.phase != Finished && cfg.TakesPhotos()
    ensures Numbered(s.m.photos, s.m.nextNumber)
    ensures JobOk(s.m, s.worker.job)
  {
    hide DiskOk, FilesPresent, CapturingHasJob, NotRevived, Matched;
    hide Numbered, IdsUsed, CountsAgree, Evidence, AllTerminal, JobOk, JobsFresh;
    assert s.worker.job in InFlight(s);
  }

  lemma SettleSession(cfg: Config, s: System, status: PhotoStatus, jpeg: Option<Bytes>, o: SaveOutcome, w: Worker)
    requires Inv(cfg, s) && s.up && status != Capturing
    requires s.worker.Wrote? || s.worker.Unlinked?
    requires s.worker.Wrote? && status == Complete ==> jpeg == Some(s.worker.jpeg)
    requires s.worker.Unlinked? ==> status == PhotoFailed
    ensures var m := Settled(s.m, s.worker.job, status, jpeg);
            SessionInv(s.(m := m, d := Persist(cfg, m, s.d, o), worker := w))
  {
    hide DiskOk, MemoryOk, FilesPresent, CapturingHasJob, Matched, OneToOne, DiskMatched;
    hide Persist, JobOk, JobsFresh, JobsOk, Unshared, Numbered;
    var job := s.worker.job;
    var m := Settled(s.m, job, status, jpeg);
    var s' := s.(m := m, d := Persist(cfg, m, s.d, o), worker := w);
    WorkerBusy(cfg, s);
    MatchedParts(s);
    SettledMemory(s.m, job, status, jpeg, s.d.files, s.used);
    if !Loose(s) { SettledMatched(s.m, job, status, jpeg); }
    SettledFiles(s.m, job, status, jpeg, s.d.files, s.worker, w);
    PersistSession(cfg, m, s.d, o, s.used, Loose(s));
    SavedSession(s');
  }

  lemma SettlePipeline(cfg: Config, s: System, status: PhotoStatus, jpeg: Option<Bytes>, o: SaveOutcome, w: Worker)
    requires Inv(cfg, s) && s.up && status != Capturing
    requires s.worker.Wrote? || s.worker.Unlinked?
    requires w.Done? || w.Failing? || w.Breaking?
    requires w.job == s.worker.job
    ensures var m := Settled(s.m, s.worker.job, status, jpeg);
            PipelineOk(s.(m := m, d := Persist(cfg, m, s.d, o), worker := w))
  {
    hide DiskOk, MemoryOk, FilesPresent, CapturingHasJob, Matched, QuietWhen;
    hide Persist, JobOk, JobsFresh, JobsOk, Numbered, Queued;
    var job := s.worker.job;
    var m := Settled(s.m, job, status, jpeg);
    var s' := s.(m := m, d := Persist(cfg, m, s.d, o), worker := w);
    WorkerBusy(cfg, s);
    SettleSets(s, s');
    OthersUntouched(s);
    SettledJobs(s.m, s.d, job, status, jpeg, InFlight(s), Untouched(s));
    UntouchedInFlight(s);
    FewerJobs(m, s.d, InFlight(s), Untouched(s));
    SaveKeepsFresh(cfg, m, s.d, o, Untouched(s));
  }

  lemma SettleSets(s: System, s': System)
    requires s.worker.Wrote? || s.worker.Unlinked?
    requires s'.worker.Done? || s'.worker.Failing? || s'.worker.Breaking?
    requires s'.worker.job == s.worker.job && s'.pending == s.pending && s'.m.queue == s.m.queue
    ensures Untouched(s') == Untouched(s) && InFlight(s') == InFlight(s)
    ensures Live(s) <= Live(s') + iset{s.worker.job}
  {
    hide Queued;
  }

  lemma SettleRest(cfg: Config, s: System, status: PhotoStatus, jpeg: Option<Bytes>, o: SaveOutcome, w: Worker)
    requires Inv(cfg, s) && s.up && status != Capturing
    requires s.worker.Wrote? || s.worker.Unlinked?
    requires w.Done? || w.Failing? || w.Breaking?
    requires w.job == s.worker.job
    ensures var m := Settled(s.m, s.worker.job, status, jpeg);
            var s' := s.(m := m, d := Persist(cfg, m, s.d, o), worker := w);
            CapturingHasJob(s') && QuietWhen(cfg, s')
  {
    hide DiskOk, MemoryOk, FilesPresent, CapturingHasJob, Matched, PipelineOk, NotRevived;
    hide Persist, Numbered, Queued, JobOk;
    var job := s.worker.job;
    var m := Settled(s.m, job, status, jpeg);
    var s' := s.(m := m, d := Persist(cfg, m, s.d, o), worker := w);
    WorkerBusy(cfg, s);
    SettleSets(s, s');
    SettledLive(s, s', status, jpeg);
  }

  lemma KeepsComplete(cfg: Config, s: System, o: SaveOutcome)
    requires Inv(cfg, s) && s.up && s.worker.Wrote?
    ensures Inv(cfg, StepComplete(cfg, s, s.worker.job, s.worker.jpeg, o))
  {
    hide Inv, Persist;
    var job := s.worker.job;
    var m := Settled(s.m, job, Complete, Some(s.worker.jpeg));
    var w := if PersistSucceeds(cfg, m, o) then Done(job)
             else if o.Broke? && o.osError then Failing(job) else Breaking(job);
    assert StepComplete(cfg, s, job, s.worker.jpeg, o) == s.(m := m, d := Persist(cfg, m, s.d, o), worker := w);
    KeepsSettle(cfg, s, Complete, Some(s.worker.jpeg), o, w);
  }

  lemma KeepsFail(cfg: Config, s: System, o: SaveOutcome)
    requires Inv(cfg, s) && s.up && s.worker.Unlinked?
    ensures Inv(cfg, StepFail(cfg, s, s.worker.job, o))
  {
    hide Inv, Persist;
    var job := s.worker.job;
    var m := Settled(s.m, job, PhotoFailed, None);
    var w := if PersistSucceeds(cfg, m, o) then Done(job) else Breaking(job);
    assert StepFail(cfg, s, job, o) == s.(m := m, d := Persist(cfg, m, s.d, o), worker := w);
    KeepsSettle(cfg, s, PhotoFailed, None, o, w);
  }

  // ----- removing the file of a failed photo -----

  lemma UnlinkFiles(m: Memory, files: Files, w: Worker, job: Job)
    requires FilesPresent(m, files, w) && Numbered(m.photos, m.nextNumber) && JobOk(m, job) && w.Failing?
    ensures FilesPresent(m, files - {(job.sessionId, job.fileName)}, Unlinked(job))
  {
    if m.phase != Idle {
      forall i | 0 <= i < |m.photos| && m.photos[i].status == Complete && i != job.number - 1
        ensures m.photos[i].fileName != job.fileName
      {
        if m.photos[i].fileName == job.fileName {
          NameMeansNumber(m.photos, m.nextNumber, i, m.photos, m.nextNumber, job.number - 1);
        }
      }
    }
  }

  lemma KeepsUnlink(cfg: Config, s: System, removed: bool)
    requires Inv(cfg, s) && s.up && s.worker.Failing?
    ensures Inv(cfg, StepUnlink(s, s.worker.job, removed))
  {
    hide DiskOk, MemoryOk, FilesPresent, OneToOne, CapturingHasJob, Queued, JobOk, JobFresh;
    var job := s.worker.job;
    var s' := StepUnlink(s, job, removed);
    WorkerBusy(cfg, s);
    assert Untouched(s') == Untouched(s) && InFlight(s') == InFlight(s) && Live(s') == Live(s);
    FrameLive(s, s');
    if removed {
      FewerFilesDisk(s.d, s'.d.files, s.used);
      FewerFilesMemory(s.m, s.d.files, s'.d.files, s.used);
      UnlinkFiles(s.m, s.d.files, s.worker, job);
      FilesDoNotMatter(s.d, s'.d.files);
      FilesDoNotMatterToJobs(s.m, s.d, s'.d.files, Untouched(s));
    } else {
      MoreFilesPresent(s.m, s.d.files, s.d.files, s.worker, s'.worker);
    }
  }

  // ----- restart -----

  ghost predicate DistinctNames(photos: seq<Photo>) {
    forall i, j :: 0 <= i < j < |photos| ==> photos[i].fileName != photos[j].fileName
  }

  lemma NumberedNames(photos: seq<Photo>, nextNumber: nat)
    requires Numbered(photos, nextNumber)
    ensures DistinctNames(photos)
  {
    forall i, j | 0 <= i < j < |photos| ensures photos[i].fileName != photos[j].fileName {
      if photos[i].fileName == photos[j].fileName {
        NameMeansNumber(photos, nextNumber, i, photos, nextNumber, j);
      }
    }
  }

  lemma {:induction false} RecoverLosesFiles(photos: seq<Photo>, dir: string, files: Files)
    ensures var files' := RecoverAll(photos, dir, files).1;
            files'.Keys <= files.Keys && forall k :: k in files' ==> files'[k] == files[k]
  {
    if photos != [] {
      RecoverLosesFiles(photos[1..], dir, RecoverFiles(photos[0], dir, files));
    }
  }

  /** A file that no CAPTURING photo owns survives the restoring loop. */
  lemma {:induction false} RecoverKeepsFile(photos: seq<Photo>, dir: string, files: Files, name: string)
    requires (dir, name) in files
    requires forall i :: 0 <= i < |photos| ==> photos[i].fileName != name || photos[i].status != Capturing
    ensures (dir, name) in RecoverAll(photos, dir, files).1
  {
    if photos != [] {
      RecoverKeepsFile(photos[1..], dir, RecoverFiles(photos[0], dir, files), name);
    }
  }

  /** What the restoring loop does to each photo. */
  ghost predicate RecoveredWell(p: Photo, r: Photo, dir: string, files: Files) {
    && r.status != Capturing
    && (r == p || r == p.(status := PhotoFailed, digest := None, size := None))
    && (r.status == Complete ==> r == p && (p.fileName != "" ==> (dir, p.fileName) in files))
  }

  lemma {:induction false} RecoverEach(photos: seq<Photo>, dir: string, files: Files)
    requires DistinctNames(photos)
    ensures var (r, files') := RecoverAll(photos, dir, files);
            forall i :: 0 <= i < |photos| ==> RecoveredWell(photos[i], r[i], dir, files')
  {
    if photos != [] {
      var files1 := RecoverFiles(photos[0], dir, files);
      var (rest, files') := RecoverAll(photos[1..], dir, files1);
      RecoverEach(photos[1..], dir, files1);
      var p, r := photos[0], Recover(photos[0], dir, files);
      if r.status == Complete && p.fileName != "" {
        RecoverKeepsFile(photos[1..], dir, files1, p.fileName);
      }
      assert RecoveredWell(p, r, dir, files');
      forall i | 0 <= i < |photos| ensures RecoveredWell(photos[i], ([r] + rest)[i], dir, files') {
        if i > 0 { assert RecoveredWell(photos[1..][i - 1], rest[i - 1], dir, files'); }
      }
    }
  }

  /** Recovered photos keep number, id, line and file name, and vouch only for files that are there. */
  lemma RecoveredPhotos(s: StoredSession, files: Files, used: set<string>)
    requires StoredOk(s, files, used)
    ensures var (photos, files') := RecoverAll(s.photos, s.sessionId, files);
            && AllTerminal(photos)
            && Numbered(photos, s.nextNumber)
            && IdsUsed(photos, used)
            && Evidence(photos, s.sessionId, files')
            && (forall i :: 0 <= i < |photos| && photos[i].status == Complete ==>
                  (s.sessionId, photos[i].fileName) in files')
            && (OneToOne(s.records, s.photos) ==> OneToOne(s.records, photos))
  {
    hide CountsAgree;
    var (photos, files') := RecoverAll(s.photos, s.sessionId, files);
    NumberedNames(s.photos, s.nextNumber);
    RecoverEach(s.photos, s.sessionId, files);
    RecoverLosesFiles(s.photos, s.sessionId, files);
    forall i | 0 <= i < |photos|
      ensures photos[i].status != Capturing && photos[i].id == s.photos[i].id && photos[i].number == i + 1
              && photos[i].fileName == s.photos[i].fileName && photos[i].fileName != ""
              && photos[i].line == s.photos[i].line && photos[i].scannerSequence == s.photos[i].scannerSequence
    {
      assert RecoveredWell(s.photos[i], photos[i], s.sessionId, files');
      assert |s.photos[i].fileName| > 0;
    }
    forall i | 0 <= i < |photos| && photos[i].status == Complete
      ensures photos[i] == s.photos[i] && (s.sessionId, photos[i].fileName) in files'
    {
      assert RecoveredWell(s.photos[i], photos[i], s.sessionId, files');
    }
  }

  /** The memory and files a restart begins with, before its save. */
  ghost function Reborn(d: Disk): (Memory, Disk)
    requires LoadActive(d).Some?
  {
    var s := LoadActive(d).value;
    var (photos, files) := RecoverAll(s.photos, s.sessionId, d.files);
    (Memory(s.phase, true, Some(s.sessionId), s.records, photos, s.nextNumber, s.counters, false, [], 0),
     d.(files := files))
  }

  lemma LoadedOk(d: Disk, used: set<string>)
    requires DiskOk(d, used) && LoadActive(d).Some?
    ensures var s := LoadActive(d).value;
            s.sessionId in d.sessions && d.sessions[s.sessionId] == s && s.sessionId in used
            && s.phase == Active && StoredOk(s, d.files, used)
  {
    hide StoredOk;
  }

  lemma RebornMemory(d: Disk, used: set<string>)
    requires DiskOk(d, used) && LoadActive(d).Some?
    ensures var (m, d') := Reborn(d);
            MemoryOk(m, d'.files, used) && AllTerminal(m.photos) && FilesPresent(m, d'.files, Waiting)
  {
    hide DiskOk, Numbered, IdsUsed, Evidence, CountsAgree, AllTerminal, RecoverAll;
    LoadedOk(d, used);
    RecoveredPhotos(LoadActive(d).value, d.files, used);
  }

  lemma RebornSavable(d: Disk, used: set<string>, loose: bool)
    requires DiskOk(d, used) && DiskMatched(d, loose)
    requires LoadActive(d).Some?
    ensures var (m, d') := Reborn(d);
            Savable(m, d', used, loose)
  {
    hide DiskOk, MemoryOk, RecoverAll, OneToOne, StoredOk, AllTerminal, FilesPresent;
    var (m, d') := Reborn(d);
    var s := LoadActive(d).value;
    LoadedOk(d, used);
    RebornMemory(d, used);
    RecoveredPhotos(s, d.files, used);
    RecoverLosesFiles(s.photos, s.sessionId, d.files);
    FewerFilesDisk(d, d'.files, used);
  }

  lemma RestoreIs(cfg: Config, d: Disk, o: SaveOutcome)
    ensures Restore(cfg, d, o)
            == if !cfg.store || LoadActive(d).None? then Effect(BLANK, d, Accepted)
               else PersistAs(cfg, Reborn(d).0, Reborn(d).1, o)
  {
    hide LoadActive, RecoverAll;
  }

  lemma KeepsRestart(cfg: Config, s: System, o: SaveOutcome)
    requires Inv(cfg, s) && !s.up
    ensures Inv(cfg, StepRestart(cfg, s, o))
  {
    hide DiskOk, MemoryOk, OneToOne, LoadActive, Restore, Reborn, Persist, FilesPresent;
    hide DiskMatched, AllTerminal;
    var s' := StepRestart(cfg, s, o);
    RestoreIs(cfg, s.d, o);
    if !cfg.store || LoadActive(s.d).None? {
      assert s' == s.(up := true);
    } else {
      var (m, d) := Reborn(s.d);
      RebornShape(s.d);
      MatchedParts(s);
      RebornMemory(s.d, s.used);
      RebornSavable(s.d, s.used, Loose(s));
      PersistSession(cfg, m, d, o, s.used, Loose(s));
      SavedSession(s');
      NoJobs(s');
      TerminalNeedsNoJob(s');
    }
  }

  lemma RebornShape(d: Disk)
    requires LoadActive(d).Some?
    ensures var (m, d') := Reborn(d);
            m.phase == Active && m.queue == [] && m.inflight == 0
            && m.sessionId == Some(LoadActive(d).value.sessionId)
  {
    hide RecoverAll;
  }

  lemma TerminalNeedsNoJob(s: System)
    requires AllTerminal(s.m.photos)
    ensures CapturingHasJob(s)
  {
  }

  lemma KeepsRestartBroken(cfg: Config, s: System, photosSeen: nat, o: SaveOutcome)
    requires Inv(cfg, s) && !s.up && cfg.store
    requires LoadActive(s.d).Some? && photosSeen <= |LoadActive(s.d).value.photos|
    ensures Inv(cfg, StepRestartBroken(cfg, s, photosSeen, o))
  {
    hide DiskOk, MemoryOk, OneToOne, LoadActive, Restore, Reborn, Persist, FilesPresent;
    hide AllTerminal, RecoverAll, DiskMatched;
    var s' := StepRestartBroken(cfg, s, photosSeen, o);
    var session := LoadActive(s.d).value;
    MatchedParts(s);
    BlankMemory(s'.d.files, s.used);
    if photosSeen < |session.photos| {
      RecoverLosesFiles(session.photos[..photosSeen], session.sessionId, s.d.files);
      FewerFilesDisk(s.d, s'.d.files, s.used);
      FilesDoNotMatter(s.d, s'.d.files);
    } else {
      RestoreIs(cfg, s.d, o);
      var (m, d) := Reborn(s.d);
      RebornSavable(s.d, s.used, Loose(s));
      PersistSession(cfg, m, d, o, s.used, Loose(s));
    }
    BlankInv(cfg, s');
  }

  lemma BlankInv(cfg: Config, s: System)
    requires DiskOk(s.d, s.used) && DiskMatched(s.d, Loose(s))
    requires s.m == BLANK && Quiet(s) && s.finisher.NotFinishing?
    ensures Inv(cfg, s)
  {
    hide DiskOk, MemoryOk;
    BlankMemory(s.d.files, s.used);
    NoJobs(s);
  }
}
