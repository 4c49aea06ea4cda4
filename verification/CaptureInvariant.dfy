/** What every step of the capture system keeps. */
module CaptureInvariant {
  import opened Options
  import opened PhotoNames
  import opened CaptureModel
  import opened CaptureSystem

  // ----- the pieces -----

  /** Photos carry the numbers 1..n in order, the next number is n+1, and ids are distinct. */
  ghost predicate Numbered(photos: seq<Photo>, nextNumber: nat) {
    && nextNumber == |photos| + 1
    && (forall i :: 0 <= i < |photos| ==>
          photos[i].number == i + 1 && photos[i].fileName == PhotoFileName(photos[i].id, i + 1))
    && (forall i, j :: 0 <= i < j < |photos| ==> photos[i].id != photos[j].id)
  }

  ghost predicate IdsUsed(photos: seq<Photo>, used: set<string>) {
    forall i :: 0 <= i < |photos| ==> photos[i].id in used
  }

  /** Every reading is counted once, and every accepted one has its record. */
  ghost predicate CountsAgree(c: Counters, records: seq<ExportRecord>) {
    c.physical == c.rejected + c.f2Accepted
    && c.f2Accepted == c.notExportable + c.accepted
    && c.accepted == |records|
  }

  ghost predicate OneToOne(records: seq<ExportRecord>, photos: seq<Photo>) {
    |records| == |photos|
    && forall i :: 0 <= i < |photos| ==>
         photos[i].line == records[i].line && photos[i].scannerSequence == records[i].scannerSequence
  }

  /** A COMPLETE photo records the digest and size of its file, if the file is there. */
  ghost predicate Evidence(photos: seq<Photo>, dir: string, files: Files) {
    forall i :: 0 <= i < |photos| && photos[i].status == Complete ==>
      && photos[i].digest.Some?
      && ((dir, photos[i].fileName) in files ==>
            photos[i].digest.value == Sha256(files[(dir, photos[i].fileName)])
            && photos[i].size == Some(|files[(dir, photos[i].fileName)]|))
  }

  ghost predicate StoredOk(s: StoredSession, files: Files, used: set<string>) {
    && s.phase != Idle
    && Numbered(s.photos, s.nextNumber)
    && IdsUsed(s.photos, used)
    && CountsAgree(s.counters, s.records)
    && |s.photos| <= |s.records|
    && Evidence(s.photos, s.sessionId, files)
    && (s.phase == Finished ==> AllTerminal(s.photos))
  }

  ghost predicate DiskOk(d: Disk, used: set<string>) {
    forall id :: id in d.sessions ==>
      d.sessions[id].sessionId == id && id in used && StoredOk(d.sessions[id], d.files, used)
  }

  ghost predicate MemoryOk(m: Memory, files: Files, used: set<string>) {
    && (m.phase == Idle ==> m.photos == [] && m.records == [])
    && (m.phase != Idle ==> m.sessionId.Some? && m.sessionId.value in used)
    && Numbered(m.photos, m.nextNumber)
    && IdsUsed(m.photos, used)
    && CountsAgreeWhenOpen(m)
    && |m.photos| <= |m.records|
    && (m.phase != Idle ==> Evidence(m.photos, m.sessionId.value, files))
    && (m.phase == Finished ==> AllTerminal(m.photos))
  }

  ghost predicate CountsAgreeWhenOpen(m: Memory) {
    m.phase != Idle ==> CountsAgree(m.counters, m.records)
  }

  /** COMPLETE photos in memory have their file, except one the worker has just removed. */
  ghost predicate FilesPresent(m: Memory, files: Files, w: Worker) {
    m.phase != Idle && m.sessionId.Some? ==>
      forall i :: 0 <= i < |m.photos| && m.photos[i].status == Complete ==>
        (m.sessionId.value, m.photos[i].fileName) in files || (w.Unlinked? && w.job.number == i + 1)
  }

  /** A job belongs to a photo of the current session. */
  ghost predicate JobOk(m: Memory, job: Job) {
    && m.sessionId == Some(job.sessionId)
    && 1 <= job.number <= |m.photos|
    && job.photoId == m.photos[job.number - 1].id
    && job.fileName == m.photos[job.number - 1].fileName
  }

  /** The photo of a job not yet executed is CAPTURING in memory and not COMPLETE on disk. */
  ghost predicate JobFresh(m: Memory, d: Disk, job: Job) {
    && 1 <= job.number <= |m.photos|
    && m.photos[job.number - 1].status == Capturing
    && (job.sessionId in d.sessions && job.number <= |d.sessions[job.sessionId].photos| ==>
          d.sessions[job.sessionId].photos[job.number - 1].status != Complete)
  }

  ghost predicate JobsOk(m: Memory, jobs: iset<Job>) {
    forall job :: job in jobs ==> JobOk(m, job)
  }

  ghost predicate JobsFresh(m: Memory, d: Disk, jobs: iset<Job>) {
    forall job :: job in jobs ==> JobFresh(m, d, job)
  }

  /** No photo has two jobs. */
  ghost predicate Unshared(pending: set<Job>, queue: seq<Job>, w: Worker) {
    && (forall i, j :: 0 <= i < j < |queue| ==> queue[i].number != queue[j].number)
    && (forall a, b :: a in pending && b in pending && a.number == b.number ==> a == b)
    && (forall a, i :: a in pending && 0 <= i < |queue| ==> a.number != queue[i].number)
    && (!w.Waiting? ==>
          && (forall a :: a in pending ==> a.number != w.job.number)
          && (forall i :: 0 <= i < |queue| ==> queue[i].number != w.job.number))
  }

  /** The in-flight count is exact: jobs not yet put, queued, or held by the worker. */
  ghost predicate CountExact(s: System) {
    s.m.inflight == |s.pending| + |s.m.queue| + (if s.worker.Waiting? then 0 else 1)
  }

  /** The photo file the worker is about to vouch for, or has just removed. */
  ghost predicate WorkerFile(w: Worker, files: Files) {
    && (w.Wrote? ==>
          (w.job.sessionId, w.job.fileName) in files && files[(w.job.sessionId, w.job.fileName)] == w.jpeg)
    && (w.Unlinked? ==> (w.job.sessionId, w.job.fileName) !in files)
  }

  ghost predicate PipelineOk(s: System) {
    && CountExact(s)
    && JobsOk(s.m, InFlight(s))
    && Unshared(s.pending, s.m.queue, s.worker)
    && JobsFresh(s.m, s.d, Untouched(s))
    && WorkerFile(s.worker, s.d.files)
  }

  ghost predicate HasLiveJob(s: System, number: nat) {
    exists job :: job in Live(s) && job.number == number
  }

  /** Without a fatal error, every CAPTURING photo has a job that will settle it. */
  ghost predicate CapturingHasJob(s: System) {
    !s.m.fatal ==>
      forall i :: 0 <= i < |s.m.photos| && s.m.photos[i].status == Capturing ==> HasLiveJob(s, i + 1)
  }

  ghost predicate Quiet(s: System) {
    s.pending == {} && s.m.queue == [] && s.worker.Waiting?
  }

  /** Where jobs can be: not outside an open session, and not once `finish` has seen the pipeline idle. */
  ghost predicate QuietWhen(cfg: Config, s: System) {
    && (s.m.phase == Idle || s.m.phase == Finished ==> Quiet(s))
    && (!s.finisher.NotFinishing? ==> !s.m.accepting)
    && (s.finisher.Recheck? || s.finisher.AtLock? ==> Quiet(s))
    && (s.finisher.AtLock? ==> !s.m.fatal)
    && (!cfg.TakesPhotos() ==> Quiet(s))
  }

  /** A session stored as anything but ACTIVE is not ACTIVE in memory either. */
  ghost predicate NotRevived(s: System) {
    s.m.phase == Active && s.m.sessionId.Some? && s.m.sessionId.value in s.d.sessions ==>
      s.d.sessions[s.m.sessionId.value].phase == Active
  }

  /** As long as no metadata write fails and no process goes without photos, records and photos match one
      to one. */
  ghost predicate Matched(s: System) {
    !Loose(s) ==>
      && OneToOne(s.m.records, s.m.photos)
      && forall id :: id in s.d.sessions ==> OneToOne(s.d.sessions[id].records, s.d.sessions[id].photos)
  }

  ghost predicate Inv(cfg: Config, s: System) {
    && DiskOk(s.d, s.used)
    && MemoryOk(s.m, s.d.files, s.used)
    && FilesPresent(s.m, s.d.files, s.worker)
    && PipelineOk(s)
    && CapturingHasJob(s)
    && QuietWhen(cfg, s)
    && NotRevived(s)
    && Matched(s)
    && (!s.up ==> s.m == BLANK && Quiet(s) && s.finisher.NotFinishing?)
  }

  // ----- saving -----

  /** A save touches only the session's own file and the active pointer, whether or not it raises, and moves the
      pointer to the session only once its file is written. */
  lemma PersistEffect(cfg: Config, m: Memory, d: Disk, o: SaveOutcome)
    ensures var d' := Persist(cfg, m, d, o);
      && d'.files == d.files
      && (d'.sessions == d.sessions
          || (Persists(cfg, m) && d'.sessions == d.sessions[m.sessionId.value := Stored(m)]))
      && (d'.active.None? || d'.active == d.active
          || (Persists(cfg, m) && m.phase == Active && d'.active == m.sessionId
              && d'.sessions == d.sessions[m.sessionId.value := Stored(m)]))
      && (Persists(cfg, m) && o.Saved? ==>
            && d'.sessions == d.sessions[m.sessionId.value := Stored(m)]
            && d'.active == if m.phase == Active then m.sessionId else None)
  {
    if Persists(cfg, m) {
      var s := Stored(m);
      var ws := SaveWrites(s);
      var second := if m.phase == Active then PutActive(s.sessionId) else ClearActive;
      assert ws == [PutSession(s), second];
      var d1 := ApplyWrite(d, PutSession(s));
      var d2 := ApplyWrite(d1, second);
      assert ApplyWrites(d, ws) == d2 by {
        assert ws[1..] == [second];
        assert [second][1..] == [];
        assert ApplyWrites(d1, [second]) == ApplyWrites(d2, []);
      }
      assert ApplyWrites(d, ws[..0]) == d;
      assert ApplyWrites(d, ws[..1]) == d1 by {
        assert ws[..1] == [PutSession(s)];
        assert ws[..1][1..] == [];
        assert ApplyWrites(d1, []) == d1;
      }
      if o.Broke? && o.done < |ws| {
        assert o.done == 0 || o.done == 1;
      }
    }
  }
}
