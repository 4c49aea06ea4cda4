/** `CaptureSessionStore` and `CaptureService` as objects: each method is one critical section of
    raspberry-scanner/capture.py, and does to its fields what CaptureModel says. Outcomes of I/O
    and fresh ids are parameters. */
module CaptureObjects {
  import opened Options
  import opened PhotoNames
  import opened CaptureModel

  class CaptureSessionStore {
    var disk: Disk

    constructor (d: Disk)
      ensures disk == d
    {
      disk := d;
    }

    /** False when the save raised. */
    method Save(session: StoredSession, o: SaveOutcome) returns (ok: bool)
      modifies this
      ensures disk == CaptureModel.Save(old(disk), session, o)
      ensures ok == o.Saved?
    {
      ghost var ws := SaveWrites(session);
      ghost var d0 := disk;
      SaveUnfolds(d0, session, o);
      if o == Broke(0, true) || o == Broke(0, false) {
        return false;
      }
      disk := ApplyWrite(disk, PutSession(session));
      if o == Broke(1, true) || o == Broke(1, false) {
        return false;
      }
      match session.phase {
        case Active => disk := ApplyWrite(disk, PutActive(session.sessionId));
        case Idle =>
        case _ => ClearActivePointer();
      }
      ok := o.Saved?;
    }

    method ClearActivePointer()
      modifies this
      ensures disk == old(disk).(active := None)
    {
      disk := disk.(active := None);
    }
  }

  lemma SaveUnfolds(d: Disk, session: StoredSession, o: SaveOutcome)
    ensures var d1 := ApplyWrite(d, PutSession(session));
      CaptureModel.Save(d, session, o)
      == if o.Broke? && o.done == 0 then d
         else if o.Broke? && o.done == 1 then d1
         else if session.phase == Active then ApplyWrite(d1, PutActive(session.sessionId))
         else if session.phase == Idle then d1
         else ApplyWrite(d1, ClearActive)
  {
    var ws := SaveWrites(session);
    var d1 := ApplyWrite(d, PutSession(session));
    assert ApplyWrites(d, ws[..0]) == d;
    assert ws[..1] == [PutSession(session)] && ws[..1][1..] == [];
    assert ApplyWrites(d, ws[..1]) == d1;
    if |ws| == 2 {
      assert ws[1..] == [ws[1]] && [ws[1]][1..] == [];
      var d2 := ApplyWrite(d1, ws[1]);
      assert ApplyWrites(d1, [ws[1]]) == ApplyWrites(d2, []) == d2;
      assert ApplyWrites(d, ws) == d2;
    } else {
      assert ws[1..] == [];
      assert ApplyWrites(d, ws) == d1;
    }
  }

  /** One photo of the restoring loop. */
  lemma RecoverOne(done: seq<Photo>, rest: seq<Photo>, dir: string, files: Files)
    requires rest != []
    ensures var (ps, f) := RecoverAll(rest, dir, files);
      var (ps', f') := RecoverAll(rest[1..], dir, RecoverFiles(rest[0], dir, files));
      f == f' && done + ps == (done + [Recover(rest[0], dir, files)]) + ps'
  {
  }

  class CaptureService {
    const cfg: Config
    const store: CaptureSessionStore
    var phase: Phase
    var accepting: bool
    var sessionId: Option<string>
    var records: seq<ExportRecord>
    var photos: seq<Photo>
    var nextNumber: nat
    var counters: Counters
    var fatal: bool
    var queue: seq<Job>
    var inflight: int

    ghost function View(): Memory
      reads this
    {
      Memory(phase, accepting, sessionId, records, photos, nextNumber, counters, fatal, queue, inflight)
    }

    /** A new process: blank, then whatever the active pointer brings back. */
    constructor (cfg: Config, store: CaptureSessionStore, o: SaveOutcome)
      modifies store
      ensures this.cfg == cfg && this.store == store
      ensures var e := Restore(cfg, old(store.disk), o);
        View() == e.m && store.disk == e.d
    {
      this.cfg := cfg;
      this.store := store;
      phase, accepting, sessionId := Idle, true, None;
      records, photos, nextNumber, counters := [], [], 1, ZERO;
      fatal, queue, inflight := false, [], 0;
      new;
      if cfg.store && LoadActive(store.disk).Some? {
        RestoreSession(LoadActive(store.disk).value, o);
      }
    }

    /** The restoring loop: settle every photo, removing the files of those half taken. */
    method RestoreSession(stored: StoredSession, o: SaveOutcome)
      requires cfg.store && !fatal && queue == [] && inflight == 0
      modifies this, store
      ensures var (ps, files) := RecoverAll(stored.photos, stored.sessionId, old(store.disk).files);
        var e := PersistAs(cfg,
                   Memory(stored.phase, true, Some(stored.sessionId), stored.records, ps,
                          stored.nextNumber, stored.counters, false, [], 0),
                   old(store.disk).(files := files), o);
        View() == e.m && store.disk == e.d
    {
      phase, sessionId, records := stored.phase, Some(stored.sessionId), stored.records;
      nextNumber, counters := stored.nextNumber, stored.counters;
      var dir := stored.sessionId;
      var recovered: seq<Photo> := [];
      ghost var d0 := store.disk;
      ghost var rest := stored.photos;
      assert [] + RecoverAll(rest, dir, d0.files).0 == RecoverAll(rest, dir, d0.files).0;
      for i := 0 to |stored.photos|
        invariant rest == stored.photos[i..]
        invariant store.disk == d0.(files := store.disk.files)
        invariant var (ps, files) := RecoverAll(rest, dir, store.disk.files);
          RecoverAll(stored.photos, dir, d0.files) == (recovered + ps, files)
        invariant View() == Memory(stored.phase, old(accepting), Some(dir), stored.records, old(photos),
                                   stored.nextNumber, stored.counters, false, [], 0)
      {
        var photo := stored.photos[i];
        RecoverOne(recovered, rest, dir, store.disk.files);
        rest := rest[1..];
        if photo.status == Capturing {
          store.disk := store.disk.(files := store.disk.files - {(dir, photo.fileName)});
          recovered := recovered + [photo.(status := PhotoFailed, digest := None, size := None)];
        } else if photo.status == Complete && photo.fileName != "" && (dir, photo.fileName) !in store.disk.files {
          recovered := recovered + [photo.(status := PhotoFailed, digest := None, size := None)];
        } else {
          recovered := recovered + [photo];
        }
      }
      assert recovered + [] == recovered;
      photos := recovered;
      accepting := true;
      var _ := PersistSessionLocked(o);
    }

    method PersistSessionLocked(o: SaveOutcome) returns (ok: bool)
      modifies store
      ensures store.disk == Persist(cfg, View(), old(store.disk), o)
      ensures ok == PersistSucceeds(cfg, View(), o)
    {
      ok := true;
      if cfg.store && sessionId.Some? && phase != Idle {
        ok := store.Save(StoredSession(sessionId.value, phase, records, photos, nextNumber, counters), o);
      }
    }

    method Start(newId: string, o: SaveOutcome) returns (v: Verdict)
      modifies this, store
      ensures Effect(View(), store.disk, v) == CaptureModel.Start(cfg, old(View()), old(store.disk), newId, o)
    {
      if phase != Idle && phase != Finished {
        return Refused;
      }
      phase, accepting, sessionId := Active, true, Some(newId);
      records, photos, nextNumber, counters := [], [], 1, ZERO;
      var ok := PersistSessionLocked(o);
      v := if ok then Accepted else Raised;
    }

    method AbortStart(cleared: bool) returns (v: Verdict)
      modifies this, store
      ensures Effect(View(), store.disk, v) == CaptureModel.AbortStart(cfg, old(View()), old(store.disk), cleared)
    {
      if phase != Active || records != [] {
        return Refused;
      }
      phase, accepting, sessionId := Idle, false, None;
      if cfg.store {
        if !cleared {
          return Raised;
        }
        store.ClearActivePointer();
      }
      v := Accepted;
    }

    /** The returned job is the one the caller goes on to put in the queue. */
    method Record(r: Reading, photoId: string, o: SaveOutcome) returns (v: Verdict, job: Option<Job>)
      modifies this, store
      ensures (Effect(View(), store.disk, v), job)
           == CaptureModel.Record(cfg, old(View()), old(store.disk), r, photoId, o)
    {
      hide Persist, PersistSucceeds, CaptureModel.Photograph;
      job := None;
      if fatal {
        return Raised, None;
      }
      if phase != Active || !accepting {
        return Accepted, None;
      }
      counters := counters.(physical := counters.physical + 1);
      if !r.accepted {
        counters := counters.(rejected := counters.rejected + 1);
        var ok := PersistSessionLocked(o);
        return if ok then Accepted else Raised, None;
      }
      counters := counters.(f2Accepted := counters.f2Accepted + 1);
      if r.line.None? {
        counters := counters.(notExportable := counters.notExportable + 1);
        var ok := PersistSessionLocked(o);
        return if ok then Accepted else Raised, None;
      }
      counters := counters.(accepted := counters.accepted + 1);
      records := records + [ExportRecord(r.sequence, r.line.value)];
      v := Accepted;
      if cfg.camera && cfg.store && sessionId.Some? {
        v, job := Photograph(r, photoId, o);
      }
    }

    method Photograph(r: Reading, photoId: string, o: SaveOutcome) returns (v: Verdict, job: Option<Job>)
      requires r.line.Some? && sessionId.Some?
      modifies this, store
      ensures (Effect(View(), store.disk, v), job)
           == CaptureModel.Photograph(cfg, old(View()), old(store.disk), r, photoId, o)
    {
      hide Persist, PersistSucceeds;
      var number := nextNumber;
      var fileName := PhotoFileName(photoId, number);
      ghost var before := photos;
      nextNumber := nextNumber + 1;
      photos := photos + [Photo(photoId, number, r.sequence, r.line.value, Capturing, fileName, None, None)];
      inflight := inflight + 1;
      var ok := PersistSessionLocked(o);
      if ok {
        v, job := Accepted, Some(Job(photoId, number, fileName, sessionId.value));
      } else {
        assert photos[..|photos| - 1] == before;
        photos := photos[..|photos| - 1];
        nextNumber := nextNumber - 1;
        inflight := inflight - 1;
        fatal := true;
        accepting := false;
        v, job := Raised, None;
      }
    }

    /** The last section of `finish`; `exported` is whether the text file was written. */
    method FinishLocked(exported: bool, o: SaveOutcome) returns (v: Verdict)
      modifies this, store
      ensures Effect(View(), store.disk, v)
           == CaptureModel.FinishLocked(cfg, old(View()), old(store.disk), exported, o)
    {
      if phase != Active && phase != ExportFailed {
        return Refused;
      }
      if exists i :: 0 <= i < |photos| && photos[i].status == Capturing {
        return Refused;
      }
      if records == [] {
        phase := Finished;
      } else if !exported {
        phase := ExportFailed;
        var _ := PersistSessionLocked(o);
        return Raised;
      } else {
        phase := Finished;
      }
      var ok := PersistSessionLocked(o);
      v := if ok then Accepted else Raised;
    }

    method MarkExportFailed(o: SaveOutcome) returns (v: Verdict)
      modifies this, store
      ensures Effect(View(), store.disk, v) == CaptureModel.MarkExportFailed(cfg, old(View()), old(store.disk), o)
    {
      if phase == Idle {
        return Refused;
      }
      phase := ExportFailed;
      var ok := PersistSessionLocked(o);
      v := if ok then Accepted else Raised;
    }

    method UpdatePhotoRecord(id: string, status: PhotoStatus, jpeg: Option<Bytes>, o: SaveOutcome) returns (v: Verdict)
      modifies this, store
      ensures Effect(View(), store.disk, v)
           == UpdatePhoto(cfg, old(View()), old(store.disk), id, status, jpeg, o)
    {
      var updated: seq<Photo> := [];
      for i := 0 to |photos|
        invariant |updated| == i
        invariant forall k :: 0 <= k < i ==> updated[k] == WithStatus(photos[k], id, status, jpeg)
      {
        var record := photos[i];
        if record.id != id {
          updated := updated + [record];
        } else {
          updated := updated + [record.(status := status,
            digest := if jpeg.Some? then Some(Sha256(jpeg.value)) else None,
            size := if jpeg.Some? then Some(|jpeg.value|) else None)];
        }
      }
      assert updated == UpdatePhotos(photos, id, status, jpeg);
      photos := updated;
      var ok := PersistSessionLocked(o);
      v := if ok then Accepted else Raised;
    }
  }
}
