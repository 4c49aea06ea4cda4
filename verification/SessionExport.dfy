/** What the capture side guarantees to the package export: the export's own checks of ids, numbers,
    digests and sizes never refuse a session that a capture run stored. */
module SessionExport {
  import opened Options
  import opened Text
  import opened Sorting
  import opened PhotoNames
  import opened CaptureModel
  import opened CaptureSystem
  import opened CaptureInvariant
  import opened CaptureTheorems
  import opened PackageFingerprint

  lemma NumberedIsSelected(ps: seq<Photo>, nextNumber: nat)
    requires Numbered(ps, nextNumber)
    ensures SelectCompletePhotos(ps)
      == if AnyOf(ps, Capturing) then Err("EXPORT_PHOTOS_NOT_TERMINAL")
         else if AnyOf(ps, PhotoFailed) then Err("EXPORT_PHOTO_EVIDENCE_FAILED")
         else Ok(ps)
  {
    hide Elements, Sort, AnyOf;
    DuplicatesCounted(ps);
    SortOfSorted(ByNumber, ps);
  }

  lemma NamePresent(id: string, number: nat)
    ensures PhotoFileName(id, number) != ""
  {
    hide Decimal4, SafeId;
  }

  lemma EvidenceResolves(ps: seq<Photo>, nextNumber: nat, dir: string, files: map<(string, string), Bytes>,
                         escapes: Escapes, i: nat)
    requires Numbered(ps, nextNumber) && Evidence(ps, dir, files) && NoLinks(escapes)
    requires i < |ps| && ps[i].status == Complete
    ensures ResolveOne(dir, files, escapes, ps[i])
      == if (dir, ps[i].fileName) !in files then Err("EXPORT_PHOTO_FILE_MISSING")
         else Ok(Asset(ps[i].id, i + 1, ps[i].fileName, Sha256(files[(dir, ps[i].fileName)]), |files[(dir, ps[i].fileName)]|))
  {
    hide PhotoFileName, NoLinks;
    NamePresent(ps[i].id, i + 1);
    NamedStaysInside(escapes, ps[i].id, i + 1);
  }

  lemma StoredFacts(lives: seq<Life>, id: string)
    requires IsHistory(OFF, lives) && id in Outcome(OFF, lives).d.sessions
    ensures var s := Outcome(OFF, lives);
      var stored := s.d.sessions[id];
      && Numbered(stored.photos, stored.nextNumber) && Evidence(stored.photos, id, s.d.files)
      && (stored.phase == Finished ==> AllTerminal(stored.photos))
  {
    hide MemoryOk, FilesPresent, Matched, NotRevived, IsHistory, PipelineOk, CapturingHasJob, QuietWhen;
    hide Numbered, IdsUsed, CountsAgree, Evidence, AllTerminal;
    Reachable(lives);
  }

  /** For any session stored in any history - crashes, changes of camera and failures included - selection refuses only photos
      not COMPLETE, never duplicates; a FINISHED one has no CAPTURING photo to refuse; and a selected
      photo either resolves with the digest and size of its file or has lost its file. */
  lemma StoredSessionsExport(lives: seq<Life>, id: string, escapes: Escapes)
    requires NoLinks(escapes)
    requires IsHistory(OFF, lives) && id in Outcome(OFF, lives).d.sessions
    ensures var s := Outcome(OFF, lives);
      var ps := s.d.sessions[id].photos;
      && (SelectCompletePhotos(ps).Ok? <==> forall i :: 0 <= i < |ps| ==> ps[i].status == Complete)
      && (SelectCompletePhotos(ps).Ok? ==>
            && SelectCompletePhotos(ps).value == ps
            && forall i :: 0 <= i < |ps| ==>
                 if (id, ps[i].fileName) in s.d.files
                 then ResolveOne(id, s.d.files, escapes, ps[i]).Ok?
                   && ResolveOne(id, s.d.files, escapes, ps[i]).value.digest == Sha256(s.d.files[(id, ps[i].fileName)])
                 else ResolveOne(id, s.d.files, escapes, ps[i]) == Err("EXPORT_PHOTO_FILE_MISSING"))
      && (s.d.sessions[id].phase == Finished ==>
            SelectCompletePhotos(ps) != Err("EXPORT_PHOTOS_NOT_TERMINAL"))
  {
    hide IsHistory, Outcome, Evidence, Numbered, ResolveOne, OFF, NoLinks;
    var s := Outcome(OFF, lives);
    var stored := s.d.sessions[id];
    StoredFacts(lives, id);
    NumberedIsSelected(stored.photos, stored.nextNumber);
    forall i | 0 <= i < |stored.photos| && stored.photos[i].status == Complete
      ensures ResolveOne(id, s.d.files, escapes, stored.photos[i])
        == if (id, stored.photos[i].fileName) !in s.d.files then Err("EXPORT_PHOTO_FILE_MISSING")
           else Ok(Asset(stored.photos[i].id, i + 1, stored.photos[i].fileName,
                         Sha256(s.d.files[(id, stored.photos[i].fileName)]), |s.d.files[(id, stored.photos[i].fileName)]|))
    {
      EvidenceResolves(stored.photos, stored.nextNumber, id, s.d.files, escapes, i);
    }
  }
}
