/** Publishing an aisle's text file while keeping what was published before
    (raspberry-scanner/capture.py, `_write_atomic_preserving_existing`). */
module AtomicExport {
  import opened Options
  import opened Text

  type Content = string

  /** The export directory and its `.archive` directory. */
  datatype Directory = Directory(files: map<string, Content>, archive: map<string, Content>)

  // ----- names -----

  /** `str.rfind('.')`, or -1. */
  function LastDot(s: string): (i: int)
    ensures -1 <= i < |s|
    ensures i >= 0 ==> s[i] == '.'
    ensures forall k :: i < k < |s| ==> s[k] != '.'
  {
    if s == "" then -1
    else if s[|s| - 1] == '.' then |s| - 1
    else LastDot(s[..|s| - 1])
  }

  /** `Path(name).stem` and `Path(name).suffix`. */
  function Stem(name: string): string {
    var i := LastDot(name);
    if 0 < i < |name| - 1 then name[..i] else name
  }

  function Suffix(name: string): string {
    var i := LastDot(name);
    if 0 < i < |name| - 1 then name[i..] else ""
  }

  function ArchiveName(stem: string, sequence: nat, suffix: string): string {
    stem + "." + Decimal(sequence) + suffix
  }

  function AisleFile(code: string): string {
    code + ".txt"
  }

  lemma AisleFileParts(code: string)
    requires code != ""
    ensures Stem(AisleFile(code)) == code && Suffix(AisleFile(code)) == ".txt"
  {
    var name := AisleFile(code);
    assert name[|code|] == '.';
    assert forall k :: |code| < k < |name| ==> name[k] == ".txt"[k - |code|];
    assert LastDot(name) == |code|;
    assert name[..|code|] == code && name[|code|..] == ".txt";
  }

  /** What the names look like. */
  lemma KnownNames()
    ensures AisleFile("04") == "04.txt" && Stem("04.txt") == "04" && Suffix("04.txt") == ".txt"
    ensures ArchiveName("04", 12, ".txt") == "04.12.txt"
  {
    AisleFileParts("04");
    assert Decimal(12) == "12";
  }

  /** The part after the last dot is determined. */
  lemma LastPart(a: string, d: string, b: string, e: string)
    requires Free('.', d) && Free('.', e)
    requires a + "." + d == b + "." + e
    ensures a == b && d == e
  {
    var s := a + "." + d;
    assert s[|a|] == '.' && s[|b|] == '.';
    assert forall k :: |a| < k < |s| ==> s[k] == d[k - |a| - 1];
    assert forall k :: |b| < k < |s| ==> s[k] == e[k - |b| - 1];
    assert |a| == |b|;
    assert a == s[..|a|] && b == s[..|b|];
    assert d == s[|a| + 1..] && e == s[|b| + 1..];
  }

  /** Archive names of different aisles, or of different numbers, never collide. */
  lemma ArchiveNamesDiffer(code: string, i: nat, code': string, j: nat)
    requires ArchiveName(code, i, ".txt") == ArchiveName(code', j, ".txt")
    ensures code == code' && i == j
  {
    var name := ArchiveName(code, i, ".txt");
    var front, front' := code + "." + Decimal(i), code' + "." + Decimal(j);
    assert name == front + ".txt" && name == front' + ".txt";
    assert front == name[..|name| - 4] && front' == name[..|name| - 4];
    LastPart(code, Decimal(i), code', Decimal(j));
    DecimalInjective(i, j);
  }

  lemma StemSequenceInjective(stem: string, suffix: string, i: nat, j: nat)
    requires ArchiveName(stem, i, suffix) == ArchiveName(stem, j, suffix)
    ensures i == j
  {
    var name := ArchiveName(stem, i, suffix);
    var front, front' := stem + "." + Decimal(i), stem + "." + Decimal(j);
    assert name == front + suffix && name == front' + suffix;
    assert front == name[..|name| - |suffix|] && front' == name[..|name| - |suffix|];
    assert Decimal(i) == front[|stem| + 1..] && Decimal(j) == front'[|stem| + 1..];
    DecimalInjective(i, j);
  }

  // ----- the first free number -----

  ghost predicate TakenBelow(archive: map<string, Content>, stem: string, suffix: string, k: nat) {
    forall j :: 1 <= j < k ==> ArchiveName(stem, j, suffix) in archive
  }

  /** Names tried and found taken are distinct members of the archive, so there are no more than it holds. */
  lemma {:induction false} TakenFits(names: set<string>, stem: string, suffix: string, k: nat)
    requires k >= 1 && forall j :: 1 <= j < k ==> ArchiveName(stem, j, suffix) in names
    ensures k - 1 <= |names|
    decreases k
  {
    if k > 1 {
      var last := ArchiveName(stem, k - 1, suffix);
      forall j | 1 <= j < k - 1 ensures ArchiveName(stem, j, suffix) in names - {last} {
        if ArchiveName(stem, j, suffix) == last { StemSequenceInjective(stem, suffix, j, k - 1); }
      }
      TakenFits(names - {last}, stem, suffix, k - 1);
    }
  }

  function FirstFree(archive: map<string, Content>, stem: string, suffix: string, k: nat): (r: nat)
    requires k >= 1 && TakenBelow(archive, stem, suffix, k)
    ensures r >= k && ArchiveName(stem, r, suffix) !in archive && TakenBelow(archive, stem, suffix, r)
    decreases |archive| + 1 - k
  {
    if ArchiveName(stem, k, suffix) in archive then
      assert TakenBelow(archive, stem, suffix, k + 1);
      TakenFits(archive.Keys, stem, suffix, k + 1);
      assert |archive| == |archive.Keys|;
      FirstFree(archive, stem, suffix, k + 1)
    else k
  }

  /** How far one publication gets: a file system call raises, or the process dies, before the old file is
      linked into the archive, between that and the replacement, or not at all. */
  datatype Extent = NothingDone | ArchivedOnly | Replaced

  function ArchiveOld(d: Directory, filename: string): Directory {
    if filename in d.files then
      var n := FirstFree(d.archive, Stem(filename), Suffix(filename), 1);
      d.(archive := d.archive[ArchiveName(Stem(filename), n, Suffix(filename)) := d.files[filename]])
    else d
  }

  /** The directory after publishing `content` under `filename`, as far as it gets. */
  function Publish(d: Directory, filename: string, content: Content, extent: Extent): Directory {
    match extent
    case NothingDone => d
    case ArchivedOnly => ArchiveOld(d, filename)
    case Replaced => ArchiveOld(d, filename).(files := d.files[filename := content])
  }

  class ExportDirectory {
    var d: Directory

    constructor ()
      ensures d == Directory(map[], map[])
    {
      d := Directory(map[], map[]);
    }

    /** The numbering loop ends because the archive is finite. */
    method WriteAtomicPreservingExisting(filename: string, content: Content, extent: Extent)
      returns (result: Result<Option<string>>)
      modifies this
      ensures d == Publish(old(d), filename, content, extent)
      ensures result.Ok? <==> extent == Replaced
      ensures result.Ok? ==> (result.value.Some? <==> filename in old(d).files)
      ensures result.Ok? && result.value.Some? ==>
        && result.value.value !in old(d).archive && result.value.value in d.archive
        && d.archive[result.value.value] == old(d).files[filename]
    {
      if extent == NothingDone {
        return Err("OS_ERROR");
      }
      var archived := None;
      if filename in d.files {
        var stem, suffix := Stem(filename), Suffix(filename);
        var sequence := 1;
        while ArchiveName(stem, sequence, suffix) in d.archive
          invariant d == old(d)
          invariant sequence >= 1 && TakenBelow(d.archive, stem, suffix, sequence)
          invariant FirstFree(d.archive, stem, suffix, sequence) == FirstFree(d.archive, stem, suffix, 1)
          decreases |d.archive| + 1 - sequence
        {
          assert TakenBelow(d.archive, stem, suffix, sequence + 1);
          TakenFits(d.archive.Keys, stem, suffix, sequence + 1);
          assert |d.archive| == |d.archive.Keys|;
          sequence := sequence + 1;
        }
        var name := ArchiveName(stem, sequence, suffix);
        d := d.(archive := d.archive[name := d.files[filename]]);
        archived := Some(name);
      }
      if extent == ArchivedOnly {
        return Err("OS_ERROR");
      }
      d := d.(files := d.files[filename := content]);
      result := Ok(archived);
    }
  }

  // ----- runs of exports for several aisles -----

  datatype Export = Export(code: string, content: Content, extent: Extent)

  /** `_validate_aisle_code`, on ASCII text. */
  predicate ValidAisle(code: string) {
    code != "" && Trimmed(code)
    && (forall i :: 0 <= i < |code| ==> code[i] != '/' && code[i] != '\\' && code[i] >= ' ' && code[i] != '\U{7F}')
    && (forall i :: 0 <= i < |code| - 1 ==> !(code[i] == '.' && code[i + 1] == '.'))
    && code != "."
  }

  ghost predicate ValidExports(exports: seq<Export>) {
    forall e :: e in exports ==> ValidAisle(e.code)
  }

  function RunExports(exports: seq<Export>): Directory {
    if exports == [] then Directory(map[], map[])
    else
      var last := exports[|exports| - 1];
      Publish(RunExports(exports[..|exports| - 1]), AisleFile(last.code), last.content, last.extent)
  }

  /** What was published for one aisle, oldest first. */
  function Published(exports: seq<Export>, code: string): seq<Content> {
    if exports == [] then []
    else
      var before, last := Published(exports[..|exports| - 1], code), exports[|exports| - 1];
      if last.code == code && last.extent == Replaced then before + [last.content] else before
  }

  /** Which of these each archived file holds, by archive number: an export cut short after archiving
      leaves the current file archived once more. */
  function Archived(exports: seq<Export>, code: string): seq<nat> {
    if exports == [] then []
    else
      var front, last := exports[..|exports| - 1], exports[|exports| - 1];
      var current := |Published(front, code)|;
      if last.code == code && last.extent != NothingDone && current > 0
      then Archived(front, code) + [current - 1]
      else Archived(front, code)
  }

  ghost predicate KeepsHistory(d: Directory, code: string, history: seq<Content>, archived: seq<nat>) {
    && (AisleFile(code) in d.files <==> history != [])
    && (history != [] ==> d.files[AisleFile(code)] == history[|history| - 1])
    && (forall i: nat :: i >= 1 ==>
          ((ArchiveName(code, i, ".txt") in d.archive <==> i <= |archived|)
           && (i <= |archived| ==>
                 archived[i - 1] < |history| && d.archive[ArchiveName(code, i, ".txt")] == history[archived[i - 1]])))
  }

  lemma FirstFreeIsNext(d: Directory, code: string, history: seq<Content>, archived: seq<nat>)
    requires KeepsHistory(d, code, history, archived)
    ensures FirstFree(d.archive, code, ".txt", 1) == |archived| + 1
  {
    var r := FirstFree(d.archive, code, ".txt", 1);
    var next := ArchiveName(code, |archived| + 1, ".txt");
    assert next !in d.archive;
    assert r >= |archived| + 1;
  }

  lemma ArchiveSame(d: Directory, code: string, history: seq<Content>, archived: seq<nat>)
    requires code != "" && KeepsHistory(d, code, history, archived)
    ensures KeepsHistory(ArchiveOld(d, AisleFile(code)), code, history,
                         if history == [] then archived else archived + [|history| - 1])
  {
    AisleFileParts(code);
    if history != [] {
      var n := |archived| + 1;
      FirstFreeIsNext(d, code, history, archived);
      forall i: nat | i >= 1 && ArchiveName(code, i, ".txt") == ArchiveName(code, n, ".txt") ensures i == n {
        ArchiveNamesDiffer(code, i, code, n);
      }
    }
  }

  lemma ReplaceSame(d: Directory, code: string, history: seq<Content>, archived: seq<nat>, content: Content)
    requires KeepsHistory(d, code, history, archived)
    ensures KeepsHistory(d.(files := d.files[AisleFile(code) := content]), code, history + [content], archived)
  {
  }

  lemma ArchiveOther(d: Directory, other: string, code: string, history: seq<Content>, archived: seq<nat>)
    requires other != "" && other != code && KeepsHistory(d, code, history, archived)
    ensures KeepsHistory(ArchiveOld(d, AisleFile(other)), code, history, archived)
  {
    hide ArchiveName, FirstFree, Stem, Suffix;
    AisleFileParts(other);
    if AisleFile(other) in d.files {
      var n := FirstFree(d.archive, other, ".txt", 1);
      forall i: nat ensures ArchiveName(code, i, ".txt") != ArchiveName(other, n, ".txt") {
        if ArchiveName(code, i, ".txt") == ArchiveName(other, n, ".txt") { ArchiveNamesDiffer(code, i, other, n); }
      }
    }
  }

  lemma ReplaceOther(d: Directory, other: string, content: Content, code: string, history: seq<Content>, archived: seq<nat>)
    requires other != code && KeepsHistory(d, code, history, archived)
    ensures KeepsHistory(d.(files := d.files[AisleFile(other) := content]), code, history, archived)
  {
    hide ArchiveName;
    assert other == AisleFile(other)[..|AisleFile(other)| - 4];
    assert code == AisleFile(code)[..|AisleFile(code)| - 4];
  }

  /** For every aisle the file is the latest export published, the archive holds what `Archived` says under
      the numbers 1, 2, ..., and there is nothing else under that aisle's names - whatever exports were cut
      short, and whatever exports of other aisles came in between. */
  lemma {:induction false} HistoryIsKept(exports: seq<Export>, code: string)
    requires ValidExports(exports)
    ensures KeepsHistory(RunExports(exports), code, Published(exports, code), Archived(exports, code))
  {
    hide KeepsHistory, ArchiveOld, ValidAisle;
    if exports == [] {
      NothingYet(code);
    } else {
      var front, last := exports[..|exports| - 1], exports[|exports| - 1];
      var d, history, archived := RunExports(front), Published(front, code), Archived(front, code);
      assert last in exports;
      NotBlank(last.code);
      HistoryIsKept(front, code);
      if last.code != code {
        ArchiveOther(d, last.code, code, history, archived);
        ReplaceOther(ArchiveOld(d, AisleFile(last.code)), last.code, last.content, code, history, archived);
        ArchivingKeepsFiles(d, AisleFile(last.code));
      } else if last.extent != NothingDone {
        ArchiveSame(d, code, history, archived);
        ReplaceSame(ArchiveOld(d, AisleFile(code)), code, history,
                    if history == [] then archived else archived + [|history| - 1], last.content);
        ArchivingKeepsFiles(d, AisleFile(code));
      }
    }
  }

  lemma NothingYet(code: string)
    ensures KeepsHistory(Directory(map[], map[]), code, [], [])
  {
  }

  lemma NotBlank(code: string)
    requires ValidAisle(code)
    ensures code != ""
  {
  }

  lemma ArchivingKeepsFiles(d: Directory, filename: string)
    ensures ArchiveOld(d, filename).files == d.files
  {
  }

  /** No export is lost: each one but the latest is in the archive, and older ones stand under lower
      numbers. */
  lemma {:induction false} EachIsArchived(exports: seq<Export>, code: string)
    ensures Covers(Archived(exports, code), |Published(exports, code)|)
  {
    hide Covers;
    if exports == [] {
      NothingToCover();
    } else {
      var front, last := exports[..|exports| - 1], exports[|exports| - 1];
      EachIsArchived(front, code);
      if last.code == code {
        CoversOneMore(Archived(front, code), |Published(front, code)|);
      }
    }
  }

  /** Of `n` things all but the last are listed, in order, possibly more than once. */
  ghost predicate Covers(archived: seq<nat>, n: nat) {
    && (forall k: nat :: k + 1 < n ==> k in archived)
    && (forall i, j :: 0 <= i < j < |archived| ==> archived[i] <= archived[j])
    && (forall i :: 0 <= i < |archived| ==> archived[i] < n)
  }

  lemma NothingToCover()
    ensures Covers([], 0)
  {
  }

  lemma CoversOneMore(archived: seq<nat>, n: nat)
    requires Covers(archived, n)
    ensures n == 0 ==> Covers(archived, 1)
    ensures n > 0 ==> Covers(archived + [n - 1], n) && Covers(archived + [n - 1], n + 1)
  {
  }

  ghost predicate AllReplaced(exports: seq<Export>) {
    forall i :: 0 <= i < |exports| ==> exports[i].extent == Replaced
  }

  /** When nothing is cut short, archive number i holds the i-th export. */
  lemma {:induction false} ArchivedInOrder(exports: seq<Export>, code: string)
    requires AllReplaced(exports)
    ensures var history, archived := Published(exports, code), Archived(exports, code);
      && |archived| == (if history == [] then 0 else |history| - 1)
      && forall i :: 0 <= i < |archived| ==> archived[i] == i
  {
    if exports != [] {
      ArchivedInOrder(exports[..|exports| - 1], code);
    }
  }

  /** Publishing, cut short or not, never changes or drops an archived file, and replaces a file only once
      it is archived. */
  lemma NothingIsOverwritten(d: Directory, filename: string, content: Content, extent: Extent)
    ensures var d' := Publish(d, filename, content, extent);
      && (forall name :: name in d.archive ==> name in d'.archive && d'.archive[name] == d.archive[name])
      && (filename in d.files ==> d'.files == d.files || d.files[filename] in d'.archive.Values)
  {
    if filename in d.files {
      var n := FirstFree(d.archive, Stem(filename), Suffix(filename), 1);
      var name := ArchiveName(Stem(filename), n, Suffix(filename));
      var d' := ArchiveOld(d, filename);
      assert d'.archive[name] == d.files[filename];
    }
  }
}
