/** Which photos go into a package, and the fingerprint of its content
    (raspberry-scanner/session_package_export.py). */
module PackageFingerprint {
  import opened Options
  import opened Text
  import opened Sequences
  import opened Sorting
  import opened PhotoNames
  import opened CaptureModel

  // ----- selecting the photos -----

  predicate ByNumber(p: Photo, q: Photo) {
    p.number <= q.number
  }

  ghost predicate DistinctIds(ps: seq<Photo>) {
    forall i, j :: 0 <= i < j < |ps| ==> ps[i].id != ps[j].id
  }

  ghost predicate DistinctNumbers(ps: seq<Photo>) {
    forall i, j :: 0 <= i < j < |ps| ==> ps[i].number != ps[j].number
  }

  function Ids(ps: seq<Photo>): (r: seq<string>)
    ensures |r| == |ps| && forall i :: 0 <= i < |ps| ==> r[i] == ps[i].id
  {
    seq(|ps|, i requires 0 <= i < |ps| => ps[i].id)
  }

  function Numbers(ps: seq<Photo>): (r: seq<nat>)
    ensures |r| == |ps| && forall i :: 0 <= i < |ps| ==> r[i] == ps[i].number
  {
    seq(|ps|, i requires 0 <= i < |ps| => ps[i].number)
  }

  /** `set(xs)`. */
  function Elements<T(==, !new)>(xs: seq<T>): (r: set<T>)
    ensures forall x :: x in r <==> x in xs
  {
    if xs == [] then {}
    else
      assert xs == [xs[0]] + xs[1..];
      {xs[0]} + Elements(xs[1..])
  }

  lemma {:induction false} ElementsCount<T(!new)>(xs: seq<T>)
    ensures |Elements(xs)| <= |xs|
    ensures |Elements(xs)| == |xs| <==> Distinct(xs)
  {
    hide Distinct;
    if xs == [] {
      NoneDistinct<T>();
    } else {
      ElementsCount(xs[1..]);
      DistinctCons(xs);
      if xs[0] in xs[1..] {
        assert Elements(xs) == Elements(xs[1..]);
      } else {
        assert |Elements(xs)| == 1 + |Elements(xs[1..])|;
      }
    }
  }

  lemma NoneDistinct<T>()
    ensures Distinct<T>([])
  {
  }

  lemma DistinctCons<T>(xs: seq<T>)
    requires xs != []
    ensures Distinct(xs) <==> xs[0] !in xs[1..] && Distinct(xs[1..])
  {
    if xs[0] !in xs[1..] && Distinct(xs[1..]) {
      forall i, j | 0 <= i < j < |xs| ensures xs[i] != xs[j] {
        assert xs[1..][j - 1] == xs[j];
        if i > 0 { assert xs[1..][i - 1] == xs[i]; }
      }
    }
    if Distinct(xs) {
      assert forall j :: 0 <= j < |xs[1..]| ==> xs[1..][j] == xs[j + 1];
    }
  }

  predicate AnyOf(ps: seq<Photo>, status: PhotoStatus) {
    exists i :: 0 <= i < |ps| && ps[i].status == status
  }

  /** `_select_complete_photos`. With no CAPTURING and no PHOTO_FAILED photo, all are COMPLETE. */
  function SelectCompletePhotos(ps: seq<Photo>): Result<seq<Photo>> {
    if AnyOf(ps, Capturing) then Err("EXPORT_PHOTOS_NOT_TERMINAL")
    else if AnyOf(ps, PhotoFailed) then Err("EXPORT_PHOTO_EVIDENCE_FAILED")
    else if |ps| != |Elements(Ids(ps))| then Err("EXPORT_DUPLICATE_CAPTURE_PHOTO_ID")
    else if |ps| != |Elements(Numbers(ps))| then Err("EXPORT_DUPLICATE_SEQUENCE_NUMBER")
    else Ok(Sort(ByNumber, ps))
  }

  lemma DuplicatesCounted(ps: seq<Photo>)
    ensures |Elements(Ids(ps))| == |ps| <==> DistinctIds(ps)
    ensures |Elements(Numbers(ps))| == |ps| <==> DistinctNumbers(ps)
  {
    hide Elements;
    ElementsCount(Ids(ps));
    ElementsCount(Numbers(ps));
  }

  /** The photos are accepted exactly when all are COMPLETE with distinct ids and numbers; then all of
      them are selected, in order of number. */
  lemma SelectedIff(ps: seq<Photo>)
    ensures SelectCompletePhotos(ps).Ok? <==>
      (forall i :: 0 <= i < |ps| ==> ps[i].status == Complete) && DistinctIds(ps) && DistinctNumbers(ps)
    ensures SelectCompletePhotos(ps).Ok? ==>
      var selected := SelectCompletePhotos(ps).value;
      multiset(selected) == multiset(ps) && Sorted(ByNumber, selected)
  {
    hide Elements, DistinctIds, DistinctNumbers, Sort, Sorted;
    DuplicatesCounted(ps);
    SortSorted(ByNumber, ps);
    SortContents(ByNumber, ps);
  }

  // ----- resolving the files -----

  datatype Asset = Asset(id: string, number: nat, fileName: string, digest: Digest, size: nat)

  /** The names that lead out of the session's directory. */
  type Escapes = string -> bool

  /** Without links, a plain name stays in the directory. */
  ghost predicate NoLinks(escapes: Escapes) {
    forall name :: Free('/', name) && name != "." && name != ".." ==> !escapes(name)
  }

  lemma NamedStaysInside(escapes: Escapes, id: string, number: nat)
    requires NoLinks(escapes)
    ensures !escapes(PhotoFileName(id, number))
  {
    hide PhotoFileName;
    NamesArePlain(id, number);
  }

  function ResolveOne(dir: string, files: map<(string, string), Bytes>, escapes: Escapes, p: Photo): Result<Asset> {
    if p.fileName == "" then Err("EXPORT_PHOTO_FILE_NAME_MISSING")
    else if (dir, p.fileName) !in files then Err("EXPORT_PHOTO_FILE_MISSING")
    else if escapes(p.fileName) then Err("EXPORT_PHOTO_PATH_INVALID")
    else
      var content := files[(dir, p.fileName)];
      if p.size.Some? && p.size.value != |content| then Err("EXPORT_PHOTO_SIZE_MISMATCH")
      else if p.digest.None? then Err("EXPORT_PHOTO_SHA_MISSING")
      else if p.digest.value != Sha256(content) then Err("EXPORT_PHOTO_SHA_MISMATCH")
      else Ok(Asset(p.id, p.number, p.fileName, p.digest.value, |content|))
  }

  /** A photo is resolved exactly when its file is there, inside the session's directory, with the recorded digest
      and, if one is recorded, the recorded size; the asset describes that file. */
  lemma ResolvedIff(dir: string, files: map<(string, string), Bytes>, escapes: Escapes, p: Photo)
    ensures ResolveOne(dir, files, escapes, p).Ok?
      <==> && p.fileName != "" && (dir, p.fileName) in files && !escapes(p.fileName)
           && var content := files[(dir, p.fileName)];
              p.digest == Some(Sha256(content)) && (p.size == None || p.size == Some(|content|))
    ensures ResolveOne(dir, files, escapes, p).Ok? ==>
      var content := files[(dir, p.fileName)];
      ResolveOne(dir, files, escapes, p).value == Asset(p.id, p.number, p.fileName, Sha256(content), |content|)
  {
  }

  /** The first photo that cannot be resolved decides the error. */
  ghost predicate Resolves(
    dir: string, files: map<(string, string), Bytes>, escapes: Escapes, ps: seq<Photo>, r: Result<seq<Asset>>)
  {
    match r
    case Ok(assets) =>
      |assets| == |ps| && forall i :: 0 <= i < |ps| ==> ResolveOne(dir, files, escapes, ps[i]) == Ok(assets[i])
    case Err(code) =>
      exists i :: 0 <= i < |ps| && ResolveOne(dir, files, escapes, ps[i]) == Err(code)
        && forall j :: 0 <= j < i ==> ResolveOne(dir, files, escapes, ps[j]).Ok?
  }

  method ResolvePhotoAssets(
    dir: string, files: map<(string, string), Bytes>, escapes: Escapes, ps: seq<Photo>)
    returns (r: Result<seq<Asset>>)
    ensures Resolves(dir, files, escapes, ps, r)
  {
    var resolved: seq<Asset> := [];
    for i := 0 to |ps|
      invariant |resolved| == i
      invariant forall j :: 0 <= j < i ==> ResolveOne(dir, files, escapes, ps[j]) == Ok(resolved[j])
    {
      var asset := ResolveOne(dir, files, escapes, ps[i]);
      if asset.Err? { return Err(asset.code); }
      resolved := resolved + [asset.value];
    }
    r := Ok(resolved);
  }

  // ----- the fingerprint -----

  const MIME := "image/jpeg"
  const VARIANT := "ORIGINAL"

  /** Digests as text. */
  type Hex = Digest -> string

  ghost predicate GoodHex(hex: Hex) {
    && (forall d :: Free('|', hex(d)) && Free(':', hex(d)))
    && (forall d, e :: hex(d) == hex(e) ==> d == e)
  }

  /** The fields after the id. */
  function Fields(hex: Hex, a: Asset): seq<string> {
    [Decimal(a.number), a.fileName, MIME, Decimal(a.size), hex(a.digest), VARIANT]
  }

  /** `_canonical_photo_descriptor_line`. */
  function DescriptorLine(hex: Hex, a: Asset): string {
    Join(':', [a.id] + Fields(hex, a))
  }

  predicate ByKey(a: Asset, b: Asset) {
    a.number < b.number || (a.number == b.number && StrLe(a.id, b.id))
  }

  function DescriptorLines(hex: Hex, assets: seq<Asset>): (r: seq<string>)
    ensures |r| == |assets| && forall i :: 0 <= i < |r| ==> r[i] == DescriptorLine(hex, assets[i])
  {
    seq(|assets|, i requires 0 <= i < |assets| => DescriptorLine(hex, assets[i]))
  }

  /** The text that is hashed. An export passes no freeze id and no freeze generation. */
  function Payload(hex: Hex, csvChecksum: string, assets: seq<Asset>): string {
    Join('|', ["pkg-v2", "", "", csvChecksum, Join('|', DescriptorLines(hex, Sort(ByKey, assets)))])
  }

  /** The hashed text spelled out, for photos in order of number and id. */
  lemma PayloadSpelled(hex: Hex, csv: string, assets: seq<Asset>)
    requires Sorted(ByKey, assets)
    ensures Payload(hex, csv, assets) == "pkg-v2|||" + csv + "|" + Join('|', DescriptorLines(hex, assets))
    ensures forall i :: 0 <= i < |assets| ==> DescriptorLines(hex, assets)[i] == Spelled(hex, assets[i])
  {
    hide Join, DescriptorLines, DescriptorLine, Sorted, Decimal;
    SortOfSorted(ByKey, assets);
    var part := Join('|', DescriptorLines(hex, assets));
    JoinConcat('|', ["pkg-v2", "", "", csv], [part]);
    assert ["pkg-v2", "", "", csv] + [part] == ["pkg-v2", "", "", csv, part];
    JoinSingle(part);
    HeadSpelled(csv);
    forall i | 0 <= i < |assets| ensures DescriptorLine(hex, assets[i]) == Spelled(hex, assets[i]) {
      DescriptorSpelled(hex, assets[i]);
    }
  }

  function Spelled(hex: Hex, a: Asset): string {
    a.id + ":" + Decimal(a.number) + ":" + a.fileName + ":image/jpeg:" + Decimal(a.size) + ":" + hex(a.digest) + ":ORIGINAL"
  }

  lemma DescriptorSpelled(hex: Hex, a: Asset)
    ensures DescriptorLine(hex, a) == Spelled(hex, a)
  {
    hide Join, Decimal;
    LineSpelled(a.id, Decimal(a.number), a.fileName, Decimal(a.size), hex(a.digest));
  }

  lemma HeadSpelled(csv: string)
    ensures Join('|', ["pkg-v2", "", "", csv]) == "pkg-v2|||" + csv
  {
    assert ["pkg-v2", "", "", csv][1..] == ["", "", csv] && ["", "", csv][1..] == ["", csv] && ["", csv][1..] == [csv];
    assert Join('|', [csv]) == csv;
    assert Join('|', ["", csv]) == "|" + csv;
    assert Join('|', ["", "", csv]) == "||" + csv;
    assert "pkg-v2" + ['|'] + ("||" + csv) == "pkg-v2|||" + csv;
  }

  lemma LineSpelled(id: string, number: string, name: string, size: string, digest: string)
    ensures Join(':', [id] + [number, name, MIME, size, digest, VARIANT])
      == id + ":" + number + ":" + name + ":image/jpeg:" + size + ":" + digest + ":ORIGINAL"
  {
    hide Join;
    JoinConcat(':', [id, number, name], [MIME, size, digest, VARIANT]);
    assert [id] + [number, name, MIME, size, digest, VARIANT] == [id, number, name] + [MIME, size, digest, VARIANT];
    JoinThree(id, number, name);
    JoinConcat(':', [MIME], [size, digest, VARIANT]);
    assert [MIME] + [size, digest, VARIANT] == [MIME, size, digest, VARIANT];
    JoinThree(size, digest, VARIANT);
    JoinColon(MIME);
    assert ":" + MIME + ":" == ":image/jpeg:" && ":" + VARIANT == ":ORIGINAL";
    var head, tail := id + ":" + number + ":" + name, size + ":" + digest;
    assert head + ":" + (MIME + ":" + (tail + ":" + VARIANT)) == head + (":" + MIME + ":") + tail + (":" + VARIANT);
  }

  lemma JoinThree(a: string, b: string, c: string)
    ensures Join(':', [a, b, c]) == a + ":" + b + ":" + c
  {
    assert [a, b, c][1..] == [b, c] && [b, c][1..] == [c];
    assert Join(':', [b, c]) == b + ":" + c;
  }

  lemma JoinColon(s: string)
    ensures Join(':', [s]) == s
  {
  }

  lemma ByKeyIsTotal()
    ensures TotalPreorder(ByKey)
  {
    forall a, b ensures ByKey(a, b) || ByKey(b, a) { StrLeTotal(a.id, b.id); }
    forall a, b, c | ByKey(a, b) && ByKey(b, c) ensures ByKey(a, c) {
      if a.number == b.number == c.number { StrLeTransitive(a.id, b.id, c.id); }
    }
  }

  ghost predicate NumbersIdentify(assets: seq<Asset>) {
    forall a, b :: a in assets && b in assets && a.number == b.number ==> a == b
  }

  /** The payload does not depend on the order of the photo list. */
  lemma PayloadIgnoresOrder(hex: Hex, csv: string, a: seq<Asset>, b: seq<Asset>)
    requires multiset(a) == multiset(b) && NumbersIdentify(a)
    ensures Payload(hex, csv, a) == Payload(hex, csv, b)
  {
    hide StrLe, Join, DescriptorLines;
    ByKeyIsTotal();
    SortIgnoresOrder(ByKey, a, b);
  }

  // ----- reading it back -----

  /** What an asset's texts must be free of; `_photo_file_name` sees to the file name. */
  ghost predicate Plain(a: Asset) {
    Free('|', a.id) && Free('|', a.fileName) && Free(':', a.fileName)
  }

  lemma NamedIsPlain(a: Asset)
    requires a.fileName == PhotoFileName(a.id, a.number) && Free('|', a.id)
    ensures Plain(a)
  {
    NamesAreDelimiterFree(a.id, a.number);
  }

  lemma {:induction false} JoinFree(c: char, d: char, parts: seq<string>)
    requires c != d && forall i :: 0 <= i < |parts| ==> Free(d, parts[i])
    ensures Free(d, Join(c, parts))
  {
    if |parts| > 1 { JoinFree(c, d, parts[1..]); }
  }

  lemma FieldsFree(hex: Hex, a: Asset, d: char)
    requires GoodHex(hex) && Plain(a) && (d == '|' || d == ':')
    ensures forall i :: 0 <= i < 6 ==> Free(d, Fields(hex, a)[i])
  {
    hide Decimal;
    assert Free(d, Decimal(a.number)) && Free(d, Decimal(a.size));
    assert Free(d, MIME) && Free(d, VARIANT);
  }

  lemma LineIs(hex: Hex, a: Asset)
    ensures DescriptorLine(hex, a) == a.id + ":" + Join(':', Fields(hex, a))
  {
    JoinConcat(':', [a.id], Fields(hex, a));
  }

  lemma LineFree(hex: Hex, a: Asset)
    requires GoodHex(hex) && Plain(a)
    ensures Free('|', DescriptorLine(hex, a)) && DescriptorLine(hex, a) != ""
  {
    hide Join, Fields, DescriptorLine;
    LineIs(hex, a);
    FieldsFree(hex, a, '|');
    FieldsLength(hex, a);
    JoinFree(':', '|', Fields(hex, a));
  }

  lemma FieldsLength(hex: Hex, a: Asset)
    ensures |Fields(hex, a)| == 6
  {
  }

  lemma LineSplits(hex: Hex, a: Asset)
    requires GoodHex(hex) && Plain(a)
    ensures SplitOn(':', DescriptorLine(hex, a)) == SplitOn(':', a.id) + Fields(hex, a)
  {
    hide Join, Fields, DescriptorLine, SplitOn;
    LineIs(hex, a);
    FieldsFree(hex, a, ':');
    FieldsLength(hex, a);
    SplitConcat(':', a.id, Join(':', Fields(hex, a)));
    SplitJoin(':', Fields(hex, a));
  }

  /** A line determines its photo's id, number, name, size and digest - even an id containing ':'. */
  lemma LineDetermines(hex: Hex, a: Asset, b: Asset)
    requires GoodHex(hex) && Plain(a) && Plain(b) && DescriptorLine(hex, a) == DescriptorLine(hex, b)
    ensures a == b
  {
    hide Join, DescriptorLine, SplitOn, Decimal, Fields, GoodHex;
    LineSplits(hex, a);
    LineSplits(hex, b);
    var x, y := SplitOn(':', a.id), SplitOn(':', b.id);
    FieldsLength(hex, a);
    FieldsLength(hex, b);
    CommonSuffix(x, Fields(hex, a), y, Fields(hex, b));
    JoinSplit(':', a.id);
    JoinSplit(':', b.id);
    FieldsDetermine(hex, a, b);
  }

  lemma CommonSuffix<T>(x: seq<T>, s: seq<T>, y: seq<T>, t: seq<T>)
    requires x + s == y + t && |s| == |t|
    ensures x == y && s == t
  {
    assert x == (x + s)[..|x|] && y == (y + t)[..|y|];
    assert s == (x + s)[|x|..] && t == (y + t)[|y|..];
  }

  lemma FieldsDetermine(hex: Hex, a: Asset, b: Asset)
    requires GoodHex(hex) && Fields(hex, a) == Fields(hex, b)
    ensures a.number == b.number && a.fileName == b.fileName && a.size == b.size && a.digest == b.digest
  {
    hide Decimal;
    var f, g := Fields(hex, a), Fields(hex, b);
    assert f[0] == g[0] && f[1] == g[1] && f[3] == g[3] && f[4] == g[4];
    DecimalInjective(a.number, b.number);
    DecimalInjective(a.size, b.size);
  }

  lemma {:induction false} LinesDetermine(hex: Hex, a: seq<Asset>, b: seq<Asset>)
    requires GoodHex(hex) && (forall x :: x in a ==> Plain(x)) && (forall x :: x in b ==> Plain(x))
    requires DescriptorLines(hex, a) == DescriptorLines(hex, b)
    ensures a == b
  {
    hide DescriptorLine, GoodHex, Plain;
    forall i | 0 <= i < |a| ensures a[i] == b[i] {
      assert DescriptorLines(hex, a)[i] == DescriptorLines(hex, b)[i];
      LineDetermines(hex, a[i], b[i]);
    }
  }

  lemma LinesArePlain(hex: Hex, assets: seq<Asset>)
    requires GoodHex(hex) && forall x :: x in assets ==> Plain(x)
    ensures forall p :: p in DescriptorLines(hex, Sort(ByKey, assets)) ==> Free('|', p) && p != ""
  {
    hide DescriptorLine, GoodHex, Plain, Sort;
    var sorted := Sort(ByKey, assets);
    SortContents(ByKey, assets);
    forall i | 0 <= i < |sorted|
      ensures Free('|', DescriptorLines(hex, sorted)[i]) && DescriptorLines(hex, sorted)[i] != ""
    {
      assert sorted[i] in multiset(sorted);
      LineFree(hex, sorted[i]);
    }
  }

  lemma PayloadIs(hex: Hex, csv: string, assets: seq<Asset>)
    ensures Payload(hex, csv, assets)
      == Join('|', ["pkg-v2", "", "", csv]) + "|" + Join('|', DescriptorLines(hex, Sort(ByKey, assets)))
  {
    hide Join, DescriptorLines, Sort;
    var head, part := ["pkg-v2", "", "", csv], Join('|', DescriptorLines(hex, Sort(ByKey, assets)));
    assert head + [part] == ["pkg-v2", "", "", csv, part];
    JoinConcat('|', head, [part]);
    JoinSingle(part);
  }

  lemma HeadSplits(csv: string)
    requires Free('|', csv)
    ensures SplitOn('|', Join('|', ["pkg-v2", "", "", csv])) == ["pkg-v2", "", "", csv]
  {
    hide Join, SplitOn;
    SplitJoin('|', ["pkg-v2", "", "", csv]);
  }

  /** The photo part as pieces: one line per photo, or one empty piece. */
  function Pieces(hex: Hex, assets: seq<Asset>): seq<string> {
    if assets == [] then [""] else DescriptorLines(hex, Sort(ByKey, assets))
  }

  lemma PartSplits(hex: Hex, assets: seq<Asset>)
    requires GoodHex(hex) && forall x :: x in assets ==> Plain(x)
    ensures SplitOn('|', Join('|', DescriptorLines(hex, Sort(ByKey, assets)))) == Pieces(hex, assets)
    ensures |Pieces(hex, assets)| >= 1 && (assets != [] ==> Pieces(hex, assets)[0] != "")
  {
    hide Join, SplitOn, GoodHex, Plain, Sort, Free, DescriptorLine;
    var lines := DescriptorLines(hex, Sort(ByKey, assets));
    LinesArePlain(hex, assets);
    if assets == [] {
      JoinNothing();
    } else {
      SplitJoin('|', lines);
      assert lines[0] in lines;
    }
  }

  /** How the payload splits: four fixed fields, then the pieces. */
  lemma PayloadSplits(hex: Hex, csv: string, assets: seq<Asset>)
    requires GoodHex(hex) && (forall x :: x in assets ==> Plain(x)) && Free('|', csv)
    ensures SplitOn('|', Payload(hex, csv, assets)) == ["pkg-v2", "", "", csv] + Pieces(hex, assets)
  {
    hide Join, DescriptorLines, SplitOn, GoodHex, Plain, Sort, Payload, Pieces, Free;
    PartSplits(hex, assets);
    PayloadIs(hex, csv, assets);
    HeadSplits(csv);
    SplitConcat('|', Join('|', ["pkg-v2", "", "", csv]), Join('|', DescriptorLines(hex, Sort(ByKey, assets))));
  }

  lemma JoinSingle(s: string)
    ensures Join('|', [s]) == s
  {
  }

  lemma JoinNothing()
    ensures Join('|', []) == "" && SplitOn('|', "") == [""]
  {
  }

  lemma SameLines(hex: Hex, csv: string, csv': string, a: seq<Asset>, b: seq<Asset>)
    requires GoodHex(hex) && Free('|', csv) && Free('|', csv')
    requires (forall x :: x in a ==> Plain(x)) && (forall x :: x in b ==> Plain(x))
    requires Payload(hex, csv, a) == Payload(hex, csv', b)
    ensures csv == csv' && DescriptorLines(hex, Sort(ByKey, a)) == DescriptorLines(hex, Sort(ByKey, b))
  {
    hide Payload, Join, DescriptorLine, SplitOn, GoodHex, Plain, Sort, Free;
    PayloadSplits(hex, csv, a);
    PayloadSplits(hex, csv', b);
    PartSplits(hex, a);
    PartSplits(hex, b);
    var pa, pb := Pieces(hex, a), Pieces(hex, b);
    var sa, sb := ["pkg-v2", "", "", csv] + pa, ["pkg-v2", "", "", csv'] + pb;
    assert sa[3] == csv && sb[3] == csv';
    assert sa[4..] == pa && sb[4..] == pb;
    assert pa[0] == pb[0];
  }

  /** Two payloads are equal exactly when the CSV checksums and the photos are. */
  lemma PayloadsEqualIff(hex: Hex, csv: string, csv': string, a: seq<Asset>, b: seq<Asset>)
    requires GoodHex(hex) && Free('|', csv) && Free('|', csv') && NumbersIdentify(a) && NumbersIdentify(b)
    requires (forall x :: x in a ==> Plain(x)) && (forall x :: x in b ==> Plain(x))
    ensures Payload(hex, csv, a) == Payload(hex, csv', b) <==> csv == csv' && multiset(a) == multiset(b)
  {
    hide Payload, DescriptorLines, GoodHex, Plain, Sort;
    if Payload(hex, csv, a) == Payload(hex, csv', b) {
      SameLines(hex, csv, csv', a, b);
      SortContents(ByKey, a);
      SortContents(ByKey, b);
      SortedPlain(a);
      SortedPlain(b);
      LinesDetermine(hex, Sort(ByKey, a), Sort(ByKey, b));
    }
    if csv == csv' && multiset(a) == multiset(b) {
      PayloadIgnoresOrder(hex, csv, a, b);
    }
  }

  lemma SortedPlain(a: seq<Asset>)
    requires forall x :: x in a ==> Plain(x)
    ensures forall x :: x in Sort(ByKey, a) ==> Plain(x)
  {
    hide Sort, Plain;
    SortContents(ByKey, a);
    assert forall x :: x in Sort(ByKey, a) ==> x in multiset(Sort(ByKey, a));
  }
}
