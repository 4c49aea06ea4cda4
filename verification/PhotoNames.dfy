/** File names of captured photos (raspberry-scanner/capture.py, `_photo_file_name`). */
module PhotoNames {
  import opened Text

  function WithoutHyphens(id: string): (r: string)
    ensures forall c :: c in r ==> c in id && c != '-'
  {
    if id == "" then ""
    else if id[0] == '-' then WithoutHyphens(id[1..])
    else [id[0]] + WithoutHyphens(id[1..])
  }

  function SafeChar(c: char): char {
    if IsAlnum(c) || c == '_' || c == '-' then c else '_'
  }

  function SafeId(id: string): (r: string)
    ensures forall c :: c in r ==> IsAlnum(c) || c == '_' || c == '-'
  {
    var bare := WithoutHyphens(id);
    seq(|bare|, i requires 0 <= i < |bare| => SafeChar(bare[i]))
  }

  function PhotoFileName(id: string, sequenceNumber: nat): string {
    Decimal4(sequenceNumber) + "_" + SafeId(id) + ".jpg"
  }

  /** Photos with different sequence numbers never share a file. */
  lemma NamesDiffer(id: string, m: nat, id': string, n: nat)
    requires PhotoFileName(id, m) == PhotoFileName(id', n)
    ensures m == n
  {
    SplitAppend('_', Decimal4(m), SafeId(id) + ".jpg");
    SplitAppend('_', Decimal4(n), SafeId(id') + ".jpg");
    assert PhotoFileName(id, m) == Decimal4(m) + ['_'] + (SafeId(id) + ".jpg");
    assert PhotoFileName(id', n) == Decimal4(n) + ['_'] + (SafeId(id') + ".jpg");
    assert SplitOn('_', PhotoFileName(id, m))[0] == Decimal4(m);
    assert SplitOn('_', PhotoFileName(id', n))[0] == Decimal4(n);
    Decimal4Value(m);
    Decimal4Value(n);
  }

  /** Whatever the photo id, its file name holds neither of the package delimiters... */
  lemma NamesAreDelimiterFree(id: string, sequenceNumber: nat)
    ensures Free('|', PhotoFileName(id, sequenceNumber)) && Free(':', PhotoFileName(id, sequenceNumber))
  {
    NamesAreSafe(id, sequenceNumber);
  }

  /** ... and names a file in the directory itself. */
  lemma NamesArePlain(id: string, sequenceNumber: nat)
    ensures Free('/', PhotoFileName(id, sequenceNumber))
    ensures PhotoFileName(id, sequenceNumber) != "." && PhotoFileName(id, sequenceNumber) != ".."
  {
    NamesAreSafe(id, sequenceNumber);
  }

  lemma NamesAreSafe(id: string, sequenceNumber: nat)
    ensures forall c :: c in PhotoFileName(id, sequenceNumber) ==> IsAlnum(c) || c == '_' || c == '-' || c == '.'
    ensures |PhotoFileName(id, sequenceNumber)| > 4
  {
    var name := PhotoFileName(id, sequenceNumber);
    forall c | c in name ensures IsAlnum(c) || c == '_' || c == '-' || c == '.' {
      assert c in Decimal4(sequenceNumber) || c in "_" || c in SafeId(id) || c in ".jpg";
    }
  }

  /** What a name looks like: hyphens are dropped, other characters outside the safe ones become '_'. */
  lemma KnownName()
    ensures PhotoFileName("a1-b/2", 7) == "0007_a1b_2.jpg"
  {
    assert WithoutHyphens("/2") == "/2" && WithoutHyphens("b/2") == "b/2";
    assert WithoutHyphens("-b/2") == "b/2" && WithoutHyphens("1-b/2") == "1b/2";
    assert WithoutHyphens("a1-b/2") == "a1b/2";
    assert SafeId("a1-b/2") == "a1b_2";
    assert Decimal(7) == "7";
    assert Decimal4(7) == "0007";
  }
}
