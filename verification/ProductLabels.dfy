/** D1 product labels: the weighted mod-36 check character and the device's recogniser
    (raspberry-scanner/recognition.py), beside the backend's label printer
    (backend/src/domain/product_labels/format.py). Text is ASCII. */
module ProductLabels {
  import opened Options
  import opened Text

  // ----- the check character -----

  const ALPHABET := "0123456789ABCDEFGHIJKLMNOPQRSTUVWXYZ"

  /** The position in the alphabet, or the code point modulo 36. */
  function Value(c: char): (v: nat)
    ensures v < 36
  {
    if IsDigit(c) then c as int - '0' as int
    else if 'A' <= c <= 'Z' then c as int - 'A' as int + 10
    else c as int % 36
  }

  /** What a character of the body counts for, upper-cased. */
  function Worth(c: char): (v: nat)
    ensures v < 36
  {
    Value(UpperChar(c))
  }

  /** Values weighted by 1-based position. */
  function WeightedSum(body: string): nat {
    if body == "" then 0
    else WeightedSum(body[..|body| - 1]) + Worth(body[|body| - 1]) * |body|
  }

  function CheckChar(body: string): char {
    ALPHABET[WeightedSum(body) % 36]
  }

  lemma AlphabetValues(i: nat)
    requires i < 36
    ensures Value(ALPHABET[i]) == i && UpperChar(ALPHABET[i]) == ALPHABET[i]
  {
  }

  lemma SumPush(body: string, c: char)
    ensures WeightedSum(body + [c]) == WeightedSum(body) + Worth(c) * (|body| + 1)
  {
    hide Worth;
    assert (body + [c])[..|body|] == body;
  }

  /** The check character is computed a character at a time: it starts at '0', and a character adds its worth
      times its 1-based position, modulo 36. */
  lemma CheckCharStep(body: string, c: char)
    ensures CheckChar("") == '0'
    ensures Value(CheckChar(body + [c])) == (Value(CheckChar(body)) + (|body| + 1) * Worth(c)) % 36
  {
    hide Value, Worth, WeightedSum;
    NothingSumsToZero();
    SumPush(body, c);
    AlphabetValues(WeightedSum(body) % 36);
    AlphabetValues(WeightedSum(body + [c]) % 36);
    AddRemainder(WeightedSum(body), (|body| + 1) * Worth(c));
  }

  lemma NothingSumsToZero()
    ensures WeightedSum("") == 0 && ALPHABET[0] == '0'
  {
  }

  lemma AddRemainder(x: int, y: int)
    ensures (x + y) % 36 == (x % 36 + y) % 36
  {
    assert (x + y) - (x % 36 + y) == 36 * (x / 36);
    SameRemainder(x + y, x % 36 + y);
  }

  /** Digits count by their value, letters of either case from 10 to 35, and the separator counts 16; the
      alphabet lists the digits and letters in this order. */
  lemma WorthIs(c: char)
    ensures IsDigit(c) ==> Worth(c) == c as int - '0' as int && ALPHABET[Worth(c)] == c
    ensures 'A' <= c <= 'Z' ==> Worth(c) == c as int - 'A' as int + 10 && ALPHABET[Worth(c)] == c
    ensures 'a' <= c <= 'z' ==> Worth(c) == c as int - 'a' as int + 10
    ensures Worth('|') == 16
  {
  }

  /** Check characters agree exactly when the sums agree modulo 36. */
  lemma CheckCharsAgreeIff(a: string, b: string)
    ensures CheckChar(a) == CheckChar(b) <==> (WeightedSum(a) - WeightedSum(b)) % 36 == 0
  {
    hide Value, WeightedSum;
    AlphabetValues(WeightedSum(a) % 36);
    AlphabetValues(WeightedSum(b) % 36);
    SameRemainder(WeightedSum(a), WeightedSum(b));
  }

  lemma SameRemainder(x: int, y: int)
    ensures x % 36 == y % 36 <==> (x - y) % 36 == 0
  {
    var k, l := x / 36, y / 36;
    assert x - y == 36 * (k - l) + (x % 36 - y % 36);
  }

  lemma {:induction false} SumAfterSubstitution(body: string, i: nat, c: char)
    requires i < |body|
    ensures WeightedSum(body[i := c]) == WeightedSum(body) + (i + 1) * (Worth(c) - Worth(body[i]))
  {
    hide Worth;
    var last := |body| - 1;
    var changed := body[i := c];
    if i == last {
      assert changed[..last] == body[..last];
      assert Worth(c) * |body| == Worth(body[i]) * |body| + |body| * (Worth(c) - Worth(body[i]));
    } else {
      assert changed[..last] == body[..last][i := c];
      SumAfterSubstitution(body[..last], i, c);
    }
  }

  /** Substituting the character at 1-based position `i + 1` goes unnoticed exactly when 36 divides the
      position times the difference of the values. */
  lemma SubstitutionUnnoticedIff(body: string, i: nat, c: char)
    requires i < |body|
    ensures CheckChar(body[i := c]) == CheckChar(body) <==> ((i + 1) * (Worth(c) - Worth(body[i]))) % 36 == 0
  {
    hide Worth, CheckChar, WeightedSum;
    CheckCharsAgreeIff(body[i := c], body);
    SumAfterSubstitution(body, i, c);
  }

  function Swap(body: string, i: nat, j: nat): string
    requires i < |body| && j < |body|
  {
    body[i := body[j]][j := body[i]]
  }

  /** Swapping positions `i < j` goes unnoticed exactly when 36 divides the distance times the difference
      of the values. */
  lemma SwapUnnoticedIff(body: string, i: nat, j: nat)
    requires i < j < |body|
    ensures CheckChar(Swap(body, i, j)) == CheckChar(body) <==> ((j - i) * (Worth(body[i]) - Worth(body[j]))) % 36 == 0
  {
    hide Worth, CheckChar, WeightedSum;
    CheckCharsAgreeIff(Swap(body, i, j), body);
    SumAfterSubstitution(body, i, body[j]);
    SumAfterSubstitution(body[i := body[j]], j, body[i]);
    var a, b := Worth(body[i]), Worth(body[j]);
    SwapArithmetic(i, j, a, b);
  }

  lemma SwapArithmetic(i: int, j: int, a: int, b: int)
    ensures (i + 1) * (b - a) + (j + 1) * (a - b) == (j - i) * (a - b)
  {
  }

  /** Two adjacent characters of different value never change places unnoticed. */
  lemma AdjacentSwapIsNoticed(body: string, i: nat)
    requires i + 1 < |body|
    ensures CheckChar(Swap(body, i, i + 1)) == CheckChar(body) <==> Worth(body[i]) == Worth(body[i + 1])
  {
    hide Value, CheckChar;
    SwapUnnoticedIff(body, i, i + 1);
    var d := Worth(body[i]) - Worth(body[i + 1]);
    assert -36 < d < 36;
  }

  // ----- which positions catch every substitution -----

  predicate Coprime36(p: nat) {
    p % 2 != 0 && p % 3 != 0
  }

  /** The inverse modulo 36. */
  function Inverse(r: nat): nat {
    match r
    case 5 => 29
    case 7 => 31
    case 11 => 23
    case 13 => 25
    case 23 => 11
    case 25 => 13
    case 29 => 5
    case 31 => 7
    case _ => r
  }

  lemma InverseOf(r: nat)
    requires r < 36 && Coprime36(r)
    ensures (r * Inverse(r)) % 36 == 1
  {
    assert r == 1 || r == 5 || r == 7 || r == 11 || r == 13 || r == 17
        || r == 19 || r == 23 || r == 25 || r == 29 || r == 31 || r == 35;
  }

  lemma InverseWorks(p: nat)
    requires Coprime36(p)
    ensures ((p % 36) * Inverse(p % 36)) % 36 == 1
  {
    hide Inverse;
    InverseOf(p % 36);
  }

  lemma Cancel(p: nat, d: int)
    requires Coprime36(p) && (p * d) % 36 == 0
    ensures d % 36 == 0
  {
    var r, q := p % 36, Inverse(p % 36);
    InverseWorks(p);
    var k := p / 36;
    assert p == 36 * k + r;
    var m := (p * d) / 36;
    assert p * d == 36 * m;
    var n := (r * q) / 36;
    assert r * q == 36 * n + 1;
    // d = r*q*d - 36*n*d, and r*d = p*d - 36*k*d
    var t := m * q - k * d * q - n * d;
    assert d == 36 * t;
  }

  ghost predicate Catches(p: nat, body: string, c: char)
    requires p >= 1
  {
    |body| >= p && Worth(c) != Worth(body[p - 1]) ==> CheckChar(body[p - 1 := c]) != CheckChar(body)
  }

  /** A 1-based position catches every substitution by a character of different value, in every body
      that reaches it, exactly when it is coprime to 36. */
  lemma CatchesAllIff(p: nat)
    requires p >= 1
    ensures (forall body: string, c: char :: Catches(p, body, c)) <==> Coprime36(p)
  {
    hide Catches;
    if Coprime36(p) {
      forall body: string, c: char ensures Catches(p, body, c) { NoticedWhenCoprime(p, body, c); }
    } else {
      Missed(p);
    }
  }

  lemma NoticedWhenCoprime(p: nat, body: string, c: char)
    requires p >= 1 && Coprime36(p)
    ensures Catches(p, body, c)
  {
    hide Value, UpperChar, CheckChar;
    if |body| >= p {
      var d := Worth(c) - Worth(body[p - 1]);
      SubstitutionUnnoticedIff(body, p - 1, c);
      if (p * d) % 36 == 0 { Cancel(p, d); }
    }
  }

  /** A position that is not coprime misses some substitution: of 0 by 18 or by 12. */
  lemma Missed(p: nat)
    requires p >= 1 && !Coprime36(p)
    ensures exists body: string, c: char :: !Catches(p, body, c)
  {
    hide CheckChar, Worth, Catches;
    WorthOfWitnesses();
    if p % 2 == 0 {
      assert p * 18 == 36 * (p / 2);
      MissesAt(p, 'I');
    } else {
      assert p * 12 == 36 * (p / 3);
      MissesAt(p, 'C');
    }
  }

  lemma MissesAt(p: nat, c: char)
    requires p >= 1 && Worth(c) > 0 && Worth('0') == 0 && (p * Worth(c)) % 36 == 0
    ensures !Catches(p, seq(p, _ => '0'), c)
  {
    hide CheckChar, Worth;
    var body: string := seq(p, _ => '0');
    SubstitutionUnnoticedIff(body, p - 1, c);
    assert Worth(c) - Worth(body[p - 1]) == Worth(c);
  }

  lemma WorthOfWitnesses()
    ensures Worth('0') == 0 && Worth('I') == 18 && Worth('C') == 12
  {
  }

  // ----- reading and printing labels -----

  datatype Recognised =
    | Valid(labelId: string, internalCode: string, quantity: nat)
    | Invalid(code: string)
    | NotApplicable

  /** Digits and capitals but I, L, O and U, in either case. */
  predicate IsLabelChar(c: char) {
    IsAlnum(c) && UpperChar(c) != 'I' && UpperChar(c) != 'L' && UpperChar(c) != 'O' && UpperChar(c) != 'U'
  }

  predicate IsLabelId(s: string) {
    |s| == 10 && forall c :: c in s ==> IsLabelChar(c)
  }

  predicate AllDigits(s: string) {
    forall c :: c in s ==> IsDigit(c)
  }

  predicate IsQuantity(s: string) {
    1 <= |s| <= 8 && s[0] != '0' && AllDigits(s)
  }

  predicate IsCode(s: string) {
    1 <= |s| <= 48 && '\n' !in s
  }

  /** The five fields of a text of D1 shape. */
  predicate HasShape(parts: seq<string>) {
    && |parts| == 5 && Upper(parts[0]) == "D1" && IsLabelId(parts[1]) && IsCode(parts[2])
    && IsQuantity(parts[3]) && |parts[4]| == 1 && IsAlnum(parts[4][0])
  }

  /** Any version of the format. */
  predicate HasVersion(parts: seq<string>) {
    |parts| >= 2 && |parts[0]| >= 2 && UpperChar(parts[0][0]) == 'D' && AllDigits(parts[0][1..])
  }

  function Body(labelId: string, code: string, quantity: string): string {
    Join('|', ["D1", labelId, code, quantity])
  }

  /** `_dinamic` on an ITEM. */
  function DinamicItem(raw: string): Recognised {
    var parts := SplitOn('|', Strip(raw));
    if !HasShape(parts) then
      if !HasVersion(parts) then NotApplicable
      else if Upper(parts[0]) != "D1" then Invalid("UNKNOWN_VERSION")
      else Invalid("D1_MALFORMED")
    else
      var labelId, code := Upper(parts[1]), Strip(parts[2]);
      if UpperChar(parts[4][0]) != CheckChar(Body(labelId, code, parts[3])) then Invalid("D1_CHECKSUM_FAILED")
      else Valid(labelId, code, NumeralValue(parts[3]))
  }

  /** `build_product_label_payload`; None where it raises. */
  function PrintLabel(labelId: string, code: string, quantity: int): Option<string> {
    var l, c := Upper(Strip(labelId)), Strip(code);
    if !IsLabelId(l) || c == "" || '|' in c || |c| > 48 || quantity < 1 || quantity > 99_999_999 then None
    else Some(LabelText(l, c, Decimal(quantity), CheckChar(Body(l, c, Decimal(quantity)))))
  }

  function LabelText(labelId: string, code: string, quantity: string, check: char): string {
    Join('|', ["D1", labelId, code, quantity, [check]])
  }

  lemma JoinEnds(parts: seq<string>, check: char)
    requires |parts| >= 1 && parts[0] == "D1"
    ensures var s := Join('|', parts + [[check]]);
      s != "" && s[0] == 'D' && s[|s| - 1] == check
  {
    JoinConcat('|', parts, [[check]]);
    assert Join('|', [[check]]) == [check];
    assert Join('|', parts) != "" && Join('|', parts)[0] == 'D';
  }

  /** What the recogniser sees of a text it is given whole. */
  lemma TextSplits(l: string, c: string, q: string, k: char)
    requires Free('|', l) && Free('|', c) && Free('|', q) && IsAlnum(k)
    ensures SplitOn('|', Strip(LabelText(l, c, q, k))) == ["D1", l, c, q, [k]]
  {
    hide Join, SplitOn, Strip;
    var parts := ["D1", l, c, q];
    assert ["D1", l, c, q, [k]] == parts + [[k]];
    JoinEnds(parts, k);
    assert Trimmed(LabelText(l, c, q, k));
    assert Strip(LabelText(l, c, q, k)) == LabelText(l, c, q, k);
    SplitJoin('|', ["D1", l, c, q, [k]]);
  }

  lemma LabelIdIsFree(l: string)
    requires IsLabelId(l)
    ensures Free('|', l)
  {
  }

  lemma {:induction false} DecimalSize(n: nat, digits: nat, bound: nat)
    requires 1 <= n < bound && digits >= 1 && bound == Power10(digits)
    ensures |Decimal(n)| <= digits && Decimal(n)[0] != '0'
    decreases digits
  {
    if n >= 10 {
      assert bound == 10 * Power10(digits - 1);
      DecimalSize(n / 10, digits - 1, Power10(digits - 1));
    }
  }

  function Power10(d: nat): (p: nat)
    ensures p >= 1
  {
    if d == 0 then 1 else 10 * Power10(d - 1)
  }

  lemma NumeralIsQuantity(n: nat)
    requires 1 <= n <= 99_999_999
    ensures IsQuantity(Decimal(n)) && Free('|', Decimal(n)) && NumeralValue(Decimal(n)) == n
  {
    hide Decimal, NumeralValue;
    DecimalSize(n, 8, 100_000_000);
    DecimalValue(n);
  }

  lemma CheckCharIsAlnum(body: string)
    ensures IsAlnum(CheckChar(body)) && UpperChar(CheckChar(body)) == CheckChar(body)
  {
    hide WeightedSum, Value;
    AlphabetValues(WeightedSum(body) % 36);
  }

  lemma D1IsVersion()
    ensures Upper("D1") == "D1" && UpperChar('D') == 'D' && AllDigits("D1"[1..])
  {
  }

  /** A well-formed text is judged by its check character alone; one whose code has a line break is
      malformed. */
  lemma WellFormedIsJudged(l: string, c: string, q: string, k: char)
    requires IsLabelId(l) && Upper(l) == l && IsQuantity(q) && IsAlnum(k)
    requires 1 <= |c| <= 48 && Trimmed(c) && Free('|', c) && Free('|', q)
    ensures DinamicItem(LabelText(l, c, q, k))
      == if '\n' in c then Invalid("D1_MALFORMED")
         else if UpperChar(k) != CheckChar(Body(l, c, q)) then Invalid("D1_CHECKSUM_FAILED")
         else Valid(l, c, NumeralValue(q))
  {
    hide SplitOn, Strip, LabelText, CheckChar, Body, NumeralValue, IsAlnum, IsLabelId, IsQuantity, Upper, AllDigits;
    D1IsVersion();
    LabelIdIsFree(l);
    TextSplits(l, c, q, k);
    assert Strip(c) == c;
  }

  /** The device reads back every label the backend prints, except exactly those whose code contains a
      line break: the printer lets one through and the reader does not. */
  lemma PrintedIsRecognisedIff(labelId: string, code: string, quantity: int)
    requires PrintLabel(labelId, code, quantity).Some?
    ensures var text := PrintLabel(labelId, code, quantity).value;
      && (DinamicItem(text) == Valid(Upper(Strip(labelId)), Strip(code), quantity) <==> '\n' !in Strip(code))
      && ('\n' in Strip(code) ==> DinamicItem(text) == Invalid("D1_MALFORMED"))
  {
    hide DinamicItem, Strip, LabelText, CheckChar, Body, NumeralValue, IsAlnum, IsLabelId, IsQuantity, Upper, Decimal;
    var l, c := Upper(Strip(labelId)), Strip(code);
    NumeralIsQuantity(quantity);
    CheckCharIsAlnum(Body(l, c, Decimal(quantity)));
    WellFormedIsJudged(l, c, Decimal(quantity), CheckChar(Body(l, c, Decimal(quantity))));
  }

  /** Conversely whatever the device takes as VALID the backend can print, with a quantity from 1 to 99,999,999 - and
      the device reads the printed one just so -, unless the code is blank: the reader lets one through and the
      printer does not. */
  lemma RecognisedIsPrintableIff(raw: string)
    requires DinamicItem(raw).Valid?
    ensures var Valid(l, c, n) := DinamicItem(raw);
      && 1 <= n <= 99_999_999
      && (PrintLabel(l, c, n).Some? <==> c != "")
      && (c != "" ==> DinamicItem(PrintLabel(l, c, n).value) == Valid(l, c, n))
  {
    hide SplitOn, Strip, LabelText, CheckChar, Body, NumeralValue, IsAlnum, IsLabelId, IsQuantity, Upper, Decimal;
    var parts := SplitOn('|', Strip(raw));
    var l, c := Upper(parts[1]), Strip(parts[2]);
    UpperLabel(parts[1]);
    assert Strip(l) == l && Upper(l) == l;
    StrippedCode(parts[2]);
    JoinSplit('|', Strip(raw));
    StripStaysFree('|', parts[2]);
    StripStaysFree('\n', parts[2]);
    QuantityRange(parts[3]);
    if c != "" { PrintedIsRecognisedIff(l, c, NumeralValue(parts[3])); }
  }

  lemma UpperLabel(l: string)
    requires IsLabelId(l)
    ensures IsLabelId(Upper(l)) && Upper(Upper(l)) == Upper(l) && Trimmed(Upper(l))
  {
    hide Strip;
    forall c | c in Upper(l) ensures IsLabelChar(c) {
      var i :| 0 <= i < |l| && c == Upper(l)[i];
      assert l[i] in l;
    }
    assert Upper(l)[0] in Upper(l) && Upper(l)[9] in Upper(l);
  }

  lemma StrippedCode(c: string)
    requires IsCode(c)
    ensures |Strip(c)| <= 48 && Strip(Strip(c)) == Strip(c)
  {
  }

  lemma {:induction false} NumeralRange(q: string)
    requires q != "" && AllDigits(q) && q[0] != '0'
    ensures 1 <= NumeralValue(q) < Power10(|q|)
    decreases |q|
  {
    var front := q[..|q| - 1];
    assert q == front + [q[|q| - 1]];
    assert q[0] in q && q[|q| - 1] in q;
    if |q| == 1 {
      assert front == "" && NumeralValue("") == 0;
      assert Power10(1) == 10;
    } else {
      assert forall c :: c in front ==> c in q;
      NumeralRange(front);
      assert Power10(|q|) == 10 * Power10(|q| - 1);
    }
  }

  lemma QuantityRange(q: string)
    requires IsQuantity(q)
    ensures AllDigits(q) && 1 <= NumeralValue(q) <= 99_999_999
  {
    hide NumeralValue;
    NumeralRange(q);
    PowersGrow(|q|, 8);
    assert Power10(8) == 100_000_000 by { EightZeros(); }
  }

  lemma {:induction false} PowersGrow(a: nat, b: nat)
    requires a <= b
    ensures Power10(a) <= Power10(b)
    decreases b - a
  {
    if a < b {
      assert Power10(a + 1) == 10 * Power10(a);
      PowersGrow(a + 1, b);
    }
  }

  lemma EightZeros()
    ensures Power10(8) == 100_000_000
  {
    assert Power10(4) == 10_000;
    assert Power10(6) == 100 * Power10(4);
    assert Power10(8) == 100 * Power10(6);
  }

  lemma BodyAround(l: string, c: string, q: string)
    ensures Body(l, c, q) == ("D1|" + l + "|") + c + ("|" + q)
  {
    JoinConcat('|', ["D1", l], [c, q]);
    assert ["D1", l] + [c, q] == ["D1", l, c, q];
    assert Join('|', ["D1", l]) == "D1|" + l by { assert "D1" + ['|'] + l == "D1|" + l; }
    assert Join('|', [c, q]) == c + "|" + q;
  }

  /** Two adjacent characters of the code of a printed label, of different value, exchanged: the label is
      refused for its checksum, as long as the code still has no blank at an end. */
  lemma SwappedCodeIsRefused(l: string, c: string, quantity: nat, i: nat)
    requires IsLabelId(l) && Upper(l) == l && 1 <= quantity <= 99_999_999
    requires i + 1 < |c| <= 48 && Free('|', c) && '\n' !in c && Worth(c[i]) != Worth(c[i + 1])
    requires Trimmed(c) && Trimmed(Swap(c, i, i + 1))
    ensures var q := Decimal(quantity);
      DinamicItem(LabelText(l, Swap(c, i, i + 1), q, CheckChar(Body(l, c, q)))) == Invalid("D1_CHECKSUM_FAILED")
  {
    hide DinamicItem, Strip, LabelText, CheckChar, Body, NumeralValue, IsAlnum, IsLabelId, IsQuantity;
    hide Upper, Decimal, Worth, Trimmed;
    var q, c' := Decimal(quantity), Swap(c, i, i + 1);
    NumeralIsQuantity(quantity);
    CheckCharIsAlnum(Body(l, c, q));
    BodyAround(l, c, q);
    BodyAround(l, c', q);
    var before, after := "D1|" + l + "|", "|" + q;
    var n := |before|;
    assert Body(l, c', q) == Swap(Body(l, c, q), n + i, n + i + 1);
    AdjacentSwapIsNoticed(Body(l, c, q), n + i);
    WellFormedIsJudged(l, c', q, CheckChar(Body(l, c, q)));
  }

  // ----- known labels -----

  lemma KnownCheckChar()
    ensures CheckChar("D1|0123456789|A|1") == 'N'
  {
    hide WeightedSum, Worth;
    var body := "D1|0123456789|A|1";
    var sums := [0, 13, 15, 63, 63, 68, 80, 101, 133, 178, 238, 315, 411, 528, 752, 902, 1158, 1175];
    NothingSumsToZero();
    assert body[..0] == "";
    for k := 0 to |body|
      invariant WeightedSum(body[..k]) == sums[k]
    {
      SumPush(body[..k], body[k]);
      assert body[..k] + [body[k]] == body[..k + 1];
      KnownStep(k);
    }
    assert body[..|body|] == body;
  }

  lemma KnownStep(k: nat)
    requires k < 17
    ensures var sums := [0, 13, 15, 63, 63, 68, 80, 101, 133, 178, 238, 315, 411, 528, 752, 902, 1158, 1175];
      sums[k + 1] == sums[k] + Worth("D1|0123456789|A|1"[k]) * (k + 1)
  {
  }

  lemma KnownText(check: char)
    ensures Body("0123456789", "A", "1") == "D1|0123456789|A|1"
    ensures LabelText("0123456789", "A", "1", check) == "D1|0123456789|A|1|" + [check]
  {
    BodyAround("0123456789", "A", "1");
    JoinConcat('|', ["D1", "0123456789", "A", "1"], [[check]]);
    assert ["D1", "0123456789", "A", "1"] + [[check]] == ["D1", "0123456789", "A", "1", [check]];
    assert Join('|', [[check]]) == [check];
  }

  lemma KnownFields()
    ensures IsLabelId("0123456789") && Upper("0123456789") == "0123456789" && IsQuantity("1")
    ensures Trimmed("A") && Free('|', "A") && Free('|', "1") && '\n' !in "A"
    ensures Decimal(1) == "1" && NumeralValue("1") == 1
    ensures Strip("0123456789") == "0123456789" && Strip("A") == "A"
  {
    assert forall c :: c in "0123456789" ==> IsDigit(c);
  }

  /** What the device reads from one genuine label, and from the same label with the next character of the
      alphabet in place of its check character; and that the backend prints the genuine one. */
  lemma KnownLabel()
    ensures DinamicItem("D1|0123456789|A|1|N") == Valid("0123456789", "A", 1)
    ensures DinamicItem("D1|0123456789|A|1|O") == Invalid("D1_CHECKSUM_FAILED")
    ensures PrintLabel("0123456789", "A", 1) == Some("D1|0123456789|A|1|N")
  {
    hide DinamicItem, Strip, LabelText, CheckChar, Body, NumeralValue, IsLabelId, IsQuantity, Upper, Decimal, Trimmed, Free;
    KnownFields();
    KnownCheckChar();
    KnownText('N');
    KnownText('O');
    WellFormedIsJudged("0123456789", "A", "1", 'N');
    WellFormedIsJudged("0123456789", "A", "1", 'O');
    assert "D1|0123456789|A|1|" + ['N'] == "D1|0123456789|A|1|N";
    assert "D1|0123456789|A|1|" + ['O'] == "D1|0123456789|A|1|O";
  }
}
