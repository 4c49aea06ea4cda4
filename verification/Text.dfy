/** Text primitives shared by the other modules: joining and splitting on a delimiter,
    decimal numerals, the code-point order on strings, and ASCII trimming. */
module Text {

  // ----- joining and splitting on one character -----

  ghost predicate Free(c: char, s: string) {
    c !in s
  }

  /** `sep.join(parts)` for a one-character separator. */
  function Join(c: char, parts: seq<string>): string {
    if |parts| == 0 then ""
    else if |parts| == 1 then parts[0]
    else parts[0] + [c] + Join(c, parts[1..])
  }

  /** `s.split(c)`: always at least one part. */
  function SplitOn(c: char, s: string): (parts: seq<string>)
    ensures |parts| >= 1
  {
    if s == "" then [""]
    else
      var rest := SplitOn(c, s[1..]);
      if s[0] == c then [""] + rest else [[s[0]] + rest[0]] + rest[1..]
  }

  lemma {:induction false} SplitFree(c: char, s: string)
    requires Free(c, s)
    ensures SplitOn(c, s) == [s]
  {
    if s != "" {
      SplitFree(c, s[1..]);
      assert [s[0]] + s[1..] == s;
    }
  }

  lemma {:induction false} SplitAppend(c: char, s: string, t: string)
    requires Free(c, s)
    ensures SplitOn(c, s + [c] + t) == [s] + SplitOn(c, t)
  {
    var whole := s + [c] + t;
    if s == "" {
      assert whole[1..] == t;
    } else {
      assert whole[1..] == s[1..] + [c] + t;
      SplitAppend(c, s[1..], t);
      assert [s[0]] + s[1..] == s;
    }
  }

  /** Splitting distributes over joining with the separator. */
  lemma {:induction false} SplitConcat(c: char, s: string, t: string)
    ensures SplitOn(c, s + [c] + t) == SplitOn(c, s) + SplitOn(c, t)
  {
    if s == "" {
      assert s + [c] + t == [c] + t;
    } else {
      assert (s + [c] + t)[1..] == s[1..] + [c] + t;
      SplitConcat(c, s[1..], t);
    }
  }

  /** Splitting undoes joining, provided no part contains the separator. */
  lemma {:induction false} SplitJoin(c: char, parts: seq<string>)
    requires |parts| >= 1
    requires forall p :: p in parts ==> Free(c, p)
    ensures SplitOn(c, Join(c, parts)) == parts
  {
    if |parts| == 1 {
      SplitFree(c, parts[0]);
    } else {
      SplitJoin(c, parts[1..]);
      SplitAppend(c, parts[0], Join(c, parts[1..]));
      assert parts == [parts[0]] + parts[1..];
    }
  }

  /** Joining undoes splitting, and the parts never contain the separator. */
  lemma {:induction false} JoinSplit(c: char, s: string)
    ensures Join(c, SplitOn(c, s)) == s
    ensures forall p :: p in SplitOn(c, s) ==> Free(c, p)
  {
    if s != "" {
      var rest := SplitOn(c, s[1..]);
      JoinSplit(c, s[1..]);
      if s[0] == c {
        assert ([""] + rest)[1..] == rest;
        assert [""][0] + [c] + s[1..] == s;
      } else {
        var parts := [[s[0]] + rest[0]] + rest[1..];
        assert parts[1..] == rest[1..];
        assert rest == [rest[0]] + rest[1..];
        if |rest| == 1 {
          assert [s[0]] + s[1..] == s;
        } else {
          assert ([s[0]] + rest[0]) + [c] + Join(c, rest[1..]) == [s[0]] + (rest[0] + [c] + Join(c, rest[1..]));
          assert [s[0]] + s[1..] == s;
        }
        assert Free(c, [s[0]] + rest[0]) by {
          assert Free(c, rest[0]);
        }
        assert forall p :: p in parts ==> p == parts[0] || p in rest;
      }
    }
  }

  lemma {:induction false} JoinConcat(c: char, xs: seq<string>, ys: seq<string>)
    requires |xs| >= 1 && |ys| >= 1
    ensures Join(c, xs + ys) == Join(c, xs) + [c] + Join(c, ys)
  {
    if |xs| == 1 {
      assert (xs + ys)[1..] == ys;
    } else {
      assert (xs + ys)[1..] == xs[1..] + ys;
      JoinConcat(c, xs[1..], ys);
      assert Join(c, xs + ys) == xs[0] + [c] + (Join(c, xs[1..]) + [c] + Join(c, ys));
    }
  }

  // ----- decimal numerals -----

  predicate IsDigit(c: char) { '0' <= c <= '9' }

  predicate IsAlnum(c: char) {
    IsDigit(c) || 'a' <= c <= 'z' || 'A' <= c <= 'Z'
  }

  function Digit(d: nat): (c: char)
    requires d < 10
    ensures IsDigit(c) && DigitValue(c) == d
  {
    "0123456789"[d]
  }

  function DigitValue(c: char): nat
    requires IsDigit(c)
  {
    c as int - '0' as int
  }

  /** `str(n)` for a non-negative integer. */
  function Decimal(n: nat): (s: string)
    ensures |s| >= 1 && forall c :: c in s ==> IsDigit(c)
  {
    if n < 10 then [Digit(n)] else Decimal(n / 10) + [Digit(n % 10)]
  }

  function Zeros(n: nat): (s: string)
    ensures |s| == n && forall c :: c in s ==> c == '0'
  {
    seq(n, _ => '0')
  }

  /** `f"{n:04d}"`. */
  function Decimal4(n: nat): (s: string)
    ensures |s| >= 4 && forall c :: c in s ==> IsDigit(c)
  {
    var d := Decimal(n);
    if |d| >= 4 then d else Zeros(4 - |d|) + d
  }

  function NumeralValue(s: string): nat
    requires forall c :: c in s ==> IsDigit(c)
  {
    if s == "" then 0 else NumeralValue(s[..|s| - 1]) * 10 + DigitValue(s[|s| - 1])
  }

  lemma {:induction false} DecimalValue(n: nat)
    ensures NumeralValue(Decimal(n)) == n
  {
    if n >= 10 {
      DecimalValue(n / 10);
      assert Decimal(n)[..|Decimal(n)| - 1] == Decimal(n / 10);
    } else {
      assert Decimal(n)[..0] == "";
    }
  }

  lemma {:induction false} LeadingZeros(k: nat, s: string)
    requires forall c :: c in s ==> IsDigit(c)
    ensures NumeralValue(Zeros(k) + s) == NumeralValue(s)
    decreases |s|, k
  {
    if s == "" {
      if k > 0 {
        assert Zeros(k) + s == Zeros(k);
        assert Zeros(k)[..k - 1] == Zeros(k - 1) + "";
        LeadingZeros(k - 1, "");
      } else {
        assert Zeros(0) + s == s;
      }
    } else {
      assert (Zeros(k) + s)[..|Zeros(k) + s| - 1] == Zeros(k) + s[..|s| - 1];
      LeadingZeros(k, s[..|s| - 1]);
    }
  }

  lemma Decimal4Value(n: nat)
    ensures NumeralValue(Decimal4(n)) == n
  {
    DecimalValue(n);
    if |Decimal(n)| < 4 {
      LeadingZeros(4 - |Decimal(n)|, Decimal(n));
    }
  }

  /** Numerals of different numbers differ. */
  lemma DecimalInjective(m: nat, n: nat)
    requires Decimal(m) == Decimal(n)
    ensures m == n
  {
    DecimalValue(m);
    DecimalValue(n);
  }

  // ----- the order Python uses to compare strings -----

  predicate StrLe(a: string, b: string) {
    a == "" || (b != "" && (a[0] < b[0] || (a[0] == b[0] && StrLe(a[1..], b[1..]))))
  }

  /** After a common start the smaller character, or the end, comes first. */
  lemma {:induction false} StrLeAfter(start: string, a: string, b: string)
    requires a == "" || (b != "" && a[0] < b[0])
    ensures StrLe(start + a, start + b)
    ensures a != b ==> !StrLe(start + b, start + a)
  {
    if start == "" {
      assert start + a == a && start + b == b;
    } else {
      StrLeAfter(start[1..], a, b);
      assert (start + a)[1..] == start[1..] + a && (start + b)[1..] == start[1..] + b;
    }
  }

  lemma {:induction false} StrLeTotal(a: string, b: string)
    ensures StrLe(a, b) || StrLe(b, a)
  {
    if a != "" && b != "" && a[0] == b[0] { StrLeTotal(a[1..], b[1..]); }
  }

  lemma {:induction false} StrLeAntisymmetric(a: string, b: string)
    requires StrLe(a, b) && StrLe(b, a)
    ensures a == b
  {
    if a != "" && b != "" {
      StrLeAntisymmetric(a[1..], b[1..]);
      assert a == [a[0]] + a[1..];
      assert b == [b[0]] + b[1..];
    }
  }

  lemma {:induction false} StrLeTransitive(a: string, b: string, c: string)
    requires StrLe(a, b) && StrLe(b, c)
    ensures StrLe(a, c)
  {
    if a != "" && b != "" && c != "" && a[0] == b[0] == c[0] {
      StrLeTransitive(a[1..], b[1..], c[1..]);
    }
  }

  // ----- ASCII trimming -----

  predicate IsSpace(c: char) {
    c == ' ' || '\t' <= c <= '\r' || '\U{1C}' <= c <= '\U{1F}'
  }

  function LStrip(s: string): (r: string)
    ensures |r| <= |s|
    ensures r == "" || !IsSpace(r[0])
  {
    if s != "" && IsSpace(s[0]) then LStrip(s[1..]) else s
  }

  function RStrip(s: string): (r: string)
    ensures |r| <= |s| && r == s[..|r|]
    ensures r == "" || !IsSpace(r[|r| - 1])
  {
    if s != "" && IsSpace(s[|s| - 1]) then RStrip(s[..|s| - 1]) else s
  }

  predicate Trimmed(s: string) {
    s == "" || (!IsSpace(s[0]) && !IsSpace(s[|s| - 1]))
  }

  /** `s.strip()` on ASCII text. */
  function Strip(s: string): (r: string)
    ensures Trimmed(r) && |r| <= |s|
    ensures Trimmed(s) ==> r == s
  {
    RStrip(LStrip(s))
  }

  /** `s.upper()` on ASCII text. */
  function UpperChar(c: char): char {
    if 'a' <= c <= 'z' then (c as int - 32) as char else c
  }

  function Upper(s: string): (r: string)
    ensures |r| == |s| && forall i :: 0 <= i < |s| ==> r[i] == UpperChar(s[i])
  {
    seq(|s|, i requires 0 <= i < |s| => UpperChar(s[i]))
  }

  // ----- what trimming keeps -----

  predicate AllSpace(s: string) {
    forall i :: 0 <= i < |s| ==> IsSpace(s[i])
  }

  /** Trimming takes away blanks at the ends and nothing else. */
  lemma {:induction false} LStripCuts(s: string) returns (before: string)
    ensures s == before + LStrip(s) && AllSpace(before)
  {
    if s != "" && IsSpace(s[0]) {
      var rest := LStripCuts(s[1..]);
      before := [s[0]] + rest;
      assert s == [s[0]] + s[1..];
    } else {
      before := "";
    }
  }

  lemma {:induction false} RStripCuts(s: string) returns (after: string)
    ensures s == RStrip(s) + after && AllSpace(after)
  {
    if s != "" && IsSpace(s[|s| - 1]) {
      var rest := RStripCuts(s[..|s| - 1]);
      after := rest + [s[|s| - 1]];
      assert s == s[..|s| - 1] + [s[|s| - 1]];
    } else {
      after := "";
    }
  }

  lemma StripCuts(s: string) returns (before: string, after: string)
    ensures s == before + Strip(s) + after && AllSpace(before) && AllSpace(after)
  {
    before := LStripCuts(s);
    after := RStripCuts(LStrip(s));
  }

  lemma {:induction false} LStripStaysFree(c: char, s: string)
    requires Free(c, s)
    ensures Free(c, LStrip(s))
  {
    if s != "" { LStripStaysFree(c, s[1..]); }
  }

  lemma StripStaysFree(c: char, s: string)
    requires Free(c, s)
    ensures Free(c, Strip(s))
  {
    hide LStrip;
    LStripStaysFree(c, s);
    var l := LStrip(s);
    assert RStrip(l) == l[..|RStrip(l)|];
  }
}
