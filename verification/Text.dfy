/** Strings as the Python sources use them: decimal numerals, white space, substring search. */
module Text {

  datatype Option<+T> = None | Some(value: T)

  function Max(a: int, b: int): int { if a >= b then a else b }

  function Min(a: int, b: int): int { if a <= b then a else b }

  // ---------- decimal numerals ----------

  predicate IsDigit(c: char) { '0' <= c <= '9' }

  predicate AllDigits(s: string) { forall i :: 0 <= i < |s| ==> IsDigit(s[i]) }

  function DigitChar(d: nat): (c: char)
    requires d < 10
    ensures IsDigit(c) && DigitValue(c) == d
  {
    '0' + d as char
  }

  function DigitValue(c: char): nat
    requires IsDigit(c)
  {
    c as int - '0' as int
  }

  /** `str(n)` for a natural number. */
  function Dec(n: nat): (s: string)
    ensures |s| > 0 && AllDigits(s)
  {
    if n < 10 then [DigitChar(n)] else Dec(n / 10) + [DigitChar(n % 10)]
  }

  /** `int(s)` for a run of ASCII digits. */
  function NatOf(s: string): nat
    requires AllDigits(s)
  {
    if s == "" then 0 else NatOf(s[..|s| - 1]) * 10 + DigitValue(s[|s| - 1])
  }

  lemma {:induction false} NatOfDec(n: nat)
    ensures NatOf(Dec(n)) == n
  {
    if n >= 10 {
      NatOfDec(n / 10);
      assert Dec(n)[..|Dec(n)| - 1] == Dec(n / 10);
    } else {
      assert NatOf(Dec(n)[..0]) == 0;
    }
  }

  /** Decimal notation, most significant digit first. */
  lemma DecimalPlaces(n: nat, d: nat)
    requires d < 10 && n > 0
    ensures Dec(10 * n + d) == Dec(n) + [DigitChar(d)] && DigitChar(7) == '7'
    ensures Dec(0) == "0" && Dec(120) == "120"
  {
    assert (10 * n + d) / 10 == n && (10 * n + d) % 10 == d;
    assert Dec(1) == "1" && Dec(12) == Dec(1) + [DigitChar(2)] == "12";
    assert Dec(120) == Dec(12) + [DigitChar(0)];
  }

  lemma DecInjective(m: nat, n: nat)
    requires Dec(m) == Dec(n)
    ensures m == n
  {
    NatOfDec(m);
    NatOfDec(n);
  }

  function Pow10(k: nat): (p: nat)
    ensures p >= 1
  {
    if k == 0 then 1 else 10 * Pow10(k - 1)
  }

  lemma {:induction false} Pow10Monotone(a: nat, b: nat)
    requires a <= b
    ensures Pow10(a) <= Pow10(b)
    decreases b
  {
    if a < b { Pow10Monotone(a, b - 1); }
  }

  lemma {:induction false} DecBound(n: nat)
    ensures n < Pow10(|Dec(n)|)
  {
    if n >= 10 {
      DecBound(n / 10);
      assert |Dec(n)| == |Dec(n / 10)| + 1;
    } else {
      assert Pow10(1) == 10 * Pow10(0);
    }
  }

  /** Length of the longest digit prefix: the reach of a greedy `\d+`. */
  function DigitRun(s: string): (n: nat)
    ensures n <= |s| && AllDigits(s[..n])
    ensures n < |s| ==> !IsDigit(s[n])
  {
    if s == "" || !IsDigit(s[0]) then 0 else
      assert forall k :: 0 < k < |s| ==> s[k] == s[1..][k - 1];
      1 + DigitRun(s[1..])
  }

  lemma {:induction false} DigitRunExact(d: string, rest: string)
    requires AllDigits(d) && (rest == "" || !IsDigit(rest[0]))
    ensures DigitRun(d + rest) == |d|
    ensures (d + rest)[..|d|] == d && (d + rest)[|d|..] == rest
  {
    if d == "" {
      assert d + rest == rest;
    } else {
      assert (d + rest)[1..] == d[1..] + rest;
      DigitRunExact(d[1..], rest);
    }
  }

  // ---------- white space ----------

  /** The characters for which Python's `str.isspace` holds. */
  predicate IsSpace(c: char) {
    var n := c as int;
    || 0x09 <= n <= 0x0D || 0x1C <= n <= 0x20 || n == 0x85 || n == 0xA0 || n == 0x1680
    || 0x2000 <= n <= 0x200A || n == 0x2028 || n == 0x2029 || n == 0x202F || n == 0x205F || n == 0x3000
  }

  /** `s.rstrip()` */
  function RStrip(s: string): (r: string)
    ensures r <= s
    ensures r == "" || !IsSpace(r[|r| - 1])
    ensures s != "" && !IsSpace(s[|s| - 1]) ==> r == s
    ensures s != "" && IsSpace(s[|s| - 1]) ==> |r| < |s|
  {
    if s != "" && IsSpace(s[|s| - 1]) then RStrip(s[..|s| - 1]) else s
  }

  /** `s.lstrip()` */
  function LStrip(s: string): (r: string)
    ensures |r| <= |s|
    ensures s != "" && !IsSpace(s[0]) ==> r == s
  {
    if s != "" && IsSpace(s[0]) then LStrip(s[1..]) else s
  }

  /** `s.strip()` */
  function Strip(s: string): string { LStrip(RStrip(s)) }

  predicate AllSpace(s: string) { forall i :: 0 <= i < |s| ==> IsSpace(s[i]) }

  /** Stripping takes off the white space at both ends, and nothing else. */
  lemma StripsEnds(s: string) returns (before: string, after: string)
    ensures s == before + Strip(s) + after && AllSpace(before) && AllSpace(after)
    ensures Strip(s) != "" ==> !IsSpace(Strip(s)[0]) && !IsSpace(Strip(s)[|Strip(s)| - 1])
  {
    hide IsSpace;
    after := RStripsEnd(s);
    before := LStripsStart(RStrip(s));
  }

  lemma {:induction false} RStripsEnd(s: string) returns (after: string)
    ensures s == RStrip(s) + after && AllSpace(after)
  {
    hide IsSpace;
    after := "";
    if s != "" && IsSpace(s[|s| - 1]) {
      after := RStripsEnd(s[..|s| - 1]);
      after := after + [s[|s| - 1]];
    }
  }

  lemma {:induction false} LStripsStart(s: string) returns (before: string)
    ensures s == before + LStrip(s) && AllSpace(before)
    ensures LStrip(s) != "" ==> !IsSpace(LStrip(s)[0]) && LStrip(s)[|LStrip(s)| - 1] == s[|s| - 1]
  {
    hide IsSpace;
    before := "";
    if s != "" && IsSpace(s[0]) {
      before := LStripsStart(s[1..]);
      before := [s[0]] + before;
    }
  }

  /** `s.replace(c, "")` for one character. */
  function Without(s: string, c: char): string
  {
    if s == "" then "" else (if s[0] == c then "" else [s[0]]) + Without(s[1..], c)
  }

  // ---------- substring search ----------

  /** Index of the first occurrence of `pat`, as `str.find` gives it. */
  function Find(s: string, pat: string): (r: Option<nat>)
    ensures r.Some? ==> r.value + |pat| <= |s| && s[r.value..r.value + |pat|] == pat
    ensures r.Some? ==> forall j :: 0 <= j < r.value ==> !(pat <= s[j..])
    ensures r.None? ==> forall j :: 0 <= j <= |s| ==> !(pat <= s[j..])
  {
    if pat <= s then Some(0)
    else if s == "" then None
    else
      var rest := Find(s[1..], pat);
      assert forall j :: 0 < j <= |s| ==> s[j..] == s[1..][j - 1..];
      match rest
      case Some(i) => Some(i + 1)
      case None => None
  }

  /** `s.replace(pat, "", 1)` */
  function ReplaceFirst(s: string, pat: string): (r: string)
    ensures Find(s, pat).None? ==> r == s
    ensures Find(s, pat).Some? ==> |r| == |s| - |pat|
  {
    match Find(s, pat)
    case None => s
    case Some(i) => s[..i] + s[i + |pat|..]
  }
}
