/** What the pieces of hunk application mean in the text's own terms: which lines count as the same, what
    a hunk header is, and which complaint a failing body draws. */
module PatchLines {
  import opened Text
  import opened PatchApply
  import opened PatchTheorems

  // ---------- white space and carriage returns ----------

  /** Printable ASCII is not white space; blanks, tabs, line ends and carriage returns are. */
  lemma AsciiSpaces(c: char)
    ensures '!' <= c <= '~' ==> !IsSpace(c)
    ensures c in {' ', '\t', '\n', '\r'} ==> IsSpace(c)
  {
  }

  lemma {:induction false} RStripTail(s: string)
    ensures AllSpace(s[|RStrip(s)|..])
  {
    if s != "" && IsSpace(s[|s| - 1]) {
      var init := s[..|s| - 1];
      RStripTail(init);
      forall i | |RStrip(s)| <= i < |s| ensures IsSpace(s[i]) {
        if i < |s| - 1 { assert init[|RStrip(init)|..][i - |RStrip(init)|] == s[i]; }
      }
    }
  }

  lemma {:induction false} RStripAppend(a: string, blank: string)
    requires AllSpace(blank)
    ensures RStrip(a + blank) == RStrip(a)
    decreases |blank|
  {
    if blank == "" {
      assert a + blank == a;
    } else {
      var s := a + blank;
      assert s[|s| - 1] == blank[|blank| - 1] && s[..|s| - 1] == a + blank[..|blank| - 1];
      RStripAppend(a, blank[..|blank| - 1]);
    }
  }

  lemma {:induction false} WithoutAppend(a: string, b: string, c: char)
    ensures Without(a + b, c) == Without(a, c) + Without(b, c)
  {
    if a == "" {
      assert a + b == b;
    } else {
      assert (a + b)[1..] == a[1..] + b;
      WithoutAppend(a[1..], b, c);
    }
  }

  lemma {:induction false} WithoutAbsent(s: string, c: char)
    requires c !in s
    ensures Without(s, c) == s
  {
    if s != "" {
      assert s == [s[0]] + s[1..];
      WithoutAbsent(s[1..], c);
    }
  }

  lemma {:induction false} WithoutSpace(s: string, c: char)
    requires AllSpace(s)
    ensures AllSpace(Without(s, c))
  {
    if s != "" { WithoutSpace(s[1..], c); }
  }

  /** Carriage returns may be dropped before the white space at the end. */
  lemma NormDropsFirst(s: string)
    ensures Norm(s) == RStrip(Without(s, '\r'))
  {
    hide IsSpace;
    var body, tail := RStrip(s), s[|RStrip(s)|..];
    RStripTail(s);
    WithoutSpace(tail, '\r');
    WithoutAppend(body, tail, '\r');
    assert s == body + tail;
    RStripAppend(Without(body, '\r'), Without(tail, '\r'));
    if body != "" { LastStays(body); }
  }

  lemma LastStays(s: string)
    requires s != "" && !IsSpace(s[|s| - 1])
    ensures RStrip(Without(s, '\r')) == Without(s, '\r')
  {
    AsciiSpaces('\r');
    hide IsSpace;
    var last := s[|s| - 1..];
    assert s == s[..|s| - 1] + last;
    WithoutAppend(s[..|s| - 1], last, '\r');
    WithoutAbsent(last, '\r');
  }

  // ---------- which lines count as the same ----------

  /** The two texts differ in white space at their ends only. */
  ghost predicate SameButForEnds(a: string, b: string)
  {
    exists n :: 0 <= n <= |a| && n <= |b| && a[..n] == b[..n] && AllSpace(a[n..]) && AllSpace(b[n..])
  }

  lemma StrippedSameIff(a: string, b: string)
    ensures RStrip(a) == RStrip(b) <==> SameButForEnds(a, b)
  {
    hide IsSpace, RStrip;
    if RStrip(a) == RStrip(b) {
      RStripTail(a);
      RStripTail(b);
      var n := |RStrip(a)|;
      assert a[..n] == RStrip(a) && b[..n] == RStrip(b);
    }
    if SameButForEnds(a, b) {
      var n :| 0 <= n <= |a| && n <= |b| && a[..n] == b[..n] && AllSpace(a[n..]) && AllSpace(b[n..]);
      assert a == a[..n] + a[n..] && b == b[..n] + b[n..];
      RStripAppend(a[..n], a[n..]);
      RStripAppend(b[..n], b[n..]);
    }
  }

  lemma PlainNorm(a: string)
    requires '\r' !in a
    ensures Norm(a) == RStrip(a)
  {
    WithoutAbsent(a, '\r');
    NormDropsFirst(a);
  }

  /** Without carriage returns, two lines are the same iff they differ in trailing white space only. */
  lemma SameLineIff(a: Line, b: Line)
    requires '\r' !in a && '\r' !in b
    ensures SameLine(a, b) <==> SameButForEnds(a, b)
  {
    hide Norm, RStrip, SameButForEnds;
    PlainNorm(a);
    PlainNorm(b);
    StrippedSameIff(a, b);
  }

  /** A carriage return anywhere makes no difference. */
  lemma CarriageReturnIgnored(before: string, after: string)
    ensures SameLine(before + "\r" + after, before + after)
  {
    hide RStrip, Norm;
    NormDropsFirst(before + "\r" + after);
    NormDropsFirst(before + after);
    WithoutAppend(before + "\r", after, '\r');
    WithoutAppend(before, "\r", '\r');
    WithoutAppend(before, after, '\r');
    assert "\r"[1..] == "" && Without("\r", '\r') == "";
    assert Without(before, '\r') + "" == Without(before, '\r');
  }

  /** Being the same line is an equivalence. */
  lemma SameLineEquivalence(a: Line, b: Line, c: Line)
    ensures SameLine(a, a)
    ensures SameLine(a, b) ==> SameLine(b, a)
    ensures SameLine(a, b) && SameLine(b, c) ==> SameLine(a, c)
  {
  }

  /** White space at the beginning counts: texts with different indentation are never the same line. */
  lemma IndentationCounts(indent: string, a: Line, b: Line)
    requires indent != "" && AllSpace(indent) && a != "" && b != "" && !IsSpace(a[0]) && !IsSpace(b[0])
    requires '\r' !in indent && '\r' !in a && '\r' !in b
    ensures !SameLine(indent + a, b)
  {
    hide IsSpace;
    var t := indent + a;
    SameLineIff(t, b);
    assert t[0] == indent[0];
    if SameButForEnds(t, b) { SameStart(t, b); }
  }

  lemma SameStart(a: string, b: string)
    requires SameButForEnds(a, b) && a != "" && b != "" && !IsSpace(b[0])
    ensures a[0] == b[0]
  {
    var n :| 0 <= n <= |a| && n <= |b| && a[..n] == b[..n] && AllSpace(a[n..]) && AllSpace(b[n..]);
    assert b[0..] == b;
    assert a[..n][0] == a[0] && b[..n][0] == b[0];
  }

  lemma {:induction false} MatchNeedsLine(src: seq<Line>, at: nat, body: seq<Line>, j: nat)
    requires MatchesAt(src, at, body) && j < |body| && ConsumesOld(body[j])
    ensures exists k :: 0 <= k < |src| && SameLine(src[k], body[j][1..])
    decreases |body|
  {
    hide SameLine;
    if j > 0 { MatchNeedsLine(src, if ConsumesOld(body[0]) then at + 1 else at, body[1..], j - 1); }
  }

  /** A hunk that names a line the source does not have, up to the tolerated differences, never applies. */
  lemma UnknownLineFails(src: seq<Line>, hunk: Hunk, j: nat)
    requires j < |hunk.body| && ConsumesOld(hunk.body[j])
    requires forall k :: 0 <= k < |src| ==> !SameLine(src[k], hunk.body[j][1..])
    ensures Apply(src, [hunk]).Err?
  {
    hide SameLine, MatchesAt, Preferred, SplicesAt, ApplyHunk;
    ApplyHunkIff(src, 0, hunk);
    if MatchExists(src, hunk.body, 0) {
      var p: nat :| 0 <= p <= |src| && MatchesAt(src, p, hunk.body);
      MatchNeedsLine(src, p, hunk.body, j);
    }
  }

  /** A hunk for text without its indentation does not rewrite the indented text. */
  lemma IndentedTextStays(header: string, indent: string, a: Line, b: Line)
    requires indent != "" && AllSpace(indent) && a != "" && !IsSpace(a[0]) && '\r' !in indent && '\r' !in a
    ensures Apply([indent + a], [Hunk(header, ["-" + a, "+" + b])]).Err?
  {
    hide IsSpace, SameLine, Apply;
    IndentationCounts(indent, a, a);
    var hunk := Hunk(header, ["-" + a, "+" + b]);
    assert hunk.body[0][1..] == a;
    UnknownLineFails([indent + a], hunk, 0);
  }

  // ---------- hunk headers ----------

  /** `start` or `start,count` in decimal digits, leading zeros allowed. */
  ghost predicate RangeText(text: string, start: nat, count: Option<nat>)
  {
    exists d, e :: Numeral(d, start) && CountText(e, count) && text == d + e
  }

  predicate Numeral(d: string, n: nat) { d != "" && AllDigits(d) && NatOf(d) == n }

  /** Nothing, or a comma and a numeral. */
  predicate CountText(e: string, count: Option<nat>)
  {
    if count.None? then e == "" else e != "" && e[0] == ',' && Numeral(e[1..], count.value)
  }

  lemma TakeNumeral(d: string, n: nat, rest: string)
    requires Numeral(d, n) && (rest == "" || !IsDigit(rest[0]))
    ensures TakeNumber(d + rest) == Some((n, rest))
  {
    DigitRunExact(d, rest);
  }

  lemma TakenNumeral(s: string) returns (d: string)
    requires TakeNumber(s).Some?
    ensures Numeral(d, TakeNumber(s).value.0) && s == d + TakeNumber(s).value.1
  {
    d := s[..DigitRun(s)];
  }

  /** A range is read back exactly, up to the blank that ends it. */
  lemma TakeRangeText(text: string, start: nat, count: Option<nat>, rest: string)
    requires RangeText(text, start, count) && rest != "" && rest[0] == ' '
    ensures TakeRange(text + rest) == Some((start, count, rest))
  {
    hide NatOf, DigitRun;
    var d, e :| Numeral(d, start) && CountText(e, count) && text == d + e;
    assert text + rest == d + (e + rest);
    if count.None? {
      assert e + rest == rest;
      TakeNumeral(d, start, rest);
    } else {
      var tail := e + rest;
      assert tail[0] == ',' && tail[1..] == e[1..] + rest;
      TakeNumeral(d, start, tail);
      TakeNumeral(e[1..], count.value, rest);
    }
  }

  lemma TakenRangeText(s: string) returns (text: string)
    requires TakeRange(s).Some?
    ensures RangeText(text, TakeRange(s).value.0, TakeRange(s).value.1) && s == text + TakeRange(s).value.2
  {
    hide NatOf, DigitRun, TakeNumber;
    var d := TakenNumeral(s);
    var after := TakeNumber(s).value.1;
    var e := "";
    if TakeCount(after).0.Some? {
      var more := TakenNumeral(after[1..]);
      e := [after[0]] + more;
      assert e[1..] == more && after == [after[0]] + after[1..];
    }
    assert CountText(e, TakeCount(after).0);
    text := d + e;
  }

  /** The shape of a header: its two ranges between fixed marks, and anything after them. */
  ghost predicate HeaderText(h: string, header: Header)
  {
    exists old_, new_, tail ::
      && RangeText(old_, header.oldStart, header.oldCount) && RangeText(new_, header.newStart, header.newCount)
      && h == HeaderLine(old_, new_, tail)
  }

  function HeaderLine(old_: string, new_: string, tail: string): string
  {
    "@@ -" + (old_ + (" +" + (new_ + (" @@" + tail))))
  }

  lemma LiteralEnd(literal: string, rest: string)
    ensures literal <= literal + rest && (literal + rest)[|literal|..] == rest
  {
  }

  /** A line is a hunk header, with these numbers, iff it has the shape of one; counts may be missing, and
      anything may follow. */
  lemma ParseHeaderIff(h: string, header: Header)
    ensures ParseHeader(h) == Some(header) <==> HeaderText(h, header)
  {
    hide TakeRange, RangeText;
    if ParseHeader(h) == Some(header) { ParsedHeaderText(h); }
    if HeaderText(h, header) {
      var old_, new_, tail :|
        && RangeText(old_, header.oldStart, header.oldCount) && RangeText(new_, header.newStart, header.newCount)
        && h == HeaderLine(old_, new_, tail);
      HeaderTextParses(old_, new_, tail, header);
    }
  }

  lemma HeaderTextParses(old_: string, new_: string, tail: string, header: Header)
    requires RangeText(old_, header.oldStart, header.oldCount) && RangeText(new_, header.newStart, header.newCount)
    ensures ParseHeader(HeaderLine(old_, new_, tail)) == Some(header)
  {
    hide TakeRange, RangeText;
    var h4 := " @@" + tail;
    var h3 := new_ + h4;
    var h2 := " +" + h3;
    var h1 := old_ + h2;
    LiteralEnd("@@ -", h1);
    LiteralEnd(" +", h3);
    LiteralEnd(" @@", tail);
    TakeRangeText(old_, header.oldStart, header.oldCount, h2);
    TakeRangeText(new_, header.newStart, header.newCount, h4);
  }

  lemma ParsedHeaderText(h: string)
    requires ParseHeader(h).Some?
    ensures HeaderText(h, ParseHeader(h).value)
  {
    hide TakeRange, RangeText;
    var h1 := h[4..];
    var old_ := TakenRangeText(h1);
    var h2 := TakeRange(h1).value.2;
    var h3 := h2[2..];
    var new_ := TakenRangeText(h3);
    var h4 := TakeRange(h3).value.2;
    assert h == "@@ -" + h1 && h2 == " +" + h3 && h4 == " @@" + h4[3..];
    assert h == HeaderLine(old_, new_, h4[3..]);
  }

  // ---------- complaints ----------

  /** The complaint a single body line draws at a source position. */
  function Complaint(src: seq<Line>, at: nat, raw: Line): Option<Error>
  {
    if raw == "" then Some(EmptyHunkLine)
    else if raw[0] !in {' ', '-', '+', '\\'} then Some(UnsupportedLine)
    else if ConsumesOld(raw) && !LineMatches(src, at, raw[1..]) then
      Some(if raw[0] == ' ' then ContextMismatch else RemoveMismatch)
    else None
  }

  /** A failing body fails with the complaint of its first line that draws one. */
  lemma {:induction false} FirstComplaint(src: seq<Line>, cur: nat, body: seq<Line>) returns (k: nat)
    requires cur <= |src| && ApplyBody(src, cur, body).Err?
    ensures k < |body| && MatchesAt(src, cur, body[..k])
    ensures Complaint(src, cur + |OldBlock(body[..k])|, body[k]) == Some(ApplyBody(src, cur, body).error)
    decreases |body|
  {
    hide LineMatches;
    k := 0;
    if Complaint(src, cur, body[0]).Some? {
      assert body[..0] == [] && OldBlock(body[..0]) == [];
    } else {
      assert ConsumesOld(body[0]) ==> cur < |src| by { MatchInside(src, cur, body[0]); }
      k := FirstComplaint(src, if ConsumesOld(body[0]) then cur + 1 else cur, body[1..]);
      assert body[..k + 1][1..] == body[1..][..k] && body[..k + 1][0] == body[0];
      k := k + 1;
    }
  }

  lemma MatchInside(src: seq<Line>, at: nat, raw: Line)
    requires ConsumesOld(raw) ==> LineMatches(src, at, raw[1..])
    ensures ConsumesOld(raw) ==> at < |src|
  {
  }

  /** A hunk fails on its header iff that is no header; otherwise on the body where the search placed it,
      or for want of a place. */
  lemma HunkComplaint(src: seq<Line>, cur: nat, hunk: Hunk)
    requires cur <= |src| && ApplyHunk(src, cur, hunk).Err?
    ensures ApplyHunk(src, cur, hunk).error == InvalidHeader <==> ParseHeader(hunk.header).None?
    ensures ParseHeader(hunk.header).Some? ==>
              !MatchExists(src, hunk.body, cur) &&
              var relaxed := RelaxedStart(src, hunk.body, ParseHeader(hunk.header).value.oldStart - 1, cur);
              if relaxed.None? then ApplyHunk(src, cur, hunk).error == ContextMismatch
              else
                var body := ApplyBody(src, Min(relaxed.value, |src|), hunk.body);
                body.Err? && ApplyHunk(src, cur, hunk).error == body.error
  {
    hide MatchesAt, Preferred, SplicesAt, RelaxedStart, ParseHeader;
    ApplyHunkIff(src, cur, hunk);
    if ParseHeader(hunk.header).Some? {
      var nominal := ParseHeader(hunk.header).value.oldStart - 1;
      StrictStartIff(src, hunk.body, nominal, cur);
      var relaxed := RelaxedStart(src, hunk.body, nominal, cur);
      if relaxed.Some? { var k := FirstComplaint(src, Min(relaxed.value, |src|), hunk.body); }
    }
  }
}
