/** Application of parsed hunks to the lines of one file: the staged search for a hunk's position
    and the cursor that copies, checks, drops and inserts lines. */
module PatchApply {
  import opened Text

  type Line = string

  datatype Hunk = Hunk(header: string, body: seq<Line>)

  datatype Error = InvalidHeader | ContextMismatch | RemoveMismatch | EmptyHunkLine | UnsupportedLine

  datatype Result<+T> = Ok(value: T) | Err(error: Error)

  // ---------- hunk headers: ^@@ -(\d+)(?:,(\d+))? \+(\d+)(?:,(\d+))? @@ ----------

  datatype Header = Header(oldStart: nat, oldCount: Option<nat>, newStart: nat, newCount: Option<nat>)

  function StripLiteral(s: string, literal: string): Option<string>
  {
    if literal <= s then Some(s[|literal|..]) else None
  }

  function TakeNumber(s: string): (r: Option<(nat, string)>)
    ensures r.Some? ==> |r.value.1| < |s|
  {
    var n := DigitRun(s);
    if n == 0 then None else Some((NatOf(s[..n]), s[n..]))
  }

  function TakeCount(s: string): (Option<nat>, string)
  {
    if s != "" && s[0] == ',' && TakeNumber(s[1..]).Some?
    then (Some(TakeNumber(s[1..]).value.0), TakeNumber(s[1..]).value.1)
    else (None, s)
  }

  function TakeRange(s: string): Option<(nat, Option<nat>, string)>
  {
    match TakeNumber(s)
    case None => None
    case Some((start, rest)) => var (count, rest') := TakeCount(rest); Some((start, count, rest'))
  }

  function ParseHeader(h: string): Option<Header>
  {
    match StripLiteral(h, "@@ -")
    case None => None
    case Some(h1) =>
      match TakeRange(h1)
      case None => None
      case Some((oldStart, oldCount, h2)) =>
        match StripLiteral(h2, " +")
        case None => None
        case Some(h3) =>
          match TakeRange(h3)
          case None => None
          case Some((newStart, newCount, h4)) =>
            if " @@" <= h4 then Some(Header(oldStart, oldCount, newStart, newCount)) else None
  }

  // ---------- matching ----------

  /** Tolerated drift: trailing white space and carriage returns. */
  function Norm(s: Line): Line { Without(RStrip(s), '\r') }

  predicate SameLine(a: Line, b: Line) { a == b || Norm(a) == Norm(b) }

  predicate LineMatches(src: seq<Line>, index: nat, content: Line)
  {
    index < |src| && SameLine(src[index], content)
  }

  predicate ConsumesOld(raw: Line) { raw != "" && raw[0] in {' ', '-'} }

  predicate AddsOnly(raw: Line) { raw != "" && raw[0] in {'+', '\\'} }

  predicate MatchesAt(src: seq<Line>, at: nat, body: seq<Line>)
    decreases |body|
  {
    if body == [] then true
    else if ConsumesOld(body[0]) then LineMatches(src, at, body[0][1..]) && MatchesAt(src, at + 1, body[1..])
    else AddsOnly(body[0]) && MatchesAt(src, at, body[1..])
  }

  method HunkMatchesAt(src: seq<Line>, start: nat, body: seq<Line>) returns (matched: bool)
    ensures matched == MatchesAt(src, start, body)
  {
    var probe := start;
    for i := 0 to |body|
      invariant MatchesAt(src, start, body) == MatchesAt(src, probe, body[i..])
    {
      var raw := body[i];
      assert body[i..][1..] == body[i + 1..];
      if raw == "" { return false; }
      if raw[0] in {' ', '-'} {
        if !LineMatches(src, probe, raw[1..]) { return false; }
        probe := probe + 1;
      } else if raw[0] in {'+', '\\'} {
      } else {
        return false;
      }
    }
    return true;
  }

  /** The context and removed lines of a hunk: the text it expects to find. */
  function OldBlock(body: seq<Line>): (r: seq<Line>)
    ensures |r| <= |body|
  {
    if body == [] then []
    else (if ConsumesOld(body[0]) then [body[0][1..]] else []) + OldBlock(body[1..])
  }

  predicate WellTagged(body: seq<Line>) { forall i :: 0 <= i < |body| ==> ConsumesOld(body[i]) || AddsOnly(body[i]) }

  predicate BlockAt(src: seq<Line>, at: nat, block: seq<Line>)
  {
    at + |block| <= |src| && forall k :: 0 <= k < |block| ==> SameLine(src[at + k], block[k])
  }

  lemma BlockAtCons(src: seq<Line>, at: nat, line: Line, rest: seq<Line>)
    ensures BlockAt(src, at, [line] + rest) <==>
        LineMatches(src, at, line) && (rest == [] || BlockAt(src, at + 1, rest))
  {
    hide SameLine;
    var block := [line] + rest;
    if BlockAt(src, at, block) {
      assert SameLine(src[at + 0], block[0]);
      forall k | 0 <= k < |rest| ensures SameLine(src[at + 1 + k], rest[k]) {
        assert SameLine(src[at + (k + 1)], block[k + 1]);
      }
    }
  }

  lemma WellTaggedCons(body: seq<Line>)
    requires body != []
    ensures WellTagged(body) <==> (ConsumesOld(body[0]) || AddsOnly(body[0])) && WellTagged(body[1..])
  {
    assert forall i :: 0 < i < |body| ==> body[i] == body[1..][i - 1];
  }

  /** A hunk matches at a position iff every line is tagged and its old block is there, up to drift. */
  lemma {:induction false} MatchesAtIff(src: seq<Line>, at: nat, body: seq<Line>)
    ensures MatchesAt(src, at, body) <==> WellTagged(body) && (OldBlock(body) == [] || BlockAt(src, at, OldBlock(body)))
    decreases |body|
  {
    if body == [] {
      assert WellTagged(body);
    }
    hide SameLine, WellTagged, BlockAt;
    if body != [] {
      var rest := OldBlock(body[1..]);
      WellTaggedCons(body);
      if ConsumesOld(body[0]) {
        MatchesAtIff(src, at + 1, body[1..]);
        assert OldBlock(body) == [body[0][1..]] + rest;
        BlockAtCons(src, at, body[0][1..], rest);
      } else {
        MatchesAtIff(src, at, body[1..]);
        assert OldBlock(body) == rest;
      }
    }
  }

  // ---------- the staged search ----------

  /** Lowest matching position in `lo..hi`, both ends included. */
  function FirstMatch(src: seq<Line>, body: seq<Line>, lo: nat, hi: int): (r: Option<nat>)
    ensures r.Some? ==> lo <= r.value <= hi && MatchesAt(src, r.value, body)
    ensures r.Some? ==> forall j :: lo <= j < r.value ==> !MatchesAt(src, j, body)
    ensures r.None? ==> forall j :: lo <= j <= hi ==> !MatchesAt(src, j, body)
    decreases hi - lo
  {
    if lo > hi then None else if MatchesAt(src, lo, body) then Some(lo) else FirstMatch(src, body, lo + 1, hi)
  }

  predicate NormBlockAt(src: seq<Line>, at: nat, block: seq<Line>)
  {
    at + |block| <= |src| && forall k :: 0 <= k < |block| ==> Norm(src[at + k]) == Norm(block[k])
  }

  /** Lowest position at or after `lo` where a bare block of lines occurs. */
  function FirstBlock(src: seq<Line>, block: seq<Line>, lo: nat): (r: Option<nat>)
    ensures r.Some? ==> lo <= r.value && NormBlockAt(src, r.value, block)
    ensures r.Some? ==> forall j :: lo <= j < r.value ==> !NormBlockAt(src, j, block)
    ensures r.None? ==> forall j :: lo <= j ==> !NormBlockAt(src, j, block)
    decreases |src| - lo
  {
    if lo + |block| > |src| then None
    else if NormBlockAt(src, lo, block) then Some(lo)
    else FirstBlock(src, block, lo + 1)
  }

  function LinesTagged(body: seq<Line>, tag: char): (r: seq<Line>)
    ensures |r| <= |body|
  {
    if body == [] then []
    else (if body[0] != "" && body[0][0] == tag then [body[0][1..]] else []) + LinesTagged(body[1..], tag)
  }

  predicate AllAdds(body: seq<Line>) { forall i :: 0 <= i < |body| ==> AddsOnly(body[i]) }

  function Expected(expectedStart: int, minimum: nat): nat { Max(Max(expectedStart, minimum), 0) }

  /** The strict engine: nominal position, else the lowest match within 120 lines of it,
      else the lowest match from the cursor on. */
  function StrictStart(src: seq<Line>, body: seq<Line>, expectedStart: int, minimum: nat): Option<nat>
  {
    var e := Expected(expectedStart, minimum);
    if MatchesAt(src, e, body) then Some(e)
    else
      var near := FirstMatch(src, body, Max(minimum, e - 120), Min(|src|, e + 120));
      if near.Some? then near else FirstMatch(src, body, minimum, |src|)
  }

  /** The fallbacks tried when no strict match exists. */
  function RelaxedStart(src: seq<Line>, body: seq<Line>, expectedStart: int, minimum: nat): Option<nat>
  {
    var removed, context := LinesTagged(body, '-'), LinesTagged(body, ' ');
    if removed != [] && FirstBlock(src, removed, minimum).Some? then FirstBlock(src, removed, minimum)
    else if context != [] && FirstBlock(src, context, minimum).Some? then FirstBlock(src, context, minimum)
    else if AllAdds(body) then Some(Min(Expected(expectedStart, minimum), |src|))
    else None
  }

  function Start(src: seq<Line>, body: seq<Line>, expectedStart: int, minimum: nat): (r: Option<nat>)
    requires minimum <= |src|
    ensures r.Some? ==> minimum <= r.value
  {
    var strict := StrictStart(src, body, expectedStart, minimum);
    if strict.Some? then strict else RelaxedStart(src, body, expectedStart, minimum)
  }

  lemma LinesTaggedStep(body: seq<Line>, i: nat, tag: char)
    requires i < |body|
    ensures LinesTagged(body[i..], tag) ==
            (if body[i] != "" && body[i][0] == tag then [body[i][1..]] else []) + LinesTagged(body[i + 1..], tag)
  {
    assert body[i..][1..] == body[i + 1..];
  }

  method CollectTagged(body: seq<Line>, tag: char) returns (block: seq<Line>)
    ensures block == LinesTagged(body, tag)
  {
    assert LinesTagged([], tag) == [] && body[0..] == body;
    hide LinesTagged;
    block := [];
    for i := 0 to |body|
      invariant block + LinesTagged(body[i..], tag) == LinesTagged(body, tag)
    {
      LinesTaggedStep(body, i, tag);
      if body[i] != "" && body[i][0] == tag { block := block + [body[i][1..]]; }
    }
  }

  method BlockMatches(src: seq<Line>, at: nat, block: seq<Line>) returns (matches: bool)
    requires at + |block| <= |src|
    ensures matches == NormBlockAt(src, at, block)
  {
    for offset := 0 to |block|
      invariant forall k :: 0 <= k < offset ==> Norm(src[at + k]) == Norm(block[k])
    {
      if Norm(src[at + offset]) != Norm(block[offset]) { return false; }
    }
    return true;
  }

  method FindBlock(src: seq<Line>, block: seq<Line>, minimum: nat) returns (r: Option<nat>)
    requires block != []
    ensures r == FirstBlock(src, block, minimum)
  {
    hide Norm;
    var idx := minimum;
    while idx < |src| - |block| + 1
      invariant minimum <= idx
      invariant FirstBlock(src, block, minimum) == FirstBlock(src, block, idx)
    {
      var matches := BlockMatches(src, idx, block);
      if matches { return Some(idx); }
      idx := idx + 1;
    }
    return None;
  }

  method FindHunkStart(src: seq<Line>, expectedStart: int, body: seq<Line>, minimum: nat) returns (r: Option<nat>)
    requires minimum <= |src|
    ensures r == Start(src, body, expectedStart, minimum)
  {
    hide Norm, MatchesAt, FirstBlock, LinesTagged;
    var expected := Max(Max(expectedStart, minimum), 0);
    var found := HunkMatchesAt(src, expected, body);
    if found { return Some(expected); }
    var nearStart, nearEnd := Max(minimum, expected - 120), Min(|src|, expected + 120);
    var idx := nearStart;
    while idx < nearEnd + 1
      invariant nearStart <= idx
      invariant FirstMatch(src, body, nearStart, nearEnd) == FirstMatch(src, body, idx, nearEnd)
    {
      found := HunkMatchesAt(src, idx, body);
      if found { return Some(idx); }
      idx := idx + 1;
    }
    idx := minimum;
    while idx < |src| + 1
      invariant minimum <= idx
      invariant FirstMatch(src, body, minimum, |src|) == FirstMatch(src, body, idx, |src|)
    {
      found := HunkMatchesAt(src, idx, body);
      if found { return Some(idx); }
      idx := idx + 1;
    }
    var removedBlock := CollectTagged(body, '-');
    if removedBlock != [] {
      var at := FindBlock(src, removedBlock, minimum);
      if at.Some? { return at; }
    }
    var contextBlock := CollectTagged(body, ' ');
    if contextBlock != [] {
      var at := FindBlock(src, contextBlock, minimum);
      if at.Some? { return at; }
    }
    if forall i :: 0 <= i < |body| ==> body[i] != "" && body[i][0] in {'+', '\\'} {
      return Some(Min(Max(expected, minimum), |src|));
    }
    return None;
  }

  // ---------- applying ----------

  /** Output lines and new cursor after the body of one hunk, or the first complaint. */
  function ApplyBody(src: seq<Line>, cur: nat, body: seq<Line>): (r: Result<(seq<Line>, nat)>)
    requires cur <= |src|
    ensures r.Ok? ==> cur <= r.value.1 <= |src|
    decreases |body|
  {
    if body == [] then Ok(([], cur))
    else
      var raw := body[0];
      if raw == "" then Err(EmptyHunkLine)
      else if raw[0] == ' ' then
        if !LineMatches(src, cur, raw[1..]) then Err(ContextMismatch)
        else Emit([src[cur]], ApplyBody(src, cur + 1, body[1..]))
      else if raw[0] == '-' then
        if !LineMatches(src, cur, raw[1..]) then Err(RemoveMismatch)
        else ApplyBody(src, cur + 1, body[1..])
      else if raw[0] == '+' then Emit([raw[1..]], ApplyBody(src, cur, body[1..]))
      else if raw[0] == '\\' then ApplyBody(src, cur, body[1..])
      else Err(UnsupportedLine)
  }

  function Emit(lines: seq<Line>, r: Result<(seq<Line>, nat)>): Result<(seq<Line>, nat)>
  {
    match r
    case Err(e) => Err(e)
    case Ok((out, cur)) => Ok((lines + out, cur))
  }

  function Prefixed(lines: seq<Line>, r: Result<seq<Line>>): Result<seq<Line>>
  {
    match r
    case Err(e) => Err(e)
    case Ok(out) => Ok(lines + out)
  }

  /** One hunk: find its place, copy the gap before it, process its body. */
  function ApplyHunk(src: seq<Line>, cur: nat, hunk: Hunk): (r: Result<(seq<Line>, nat)>)
    requires cur <= |src|
    ensures r.Ok? ==> cur <= r.value.1 <= |src|
  {
    match ParseHeader(hunk.header)
    case None => Err(InvalidHeader)
    case Some(h) =>
      match Start(src, hunk.body, h.oldStart - 1, cur)
      case None => Err(ContextMismatch)
      case Some(start) => Emit(src[cur..Min(start, |src|)], ApplyBody(src, Min(start, |src|), hunk.body))
  }

  /** The lines produced from `src[cur..]` by the remaining hunks. */
  function ApplyFrom(src: seq<Line>, cur: nat, hunks: seq<Hunk>): Result<seq<Line>>
    requires cur <= |src|
    decreases |hunks|
  {
    if hunks == [] then Ok(src[cur..])
    else
      match ApplyHunk(src, cur, hunks[0])
      case Err(e) => Err(e)
      case Ok((lines, cur')) => Prefixed(lines, ApplyFrom(src, cur', hunks[1..]))
  }

  function Apply(src: seq<Line>, hunks: seq<Hunk>): Result<seq<Line>> { ApplyFrom(src, 0, hunks) }

  lemma PrefixedTwice(a: seq<Line>, b: seq<Line>, r: Result<seq<Line>>)
    ensures Prefixed(a, Prefixed(b, r)) == Prefixed(a + b, r)
  {
    if r.Ok? { assert a + (b + r.value) == (a + b) + r.value; }
  }

  /** One hunk's body at the cursor: appends to `output` and advances `srcIdx`. */
  method ApplyHunkBody(src: seq<Line>, output0: seq<Line>, srcIdx0: nat, body: seq<Line>)
    returns (r: Result<(seq<Line>, nat)>)
    requires srcIdx0 <= |src|
    ensures r == Emit(output0, ApplyBody(src, srcIdx0, body))
  {
    var output, srcIdx := output0, srcIdx0;
    for i := 0 to |body|
      invariant 0 <= srcIdx <= |src|
      invariant Emit(output0, ApplyBody(src, srcIdx0, body)) == Emit(output, ApplyBody(src, srcIdx, body[i..]))
    {
      var raw := body[i];
      assert body[i..][1..] == body[i + 1..];
      if raw == "" { return Err(EmptyHunkLine); }
      var tag, content := raw[0], raw[1..];
      ghost var before := output;
      if tag == ' ' {
        if !LineMatches(src, srcIdx, content) { return Err(ContextMismatch); }
        output := output + [src[srcIdx]];
        EmitTwice(before, [src[srcIdx]], ApplyBody(src, srcIdx + 1, body[i + 1..]));
        srcIdx := srcIdx + 1;
      } else if tag == '-' {
        if !LineMatches(src, srcIdx, content) { return Err(RemoveMismatch); }
        srcIdx := srcIdx + 1;
      } else if tag == '+' {
        output := output + [content];
        EmitTwice(before, [content], ApplyBody(src, srcIdx, body[i + 1..]));
      } else if tag == '\\' {
      } else {
        return Err(UnsupportedLine);
      }
    }
    assert body[|body|..] == [];
    assert output + [] == output;
    return Ok((output, srcIdx));
  }

  lemma EmitTwice(a: seq<Line>, b: seq<Line>, r: Result<(seq<Line>, nat)>)
    ensures Emit(a, Emit(b, r)) == Emit(a + b, r)
  {
    if r.Ok? { assert a + (b + r.value.0) == (a + b) + r.value.0; }
  }

  /** Copies source lines up to `upTo`, or to the end of the source. */
  method CopyLines(src: seq<Line>, output0: seq<Line>, srcIdx0: nat, upTo: nat)
    returns (output: seq<Line>, srcIdx: nat)
    requires srcIdx0 <= |src| && srcIdx0 <= upTo
    ensures srcIdx == Min(upTo, |src|) && output == output0 + src[srcIdx0..srcIdx]
  {
    output, srcIdx := output0, srcIdx0;
    while srcIdx < upTo && srcIdx < |src|
      invariant srcIdx0 <= srcIdx <= Min(upTo, |src|)
      invariant output == output0 + src[srcIdx0..srcIdx]
    {
      output := output + [src[srcIdx]];
      srcIdx := srcIdx + 1;
    }
  }

  method PlaceHunk(src: seq<Line>, output0: seq<Line>, srcIdx0: nat, hunk: Hunk)
    returns (r: Result<(seq<Line>, nat)>)
    requires srcIdx0 <= |src|
    ensures r == Emit(output0, ApplyHunk(src, srcIdx0, hunk))
  {
    hide Norm, ParseHeader, Start, ApplyBody;
    var header := ParseHeader(hunk.header);
    if header.None? { return Err(InvalidHeader); }
    var hunkStart := FindHunkStart(src, header.value.oldStart - 1, hunk.body, srcIdx0);
    if hunkStart.None? { return Err(ContextMismatch); }
    var output, srcIdx := CopyLines(src, output0, srcIdx0, hunkStart.value);
    r := ApplyHunkBody(src, output, srcIdx, hunk.body);
    EmitTwice(output0, src[srcIdx0..srcIdx], ApplyBody(src, srcIdx, hunk.body));
  }

  method ApplyHunksToLines(src: seq<Line>, hunks: seq<Hunk>) returns (r: Result<seq<Line>>)
    ensures r == Apply(src, hunks)
  {
    hide ApplyHunk;
    var output: seq<Line> := [];
    var srcIdx := 0;
    assert Prefixed([], Apply(src, hunks)) == Apply(src, hunks) by {
      if Apply(src, hunks).Ok? { assert [] + Apply(src, hunks).value == Apply(src, hunks).value; }
    }
    assert hunks[0..] == hunks;
    for i := 0 to |hunks|
      invariant 0 <= srcIdx <= |src|
      invariant Apply(src, hunks) == Prefixed(output, ApplyFrom(src, srcIdx, hunks[i..]))
    {
      assert hunks[i..][1..] == hunks[i + 1..];
      var step := PlaceHunk(src, output, srcIdx, hunks[i]);
      if step.Err? { return Err(step.error); }
      ghost var (lines, next) := ApplyHunk(src, srcIdx, hunks[i]).value;
      PrefixedTwice(output, lines, ApplyFrom(src, next, hunks[i + 1..]));
      output, srcIdx := step.value.0, step.value.1;
    }
    assert hunks[|hunks|..] == [];
    ghost var rest := src[srcIdx..];
    assert src[srcIdx..|src|] == rest;
    output, srcIdx := CopyLines(src, output, srcIdx, |src|);
    return Ok(output);
  }
}
