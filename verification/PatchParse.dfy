/** Reading a unified diff into files and hunks, and printing it back. */
module PatchParse {
  import opened Text
  import opened PatchApply

  datatype FilePatch = FilePatch(oldPath: Option<string>, newPath: Option<string>, hunks: seq<Hunk>)

  // ---------- paths ----------

  function NormalizePath(token: string): Option<string>
  {
    var value := Strip(token);
    if value == "" || value == "/dev/null" then None
    else Some(ReplaceFirst(ReplaceFirst(value, "a/"), "b/"))
  }

  // ---------- parsing ----------

  predicate IsBoundary(line: Line) { "@@" <= line || "--- " <= line }

  function BodyLength(lines: seq<Line>): (n: nat)
    ensures n <= |lines|
    ensures forall i :: 0 <= i < n ==> !IsBoundary(lines[i])
    ensures n < |lines| ==> IsBoundary(lines[n])
  {
    if lines == [] || IsBoundary(lines[0]) then 0
    else
      assert forall i :: 0 < i < |lines| ==> lines[i] == lines[1..][i - 1];
      1 + BodyLength(lines[1..])
  }

  /** The hunks at the front of `lines`, and what follows them. */
  function ParseHunks(lines: seq<Line>): (r: (seq<Hunk>, seq<Line>))
    ensures |r.1| <= |lines|
  {
    if lines == [] || !("@@" <= lines[0]) then ([], lines)
    else
      var n := BodyLength(lines[1..]);
      var (hunks, rest) := ParseHunks(lines[1 + n..]);
      ([Hunk(lines[0], lines[1..1 + n])] + hunks, rest)
  }

  function ParseFiles(lines: seq<Line>): seq<FilePatch>
    decreases |lines|
  {
    if lines == [] then []
    else if !("--- " <= lines[0]) then ParseFiles(lines[1..])
    else if |lines| < 2 || !("+++ " <= lines[1]) then ParseFiles(lines[1..])
    else
      var (hunks, rest) := ParseHunks(lines[2..]);
      [FilePatch(NormalizePath(Strip(lines[0][4..])), NormalizePath(Strip(lines[1][4..])), hunks)] + ParseFiles(rest)
  }

  method ReadBody(lines: seq<Line>, start: nat) returns (body: seq<Line>, idx: nat)
    requires start <= |lines|
    ensures idx == start + BodyLength(lines[start..]) && body == lines[start..idx]
  {
    idx := start;
    body := [];
    while idx < |lines|
      invariant start <= idx <= |lines| && body == lines[start..idx]
      invariant start + BodyLength(lines[start..]) == idx + BodyLength(lines[idx..])
    {
      var current := lines[idx];
      assert lines[idx..][0] == current && lines[idx..][1..] == lines[idx + 1..];
      if "@@" <= current || "--- " <= current { break; }
      body := body + [current];
      idx := idx + 1;
    }
  }

  lemma ParseHunksStep(lines: seq<Line>, idx: nat)
    requires idx < |lines| && "@@" <= lines[idx]
    ensures var next := idx + 1 + BodyLength(lines[idx + 1..]);
            ParseHunks(lines[idx..]) ==
            ([Hunk(lines[idx], lines[idx + 1..next])] + ParseHunks(lines[next..]).0, ParseHunks(lines[next..]).1)
  {
    hide BodyLength, IsBoundary;
    var suffix, n := lines[idx..], BodyLength(lines[idx + 1..]);
    assert suffix[0] == lines[idx] && suffix[1..] == lines[idx + 1..];
    assert suffix[1 + n..] == lines[idx + 1 + n..];
    assert suffix[1..1 + n] == lines[idx + 1..idx + 1 + n];
  }

  lemma FileMarkIsNoHunk(line: Line)
    requires "--- " <= line
    ensures !("@@" <= line)
  {
    assert line[..4][0] == line[0];
  }

  lemma ParseHunksEnd(lines: seq<Line>, idx: nat)
    requires idx <= |lines| && (idx < |lines| ==> !("@@" <= lines[idx]))
    ensures ParseHunks(lines[idx..]) == ([], lines[idx..])
    ensures idx == 0 ==> lines[idx..] == lines
  {
  }

  method ReadHunks(lines: seq<Line>, start: nat) returns (hunks: seq<Hunk>, idx: nat)
    requires start <= |lines|
    ensures start <= idx <= |lines| && ParseHunks(lines[start..]) == (hunks, lines[idx..])
  {
    hide ParseHunks, BodyLength;
    idx := start;
    hunks := [];
    assert [] + ParseHunks(lines[start..]).0 == ParseHunks(lines[start..]).0;
    while idx < |lines| && "@@" <= lines[idx]
      invariant start <= idx <= |lines|
      invariant ParseHunks(lines[start..]) == (hunks + ParseHunks(lines[idx..]).0, ParseHunks(lines[idx..]).1)
    {
      var header := lines[idx];
      ParseHunksStep(lines, idx);
      var body, next := ReadBody(lines, idx + 1);
      ghost var more := ParseHunks(lines[next..]).0;
      assert hunks + ([Hunk(header, body)] + more) == (hunks + [Hunk(header, body)]) + more;
      hunks := hunks + [Hunk(header, body)];
      idx := next;
      if idx < |lines| && "--- " <= lines[idx] { break; }
    }
    if idx < |lines| && "--- " <= lines[idx] { FileMarkIsNoHunk(lines[idx]); }
    ParseHunksEnd(lines, idx);
    assert hunks + [] == hunks;
  }

  lemma NoFileAt(lines: seq<Line>, idx: nat)
    requires idx < |lines|
    requires !("--- " <= lines[idx]) || idx + 1 >= |lines| || !("+++ " <= lines[idx + 1])
    ensures ParseFiles(lines[idx..]) == ParseFiles(lines[idx + 1..])
  {
    hide NormalizePath, ParseHunks;
    assert lines[idx..][1..] == lines[idx + 1..];
  }

  lemma FileAt(lines: seq<Line>, idx: nat)
    requires idx + 1 < |lines| && "--- " <= lines[idx] && "+++ " <= lines[idx + 1]
    ensures var (hunks, rest) := ParseHunks(lines[idx + 2..]);
            ParseFiles(lines[idx..]) ==
            [FilePatch(NormalizePath(Strip(lines[idx][4..])), NormalizePath(Strip(lines[idx + 1][4..])), hunks)] +
            ParseFiles(rest)
  {
    hide NormalizePath, ParseHunks;
    assert lines[idx..][2..] == lines[idx + 2..];
  }

  lemma NoFilesLeft(files: seq<FilePatch>)
    ensures files + ParseFiles([]) == files
  {
  }

  method ParseUnifiedPatch(lines: seq<Line>) returns (files: seq<FilePatch>)
    ensures files == ParseFiles(lines)
  {
    hide NormalizePath, ParseHunks, ParseFiles;
    var idx := 0;
    files := [];
    assert lines[0..] == lines;
    while idx < |lines|
      invariant 0 <= idx <= |lines|
      invariant files + ParseFiles(lines[idx..]) == ParseFiles(lines)
      decreases |lines| - idx
    {
      var line := lines[idx];
      if !("--- " <= line) {
        NoFileAt(lines, idx);
        idx := idx + 1;
        continue;
      }
      var oldPath := NormalizePath(Strip(line[4..]));
      idx := idx + 1;
      if idx >= |lines| || !("+++ " <= lines[idx]) {
        NoFileAt(lines, idx - 1);
        continue;
      }
      FileAt(lines, idx - 1);
      var newPath := NormalizePath(Strip(lines[idx][4..]));
      idx := idx + 1;
      var hunks, next := ReadHunks(lines, idx);
      idx := next;
      files := files + [FilePatch(oldPath, newPath, hunks)];
    }
    assert lines[idx..] == [];
    NoFilesLeft(files);
  }

  // ---------- printing ----------

  function PrintPath(prefix: string, path: Option<string>): string
  {
    if path.None? then "/dev/null" else prefix + path.value
  }

  function PrintHunks(hunks: seq<Hunk>): seq<Line>
  {
    if hunks == [] then [] else [hunks[0].header] + hunks[0].body + PrintHunks(hunks[1..])
  }

  function PrintFile(f: FilePatch): seq<Line>
  {
    ["--- " + PrintPath("a/", f.oldPath), "+++ " + PrintPath("b/", f.newPath)] + PrintHunks(f.hunks)
  }

  function PrintFiles(files: seq<FilePatch>): seq<Line>
  {
    if files == [] then [] else PrintFile(files[0]) + PrintFiles(files[1..])
  }

  // ---------- parsing undoes printing, exactly when ----------

  predicate HunkOk(h: Hunk) { "@@" <= h.header && forall i :: 0 <= i < |h.body| ==> !IsBoundary(h.body[i]) }

  predicate HunksOk(hunks: seq<Hunk>) { forall i :: 0 <= i < |hunks| ==> HunkOk(hunks[i]) }

  function Contains(s: string, pat: string): bool { Find(s, pat).Some? }

  predicate NoTrailingSpace(s: string) { s == "" || !IsSpace(s[|s| - 1]) }

  predicate OldPathOk(path: Option<string>)
  {
    path.Some? ==> NoTrailingSpace(path.value) && !Contains(path.value, "b/")
  }

  predicate NewPathOk(path: Option<string>)
  {
    path.Some? ==> NoTrailingSpace(path.value) && !Contains(path.value, "a/")
  }

  predicate FileOk(f: FilePatch) { OldPathOk(f.oldPath) && NewPathOk(f.newPath) && HunksOk(f.hunks) }

  /** A tagged line is taken for a boundary iff it removes text beginning with `-- `. */
  lemma TaggedBoundary(raw: Line)
    requires ConsumesOld(raw) || AddsOnly(raw)
    ensures IsBoundary(raw) <==> raw[0] == '-' && "-- " <= raw[1..]
  {
    if |raw| >= 4 && raw[0] == '-' {
      assert raw[..4] == [raw[0], raw[1], raw[2], raw[3]];
      assert raw[1..][..3] == [raw[1], raw[2], raw[3]];
    }
  }

  /** Every hunk the parser returns is one it could have printed. */
  lemma {:induction false} ParsedHunksOk(lines: seq<Line>)
    ensures HunksOk(ParseHunks(lines).0)
  {
    hide ParseHunks, BodyLength, HunkOk;
    ParsedUnfolds(lines);
    if lines != [] && "@@" <= lines[0] {
      FirstHunkOk(lines);
      ParsedHunksOk(lines[1 + BodyLength(lines[1..])..]);
    }
  }

  lemma ParsedUnfolds(lines: seq<Line>)
    ensures if lines == [] || !("@@" <= lines[0]) then ParseHunks(lines).0 == []
            else
              var n := BodyLength(lines[1..]);
              ParseHunks(lines).0 == [Hunk(lines[0], lines[1..1 + n])] + ParseHunks(lines[1 + n..]).0
  {
    hide BodyLength;
  }

  lemma FirstHunkOk(lines: seq<Line>)
    requires lines != [] && "@@" <= lines[0]
    ensures HunkOk(Hunk(lines[0], lines[1..1 + BodyLength(lines[1..])]))
  {
    hide BodyLength, IsBoundary;
    var n := BodyLength(lines[1..]);
    assert lines[1..1 + n] == lines[1..][..n];
  }

  lemma {:induction false} ParsedFilesOk(lines: seq<Line>)
    ensures forall i :: 0 <= i < |ParseFiles(lines)| ==> HunksOk(ParseFiles(lines)[i].hunks)
    decreases |lines|
  {
    hide NormalizePath, ParseHunks, HunksOk;
    if lines != [] {
      if |lines| < 2 || !("--- " <= lines[0]) || !("+++ " <= lines[1]) {
        ParsedFilesOk(lines[1..]);
      } else {
        ParsedHunksOk(lines[2..]);
        ParsedFilesOk(ParseHunks(lines[2..]).1);
      }
    }
  }

  lemma BodyLengthOfPrinted(body: seq<Line>, tail: seq<Line>)
    requires forall i :: 0 <= i < |body| ==> !IsBoundary(body[i])
    requires tail == [] || IsBoundary(tail[0])
    ensures BodyLength(body + tail) == |body|
  {
    hide BodyLength, IsBoundary;
    assert forall i :: 0 <= i < |body| ==> (body + tail)[i] == body[i];
    assert tail != [] ==> (body + tail)[|body|] == tail[0];
  }

  lemma PrintedHunksStart(hunks: seq<Hunk>, tail: seq<Line>)
    requires HunksOk(hunks) && (tail == [] || "--- " <= tail[0])
    ensures var rest := PrintHunks(hunks) + tail; rest == [] || IsBoundary(rest[0])
  {
    if hunks != [] { assert HunkOk(hunks[0]); }
  }

  lemma NothingPrinted(tail: seq<Line>)
    ensures PrintHunks([]) + tail == tail
  {
  }

  lemma PrintedHunksSplit(hunks: seq<Hunk>, tail: seq<Line>)
    requires hunks != []
    ensures PrintHunks(hunks) + tail == [hunks[0].header] + (hunks[0].body + (PrintHunks(hunks[1..]) + tail))
  {
  }

  lemma {:induction false} ParsePrintedHunks(hunks: seq<Hunk>, tail: seq<Line>)
    requires HunksOk(hunks) && (tail == [] || "--- " <= tail[0])
    ensures ParseHunks(PrintHunks(hunks) + tail) == (hunks, tail)
  {
    hide IsBoundary, ParseHunks, HunkOk, PrintHunks;
    if hunks == [] {
      NothingPrinted(tail);
      if tail != [] { FileMarkIsNoHunk(tail[0]); }
      ParseHunksEnd(tail, 0);
    } else {
      var h, rest := hunks[0], PrintHunks(hunks[1..]) + tail;
      assert HunkOk(h);
      PrintedHunksSplit(hunks, tail);
      PrintedHunksStart(hunks[1..], tail);
      ParseHunksCons(h, rest);
      ParsePrintedHunks(hunks[1..], tail);
      assert [h] + hunks[1..] == hunks;
    }
  }

  lemma ParseHunksCons(h: Hunk, rest: seq<Line>)
    requires HunkOk(h) && (rest == [] || IsBoundary(rest[0]))
    ensures ParseHunks([h.header] + (h.body + rest)) == ([h] + ParseHunks(rest).0, ParseHunks(rest).1)
  {
    hide BodyLength, IsBoundary;
    var all := [h.header] + (h.body + rest);
    BodyLengthOfPrinted(h.body, rest);
    assert all[1..] == h.body + rest;
    assert all[1 + |h.body|..] == rest && all[1..1 + |h.body|] == h.body;
  }

  /** The files with every path sent through print and parse. */
  function Reread(files: seq<FilePatch>): (r: seq<FilePatch>)
    ensures |r| == |files|
    ensures forall i :: 0 <= i < |r| ==>
      r[i] == FilePatch(RereadPath("a/", files[i].oldPath), RereadPath("b/", files[i].newPath), files[i].hunks)
  {
    if files == [] then []
    else
      var f := files[0];
      [FilePatch(RereadPath("a/", f.oldPath), RereadPath("b/", f.newPath), f.hunks)] + Reread(files[1..])
  }

  function RereadPath(prefix: string, path: Option<string>): Option<string>
  {
    NormalizePath(Strip(PrintPath(prefix, path)))
  }

  lemma {:induction false} ParsePrintedFiles(files: seq<FilePatch>)
    requires forall i :: 0 <= i < |files| ==> HunksOk(files[i].hunks)
    ensures ParseFiles(PrintFiles(files)) == Reread(files)
  {
    hide NormalizePath, ParseHunks, HunksOk, PrintPath;
    if files != [] {
      var f, tail := files[0], PrintFiles(files[1..]);
      var l0, l1 := "--- " + PrintPath("a/", f.oldPath), "+++ " + PrintPath("b/", f.newPath);
      var lines := PrintFiles(files);
      assert lines == [l0, l1] + (PrintHunks(f.hunks) + tail);
      assert lines[2..] == PrintHunks(f.hunks) + tail;
      assert l0[4..] == PrintPath("a/", f.oldPath) && l1[4..] == PrintPath("b/", f.newPath);
      ParsePrintedHunks(f.hunks, tail);
      ParsePrintedFiles(files[1..]);
    }
  }

  /** What is left of a printed path once white space is stripped. */
  lemma StrippedPath(prefix: string, p: string)
    requires |prefix| == 2 && !IsSpace(prefix[0]) && !IsSpace(prefix[1]) && prefix[0] != '/'
    ensures var v := Strip(prefix + p);
            && prefix <= v
            && (if NoTrailingSpace(p) then v == prefix + p else |v| < 2 + |p|)
            && RereadPath(prefix, Some(p)) == Some(ReplaceFirst(ReplaceFirst(v, "a/"), "b/"))
  {
    hide Strip, ReplaceFirst, IsSpace, NoTrailingSpace;
    StripPrinted(prefix, p);
    StripOnce(prefix + p);
    var v := Strip(prefix + p);
    assert v[..2][0] == v[0];
  }

  lemma DevNullSurvives(prefix: string)
    ensures RereadPath(prefix, None) == None
  {
    hide Strip, ReplaceFirst;
    StripDevNull();
  }

  lemma StripDevNull()
    ensures Strip("/dev/null") == "/dev/null"
  {
    assert !IsSpace('/') && !IsSpace('l');
    hide IsSpace;
    var s := "/dev/null";
    assert RStrip(s) == s;
  }

  lemma DropPrefix(v: string, prefix: string)
    requires prefix <= v && |prefix| == 2
    ensures ReplaceFirst(v, prefix) == v[2..]
  {
    assert Find(v, prefix) == Some(0);
  }

  /** An old path survives iff it has no trailing white space and no `b/` inside. */
  lemma OldPathSurvivesIff(path: Option<string>)
    ensures RereadPath("a/", path) == path <==> OldPathOk(path)
  {
    hide RereadPath, Find, Strip, NoTrailingSpace;
    if path.None? {
      DevNullSurvives("a/");
    } else {
      var p := path.value;
      StrippedPath("a/", p);
      DropPrefix(Strip("a/" + p), "a/");
      if NoTrailingSpace(p) { assert ("a/" + p)[2..] == p; }
    }
  }

  /** A path without the prefixes is only stripped; nothing, and the null device, are no path. */
  lemma PlainPath(token: string)
    ensures var v := Strip(token);
            && (v == "" || v == "/dev/null" ==> NormalizePath(token) == None)
            && (v != "" && v != "/dev/null" && !Contains(v, "a/") && !Contains(v, "b/") ==>
                NormalizePath(token) == Some(v))
  {
    hide Strip, Find;
  }

  /** `lib/x` comes back as `lix`. */
  lemma InnerPrefixLost()
    ensures RereadPath("a/", Some("lib/x")) == Some("lix")
  {
    hide RereadPath, Strip, ReplaceFirst, IsSpace;
    PlainX();
    StrippedPath("a/", "lib/x");
    DropPrefix("a/" + "lib/x", "a/");
    assert ("a/" + "lib/x")[2..] == "lib/x";
    assert "lib/x"[0..][0] == 'l' && "lib/x"[1..][0] == 'i' && "lib/x"[2..][..2] == "b/";
    DropAt("lib/x", "b/", 2);
    assert "lib/x"[..2] + "lib/x"[4..] == "lix";
  }

  lemma PlainX()
    ensures !IsSpace('x') && !IsSpace('a') && !IsSpace('/')
  {
  }

  lemma DropAt(s: string, pat: string, i: nat)
    requires i <= |s| && pat <= s[i..] && forall j :: 0 <= j < i ==> !(pat <= s[j..])
    ensures i + |pat| <= |s| && ReplaceFirst(s, pat) == s[..i] + s[i + |pat|..]
  {
    var r := Find(s, pat);
    assert r.Some? ==> s[r.value..][..|pat|] == pat;
  }

  /** A new path survives iff it has no trailing white space and no `a/` inside. */
  lemma NewPathSurvivesIff(path: Option<string>)
    ensures RereadPath("b/", path) == path <==> NewPathOk(path)
  {
    hide RereadPath, ReplaceFirst, Contains, Strip, NoTrailingSpace;
    if path.None? {
      DevNullSurvives("b/");
    } else {
      var p := path.value;
      StrippedPath("b/", p);
      DropInnerThenPrefix(Strip("b/" + p));
      if NoTrailingSpace(p) {
        ShiftedContains("b/", p, "a/");
        assert ("b/" + p)[2..] == p;
      }
    }
  }

  lemma DropInnerThenPrefix(v: string)
    requires "b/" <= v
    ensures var r := ReplaceFirst(ReplaceFirst(v, "a/"), "b/");
            if Contains(v, "a/") then |r| == |v| - 4 else r == v[2..]
  {
    var w := ReplaceFirst(v, "a/");
    if Contains(v, "a/") {
      var i := Find(v, "a/").value;
      assert v[i..i + 2][0] == v[i];
      assert v[..2][0] == v[0] && v[..2][1] == v[1];
      assert w[..2] == v[..2];
    }
    DropPrefix(w, "b/");
  }

  lemma StripPrinted(prefix: string, p: string)
    requires |prefix| == 2 && !IsSpace(prefix[0]) && !IsSpace(prefix[1])
    ensures Strip(prefix + p) == RStrip(prefix + p) && prefix <= Strip(prefix + p)
    ensures NoTrailingSpace(p) ==> Strip(prefix + p) == prefix + p
    ensures !NoTrailingSpace(p) ==> |Strip(prefix + p)| < 2 + |p|
    decreases |p|
  {
    var s := prefix + p;
    if !NoTrailingSpace(p) {
      assert s[..|s| - 1] == prefix + p[..|p| - 1];
      StripPrinted(prefix, p[..|p| - 1]);
      assert s[|s| - 1] == p[|p| - 1];
      assert RStrip(s) == RStrip(s[..|s| - 1]);
    } else {
      assert p != "" ==> s[|s| - 1] == p[|p| - 1];
      assert !IsSpace(s[|s| - 1]);
    }
  }

  lemma StripOnce(s: string)
    requires s != "" && !IsSpace(s[0])
    ensures Strip(Strip(s)) == Strip(s)
  {
    if RStrip(s) != "" { assert RStrip(s)[0] == s[0]; }
  }

  lemma ShiftedContains(prefix: string, p: string, pat: string)
    requires |prefix| == 2 && |pat| == 2 && prefix[0] != pat[0] && prefix[1] != pat[0]
    ensures Contains(prefix + p, pat) <==> Contains(p, pat)
  {
    var s := prefix + p;
    if Find(p, pat).Some? {
      var j := Find(p, pat).value;
      assert p[j..][..2] == p[j..j + 2];
      assert s[j + 2..] == p[j..];
    }
    if Find(s, pat).Some? {
      var i := Find(s, pat).value;
      assert s[i..i + 2][0] == s[i] == pat[0];
      assert p[i - 2..] == s[i..] && s[i..][..2] == s[i..i + 2];
    }
  }

  predicate AllFilesOk(files: seq<FilePatch>) { forall i :: 0 <= i < |files| ==> FileOk(files[i]) }

  /** Printing and parsing gives back the same files iff every hunk is printable and every path survives. */
  lemma ParseUndoesPrintIff(files: seq<FilePatch>)
    ensures ParseFiles(PrintFiles(files)) == files <==> AllFilesOk(files)
  {
    hide HunksOk, RereadPath, OldPathOk, NewPathOk;
    if forall i :: 0 <= i < |files| ==> HunksOk(files[i].hunks) {
      ParsePrintedFiles(files);
      forall i | 0 <= i < |files| ensures Reread(files)[i] == files[i] <==> FileOk(files[i]) {
        OldPathSurvivesIff(files[i].oldPath);
        NewPathSurvivesIff(files[i].newPath);
      }
      assert Reread(files) == files <==> forall i :: 0 <= i < |files| ==> Reread(files)[i] == files[i];
    } else {
      ParsedFilesOk(PrintFiles(files));
    }
  }
}
