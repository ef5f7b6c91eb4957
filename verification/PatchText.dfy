/** Edit scripts sent through patch text: printed, parsed and applied, removed lines that look like file
    marks included. */
module PatchText {
  import opened Text
  import opened PatchApply
  import opened PatchTheorems
  import opened PatchParse
  import opened PatchRoundTrip

  // ---------- reading back the very same files ----------

  predicate NoDashedDeletion(script: seq<Edit>)
  {
    forall i, j :: 0 <= i < |script| && 0 <= j < |script[i].ops| && script[i].ops[j].Delete? ==>
      !("-- " <= script[i].ops[j].text)
  }

  predicate UndashedOps(ops: seq<Op>) { forall j :: 0 <= j < |ops| && ops[j].Delete? ==> !("-- " <= ops[j].text) }

  lemma {:induction false} RenderedOpAt(ops: seq<Op>, j: nat)
    requires j < |ops|
    ensures RenderOps(ops)[j] == RenderOp(ops[j])
  {
    if j > 0 { RenderedOpAt(ops[1..], j - 1); }
  }

  lemma RenderedOpBoundary(op: Op)
    ensures IsBoundary(RenderOp(op)) <==> op.Delete? && "-- " <= op.text
  {
    TaggedBoundary(RenderOp(op));
    assert RenderOp(op)[1..] == op.text;
  }

  lemma RenderedHunkOkIff(pos: nat, newPos: nat, e: Edit)
    ensures HunkOk(RenderEdit(pos, newPos, e)) <==> UndashedOps(e.ops)
  {
    hide IsBoundary, RenderOp;
    var h := RenderEdit(pos, newPos, e);
    assert h.header[..2] == "@@";
    forall j | 0 <= j < |e.ops| ensures IsBoundary(h.body[j]) <==> e.ops[j].Delete? && "-- " <= e.ops[j].text {
      RenderedOpAt(e.ops, j);
      RenderedOpBoundary(e.ops[j]);
    }
  }

  lemma {:induction false} RenderedHunksOkIff(pos: nat, newPos: nat, script: seq<Edit>)
    ensures HunksOk(Render(pos, newPos, script)) <==> NoDashedDeletion(script)
    decreases |script|
  {
    hide HunkOk, RenderEdit, UndashedOps;
    if script != [] {
      var e := script[0];
      var hunks := Render(pos, newPos, script);
      var rest := Render(pos + e.skip + |Before(e.ops)|, newPos + e.skip + |After(e.ops)|, script[1..]);
      RenderedHunkOkIff(pos, newPos, e);
      RenderedHunksOkIff(pos + e.skip + |Before(e.ops)|, newPos + e.skip + |After(e.ops)|, script[1..]);
      assert hunks == [RenderEdit(pos, newPos, e)] + rest;
      HunksOkCons(RenderEdit(pos, newPos, e), rest);
      NoDashedCons(script);
    }
  }

  lemma HunksOkCons(h: Hunk, rest: seq<Hunk>)
    ensures HunksOk([h] + rest) <==> HunkOk(h) && HunksOk(rest)
  {
    hide HunkOk;
    var all := [h] + rest;
    assert forall i :: 0 <= i < |rest| ==> rest[i] == all[i + 1];
    if HunksOk(all) { assert HunkOk(all[0]); }
  }

  lemma NoDashedCons(script: seq<Edit>)
    requires script != []
    ensures NoDashedDeletion(script) <==> UndashedOps(script[0].ops) && NoDashedDeletion(script[1..])
  {
    var rest := script[1..];
    assert forall i :: 0 <= i < |rest| ==> rest[i] == script[i + 1];
    if UndashedOps(script[0].ops) && NoDashedDeletion(rest) {
      forall i, j | 0 <= i < |script| && 0 <= j < |script[i].ops| && script[i].ops[j].Delete?
        ensures !("-- " <= script[i].ops[j].text)
      {
        if i > 0 { assert script[i] == rest[i - 1]; }
      }
    }
  }

  /** A file to change: its paths, its lines, and the edits. */
  datatype Change = Change(oldPath: Option<string>, newPath: Option<string>, src: seq<Line>, script: seq<Edit>)

  function PatchFor(changes: seq<Change>): (files: seq<FilePatch>)
    ensures |files| == |changes|
    ensures forall i :: 0 <= i < |changes| ==>
      files[i] == FilePatch(changes[i].oldPath, changes[i].newPath, Render(0, 0, changes[i].script))
  {
    seq(|changes|, i requires 0 <= i < |changes| =>
      FilePatch(changes[i].oldPath, changes[i].newPath, Render(0, 0, changes[i].script)))
  }

  /** The patch text of several changes reads back as the very same files, and each application reaches
      its target, iff each path survives, no removed text begins with two dashes and a blank, and every
      insertion that lands early is harmless. */
  lemma PatchRereadIff(changes: seq<Change>)
    requires forall i :: 0 <= i < |changes| ==> Fits(changes[i].src, 0, changes[i].script)
    ensures var files := PatchFor(changes);
            var parsed := ParseFiles(PrintFiles(files));
            (parsed == files &&
             forall i :: 0 <= i < |changes| ==>
               Apply(changes[i].src, files[i].hunks) == Ok(Target(changes[i].src, 0, changes[i].script)))
            <==>
            (forall i :: 0 <= i < |changes| ==>
               && OldPathOk(changes[i].oldPath) && NewPathOk(changes[i].newPath)
               && NoDashedDeletion(changes[i].script)
               && Harmless(changes[i].src, 0, 0, changes[i].script))
  {
    hide HunksOk, ParseFiles, PrintFiles, OldPathOk, NewPathOk, Render, Apply, Target, Fits, Harmless;
    hide NoDashedDeletion;
    var files := PatchFor(changes);
    ParseUndoesPrintIff(files);
    forall i | 0 <= i < |changes|
      ensures FileOk(files[i]) <==>
              OldPathOk(changes[i].oldPath) && NewPathOk(changes[i].newPath) && NoDashedDeletion(changes[i].script)
    {
      RenderedHunksOkIff(0, 0, changes[i].script);
    }
    forall i | 0 <= i < |changes|
      ensures Apply(changes[i].src, files[i].hunks) == Ok(Target(changes[i].src, 0, changes[i].script)) <==>
              Harmless(changes[i].src, 0, 0, changes[i].script)
    {
      ApplyRenderedIff(changes[i].src, changes[i].script);
    }
  }

  // ---------- how many files the parser sees ----------

  /** Places where a line that opens a file is followed by one that names its new path. */
  function Marks(lines: seq<Line>): nat
    decreases |lines|
  {
    if |lines| < 2 then 0
    else (if "--- " <= lines[0] && "+++ " <= lines[1] then 1 else 0) + Marks(lines[1..])
  }

  predicate NoOpening(lines: seq<Line>) { forall i :: 0 <= i < |lines| ==> !("--- " <= lines[i]) }

  lemma {:induction false} MarksPass(prefix: seq<Line>, rest: seq<Line>)
    requires NoOpening(prefix)
    ensures Marks(prefix + rest) == Marks(rest)
  {
    if prefix == [] {
      assert prefix + rest == rest;
    } else {
      assert (prefix + rest)[1..] == prefix[1..] + rest;
      MarksPass(prefix[1..], rest);
    }
  }

  lemma HunkLines(lines: seq<Line>)
    requires lines != [] && "@@" <= lines[0]
    ensures var n := BodyLength(lines[1..]);
            && NoOpening(lines[..1 + n]) && ParseHunks(lines).1 == ParseHunks(lines[1 + n..]).1
  {
    var n := BodyLength(lines[1..]);
    assert lines[0][..2] == "@@" && lines[0][0] == '@';
    forall i | 0 <= i < 1 + n ensures !("--- " <= lines[i]) {
      if i > 0 { assert lines[i] == lines[1..][i - 1]; }
    }
  }

  /** What the hunk parser consumes opens no file. */
  lemma {:induction false} HunksConsume(lines: seq<Line>) returns (used: seq<Line>)
    ensures lines == used + ParseHunks(lines).1 && NoOpening(used)
  {
    hide ParseHunks, BodyLength;
    used := [];
    if lines != [] && "@@" <= lines[0] {
      HunkLines(lines);
      var n := BodyLength(lines[1..]);
      var more := HunksConsume(lines[1 + n..]);
      used := lines[..1 + n] + more;
    } else {
      NoHunkHere(lines);
    }
  }

  lemma {:induction false} ParsedCount(lines: seq<Line>)
    ensures |ParseFiles(lines)| == Marks(lines)
    decreases |lines|
  {
    hide NormalizePath, ParseHunks;
    if lines != [] {
      if !("--- " <= lines[0]) || |lines| < 2 || !("+++ " <= lines[1]) {
        ParsedCount(lines[1..]);
      } else {
        var used := HunksConsume(lines[2..]);
        MarksPass(used, ParseHunks(lines[2..]).1);
        ParsedCount(ParseHunks(lines[2..]).1);
        assert lines[1..][1..] == lines[2..];
        assert lines[1][..4][0] == lines[1][0];
        MarksPass([lines[1]], lines[2..]);
        assert [lines[1]] + lines[2..] == lines[1..];
      }
    }
  }

  /** Marks of two texts, when none spans the seam. */
  lemma {:induction false} MarksAppend(a: seq<Line>, b: seq<Line>)
    requires b == [] || !("+++ " <= b[0])
    ensures Marks(a + b) == Marks(a) + Marks(b)
  {
    if a == [] {
      assert a + b == b;
    } else {
      assert (a + b)[1..] == a[1..] + b;
      MarksAppend(a[1..], b);
    }
  }

  lemma {:induction false} MarksSuffix(a: seq<Line>, b: seq<Line>)
    ensures Marks(b) <= Marks(a + b)
  {
    if a == [] {
      assert a + b == b;
    } else {
      assert (a + b)[1..] == a[1..] + b;
      MarksSuffix(a[1..], b);
    }
  }

  /** Lines without a mark, up to the next file, are skipped. */
  lemma {:induction false} SkipUnmarked(lines: seq<Line>, rest: seq<Line>)
    requires Marks(lines) == 0 && (rest == [] || !("+++ " <= rest[0]))
    ensures ParseFiles(lines + rest) == ParseFiles(rest)
    decreases |lines|
  {
    hide NormalizePath, ParseHunks;
    if lines == [] {
      assert lines + rest == rest;
    } else {
      var all := lines + rest;
      assert all[1..] == lines[1..] + rest;
      SkipUnmarked(lines[1..], rest);
    }
  }

  predicate AfterFile(rest: seq<Line>) { rest == [] || "--- " <= rest[0] }

  lemma AfterFileIsNoNewPath(rest: seq<Line>)
    requires AfterFile(rest)
    ensures rest == [] || (!("+++ " <= rest[0]) && !("@@" <= rest[0]) && IsBoundary(rest[0]))
  {
    if rest != [] { assert rest[0][..4][0] == rest[0][0]; }
  }

  lemma PrintedAfterFile(files: seq<FilePatch>)
    ensures AfterFile(PrintFiles(files))
  {
    if files != [] { assert PrintFiles(files)[0] == "--- " + PrintPath("a/", files[0].oldPath); }
  }

  lemma MarksFirst(l0: Line, l1: Line, rest: seq<Line>)
    requires "--- " <= l0 && "+++ " <= l1
    ensures Marks([l0] + ([l1] + rest)) == 1 + Marks([l1] + rest)
  {
    assert ([l0] + ([l1] + rest))[1..] == [l1] + rest;
  }

  lemma MarksOfFile(f: FilePatch, rest: seq<Line>)
    requires AfterFile(rest)
    ensures Marks(PrintFile(f) + rest) == 1 + Marks(PrintHunks(f.hunks)) + Marks(rest)
  {
    hide Marks, PrintPath;
    AfterFileIsNoNewPath(rest);
    var l0, l1, body := "--- " + PrintPath("a/", f.oldPath), "+++ " + PrintPath("b/", f.newPath), PrintHunks(f.hunks);
    var all := PrintFile(f) + rest;
    assert all == [l0] + ([l1] + (body + rest)) && all[1..] == [l1] + (body + rest);
    assert l1[0] == '+' && NoOpening([l1]);
    MarksFirst(l0, l1, body + rest);
    MarksPass([l1], body + rest);
    MarksAppend(body, rest);
  }

  function PhantomsOf(files: seq<FilePatch>): nat
  {
    if files == [] then 0 else Marks(PrintHunks(files[0].hunks)) + PhantomsOf(files[1..])
  }

  lemma {:induction false} MarksOfFiles(files: seq<FilePatch>)
    ensures Marks(PrintFiles(files)) == |files| + PhantomsOf(files)
  {
    hide Marks, PrintFile, PrintHunks;
    if files == [] {
      NoMarks();
    } else {
      PrintedAfterFile(files[1..]);
      MarksOfFile(files[0], PrintFiles(files[1..]));
      MarksOfFiles(files[1..]);
    }
  }

  lemma NoMarks()
    ensures Marks([]) == 0
  {
  }

  lemma {:induction false} NoPhantomsIff(files: seq<FilePatch>)
    ensures PhantomsOf(files) == 0 <==> forall i :: 0 <= i < |files| ==> Marks(PrintHunks(files[i].hunks)) == 0
  {
    hide Marks, PrintHunks;
    if files != [] {
      NoPhantomsIff(files[1..]);
      assert forall i :: 0 < i < |files| ==> files[i] == files[1..][i - 1];
    }
  }

  // ---------- hunks cut short by a file mark ----------

  /** The hunks the parser sees: up to the first that contains a file mark, and that one up to the mark. */
  function CutHunks(hunks: seq<Hunk>): seq<Hunk>
  {
    if hunks == [] then []
    else
      var h := hunks[0];
      var n := BodyLength(h.body);
      if n == |h.body| then [h] + CutHunks(hunks[1..]) else [Hunk(h.header, h.body[..n])]
  }

  /** The printed lines it does not see. */
  function LeftLines(hunks: seq<Hunk>): seq<Line>
  {
    if hunks == [] then []
    else
      var h := hunks[0];
      var n := BodyLength(h.body);
      if n == |h.body| then LeftLines(hunks[1..]) else h.body[n..] + PrintHunks(hunks[1..])
  }

  /** Headers are headers, and no body line is. */
  predicate HeadersApart(hunks: seq<Hunk>)
  {
    forall i :: 0 <= i < |hunks| ==>
      "@@" <= hunks[i].header && forall j :: 0 <= j < |hunks[i].body| ==> !("@@" <= hunks[i].body[j])
  }

  lemma CutAtMark(h: Hunk, n: nat, rest: seq<Line>)
    requires HeadersApart([h]) && n == BodyLength(h.body) < |h.body|
    ensures ParseHunks([h.header] + (h.body + rest)) == ([Hunk(h.header, h.body[..n])], h.body[n..] + rest)
  {
    hide ParseHunks, BodyLength, IsBoundary;
    var cut, left := Hunk(h.header, h.body[..n]), h.body[n..] + rest;
    assert [h][0] == h && left[0] == h.body[n];
    assert HunkOk(cut);
    assert h.body + rest == cut.body + left;
    ParseHunksCons(cut, left);
    NoHunkHere(left);
    assert [cut] + ParseHunks(left).0 == [cut];
  }

  lemma NoHunkHere(lines: seq<Line>)
    requires lines == [] || !("@@" <= lines[0])
    ensures ParseHunks(lines) == ([], lines)
  {
  }

  lemma {:induction false} ParseCut(hunks: seq<Hunk>, rest: seq<Line>)
    requires HeadersApart(hunks) && AfterFile(rest)
    ensures ParseHunks(PrintHunks(hunks) + rest) == (CutHunks(hunks), LeftLines(hunks) + rest)
    decreases |hunks|
  {
    hide ParseHunks, BodyLength, PrintHunks, IsBoundary;
    AfterFileIsNoNewPath(rest);
    if hunks == [] {
      NothingPrinted(rest);
      NoHunkHere(rest);
      assert LeftLines(hunks) + rest == rest;
    } else {
      var h, n, more := hunks[0], BodyLength(hunks[0].body), PrintHunks(hunks[1..]) + rest;
      PrintedHunksSplit(hunks, rest);
      if n < |h.body| {
        CutAtMark(h, n, more);
        assert h.body[n..] + (PrintHunks(hunks[1..]) + rest) == (h.body[n..] + PrintHunks(hunks[1..])) + rest;
      } else {
        ParseCut(hunks[1..], rest);
        NextIsBoundary(hunks[1..], rest);
        assert HunkOk(h);
        ParseHunksCons(h, more);
      }
    }
  }

  lemma NextIsBoundary(hunks: seq<Hunk>, rest: seq<Line>)
    requires HeadersApart(hunks) && (rest == [] || IsBoundary(rest[0]))
    ensures var more := PrintHunks(hunks) + rest; more == [] || IsBoundary(more[0])
  {
    if hunks != [] {
      PrintedHunksSplit(hunks, rest);
    } else {
      NothingPrinted(rest);
    }
  }

  lemma {:induction false} LeftIsSuffix(hunks: seq<Hunk>) returns (seen: seq<Line>)
    ensures PrintHunks(hunks) == seen + LeftLines(hunks)
  {
    hide BodyLength;
    seen := [];
    if hunks != [] {
      var h, n := hunks[0], BodyLength(hunks[0].body);
      if n == |h.body| {
        var more := LeftIsSuffix(hunks[1..]);
        seen := [h.header] + h.body + more;
      } else {
        seen := [h.header] + h.body[..n];
        assert h.body == h.body[..n] + h.body[n..];
      }
    }
  }

  /** The files as the parser sees them when no mark is forged. */
  function CutFiles(files: seq<FilePatch>): (r: seq<FilePatch>)
    ensures |r| == |files|
    ensures forall i :: 0 <= i < |r| ==>
      r[i] == FilePatch(RereadPath("a/", files[i].oldPath), RereadPath("b/", files[i].newPath),
          CutHunks(files[i].hunks))
  {
    if files == [] then []
    else
      var f := files[0];
      [FilePatch(RereadPath("a/", f.oldPath), RereadPath("b/", f.newPath), CutHunks(f.hunks))] + CutFiles(files[1..])
  }

  lemma ParseOneFile(f: FilePatch, rest: seq<Line>)
    requires HeadersApart(f.hunks) && AfterFile(rest)
    ensures ParseFiles(PrintFile(f) + rest) ==
            [FilePatch(RereadPath("a/", f.oldPath), RereadPath("b/", f.newPath), CutHunks(f.hunks))] +
            ParseFiles(LeftLines(f.hunks) + rest)
  {
    hide NormalizePath, ParseHunks, CutHunks, LeftLines, HeadersApart, PrintPath, PrintHunks;
    var l0, l1 := "--- " + PrintPath("a/", f.oldPath), "+++ " + PrintPath("b/", f.newPath);
    var lines := PrintFile(f) + rest;
    assert lines == [l0, l1] + (PrintHunks(f.hunks) + rest);
    assert lines[2..] == PrintHunks(f.hunks) + rest;
    assert l0[4..] == PrintPath("a/", f.oldPath) && l1[4..] == PrintPath("b/", f.newPath);
    ParseCut(f.hunks, rest);
  }

  lemma {:induction false} ParseCutFiles(files: seq<FilePatch>)
    requires forall i :: 0 <= i < |files| ==> HeadersApart(files[i].hunks) && Marks(PrintHunks(files[i].hunks)) == 0
    ensures ParseFiles(PrintFiles(files)) == CutFiles(files)
  {
    hide ParseFiles, PrintFile, HeadersApart, Marks, RereadPath, CutHunks, LeftLines, PrintHunks;
    if files == [] {
      NothingParsed();
    } else {
      var f, rest := files[0], PrintFiles(files[1..]);
      PrintedAfterFile(files[1..]);
      AfterFileIsNoNewPath(rest);
      ParseOneFile(f, rest);
      var seen := LeftIsSuffix(f.hunks);
      MarksSuffix(seen, LeftLines(f.hunks));
      SkipUnmarked(LeftLines(f.hunks), rest);
      ParseCutFiles(files[1..]);
    }
  }

  lemma NothingParsed()
    ensures ParseFiles([]) == []
  {
  }

  // ---------- rendered hunks, cut ----------

  predicate Dashed(op: Op) { op.Delete? && "-- " <= op.text }

  /** How many operations come before the first dashed deletion. */
  function DashAt(ops: seq<Op>): (j: nat)
    ensures j <= |ops|
  {
    if ops == [] || Dashed(ops[0]) then 0 else 1 + DashAt(ops[1..])
  }

  /** A dashed deletion right before an insertion of `++ ` reads as the start of another file. */
  predicate ForgesMark(ops: seq<Op>)
  {
    exists j :: 0 <= j < |ops| - 1 && Dashed(ops[j]) && ops[j + 1].Insert? && "++ " <= ops[j + 1].text
  }

  predicate NoForgedMark(script: seq<Edit>) { forall i :: 0 <= i < |script| ==> !ForgesMark(script[i].ops) }

  lemma RenderedOpMarks(op: Op)
    ensures "--- " <= RenderOp(op) <==> Dashed(op)
    ensures "+++ " <= RenderOp(op) <==> op.Insert? && "++ " <= op.text
    ensures !("@@" <= RenderOp(op))
  {
    var line := RenderOp(op);
    assert line[1..] == op.text;
    if |line| >= 4 {
      assert line[..4] == [line[0], line[1], line[2], line[3]];
      assert op.text[..3] == [line[1], line[2], line[3]];
    }
    if |line| >= 2 { assert line[..2][0] == line[0]; }
  }

  lemma ForgesCons(ops: seq<Op>)
    requires ops != []
    ensures ForgesMark(ops) <==>
            (|ops| >= 2 && Dashed(ops[0]) && ops[1].Insert? && "++ " <= ops[1].text) || ForgesMark(ops[1..])
  {
    var rest := ops[1..];
    if ForgesMark(rest) {
      var j :| 0 <= j < |rest| - 1 && Dashed(rest[j]) && rest[j + 1].Insert? && "++ " <= rest[j + 1].text;
      assert ops[j + 1] == rest[j] && ops[j + 1 + 1] == rest[j + 1];
    }
    if ForgesMark(ops) {
      var j :| 0 <= j < |ops| - 1 && Dashed(ops[j]) && ops[j + 1].Insert? && "++ " <= ops[j + 1].text;
      if j > 0 { assert rest[j - 1] == ops[j] && rest[j - 1 + 1] == ops[j + 1]; }
    }
  }

  lemma {:induction false} MarksOfOps(ops: seq<Op>)
    ensures Marks(RenderOps(ops)) == 0 <==> !ForgesMark(ops)
  {
    hide Dashed, RenderOp, ForgesMark;
    if ops == [] {
      NothingForged();
    } else {
      ForgesCons(ops);
      MarksOfOps(ops[1..]);
      RenderedOpMarks(ops[0]);
      assert RenderOps(ops)[1..] == RenderOps(ops[1..]);
      if |ops| >= 2 {
        RenderedOpMarks(ops[1]);
        assert RenderOps(ops[1..])[0] == RenderOp(ops[1]);
      }
    }
  }

  lemma NothingForged()
    ensures Marks(RenderOps([])) == 0 && !ForgesMark([])
  {
  }

  lemma {:induction false} MarksOfScript(pos: nat, newPos: nat, script: seq<Edit>)
    ensures Marks(PrintHunks(Render(pos, newPos, script))) == 0 <==> NoForgedMark(script)
    decreases |script|
  {
    hide Marks, ForgesMark, PrintHunks, RenderOps, PrintHeader;
    var hunks := Render(pos, newPos, script);
    if script == [] {
      NothingMarked();
    } else {
      var e := script[0];
      var rest := Render(pos + e.skip + |Before(e.ops)|, newPos + e.skip + |After(e.ops)|, script[1..]);
      MarksOfScript(pos + e.skip + |Before(e.ops)|, newPos + e.skip + |After(e.ops)|, script[1..]);
      assert hunks[0] == RenderEdit(pos, newPos, e) && hunks[1..] == rest;
      RenderedStart(pos + e.skip + |Before(e.ops)|, newPos + e.skip + |After(e.ops)|, script[1..]);
      MarksOfHunk(pos, newPos, e, rest, hunks);
      assert forall i :: 0 < i < |script| ==> script[i] == script[1..][i - 1];
    }
  }

  lemma NothingMarked()
    ensures Marks(PrintHunks([])) == 0
  {
  }

  lemma HeaderStart(a: nat, b: nat, c: nat, d: nat)
    ensures var h := PrintHeader(a, b, c, d); "@@" <= h && !("--- " <= h) && !("+++ " <= h)
  {
    hide Dec;
    var h := PrintHeader(a, b, c, d);
    assert h[..2] == "@@" && h[0] == '@';
  }

  lemma RenderedStart(pos: nat, newPos: nat, script: seq<Edit>)
    ensures var hunks := Render(pos, newPos, script);
            hunks == [] || ("@@" <= hunks[0].header && !("+++ " <= hunks[0].header))
  {
    hide PrintHeader, RenderOps;
    if script != [] {
      var e := script[0];
      HeaderStart(RangeStart(pos + e.skip, |Before(e.ops)|), |Before(e.ops)|,
                  RangeStart(newPos + e.skip, |After(e.ops)|), |After(e.ops)|);
    }
  }

  lemma MarksOfHunk(pos: nat, newPos: nat, e: Edit, rest: seq<Hunk>, hunks: seq<Hunk>)
    requires hunks != [] && hunks[0] == RenderEdit(pos, newPos, e) && hunks[1..] == rest
    requires rest == [] || ("@@" <= rest[0].header && !("+++ " <= rest[0].header))
    ensures Marks(PrintHunks(hunks)) == 0 <==> !ForgesMark(e.ops) && Marks(PrintHunks(rest)) == 0
  {
    hide Marks, ForgesMark, RenderOps, PrintHeader;
    var h := hunks[0];
    HeaderStart(RangeStart(pos + e.skip, |Before(e.ops)|), |Before(e.ops)|,
                RangeStart(newPos + e.skip, |After(e.ops)|), |After(e.ops)|);
    assert PrintHunks(hunks) == [h.header] + (h.body + PrintHunks(rest));
    assert NoOpening([h.header]);
    MarksPass([h.header], h.body + PrintHunks(rest));
    assert rest != [] ==> PrintHunks(rest)[0] == rest[0].header;
    MarksAppend(h.body, PrintHunks(rest));
    MarksOfOps(e.ops);
  }

  lemma {:induction false} RenderedHeadersApart(pos: nat, newPos: nat, script: seq<Edit>)
    ensures HeadersApart(Render(pos, newPos, script))
    decreases |script|
  {
    hide RenderOps, PrintHeader, RenderOp;
    if script != [] {
      var e := script[0];
      RenderedHeadersApart(pos + e.skip + |Before(e.ops)|, newPos + e.skip + |After(e.ops)|, script[1..]);
      HeaderStart(RangeStart(pos + e.skip, |Before(e.ops)|), |Before(e.ops)|,
                  RangeStart(newPos + e.skip, |After(e.ops)|), |After(e.ops)|);
      forall j | 0 <= j < |e.ops| ensures !("@@" <= RenderOps(e.ops)[j]) {
        RenderedOpAt(e.ops, j);
        RenderedOpMarks(e.ops[j]);
      }
    }
  }

  // ---------- where cut hunks land ----------

  lemma {:induction false} SplitOps(ops: seq<Op>, j: nat)
    requires j <= |ops|
    ensures Before(ops) == Before(ops[..j]) + Before(ops[j..])
  {
    if j == 0 {
      assert ops[..0] == [] && ops[0..] == ops;
    } else {
      SplitOps(ops[1..], j - 1);
      assert ops[..j][1..] == ops[1..][..j - 1] && ops[j..] == ops[1..][j - 1..];
    }
  }

  lemma RewriteHead(was: seq<Line>, op: Op, rest: seq<Op>)
    requires |was| == |Before([op] + rest)|
    ensures |Before([op] + rest)| == |Before(rest)| + if op.Insert? then 0 else 1
    ensures var head, used := if op.Insert? then [op.text] else if op.Keep? then [was[0]]
        else [], if op.Insert? then 0 else 1;
            Rewrite(was, [op] + rest) == head + Rewrite(was[used..], rest)
  {
    assert ([op] + rest)[1..] == rest;
  }

  lemma JoinThree(a: seq<Line>, b: seq<Line>, c: seq<Line>)
    ensures a + (b + c) == (a + b) + c
  {
  }

  lemma {:induction false} SplitRewrite(was: seq<Line>, first: seq<Op>, second: seq<Op>)
    requires |was| == |Before(first + second)|
    ensures var k := |Before(first)|;
            && k <= |was| && |was| - k == |Before(second)|
            && Rewrite(was, first + second) == Rewrite(was[..k], first) + Rewrite(was[k..], second)
    decreases |first|
  {
    hide Rewrite, Before;
    if first == [] {
      assert first + second == second && was[0..] == was;
      NothingToRewrite(was[..0]);
    } else {
      var op, more := first[0], first[1..];
      var used, k := if op.Insert? then 0 else 1, |Before(more)|;
      assert first == [op] + more && first + second == [op] + (more + second);
      RewriteHead(was, op, more + second);
      SplitRewrite(was[used..], more, second);
      HeadLength(op, more);
      RewriteHead(was[..used + k], op, more);
      assert was[..used + k][used..] == was[used..][..k] && was[used..][k..] == was[used + k..];
      var head := if op.Insert? then [op.text] else if op.Keep? then [was[0]] else [];
      JoinThree(head, Rewrite(was[used..][..k], more), Rewrite(was[used + k..], second));
    }
  }

  lemma HeadLength(op: Op, rest: seq<Op>)
    ensures |Before([op] + rest)| == |Before(rest)| + if op.Insert? then 0 else 1
  {
    assert ([op] + rest)[1..] == rest;
  }

  lemma NothingToRewrite(was: seq<Line>)
    requires was == []
    ensures Before([]) == [] && Rewrite(was, []) == []
  {
  }

  lemma {:induction false} RenderedPrefix(ops: seq<Op>, j: nat)
    requires j <= |ops|
    ensures RenderOps(ops)[..j] == RenderOps(ops[..j])
  {
    if j > 0 {
      RenderedPrefix(ops[1..], j - 1);
      assert ops[..j][1..] == ops[1..][..j - 1];
    }
  }

  lemma {:induction false} CutLength(ops: seq<Op>)
    ensures BodyLength(RenderOps(ops)) == DashAt(ops)
    ensures DashAt(ops) < |ops| ==> Dashed(ops[DashAt(ops)])
  {
    hide Dashed, RenderOp;
    if ops != [] {
      RenderedOpMarks(ops[0]);
      CutLength(ops[1..]);
      assert RenderOps(ops)[1..] == RenderOps(ops[1..]);
      assert RenderOps(ops)[0] == RenderOp(ops[0]);
    }
  }

  lemma {:induction false} DashTouches(ops: seq<Op>)
    requires DashAt(ops) < |ops|
    ensures Before(ops) != []
  {
    if !Dashed(ops[0]) { DashTouches(ops[1..]); }
  }

  lemma BlockSplit(src: seq<Line>, at: nat, a: seq<Line>, b: seq<Line>)
    requires BlockAt(src, at, a + b)
    ensures BlockAt(src, at, a) && BlockAt(src, at + |a|, b)
  {
    hide SameLine;
    forall k | 0 <= k < |a| ensures SameLine(src[at + k], a[k]) { assert (a + b)[k] == a[k]; }
    forall k | 0 <= k < |b| ensures SameLine(src[at + |a| + k], b[k]) { assert (a + b)[|a| + k] == b[k]; }
  }

  /** A hunk that matches at its nominal place is applied there. */
  lemma HunkAtNominal(src: seq<Line>, cur: nat, header: string, ops: seq<Op>, at: nat)
    requires cur <= at && BlockAt(src, at, Before(ops))
    requires ParseHeader(header).Some? && ParseHeader(header).value.oldStart == at + 1
    ensures var n := |Before(ops)|;
            && at + n <= |src|
            && ApplyHunk(src, cur, Hunk(header, RenderOps(ops))) ==
               Ok((src[cur..at] + Rewrite(src[at..at + n], ops), at + n))
  {
    hide SameLine, ParseHeader, ApplyBody, MatchesAt, OldBlock, NewBlock, RelaxedStart, FirstMatch, WellTagged;
    hide Rewrite, RenderOps;
    var n, body := |Before(ops)|, RenderOps(ops);
    BlockBound(src, at, Before(ops));
    RenderedBody(ops);
    MatchesAtIff(src, at, body);
    assert MatchesAt(src, at, body);
    ApplyBodyIff(src, at, body);
    RenderedNewBlock(src[at..at + n], ops);
  }

  /** What the engine makes of the hunks the parser sees. */
  ghost function LandedCut(src: seq<Line>, cur: nat, pos: nat, script: seq<Edit>): seq<Line>
    requires cur <= pos && Fits(src, pos, script)
    decreases |script|
  {
    if script == [] then src[cur..]
    else
      var e, j := script[0], DashAt(script[0].ops);
      var at, n, goal := Place(cur, pos, e), |Before(e.ops)|, pos + e.skip;
      if j == |e.ops| then
        src[cur..at] + Rewrite(src[at..at + n], e.ops) + LandedCut(src, at + n, goal + n, script[1..])
      else
        SplitOps(e.ops, j);
        var k := |Before(e.ops[..j])|;
        src[cur..goal] + Rewrite(src[goal..goal + k], e.ops[..j]) + src[goal + k..]
  }

  /** The insertions that land early are harmless up to the first dashed deletion, and from there on the
      script changes nothing. */
  ghost predicate HarmlessCut(src: seq<Line>, cur: nat, pos: nat, script: seq<Edit>)
    requires cur <= pos && Fits(src, pos, script)
    decreases |script|
  {
    script == [] ||
    (var e, j := script[0], DashAt(script[0].ops);
     var at, n, goal := Place(cur, pos, e), |Before(e.ops)|, pos + e.skip;
     if j == |e.ops| then
       && (at < goal ==> AllEqual(After(e.ops), src[goal - 1]))
       && HarmlessCut(src, at + n, goal + n, script[1..])
     else
       RestChangesNothing(src, goal + |Before(e.ops[..j])|, [Edit(0, e.ops[j..])] + script[1..]))
  }

  ghost predicate RestChangesNothing(src: seq<Line>, pos: nat, script: seq<Edit>)
  {
    Fits(src, pos, script) && Same(Target(src, pos, script), src[pos..])
  }

  lemma CutFits(src: seq<Line>, pos: nat, script: seq<Edit>, j: nat)
    requires Fits(src, pos, script) && script != [] && j <= |script[0].ops|
    ensures var e, goal := script[0], pos + script[0].skip;
            var k, n := |Before(e.ops[..j])|, |Before(e.ops)|;
            && k <= n && goal + n <= |src| && n - k == |Before(e.ops[j..])|
            && BlockAt(src, goal, Before(e.ops[..j])) && Fits(src, goal + n, script[1..])
            && Fits(src, goal + k, [Edit(0, e.ops[j..])] + script[1..])
            && Target(src, goal + k, [Edit(0, e.ops[j..])] + script[1..]) ==
               Rewrite(src[goal + k..goal + n], e.ops[j..]) + Target(src, goal + n, script[1..])
  {
    hide BlockAt, Rewrite, Before;
    var e, goal := script[0], pos + script[0].skip;
    var k, n := |Before(e.ops[..j])|, |Before(e.ops)|;
    SplitOps(e.ops, j);
    BlockSplit(src, goal, Before(e.ops[..j]), Before(e.ops[j..]));
    BlockBound(src, goal, Before(e.ops));
    var rest := [Edit(0, e.ops[j..])] + script[1..];
    assert rest[1..] == script[1..];
    TargetUnfolds(src, goal + k, rest);
    assert src[goal + k..goal + k] == [];
  }

  lemma CutUnfolds(src: seq<Line>, cur: nat, pos: nat, script: seq<Edit>)
    requires cur <= pos && Fits(src, pos, script) && script != [] && DashAt(script[0].ops) == |script[0].ops|
    ensures var e := script[0];
            var at, n, goal := Place(cur, pos, e), |Before(e.ops)|, pos + e.skip;
            && cur <= at <= goal <= at + 1 && goal + n <= |src| && Fits(src, goal + n, script[1..])
            && LandedCut(src, cur, pos, script) ==
               src[cur..at] + Rewrite(src[at..at + n], e.ops) + LandedCut(src, at + n, goal + n, script[1..])
            && (HarmlessCut(src, cur, pos, script) <==>
                (at < goal ==> AllEqual(After(e.ops), src[goal - 1])) &&
                    HarmlessCut(src, at + n, goal + n, script[1..]))
  {
    hide BlockAt, Rewrite, AllEqual, Before, After, Place, RestChangesNothing;
    PlaceBounds(src, cur, pos, script);
  }

  lemma CutEnds(src: seq<Line>, cur: nat, pos: nat, script: seq<Edit>)
    requires cur <= pos && Fits(src, pos, script) && script != [] && DashAt(script[0].ops) < |script[0].ops|
    ensures var e, j := script[0], DashAt(script[0].ops);
            var goal, k := pos + e.skip, |Before(e.ops[..j])|;
            && goal + k <= |src|
            && LandedCut(src, cur, pos, script) ==
               src[cur..goal] + Rewrite(src[goal..goal + k], e.ops[..j]) + src[goal + k..]
            && (HarmlessCut(src, cur, pos, script) <==>
                RestChangesNothing(src, goal + k, [Edit(0, e.ops[j..])] + script[1..]))
  {
    hide BlockAt, Rewrite, AllEqual, Before, After, Place, RestChangesNothing;
    CutFits(src, pos, script, DashAt(script[0].ops));
  }

  lemma CutHunksUnfold(pos: nat, newPos: nat, script: seq<Edit>)
    requires script != []
    ensures var e, j := script[0], DashAt(script[0].ops);
            var h := RenderEdit(pos, newPos, e);
            var rest := Render(pos + e.skip + |Before(e.ops)|, newPos + e.skip + |After(e.ops)|, script[1..]);
            CutHunks(Render(pos, newPos, script)) ==
            if j == |e.ops| then [h] + CutHunks(rest) else [Hunk(h.header, RenderOps(e.ops[..j]))]
  {
    hide Before, After, RenderOps, PrintHeader, BodyLength, DashAt;
    CutLength(script[0].ops);
    RenderedPrefix(script[0].ops, DashAt(script[0].ops));
  }

  lemma OneHunk(src: seq<Line>, cur: nat, hunk: Hunk, lines: seq<Line>, next: nat)
    requires cur <= |src| && ApplyHunk(src, cur, hunk) == Ok((lines, next))
    ensures next <= |src| && ApplyFrom(src, cur, [hunk]) == Ok(lines + src[next..])
  {
    hide ApplyHunk;
    assert [hunk][1..] == [];
    assert ApplyFrom(src, next, []) == Ok(src[next..]);
  }

  lemma NextHunk(src: seq<Line>, cur: nat, hunk: Hunk, rest: seq<Hunk>, lines: seq<Line>, next: nat, out: seq<Line>)
    requires cur <= |src| && next <= |src|
    requires ApplyHunk(src, cur, hunk) == Ok((lines, next)) && ApplyFrom(src, next, rest) == Ok(out)
    ensures ApplyFrom(src, cur, [hunk] + rest) == Ok(lines + out)
  {
    hide ApplyHunk;
    assert ([hunk] + rest)[1..] == rest;
  }

  /** Applying the hunks the parser sees gives exactly `LandedCut`. */
  lemma {:induction false} CutLands(src: seq<Line>, cur: nat, pos: nat, newPos: nat, script: seq<Edit>)
    requires cur <= pos && Fits(src, pos, script)
    ensures cur <= |src|
    ensures ApplyFrom(src, cur, CutHunks(Render(pos, newPos, script))) == Ok(LandedCut(src, cur, pos, script))
    decreases |script|
  {
    hide BlockAt, ApplyHunk, ApplyFrom, RenderEdit, Rewrite, CutHunks, Before, After, DashAt, Place, LandedCut, Fits;
    if script == [] {
      NothingLands(src, cur, pos, newPos, script);
    } else {
      var e, j := script[0], DashAt(script[0].ops);
      var n, goal := |Before(e.ops)|, pos + e.skip;
      CutHunksUnfold(pos, newPos, script);
      FirstBlockFits(src, pos, script);
      if j == |e.ops| {
        var at := Place(cur, pos, e);
        CutUnfolds(src, cur, pos, script);
        RenderedHunkLands(src, cur, pos, newPos, e);
        CutLands(src, at + n, goal + n, newPos + e.skip + |After(e.ops)|, script[1..]);
        NextHunk(src, cur, RenderEdit(pos, newPos, e),
                 CutHunks(Render(goal + n, newPos + e.skip + |After(e.ops)|, script[1..])),
                 src[cur..at] + Rewrite(src[at..at + n], e.ops), at + n,
                 LandedCut(src, at + n, goal + n, script[1..]));
      } else {
        CutEnds(src, cur, pos, script);
        CutHunkLands(src, cur, pos, newPos, script);
      }
    }
  }

  lemma FirstBlockFits(src: seq<Line>, pos: nat, script: seq<Edit>)
    requires Fits(src, pos, script) && script != []
    ensures BlockAt(src, pos + script[0].skip, Before(script[0].ops)) && pos <= |src|
  {
    hide BlockAt;
    BlockBound(src, pos + script[0].skip, Before(script[0].ops));
  }

  lemma NothingLands(src: seq<Line>, cur: nat, pos: nat, newPos: nat, script: seq<Edit>)
    requires cur <= pos && Fits(src, pos, script) && script == []
    ensures cur <= |src|
    ensures ApplyFrom(src, cur, CutHunks(Render(pos, newPos, script))) == Ok(LandedCut(src, cur, pos, script))
  {
  }

  lemma CutHunkLands(src: seq<Line>, cur: nat, pos: nat, newPos: nat, script: seq<Edit>)
    requires cur <= pos && Fits(src, pos, script) && script != [] && DashAt(script[0].ops) < |script[0].ops|
    ensures var e, j := script[0], DashAt(script[0].ops);
            var goal, k := pos + e.skip, |Before(e.ops[..j])|;
            && cur <= |src| && goal + k <= |src|
            && ApplyFrom(src, cur, [Hunk(RenderEdit(pos, newPos, e).header, RenderOps(e.ops[..j]))]) ==
               Ok(src[cur..goal] + Rewrite(src[goal..goal + k], e.ops[..j]) + src[goal + k..])
  {
    hide BlockAt, ApplyHunk, ApplyFrom, Rewrite, Before, After, DashAt, Fits, ParseHeader, PrintHeader, RenderOps;
    var e, j := script[0], DashAt(script[0].ops);
    var goal, n, k := pos + e.skip, |Before(e.ops)|, |Before(e.ops[..j])|;
    DashTouches(e.ops);
    CutFits(src, pos, script, j);
    var header := RenderEdit(pos, newPos, e).header;
    ParsePrintedHeader(RangeStart(goal, n), n, RangeStart(newPos + e.skip, |After(e.ops)|), |After(e.ops)|);
    HunkAtNominal(src, cur, header, e.ops[..j], goal);
    OneHunk(src, cur, Hunk(header, RenderOps(e.ops[..j])),
            src[cur..goal] + Rewrite(src[goal..goal + k], e.ops[..j]), goal + k);
  }

  // ---------- exactly when the target is reached ----------

  lemma SameLengths(a: seq<Line>, b: seq<Line>)
    ensures Same(a, b) ==> |a| == |b|
  {
  }

  /** One edit, whatever follows it. */
  lemma StepIff(src: seq<Line>, cur: nat, at: nat, goal: nat, ops: seq<Op>, landed: seq<Line>, target: seq<Line>)
    requires cur <= at <= goal <= at + 1 && goal + |Before(ops)| <= |src|
    requires at == goal || Before(ops) == []
    ensures var n := |Before(ops)|;
            Same(src[cur..at] + Rewrite(src[at..at + n], ops) + landed,
                 src[cur..goal] + (Rewrite(src[goal..goal + n], ops) + target)) <==>
            (at < goal ==> AllEqual(After(ops), src[goal - 1])) && Same(landed, src[at + n..goal + n] + target)
  {
    hide Rewrite, AllEqual, Same, Before, After;
    var n := |Before(ops)|;
    assert src[at..at + n] == src[goal..goal + n];
    if |landed| == goal - at + |target| {
      LandedStepIff(src, cur, at, goal, ops, landed, target);
    } else {
      var written := Rewrite(src[at..at + n], ops);
      SameLengths(src[cur..at] + written + landed, src[cur..goal] + (written + target));
      SameLengths(landed, src[at + n..goal + n] + target);
    }
  }

  /** A cut hunk reaches the target iff what was cut off, and the rest of the script, change nothing. */
  lemma CutStepIff(src: seq<Line>, cur: nat, goal: nat, first: seq<Op>, second: seq<Op>, rest: seq<Line>)
    requires cur <= goal && goal + |Before(first + second)| <= |src|
    ensures var k, n := |Before(first)|, |Before(first + second)|;
            && k <= n && n - k == |Before(second)|
            && (Same(src[cur..goal] + Rewrite(src[goal..goal + k], first) + src[goal + k..],
                     src[cur..goal] + (Rewrite(src[goal..goal + n], first + second) + rest)) <==>
                Same(Rewrite(src[goal + k..goal + n], second) + rest, src[goal + k..]))
  {
    hide Rewrite, Before;
    var n := |Before(first + second)|;
    var was := src[goal..goal + n];
    SplitRewrite(was, first, second);
    var k := |Before(first)|;
    assert was[..k] == src[goal..goal + k] && was[k..] == src[goal + k..goal + n];
    var written, tail := Rewrite(was[..k], first), Rewrite(was[k..], second) + rest;
    JoinThree(written, Rewrite(was[k..], second), rest);
    JoinThree(src[cur..goal], written, src[goal + k..]);
    CancelPrefix(src[cur..goal], written + src[goal + k..], written + tail);
    CancelPrefix(written, src[goal + k..], tail);
  }

  lemma {:induction false} CutIff(src: seq<Line>, cur: nat, pos: nat, script: seq<Edit>)
    requires cur <= pos <= cur + 1 && Fits(src, pos, script)
    ensures pos <= |src|
    ensures Same(LandedCut(src, cur, pos, script), src[cur..pos] + Target(src, pos, script)) <==>
            HarmlessCut(src, cur, pos, script)
    decreases |script|
  {
    hide Same, Rewrite, AllEqual, Before, After, Place, LandedCut, Target, HarmlessCut, Fits, DashAt, BlockAt;
    if script == [] {
      NothingCut(src, cur, pos, script);
    } else {
      var e, j := script[0], DashAt(script[0].ops);
      var n, goal := |Before(e.ops)|, pos + e.skip;
      FirstBlockFits(src, pos, script);
      TargetWithGap(src, cur, pos, script);
      if j == |e.ops| {
        var at := Place(cur, pos, e);
        PlaceBounds(src, cur, pos, script);
        CutUnfolds(src, cur, pos, script);
        CutIff(src, at + n, goal + n, script[1..]);
        StepIff(src, cur, at, goal, e.ops, LandedCut(src, at + n, goal + n, script[1..]),
                Target(src, goal + n, script[1..]));
      } else {
        CutEnds(src, cur, pos, script);
        CutFits(src, pos, script, j);
        assert e.ops[..j] + e.ops[j..] == e.ops;
        CutStepIff(src, cur, goal, e.ops[..j], e.ops[j..], Target(src, goal + n, script[1..]));
      }
    }
  }

  lemma NothingCut(src: seq<Line>, cur: nat, pos: nat, script: seq<Edit>)
    requires cur <= pos && Fits(src, pos, script) && script == []
    ensures pos <= |src| && HarmlessCut(src, cur, pos, script)
    ensures Same(LandedCut(src, cur, pos, script), src[cur..pos] + Target(src, pos, script))
  {
    assert src[cur..] == src[cur..pos] + src[pos..];
  }

  lemma ApplyCutIff(src: seq<Line>, script: seq<Edit>)
    requires Fits(src, 0, script)
    ensures Apply(src, CutHunks(Render(0, 0, script))) == Ok(Target(src, 0, script)) <==> HarmlessCut(src, 0, 0, script)
  {
    hide CutHunks, Render, LandedCut, Target, HarmlessCut, Fits;
    CutLands(src, 0, 0, 0, script);
    CutIff(src, 0, 0, script);
    assert src[0..0] + Target(src, 0, script) == Target(src, 0, script);
  }

  // ---------- the main result ----------

  /** The patch text of several changes, parsed and applied file by file, names the same files and takes
      every source to its target iff each path survives, no removed line and the added line after it
      forge a file mark, every insertion before the first removed line that opens a file is harmless
      where it lands, and from that line on the script changes nothing. */
  lemma PatchTextRoundTripIff(changes: seq<Change>)
    requires forall i :: 0 <= i < |changes| ==> Fits(changes[i].src, 0, changes[i].script)
    ensures var parsed := ParseFiles(PrintFiles(PatchFor(changes)));
            (|parsed| == |changes| &&
             forall i :: 0 <= i < |changes| ==>
               && parsed[i].oldPath == changes[i].oldPath && parsed[i].newPath == changes[i].newPath
               && Apply(changes[i].src, parsed[i].hunks) == Ok(Target(changes[i].src, 0, changes[i].script)))
            <==>
            (forall i :: 0 <= i < |changes| ==>
               && OldPathOk(changes[i].oldPath) && NewPathOk(changes[i].newPath)
               && NoForgedMark(changes[i].script)
               && HarmlessCut(changes[i].src, 0, 0, changes[i].script))
  {
    hide ParseFiles, PrintFiles, OldPathOk, NewPathOk, Render, Apply, Target, Fits, HarmlessCut, NoForgedMark;
    hide Marks, PhantomsOf, PrintHunks, CutHunks, HeadersApart, RereadPath;
    var files := PatchFor(changes);
    var parsed := ParseFiles(PrintFiles(files));
    ParsedCount(PrintFiles(files));
    MarksOfFiles(files);
    NoPhantomsIff(files);
    forall i | 0 <= i < |changes|
      ensures Marks(PrintHunks(files[i].hunks)) == 0 <==> NoForgedMark(changes[i].script)
      ensures HeadersApart(files[i].hunks)
      ensures Apply(changes[i].src, CutHunks(files[i].hunks)) == Ok(Target(changes[i].src, 0, changes[i].script)) <==>
              HarmlessCut(changes[i].src, 0, 0, changes[i].script)
      ensures RereadPath("a/", changes[i].oldPath) == changes[i].oldPath <==> OldPathOk(changes[i].oldPath)
      ensures RereadPath("b/", changes[i].newPath) == changes[i].newPath <==> NewPathOk(changes[i].newPath)
    {
      MarksOfScript(0, 0, changes[i].script);
      RenderedHeadersApart(0, 0, changes[i].script);
      ApplyCutIff(changes[i].src, changes[i].script);
      OldPathSurvivesIff(changes[i].oldPath);
      NewPathSurvivesIff(changes[i].newPath);
    }
    if PhantomsOf(files) == 0 { ParseCutFiles(files); }
  }

  /** Without removed text that begins with two dashes and a blank, only paths and early insertions matter. */
  lemma {:induction false} UndashedHarmless(src: seq<Line>, cur: nat, pos: nat, script: seq<Edit>)
    requires cur <= pos && Fits(src, pos, script) && NoDashedDeletion(script)
    ensures NoForgedMark(script)
    ensures HarmlessCut(src, cur, pos, script) <==> Harmless(src, cur, pos, script)
    decreases |script|
  {
    hide BlockAt, AllEqual, Before, After, Rewrite;
    if script != [] {
      NoDashedCons(script);
      UndashedNeverCut(script[0].ops);
      UndashedHarmless(src, Place(cur, pos, script[0]) + |Before(script[0].ops)|,
                       pos + script[0].skip + |Before(script[0].ops)|, script[1..]);
      assert forall i :: 0 < i < |script| ==> script[i] == script[1..][i - 1];
    }
  }

  lemma {:induction false} UndashedNeverCut(ops: seq<Op>)
    requires UndashedOps(ops)
    ensures DashAt(ops) == |ops| && !ForgesMark(ops)
  {
    if ops != [] {
      assert forall i :: 0 <= i < |ops[1..]| ==> ops[1..][i] == ops[i + 1];
      UndashedNeverCut(ops[1..]);
    }
  }

  /** A removed line that reads as a file mark may be lost without harm, when it is put back. */
  lemma DashedButHarmless(path: string)
    requires OldPathOk(Some(path)) && NewPathOk(Some(path))
    ensures var src, script := ["-- x"], [Edit(0, [Delete("-- x"), Insert("-- x")])];
            var parsed := ParseFiles(PrintFiles(PatchFor([Change(Some(path), Some(path), src, script)])));
            && Fits(src, 0, script) && !NoDashedDeletion(script)
            && |parsed| == 1 && Apply(src, parsed[0].hunks) == Ok(Target(src, 0, script))
  {
    hide ParseFiles, PrintFiles, OldPathOk, NewPathOk, Apply, Render;
    var src, ops := ["-- x"], [Delete("-- x"), Insert("-- x")];
    var script := [Edit(0, ops)];
    ExampleTarget(src, ops);
    assert script[0].ops[0].Delete? && "-- " <= script[0].ops[0].text;
    var changes := [Change(Some(path), Some(path), src, script)];
    PatchTextRoundTripIff(changes);
  }

  lemma ExampleTarget(src: seq<Line>, ops: seq<Op>)
    requires src == ["-- x"] && ops == [Delete("-- x"), Insert("-- x")]
    ensures Fits(src, 0, [Edit(0, ops)]) && Target(src, 0, [Edit(0, ops)]) == src
    ensures HarmlessCut(src, 0, 0, [Edit(0, ops)]) && NoForgedMark([Edit(0, ops)])
  {
    assert ops[1].text[0] == '-' && !("++ " <= ops[1].text);
    assert ops[1..][1..] == [] && Before(ops[1..][1..]) == [] && Before(ops[1..]) == [];
    assert Before(ops) == [ops[0].text] + Before(ops[1..]) == ["-- x"];
    assert SameLine("-- x", "-- x");
    var script := [Edit(0, ops)];
    assert script[1..] == [] && src[0..0] == [] && src[1..] == [];
    assert Rewrite(src[0..1][1..], ops[1..]) == ["-- x"] + Rewrite(src[0..1][1..], ops[1..][1..]) == ["-- x"];
    assert Rewrite(src[0..1], ops) == ["-- x"];
    assert Target(src, 1, script[1..]) == [];
    assert DashAt(ops) == 0 && ops[..0] == [] && ops[0..] == ops && Before(ops[..0]) == [];
    assert [Edit(0, ops[0..])] + script[1..] == script && src[0..] == src;
  }
}
