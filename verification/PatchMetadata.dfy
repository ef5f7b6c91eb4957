/** Change counts read off a patch. */
module PatchMetadata {
  import opened Text
  import opened PatchApply
  import opened PatchTheorems
  import opened PatchParse
  import opened PatchRoundTrip

  datatype Counts = Counts(added: nat, removed: nat)

  type FileCounts = map<string, Counts>

  /** `s.replace(pat, "")` */
  function ReplaceAll(s: string, pat: string): string
    requires pat != ""
  {
    if s == "" then "" else if pat <= s then ReplaceAll(s[|pat|..], pat) else [s[0]] + ReplaceAll(s[1..], pat)
  }

  function MetadataPath(line: Line): string { Strip(ReplaceAll(ReplaceAll(line, "+++ "), "b/")) }

  function CountLine(line: Line, c: Counts): Counts
  {
    if "+" <= line && !("+++" <= line) then c.(added := c.added + 1)
    else if "-" <= line && !("---" <= line) then c.(removed := c.removed + 1)
    else c
  }

  /** Counts after the remaining lines, `current` being the file they belong to. */
  function CountFrom(lines: seq<Line>, current: string, files: FileCounts): (r: FileCounts)
    requires current != "" ==> current in files
    ensures files.Keys <= r.Keys
    decreases |lines|
  {
    if lines == [] then files
    else if "+++ " <= lines[0] then
      var path := MetadataPath(lines[0]);
      CountFrom(lines[1..], path, if path in files then files else files[path := Counts(0, 0)])
    else if current == "" then CountFrom(lines[1..], current, files)
    else CountFrom(lines[1..], current, files[current := CountLine(lines[0], files[current])])
  }

  /** The paths in the order in which they first appear, after those in `order`. */
  function PathOrder(lines: seq<Line>, order: seq<string>): seq<string>
    decreases |lines|
  {
    if lines == [] then order
    else
      var path := MetadataPath(lines[0]);
      PathOrder(lines[1..], if "+++ " <= lines[0] && path !in order then order + [path] else order)
  }

  lemma CountFromAt(lines: seq<Line>, i: nat, current: string, files: FileCounts)
    requires i < |lines| && (current != "" ==> current in files)
    ensures var line := lines[i];
            CountFrom(lines[i..], current, files) ==
            if "+++ " <= line then
              var path := MetadataPath(line);
              CountFrom(lines[i + 1..], path, if path in files then files else files[path := Counts(0, 0)])
            else if current == "" then CountFrom(lines[i + 1..], current, files)
            else CountFrom(lines[i + 1..], current, files[current := CountLine(line, files[current])])
  {
    assert lines[i..][1..] == lines[i + 1..];
  }

  lemma PathOrderAt(lines: seq<Line>, i: nat, order: seq<string>)
    requires i < |lines|
    ensures var path := MetadataPath(lines[i]);
            PathOrder(lines[i..], order) ==
            PathOrder(lines[i + 1..], if "+++ " <= lines[i] && path !in order then order + [path] else order)
  {
    assert lines[i..][1..] == lines[i + 1..];
  }

  lemma NoLinesLeft(current: string, files: FileCounts, order: seq<string>)
    requires current != "" ==> current in files
    ensures CountFrom([], current, files) == files && PathOrder([], order) == order
  {
  }

  /** The report lists every path once, in order of first appearance, with its counts. */
  method ExtractDiffMetadata(lines: seq<Line>) returns (report: seq<(string, Counts)>)
    ensures |report| == |PathOrder(lines, [])|
    ensures forall i :: 0 <= i < |report| ==>
      && report[i].0 == PathOrder(lines, [])[i] && report[i].0 in CountFrom(lines, "", map[])
      && report[i].1 == CountFrom(lines, "", map[])[report[i].0]
    ensures forall path :: path in CountFrom(lines, "", map[]) ==> path in PathOrder(lines, [])
    ensures forall i, j :: 0 <= i < j < |report| ==> report[i].0 != report[j].0
  {
    hide MetadataPath, CountFrom, PathOrder;
    var files: FileCounts, order: seq<string> := map[], [];
    var currentFile := "";
    assert lines[0..] == lines;
    for i := 0 to |lines|
      invariant currentFile != "" ==> currentFile in files
      invariant forall path :: path in files <==> path in order
      invariant forall i, j :: 0 <= i < j < |order| ==> order[i] != order[j]
      invariant CountFrom(lines, "", map[]) == CountFrom(lines[i..], currentFile, files)
      invariant PathOrder(lines, []) == PathOrder(lines[i..], order)
    {
      var line := lines[i];
      CountFromAt(lines, i, currentFile, files);
      PathOrderAt(lines, i, order);
      if "+++ " <= line {
        currentFile := MetadataPath(line);
        if currentFile !in files {
          files := files[currentFile := Counts(0, 0)];
          order := order + [currentFile];
        }
        continue;
      }
      if currentFile == "" { continue; }
      var c := files[currentFile];
      if "+" <= line && !("+++" <= line) {
        files := files[currentFile := Counts(c.added + 1, c.removed)];
      } else if "-" <= line && !("---" <= line) {
        files := files[currentFile := Counts(c.added, c.removed + 1)];
      } else {
        assert files[currentFile := c] == files;
      }
    }
    NoLinesLeft(currentFile, files, order);
    assert lines[|lines|..] == [];
    report := seq(|order|, i requires 0 <= i < |order| => (order[i], files[order[i]]));
  }

  // ---------- counting whole bodies ----------

  /** Counts over lines none of which switches the file. */
  function CountLines(lines: seq<Line>, c: Counts): (r: Counts)
    decreases |lines|
  {
    if lines == [] then c else CountLines(lines[1..], CountLine(lines[0], c))
  }

  /** No line starts a new file section. */
  predicate NoFileMark(lines: seq<Line>) { forall i :: 0 <= i < |lines| ==> !("+++ " <= lines[i]) }

  lemma {:induction false} CountFromStays(lines: seq<Line>, current: string, files: FileCounts)
    requires current != "" && current in files && NoFileMark(lines)
    ensures CountFrom(lines, current, files) == files[current := CountLines(lines, files[current])]
    decreases |lines|
  {
    hide CountLine;
    if lines == [] {
      assert files[current := files[current]] == files;
    } else {
      CountFromStays(lines[1..], current, files[current := CountLine(lines[0], files[current])]);
    }
  }

  /** Counts never exceed what the lines could add, whatever file they are charged to. */
  lemma {:induction false} CountFromBound(lines: seq<Line>, current: string, files: FileCounts, path: string,
      most: Counts)
    requires current != "" ==> current in files
    requires path in files
    requires files[path].added <= most.added && files[path].removed <= most.removed
    ensures CountFrom(lines, current, files)[path].added <= CountLines(lines, most).added
    ensures CountFrom(lines, current, files)[path].removed <= CountLines(lines, most).removed
    decreases |lines|
  {
    hide MetadataPath;
    if lines != [] {
      var next := CountLine(lines[0], most);
      if "+++ " <= lines[0] {
        var p := MetadataPath(lines[0]);
        CountFromBound(lines[1..], p, if p in files then files else files[p := Counts(0, 0)], path, next);
      } else if current == "" {
        CountFromBound(lines[1..], current, files, path, next);
      } else {
        CountFromBound(lines[1..], current, files[current := CountLine(lines[0], files[current])], path, next);
      }
    }
  }

  /** Added text beginning with `++` or removed text beginning with `--` looks like a file mark. */
  predicate Lookalike(raw: Line) { "+++" <= raw || "---" <= raw }

  predicate NoLookalike(lines: seq<Line>) { forall i :: 0 <= i < |lines| ==> !Lookalike(lines[i]) }

  lemma TagIs(raw: Line, tag: char)
    requires raw != ""
    ensures [tag] <= raw <==> raw[0] == tag
  {
    assert raw[..1] == [raw[0]];
  }

  /** Counting a body against its true additions and removals. */
  lemma {:induction false} CountBody(body: seq<Line>, c: Counts)
    requires WellTagged(body)
    ensures var r := CountLines(body, c);
            && r.added <= c.added + Added(body) && r.removed <= c.removed + Removed(body)
            && (r == Counts(c.added + Added(body), c.removed + Removed(body)) <==> NoLookalike(body))
    decreases |body|
  {
    if body != [] {
      var raw := body[0];
      WellTaggedCons(body);
      NoLookalikeCons(raw, body[1..]);
      assert [raw] + body[1..] == body;
      TagIs(raw, '+');
      TagIs(raw, '-');
      LookalikeTag(raw);
      CountBody(body[1..], CountLine(raw, c));
    }
  }

  lemma LookalikeTag(raw: Line)
    ensures "+++" <= raw ==> raw[0] == '+'
    ensures "---" <= raw ==> raw[0] == '-'
  {
    if |raw| >= 3 { assert raw[..3][0] == raw[0]; }
  }

  lemma NoLookalikeCons(raw: Line, rest: seq<Line>)
    ensures NoLookalike([raw] + rest) <==> !Lookalike(raw) && NoLookalike(rest)
  {
    hide Lookalike;
    var all := [raw] + rest;
    assert forall i :: 0 <= i < |rest| ==> rest[i] == all[i + 1];
    if NoLookalike(all) { assert !Lookalike(all[0]); }
  }

  lemma {:induction false} CountLinesAppend(a: seq<Line>, b: seq<Line>, c: Counts)
    ensures CountLines(a + b, c) == CountLines(b, CountLines(a, c))
    decreases |a|
  {
    hide CountLine;
    if a == [] { assert a + b == b; } else {
      assert (a + b)[1..] == a[1..] + b;
      CountLinesAppend(a[1..], b, CountLine(a[0], c));
    }
  }

  predicate BodiesTagged(hunks: seq<Hunk>)
  {
    forall i :: 0 <= i < |hunks| ==> "@@" <= hunks[i].header && WellTagged(hunks[i].body)
  }

  predicate NoLookalikes(hunks: seq<Hunk>) { forall i :: 0 <= i < |hunks| ==> NoLookalike(hunks[i].body) }

  lemma HeaderCountsNothing(header: Line, c: Counts)
    requires "@@" <= header
    ensures CountLine(header, c) == c && !("+++ " <= header)
  {
    assert header[..2][0] == header[0];
    TagIs(header, '+');
    TagIs(header, '-');
  }

  lemma {:induction false} CountHunks(hunks: seq<Hunk>, c: Counts)
    requires BodiesTagged(hunks)
    ensures var r := CountLines(PrintHunks(hunks), c);
            && r.added <= c.added + TotalAdded(hunks) && r.removed <= c.removed + TotalRemoved(hunks)
            && (r == Counts(c.added + TotalAdded(hunks), c.removed + TotalRemoved(hunks)) <==> NoLookalikes(hunks))
    decreases |hunks|
  {
    hide CountLine, Added, Removed, WellTagged, NoLookalike;
    if hunks != [] {
      var h, rest := hunks[0], PrintHunks(hunks[1..]);
      assert PrintHunks(hunks) == [h.header] + (h.body + rest);
      HeaderCountsNothing(h.header, c);
      CountLinesAppend(h.body, rest, c);
      CountBody(h.body, c);
      CountHunks(hunks[1..], CountLines(h.body, c));
      assert forall i :: 0 < i < |hunks| ==> hunks[i] == hunks[1..][i - 1];
      assert ([h.header] + (h.body + rest))[1..] == h.body + rest;
    }
  }

  lemma {:induction false} NoMarkInHunks(hunks: seq<Hunk>)
    requires BodiesTagged(hunks) && NoLookalikes(hunks)
    ensures NoFileMark(PrintHunks(hunks))
  {
    hide WellTagged;
    if hunks != [] {
      var h, rest := hunks[0], PrintHunks(hunks[1..]);
      NoMarkInHunks(hunks[1..]);
      HeaderCountsNothing(h.header, Counts(0, 0));
      var lines := [h.header] + h.body + rest;
      forall i | 0 <= i < |lines| ensures !("+++ " <= lines[i]) {
        if 1 <= i <= |h.body| {
          assert !Lookalike(h.body[i - 1]);
        } else if i > |h.body| {
          assert lines[i] == rest[i - 1 - |h.body|];
        }
      }
    }
  }

  // ---------- under which path changes are counted ----------

  predicate Occurs(s: string, pat: string) { exists i :: 0 <= i <= |s| && pat <= s[i..] }

  lemma {:induction false} ReplaceNothing(s: string, pat: string)
    requires pat != "" && !Occurs(s, pat)
    ensures ReplaceAll(s, pat) == s
  {
    if s != "" {
      assert s[0..] == s;
      forall i | 0 <= i <= |s[1..]| ensures !(pat <= s[1..][i..]) { assert s[1..][i..] == s[i + 1..]; }
      ReplaceNothing(s[1..], pat);
      assert s == [s[0]] + s[1..];
    }
  }

  /** A printed path is counted under itself when it holds neither mark nor prefix and has no white space
      at its ends. */
  lemma CountedUnderPath(path: string)
    requires !Occurs("b/" + path, "+++ ") && !Occurs(path, "b/") && Strip(path) == path
    ensures MetadataPath("+++ " + ("b/" + path)) == path
  {
    hide Occurs, Strip;
    var line, shown := "+++ " + ("b/" + path), "b/" + path;
    assert line[4..] == shown && ReplaceAll(line, "+++ ") == ReplaceAll(shown, "+++ ");
    ReplaceNothing(shown, "+++ ");
    assert shown[2..] == path && ReplaceAll(shown, "b/") == ReplaceAll(path, "b/");
    ReplaceNothing(path, "b/");
  }

  // ---------- counting a whole patch ----------

  /** The path under which a printed file's changes are counted. */
  function CountedPath(f: FilePatch): string { MetadataPath("+++ " + PrintPath("b/", f.newPath)) }

  predicate Countable(files: seq<FilePatch>)
  {
    forall i :: 0 <= i < |files| ==> BodiesTagged(files[i].hunks) && CountedPath(files[i]) != ""
  }

  predicate AllPlain(files: seq<FilePatch>) { forall i :: 0 <= i < |files| ==> NoLookalikes(files[i].hunks) }

  function CountsAt(m: FileCounts, path: string): Counts { if path in m then m[path] else Counts(0, 0) }

  /** A file's additions and removals added to what its path has already. */
  function Charge(m: FileCounts, f: FilePatch): (r: FileCounts)
    ensures CountedPath(f) in r
  {
    var path, c := CountedPath(f), CountsAt(m, CountedPath(f));
    m[path := Counts(c.added + TotalAdded(f.hunks), c.removed + TotalRemoved(f.hunks))]
  }

  /** The true additions and removals of every path, files of one path added up, on top of `m`. */
  function TrueCounts(files: seq<FilePatch>, m: FileCounts): FileCounts
    decreases |files|
  {
    if files == [] then m else TrueCounts(files[1..], Charge(m, files[0]))
  }

  /** Lines that do not switch the file are charged to the current one. */
  lemma {:induction false} CountFromLines(lines: seq<Line>, rest: seq<Line>, current: string, m: FileCounts)
    requires current != "" && current in m && NoFileMark(lines)
    ensures CountFrom(lines + rest, current, m) == CountFrom(rest, current, m[current := CountLines(lines, m[current])])
    decreases |lines|
  {
    hide CountLine;
    if lines == [] {
      assert lines + rest == rest && m[current := m[current]] == m;
    } else {
      assert (lines + rest)[1..] == lines[1..] + rest;
      CountFromLines(lines[1..], rest, current, m[current := CountLine(lines[0], m[current])]);
      assert m[current := CountLine(lines[0], m[current])][current := CountLines(lines, m[current])] ==
             m[current := CountLines(lines, m[current])];
    }
  }

  /** The two lines that open a file count nothing and switch to its path. */
  lemma CountFromHeader(f: FilePatch, rest: seq<Line>, current: string, m: FileCounts)
    requires current != "" ==> current in m
    ensures var path := CountedPath(f);
            CountFrom(PrintFile(f) + rest, current, m) ==
            CountFrom(PrintHunks(f.hunks) + rest, path, m[path := CountsAt(m, path)])
  {
    hide MetadataPath;
    var l0, l1 := "--- " + PrintPath("a/", f.oldPath), "+++ " + PrintPath("b/", f.newPath);
    var lines, body := PrintFile(f) + rest, PrintHunks(f.hunks) + rest;
    assert l0[0] == '-' && !("+++ " <= l0) && "---" <= l0 && !("+" <= l0) && "+++ " <= l1;
    assert lines[0] == l0 && lines[1..] == [l1] + body && ([l1] + body)[1..] == body;
    if current != "" { assert m[current := m[current]] == m; }
    var path := MetadataPath(l1);
    if path in m { assert m[path := m[path]] == m; }
  }

  /** The lines of a file without lookalikes add exactly its changes. */
  lemma PlainHunksCount(f: FilePatch, m: FileCounts)
    requires BodiesTagged(f.hunks) && NoLookalikes(f.hunks)
    ensures var path := CountedPath(f);
            m[path := CountLines(PrintHunks(f.hunks), CountsAt(m, path))] == Charge(m, f)
    ensures NoFileMark(PrintHunks(f.hunks))
  {
    hide CountedPath, PrintHunks, CountLines, BodiesTagged, NoLookalikes, NoFileMark, CountsAt, TotalAdded;
    hide TotalRemoved;
    NoMarkInHunks(f.hunks);
    CountHunks(f.hunks, CountsAt(m, CountedPath(f)));
  }

  lemma ChargeBody(body: seq<Line>, rest: seq<Line>, path: string, m: FileCounts, c: Counts)
    requires path != "" && NoFileMark(body)
    ensures CountFrom(body + rest, path, m[path := c]) == CountFrom(rest, path, m[path := CountLines(body, c)])
  {
    hide CountFrom, CountLines, NoFileMark;
    CountFromLines(body, rest, path, m[path := c]);
    SetTwice(m, path, c, CountLines(body, c));
  }

  /** A printed file without lookalikes charges exactly its changes to its path. */
  lemma PlainFileCounts(f: FilePatch, rest: seq<Line>, current: string, m: FileCounts)
    requires BodiesTagged(f.hunks) && CountedPath(f) != "" && NoLookalikes(f.hunks)
    requires current != "" ==> current in m
    ensures CountFrom(PrintFile(f) + rest, current, m) == CountFrom(rest, CountedPath(f), Charge(m, f))
  {
    hide CountFrom, CountedPath, PrintFile, PrintHunks, CountLines, BodiesTagged, NoLookalikes, NoFileMark, CountsAt;
    hide Charge;
    var path := CountedPath(f);
    PlainHunksCount(f, m);
    CountFromHeader(f, rest, current, m);
    ChargeBody(PrintHunks(f.hunks), rest, path, m, CountsAt(m, path));
  }

  lemma SetTwice(m: FileCounts, path: string, c: Counts, d: Counts)
    ensures m[path := c][path] == c && m[path := c][path := d] == m[path := d]
  {
  }

  lemma {:induction false} PlainFilesCount(files: seq<FilePatch>, current: string, m: FileCounts)
    requires Countable(files) && AllPlain(files)
    requires current != "" ==> current in m
    ensures CountFrom(PrintFiles(files), current, m) == TrueCounts(files, m)
    decreases |files|
  {
    hide CountFrom, CountedPath, PrintFile, BodiesTagged, NoLookalikes, Charge;
    if files == [] {
      NoFilesCount(current, m);
    } else {
      assert forall i :: 0 <= i < |files[1..]| ==> files[1..][i] == files[i + 1];
      PlainFileCounts(files[0], PrintFiles(files[1..]), current, m);
      PlainFilesCount(files[1..], CountedPath(files[0]), Charge(m, files[0]));
    }
  }

  lemma NoFilesCount(current: string, m: FileCounts)
    requires current != "" ==> current in m
    ensures CountFrom([], current, m) == m
  {
  }

  // ---------- with lookalikes too little is counted ----------

  function Size(c: Counts): nat { c.added + c.removed }

  /** How many lines count at all. */
  function Counted(lines: seq<Line>): nat
  {
    if lines == [] then 0 else Size(CountLine(lines[0], Counts(0, 0))) + Counted(lines[1..])
  }

  function SumAt(paths: seq<string>, m: FileCounts): nat
  {
    if paths == [] then 0 else Size(CountsAt(m, paths[0])) + SumAt(paths[1..], m)
  }

  predicate NoDups(paths: seq<string>) { forall i, j :: 0 <= i < j < |paths| ==> paths[i] != paths[j] }

  lemma {:induction false} SumAtUpdate(paths: seq<string>, m: FileCounts, path: string, c: Counts)
    requires NoDups(paths)
    ensures path in paths ==> SumAt(paths, m[path := c]) + Size(CountsAt(m, path)) == SumAt(paths, m) + Size(c)
    ensures path !in paths ==> SumAt(paths, m[path := c]) == SumAt(paths, m)
  {
    hide Size;
    if paths != [] { SumAtUpdate(paths[1..], m, path, c); }
  }

  lemma CountLineSize(line: Line, c: Counts)
    ensures Size(CountLine(line, c)) == Size(c) + Size(CountLine(line, Counts(0, 0)))
  {
  }

  lemma ChargeLine(line: Line, current: string, m: FileCounts, paths: seq<string>)
    requires NoDups(paths) && current in m
    ensures SumAt(paths, m[current := CountLine(line, m[current])]) <=
            SumAt(paths, m) + Size(CountLine(line, Counts(0, 0)))
  {
    hide SumAt, NoDups, CountLine, Size;
    CountLineSize(line, m[current]);
    SumAtUpdate(paths, m, current, CountLine(line, m[current]));
  }

  lemma OpenPath(path: string, m: FileCounts, paths: seq<string>)
    requires NoDups(paths)
    ensures SumAt(paths, if path in m then m else m[path := Counts(0, 0)]) == SumAt(paths, m)
  {
    hide SumAt, NoDups;
    if path !in m { SumAtUpdate(paths, m, path, Counts(0, 0)); }
  }

  lemma {:induction false} CountedBounds(lines: seq<Line>, current: string, m: FileCounts, paths: seq<string>)
    requires NoDups(paths) && (current != "" ==> current in m)
    ensures SumAt(paths, CountFrom(lines, current, m)) <= SumAt(paths, m) + Counted(lines)
    decreases |lines|
  {
    hide MetadataPath, SumAt, NoDups, CountLine, Size;
    if lines != [] {
      if "+++ " <= lines[0] {
        var p := MetadataPath(lines[0]);
        OpenPath(p, m, paths);
        CountedBounds(lines[1..], p, if p in m then m else m[p := Counts(0, 0)], paths);
      } else if current == "" {
        CountedBounds(lines[1..], current, m, paths);
      } else {
        ChargeLine(lines[0], current, m, paths);
        CountedBounds(lines[1..], current, m[current := CountLine(lines[0], m[current])], paths);
      }
    }
  }

  function TrueTotal(files: seq<FilePatch>): nat
  {
    if files == [] then 0
    else TotalAdded(files[0].hunks) + TotalRemoved(files[0].hunks) + TrueTotal(files[1..])
  }

  lemma {:induction false} CountedIsCountLines(lines: seq<Line>, c: Counts)
    ensures Size(CountLines(lines, c)) == Size(c) + Counted(lines)
    decreases |lines|
  {
    if lines != [] { CountedIsCountLines(lines[1..], CountLine(lines[0], c)); }
  }

  lemma {:induction false} CountedAppend(a: seq<Line>, b: seq<Line>)
    ensures Counted(a + b) == Counted(a) + Counted(b)
  {
    hide CountLine;
    if a == [] {
      assert a + b == b;
    } else {
      assert (a + b)[1..] == a[1..] + b;
      CountedAppend(a[1..], b);
    }
  }

  lemma CountedFile(f: FilePatch)
    requires BodiesTagged(f.hunks)
    ensures Counted(PrintFile(f)) <= TotalAdded(f.hunks) + TotalRemoved(f.hunks)
    ensures !NoLookalikes(f.hunks) ==> Counted(PrintFile(f)) < TotalAdded(f.hunks) + TotalRemoved(f.hunks)
  {
    hide CountLines, NoLookalikes, PrintHunks, BodiesTagged, TotalAdded, TotalRemoved;
    CountedHeader("--- " + PrintPath("a/", f.oldPath), "+++ " + PrintPath("b/", f.newPath), PrintHunks(f.hunks));
    CountedIsCountLines(PrintHunks(f.hunks), Counts(0, 0));
    CountHunks(f.hunks, Counts(0, 0));
  }

  lemma CountedHeader(l0: Line, l1: Line, body: seq<Line>)
    requires "--- " <= l0 && "+++ " <= l1
    ensures Counted([l0, l1] + body) == Counted(body)
  {
    hide Counted, CountLine, Size;
    MarkCountsNothing(l0);
    MarkCountsNothing(l1);
    CountedCons(l1, body);
    CountedCons(l0, [l1] + body);
    assert [l0, l1] + body == [l0] + ([l1] + body);
  }

  lemma CountedCons(line: Line, rest: seq<Line>)
    ensures Counted([line] + rest) == Size(CountLine(line, Counts(0, 0))) + Counted(rest)
  {
    assert ([line] + rest)[1..] == rest;
  }

  lemma MarkCountsNothing(line: Line)
    requires "--- " <= line || "+++ " <= line
    ensures Size(CountLine(line, Counts(0, 0))) == 0
  {
    assert line[..4][..3] == line[..3];
    assert line[..4][0] == line[0];
  }

  lemma {:induction false} CountedFiles(files: seq<FilePatch>)
    requires Countable(files)
    ensures Counted(PrintFiles(files)) <= TrueTotal(files)
    ensures !AllPlain(files) ==> Counted(PrintFiles(files)) < TrueTotal(files)
  {
    hide Counted, BodiesTagged, NoLookalikes, CountedPath, PrintFile;
    if files == [] {
      NothingCounted();
    } else {
      CountedFile(files[0]);
      assert forall i :: 0 <= i < |files[1..]| ==> files[1..][i] == files[i + 1];
      CountedFiles(files[1..]);
      CountedAppend(PrintFile(files[0]), PrintFiles(files[1..]));
    }
  }

  lemma NothingCounted()
    ensures Counted([]) == 0
  {
  }

  lemma SizeAdds(c: Counts, added: nat, removed: nat)
    ensures Size(Counts(c.added + added, c.removed + removed)) == Size(c) + added + removed
  {
  }

  lemma ChargeSum(m: FileCounts, f: FilePatch, paths: seq<string>)
    requires NoDups(paths) && CountedPath(f) in paths
    ensures SumAt(paths, Charge(m, f)) == SumAt(paths, m) + TotalAdded(f.hunks) + TotalRemoved(f.hunks)
  {
    hide CountedPath, SumAt, NoDups, CountsAt, TotalAdded, TotalRemoved, Size;
    var path, c := CountedPath(f), CountsAt(m, CountedPath(f));
    SizeAdds(c, TotalAdded(f.hunks), TotalRemoved(f.hunks));
    SumAtUpdate(paths, m, path, Counts(c.added + TotalAdded(f.hunks), c.removed + TotalRemoved(f.hunks)));
  }

  lemma {:induction false} TrueCountsSum(files: seq<FilePatch>, m: FileCounts, paths: seq<string>)
    requires NoDups(paths) && forall i :: 0 <= i < |files| ==> CountedPath(files[i]) in paths
    ensures SumAt(paths, TrueCounts(files, m)) == SumAt(paths, m) + TrueTotal(files)
    decreases |files|
  {
    hide CountedPath, SumAt, NoDups, Charge, TotalAdded, TotalRemoved;
    if files != [] {
      assert CountedPath(files[0]) in paths;
      assert forall i :: 0 <= i < |files[1..]| ==> files[1..][i] == files[i + 1];
      ChargeSum(m, files[0], paths);
      TrueCountsSum(files[1..], Charge(m, files[0]), paths);
    }
  }

  /** The distinct paths of some files. */
  function PathsOf(files: seq<FilePatch>): seq<string>
  {
    if files == [] then []
    else
      var paths, path := PathsOf(files[1..]), CountedPath(files[0]);
      if path in paths then paths else [path] + paths
  }

  lemma {:induction false} PathsOfAll(files: seq<FilePatch>)
    ensures NoDups(PathsOf(files))
    ensures forall i :: 0 <= i < |files| ==> CountedPath(files[i]) in PathsOf(files)
  {
    hide CountedPath;
    if files != [] {
      PathsOfAll(files[1..]);
      var paths := PathsOf(files[1..]);
      forall i | 0 <= i < |files| ensures CountedPath(files[i]) in PathsOf(files) {
        if i > 0 { assert CountedPath(files[1..][i - 1]) in paths; }
      }
    }
  }

  lemma {:induction false} NothingSummed(paths: seq<string>)
    ensures SumAt(paths, map[]) == 0
  {
    if paths != [] { NothingSummed(paths[1..]); }
  }

  /** The metadata of a printed patch are the true additions and removals of every path iff no changed
      text in it looks like a file mark. */
  lemma MetadataCountsIff(files: seq<FilePatch>)
    requires Countable(files)
    ensures CountFrom(PrintFiles(files), "", map[]) == TrueCounts(files, map[]) <==> AllPlain(files)
  {
    hide CountFrom, PrintFiles, Counted, SumAt, CountedPath, AllPlain, NoDups;
    if AllPlain(files) {
      PlainFilesCount(files, "", map[]);
    } else {
      var paths := PathsOf(files);
      PathsOfAll(files);
      CountedBounds(PrintFiles(files), "", map[], paths);
      CountedFiles(files);
      TrueCountsSum(files, map[], paths);
    }
  }

  // ---------- print, parse, apply ----------

  /** An added line `++x` is not counted. */
  lemma LookalikeUncounted()
    ensures var f := FilePatch(Some("f"), Some("f"), [Hunk("@@ -0,0 +1,1 @@", ["+++x"])]);
            && TotalAdded(f.hunks) == 1
            && CountFrom(PrintFile(f), "", map[]) == map[CountedPath(f) := Counts(0, 0)]
  {
    hide MetadataPath, CountLine;
    var hunk := Hunk("@@ -0,0 +1,1 @@", ["+++x"]);
    var f := FilePatch(Some("f"), Some("f"), [hunk]);
    var lines := [hunk.header, "+++x"];
    assert hunk.body[1..] == [] && [hunk][1..] == [];
    assert LinesTagged(hunk.body, '+') == ["++x"] + LinesTagged([], '+');
    assert PrintHunks([hunk]) == lines;
    assert PrintFile(f) + [] == PrintFile(f) && lines + [] == lines;
    CountFromHeader(f, [], "", map[]);
    PathOfF();
    HeaderCountsNothing(hunk.header, Counts(0, 0));
    LookalikeCountsNothing("+++x", Counts(0, 0));
    assert lines[1..] == ["+++x"] && lines[1..][1..] == [];
    assert CountLines(lines, Counts(0, 0)) == CountLines(lines[1..], Counts(0, 0)) == Counts(0, 0);
    assert NoFileMark(lines);
    CountFromLines(lines, [], CountedPath(f), map[CountedPath(f) := Counts(0, 0)]);
  }

  lemma PathOfF()
    ensures MetadataPath("+++ " + PrintPath("b/", Some("f"))) == "f"
  {
    hide ReplaceAll, Strip;
    assert PrintPath("b/", Some("f")) == "b/f" && "+++ " + "b/f" == "+++ b/f";
    WithoutMark();
    WithoutPrefix();
  }

  lemma WithoutMark()
    ensures ReplaceAll("+++ b/f", "+++ ") == "b/f"
  {
    assert "+++ b/f"[4..] == "b/f" && "b/f"[1..] == "/f" && "/f"[1..] == "f" && "f"[1..] == "";
    assert "b/f"[0] == 'b' && "/f"[0] == '/' && "f"[0] == 'f';
    assert ReplaceAll("f", "+++ ") == ['f'] + "" == "f";
    assert ReplaceAll("/f", "+++ ") == ['/'] + "f" == "/f";
    assert ReplaceAll("b/f", "+++ ") == ['b'] + "/f" == "b/f";
  }

  lemma WithoutPrefix()
    ensures ReplaceAll("b/f", "b/") == "f" && Strip("f") == "f"
  {
    assert "b/f"[2..] == "f" && "f"[1..] == "";
    assert ReplaceAll("f", "b/") == ['f'] + "" == "f";
    assert !IsSpace('f') && RStrip("f") == "f" && LStrip("f") == "f";
  }

  lemma LookalikeCountsNothing(line: Line, c: Counts)
    requires line == "+++x"
    ensures CountLine(line, c) == c && !("+++ " <= line)
  {
    assert line[..3] == "+++" && line[0] == '+' && line[3] != ' ';
  }

  lemma {:induction false} OtherPathsStay(files: seq<FilePatch>, m: FileCounts, path: string)
    requires forall i :: 0 <= i < |files| ==> CountedPath(files[i]) != path
    ensures CountsAt(TrueCounts(files, m), path) == CountsAt(m, path)
    ensures path in m ==> path in TrueCounts(files, m)
    decreases |files|
  {
    hide CountedPath;
    if files != [] {
      assert forall i :: 0 <= i < |files[1..]| ==> files[1..][i] == files[i + 1];
      OtherPathsStay(files[1..], Charge(m, files[0]), path);
    }
  }

  /** A path only one file has gets that file's counts. */
  lemma {:induction false} OwnCounts(files: seq<FilePatch>, i: nat, m: FileCounts)
    requires i < |files| && CountedPath(files[i]) !in m
    requires forall j :: 0 <= j < |files| && j != i ==> CountedPath(files[j]) != CountedPath(files[i])
    ensures var path := CountedPath(files[i]);
            && path in TrueCounts(files, m)
            && TrueCounts(files, m)[path] == Counts(TotalAdded(files[i].hunks), TotalRemoved(files[i].hunks))
    decreases |files|
  {
    hide CountedPath, TotalAdded, TotalRemoved;
    assert forall j :: 0 <= j < |files[1..]| ==> files[1..][j] == files[j + 1];
    if i == 0 {
      OtherPathsStay(files[1..], Charge(m, files[0]), CountedPath(files[0]));
    } else {
      OwnCounts(files[1..], i - 1, Charge(m, files[0]));
    }
  }

  lemma TaggedPlainIsPrintable(hunks: seq<Hunk>)
    requires BodiesTagged(hunks) && NoLookalikes(hunks)
    ensures HunksOk(hunks)
  {
    hide ConsumesOld, AddsOnly;
    forall i, j | 0 <= i < |hunks| && 0 <= j < |hunks[i].body| ensures !IsBoundary(hunks[i].body[j]) {
      var raw := hunks[i].body[j];
      assert !Lookalike(raw) && (ConsumesOld(raw) || AddsOnly(raw));
      TaggedBoundary(raw);
    }
  }

  lemma {:induction false} RereadKeepsHunks(files: seq<FilePatch>, i: nat)
    requires i < |files|
    ensures |Reread(files)| == |files| && Reread(files)[i].hunks == files[i].hunks
  {
    if i > 0 { RereadKeepsHunks(files[1..], i - 1); }
  }

  /** A printed patch, counted, parsed and applied: the metadata of a file tell exactly how much longer
      the application makes it. */
  lemma MetadataPredictLength(files: seq<FilePatch>, i: nat, src: seq<Line>)
    requires Countable(files) && AllPlain(files) && i < |files|
    requires forall j :: 0 <= j < |files| && j != i ==> CountedPath(files[j]) != CountedPath(files[i])
    requires Apply(src, files[i].hunks).Ok?
    ensures var counts, parsed := CountFrom(PrintFiles(files), "", map[]), ParseFiles(PrintFiles(files));
            && CountedPath(files[i]) in counts && |parsed| == |files|
            && Apply(src, parsed[i].hunks).Ok?
            && |Apply(src, parsed[i].hunks).value| ==
               |src| + counts[CountedPath(files[i])].added - counts[CountedPath(files[i])].removed
  {
    hide CountFrom, PrintFiles, ParseFiles, Apply, CountedPath, TrueCounts, Reread;
    MetadataCountsIff(files);
    OwnCounts(files, i, map[]);
    forall j | 0 <= j < |files| ensures HunksOk(files[j].hunks) { TaggedPlainIsPrintable(files[j].hunks); }
    ParsePrintedFiles(files);
    RereadKeepsHunks(files, i);
    AppliedLength(src, files[i].hunks);
  }
}
