/** Rendering an edit script as hunks and applying it, forwards and backwards. */
module PatchRoundTrip {
  import opened Text
  import opened PatchApply
  import opened PatchTheorems

  // ---------- edit scripts ----------

  datatype Op = Keep(text: Line) | Delete(text: Line) | Insert(text: Line)

  /** Skip `skip` lines of the source, then perform `ops`. */
  datatype Edit = Edit(skip: nat, ops: seq<Op>)

  function Before(ops: seq<Op>): (r: seq<Line>)
  {
    if ops == [] then [] else (if ops[0].Insert? then [] else [ops[0].text]) + Before(ops[1..])
  }

  function After(ops: seq<Op>): (r: seq<Line>)
  {
    if ops == [] then [] else (if ops[0].Delete? then [] else [ops[0].text]) + After(ops[1..])
  }

  /** The source lines the script touches are, up to tolerated drift, the ones it names. */
  ghost predicate Fits(src: seq<Line>, pos: nat, script: seq<Edit>)
    decreases |script|
  {
    if script == [] then pos <= |src|
    else
      var at, was := pos + script[0].skip, Before(script[0].ops);
      BlockAt(src, at, was) && Fits(src, at + |was|, script[1..])
  }

  /** The same with no drift at all. */
  ghost predicate FitsExactly(src: seq<Line>, pos: nat, script: seq<Edit>)
    decreases |script|
  {
    if script == [] then pos <= |src|
    else
      var at, was := pos + script[0].skip, Before(script[0].ops);
      at + |was| <= |src| && src[at..at + |was|] == was && FitsExactly(src, at + |was|, script[1..])
  }

  /** `ops` performed on actual text: kept lines stay as the source has them. */
  function Rewrite(was: seq<Line>, ops: seq<Op>): seq<Line>
    requires |was| == |Before(ops)|
    decreases |ops|
  {
    if ops == [] then []
    else match ops[0]
      case Keep(_) => [was[0]] + Rewrite(was[1..], ops[1..])
      case Delete(_) => Rewrite(was[1..], ops[1..])
      case Insert(t) => [t] + Rewrite(was, ops[1..])
  }

  /** The text the script turns `src[pos..]` into. */
  ghost function Target(src: seq<Line>, pos: nat, script: seq<Edit>): seq<Line>
    requires Fits(src, pos, script)
    decreases |script|
  {
    if script == [] then src[pos..]
    else
      var at, n := pos + script[0].skip, |Before(script[0].ops)|;
      src[pos..at] + Rewrite(src[at..at + n], script[0].ops) + Target(src, at + n, script[1..])
  }

  // ---------- rendering ----------

  function RenderOp(op: Op): Line
  {
    match op
    case Keep(t) => " " + t
    case Delete(t) => "-" + t
    case Insert(t) => "+" + t
  }

  function RenderOps(ops: seq<Op>): (r: seq<Line>)
    ensures |r| == |ops|
  {
    if ops == [] then [] else [RenderOp(ops[0])] + RenderOps(ops[1..])
  }

  /** Unified-diff line number of a range that begins after `pos` lines: an empty range names the
      line before it. */
  function RangeStart(pos: nat, count: nat): nat { if count == 0 then pos else pos + 1 }

  function PrintHeader(oldStart: nat, oldCount: nat, newStart: nat, newCount: nat): string
  {
    "@@ -" + Dec(oldStart) + "," + Dec(oldCount) + " +" + Dec(newStart) + "," + Dec(newCount) + " @@"
  }

  function RenderEdit(pos: nat, newPos: nat, e: Edit): Hunk
  {
    var oldCount, newCount := |Before(e.ops)|, |After(e.ops)|;
    Hunk(PrintHeader(RangeStart(pos + e.skip, oldCount), oldCount, RangeStart(newPos + e.skip, newCount), newCount),
         RenderOps(e.ops))
  }

  /** Hunks with exact headers; `newPos` runs ahead of `pos` by the accumulated deltas. */
  function Render(pos: nat, newPos: nat, script: seq<Edit>): (r: seq<Hunk>)
    ensures |r| == |script|
    decreases |script|
  {
    if script == [] then []
    else
      var e := script[0];
      [RenderEdit(pos, newPos, e)] +
      Render(pos + e.skip + |Before(e.ops)|, newPos + e.skip + |After(e.ops)|, script[1..])
  }

  // ---------- headers read back ----------

  lemma TakeNumberOfDec(n: nat, rest: string)
    requires rest != "" && !IsDigit(rest[0])
    ensures TakeNumber(Dec(n) + rest) == Some((n, rest))
  {
    hide Dec, NatOf, DigitRun;
    DigitRunExact(Dec(n), rest);
    NatOfDec(n);
  }

  lemma TakeRangeOfPrinted(start: nat, count: nat, rest: string)
    requires rest != "" && !IsDigit(rest[0])
    ensures TakeRange(Dec(start) + ("," + (Dec(count) + rest))) == Some((start, Some(count), rest))
  {
    hide Dec, TakeNumber;
    var tail := "," + (Dec(count) + rest);
    TakeNumberOfDec(start, tail);
    assert tail[1..] == Dec(count) + rest;
    TakeNumberOfDec(count, rest);
  }

  lemma StripLiteralPrefix(literal: string, rest: string)
    ensures StripLiteral(literal + rest, literal) == Some(rest)
  {
  }

  lemma ParsePrintedHeader(a: nat, b: nat, c: nat, d: nat)
    ensures ParseHeader(PrintHeader(a, b, c, d)) == Some(Header(a, Some(b), c, Some(d)))
  {
    hide Dec, TakeRange, StripLiteral;
    var range2 := Dec(c) + ("," + (Dec(d) + " @@"));
    var range1 := Dec(a) + ("," + (Dec(b) + (" +" + range2)));
    assert PrintHeader(a, b, c, d) == "@@ -" + range1;
    StripLiteralPrefix("@@ -", range1);
    TakeRangeOfPrinted(a, b, " +" + range2);
    StripLiteralPrefix(" +", range2);
    TakeRangeOfPrinted(c, d, " @@");
  }

  // ---------- rendered bodies ----------

  lemma {:induction false} RenderedBody(ops: seq<Op>)
    ensures WellTagged(RenderOps(ops)) && OldBlock(RenderOps(ops)) == Before(ops)
  {
    if ops != [] {
      RenderedBody(ops[1..]);
      WellTaggedCons(RenderOps(ops));
      assert RenderOps(ops)[1..] == RenderOps(ops[1..]);
      assert RenderOp(ops[0])[1..] == ops[0].text;
    }
  }

  lemma {:induction false} RenderedNewBlock(was: seq<Line>, ops: seq<Op>)
    requires |was| == |Before(ops)|
    ensures |OldBlock(RenderOps(ops))| == |was|
    ensures NewBlock(was, RenderOps(ops)) == Rewrite(was, ops)
    decreases |ops|
  {
    RenderedBody(ops);
    if ops != [] {
      assert RenderOps(ops)[1..] == RenderOps(ops[1..]);
      assert RenderOp(ops[0])[1..] == ops[0].text;
      RenderedNewBlock(if ops[0].Insert? then was else was[1..], ops[1..]);
    }
  }

  // ---------- where rendered hunks land ----------

  /** The position the engine gives an edit: an insertion without any old line is taken one line
      too early, because its range names the line before it. */
  function Place(cur: nat, pos: nat, e: Edit): nat
    requires cur <= pos
  {
    if Before(e.ops) == [] then Max(pos + e.skip - 1, cur) else pos + e.skip
  }

  /** What the engine produces for a rendered script with its cursor at `cur`. */
  ghost function Landed(src: seq<Line>, cur: nat, pos: nat, script: seq<Edit>): seq<Line>
    requires cur <= pos && Fits(src, pos, script)
    decreases |script|
  {
    if script == [] then src[cur..]
    else
      var e := script[0];
      var at, n := Place(cur, pos, e), |Before(e.ops)|;
      src[cur..at] + Rewrite(src[at..at + n], e.ops) + Landed(src, at + n, pos + e.skip + n, script[1..])
  }

  lemma RenderedHunkLands(src: seq<Line>, cur: nat, pos: nat, newPos: nat, e: Edit)
    requires cur <= pos && BlockAt(src, pos + e.skip, Before(e.ops))
    ensures var at, n := Place(cur, pos, e), |Before(e.ops)|;
            ApplyHunk(src, cur, RenderEdit(pos, newPos, e)) ==
            Ok((src[cur..at] + Rewrite(src[at..at + n], e.ops), at + n))
  {
    hide SameLine, PrintHeader, ParseHeader, ApplyBody, MatchesAt, OldBlock, NewBlock, RelaxedStart;
    hide FirstMatch, WellTagged, Rewrite, RenderOps;
    var at, n := Place(cur, pos, e), |Before(e.ops)|;
    var oldCount, newCount := n, |After(e.ops)|;
    var body := RenderOps(e.ops);
    ParsePrintedHeader(RangeStart(pos + e.skip, oldCount), oldCount, RangeStart(newPos + e.skip, newCount), newCount);
    RenderedBody(e.ops);
    MatchesAtIff(src, at, body);
    assert MatchesAt(src, at, body);
    ApplyBodyIff(src, at, body);
    RenderedNewBlock(src[at..at + n], e.ops);
  }

  /** For every script, the engine's result is exactly `Landed`. */
  lemma {:induction false} RenderedLands(src: seq<Line>, cur: nat, pos: nat, newPos: nat, script: seq<Edit>)
    requires cur <= pos && Fits(src, pos, script)
    ensures cur <= |src|
    ensures ApplyFrom(src, cur, Render(pos, newPos, script)) == Ok(Landed(src, cur, pos, script))
    decreases |script|
  {
    hide BlockAt, ApplyHunk, RenderEdit, Rewrite;
    if script != [] {
      var e := script[0];
      var hunks := Render(pos, newPos, script);
      BlockBound(src, pos + e.skip, Before(e.ops));
      RenderedHunkLands(src, cur, pos, newPos, e);
      RenderedLands(src, Place(cur, pos, e) + |Before(e.ops)|, pos + e.skip + |Before(e.ops)|,
                    newPos + e.skip + |After(e.ops)|, script[1..]);
      assert hunks[0] == RenderEdit(pos, newPos, e);
      assert hunks[1..] == Render(pos + e.skip + |Before(e.ops)|, newPos + e.skip + |After(e.ops)|, script[1..]);
    }
  }

  lemma BlockBound(src: seq<Line>, at: nat, block: seq<Line>)
    requires BlockAt(src, at, block)
    ensures at + |block| <= |src|
  {
  }

  // ---------- exactly when the engine produces the target ----------

  predicate Same(a: seq<Line>, b: seq<Line>) { a == b }

  predicate AllEqual(lines: seq<Line>, line: Line) { forall i :: 0 <= i < |lines| ==> lines[i] == line }

  /** Every insertion that lands early consists of copies of the line it jumps over. */
  ghost predicate Harmless(src: seq<Line>, cur: nat, pos: nat, script: seq<Edit>)
    requires cur <= pos && Fits(src, pos, script)
    decreases |script|
  {
    script == [] ||
    (var e := script[0];
     var at, n := Place(cur, pos, e), |Before(e.ops)|;
     && (at < pos + e.skip ==> AllEqual(After(e.ops), src[pos + e.skip - 1]))
     && Harmless(src, at + n, pos + e.skip + n, script[1..]))
  }

  lemma {:induction false} RewriteOfInsertions(ops: seq<Op>)
    requires Before(ops) == []
    ensures Rewrite([], ops) == After(ops)
  {
    if ops != [] { RewriteOfInsertions(ops[1..]); }
  }

  lemma {:induction false} RotatedOnlyIfEqual(line: Line, inserted: seq<Line>, x: seq<Line>, t: seq<Line>)
    requires |x| == |t| + 1
    ensures inserted + x == [line] + inserted + t <==> AllEqual(inserted, line) && x == [line] + t
  {
    var a, b := inserted + x, [line] + inserted + t;
    assert |a| == |b|;
    if a == b {
      var k := 0;
      while k < |inserted|
        invariant k <= |inserted| && forall i :: 0 <= i < k ==> inserted[i] == line
      {
        assert a[k] == inserted[k] && b[k] == ([line] + inserted)[k];
        k := k + 1;
      }
      assert x == a[|inserted|..] == b[|inserted|..];
      assert b[|inserted|] == ([line] + inserted)[|inserted|] == line;
      assert b[|inserted| + 1..] == t;
    }
    if AllEqual(inserted, line) && x == [line] + t {
      assert inserted + [line] == [line] + inserted;
      assert a == (inserted + [line]) + t;
    }
  }

  lemma PlaceBounds(src: seq<Line>, cur: nat, pos: nat, script: seq<Edit>)
    requires cur <= pos && Fits(src, pos, script) && script != []
    ensures var at, n, goal := Place(cur, pos, script[0]), |Before(script[0].ops)|, pos + script[0].skip;
            && cur <= at <= goal <= at + 1 && goal + n <= |src| && (at == goal || Before(script[0].ops) == [])
            && Fits(src, goal + n, script[1..])
  {
    hide BlockAt, Before;
    BlockBound(src, pos + script[0].skip, Before(script[0].ops));
  }

  lemma LandedUnfolds(src: seq<Line>, cur: nat, pos: nat, script: seq<Edit>, at: nat, n: nat, goal: nat)
    requires cur <= pos && Fits(src, pos, script) && script != []
    requires at == Place(cur, pos, script[0]) && n == |Before(script[0].ops)| && goal == pos + script[0].skip
    requires cur <= at <= goal && goal + n <= |src| && Fits(src, goal + n, script[1..])
    ensures Landed(src, cur, pos, script) ==
            src[cur..at] + Rewrite(src[at..at + n], script[0].ops) + Landed(src, at + n, goal + n, script[1..])
    ensures Harmless(src, cur, pos, script) <==>
            (at < goal ==> AllEqual(After(script[0].ops), src[goal - 1])) &&
                Harmless(src, at + n, goal + n, script[1..])
  {
    hide BlockAt, Rewrite, AllEqual, Before, After, Place;
  }

  lemma {:induction false} LandedLength(src: seq<Line>, cur: nat, pos: nat, script: seq<Edit>)
    requires cur <= pos && Fits(src, pos, script)
    ensures |Landed(src, cur, pos, script)| == pos - cur + |Target(src, pos, script)|
    ensures pos <= |src|
    decreases |script|
  {
    hide Landed, Target, Fits, Place, BlockAt, Rewrite, Before, Harmless;
    if script == [] {
      EmptyScriptLength(src, cur, pos, script);
    } else {
      var at, n, goal := Place(cur, pos, script[0]), |Before(script[0].ops)|, pos + script[0].skip;
      PlaceBounds(src, cur, pos, script);
      LandedUnfolds(src, cur, pos, script, at, n, goal);
      TargetUnfolds(src, pos, script);
      LandedLength(src, at + n, goal + n, script[1..]);
      assert src[at..at + n] == src[goal..goal + n];
    }
  }

  lemma EmptyScriptLength(src: seq<Line>, cur: nat, pos: nat, script: seq<Edit>)
    requires cur <= pos && Fits(src, pos, script) && script == []
    ensures pos <= |src| && |Landed(src, cur, pos, script)| == pos - cur + |Target(src, pos, script)|
  {
  }

  lemma TargetUnfolds(src: seq<Line>, pos: nat, script: seq<Edit>)
    requires Fits(src, pos, script) && script != []
    ensures var goal, n := pos + script[0].skip, |Before(script[0].ops)|;
            && goal + n <= |src| && Fits(src, goal + n, script[1..])
            && Target(src, pos, script) ==
                src[pos..goal] + Rewrite(src[goal..goal + n], script[0].ops) + Target(src, goal + n, script[1..])
  {
    hide BlockAt, Rewrite, Before;
    BlockBound(src, pos + script[0].skip, Before(script[0].ops));
  }

  lemma CancelPrefix(p: seq<Line>, a: seq<Line>, b: seq<Line>)
    ensures p + a == p + b <==> a == b
  {
    if p + a == p + b { assert a == (p + a)[|p|..] == (p + b)[|p|..] == b; }
  }

  lemma TargetWithGap(src: seq<Line>, cur: nat, pos: nat, script: seq<Edit>)
    requires cur <= pos && Fits(src, pos, script) && script != []
    ensures var goal, n := pos + script[0].skip, |Before(script[0].ops)|;
            && goal + n <= |src| && Fits(src, goal + n, script[1..])
            && src[cur..pos] + Target(src, pos, script) ==
               src[cur..goal] + (Rewrite(src[goal..goal + n], script[0].ops) + Target(src, goal + n, script[1..]))
  {
    hide BlockAt, Rewrite, Before;
    var goal, n := pos + script[0].skip, |Before(script[0].ops)|;
    BlockBound(src, goal, Before(script[0].ops));
    assert src[cur..pos] + src[pos..goal] == src[cur..goal];
    var written, rest := Rewrite(src[goal..goal + n], script[0].ops), Target(src, goal + n, script[1..]);
    assert src[cur..pos] + (src[pos..goal] + written + rest) == (src[cur..pos] + src[pos..goal]) + (written + rest);
  }

  lemma LandedAtEnd(src: seq<Line>, cur: nat, pos: nat, script: seq<Edit>)
    requires cur <= pos && Fits(src, pos, script) && script == []
    ensures pos <= |src| && Harmless(src, cur, pos, script)
    ensures Same(Landed(src, cur, pos, script), src[cur..pos] + Target(src, pos, script))
  {
    assert src[cur..] == src[cur..pos] + src[pos..];
  }

  /** The engine restores the target iff every early insertion is harmless. */
  lemma {:induction false} LandedIsTargetIff(src: seq<Line>, cur: nat, pos: nat, script: seq<Edit>)
    requires cur <= pos <= cur + 1 && Fits(src, pos, script)
    ensures pos <= |src|
    ensures Same(Landed(src, cur, pos, script), src[cur..pos] + Target(src, pos, script)) <==>
        Harmless(src, cur, pos, script)
    decreases |script|
  {
    hide Same, Rewrite, AllEqual, Before, After, Place, Landed, Target, Harmless, Fits;
    if script == [] {
      LandedAtEnd(src, cur, pos, script);
    } else {
      var e := script[0];
      var at, n, goal := Place(cur, pos, e), |Before(e.ops)|, pos + e.skip;
      PlaceBounds(src, cur, pos, script);
      LandedUnfolds(src, cur, pos, script, at, n, goal);
      TargetWithGap(src, cur, pos, script);
      LandedIsTargetIff(src, at + n, goal + n, script[1..]);
      LandedLength(src, at + n, goal + n, script[1..]);
      LandedStepIff(src, cur, at, goal, e.ops, Landed(src, at + n, goal + n, script[1..]),
          Target(src, goal + n, script[1..]));
    }
  }

  lemma LandedStepIff(src: seq<Line>, cur: nat, at: nat, goal: nat, ops: seq<Op>, landed: seq<Line>, target: seq<Line>)
    requires cur <= at <= goal <= at + 1 && goal + |Before(ops)| <= |src|
    requires at == goal || Before(ops) == []
    requires |landed| == goal - at + |target|
    ensures var n := |Before(ops)|;
            Same(src[cur..at] + Rewrite(src[at..at + n], ops) + landed,
                 src[cur..goal] + (Rewrite(src[goal..goal + n], ops) + target)) <==>
            (at < goal ==> AllEqual(After(ops), src[goal - 1])) && Same(landed, src[at + n..goal + n] + target)
  {
    hide Rewrite, AllEqual;
    var n := |Before(ops)|;
    var written := Rewrite(src[at..at + n], ops);
    assert src[cur..at] + written + landed == src[cur..at] + (written + landed);
    if at == goal {
      CancelPrefix(src[cur..at], written + landed, written + target);
      CancelPrefix(written, landed, target);
      assert src[at + n..goal + n] + target == target;
    } else {
      assert src[at..at + n] == [] && src[goal..goal + n] == [];
      EarlyInsertion(src, cur, at, ops, written, landed, target);
    }
  }

  lemma EarlyInsertion(src: seq<Line>, cur: nat, at: nat, ops: seq<Op>,
                       written: seq<Line>, landed: seq<Line>, target: seq<Line>)
    requires cur <= at < |src| && Before(ops) == [] && written == Rewrite([], ops)
    requires |landed| == |target| + 1
    ensures src[cur..at] + (written + landed) == src[cur..at + 1] + (written + target) <==>
            AllEqual(After(ops), src[at]) && landed == src[at..at + 1] + target
  {
    hide Rewrite, Before, After, AllEqual;
    RewriteOfInsertions(ops);
    assert src[at..at + 1] == [src[at]];
    assert src[cur..at + 1] + (written + target) == src[cur..at] + ([src[at]] + written + target) by {
      assert src[cur..at + 1] == src[cur..at] + [src[at]];
    }
    CancelPrefix(src[cur..at], written + landed, [src[at]] + written + target);
    RotatedOnlyIfEqual(src[at], written, landed, target);
  }

  /** Applying the rendered script gives the target iff every early insertion is harmless. */
  lemma ApplyRenderedIff(src: seq<Line>, script: seq<Edit>)
    requires Fits(src, 0, script)
    ensures Apply(src, Render(0, 0, script)) == Ok(Target(src, 0, script)) <==> Harmless(src, 0, 0, script)
  {
    RenderedLands(src, 0, 0, 0, script);
    LandedIsTargetIff(src, 0, 0, script);
    assert src[0..0] + Target(src, 0, script) == Target(src, 0, script);
  }

  /** Every hunk names an old line, or sits right at the cursor. */
  predicate Anchored(script: seq<Edit>)
  {
    forall i :: 0 <= i < |script| ==> Before(script[i].ops) != [] || script[i].skip == 0
  }

  lemma {:induction false} AnchoredIsHarmless(src: seq<Line>, pos: nat, script: seq<Edit>)
    requires Fits(src, pos, script) && Anchored(script)
    ensures Harmless(src, pos, pos, script)
    decreases |script|
  {
    hide BlockAt, AllEqual;
    if script != [] {
      assert forall i :: 0 <= i < |script[1..]| ==> script[1..][i] == script[i + 1];
      AnchoredIsHarmless(src, pos + script[0].skip + |Before(script[0].ops)|, script[1..]);
    }
  }

  /** Forward round trip, drift included: context keeps the source's own text. */
  lemma AnchoredRoundTrip(src: seq<Line>, script: seq<Edit>)
    requires Fits(src, 0, script) && Anchored(script)
    ensures Apply(src, Render(0, 0, script)) == Ok(Target(src, 0, script))
  {
    AnchoredIsHarmless(src, 0, script);
    ApplyRenderedIff(src, script);
  }

  /** An insertion after the first of two different lines lands before that line. */
  lemma EarlyInsertionExample()
    ensures var src := ["a", "b"];
            var script := [Edit(1, [Insert("x")])];
            && Fits(src, 0, script)
            && Target(src, 0, script) == ["a", "x", "b"]
            && Apply(src, Render(0, 0, script)) == Ok(["x", "a", "b"])
  {
    var src := ["a", "b"];
    var ops := [Insert("x")];
    var script := [Edit(1, ops)];
    assert ops[1..] == [] && script[1..] == [];
    assert Before(ops) == [] && After(ops) == ["x"];
    EarlyInsertionLanding(src, ops, script);
  }

  lemma EarlyInsertionLanding(src: seq<Line>, ops: seq<Op>, script: seq<Edit>)
    requires src == ["a", "b"] && script == [Edit(1, ops)] && Before(ops) == [] && After(ops) == ["x"]
    ensures Fits(src, 0, script) && Target(src, 0, script) == ["a", "x", "b"]
    ensures ApplyFrom(src, 0, Render(0, 0, script)) == Ok(["x", "a", "b"])
  {
    hide ApplyFrom, Render, SameLine, Before, After, Rewrite;
    var rest := script[1..];
    assert rest == [];
    RewriteOfInsertions(ops);
    assert BlockAt(src, 1, []);
    assert Fits(src, 1, rest);
    assert src[0..1] == ["a"] && src[1..1] == [] && src[1..] == ["b"] && src[0..0] == [] && src[0..] == src;
    assert Target(src, 1, rest) == ["b"];
    assert Landed(src, 0, 1, rest) == src;
    RenderedLands(src, 0, 0, 0, script);
    assert script[0] == Edit(1, ops) && Place(0, 0, script[0]) == 0;
    assert Landed(src, 0, 0, script) == src[0..0] + Rewrite(src[0..0], ops) + Landed(src, 0, 1, rest);
    assert Landed(src, 0, 0, script) == ["x"] + src == ["x", "a", "b"];
  }

  // ---------- backwards ----------

  function Inverse(op: Op): Op
  {
    match op
    case Keep(t) => Keep(t)
    case Delete(t) => Insert(t)
    case Insert(t) => Delete(t)
  }

  function InverseOps(ops: seq<Op>): (r: seq<Op>)
    ensures |r| == |ops|
  {
    if ops == [] then [] else [Inverse(ops[0])] + InverseOps(ops[1..])
  }

  function InverseScript(script: seq<Edit>): (r: seq<Edit>)
    ensures |r| == |script|
    ensures forall i :: 0 <= i < |r| ==> r[i] == Edit(script[i].skip, InverseOps(script[i].ops))
  {
    if script == [] then [] else [Edit(script[0].skip, InverseOps(script[0].ops))] + InverseScript(script[1..])
  }

  /** Reversing a printed line and a printed hunk: `patch -R` read off the text. */
  function ReverseLine(raw: Line): Line
  {
    if raw == "" then raw
    else if raw[0] == '+' then "-" + raw[1..]
    else if raw[0] == '-' then "+" + raw[1..]
    else raw
  }

  function ReverseLines(body: seq<Line>): (r: seq<Line>)
    ensures |r| == |body|
  {
    if body == [] then [] else [ReverseLine(body[0])] + ReverseLines(body[1..])
  }

  /** An omitted count stands for one line. */
  function CountOr1(count: Option<nat>): nat { if count.Some? then count.value else 1 }

  function ReverseHunk(hunk: Hunk): Hunk
  {
    match ParseHeader(hunk.header)
    case None => hunk
    case Some(h) =>
      Hunk(PrintHeader(h.newStart, CountOr1(h.newCount), h.oldStart, CountOr1(h.oldCount)), ReverseLines(hunk.body))
  }

  function ReverseHunks(hunks: seq<Hunk>): (r: seq<Hunk>)
    ensures |r| == |hunks|
  {
    if hunks == [] then [] else [ReverseHunk(hunks[0])] + ReverseHunks(hunks[1..])
  }

  lemma {:induction false} InverseSwapsSides(ops: seq<Op>)
    ensures Before(InverseOps(ops)) == After(ops) && After(InverseOps(ops)) == Before(ops)
  {
    if ops != [] {
      InverseSwapsSides(ops[1..]);
      assert InverseOps(ops)[1..] == InverseOps(ops[1..]);
    }
  }

  lemma {:induction false} ReverseRenderedOps(ops: seq<Op>)
    ensures RenderOps(InverseOps(ops)) == ReverseLines(RenderOps(ops))
  {
    if ops != [] {
      ReverseRenderedOps(ops[1..]);
      assert RenderOp(ops[0])[1..] == ops[0].text;
      assert RenderOps(ops)[1..] == RenderOps(ops[1..]);
      assert InverseOps(ops)[1..] == InverseOps(ops[1..]);
    }
  }

  lemma ReverseRenderedEdit(pos: nat, newPos: nat, e: Edit)
    ensures ReverseHunk(RenderEdit(pos, newPos, e)) == RenderEdit(newPos, pos, Edit(e.skip, InverseOps(e.ops)))
  {
    hide PrintHeader, ParseHeader, RenderOps, ReverseLines, InverseOps;
    var oldCount, newCount := |Before(e.ops)|, |After(e.ops)|;
    InverseSwapsSides(e.ops);
    ReverseRenderedOps(e.ops);
    ParsePrintedHeader(RangeStart(pos + e.skip, oldCount), oldCount, RangeStart(newPos + e.skip, newCount), newCount);
  }

  /** Reversing the printed hunks is printing the inverse script. */
  lemma {:induction false} ReverseOfRendered(pos: nat, newPos: nat, script: seq<Edit>)
    ensures ReverseHunks(Render(pos, newPos, script)) == Render(newPos, pos, InverseScript(script))
    decreases |script|
  {
    hide ReverseHunk, RenderEdit;
    if script != [] {
      var e := script[0];
      var inv := InverseScript(script);
      ReverseRenderedEdit(pos, newPos, e);
      InverseSwapsSides(e.ops);
      ReverseOfRendered(pos + e.skip + |Before(e.ops)|, newPos + e.skip + |After(e.ops)|, script[1..]);
      assert inv[1..] == InverseScript(script[1..]);
      assert Render(pos, newPos, script)[1..] ==
             Render(pos + e.skip + |Before(e.ops)|, newPos + e.skip + |After(e.ops)|, script[1..]);
    }
  }

  lemma ExactBlock(src: seq<Line>, at: nat, block: seq<Line>)
    requires at + |block| <= |src| && src[at..at + |block|] == block
    ensures BlockAt(src, at, block)
  {
    forall k | 0 <= k < |block| ensures SameLine(src[at + k], block[k]) {
      assert src[at..at + |block|][k] == block[k];
    }
  }

  lemma {:induction false} ExactFits(src: seq<Line>, pos: nat, script: seq<Edit>)
    requires FitsExactly(src, pos, script)
    ensures pos <= |src| && Fits(src, pos, script)
    decreases |script|
  {
    hide BlockAt;
    if script != [] {
      var at, was := pos + script[0].skip, Before(script[0].ops);
      ExactBlock(src, at, was);
      ExactFits(src, at + |was|, script[1..]);
    }
  }

  lemma {:induction false} RewriteExactly(ops: seq<Op>)
    ensures Rewrite(Before(ops), ops) == After(ops)
  {
    if ops != [] {
      RewriteExactly(ops[1..]);
      if ops[0].Insert? {
        assert Before(ops) == Before(ops[1..]);
      } else {
        assert Before(ops)[1..] == Before(ops[1..]);
      }
    }
  }

  /** One edit seen from the target side: the inverse's block is there and leads back. */
  lemma InverseStep(src: seq<Line>, pos: nat, e: Edit, done: seq<Line>, rest: seq<Line>)
    requires var at, n := pos + e.skip, |Before(e.ops)|;
             at + n <= |src| && src[at..at + n] == Before(e.ops)
    ensures var at, n, m := pos + e.skip, |Before(e.ops)|, |After(e.ops)|;
            var tgt := done + (src[pos..at] + Rewrite(src[at..at + n], e.ops) + rest);
            var there := |done| + e.skip;
            && tgt == (done + src[pos..at] + After(e.ops)) + rest
            && there + m <= |tgt| && tgt[there..there + m] == After(e.ops) == Before(InverseOps(e.ops))
            && src[pos..at] + Rewrite(tgt[there..there + m], InverseOps(e.ops)) + src[at + n..] == src[pos..]
            && tgt[|done|..there] == src[pos..at]
  {
    hide Rewrite, Before, After, InverseOps;
    var at, n, m := pos + e.skip, |Before(e.ops)|, |After(e.ops)|;
    RewriteExactly(e.ops);
    RewriteExactly(InverseOps(e.ops));
    InverseSwapsSides(e.ops);
    assert src[pos..at] + Before(e.ops) + src[at + n..] == src[pos..];
  }

  lemma ExactUnfolds(src: seq<Line>, pos: nat, script: seq<Edit>)
    requires script != []
    ensures var goal, n := pos + script[0].skip, |Before(script[0].ops)|;
            FitsExactly(src, pos, script) && Fits(src, pos, script) <==>
            && goal + n <= |src| && src[goal..goal + n] == Before(script[0].ops)
            && FitsExactly(src, goal + n, script[1..]) && Fits(src, goal + n, script[1..])
    ensures Fits(src, pos, script) ==>
              var goal, n := pos + script[0].skip, |Before(script[0].ops)|;
              && goal + n <= |src|
              && Target(src, pos, script) ==
                 src[pos..goal] + Rewrite(src[goal..goal + n], script[0].ops) + Target(src, goal + n, script[1..])
  {
    hide Before, Rewrite, BlockAt;
    var goal, was := pos + script[0].skip, Before(script[0].ops);
    if goal + |was| <= |src| && src[goal..goal + |was|] == was { ExactBlock(src, goal, was); }
    if Fits(src, pos, script) { BlockBound(src, goal, was); }
  }

  lemma InverseAtEnd(src: seq<Line>, pos: nat, script: seq<Edit>, done: seq<Line>)
    requires Fits(src, pos, script) && script == []
    ensures pos <= |src|
    ensures var tgt, inv := done + Target(src, pos, script), InverseScript(script);
            FitsExactly(tgt, |done|, inv) && Fits(tgt, |done|, inv) && Target(tgt, |done|, inv) == src[pos..]
  {
    assert (done + src[pos..])[|done|..] == src[pos..];
  }

  /** The inverse script fits the target exactly and leads back to the source. */
  lemma {:induction false} InverseLeadsBack(src: seq<Line>, pos: nat, script: seq<Edit>, done: seq<Line>)
    requires FitsExactly(src, pos, script) && Fits(src, pos, script)
    ensures pos <= |src|
    ensures var tgt, inv := done + Target(src, pos, script), InverseScript(script);
            FitsExactly(tgt, |done|, inv) && Fits(tgt, |done|, inv) && Target(tgt, |done|, inv) == src[pos..]
    decreases |script|
  {
    hide Fits, FitsExactly, Target, Rewrite, Before, After, InverseOps;
    if script == [] {
      InverseAtEnd(src, pos, script, done);
    } else {
      var e := script[0];
      var at, n := pos + e.skip, |Before(e.ops)|;
      ExactUnfolds(src, pos, script);
      var done' := done + src[pos..at] + After(e.ops);
      InverseStep(src, pos, e, done, Target(src, at + n, script[1..]));
      InverseLeadsBack(src, at + n, script[1..], done');
      assert InverseScript(script)[1..] == InverseScript(script[1..]);
      ExactUnfolds(done + Target(src, pos, script), |done|, InverseScript(script));
    }
  }

  /** Forwards and backwards: the hunks give the target, and the reversed hunks give back the source
      from it, each iff the insertions that land early that way are harmless. */
  lemma PatchThenReverseIff(src: seq<Line>, script: seq<Edit>)
    requires FitsExactly(src, 0, script)
    ensures Fits(src, 0, script)
    ensures var hunks, tgt, inv := Render(0, 0, script), Target(src, 0, script), InverseScript(script);
            && Fits(tgt, 0, inv)
            && (Apply(src, hunks) == Ok(tgt) <==> Harmless(src, 0, 0, script))
            && (Apply(tgt, ReverseHunks(hunks)) == Ok(src) <==> Harmless(tgt, 0, 0, inv))
  {
    ExactFits(src, 0, script);
    ApplyRenderedIff(src, script);
    ReverseOfRendered(0, 0, script);
    InverseLeadsBack(src, 0, script, []);
    assert [] + Target(src, 0, script) == Target(src, 0, script);
    ApplyRenderedIff(Target(src, 0, script), InverseScript(script));
    assert src[0..] == src;
  }

  /** When every hunk names an old line, or sits right at the cursor, both directions work. */
  lemma PatchThenReverse(src: seq<Line>, script: seq<Edit>)
    requires FitsExactly(src, 0, script) && Anchored(script) && Anchored(InverseScript(script))
    ensures Fits(src, 0, script)
    ensures var hunks := Render(0, 0, script);
            && Apply(src, hunks) == Ok(Target(src, 0, script))
            && Apply(Target(src, 0, script), ReverseHunks(hunks)) == Ok(src)
  {
    PatchThenReverseIff(src, script);
    AnchoredIsHarmless(src, 0, script);
    AnchoredIsHarmless(Target(src, 0, script), 0, InverseScript(script));
  }
}
