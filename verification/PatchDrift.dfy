/** Hunks whose line numbers are off: the file has changed above them, and the search finds their
    lines where they are now. */
module PatchDrift {
  import opened PatchApply
  import opened PatchTheorems
  import opened PatchRoundTrip

  /** The headers count from `pos` where the text has `actual`. Every edit names an old line, and the
      search's preferences lead from its header to where its lines are now. */
  ghost predicate Refound(text: seq<Line>, cur: nat, actual: nat, pos: nat, script: seq<Edit>)
    decreases |script|
  {
    script == [] ||
    (var e := script[0];
     var at, n := actual + e.skip, |Before(e.ops)|;
     && n > 0 && Preferred(text, RenderOps(e.ops), pos + e.skip, cur, at)
     && Refound(text, at + n, at + n, pos + e.skip + n, script[1..]))
  }

  /** Between the cursor and its present place, an edit's old lines occur nowhere. */
  ghost predicate Unambiguous(text: seq<Line>, cur: nat, actual: nat, script: seq<Edit>)
    decreases |script|
  {
    script == [] ||
    (var e := script[0];
     var at, was := actual + e.skip, Before(e.ops);
     && was != [] && (forall q: nat :: cur <= q < at ==> !BlockAt(text, q, was))
     && Unambiguous(text, at + |was|, at + |was|, script[1..]))
  }

  lemma DriftedHunk(text: seq<Line>, cur: nat, actual: nat, pos: nat, newPos: nat, e: Edit)
    requires cur <= actual && BlockAt(text, actual + e.skip, Before(e.ops)) && Before(e.ops) != []
    requires Preferred(text, RenderOps(e.ops), pos + e.skip, cur, actual + e.skip)
    ensures var at, n := actual + e.skip, |Before(e.ops)|;
            && at + n <= |text|
            && ApplyHunk(text, cur, RenderEdit(pos, newPos, e)) ==
               Ok((text[cur..at] + Rewrite(text[at..at + n], e.ops), at + n))
  {
    hide SameLine, PrintHeader, ParseHeader, ApplyBody, MatchesAt, OldBlock, NewBlock, StrictStart, RelaxedStart;
    hide FirstMatch, Rewrite, RenderOps, Preferred, Before, After;
    var at, n, body := actual + e.skip, |Before(e.ops)|, RenderOps(e.ops);
    BlockBound(text, at, Before(e.ops));
    ParsePrintedHeader(RangeStart(pos + e.skip, n), n, RangeStart(newPos + e.skip, |After(e.ops)|), |After(e.ops)|);
    StrictStartIsPreferred(text, body, pos + e.skip, cur, at);
    RenderedBody(e.ops);
    ApplyBodyIff(text, at, body);
    RenderedNewBlock(text[at..at + n], e.ops);
  }

  /** The hunks rewrite the text where their lines are now. */
  lemma {:induction false} DriftedLands(
      text: seq<Line>, cur: nat, actual: nat, pos: nat, newPos: nat, script: seq<Edit>)
    requires cur <= actual && Fits(text, actual, script) && Refound(text, cur, actual, pos, script)
    ensures actual <= |text|
    ensures ApplyFrom(text, cur, Render(pos, newPos, script)) == Ok(text[cur..actual] + Target(text, actual, script))
    decreases |script|
  {
    hide BlockAt, ApplyHunk, RenderEdit, Rewrite, Preferred, Before, After, RenderOps;
    if script == [] {
      assert text[cur..] == text[cur..actual] + text[actual..];
    } else {
      var e := script[0];
      var at, n := actual + e.skip, |Before(e.ops)|;
      var hunks, rest := Render(pos, newPos, script),
          Render(pos + e.skip + n, newPos + e.skip + |After(e.ops)|, script[1..]);
      DriftedHunk(text, cur, actual, pos, newPos, e);
      DriftedLands(text, at + n, at + n, pos + e.skip + n, newPos + e.skip + |After(e.ops)|, script[1..]);
      assert hunks[0] == RenderEdit(pos, newPos, e) && hunks[1..] == rest;
      JoinGap(text, cur, actual, at, Rewrite(text[at..at + n], e.ops), Target(text, at + n, script[1..]));
      assert text[at + n..at + n] == [];
    }
  }

  lemma JoinGap(text: seq<Line>, cur: nat, actual: nat, at: nat, written: seq<Line>, rest: seq<Line>)
    requires cur <= actual <= at <= |text|
    ensures (text[cur..at] + written) + ([] + rest) == text[cur..actual] + (text[actual..at] + written + rest)
  {
    assert text[cur..at] == text[cur..actual] + text[actual..at];
  }

  lemma FitsUnfold(src: seq<Line>, pos: nat, script: seq<Edit>)
    requires script != []
    ensures var at, was := pos + script[0].skip, Before(script[0].ops);
            Fits(src, pos, script) <==> BlockAt(src, at, was) && Fits(src, at + |was|, script[1..])
  {
    hide BlockAt;
  }

  lemma BlockBelow(prefix: seq<Line>, src: seq<Line>, at: nat, block: seq<Line>)
    requires BlockAt(src, at, block)
    ensures BlockAt(prefix + src, |prefix| + at, block)
  {
    hide SameLine;
  }

  lemma EmptyBelow(prefix: seq<Line>, src: seq<Line>, pos: nat, script: seq<Edit>)
    requires Fits(src, pos, script) && script == []
    ensures Fits(prefix + src, |prefix| + pos, script)
    ensures Target(prefix + src, |prefix| + pos, script) == Target(src, pos, script)
  {
    assert (prefix + src)[|prefix| + pos..] == src[pos..];
  }

  lemma SliceBelow(prefix: seq<Line>, src: seq<Line>, lo: nat, hi: nat)
    requires lo <= hi <= |src|
    ensures (prefix + src)[|prefix| + lo..|prefix| + hi] == src[lo..hi]
  {
  }

  /** Fitting and the target only look at the text from a position on. */
  lemma {:induction false} BelowPrefix(prefix: seq<Line>, src: seq<Line>, pos: nat, script: seq<Edit>)
    requires Fits(src, pos, script)
    ensures Fits(prefix + src, |prefix| + pos, script)
    ensures Target(prefix + src, |prefix| + pos, script) == Target(src, pos, script)
    decreases |script|
  {
    hide Fits, Target, BlockAt, Before, Rewrite;
    if script == [] {
      EmptyBelow(prefix, src, pos, script);
    } else {
      var at, n := pos + script[0].skip, |Before(script[0].ops)|;
      FitsUnfold(src, pos, script);
      BlockBound(src, at, Before(script[0].ops));
      BlockBelow(prefix, src, at, Before(script[0].ops));
      BelowPrefix(prefix, src, at + n, script[1..]);
      FitsUnfold(prefix + src, |prefix| + pos, script);
      TargetUnfolds(src, pos, script);
      TargetUnfolds(prefix + src, |prefix| + pos, script);
      SliceBelow(prefix, src, pos, at);
      SliceBelow(prefix, src, at, at + n);
    }
  }

  /** With lines added above the file, the hunks still give the target below those lines when each is
      found again where its lines are now. */
  lemma AppliesBelowPrefix(prefix: seq<Line>, src: seq<Line>, script: seq<Edit>)
    requires Fits(src, 0, script) && Refound(prefix + src, 0, |prefix|, 0, script)
    ensures Apply(prefix + src, Render(0, 0, script)) == Ok(prefix + Target(src, 0, script))
  {
    BelowPrefix(prefix, src, 0, script);
    DriftedLands(prefix + src, 0, |prefix|, 0, 0, script);
    assert (prefix + src)[0..|prefix|] == prefix;
  }

  lemma FirstPlaceIsPreferred(text: seq<Line>, ops: seq<Op>, nominal: nat, cur: nat, at: nat)
    requires cur <= at && nominal <= at && Before(ops) != [] && BlockAt(text, at, Before(ops))
    requires forall q: nat :: cur <= q < at ==> !BlockAt(text, q, Before(ops))
    ensures Preferred(text, RenderOps(ops), nominal, cur, at)
  {
    hide BlockAt, MatchesAt, OldBlock, Before, RenderOps;
    var body := RenderOps(ops);
    BlockBound(text, at, Before(ops));
    forall q: nat ensures MatchesAt(text, q, body) <==> BlockAt(text, q, Before(ops)) {
      RenderedBody(ops);
      MatchesAtIff(text, q, body);
    }
  }

  lemma {:induction false} UnambiguousIsRefound(text: seq<Line>, cur: nat, actual: nat, pos: nat, script: seq<Edit>)
    requires cur <= actual && pos <= actual && Fits(text, actual, script) && Unambiguous(text, cur, actual, script)
    ensures Refound(text, cur, actual, pos, script)
    decreases |script|
  {
    hide BlockAt, Before, RenderOps, Preferred;
    if script != [] {
      var e := script[0];
      var at, n := actual + e.skip, |Before(e.ops)|;
      FirstPlaceIsPreferred(text, e.ops, pos + e.skip, cur, at);
      UnambiguousIsRefound(text, at + n, at + n, pos + e.skip + n, script[1..]);
    }
  }

  /** However many lines were added above, inside or beyond the search's window: when no hunk's old
      lines occur earlier after the cursor, the patch gives the target below the added lines. */
  lemma AppliesWhenUnambiguous(prefix: seq<Line>, src: seq<Line>, script: seq<Edit>)
    requires Fits(src, 0, script) && Unambiguous(prefix + src, 0, |prefix|, script)
    ensures Apply(prefix + src, Render(0, 0, script)) == Ok(prefix + Target(src, 0, script))
  {
    BelowPrefix(prefix, src, 0, script);
    UnambiguousIsRefound(prefix + src, 0, |prefix|, 0, script);
    AppliesBelowPrefix(prefix, src, script);
  }
}
