/** What hunk application means: the staged search refines a strict one, and a successful
    application splices replacement blocks between untouched gaps. */
module PatchTheorems {
  import opened Text
  import opened PatchApply

  // ---------- one body ----------

  /** The text a hunk puts in place of `was`: context keeps the source's own lines. */
  function NewBlock(was: seq<Line>, body: seq<Line>): seq<Line>
    requires |was| == |OldBlock(body)|
    decreases |body|
  {
    if body == [] then []
    else if ConsumesOld(body[0]) then
      (if body[0][0] == ' ' then [was[0]] else []) + NewBlock(was[1..], body[1..])
    else
      (if body[0] != "" && body[0][0] == '+' then [body[0][1..]] else []) + NewBlock(was, body[1..])
  }

  function Added(body: seq<Line>): nat { |LinesTagged(body, '+')| }

  function Removed(body: seq<Line>): nat { |LinesTagged(body, '-')| }

  lemma {:induction false} NewBlockLength(was: seq<Line>, body: seq<Line>)
    requires |was| == |OldBlock(body)|
    ensures |NewBlock(was, body)| == |was| + Added(body) - Removed(body)
    decreases |body|
  {
    if body != [] {
      if ConsumesOld(body[0]) {
        assert OldBlock(body) == [body[0][1..]] + OldBlock(body[1..]);
        NewBlockLength(was[1..], body[1..]);
      } else {
        assert OldBlock(body) == OldBlock(body[1..]);
        NewBlockLength(was, body[1..]);
      }
    }
  }

  /** Processing a body at the cursor succeeds iff it matches there, and yields the new block. */
  lemma {:induction false} ApplyBodyIff(src: seq<Line>, cur: nat, body: seq<Line>)
    requires cur <= |src|
    ensures ApplyBody(src, cur, body).Ok? <==> MatchesAt(src, cur, body)
    ensures MatchesAt(src, cur, body) ==>
              && cur + |OldBlock(body)| <= |src|
              && ApplyBody(src, cur, body).value ==
                 (NewBlock(src[cur..cur + |OldBlock(body)|], body), cur + |OldBlock(body)|)
    decreases |body|
  {
    hide Norm;
    if body != [] {
      if ConsumesOld(body[0]) {
        assert OldBlock(body) == [body[0][1..]] + OldBlock(body[1..]);
        if LineMatches(src, cur, body[0][1..]) {
          ApplyBodyIff(src, cur + 1, body[1..]);
          if MatchesAt(src, cur, body) {
            var n := |OldBlock(body)|;
            var was := src[cur..cur + n];
            assert was[1..] == src[cur + 1..cur + n];
            assert [] + NewBlock(was[1..], body[1..]) == NewBlock(was[1..], body[1..]);
          }
        }
      } else if AddsOnly(body[0]) {
        assert OldBlock(body) == OldBlock(body[1..]);
        ApplyBodyIff(src, cur, body[1..]);
        var was := src[cur..cur + if MatchesAt(src, cur, body) then |OldBlock(body)| else 0];
        if |was| == |OldBlock(body)| { assert [] + NewBlock(was, body[1..]) == NewBlock(was, body[1..]); }
      }
    }
  }

  // ---------- the search ----------

  ghost predicate MatchExists(src: seq<Line>, body: seq<Line>, cur: nat)
  {
    exists p: nat :: cur <= p <= |src| && MatchesAt(src, p, body)
  }

  /** A body that touches no old line matches everywhere or nowhere; any other only inside the source. */
  lemma MatchBeyondEnd(src: seq<Line>, body: seq<Line>, p: nat)
    requires MatchesAt(src, p, body) && p > |src|
    ensures OldBlock(body) == [] && forall q: nat :: MatchesAt(src, q, body)
  {
    hide Norm, MatchesAt;
    MatchesAtIff(src, p, body);
    forall q: nat ensures MatchesAt(src, q, body) { MatchesAtIff(src, q, body); }
  }

  lemma StrictStartIff(src: seq<Line>, body: seq<Line>, nominal: int, cur: nat)
    requires cur <= |src|
    ensures StrictStart(src, body, nominal, cur).Some? <==> MatchExists(src, body, cur)
  {
    hide Norm, MatchesAt;
    var e := Expected(nominal, cur);
    if MatchesAt(src, e, body) && e > |src| {
      MatchBeyondEnd(src, body, e);
      assert MatchesAt(src, cur, body);
    }
  }

  ghost predicate IsFirstMatch(src: seq<Line>, body: seq<Line>, lo: nat, hi: int, p: nat)
  {
    lo <= p <= hi && MatchesAt(src, p, body) && forall i: nat :: lo <= i < p ==> !MatchesAt(src, i, body)
  }

  ghost predicate MatchWithin(src: seq<Line>, body: seq<Line>, lo: nat, hi: int)
  {
    exists i: nat :: lo <= i <= hi && MatchesAt(src, i, body)
  }

  /** Declarative form of the search's preferences: the nominal position, else the lowest match
      within 120 lines of it, else the lowest match from the cursor on. */
  ghost predicate Preferred(src: seq<Line>, body: seq<Line>, nominal: int, cur: nat, p: nat)
  {
    var e := Expected(nominal, cur);
    var lo, hi := Max(cur, e - 120), Min(|src|, e + 120);
    && MatchesAt(src, p, body)
    && (MatchesAt(src, e, body) ==> p == e)
    && (!MatchesAt(src, e, body) && MatchWithin(src, body, lo, hi) ==> IsFirstMatch(src, body, lo, hi, p))
    && (!MatchesAt(src, e, body) && !MatchWithin(src, body, lo, hi) ==> IsFirstMatch(src, body, cur, |src|, p))
  }

  /** The position of a strict match is determined by the preferences alone. */
  lemma StrictStartIsPreferred(src: seq<Line>, body: seq<Line>, nominal: int, cur: nat, p: nat)
    requires cur <= |src|
    ensures StrictStart(src, body, nominal, cur) == Some(p) <==> Preferred(src, body, nominal, cur, p)
    ensures Preferred(src, body, nominal, cur, p) ==> MatchesAt(src, p, body)
  {
    hide Norm, MatchesAt;
    var e := Expected(nominal, cur);
    if !MatchesAt(src, e, body) {
      var lo: nat, hi: int := Max(cur, e as int - 120), Min(|src|, e + 120);
      FirstMatchIff(src, body, lo, hi, p);
      FirstMatchIff(src, body, cur, |src|, p);
    }
  }

  lemma FirstMatchIff(src: seq<Line>, body: seq<Line>, lo: nat, hi: int, p: nat)
    ensures FirstMatch(src, body, lo, hi).Some? <==> MatchWithin(src, body, lo, hi)
    ensures FirstMatch(src, body, lo, hi) == Some(p) <==> IsFirstMatch(src, body, lo, hi, p)
  {
    hide MatchesAt, FirstMatch;
    match FirstMatch(src, body, lo, hi)
    case None =>
    case Some(v) =>
      assert lo <= v <= hi && MatchesAt(src, v, body);
      if IsFirstMatch(src, body, lo, hi, p) {
        assert MatchesAt(src, p, body);
        assert v == p;
      }
  }

  /** A position found only by a relaxed fallback is always rejected when the body is applied. */
  lemma RelaxedNeverSucceeds(src: seq<Line>, body: seq<Line>, nominal: int, cur: nat)
    requires cur <= |src| && StrictStart(src, body, nominal, cur).None?
    ensures RelaxedStart(src, body, nominal, cur).Some? ==>
              ApplyBody(src, Min(RelaxedStart(src, body, nominal, cur).value, |src|), body).Err?
  {
    hide Norm, MatchesAt, ApplyBody;
    var relaxed := RelaxedStart(src, body, nominal, cur);
    if relaxed.Some? {
      var at := Min(relaxed.value, |src|);
      ApplyBodyIff(src, at, body);
      assert !MatchesAt(src, at, body);
    }
  }

  /** The hunk found its old block at `at`, up to drift, and replaced exactly that block. */
  ghost predicate SplicesAt(src: seq<Line>, cur: nat, hunk: Hunk, at: nat)
    requires cur <= |src|
  {
    var n := |OldBlock(hunk.body)|;
    && cur <= at
    && BlockAt(src, at, OldBlock(hunk.body))
    && ApplyHunk(src, cur, hunk) == Ok((src[cur..at] + NewBlock(src[at..at + n], hunk.body), at + n))
  }

  lemma HunkPlacement(src: seq<Line>, cur: nat, hunk: Hunk, nominal: int, p: nat)
    requires cur <= |src| && ParseHeader(hunk.header).Some?
    requires nominal == ParseHeader(hunk.header).value.oldStart - 1
    requires StrictStart(src, hunk.body, nominal, cur) == Some(p)
    ensures SplicesAt(src, cur, hunk, Min(p, |src|))
  {
    hide Norm, MatchesAt, ApplyBody, ParseHeader, NewBlock, OldBlock, StrictStart, RelaxedStart, BlockAt;
    var at := Min(p, |src|);
    StrictStartMatches(src, hunk.body, nominal, cur, p);
    MatchesAtIff(src, at, hunk.body);
    ApplyBodyIff(src, at, hunk.body);
    if OldBlock(hunk.body) == [] { EmptyBlockAt(src, at); }
  }

  lemma EmptyBlockAt(src: seq<Line>, at: nat)
    requires at <= |src|
    ensures BlockAt(src, at, [])
  {
  }

  lemma StrictStartMatches(src: seq<Line>, body: seq<Line>, nominal: int, cur: nat, p: nat)
    requires cur <= |src| && StrictStart(src, body, nominal, cur) == Some(p)
    ensures cur <= p && MatchesAt(src, Min(p, |src|), body)
  {
    hide Norm, MatchesAt;
    if p > |src| { MatchBeyondEnd(src, body, p); }
  }

  /** A hunk applies iff its header parses and its text occurs at or after the cursor; it then
      replaces that occurrence at the preferred position. */
  lemma ApplyHunkIff(src: seq<Line>, cur: nat, hunk: Hunk)
    requires cur <= |src|
    ensures ApplyHunk(src, cur, hunk).Ok? <==>
              ParseHeader(hunk.header).Some? && MatchExists(src, hunk.body, cur)
    ensures ApplyHunk(src, cur, hunk).Ok? ==>
              exists p: nat ::
                && Preferred(src, hunk.body, ParseHeader(hunk.header).value.oldStart - 1, cur, p)
                && SplicesAt(src, cur, hunk, Min(p, |src|))
  {
    hide Norm, MatchesAt, ApplyBody, ParseHeader, NewBlock, OldBlock, Preferred, StrictStart, RelaxedStart, SplicesAt;
    var header, body := ParseHeader(hunk.header), hunk.body;
    if header.Some? {
      var nominal := header.value.oldStart - 1;
      var strict := StrictStart(src, body, nominal, cur);
      StrictStartIff(src, body, nominal, cur);
      if strict.Some? {
        StrictStartIsPreferred(src, body, nominal, cur, strict.value);
        HunkPlacement(src, cur, hunk, nominal, strict.value);
        SplicesAtOk(src, cur, hunk, Min(strict.value, |src|));
      } else {
        RelaxedNeverSucceeds(src, body, nominal, cur);
      }
    }
  }

  lemma SplicesAtOk(src: seq<Line>, cur: nat, hunk: Hunk, at: nat)
    requires cur <= |src| && SplicesAt(src, cur, hunk, at)
    ensures var n := |OldBlock(hunk.body)|;
            && cur <= at && at + n <= |src|
            && BlockAt(src, at, OldBlock(hunk.body))
            && ApplyHunk(src, cur, hunk) == Ok((src[cur..at] + NewBlock(src[at..at + n], hunk.body), at + n))
  {
    hide ApplyHunk, NewBlock, OldBlock, SameLine;
  }

  // ---------- the whole file ----------

  /** `starts` places every hunk, in order and without overlap, on text it matches. */
  ghost predicate Placed(src: seq<Line>, cur: nat, hunks: seq<Hunk>, starts: seq<nat>)
    decreases |hunks|
  {
    && |starts| == |hunks|
    && (hunks == [] ==> cur <= |src|)
    && (hunks != [] ==>
          var was := OldBlock(hunks[0].body);
          && cur <= starts[0]
          && BlockAt(src, starts[0], was)
          && Placed(src, starts[0] + |was|, hunks[1..], starts[1..]))
  }

  /** Gap, new block, gap, ..., last gap. */
  ghost function Spliced(src: seq<Line>, cur: nat, hunks: seq<Hunk>, starts: seq<nat>): seq<Line>
    requires Placed(src, cur, hunks, starts)
    decreases |hunks|
  {
    if hunks == [] then src[cur..]
    else
      var s, n := starts[0], |OldBlock(hunks[0].body)|;
      src[cur..s] + NewBlock(src[s..s + n], hunks[0].body) + Spliced(src, s + n, hunks[1..], starts[1..])
  }

  /** A successful application splices the new blocks into the untouched gaps of the source. */
  lemma {:induction false} AppliedIsSpliced(src: seq<Line>, cur: nat, hunks: seq<Hunk>) returns (starts: seq<nat>)
    requires cur <= |src| && ApplyFrom(src, cur, hunks).Ok?
    ensures Placed(src, cur, hunks, starts)
    ensures ApplyFrom(src, cur, hunks).value == Spliced(src, cur, hunks, starts)
    decreases |hunks|
  {
    hide BlockAt, MatchesAt, ApplyHunk, NewBlock, OldBlock, Preferred, SplicesAt;
    starts := [];
    if hunks != [] {
      ApplyHunkIff(src, cur, hunks[0]);
      var p: nat :| SplicesAt(src, cur, hunks[0], Min(p, |src|));
      var at := Min(p, |src|);
      SplicesAtOk(src, cur, hunks[0], at);
      var rest := AppliedIsSpliced(src, at + |OldBlock(hunks[0].body)|, hunks[1..]);
      starts := [at] + rest;
      assert starts[1..] == rest;
    }
  }

  function TotalAdded(hunks: seq<Hunk>): nat
  {
    if hunks == [] then 0 else Added(hunks[0].body) + TotalAdded(hunks[1..])
  }

  function TotalRemoved(hunks: seq<Hunk>): nat
  {
    if hunks == [] then 0 else Removed(hunks[0].body) + TotalRemoved(hunks[1..])
  }

  lemma {:induction false} SplicedLength(src: seq<Line>, cur: nat, hunks: seq<Hunk>, starts: seq<nat>)
    requires Placed(src, cur, hunks, starts)
    ensures cur <= |src|
    ensures |Spliced(src, cur, hunks, starts)| == |src| - cur + TotalAdded(hunks) - TotalRemoved(hunks)
    decreases |hunks|
  {
    hide Norm, SameLine, NewBlock, OldBlock;
    if hunks != [] {
      var s, n := starts[0], |OldBlock(hunks[0].body)|;
      SplicedLength(src, s + n, hunks[1..], starts[1..]);
      NewBlockLength(src[s..s + n], hunks[0].body);
    }
  }

  /** Output length = source length + added lines - removed lines. */
  lemma AppliedLength(src: seq<Line>, hunks: seq<Hunk>)
    requires Apply(src, hunks).Ok?
    ensures |Apply(src, hunks).value| == |src| + TotalAdded(hunks) - TotalRemoved(hunks)
  {
    hide Norm, ApplyHunk;
    var starts := AppliedIsSpliced(src, 0, hunks);
    SplicedLength(src, 0, hunks, starts);
  }

  /** Success of the whole application, told through the strict search only. */
  ghost predicate Applicable(src: seq<Line>, cur: nat, hunks: seq<Hunk>)
    decreases |hunks|
  {
    hunks == [] ||
    (var header, body := ParseHeader(hunks[0].header), hunks[0].body;
     && header.Some?
     && exists p: nat ::
          && Preferred(src, body, header.value.oldStart - 1, cur, p)
          && Min(p, |src|) + |OldBlock(body)| <= |src|
          && Applicable(src, Min(p, |src|) + |OldBlock(body)|, hunks[1..]))
  }

  lemma {:induction false} AppliesIff(src: seq<Line>, cur: nat, hunks: seq<Hunk>)
    requires cur <= |src|
    ensures ApplyFrom(src, cur, hunks).Ok? <==> Applicable(src, cur, hunks)
    decreases |hunks|
  {
    hide Norm, MatchesAt, ApplyHunk, ParseHeader, NewBlock, OldBlock, Preferred;
    if hunks != [] {
      var header, body := ParseHeader(hunks[0].header), hunks[0].body;
      var n := |OldBlock(body)|;
      ApplyHunkIff(src, cur, hunks[0]);
      if header.Some? {
        var nominal := header.value.oldStart - 1;
        forall p: nat, q: nat | Preferred(src, body, nominal, cur, p) && Preferred(src, body, nominal, cur, q)
          ensures p == q
        {
          StrictStartIsPreferred(src, body, nominal, cur, p);
          StrictStartIsPreferred(src, body, nominal, cur, q);
        }
        if ApplyHunk(src, cur, hunks[0]).Ok? {
          AppliesIff(src, ApplyHunk(src, cur, hunks[0]).value.1, hunks[1..]);
        } else if exists p: nat :: Preferred(src, body, nominal, cur, p) {
          var p: nat :| Preferred(src, body, nominal, cur, p);
          StrictStartIsPreferred(src, body, nominal, cur, p);
          StrictStartIff(src, body, nominal, cur);
        }
      }
    }
  }
}
