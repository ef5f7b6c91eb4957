/** Printing a value as text, loading the text and reading the variables: exactly when the value comes
    back. */
module EnvTextRoundTrip {
  import opened EnvParser
  import opened EnvLocality
  import opened EnvTemplate
  import opened EnvText
  import opened EnvRoundTrip
  import opened EnvLineFeed

  // ---------- the longest string with a line feed ----------

  lemma {:induction false} LongestSplit(strings: set<string>) returns (longest: string)
    requires exists s :: s in strings && !OneLine(s)
    ensures longest in strings && !OneLine(longest)
    ensures forall s :: s in strings && !OneLine(s) ==> |s| <= |longest|
    decreases |strings|
  {
    var one :| one in strings && !OneLine(one);
    longest := one;
    if exists s :: s in strings - {one} && !OneLine(s) {
      var other := LongestSplit(strings - {one});
      longest := if |other| >= |one| then other else one;
    }
  }

  // ---------- what the text of a value sets ----------

  lemma {:induction false} SegmentsShorter(text: string)
    ensures forall line :: line in Segments(text) ==> |line| <= |text|
    decreases |text|
  {
    hide IndexOf;
    var i := IndexOf(text, '\n');
    if i < |text| { SegmentsShorter(text[i + 1..]); }
  }

  lemma {:induction false} LineOfPiece(pieces: Pieces, line: string) returns (i: nat)
    requires line in AllLines(pieces)
    ensures i < |pieces| && line in PieceLines(pieces[i])
  {
    hide PieceLines;
    if line in PieceLines(pieces[0]) {
      i := 0;
    } else {
      i := LineOfPiece(pieces[1..], line);
      i := i + 1;
    }
  }

  lemma {:induction false} NamesAreSet(pieces: Pieces, i: nat)
    requires i < |pieces| && pieces[i].Assign?
    ensures pieces[i].name in Load(pieces)
  {
    if i < |pieces| - 1 { NamesAreSet(pieces[..|pieces| - 1], i); }
  }

  /** A line of a fine piece sets the piece's own variable, or sets something shorter than the string
      it is cut from. */
  lemma LineOfFine(piece: Piece, strings: set<string>, line: string)
    requires Fine(piece, strings) && line in PieceLines(piece) && ParseLine(line).Some?
    ensures piece.Assign?
    ensures ParseLine(line).value.0 == piece.name ||
            (piece.text in strings && !OneLine(piece.text) && |ParseLine(line).value.1| < |piece.text|)
  {
    hide ParseLine, Segments, KeyOk;
    if Whole(piece) {
      WholeParses(piece);
    } else {
      LineOfSplit(piece.name, piece.text, line);
    }
  }

  lemma LineOfSplit(name: string, text: string, line: string)
    requires name != "" && KeyOk(name) && !OneLine(text)
    requires line in Segments(name + "=" + text) && ParseLine(line).Some?
    ensures ParseLine(line).value.0 == name || |ParseLine(line).value.1| < |text|
  {
    hide Segments, Whole, ParseLine, IndexOf;
    var i := IndexOf(text, '\n');
    if i == |text| {
      NulLine(name, text);
    } else {
      var head, rest := text[..i], text[i + 1..];
      var first := name + "=" + head;
      assert text == head + "\n" + rest;
      assert name + "=" + text == first + "\n" + rest;
      FirstSegment(first, rest);
      if line == first {
        HeadWhole(name, head);
        WholeParses(Assign(name, head));
      } else {
        SegmentsShorter(rest);
        ParsedIsShorter(line);
      }
    }
  }

  /** A string without line feed that does not fit holds a NUL, and so does its line. */
  lemma NulLine(name: string, text: string)
    requires KeyOk(name) && !OneLine(text) && '\n' !in text
    ensures var line := name + "=" + text; Segments(line) == [line] && ParseLine(line).None?
  {
    var line := name + "=" + text;
    SegmentsCut(line);
  }

  lemma HeadWhole(name: string, head: string)
    requires name != "" && KeyOk(name) && '\n' !in head && ParseLine(name + "=" + head).Some?
    ensures Whole(Assign(name, head))
  {
  }

  lemma ParsedIsShorter(line: string)
    requires ParseLine(line).Some?
    ensures |ParseLine(line).value.1| <= |line|
  {
    hide IndexOf;
  }

  /** The loaded text is deaf to the longest string with a line feed. */
  lemma TextIsDeaf(w: World, pieces: Pieces, strings: set<string>, s: string)
    requires JsonNeverGrows(w) && AllFine(pieces, strings) && s in strings && !OneLine(s)
    requires forall t :: t in strings && !OneLine(t) ==> |t| <= |s|
    ensures Deaf(w, LoadText(Render(pieces)), Load(pieces), s)
  {
    hide Render, LoadLines, AllLines, Segments, PieceLines, ParseLine, Load, Fine, Occurs, OneLine;
    var env := LoadText(Render(pieces));
    LoadedText(pieces);
    forall k | k in env
      ensures OneLine(env[k])
      ensures k !in Load(pieces) && w.json(env[k]).Some? ==> !Occurs(w.json(env[k]).value, s)
    {
      LoadedOk(Render(pieces), k);
      var line := LoadedFrom(AllLines(pieces), k);
      var i := LineOfPiece(pieces, line);
      LineOfFine(pieces[i], strings, line);
      NamesAreSet(pieces, i);
    }
  }

  // ---------- the whole value contains its strings ----------

  lemma {:induction false} FullHasStrings(w: World, p: Parser, v: Value, s: string)
    requires Guarded(w) && NamesOk(w, p) && Conforms(w, p, v) && s in Strings(v)
    requires forall id :: id in w.heap ==> NamesOk(w, w.heap[id])
    ensures Occurs(Full(w, p, v), s)
    decreases v, Level(w.size, p), p
  {
    hide Guarded, FullFields, FullItems, ApartFields, NoneSafe, NameOk, OneLine;
    match p
    case ModelP(fields) =>
      var i :| 0 <= i < |fields| && s in Strings(v.fields[i]);
      FullHasStrings(w, fields[i].parser, v.fields[i], s);
      FullEntries(w, p, v, 0, Dict(map[]));
      var full := FullFields(w, p, v, 0, Dict(map[]));
      assert Entry(full, fields[i].name, Full(w, fields[i].parser, v.fields[i]));
      assert fields[i].name in full.fields;
    case ListP(item) =>
      var i :| 0 <= i < |v.items| && s in Strings(v.items[i]);
      FullHasStrings(w, item, v.items[i], s);
      FullItemAt(w, p, v, 0, i);
    case UnionP(alternatives, _) =>
      assert Present(p) in alternatives;
      FullHasStrings(w, Present(p), v, s);
    case DelayedP(target) =>
      DelayedLevel(w, target);
      FullHasStrings(w, w.heap[target], v, s);
    case _ =>
  }

  lemma {:induction false} FullItemAt(w: World, p: Parser, v: Value, from: nat, i: nat)
    requires Guarded(w) && Conforms(w, p, v) && p.ListP? && from <= i < |v.items|
    ensures FullItems(w, p, v, from)[i - from] == Full(w, p.item, v.items[i])
    decreases |v.items| - from
  {
    hide Guarded, Full;
    if from < i { FullItemAt(w, p, v, from + 1, i); }
  }

  // ---------- what is lost ----------

  /** A value with a string that no line or no variable can hold is not read back, whatever its lines
      happen to set. */
  lemma UnfitStringLost(w: World, p: Parser, key: string, v: Value)
    requires Plain(w) && NamesOk(w, p) && Conforms(w, p, v) && KeyFits(key, v) && JsonNeverGrows(w) && !StringsFit(v)
    ensures FromEnv(w, LoadText(Render(Printed(w, p, key, v))), p, key) != Ok(Full(w, p, v))
  {
    hide Guarded, Closed, FromEnv, Printed, Load, LoadText, Render, Full, Fine, KeyOk, OneLine, Occurs;
    hide Conforms, NamesOk, JsonNeverGrows, Deaf, Strings;
    var s := LongestSplit(Strings(v));
    var pieces := Printed(w, p, key, v);
    PrintedFine(w, p, key, v, Strings(v));
    TextIsDeaf(w, pieces, Strings(v), s);
    assert Reads(Load(pieces), key, pieces);
    NeverRead(w, LoadText(Render(pieces)), Load(pieces), p, key, s);
    FullHasStrings(w, p, v, s);
  }

  lemma BadKeyLost(w: World, p: Parser, key: string, v: Value)
    requires Plain(w) && Resolved(w.heap, p) && Conforms(w, p, v) && !KeyOk(key)
    ensures FromEnv(w, LoadText(Render(Printed(w, p, key, v))), p, key) != Ok(Full(w, p, v))
  {
    hide Guarded, Closed, FromEnv, Printed, LoadText, Render, Full, KeyOk, Conforms, NoVars;
    BadKeyLoadsNothing(Render(Printed(w, p, key, v)), key);
    MissingWithoutVars(w, LoadText(Render(Printed(w, p, key, v))), p, key);
  }

  lemma {:induction false} NoRootLeaf(w: World, env: Env, p: Parser, v: Value)
    requires Guarded(w) && Conforms(w, p, v) && (v.BoolV? || v.IntV? || v.StrV?) && "" !in env
    ensures FromEnv(w, env, p, "") != Ok(LeafJson(v)) && Full(w, p, v) == LeafJson(v)
    ensures FromEnv(w, env, p, "") in {Raised, Ok(Missing), Ok(Null)}
    decreases Level(w.size, p), p
  {
    hide Guarded, IsTrue, ParseInt, Merge;
    match p
    case UnionP(_, _) =>
      NoRootLeaf(w, env, Present(p), v);
      var a, b := FromEnv(w, env, p.alternatives[0], ""), FromEnv(w, env, p.alternatives[1], "");
      BothNothing(a, b);
      UnionOfTwo(w, env, p, "");
    case DelayedP(target) =>
      DelayedLevel(w, target);
      NoRootLeaf(w, env, w.heap[target], v);
    case _ =>
  }

  /** Reading two alternatives and merging them. */
  lemma UnionOfTwo(w: World, env: Env, p: Parser, key: string)
    requires Guarded(w) && IsOptional(p)
    ensures var a, b := FromEnv(w, env, p.alternatives[0], key), FromEnv(w, env, p.alternatives[1], key);
            FromEnv(w, env, p, key) == if a.Raised? || b.Raised? then Raised else Merge(a.value, b.value)
  {
    hide Guarded, Merge;
    var a, b := FromEnv(w, env, p.alternatives[0], key), FromEnv(w, env, p.alternatives[1], key);
    assert FromEnv(w, env, p, key) == AlternativesFrom(w, env, p, key, 0, Missing);
    if a.Ok? {
      MergeMissing(a.value);
      assert AlternativesFrom(w, env, p, key, 0, Missing) == AlternativesFrom(w, env, p, key, 1, a.value);
      if b.Ok? && Merge(a.value, b.value).Ok? {
        assert AlternativesFrom(w, env, p, key, 2, Merge(a.value, b.value).value) == Merge(a.value, b.value);
      }
    }
  }

  lemma MergeMissing(a: Json)
    ensures Merge(Missing, a) == Ok(a)
  {
  }

  lemma BothNothing(a: Outcome, b: Outcome)
    requires a in {Raised, Ok(Missing), Ok(Null)} && b in {Raised, Ok(Missing), Ok(Null)}
    ensures a.Ok? && b.Ok? ==> Merge(a.value, b.value) in {Ok(Missing), Ok(Null)}
  {
  }

  /** A value that is one variable cannot be stored under the empty name. */
  lemma EmptyNameLost(w: World, p: Parser, v: Value)
    requires Guarded(w) && Conforms(w, p, v) && (v.BoolV? || v.IntV? || v.StrV?)
    ensures FromEnv(w, LoadText(Render(Printed(w, p, "", v))), p, "") != Ok(Full(w, p, v))
  {
    hide Guarded, FromEnv, Printed, LoadText, Render, Full, Conforms;
    NoEmptyName(Render(Printed(w, p, "", v)));
    NoRootLeaf(w, LoadText(Render(Printed(w, p, "", v))), p, v);
  }

  lemma NoEmptyName(text: string)
    ensures "" !in LoadText(text)
  {
    hide LoadLines, Segments, IndexOf;
    if "" in LoadText(text) { var line := LoadedFrom(Segments(text), ""); }
  }

  // ---------- the main results ----------

  /** The value prints without an exception, and reading the loaded text gives all of it. */
  ghost predicate RoundTrips(w: World, p: Parser, key: string, v: Value)
    requires Guarded(w) && Conforms(w, p, v)
  {
    Printable(w, p, v) && FromEnv(w, LoadText(Render(Printed(w, p, key, v))), p, key) == Ok(Full(w, p, v))
  }

  /** `from_env` undoes `to_env` iff no union the value reaches has a subscripted alternative, no list
      in it is empty, no model in it lacks fields, no string in it holds a line feed or a NUL, and the
      key can name its variables. */
  lemma RoundTripIff(w: World, p: Parser, key: string, v: Value)
    requires Plain(w) && Resolved(w.heap, p) && NamesOk(w, p) && Conforms(w, p, v) && JsonNeverGrows(w)
    ensures RoundTrips(w, p, key, v) <==> Printable(w, p, v) && Solid(v) && StringsFit(v) && KeyFits(key, v)
  {
    hide Guarded, Closed, FromEnv, Printed, Load, LoadText, Render, Full, Printable, Solid, KeyOk, Conforms, NamesOk;
    hide Strings, OneLine, JsonNeverGrows;
    if !KeyOk(key) {
      BadKeyLost(w, p, key, v);
    } else if !KeyFits(key, v) {
      EmptyNameLost(w, p, v);
    } else if !StringsFit(v) {
      UnfitStringLost(w, p, key, v);
    } else {
      TextLoads(w, p, key, v);
      VariablesRoundTripIff(w, p, key, v);
    }
  }

  /** Other variables, however many, do not disturb the round trip as long as none lies under the key. */
  lemma RoundTripAmongOthers(w: World, p: Parser, key: string, v: Value, others: Env)
    requires Plain(w) && Resolved(w.heap, p) && NamesOk(w, p) && Conforms(w, p, v) && JsonNeverGrows(w)
    requires RoundTrips(w, p, key, v) && NoVars(others, key)
    ensures FromEnv(w, others + LoadText(Render(Printed(w, p, key, v))), p, key) == Ok(Full(w, p, v))
  {
    hide Guarded, Closed, FromEnv, Printed, Load, LoadText, Render, Full, KeyOk, Conforms, NamesOk, JsonNeverGrows;
    hide Strings, OneLine, Solid, Printable;
    RoundTripIff(w, p, key, v);
    TextLoads(w, p, key, v);
    var own := LoadText(Render(Printed(w, p, key, v)));
    assert Agree(others + own, own, key);
    FromEnvLocal(w, others + own, own, p, key);
  }

  /** The whole template, printed into a stream of its own. */
  method PrintTemplate(w: World, p: Parser, key: string, v: Value) returns (ok: bool, text: string)
    requires Guarded(w) && Conforms(w, p, v)
    ensures ok == Printable(w, p, v)
    ensures ok ==> text == Render(Printed(w, p, key, v))
  {
    hide Render, Printed, Printable, Guarded, Conforms;
    var template := new Template();
    ok := template.ToEnv(w, p, key, v);
    text := template.output;
  }
}
