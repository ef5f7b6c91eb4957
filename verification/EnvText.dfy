/** The template as text: what a line-by-line loader makes of it, and when that is what was meant. */
module EnvText {
  import opened Text
  import opened EnvParser
  import opened EnvLocality
  import opened EnvTemplate

  // ---------- the loader ----------

  /** Where `c` first occurs, or the length. */
  function IndexOf(s: string, c: char): (i: nat)
    ensures i <= |s| && c !in s[..i] && (i < |s| ==> s[i] == c)
    ensures i == |s| <==> c !in s
  {
    if s == "" || s[0] == c then 0
    else
      assert s == [s[0]] + s[1..];
      1 + IndexOf(s[1..], c)
  }

  /** `text.split("\n")` */
  function Segments(text: string): (lines: seq<string>)
    ensures lines != []
    decreases |text|
  {
    var i := IndexOf(text, '\n');
    if i == |text| then [text] else [text[..i]] + Segments(text[i + 1..])
  }

  /** A line sets a variable if it is no comment and has an equals sign, the first of which counts. No
      variable can have an empty name or hold a NUL. */
  function ParseLine(line: string): Option<(string, string)>
  {
    var i := IndexOf(line, '=');
    if i == |line| || i == 0 || line[0] == '#' || '\0' in line then None else Some((line[..i], line[i + 1..]))
  }

  /** Later lines win. */
  function LoadLines(lines: seq<string>): Env
  {
    if lines == [] then map[]
    else
      match ParseLine(lines[|lines| - 1])
      case None => LoadLines(lines[..|lines| - 1])
      case Some((name, text)) => LoadLines(lines[..|lines| - 1])[name := text]
  }

  function LoadText(text: string): Env { LoadLines(Segments(text)) }

  // ---------- lines of a template ----------

  lemma IndexIs(s: string, c: char, i: nat)
    requires i <= |s| && c !in s[..i] && (i < |s| ==> s[i] == c)
    ensures IndexOf(s, c) == i
  {
  }

  lemma SegmentsCut(a: string)
    ensures var i := IndexOf(a, '\n');
            Segments(a) == if i == |a| then [a] else [a[..i]] + Segments(a[i + 1..])
  {
    hide IndexOf;
  }

  lemma FirstSegment(line: string, rest: string)
    requires '\n' !in line
    ensures Segments(line + "\n" + rest) == [line] + Segments(rest)
  {
    hide Segments;
    var all := line + "\n" + rest;
    assert all[..|line|] == line && all[|line|] == '\n' && all[|line| + 1..] == rest;
    IndexIs(all, '\n', |line|);
    SegmentsCut(all);
  }

  lemma {:induction false} SegmentsJoin(a: string, b: string)
    ensures Segments(a + "\n" + b) == Segments(a) + Segments(b)
    decreases |a|
  {
    hide Segments, IndexOf;
    var i := IndexOf(a, '\n');
    SegmentsCut(a);
    if i == |a| {
      FirstSegment(a, b);
    } else {
      var line, rest := a[..i], a[i + 1..];
      assert a == line + "\n" + rest;
      assert a + "\n" + b == line + "\n" + (rest + "\n" + b);
      FirstSegment(line, rest + "\n" + b);
      SegmentsJoin(rest, b);
      assert [line] + (Segments(rest) + Segments(b)) == ([line] + Segments(rest)) + Segments(b);
    }
  }

  function PieceLines(piece: Piece): seq<string> { Segments(PieceBody(piece)) }

  function AllLines(pieces: Pieces): seq<string>
  {
    if pieces == [] then [] else PieceLines(pieces[0]) + AllLines(pieces[1..])
  }

  lemma {:induction false} RenderedLines(pieces: Pieces)
    ensures Segments(Render(pieces)) == AllLines(pieces) + [""]
  {
    hide Segments, PieceBody;
    if pieces == [] {
      SegmentsCut("");
    } else {
      RenderedLines(pieces[1..]);
      SegmentsJoin(PieceBody(pieces[0]), Render(pieces[1..]));
      assert PieceLines(pieces[0]) + (AllLines(pieces[1..]) + [""]) == AllLines(pieces) + [""];
    }
  }

  lemma LoadLinesSnoc(lines: seq<string>, line: string)
    ensures LoadLines(lines + [line]) ==
            match ParseLine(line) case None => LoadLines(lines) case Some((k, x)) => LoadLines(lines)[k := x]
  {
    assert (lines + [line])[..|lines|] == lines;
  }

  lemma LoadedText(pieces: Pieces)
    ensures LoadText(Render(pieces)) == LoadLines(AllLines(pieces))
  {
    hide LoadLines, Segments, Render, AllLines;
    RenderedLines(pieces);
    LoadLinesSnoc(AllLines(pieces), "");
  }

  lemma {:induction false} AllLinesAppend(a: Pieces, b: Pieces)
    ensures AllLines(a + b) == AllLines(a) + AllLines(b)
  {
    hide PieceLines;
    if a == [] {
      assert a + b == b;
    } else {
      assert (a + b)[1..] == a[1..] + b;
      AllLinesAppend(a[1..], b);
    }
  }

  // ---------- pieces that stay whole ----------

  /** A prefix under which a line of text can set variables. */
  predicate KeyOk(key: string) { NameOk(key) && (key == "" || key[0] != '#') }

  /** The same, and where the value itself is one variable, the prefix is that variable's name. */
  predicate KeyFits(key: string, v: Value) { KeyOk(key) && (key == "" ==> !v.BoolV? && !v.IntV? && !v.StrV?) }

  /** The piece is one line, and reads as what it was meant to be. */
  predicate Whole(piece: Piece)
  {
    match piece
    case Assign(name, text) => name != "" && KeyOk(name) && OneLine(text)
    case Note(text) => OneLine(text) && text != "" && text[0] == '#'
  }

  lemma OneSegment(s: string)
    requires OneLine(s)
    ensures Segments(s) == [s]
  {
    assert IndexOf(s, '\n') == |s|;
  }

  lemma WholeParses(piece: Piece)
    requires Whole(piece)
    ensures PieceLines(piece) == [PieceBody(piece)]
    ensures ParseLine(PieceBody(piece)) == if piece.Assign? then Some((piece.name, piece.text)) else None
  {
    hide Segments;
    var body := PieceBody(piece);
    OneSegment(body);
    match piece
    case Assign(name, text) =>
      assert body[..|name|] == name && body[|name| + 1..] == text;
      IndexIs(body, '=', |name|);
    case Note(_) =>
  }

  lemma {:induction false} WholeLoads(pieces: Pieces)
    requires forall i :: 0 <= i < |pieces| ==> Whole(pieces[i])
    ensures LoadLines(AllLines(pieces)) == Load(pieces)
    decreases |pieces|
  {
    hide Whole, PieceLines, ParseLine, PieceBody;
    if pieces != [] {
      var init, last := pieces[..|pieces| - 1], pieces[|pieces| - 1];
      assert pieces == init + [last];
      WholeLoads(init);
      WholeParses(last);
      AllLinesAppend(init, [last]);
      assert [last][1..] == [] && AllLines([last]) == [PieceBody(last)];
      LoadLinesSnoc(AllLines(init), PieceBody(last));
    }
  }

  // ---------- which values print whole ----------

  /** The strings in a value. */
  function Strings(v: Value): set<string>
  {
    match v
    case StrV(s) => {s}
    case ModelV(fields) => set i, s | 0 <= i < |fields| && s in Strings(fields[i]) :: s
    case ListV(items) => set i, s | 0 <= i < |items| && s in Strings(items[i]) :: s
    case _ => {}
  }

  /** Every string in the value is one line that a variable can hold: no line feed, no NUL. */
  predicate StringsFit(v: Value) { forall s :: s in Strings(v) ==> OneLine(s) }

  lemma {:induction false} UpperKeeps(s: string)
    requires NameOk(s)
    ensures NameOk(Upper(s))
  {
    if s != "" {
      assert s[0] in s && forall c :: c in s[1..] ==> c in s;
      UpperKeeps(s[1..]);
      assert UpperChar(s[0]) != '=' && UpperChar(s[0]) != '\n' && UpperChar(s[0]) != '\0';
    }
  }

  lemma DigitsOneLine(d: string)
    requires AllDigits(d)
    ensures NameOk(d) && OneLine("-" + d)
  {
  }

  lemma KeyExtends(key: string, suffix: string)
    requires KeyOk(key) && NameOk(suffix)
    ensures KeyOk(key + "_" + suffix)
  {
  }

  lemma FieldKeyOk(key: string, field: Field)
    requires KeyOk(key) && NameOk(field.name)
    ensures KeyOk(FieldKey(key, field)) && FieldKey(key, field) != ""
  {
    hide NameOk;
    UpperKeeps(field.name);
    KeyExtends(key, Upper(field.name));
  }

  lemma ItemKeyOk(key: string, index: nat)
    requires KeyOk(key)
    ensures KeyOk(ItemKey(key, index)) && ItemKey(key, index) != ""
  {
    DigitsOneLine(Dec(index));
    KeyExtends(key, Dec(index));
  }

  lemma MarkerKeyOk(key: string)
    requires KeyOk(key)
    ensures KeyOk(key + "_IS_NONE")
  {
    IsNoneKey(key);
    KeyExtends(key, "IS_NONE");
  }

  lemma LeafOneLine(v: Value)
    requires v.BoolV? || v.IntV? || v.StrV?
    ensures OneLine(LeafText(v)) || LeafText(v) in Strings(v)
  {
    if v.IntV? { DigitsOneLine(Dec(if v.n < 0 then -v.n else v.n)); }
  }

  lemma {:induction false} JoinedOneLine(values: seq<string>)
    requires forall i :: 0 <= i < |values| ==> OneLine(values[i])
    ensures OneLine(Joined(values))
  {
    if |values| > 1 { JoinedOneLine(values[1..]); }
  }

  lemma PermittedWhole(values: seq<string>)
    requires forall i :: 0 <= i < |values| ==> OneLine(values[i])
    ensures Whole(PermittedNote(values))
  {
    JoinedOneLine(values);
  }

  /** The piece is whole, but for its text being one of `strings`. */
  predicate Fine(piece: Piece, strings: set<string>)
  {
    match piece
    case Assign(name, text) => name != "" && KeyOk(name) && (OneLine(text) || text in strings)
    case Note(_) => Whole(piece)
  }

  predicate AllFine(pieces: Pieces, strings: set<string>) { forall i :: 0 <= i < |pieces| ==> Fine(pieces[i], strings) }

  lemma {:induction false} PrintedFine(w: World, p: Parser, key: string, v: Value, strings: set<string>)
    requires Guarded(w) && NamesOk(w, p) && Conforms(w, p, v) && KeyFits(key, v) && Strings(v) <= strings
    requires forall id :: id in w.heap ==> NamesOk(w, w.heap[id])
    ensures AllFine(Printed(w, p, key, v), strings)
    decreases v, Level(w.size, p), p
  {
    hide Guarded, ApartFields, LeafText, PermittedNote, KeyOk, OneLine, NoneSafe, PrintedFields, PrintedItems;
    match p
    case ModelP(_) => FieldsFine(w, p, key, v, 0, strings);
    case ListP(_) => ItemsFine(w, p, key, v, 0, strings);
    case UnionP(alternatives, _) =>
      if v.NoneV? {
        MarkerKeyOk(key);
        MarkerWhole();
      } else {
        assert Present(p) in alternatives;
        PrintedFine(w, Present(p), key, v, strings);
      }
    case DelayedP(target) =>
      DelayedLevel(w, target);
      PrintedFine(w, w.heap[target], key, v, strings);
    case LiteralP(values) => LeafOneLine(v); PermittedWhole(values);
    case BoolP => LeafOneLine(v);
    case IntP => LeafOneLine(v);
    case StrP => LeafOneLine(v);
    case _ =>
  }

  lemma MarkerWhole()
    ensures OneLine("1")
  {
  }

  lemma {:induction false} FieldsFine(w: World, p: Parser, key: string, v: Value, i: nat, strings: set<string>)
    requires Guarded(w) && NamesOk(w, p) && Conforms(w, p, v) && KeyFits(key, v) && Strings(v) <= strings
    requires forall id :: id in w.heap ==> NamesOk(w, w.heap[id])
    requires p.ModelP? && i <= |p.fields|
    ensures AllFine(PrintedFields(w, p, key, v, i), strings)
    decreases v, Level(w.size, p), p, |p.fields| - i
  {
    hide Guarded, ApartFields, Printed, KeyOk, NameOk, Fine;
    if i < |p.fields| {
      FieldKeyOk(key, p.fields[i]);
      PrintedFine(w, p.fields[i].parser, FieldKey(key, p.fields[i]), v.fields[i], strings);
      FieldsFine(w, p, key, v, i + 1, strings);
    }
  }

  lemma {:induction false} ItemsFine(w: World, p: Parser, key: string, v: Value, i: nat, strings: set<string>)
    requires Guarded(w) && NamesOk(w, p) && Conforms(w, p, v) && KeyFits(key, v) && Strings(v) <= strings
    requires forall id :: id in w.heap ==> NamesOk(w, w.heap[id])
    requires p.ListP? && i <= |v.items|
    ensures AllFine(PrintedItems(w, p, key, v, i), strings)
    decreases v, Level(w.size, p), p, |v.items| - i
  {
    hide Guarded, Printed, KeyOk, Fine, Dec;
    if i < |v.items| {
      ItemKeyOk(key, i);
      PrintedFine(w, p.item, ItemKey(key, i), v.items[i], strings);
      ItemsFine(w, p, key, v, i + 1, strings);
    }
  }

  /** The text printed for a value without line feeds, under a usable key, sets exactly the variables
      it was meant to set. */
  lemma TextLoads(w: World, p: Parser, key: string, v: Value)
    requires Plain(w) && NamesOk(w, p) && Conforms(w, p, v) && KeyFits(key, v) && StringsFit(v)
    ensures LoadText(Render(Printed(w, p, key, v))) == Load(Printed(w, p, key, v))
    ensures forall k :: k in LoadText(Render(Printed(w, p, key, v))) ==> InRegion(key, k)
  {
    hide LoadText, LoadLines, Render, Load, AllLines, KeyOk, OneLine, Conforms, NamesOk, Printed, Guarded, Closed;
    PrintedFine(w, p, key, v, Strings(v));
    WholeLoads(Printed(w, p, key, v));
    LoadedText(Printed(w, p, key, v));
    PrintedUnder(w, p, key, v);
  }

  // ---------- what no line can set ----------

  /** A loaded variable comes from one of the lines. */
  lemma {:induction false} LoadedFrom(lines: seq<string>, k: string) returns (line: string)
    requires k in LoadLines(lines)
    ensures line in lines && ParseLine(line) == Some((k, LoadLines(lines)[k]))
  {
    hide ParseLine;
    var init, last := lines[..|lines| - 1], lines[|lines| - 1];
    if ParseLine(last).Some? && ParseLine(last).value.0 == k {
      line := last;
    } else {
      line := LoadedFrom(init, k);
    }
  }

  lemma {:induction false} SegmentsAreLines(text: string)
    ensures forall line :: line in Segments(text) ==> '\n' !in line
    decreases |text|
  {
    var i := IndexOf(text, '\n');
    if i < |text| { SegmentsAreLines(text[i + 1..]); }
  }

  lemma ParsedNames(line: string)
    requires '\n' !in line && ParseLine(line).Some?
    ensures KeyOk(ParseLine(line).value.0) && OneLine(ParseLine(line).value.1)
  {
    var i := IndexOf(line, '=');
    assert forall c :: c in line[..i] ==> c in line;
    assert forall c :: c in line[i + 1..] ==> c in line;
    if i > 0 { assert line[..i][0] == line[0]; }
  }

  /** Variables loaded from text have usable names and one-line values. */
  lemma LoadedOk(text: string, k: string)
    requires k in LoadText(text)
    ensures KeyOk(k) && OneLine(LoadText(text)[k])
  {
    hide LoadLines, Segments, ParseLine, KeyOk, OneLine;
    var line := LoadedFrom(Segments(text), k);
    SegmentsAreLines(text);
    ParsedNames(line);
  }

  /** Under an unusable key no text sets anything. */
  lemma BadKeyLoadsNothing(text: string, key: string)
    requires !KeyOk(key)
    ensures NoVars(LoadText(text), key)
  {
    hide LoadText, KeyOk;
    forall k | k in LoadText(text) ensures !InRegion(key, k) {
      LoadedOk(text, k);
      if InRegion(key, k) { PrefixKeyOk(key, k); }
    }
  }

  lemma PrefixKeyOk(key: string, k: string)
    requires InRegion(key, k) && KeyOk(k)
    ensures KeyOk(key)
  {
    assert key <= k;
    assert forall c :: c in key ==> c in k;
  }

  // ---------- text that sets other variables ----------

  /** A string with a line feed loses what follows it, and may set a variable of its own. */
  lemma LineFeedSpills(key: string, name: string, a: string, b: string)
    requires KeyOk(key) && KeyOk(name) && OneLine(a) && OneLine(b) && name != key && key != "" && name != ""
    ensures LoadText(Render([Assign(key, a + "\n" + name + "=" + b)])) == map[key := a, name := b]
  {
    hide *;
    var piece, first, second := Assign(key, a + "\n" + name + "=" + b), Assign(key, a), Assign(name, b);
    LoadedText([piece]);
    SpilledLines(key, name, a, b);
    BothWhole(key, name, a, b);
    WholeLoads([first, second]);
    LoadBoth(first, second);
  }

  lemma BothWhole(key: string, name: string, a: string, b: string)
    requires KeyOk(key) && KeyOk(name) && OneLine(a) && OneLine(b) && key != "" && name != ""
    ensures var both := [Assign(key, a), Assign(name, b)]; forall i :: 0 <= i < |both| ==> Whole(both[i])
  {
  }

  lemma LoadBoth(first: Piece, second: Piece)
    requires first.Assign? && second.Assign? && first.name != second.name
    ensures Load([first, second]) == map[first.name := first.text, second.name := second.text]
  {
    LoadAppend([first], [second]);
    LoadOne(first.name, first.text);
    LoadOne(second.name, second.text);
    assert [first] + [second] == [first, second];
  }

  /** The spilled text has the lines of two assignments. */
  lemma SpilledLines(key: string, name: string, a: string, b: string)
    ensures AllLines([Assign(key, a + "\n" + name + "=" + b)]) == AllLines([Assign(key, a), Assign(name, b)])
  {
    hide Segments, PieceBody;
    var piece, first, second := Assign(key, a + "\n" + name + "=" + b), Assign(key, a), Assign(name, b);
    SpilledBody(key, name, a, b);
    SegmentsJoin(PieceBody(first), PieceBody(second));
    AllLinesAppend([first], [second]);
    assert [first] + [second] == [first, second];
    OnePieceLines(piece);
    OnePieceLines(first);
    OnePieceLines(second);
  }

  lemma SpilledBody(key: string, name: string, a: string, b: string)
    ensures PieceBody(Assign(key, a + "\n" + name + "=" + b)) ==
        PieceBody(Assign(key, a)) + "\n" + PieceBody(Assign(name, b))
  {
  }

  lemma OnePieceLines(piece: Piece)
    ensures AllLines([piece]) == PieceLines(piece)
  {
    assert [piece][1..] == [];
  }
}
