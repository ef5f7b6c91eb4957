/** Printing a value as a template of assignments, the variables those assignments set, and the part of
    the value that reading them gives back. */
module EnvTemplate {
  import opened Text
  import opened EnvParser
  import opened EnvLocality

  // ---------- values and what is printed for them ----------

  datatype Value =
    | BoolV(b: bool)
    | IntV(n: int)
    | StrV(s: string)
    | NoneV
    | ModelV(fields: seq<Value>)
    | ListV(items: seq<Value>)

  /** `X | None`, in either order. */
  predicate IsOptional(p: Parser)
  {
    && p.UnionP? && |p.alternatives| == 2 && |p.classes| == 2
    && (p.alternatives[0].NoneP? <==> !p.alternatives[1].NoneP?)
  }

  function Present(p: Parser): (q: Parser)
    requires IsOptional(p)
    ensures q in p.alternatives && !q.NoneP?
  {
    if p.alternatives[0].NoneP? then p.alternatives[1] else p.alternatives[0]
  }

  /** `v` is a value of the schema `p` describes. */
  predicate Conforms(w: World, p: Parser, v: Value)
    requires Guarded(w)
    decreases v, Level(w.size, p), p
  {
    match p
    case BoolP => v.BoolV?
    case IntP => v.IntV?
    case StrP => v.StrV?
    case LiteralP(values) => v.StrV? && v.s in values
    case ModelP(fields) =>
      v.ModelV? && |v.fields| == |fields| && forall i :: 0 <= i < |fields| ==>
          Conforms(w, fields[i].parser, v.fields[i])
    case ListP(item) => v.ListV? && forall i :: 0 <= i < |v.items| ==> Conforms(w, item, v.items[i])
    case UnionP(_, _) => IsOptional(p) && (v.NoneV? || Conforms(w, Present(p), v))
    case DelayedP(target) => target in w.heap && Conforms(w, w.heap[target], v)
    case _ => false
  }

  function IntText(n: int): string { if n < 0 then "-" + Dec(-n) else Dec(n) }

  function LeafText(v: Value): string
    requires v.BoolV? || v.IntV? || v.StrV?
  {
    match v
    case BoolV(b) => if b then "1" else "0"
    case IntV(n) => IntText(n)
    case StrV(s) => s
  }

  /** What is written: assignments, and comment lines. */
  datatype Piece = Assign(name: string, text: string) | Note(text: string)

  type Pieces = seq<Piece>

  function PermittedNote(values: seq<string>): Piece { Note("# Permitted Values: " + Joined(values)) }

  /** `", ".join(values)` */
  function Joined(values: seq<string>): string
  {
    if values == [] then "" else if |values| == 1 then values[0] else values[0] + ", " + Joined(values[1..])
  }

  /** What `to_env` writes, in order, when it does not raise. */
  function Printed(w: World, p: Parser, key: string, v: Value): Pieces
    requires Guarded(w) && Conforms(w, p, v)
    decreases v, Level(w.size, p), p
  {
    match p
    case ModelP(_) => PrintedFields(w, p, key, v, 0)
    case ListP(_) => PrintedItems(w, p, key, v, 0)
    case UnionP(_, _) => if v.NoneV? then [Assign(key + "_IS_NONE", "1")] else Printed(w, Present(p), key, v)
    case DelayedP(target) => Printed(w, w.heap[target], key, v)
    case LiteralP(values) => [PermittedNote(values), Assign(key, LeafText(v))]
    case _ => [Assign(key, LeafText(v))]
  }

  function PrintedFields(w: World, p: Parser, key: string, v: Value, i: nat): Pieces
    requires Guarded(w) && p.ModelP? && Conforms(w, p, v) && i <= |p.fields|
    decreases v, Level(w.size, p), p, |p.fields| - i
  {
    if i == |p.fields| then []
    else Printed(w, p.fields[i].parser, FieldKey(key, p.fields[i]), v.fields[i]) + PrintedFields(w, p, key, v, i + 1)
  }

  function PrintedItems(w: World, p: Parser, key: string, v: Value, i: nat): Pieces
    requires Guarded(w) && p.ListP? && Conforms(w, p, v) && i <= |v.items|
    decreases v, Level(w.size, p), p, |v.items| - i
  {
    if i == |v.items| then []
    else Printed(w, p.item, ItemKey(key, i), v.items[i]) + PrintedItems(w, p, key, v, i + 1)
  }

  /** No union the value reaches has an alternative that `isinstance` refuses. */
  predicate Printable(w: World, p: Parser, v: Value)
    requires Guarded(w) && Conforms(w, p, v)
    decreases v, Level(w.size, p), p
  {
    match p
    case ModelP(fields) => forall i :: 0 <= i < |fields| ==> Printable(w, fields[i].parser, v.fields[i])
    case ListP(item) => forall i :: 0 <= i < |v.items| ==> Printable(w, item, v.items[i])
    case UnionP(_, classes) =>
      (forall i :: 0 <= i < |classes| ==> classes[i]) && (v.NoneV? || Printable(w, Present(p), v))
    case DelayedP(target) => Printable(w, w.heap[target], v)
    case _ => true
  }

  function PieceBody(piece: Piece): string
  {
    match piece case Assign(name, text) => name + "=" + text case Note(text) => text
  }

  function Render(pieces: Pieces): string
  {
    if pieces == [] then "" else PieceBody(pieces[0]) + "\n" + Render(pieces[1..])
  }

  lemma {:induction false} RenderAppend(a: Pieces, b: Pieces)
    ensures Render(a + b) == Render(a) + Render(b)
  {
    hide PieceBody;
    if a == [] {
      assert a + b == b && Render(a) + Render(b) == Render(b);
    } else {
      assert (a + b)[1..] == a[1..] + b;
      RenderAppend(a[1..], b);
      assert PieceBody(a[0]) + "\n" + (Render(a[1..]) + Render(b)) ==
          PieceBody(a[0]) + "\n" + Render(a[1..]) + Render(b);
    }
  }

  lemma RenderOne(piece: Piece)
    ensures Render([piece]) == PieceBody(piece) + "\n"
  {
    assert [piece][1..] == [];
  }

  /** The stream a template is written to. Printing fails, with what was written so far left standing,
      when it meets a union it cannot test. */
  class Template {
    var output: string

    constructor ()
      ensures output == ""
    {
      output := "";
    }

    method WritePiece(piece: Piece)
      modifies this
      ensures output == old(output) + Render([piece])
    {
      RenderOne(piece);
      hide Render;
      match piece {
        case Assign(name, text) =>
          output := output + name + "=" + text + "\n";
        case Note(text) =>
          output := output + text + "\n";
      }
    }

    method WriteFields(w: World, p: Parser, key: string, v: Value) returns (ok: bool)
      requires Guarded(w) && p.ModelP? && Conforms(w, p, v)
      modifies this
      ensures ok == Printable(w, p, v) && old(output) <= output
      ensures ok ==> output == old(output) + Render(PrintedFields(w, p, key, v, 0))
      decreases v, Level(w.size, p), p, 0
    {
      hide Guarded, Printed, Render;
      for i := 0 to |p.fields|
        invariant old(output) <= output
        invariant forall j :: 0 <= j < i ==> Printable(w, p.fields[j].parser, v.fields[j])
        invariant output + Render(PrintedFields(w, p, key, v, i)) ==
            old(output) + Render(PrintedFields(w, p, key, v, 0))
      {
        ghost var before := output;
        ok := ToEnv(w, p.fields[i].parser, FieldKey(key, p.fields[i]), v.fields[i]);
        if !ok { return; }
        FieldsStep(w, p, key, v, i, before, output);
      }
      NothingLeft(output);
      ok := true;
    }

    method WriteItems(w: World, p: Parser, key: string, v: Value) returns (ok: bool)
      requires Guarded(w) && p.ListP? && Conforms(w, p, v)
      modifies this
      ensures ok == Printable(w, p, v) && old(output) <= output
      ensures ok ==> output == old(output) + Render(PrintedItems(w, p, key, v, 0))
      decreases v, Level(w.size, p), p, 0
    {
      hide Guarded, Printed, Render;
      for i := 0 to |v.items|
        invariant old(output) <= output
        invariant forall j :: 0 <= j < i ==> Printable(w, p.item, v.items[j])
        invariant output + Render(PrintedItems(w, p, key, v, i)) == old(output) + Render(PrintedItems(w, p, key, v, 0))
      {
        ghost var before := output;
        ok := ToEnv(w, p.item, ItemKey(key, i), v.items[i]);
        if !ok { return; }
        ItemsStep(w, p, key, v, i, before, output);
      }
      NothingLeft(output);
      ok := true;
    }

    /** Every alternative's type is tested against the value, whichever of them it belongs to. */
    method WriteOptional(w: World, p: Parser, key: string, v: Value) returns (ok: bool)
      requires Guarded(w) && p.UnionP? && Conforms(w, p, v)
      modifies this
      ensures ok == Printable(w, p, v) && old(output) <= output
      ensures ok ==> output == old(output) + Render(Printed(w, p, key, v))
      decreases v, Level(w.size, p), p, 0
    {
      hide Guarded, Render;
      for i := 0 to |p.classes|
        invariant output == old(output)
        invariant forall j :: 0 <= j < i ==> p.classes[j]
      {
        if !p.classes[i] { return false; }
      }
      if v.NoneV? {
        WritePiece(Assign(key + "_IS_NONE", "1"));
        ok := true;
      } else {
        ok := ToEnv(w, Present(p), key, v);
      }
    }

    method ToEnv(w: World, p: Parser, key: string, v: Value) returns (ok: bool)
      requires Guarded(w) && Conforms(w, p, v)
      modifies this
      ensures ok == Printable(w, p, v) && old(output) <= output
      ensures ok ==> output == old(output) + Render(Printed(w, p, key, v))
      decreases v, Level(w.size, p), p, 1
    {
      hide IntText, PrintedFields, PrintedItems, Render;
      ok := true;
      match p
      case ModelP(_) => ok := WriteFields(w, p, key, v);
      case ListP(_) => ok := WriteItems(w, p, key, v);
      case UnionP(_, _) => ok := WriteOptional(w, p, key, v);
      case DelayedP(target) => ok := ToEnv(w, w.heap[target], key, v);
      case LiteralP(values) =>
        ghost var before := output;
        WritePiece(PermittedNote(values));
        WritePiece(Assign(key, LeafText(v)));
        WrittenTwo(before, PermittedNote(values), Assign(key, LeafText(v)));
      case BoolP => WritePiece(Assign(key, LeafText(v)));
      case IntP => WritePiece(Assign(key, LeafText(v)));
      case StrP => WritePiece(Assign(key, LeafText(v)));
    }
  }

  lemma WrittenTwo(before: string, a: Piece, b: Piece)
    ensures before + Render([a]) + Render([b]) == before + Render([a, b])
  {
    hide Render;
    RenderAppend([a], [b]);
    assert [a] + [b] == [a, b];
  }

  lemma NothingLeft(output: string)
    ensures output + Render([]) == output
  {
  }

  lemma FieldsStep(w: World, p: Parser, key: string, v: Value, i: nat, before: string, output: string)
    requires Guarded(w) && p.ModelP? && Conforms(w, p, v) && i < |p.fields|
    requires output == before + Render(Printed(w, p.fields[i].parser, FieldKey(key, p.fields[i]), v.fields[i]))
    ensures output + Render(PrintedFields(w, p, key, v, i + 1)) == before + Render(PrintedFields(w, p, key, v, i))
  {
    hide Guarded, Printed, Render;
    RenderAppend(Printed(w, p.fields[i].parser, FieldKey(key, p.fields[i]), v.fields[i]),
        PrintedFields(w, p, key, v, i + 1));
  }

  lemma ItemsStep(w: World, p: Parser, key: string, v: Value, i: nat, before: string, output: string)
    requires Guarded(w) && p.ListP? && Conforms(w, p, v) && i < |v.items|
    requires output == before + Render(Printed(w, p.item, ItemKey(key, i), v.items[i]))
    ensures output + Render(PrintedItems(w, p, key, v, i + 1)) == before + Render(PrintedItems(w, p, key, v, i))
  {
    hide Guarded, Printed, Render;
    RenderAppend(Printed(w, p.item, ItemKey(key, i), v.items[i]), PrintedItems(w, p, key, v, i + 1));
  }

  /** The variables the assignments are meant to set: later ones win. */
  function Load(assigns: Pieces): Env
  {
    if assigns == [] then map[]
    else
      var before, last := Load(assigns[..|assigns| - 1]), assigns[|assigns| - 1];
      if last.Assign? then before[last.name := last.text] else before
  }

  lemma {:induction false} LoadAppend(a: Pieces, b: Pieces)
    ensures Load(a + b) == Load(a) + Load(b)
  {
    if b == [] {
      assert a + b == a;
    } else {
      var ab := a + b;
      assert ab[..|ab| - 1] == a + b[..|b| - 1];
      LoadAppend(a, b[..|b| - 1]);
    }
  }

  // ---------- where printed variables live ----------

  ghost predicate Under(assigns: Pieces, key: string) { forall k :: k in Load(assigns) ==> InRegion(key, k) }

  ghost predicate StrictlyUnder(assigns: Pieces, key: string) { forall k :: k in Load(assigns) ==> key + "_" <= k }

  lemma UnderBelow(assigns: Pieces, key: string, suffix: string)
    requires Under(assigns, key + "_" + suffix)
    ensures StrictlyUnder(assigns, key)
  {
    forall k | k in Load(assigns) ensures key + "_" <= k { RegionsNest(key, suffix, k); }
  }

  lemma {:induction false} PrintedUnder(w: World, p: Parser, key: string, v: Value)
    requires Guarded(w) && Conforms(w, p, v)
    ensures Under(Printed(w, p, key, v), key)
    decreases v, Level(w.size, p), p
  {
    match p
    case ModelP(_) => FieldsUnder(w, p, key, v, 0); StrictIsUnder(Printed(w, p, key, v), key);
    case ListP(_) => ItemsUnder(w, p, key, v, 0); StrictIsUnder(Printed(w, p, key, v), key);
    case UnionP(_, _) =>
      if v.NoneV? { LoadOne(key + "_IS_NONE", "1"); IsNoneKey(key); } else { PrintedUnder(w, Present(p), key, v); }
    case DelayedP(target) => PrintedUnder(w, w.heap[target], key, v);
    case BoolP => LoadOne(key, LeafText(v));
    case IntP => LoadOne(key, LeafText(v));
    case StrP => LoadOne(key, LeafText(v));
    case LiteralP(values) => LoadNoted(PermittedNote(values).text, key, LeafText(v));
    case _ =>
  }

  lemma LoadOne(k: string, text: string)
    ensures Load([Assign(k, text)]) == map[k := text]
  {
    assert [Assign(k, text)][..0] == [];
  }

  lemma LoadNoted(note: string, k: string, text: string)
    ensures Load([Note(note), Assign(k, text)]) == map[k := text]
  {
    var pieces := [Note(note), Assign(k, text)];
    assert pieces[..1] == [Note(note)] && [Note(note)][..0] == [];
    assert Load([Note(note)]) == map[];
  }

  lemma IsNoneKey(key: string)
    ensures key + "_" + "IS_NONE" == key + "_IS_NONE" && InRegion(key, key + "_IS_NONE")
  {
    SuffixInRegion(key, "IS_NONE");
  }

  lemma StrictIsUnder(assigns: Pieces, key: string)
    requires StrictlyUnder(assigns, key)
    ensures Under(assigns, key) && key !in Load(assigns)
  {
  }

  lemma {:induction false} FieldsUnder(w: World, p: Parser, key: string, v: Value, i: nat)
    requires Guarded(w) && p.ModelP? && Conforms(w, p, v) && i <= |p.fields|
    ensures StrictlyUnder(PrintedFields(w, p, key, v, i), key)
    decreases v, Level(w.size, p), p, |p.fields| - i
  {
    hide Guarded, Printed;
    if i < |p.fields| {
      var first := Printed(w, p.fields[i].parser, FieldKey(key, p.fields[i]), v.fields[i]);
      PrintedUnder(w, p.fields[i].parser, FieldKey(key, p.fields[i]), v.fields[i]);
      UnderBelow(first, key, Upper(p.fields[i].name));
      FieldsUnder(w, p, key, v, i + 1);
      LoadAppend(first, PrintedFields(w, p, key, v, i + 1));
    }
  }

  lemma {:induction false} ItemsUnder(w: World, p: Parser, key: string, v: Value, i: nat)
    requires Guarded(w) && p.ListP? && Conforms(w, p, v) && i <= |v.items|
    ensures StrictlyUnder(PrintedItems(w, p, key, v, i), key)
    decreases v, Level(w.size, p), p, |v.items| - i
  {
    hide Guarded, Printed;
    if i < |v.items| {
      var first := Printed(w, p.item, ItemKey(key, i), v.items[i]);
      PrintedUnder(w, p.item, ItemKey(key, i), v.items[i]);
      UnderBelow(first, key, Dec(i));
      ItemsUnder(w, p, key, v, i + 1);
      LoadAppend(first, PrintedItems(w, p, key, v, i + 1));
    }
  }

  // ---------- sibling names ----------

  /** Neither name is the other extended by an underscore. */
  predicate Apart(f: string, g: string) { f != g && !(f + "_" <= g) && !(g + "_" <= f) }

  lemma RegionsApart(key: string, f: string, g: string, k: string)
    requires Apart(f, g) && InRegion(key + "_" + f, k)
    ensures !InRegion(key + "_" + g, k)
  {
    if InRegion(key + "_" + g, k) {
      var kf, kg := key + "_" + f, key + "_" + g;
      assert kf <= k && kg <= k;
      if |f| < |g| {
        NamesNest(key, f, g, k);
      } else if |g| < |f| {
        NamesNest(key, g, f, k);
      } else {
        NamesEqual(key, f, g, k);
      }
    }
  }

  lemma NamesEqual(key: string, f: string, g: string, k: string)
    requires |f| == |g| && key + "_" + f <= k && key + "_" + g <= k
    ensures f == g
  {
    var kf, kg := key + "_" + f, key + "_" + g;
    assert kf == k[..|kf|] == kg;
    assert f == kf[|key| + 1..] == kg[|key| + 1..] == g;
  }

  lemma NamesNest(key: string, f: string, g: string, k: string)
    requires |f| < |g| && InRegion(key + "_" + f, k) && InRegion(key + "_" + g, k)
    ensures f + "_" <= g
  {
    var kf, kg := key + "_" + f, key + "_" + g;
    assert kg <= k;
    assert k != kf;
    assert k[..|kf| + 1] == kf + "_";
    assert kg == k[..|kg|];
    assert kg[..|kf| + 1] == kf + "_";
    assert g == kg[|key| + 1..];
    assert g[..|f| + 1] == kg[|key| + 1..|kf| + 1] == f + "_";
  }

  predicate ApartFields(fields: seq<Field>)
  {
    forall i, j :: 0 <= i < |fields| && 0 <= j < |fields| && i != j ==>
        Apart(Upper(fields[i].name), Upper(fields[j].name))
  }

  lemma IndicesApart(i: nat, j: nat)
    requires i != j
    ensures Apart(Dec(i), Dec(j))
  {
    if Dec(i) == Dec(j) { DecInjective(i, j); }
    NoUnderscorePrefix(Dec(i), Dec(j));
    NoUnderscorePrefix(Dec(j), Dec(i));
  }

  lemma NoUnderscorePrefix(f: string, g: string)
    requires AllDigits(g)
    ensures !(f + "_" <= g)
  {
    if f + "_" <= g { PrefixEnd(f + "_", g); }
  }

  lemma PrefixEnd(a: string, b: string)
    requires a != "" && a <= b
    ensures a[0] == b[0] && a[|a| - 1] == b[|a| - 1]
  {
    assert b[..|a|] == a;
  }

  /** A model that may be absent must not have fields that read the `IS_NONE` marker. */
  predicate NoneSafe(w: World, p: Parser)
    requires Guarded(w)
    decreases Level(w.size, p), p
  {
    match p
    case ModelP(fields) => forall i :: 0 <= i < |fields| ==> Apart(Upper(fields[i].name), "IS_NONE")
    case DelayedP(target) => target in w.heap && NoneSafe(w, w.heap[target])
    case UnionP(_, _) => false
    case KindP(_, _) => false
    case DictP => false
    case NoneP => false
    case _ => true
  }

  /** The text is one line, and an environment variable can hold it. */
  predicate OneLine(s: string) { '\n' !in s && '\0' !in s }

  predicate NameOk(name: string) { OneLine(name) && '=' !in name }

  /** Field and class names are identifiers and enumerated values are single lines, as in any class
      written down; siblings' names are apart. */
  predicate NamesOk(w: World, p: Parser)
    requires Guarded(w)
  {
    match p
    case ModelP(fields) =>
      && ApartFields(fields)
      && forall i :: 0 <= i < |fields| ==> NameOk(fields[i].name) && NamesOk(w, fields[i].parser)
    case LiteralP(values) => forall i :: 0 <= i < |values| ==> OneLine(values[i])
    case KindP(names, parsers) =>
      && (forall i :: 0 <= i < |names| ==> OneLine(names[i]))
      && forall i :: 0 <= i < |parsers| ==> NamesOk(w, parsers[i])
    case ListP(item) => NamesOk(w, item)
    case UnionP(alternatives, _) =>
      && (IsOptional(p) ==> NoneSafe(w, Present(p)))
      && forall i :: 0 <= i < |alternatives| ==> NamesOk(w, alternatives[i])
    case _ => true
  }

  /** A readable graph whose sibling names are apart. */
  ghost predicate Plain(w: World)
  {
    && Guarded(w) && Closed(w.heap)
    && forall id :: id in w.heap ==> NamesOk(w, w.heap[id])
  }

  // ---------- the part of a value that its printed form shows ----------

  /** What the printed variables can tell: an empty list or a model that shows nothing leaves no
      trace, and a list ends before its first item without a trace. */
  function Visible(w: World, p: Parser, v: Value): Json
    requires Guarded(w) && Conforms(w, p, v)
    decreases v, Level(w.size, p), p
  {
    match p
    case ModelP(_) => VisibleFields(w, p, v, 0, Missing)
    case ListP(_) => (var items := VisibleItems(w, p, v, 0); if items == [] then Missing else List(items))
    case UnionP(_, _) => if v.NoneV? then Null else Visible(w, Present(p), v)
    case DelayedP(target) => Visible(w, w.heap[target], v)
    case _ => LeafJson(v)
  }

  function LeafJson(v: Value): (j: Json)
    requires v.BoolV? || v.IntV? || v.StrV?
    ensures !j.Missing?
  {
    match v case BoolV(b) => Bool(b) case IntV(n) => Int(n) case StrV(s) => Str(s)
  }

  function VisibleFields(w: World, p: Parser, v: Value, i: nat, result: Json): (r: Json)
    requires Guarded(w) && p.ModelP? && Conforms(w, p, v) && i <= |p.fields|
    requires result.Missing? || result.Dict?
    ensures r.Missing? || r.Dict?
    decreases v, Level(w.size, p), p, |p.fields| - i
  {
    if i == |p.fields| then result
    else
      var x := Visible(w, p.fields[i].parser, v.fields[i]);
      VisibleFields(w, p, v, i + 1, if x.Missing? then result else Put(result, p.fields[i].name, x))
  }

  function Put(result: Json, name: string, x: Json): (r: Json)
    requires result.Missing? || result.Dict?
    ensures r.Dict?
  {
    Dict((if result.Missing? then map[] else result.fields)[name := x])
  }

  function VisibleItems(w: World, p: Parser, v: Value, i: nat): (r: seq<Json>)
    requires Guarded(w) && p.ListP? && Conforms(w, p, v) && i <= |v.items|
    ensures |r| <= |v.items| - i
    decreases v, Level(w.size, p), p, |v.items| - i
  {
    if i == |v.items| then []
    else
      var x := Visible(w, p.item, v.items[i]);
      if x.Missing? then [] else [x] + VisibleItems(w, p, v, i + 1)
  }

  // ---------- reading back ----------

  /** Under `key` the environment holds exactly what `assigns` sets. */
  ghost predicate Reads(env: Env, key: string, assigns: Pieces) { Agree(env, Load(assigns), key) }

  /** Reading one variable of two assignment lists loaded one after the other. */
  lemma SumSame(a: Env, b: Env, x: Env, k: string)
    ensures k !in a && SameVar(b, x, k) ==> SameVar(a + b, x, k)
    ensures SameVar(b, map[], k) ==> SameVar(a + b, a, k)
  {
  }

  /** The variables field `i` of a printed model sets. */
  function FieldPart(w: World, p: Parser, key: string, v: Value, i: nat): Env
    requires Guarded(w) && p.ModelP? && Conforms(w, p, v) && i < |p.fields|
  {
    Load(Printed(w, p.fields[i].parser, FieldKey(key, p.fields[i]), v.fields[i]))
  }

  lemma FieldPartUnder(w: World, p: Parser, key: string, v: Value, i: nat, k: string)
    requires Guarded(w) && p.ModelP? && Conforms(w, p, v) && i < |p.fields|
    requires k in FieldPart(w, p, key, v, i)
    ensures InRegion(FieldKey(key, p.fields[i]), k)
  {
    hide Guarded, Printed;
    PrintedUnder(w, p.fields[i].parser, FieldKey(key, p.fields[i]), v.fields[i]);
  }

  lemma FieldsLoadStep(w: World, p: Parser, key: string, v: Value, i: nat)
    requires Guarded(w) && p.ModelP? && Conforms(w, p, v) && i < |p.fields|
    ensures Load(PrintedFields(w, p, key, v, i)) ==
        FieldPart(w, p, key, v, i) + Load(PrintedFields(w, p, key, v, i + 1))
  {
    hide Guarded, Printed, Load;
    LoadAppend(Printed(w, p.fields[i].parser, FieldKey(key, p.fields[i]), v.fields[i]),
        PrintedFields(w, p, key, v, i + 1));
  }

  lemma {:induction false} FieldLoads(w: World, p: Parser, key: string, v: Value, from: nat, i: nat, k: string)
    requires Guarded(w) && p.ModelP? && Conforms(w, p, v) && ApartFields(p.fields)
    requires from <= |p.fields| && i < |p.fields| && InRegion(FieldKey(key, p.fields[i]), k)
    ensures SameVar(Load(PrintedFields(w, p, key, v, from)), if from <= i then FieldPart(w, p, key, v, i) else map[], k)
    decreases |p.fields| - from
  {
    hide Guarded, FieldPart, PrintedFields, SameVar, ApartFields, Load, FieldKey, InRegion;
    if from == |p.fields| {
      NoMoreFields(w, p, key, v, k);
    } else {
      FieldLoads(w, p, key, v, from + 1, i, k);
      FieldsLoadStep(w, p, key, v, from);
      SumSame(FieldPart(w, p, key, v, from), Load(PrintedFields(w, p, key, v, from + 1)),
              if from + 1 <= i then FieldPart(w, p, key, v, i) else map[], k);
      if from != i { OtherFieldSilent(w, p, key, v, from, i, k); }
    }
  }

  lemma NoMoreFields(w: World, p: Parser, key: string, v: Value, k: string)
    requires Guarded(w) && p.ModelP? && Conforms(w, p, v)
    ensures SameVar(Load(PrintedFields(w, p, key, v, |p.fields|)), map[], k)
  {
  }

  lemma OtherFieldSilent(w: World, p: Parser, key: string, v: Value, j: nat, i: nat, k: string)
    requires Guarded(w) && p.ModelP? && Conforms(w, p, v) && ApartFields(p.fields)
    requires j < |p.fields| && i < |p.fields| && i != j && InRegion(FieldKey(key, p.fields[i]), k)
    ensures k !in FieldPart(w, p, key, v, j)
  {
    hide Guarded, Conforms, FieldPart, Apart, ApartFields, Upper, InRegion;
    if k in FieldPart(w, p, key, v, j) { FieldPartUnder(w, p, key, v, j, k); }
    FieldsApart(p.fields, i, j);
    RegionsApart(key, Upper(p.fields[i].name), Upper(p.fields[j].name), k);
  }

  lemma FieldsApart(fields: seq<Field>, i: nat, j: nat)
    requires ApartFields(fields) && i < |fields| && j < |fields| && i != j
    ensures Apart(Upper(fields[i].name), Upper(fields[j].name))
  {
  }

  lemma FieldReads(w: World, env: Env, p: Parser, key: string, v: Value, i: nat)
    requires Guarded(w) && p.ModelP? && Conforms(w, p, v) && ApartFields(p.fields) && i < |p.fields|
    requires Reads(env, key, PrintedFields(w, p, key, v, 0))
    ensures Reads(env, FieldKey(key, p.fields[i]),
        Printed(w, p.fields[i].parser, FieldKey(key, p.fields[i]), v.fields[i]))
  {
    hide Guarded, Printed, Apart, ApartFields, PrintedFields;
    forall k | InRegion(FieldKey(key, p.fields[i]), k)
      ensures SameVar(env, Load(Printed(w, p.fields[i].parser, FieldKey(key, p.fields[i]), v.fields[i])), k)
    {
      RegionsNest(key, Upper(p.fields[i].name), k);
      FieldLoads(w, p, key, v, 0, i, k);
      assert SameVar(env, Load(PrintedFields(w, p, key, v, 0)), k);
    }
  }

  function ItemPart(w: World, p: Parser, key: string, v: Value, i: nat): Env
    requires Guarded(w) && p.ListP? && Conforms(w, p, v) && i < |v.items|
  {
    Load(Printed(w, p.item, ItemKey(key, i), v.items[i]))
  }

  lemma ItemPartUnder(w: World, p: Parser, key: string, v: Value, i: nat, k: string)
    requires Guarded(w) && p.ListP? && Conforms(w, p, v) && i < |v.items|
    requires k in ItemPart(w, p, key, v, i)
    ensures InRegion(ItemKey(key, i), k)
  {
    hide Guarded, Printed;
    PrintedUnder(w, p.item, ItemKey(key, i), v.items[i]);
  }

  lemma ItemsLoadStep(w: World, p: Parser, key: string, v: Value, i: nat)
    requires Guarded(w) && p.ListP? && Conforms(w, p, v) && i < |v.items|
    ensures Load(PrintedItems(w, p, key, v, i)) == ItemPart(w, p, key, v, i) + Load(PrintedItems(w, p, key, v, i + 1))
  {
    hide Guarded, Printed, Load, Dec;
    LoadAppend(Printed(w, p.item, ItemKey(key, i), v.items[i]), PrintedItems(w, p, key, v, i + 1));
  }

  /** Region `index` of a printed list holds item `index`, or nothing past the end. */
  lemma {:induction false} ItemLoads(w: World, p: Parser, key: string, v: Value, from: nat, index: nat, k: string)
    requires Guarded(w) && p.ListP? && Conforms(w, p, v)
    requires from <= |v.items| && InRegion(ItemKey(key, index), k)
    ensures SameVar(Load(PrintedItems(w, p, key, v, from)),
                    if from <= index < |v.items| then ItemPart(w, p, key, v, index) else map[], k)
    decreases |v.items| - from
  {
    if from == |v.items| { assert SameVar(Load(PrintedItems(w, p, key, v, from)), map[], k); }
    hide Guarded, ItemPart, PrintedItems, SameVar, Load, ItemKey, InRegion;
    if from < |v.items| {
      ItemLoads(w, p, key, v, from + 1, index, k);
      ItemsLoadStep(w, p, key, v, from);
      SumSame(ItemPart(w, p, key, v, from), Load(PrintedItems(w, p, key, v, from + 1)),
              if from + 1 <= index < |v.items| then ItemPart(w, p, key, v, index) else map[], k);
      if from != index { OtherItemSilent(w, p, key, v, from, index, k); }
    }
  }

  lemma OtherItemSilent(w: World, p: Parser, key: string, v: Value, j: nat, i: nat, k: string)
    requires Guarded(w) && p.ListP? && Conforms(w, p, v) && j < |v.items| && i != j && InRegion(ItemKey(key, i), k)
    ensures k !in ItemPart(w, p, key, v, j)
  {
    hide Guarded, Conforms, ItemPart, Apart, Dec, InRegion;
    if k in ItemPart(w, p, key, v, j) { ItemPartUnder(w, p, key, v, j, k); }
    IndicesApart(i, j);
    RegionsApart(key, Dec(i), Dec(j), k);
  }

  lemma ItemReads(w: World, env: Env, p: Parser, key: string, v: Value, index: nat)
    requires Guarded(w) && p.ListP? && Conforms(w, p, v)
    requires Reads(env, key, PrintedItems(w, p, key, v, 0))
    ensures index < |v.items| ==>
        Reads(env, ItemKey(key, index), Printed(w, p.item, ItemKey(key, index), v.items[index]))
    ensures index >= |v.items| ==> NoVars(env, ItemKey(key, index))
  {
    hide Guarded, Printed, PrintedItems, Dec;
    forall k | InRegion(ItemKey(key, index), k)
      ensures SameVar(
        env, if index < |v.items| then Load(Printed(w, p.item, ItemKey(key, index), v.items[index])) else map[], k)
    {
      RegionsNest(key, Dec(index), k);
      ItemLoads(w, p, key, v, 0, index, k);
      assert SameVar(env, Load(PrintedItems(w, p, key, v, 0)), k);
    }
  }

  // ---------- absent optional values ----------

  /** With nothing but the `IS_NONE` marker under its key, the parser of the present value sees nothing. */
  lemma {:induction false} NoneHidden(w: World, env: Env, p: Parser, key: string)
    requires Guarded(w) && Closed(w.heap) && Resolved(w.heap, p) && NoneSafe(w, p)
    requires forall k :: k in env && InRegion(key, k) ==> k == key + "_" + "IS_NONE"
    ensures FromEnv(w, env, p, key) == Ok(Missing)
    decreases Level(w.size, p), p
  {
    hide Guarded, FieldsFrom, ItemsFrom, IsTrue, ParseInt, Closed;
    assert InRegion(key, key) && key != key + "_" + "IS_NONE";
    assert key !in env;
    match p
    case ModelP(_) => FieldsHidden(w, env, p, key, 0);
    case ListP(item) =>
      forall k | k in env ensures !InRegion(ItemKey(key, 0), k) {
        if InRegion(ItemKey(key, 0), k) {
          RegionsNest(key, Dec(0), k);
          MarkerIsNoItem();
          RegionsApart(key, Dec(0), "IS_NONE", k);
        }
      }
      MissingWithoutVars(w, env, item, ItemKey(key, 0));
      NoItems(w, env, p, key);
    case DelayedP(target) =>
      DelayedLevel(w, target);
      assert Resolved(w.heap, w.heap[target]) by { ClosedAt(w, target); }
      NoneHidden(w, env, w.heap[target], key);
    case _ =>
  }

  lemma ClosedAt(w: World, target: ClassId)
    requires Closed(w.heap) && target in w.heap
    ensures Resolved(w.heap, w.heap[target])
  {
  }

  lemma MarkerIsNoItem()
    ensures Apart(Dec(0), "IS_NONE")
  {
    assert Dec(0) == "0";
    if "0_" <= "IS_NONE" { PrefixEnd("0_", "IS_NONE"); }
  }

  lemma {:induction false} FieldsHidden(w: World, env: Env, p: Parser, key: string, i: nat)
    requires Guarded(w) && Closed(w.heap) && Resolved(w.heap, p) && NoneSafe(w, p) && p.ModelP? && i <= |p.fields|
    requires forall k :: k in env && InRegion(key, k) ==> k == key + "_" + "IS_NONE"
    ensures FieldsFrom(w, env, p, key, i, Missing) == Ok(Missing)
    decreases |p.fields| - i
  {
    hide Guarded, FromEnv, GuardHolds, Apart, Closed;
    if i < |p.fields| {
      var field := p.fields[i];
      forall k | k in env ensures !InRegion(FieldKey(key, field), k) {
        if InRegion(FieldKey(key, field), k) {
          RegionsNest(key, Upper(field.name), k);
          RegionsApart(key, Upper(field.name), "IS_NONE", k);
        }
      }
      MissingWithoutVars(w, env, field.parser, FieldKey(key, field));
      FieldsHidden(w, env, p, key, i + 1);
    }
  }
}
