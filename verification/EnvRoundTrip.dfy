/** Reading a printed value back: what is restored, and exactly when it is everything. */
module EnvRoundTrip {
  import opened Text
  import opened EnvParser
  import opened EnvLocality
  import opened EnvTemplate

  // ---------- integers as text ----------

  lemma ParsePrintedInt(n: int)
    ensures ParseInt(IntText(n)) == Some(n)
  {
    hide Dec, NatOf, IsSpace, Strip, DigitGroups;
    var s, m: nat := IntText(n), if n < 0 then -n else n;
    NatOfDec(m);
    PlainNumeral(Dec(m));
    assert IsDigit(s[|s| - 1]) && (s[0] == '-' || IsDigit(s[0]));
    StripNumeral(s);
    if n < 0 { assert s[1..] == Dec(m); }
  }

  lemma StripNumeral(s: string)
    requires s != "" && IsDigit(s[|s| - 1]) && (s[0] == '-' || IsDigit(s[0]))
    ensures Strip(s) == s
  {
  }

  lemma PlainNumeral(d: string)
    requires AllDigits(d) && d != ""
    ensures DigitGroups(d) && DropUnderscores(d) == d && d[0] != '-' && d[0] != '+'
  {
  }

  lemma LeafReadsBack(w: World, env: Env, p: Parser, key: string, v: Value)
    requires Guarded(w) && Conforms(w, p, v) && (p.BoolP? || p.IntP? || p.StrP? || p.LiteralP?)
    requires key in env && env[key] == LeafText(v)
    ensures FromEnv(w, env, p, key) == Ok(LeafJson(v))
  {
    hide Guarded, ParseInt, IntText;
    if p.IntP? { ParsePrintedInt(v.n); }
    if p.BoolP? { BooleanDigits(); }
  }

  lemma BooleanDigits()
    ensures IsTrue("1") && !IsTrue("0")
  {
    assert Upper("1") == "1" && Upper("0") == "0";
  }

  // ---------- the visible part is read back ----------

  /** Reading the variables printed for a value gives back its visible part. */
  lemma {:induction false} ReadBack(w: World, env: Env, p: Parser, key: string, v: Value)
    requires Plain(w) && Resolved(w.heap, p) && NamesOk(w, p) && Conforms(w, p, v)
    requires Reads(env, key, Printed(w, p, key, v))
    ensures FromEnv(w, env, p, key) == Ok(Visible(w, p, v))
    decreases v, Level(w.size, p), p
  {
    hide Guarded, Closed, Agree, FieldsFrom, ItemsFrom, AlternativesFrom, IsTrue, ParseInt, LeafText;
    hide LeafJson, PrintedFields, PrintedItems, VisibleFields, VisibleItems, ApartFields;
    match p
    case ModelP(_) =>
      FieldsUnder(w, p, key, v, 0);
      KeyNotSet(env, key, PrintedFields(w, p, key, v, 0));
      FieldsReadBack(w, env, p, key, v, 0, Missing);
    case ListP(_) =>
      ItemsUnder(w, p, key, v, 0);
      KeyNotSet(env, key, PrintedItems(w, p, key, v, 0));
      ItemsReadBack(w, env, p, key, v, 0);
    case UnionP(_, _) => OptionalReadsBack(w, env, p, key, v);
    case DelayedP(target) =>
      DelayedLevel(w, target);
      ClosedAt(w, target);
      ReadBack(w, env, w.heap[target], key, v);
    case BoolP => LeafSet(env, key, v); LeafReadsBack(w, env, p, key, v);
    case IntP => LeafSet(env, key, v); LeafReadsBack(w, env, p, key, v);
    case StrP => LeafSet(env, key, v); LeafReadsBack(w, env, p, key, v);
    case LiteralP(values) => LiteralSet(env, key, v, values); LeafReadsBack(w, env, p, key, v);
    case _ =>
  }

  lemma KeyNotSet(env: Env, key: string, assigns: Pieces)
    requires Reads(env, key, assigns) && StrictlyUnder(assigns, key)
    ensures key !in env
  {
    StrictIsUnder(assigns, key);
    OwnKeyAgrees(env, Load(assigns), key);
  }

  lemma LeafSet(env: Env, key: string, v: Value)
    requires v.BoolV? || v.IntV? || v.StrV?
    requires Reads(env, key, [Assign(key, LeafText(v))])
    ensures key in env && env[key] == LeafText(v)
  {
    LoadOne(key, LeafText(v));
    OwnKeyAgrees(env, Load([Assign(key, LeafText(v))]), key);
  }

  lemma LiteralSet(env: Env, key: string, v: Value, values: seq<string>)
    requires v.StrV?
    requires Reads(env, key, [PermittedNote(values), Assign(key, LeafText(v))])
    ensures key in env && env[key] == LeafText(v)
  {
    LoadNoted(PermittedNote(values).text, key, LeafText(v));
    OwnKeyAgrees(env, Load([PermittedNote(values), Assign(key, LeafText(v))]), key);
  }

  /** The dictionary built so far holds only names of earlier fields. */
  predicate OnlyEarlier(fields: seq<Field>, i: nat, result: Json)
    requires i <= |fields|
  {
    result.Missing? || (result.Dict? && forall n :: n in result.fields ==>
        exists j :: 0 <= j < i && fields[j].name == n)
  }

  lemma PutStaysEarlier(fields: seq<Field>, i: nat, result: Json, x: Json)
    requires i < |fields| && OnlyEarlier(fields, i, result)
    ensures OnlyEarlier(fields, i + 1, result)
    ensures OnlyEarlier(fields, i + 1, Put(result, fields[i].name, x))
  {
    if result.Dict? {
      forall n | n in result.fields ensures exists j :: 0 <= j < i + 1 && fields[j].name == n {
        var j :| 0 <= j < i && fields[j].name == n;
      }
    }
  }

  lemma FreshFieldIsPut(fields: seq<Field>, i: nat, result: Json, x: Json)
    requires i < |fields| && OnlyEarlier(fields, i, result) && ApartFields(fields) && !x.Missing?
    ensures SetField(result, fields[i].name, x) == Ok(Put(result, fields[i].name, x))
  {
    hide Upper;
  }

  lemma {:induction false} FieldsReadBack(w: World, env: Env, p: Parser, key: string, v: Value, i: nat, result: Json)
    requires Plain(w) && Resolved(w.heap, p) && NamesOk(w, p) && Conforms(w, p, v) && p.ModelP? && i <= |p.fields|
    requires Reads(env, key, PrintedFields(w, p, key, v, 0))
    requires OnlyEarlier(p.fields, i, result)
    ensures FieldsFrom(w, env, p, key, i, result) == Ok(VisibleFields(w, p, v, i, result))
    decreases v, Level(w.size, p), p, |p.fields| - i
  {
    hide Guarded, Closed, Agree, FromEnv, GuardHolds, Printed, PrintedFields, Visible, SetField, ApartFields;
    hide Put, OnlyEarlier, Merge;
    if i < |p.fields| {
      var field := p.fields[i];
      FieldReads(w, env, p, key, v, i);
      ReadBack(w, env, field.parser, FieldKey(key, field), v.fields[i]);
      var x := Visible(w, field.parser, v.fields[i]);
      PutStaysEarlier(p.fields, i, result, x);
      if !x.Missing? {
        if !GuardHolds(w, env, FieldKey(key, field)) { NoGuardNoVars(w, env, FieldKey(key, field)); }
        FreshFieldIsPut(p.fields, i, result, x);
        FieldsReadBack(w, env, p, key, v, i + 1, Put(result, field.name, x));
      } else {
        FieldsReadBack(w, env, p, key, v, i + 1, result);
      }
    }
  }

  lemma NoGuardNoVars(w: World, env: Env, name: string)
    requires !GuardHolds(w, env, name)
    ensures NoVars(env, name)
  {
  }

  lemma {:induction false} ItemsReadBack(w: World, env: Env, p: Parser, key: string, v: Value, index: nat)
    requires Plain(w) && Resolved(w.heap, p) && NamesOk(w, p) && Conforms(w, p, v) && p.ListP? && index <= |v.items|
    requires Reads(env, key, PrintedItems(w, p, key, v, 0))
    ensures ItemsFrom(w, env, p, key, index) == Items(VisibleItems(w, p, v, index))
    decreases v, Level(w.size, p), p, |v.items| - index
  {
    hide Guarded, Closed, Agree, FromEnv, Printed, PrintedItems, Visible, NoVars, Dec;
    ItemReads(w, env, p, key, v, index);
    if index == |v.items| {
      MissingWithoutVars(w, env, p.item, ItemKey(key, index));
    } else {
      ReadBack(w, env, p.item, ItemKey(key, index), v.items[index]);
      ItemsReadBack(w, env, p, key, v, index + 1);
    }
  }

  lemma {:induction false} OptionalReadsBack(w: World, env: Env, p: Parser, key: string, v: Value)
    requires Plain(w) && Resolved(w.heap, p) && NamesOk(w, p) && Conforms(w, p, v) && p.UnionP?
    requires Reads(env, key, Printed(w, p, key, v))
    ensures FromEnv(w, env, p, key) == Ok(Visible(w, p, v))
    decreases v, Level(w.size, p), p, 0
  {
    hide Guarded, Closed, Agree, NoneSafe, IsTrue, LeafText;
    var q := Present(p);
    MarkerReads(w, env, p, key, v);
    if v.NoneV? {
      OnlyMarker(env, key);
      NoneHidden(w, env, q, key);
    } else {
      ReadBack(w, env, q, key, v);
    }
    OptionalMerges(w, env, p, key, if v.NoneV? then Missing else Visible(w, q, v), v.NoneV?);
  }

  /** The marker variable is set exactly for an absent value. */
  lemma MarkerReads(w: World, env: Env, p: Parser, key: string, v: Value)
    requires Plain(w) && NamesOk(w, p) && Conforms(w, p, v) && p.UnionP?
    requires Reads(env, key, Printed(w, p, key, v))
    ensures FromEnv(w, env, NoneP, key) == Ok(if v.NoneV? then Null else Missing)
  {
    hide Guarded, Closed, Agree, NoneSafe, Printed, IsTrue;
    IsNoneKey(key);
    SuffixAgrees(env, Load(Printed(w, p, key, v)), key, "IS_NONE");
    if v.NoneV? {
      PrintedNone(w, p, key, v);
      LoadOne(key + "_IS_NONE", "1");
      BooleanDigits();
    } else {
      PrintedPresent(w, p, key, v);
      MarkerUnset(w, Present(p), key, v);
    }
  }

  lemma PrintedNone(w: World, p: Parser, key: string, v: Value)
    requires Guarded(w) && Conforms(w, p, v) && p.UnionP? && v.NoneV?
    ensures Printed(w, p, key, v) == [Assign(key + "_IS_NONE", "1")]
  {
  }

  lemma PrintedPresent(w: World, p: Parser, key: string, v: Value)
    requires Guarded(w) && Conforms(w, p, v) && p.UnionP? && !v.NoneV?
    ensures Printed(w, p, key, v) == Printed(w, Present(p), key, v)
  {
  }

  lemma OnlyMarker(env: Env, key: string)
    requires Reads(env, key, [Assign(key + "_IS_NONE", "1")])
    ensures forall k :: k in env && InRegion(key, k) ==> k == key + "_" + "IS_NONE"
  {
    IsNoneKey(key);
    LoadOne(key + "_IS_NONE", "1");
    forall k | k in env && InRegion(key, k) ensures k == key + "_" + "IS_NONE" {
      assert SameVar(env, Load([Assign(key + "_IS_NONE", "1")]), k);
    }
  }

  /** A value that is present never sets the marker. */
  lemma {:induction false} MarkerUnset(w: World, p: Parser, key: string, v: Value)
    requires Guarded(w) && NoneSafe(w, p) && Conforms(w, p, v)
    ensures key + "_" + "IS_NONE" !in Load(Printed(w, p, key, v))
    decreases Level(w.size, p), p
  {
    hide Guarded, LeafText, PrintedFields, PrintedItems;
    match p
    case ModelP(_) => MarkerUnsetByFields(w, p, key, v, 0);
    case ListP(_) => MarkerUnsetByItems(w, p, key, v, 0);
    case DelayedP(target) =>
      DelayedLevel(w, target);
      MarkerUnset(w, w.heap[target], key, v);
    case BoolP => LoadOne(key, LeafText(v));
    case IntP => LoadOne(key, LeafText(v));
    case StrP => LoadOne(key, LeafText(v));
    case LiteralP(values) => LoadNoted(PermittedNote(values).text, key, LeafText(v));
    case _ =>
  }

  lemma {:induction false} MarkerUnsetByFields(w: World, p: Parser, key: string, v: Value, i: nat)
    requires Guarded(w) && NoneSafe(w, p) && Conforms(w, p, v) && p.ModelP? && i <= |p.fields|
    ensures key + "_" + "IS_NONE" !in Load(PrintedFields(w, p, key, v, i))
    decreases |p.fields| - i
  {
    hide Guarded, Printed, Apart;
    if i < |p.fields| {
      var first := Printed(w, p.fields[i].parser, FieldKey(key, p.fields[i]), v.fields[i]);
      LoadAppend(first, PrintedFields(w, p, key, v, i + 1));
      MarkerUnsetByFields(w, p, key, v, i + 1);
      PrintedUnder(w, p.fields[i].parser, FieldKey(key, p.fields[i]), v.fields[i]);
      MarkerOutside(key, Upper(p.fields[i].name));
    }
  }

  lemma MarkerOutside(key: string, name: string)
    requires Apart(name, "IS_NONE")
    ensures !InRegion(key + "_" + name, key + "_" + "IS_NONE")
  {
    var marker := key + "_" + "IS_NONE";
    assert InRegion(marker, marker);
    RegionsApart(key, "IS_NONE", name, marker) by { ApartBothWays(name, "IS_NONE"); }
  }

  lemma ApartBothWays(f: string, g: string)
    requires Apart(f, g)
    ensures Apart(g, f)
  {
  }

  lemma {:induction false} MarkerUnsetByItems(w: World, p: Parser, key: string, v: Value, i: nat)
    requires Guarded(w) && Conforms(w, p, v) && p.ListP? && i <= |v.items|
    ensures key + "_" + "IS_NONE" !in Load(PrintedItems(w, p, key, v, i))
    decreases |v.items| - i
  {
    hide Guarded, Printed, Apart, Dec;
    if i < |v.items| {
      var first := Printed(w, p.item, ItemKey(key, i), v.items[i]);
      LoadAppend(first, PrintedItems(w, p, key, v, i + 1));
      MarkerUnsetByItems(w, p, key, v, i + 1);
      PrintedUnder(w, p.item, ItemKey(key, i), v.items[i]);
      NumeralApartFromMarker(Dec(i));
      MarkerOutside(key, Dec(i));
    }
  }

  lemma NumeralApartFromMarker(d: string)
    requires AllDigits(d) && d != ""
    ensures Apart(d, "IS_NONE")
  {
    assert d[0] != 'I';
    NoUnderscorePrefix("IS_NONE", d);
    if d + "_" <= "IS_NONE" { PrefixEnd(d + "_", "IS_NONE"); }
  }

  /** Merging the two alternatives of an optional value, one of which is missing. */
  lemma OptionalMerges(w: World, env: Env, p: Parser, key: string, x: Json, absent: bool)
    requires Guarded(w) && IsOptional(p)
    requires FromEnv(w, env, NoneP, key) == Ok(if absent then Null else Missing)
    requires FromEnv(w, env, Present(p), key) == Ok(x) && (absent ==> x.Missing?)
    ensures FromEnv(w, env, p, key) == Ok(if absent then Null else x)
  {
    hide Guarded, Merge;
    var a, b := FromEnv(w, env, p.alternatives[0], key), FromEnv(w, env, p.alternatives[1], key);
    UnionUnfolds(w, env, p, key, a.value, b.value);
  }

  lemma UnionUnfolds(w: World, env: Env, p: Parser, key: string, a: Json, b: Json)
    requires Guarded(w) && IsOptional(p)
    requires FromEnv(w, env, p.alternatives[0], key) == Ok(a) && FromEnv(w, env, p.alternatives[1], key) == Ok(b)
    requires a.Missing? || b.Missing?
    ensures FromEnv(w, env, p, key) == Ok(if a.Missing? then b else a)
  {
    hide Guarded;
    assert Merge(Missing, a) == Ok(a) && Merge(a, b) == Ok(if a.Missing? then b else a);
    assert AlternativesFrom(w, env, p, key, 1, a) == AlternativesFrom(w, env, p, key, 2, if a.Missing? then b else a);
  }

  // ---------- exactly when everything is restored ----------

  /** The whole value as JSON. */
  function Full(w: World, p: Parser, v: Value): (j: Json)
    requires Guarded(w) && Conforms(w, p, v)
    ensures !j.Missing?
    decreases v, Level(w.size, p), p
  {
    match p
    case ModelP(_) => FullFields(w, p, v, 0, Dict(map[]))
    case ListP(_) => List(FullItems(w, p, v, 0))
    case UnionP(_, _) => if v.NoneV? then Null else Full(w, Present(p), v)
    case DelayedP(target) => Full(w, w.heap[target], v)
    case _ => LeafJson(v)
  }

  function FullFields(w: World, p: Parser, v: Value, i: nat, result: Json): (r: Json)
    requires Guarded(w) && p.ModelP? && Conforms(w, p, v) && i <= |p.fields| && result.Dict?
    ensures r.Dict?
    decreases v, Level(w.size, p), p, |p.fields| - i
  {
    if i == |p.fields| then result
    else FullFields(w, p, v, i + 1, Put(result, p.fields[i].name, Full(w, p.fields[i].parser, v.fields[i])))
  }

  function FullItems(w: World, p: Parser, v: Value, i: nat): (r: seq<Json>)
    requires Guarded(w) && p.ListP? && Conforms(w, p, v) && i <= |v.items|
    ensures |r| == |v.items| - i
    decreases v, Level(w.size, p), p, |v.items| - i
  {
    if i == |v.items| then [] else [Full(w, p.item, v.items[i])] + FullItems(w, p, v, i + 1)
  }

  /** No list in the value is empty and no model lacks fields. */
  predicate Solid(v: Value)
  {
    match v
    case ModelV(fields) => fields != [] && forall i :: 0 <= i < |fields| ==> Solid(fields[i])
    case ListV(items) => items != [] && forall i :: 0 <= i < |items| ==> Solid(items[i])
    case _ => true
  }

  lemma {:induction false} SolidIsVisible(w: World, p: Parser, v: Value)
    requires Guarded(w) && Conforms(w, p, v) && Solid(v)
    ensures Visible(w, p, v) == Full(w, p, v)
    decreases v, Level(w.size, p), p
  {
    hide Guarded, LeafJson, VisibleFields, FullFields, VisibleItems, FullItems;
    match p
    case ModelP(_) => SolidFieldsVisible(w, p, v, 0, Missing);
    case ListP(_) => SolidItemsVisible(w, p, v, 0);
    case UnionP(_, _) => if !v.NoneV? { SolidIsVisible(w, Present(p), v); }
    case DelayedP(target) =>
      DelayedLevel(w, target);
      SolidIsVisible(w, w.heap[target], v);
    case _ =>
  }

  function AsDict(result: Json): Json { if result.Missing? then Dict(map[]) else result }

  lemma {:induction false} SolidFieldsVisible(w: World, p: Parser, v: Value, i: nat, result: Json)
    requires Guarded(w) && Conforms(w, p, v) && p.ModelP? && i <= |p.fields| && Solid(v)
    requires result.Dict? || (result.Missing? && i == 0)
    ensures VisibleFields(w, p, v, i, result) == FullFields(w, p, v, i, AsDict(result))
    decreases v, Level(w.size, p), p, |p.fields| - i
  {
    hide Guarded, Visible, Full;
    if i < |p.fields| {
      SolidIsVisible(w, p.fields[i].parser, v.fields[i]);
      SolidFieldsVisible(w, p, v, i + 1, Put(result, p.fields[i].name, Full(w, p.fields[i].parser, v.fields[i])));
    }
  }

  lemma {:induction false} SolidItemsVisible(w: World, p: Parser, v: Value, i: nat)
    requires Guarded(w) && Conforms(w, p, v) && p.ListP? && i <= |v.items| && Solid(v)
    ensures VisibleItems(w, p, v, i) == FullItems(w, p, v, i)
    decreases v, Level(w.size, p), p, |v.items| - i
  {
    hide Guarded, Visible, Full;
    if i < |v.items| {
      SolidIsVisible(w, p.item, v.items[i]);
      SolidItemsVisible(w, p, v, i + 1);
    }
  }

  /** A value that is visible in full is solid. */
  lemma {:induction false} VisibleIsSolid(w: World, p: Parser, v: Value)
    requires Guarded(w) && NamesOk(w, p) && Conforms(w, p, v) && Visible(w, p, v) == Full(w, p, v)
    requires forall id :: id in w.heap ==> NamesOk(w, w.heap[id])
    ensures Solid(v)
    decreases v, Level(w.size, p), p
  {
    hide Guarded, LeafJson, VisibleFields, FullFields, VisibleItems, FullItems, ApartFields;
    match p
    case ModelP(fields) =>
      VisibleEntries(w, p, v, 0, Missing);
      FullEntries(w, p, v, 0, Dict(map[]));
      assert fields != [] by { NoFieldsNothing(w, p, v); }
      forall i | 0 <= i < |fields| ensures Solid(v.fields[i]) {
        VisibleIsSolid(w, fields[i].parser, v.fields[i]);
      }
    case ListP(item) =>
      ItemsEqual(w, p, v, 0);
      forall i | 0 <= i < |v.items| ensures Solid(v.items[i]) { VisibleIsSolid(w, item, v.items[i]); }
    case UnionP(_, _) => if !v.NoneV? { VisibleIsSolid(w, Present(p), v); }
    case DelayedP(target) =>
      DelayedLevel(w, target);
      VisibleIsSolid(w, w.heap[target], v);
    case _ =>
  }

  lemma NoFieldsNothing(w: World, p: Parser, v: Value)
    requires Guarded(w) && Conforms(w, p, v) && p.ModelP?
    ensures p.fields == [] ==> Visible(w, p, v) == Missing
  {
  }

  predicate Entry(result: Json, name: string, x: Json)
  {
    if x.Missing? then result.Missing? || (result.Dict? && name !in result.fields)
    else result.Dict? && name in result.fields && result.fields[name] == x
  }

  lemma DistinctNames(fields: seq<Field>, i: nat, j: nat)
    requires ApartFields(fields) && i < |fields| && j < |fields| && i != j
    ensures fields[i].name != fields[j].name
  {
    assert Apart(Upper(fields[i].name), Upper(fields[j].name));
  }

  /** Each field's entry in the visible dictionary is that field's visible part. */
  lemma {:induction false} VisibleEntries(w: World, p: Parser, v: Value, i: nat, result: Json)
    requires Guarded(w) && Conforms(w, p, v) && p.ModelP? && i <= |p.fields| && ApartFields(p.fields)
    requires result.Missing? || result.Dict?
    requires forall j :: 0 <= j < i ==> Entry(result, p.fields[j].name, Visible(w, p.fields[j].parser, v.fields[j]))
    requires forall j :: i <= j < |p.fields| ==> Entry(result, p.fields[j].name, Missing)
    ensures forall j :: 0 <= j < |p.fields| ==>
      Entry(VisibleFields(w, p, v, i, result), p.fields[j].name, Visible(w, p.fields[j].parser, v.fields[j]))
    decreases |p.fields| - i
  {
    hide Guarded, Visible, ApartFields;
    if i < |p.fields| {
      var x := Visible(w, p.fields[i].parser, v.fields[i]);
      var next := if x.Missing? then result else Put(result, p.fields[i].name, x);
      forall j | 0 <= j < |p.fields| && j != i
          ensures p.fields[j].name != p.fields[i].name { DistinctNames(p.fields, i, j); }
      VisibleEntries(w, p, v, i + 1, next);
    }
  }

  lemma {:induction false} FullEntries(w: World, p: Parser, v: Value, i: nat, result: Json)
    requires Guarded(w) && Conforms(w, p, v) && p.ModelP? && i <= |p.fields| && ApartFields(p.fields) && result.Dict?
    requires forall j :: 0 <= j < i ==> Entry(result, p.fields[j].name, Full(w, p.fields[j].parser, v.fields[j]))
    ensures forall j :: 0 <= j < |p.fields| ==>
      Entry(FullFields(w, p, v, i, result), p.fields[j].name, Full(w, p.fields[j].parser, v.fields[j]))
    decreases |p.fields| - i
  {
    hide Guarded, Full, ApartFields;
    if i < |p.fields| {
      forall j | 0 <= j < |p.fields| && j != i
          ensures p.fields[j].name != p.fields[i].name { DistinctNames(p.fields, i, j); }
      FullEntries(w, p, v, i + 1, Put(result, p.fields[i].name, Full(w, p.fields[i].parser, v.fields[i])));
    }
  }

  lemma {:induction false} ItemsEqual(w: World, p: Parser, v: Value, i: nat)
    requires Guarded(w) && Conforms(w, p, v) && p.ListP? && i <= |v.items|
    requires VisibleItems(w, p, v, i) == FullItems(w, p, v, i)
    ensures forall j :: i <= j < |v.items| ==> Visible(w, p.item, v.items[j]) == Full(w, p.item, v.items[j])
    decreases |v.items| - i
  {
    hide Guarded, Visible, Full;
    if i < |v.items| {
      var a, b := VisibleItems(w, p, v, i), FullItems(w, p, v, i);
      assert a[0] == b[0] && a[1..] == b[1..];
      ItemsEqual(w, p, v, i + 1);
    }
  }

  /** Reading exactly the variables a value was meant to set gives back the whole value iff no list in
      it is empty and no model in it lacks fields. */
  lemma VariablesRoundTripIff(w: World, p: Parser, key: string, v: Value)
    requires Plain(w) && Resolved(w.heap, p) && NamesOk(w, p) && Conforms(w, p, v)
    ensures FromEnv(w, Load(Printed(w, p, key, v)), p, key) == Ok(Full(w, p, v)) <==> Solid(v)
  {
    hide Guarded, Closed, FromEnv, Printed, Load, Visible, Full, Solid;
    ReadBack(w, Load(Printed(w, p, key, v)), p, key, v);
    if Solid(v) { SolidIsVisible(w, p, v); }
    if Visible(w, p, v) == Full(w, p, v) { VisibleIsSolid(w, p, v); }
  }

  // ---------- colliding names ----------

  /** A model with one integer field. */
  function OneInt(name: string): Parser { ModelP([Field(name, IntP)]) }

  /** A model with a nested `f.r` beside an integer `g`. */
  function Colliding(f: string, r: string, g: string): Parser { ModelP([Field(f, OneInt(r)), Field(g, IntP)]) }

  function CollidingValue(m: int, n: int): Value { ModelV([ModelV([IntV(m)]), IntV(n)]) }

  lemma PrintedOneInt(w: World, r: string, key: string, m: int)
    requires Guarded(w)
    ensures Conforms(w, OneInt(r), ModelV([IntV(m)]))
    ensures Printed(w, OneInt(r), key, ModelV([IntV(m)])) == [Assign(key + "_" + Upper(r), IntText(m))]
    ensures Full(w, OneInt(r), ModelV([IntV(m)])) == Dict(map[r := Int(m)])
  {
    hide Guarded, IntText, Upper;
    var p, v := OneInt(r), ModelV([IntV(m)]);
    assert Conforms(w, p.fields[0].parser, v.fields[0]);
    assert PrintedFields(w, p, key, v, 1) == [];
    assert PrintedFields(w, p, key, v, 0) == Printed(w, IntP, key + "_" + Upper(r), IntV(m)) + [];
    assert Put(Dict(map[]), r, Int(m)) == Dict(map[r := Int(m)]);
    var d := Dict(map[r := Int(m)]);
    assert Full(w, p.fields[0].parser, v.fields[0]) == Int(m);
    assert FullFields(w, p, v, 1, d) == d;
    assert FullFields(w, p, v, 0, Dict(map[])) == FullFields(w, p, v, 1, d);
  }

  /** If one sibling's name is the other's followed by an underscore and a nested name, different
      values print the same environment, so no reader can restore them all. */
  lemma CollidingNamesLoseValues(w: World, f: string, r: string, g: string, key: string, m: int, k: int, n: int)
    requires Guarded(w) && Upper(g) == Upper(f) + "_" + Upper(r) && m != k
    ensures var p, v1, v2 := Colliding(f, r, g), CollidingValue(m, n), CollidingValue(k, n);
            && Conforms(w, p, v1) && Conforms(w, p, v2)
            && Load(Printed(w, p, key, v1)) == Load(Printed(w, p, key, v2))
            && Full(w, p, v1) != Full(w, p, v2)
  {
    hide Guarded, Full, Printed, Load, Upper, IntText;
    CollidingPrinted(w, f, r, g, key, m, n);
    CollidingPrinted(w, f, r, g, key, k, n);
    assert map[r := Int(m)][r] != map[r := Int(k)][r];
  }

  lemma CollidingPrinted(w: World, f: string, r: string, g: string, key: string, m: int, n: int)
    requires Guarded(w) && Upper(g) == Upper(f) + "_" + Upper(r)
    ensures var p, v := Colliding(f, r, g), CollidingValue(m, n);
            && Conforms(w, p, v)
            && Load(Printed(w, p, key, v)) == map[key + "_" + Upper(g) := IntText(n)]
            && Full(w, p, v).Dict? && f in Full(w, p, v).fields && Full(w, p, v).fields[f] == Dict(map[r := Int(m)])
  {
    hide Guarded, IntText;
    var p, v := Colliding(f, r, g), CollidingValue(m, n);
    PrintedOneInt(w, r, key + "_" + Upper(f), m);
    hide Upper;
    assert Conforms(w, p.fields[0].parser, v.fields[0]) && Conforms(w, p.fields[1].parser, v.fields[1]);
    var x, y := Assign(key + "_" + Upper(g), IntText(m)), Assign(key + "_" + Upper(g), IntText(n));
    assert key + "_" + Upper(f) + "_" + Upper(r) == key + "_" + Upper(g);
    assert PrintedFields(w, p, key, v, 2) == [];
    assert PrintedFields(w, p, key, v, 1) == [y] + [];
    assert PrintedFields(w, p, key, v, 0) == [x] + [y];
    LoadAppend([x], [y]);
    LoadOne(x.name, x.text);
    LoadOne(y.name, y.text);
    var d := Dict(map[f := Dict(map[r := Int(m)])]);
    assert f != g;
    assert FullFields(w, p, v, 2, Put(d, g, Int(n))) == Put(d, g, Int(n));
    assert FullFields(w, p, v, 1, d) == Put(d, g, Int(n));
    assert Put(Dict(map[]), f, Dict(map[r := Int(m)])) == d;
    assert FullFields(w, p, v, 0, Dict(map[])) == FullFields(w, p, v, 1, d);
  }
}
