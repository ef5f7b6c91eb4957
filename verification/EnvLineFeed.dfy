/** A string with a line feed does not survive the template: nothing that is read back contains the
    longest such string. */
module EnvLineFeed {
  import opened Text
  import opened EnvParser
  import opened EnvLocality
  import opened EnvTemplate
  import opened EnvRoundTrip

  /** The string occurs somewhere in the value. */
  predicate Occurs(j: Json, s: string)
  {
    match j
    case Str(t) => t == s
    case List(items) => exists i :: 0 <= i < |items| && Occurs(items[i], s)
    case Dict(fields) => exists k :: k in fields && Occurs(fields[k], s)
    case _ => false
  }

  /** JSON text is at least as long as each string it stands for. */
  ghost predicate JsonNeverGrows(w: World)
  {
    forall text, s :: w.json(text).Some? && Occurs(w.json(text).value, s) ==> |s| <= |text|
  }

  predicate Silent(r: Outcome, s: string) { r.Ok? ==> !Occurs(r.value, s) }

  predicate AllSilent(items: seq<Json>, s: string) { forall i :: 0 <= i < |items| ==> !Occurs(items[i], s) }

  predicate SilentItems(r: Items, s: string) { r.Items? ==> AllSilent(r.items, s) }

  lemma {:induction false} MergeSilent(a: Json, b: Json, s: string)
    requires !Occurs(a, s) && !Occurs(b, s)
    ensures Silent(Merge(a, b), s)
    decreases b
  {
    if a.Dict? && b.Dict? && Merge(a, b).Ok? {
      forall k | k in b.fields ensures Silent(Merge(Lookup(a.fields, k), b.fields[k]), s) {
        MergeSilent(Lookup(a.fields, k), b.fields[k], s);
      }
    } else if a.List? && b.List? && Merge(a, b).Ok? {
      forall i | 0 <= i < |b.items| ensures Silent(Merge(a.items[i], b.items[i]), s) {
        MergeSilent(a.items[i], b.items[i], s);
      }
    }
  }

  // ---------- where JSON is decoded ----------

  /** No line of the environment is `s`; what is decoded from any variable not in `intended` does not
      contain `s` either. */
  ghost predicate Deaf(w: World, env: Env, intended: Env, s: string)
  {
    && !OneLine(s)
    && forall k :: k in env ==>
         && OneLine(env[k])
         && (k !in intended && w.json(env[k]).Some? ==> !Occurs(w.json(env[k]).value, s))
  }

  ghost predicate OnlyMarkerUnder(intended: Env, key: string)
  {
    forall k :: k in intended && InRegion(key, k) ==> k == key + "_" + "IS_NONE"
  }

  ghost predicate PrintsUnder(w: World, intended: Env, p: Parser, key: string)
    requires Guarded(w)
  {
    exists v :: Conforms(w, p, v) && Reads(intended, key, Printed(w, p, key, v))
  }

  /** What is intended under the key is a printed value, nothing, or the marker of an absent one: no
      key that `p` decodes as JSON is intended. */
  ghost predicate Untouched(w: World, intended: Env, p: Parser, key: string)
    requires Guarded(w)
  {
    NoVars(intended, key) || (NoneSafe(w, p) && OnlyMarkerUnder(intended, key)) || PrintsUnder(w, intended, p, key)
  }

  lemma DecodedKeyFree(w: World, intended: Env, p: Parser, key: string)
    requires Guarded(w) && Untouched(w, intended, p, key) && (p.ModelP? || p.ListP? || p.DictP?)
    ensures key !in intended
  {
    hide Guarded, Agree, PrintedFields, PrintedItems;
    assert InRegion(key, key) && key != key + "_" + "IS_NONE";
    if PrintsUnder(w, intended, p, key) {
      var v :| Conforms(w, p, v) && Reads(intended, key, Printed(w, p, key, v));
      if p.ModelP? { FieldsUnder(w, p, key, v, 0); } else { ItemsUnder(w, p, key, v, 0); }
      KeyNotSet(intended, key, Printed(w, p, key, v));
    }
  }

  lemma FieldUntouched(w: World, intended: Env, p: Parser, key: string, i: nat)
    requires Guarded(w) && NamesOk(w, p) && Untouched(w, intended, p, key) && p.ModelP? && i < |p.fields|
    ensures Untouched(w, intended, p.fields[i].parser, FieldKey(key, p.fields[i]))
  {
    hide Guarded, Printed, PrintedFields, Agree, ApartFields, Apart;
    var field := p.fields[i];
    if PrintsUnder(w, intended, p, key) {
      var v :| Conforms(w, p, v) && Reads(intended, key, Printed(w, p, key, v));
      PrintedModel(w, p, key, v);
      FieldReads(w, intended, p, key, v, i);
      assert Conforms(w, field.parser, v.fields[i]);
    } else if NoVars(intended, key) {
      NoVarsBelow(intended, key, Upper(field.name));
    } else {
      MarkerOutsideField(w, intended, p, key, i);
    }
  }

  lemma PrintedModel(w: World, p: Parser, key: string, v: Value)
    requires Guarded(w) && Conforms(w, p, v)
    ensures p.ModelP? ==> Printed(w, p, key, v) == PrintedFields(w, p, key, v, 0)
    ensures p.ListP? ==> Printed(w, p, key, v) == PrintedItems(w, p, key, v, 0)
  {
  }

  lemma MarkerOutsideField(w: World, intended: Env, p: Parser, key: string, i: nat)
    requires Guarded(w) && NoneSafe(w, p) && OnlyMarkerUnder(intended, key) && p.ModelP? && i < |p.fields|
    ensures NoVars(intended, FieldKey(key, p.fields[i]))
  {
    hide Guarded, Apart;
    forall k | k in intended ensures !InRegion(FieldKey(key, p.fields[i]), k) {
      if InRegion(FieldKey(key, p.fields[i]), k) {
        RegionsNest(key, Upper(p.fields[i].name), k);
        MarkerOutside(key, Upper(p.fields[i].name));
      }
    }
  }

  lemma MarkerOutsideItem(intended: Env, key: string, index: nat)
    requires OnlyMarkerUnder(intended, key)
    ensures NoVars(intended, ItemKey(key, index))
  {
    hide Apart, Dec;
    forall k | k in intended ensures !InRegion(ItemKey(key, index), k) {
      if InRegion(ItemKey(key, index), k) {
        RegionsNest(key, Dec(index), k);
        NumeralApartFromMarker(Dec(index));
        MarkerOutside(key, Dec(index));
      }
    }
  }

  lemma ItemUntouched(w: World, intended: Env, p: Parser, key: string, index: nat)
    requires Guarded(w) && Untouched(w, intended, p, key) && p.ListP?
    ensures Untouched(w, intended, p.item, ItemKey(key, index))
  {
    hide Guarded, Printed, PrintedItems, Agree, Dec;
    if PrintsUnder(w, intended, p, key) {
      var v :| Conforms(w, p, v) && Reads(intended, key, Printed(w, p, key, v));
      PrintedModel(w, p, key, v);
      ItemReads(w, intended, p, key, v, index);
      if index < |v.items| { assert Conforms(w, p.item, v.items[index]); }
    } else if NoVars(intended, key) {
      NoVarsBelow(intended, key, Dec(index));
    } else {
      MarkerOutsideItem(intended, key, index);
    }
  }

  lemma AlternativeUntouched(w: World, intended: Env, p: Parser, key: string, i: nat)
    requires Guarded(w) && NamesOk(w, p) && Untouched(w, intended, p, key)
    requires p.UnionP? && i < |p.alternatives| && !p.alternatives[i].NoneP?
    ensures Untouched(w, intended, p.alternatives[i], key)
  {
    hide Guarded, Agree, NoneSafe;
    if PrintsUnder(w, intended, p, key) {
      var v :| Conforms(w, p, v) && Reads(intended, key, Printed(w, p, key, v));
      assert Present(p) == p.alternatives[i];
      if v.NoneV? {
        PrintedNone(w, p, key, v);
        OnlyMarker(intended, key);
      } else {
        PrintedPresent(w, p, key, v);
      }
    } else if !NoVars(intended, key) {
      NoneSafeIsNoUnion(w, p);
    }
  }

  lemma NoneSafeIsNoUnion(w: World, p: Parser)
    requires Guarded(w) && NoneSafe(w, p)
    ensures !p.UnionP? && !p.KindP? && !p.DictP?
  {
  }

  lemma DelayedUntouched(w: World, intended: Env, p: Parser, key: string)
    requires Guarded(w) && Untouched(w, intended, p, key) && p.DelayedP? && p.target in w.heap
    ensures Untouched(w, intended, w.heap[p.target], key)
  {
    hide Agree;
    if PrintsUnder(w, intended, p, key) {
      var v :| Conforms(w, p, v) && Reads(intended, key, Printed(w, p, key, v));
      assert Conforms(w, w.heap[p.target], v) && Printed(w, p, key, v) == Printed(w, w.heap[p.target], key, v);
    }
  }

  lemma KindUntouched(w: World, intended: Env, p: Parser, key: string)
    requires Guarded(w) && Untouched(w, intended, p, key) && (p.KindP? || p.DictP?)
    ensures NoVars(intended, key)
  {
    if !NoVars(intended, key) && NoneSafe(w, p) { NoneSafeIsNoUnion(w, p); }
  }

  // ---------- nothing read contains the string ----------

  lemma BaseSilent(w: World, env: Env, intended: Env, key: string, s: string)
    requires Deaf(w, env, intended, s) && key !in intended
    ensures Silent(JsonObject(w, env, key), s)
    ensures key in env ==> SilentItems(ListBase(w.json(env[key])), s)
  {
  }

  lemma {:induction false} AfterDotOneLine(s: string)
    requires OneLine(s)
    ensures OneLine(AfterLastDot(s))
  {
    if s != "" { AfterDotOneLine(s[..|s| - 1]); }
  }

  lemma KindOneLine(w: World, env: Env, intended: Env, p: Parser, key: string, s: string)
    requires Guarded(w) && NamesOk(w, p) && Deaf(w, env, intended, s) && p.KindP?
    ensures KindName(p.names, env, key).Some? ==> OneLine(KindName(p.names, env, key).value)
  {
    hide Guarded, Occurs;
    if key + "_KIND" in env { AfterDotOneLine(env[key + "_KIND"]); }
  }

  lemma WithKindSilent(r: Outcome, kind: string, given: bool, s: string)
    requires Silent(r, s) && kind != s
    ensures Silent(WithKind(r, kind, given), s)
  {
  }

  lemma {:induction false} NeverRead(w: World, env: Env, intended: Env, p: Parser, key: string, s: string)
    requires Plain(w) && NamesOk(w, p) && Deaf(w, env, intended, s) && Untouched(w, intended, p, key)
    ensures Silent(FromEnv(w, env, p, key), s)
    decreases Room(env, key), Level(w.size, p), p
  {
    hide Guarded, Closed, IsTrue, ParseInt, Untouched, ApartFields, FieldsFrom, ItemsFrom, AlternativesFrom;
    hide OverlayFrom;
    hide NoneSafe, KindName, WithKind;
    match p
    case ModelP(_) =>
      DecodedKeyFree(w, intended, p, key);
      BaseSilent(w, env, intended, key, s);
      var base := JsonObject(w, env, key);
      if base.Ok? { FieldsNever(w, env, intended, p, key, 0, base.value, s); }
    case ListP(_) =>
      DecodedKeyFree(w, intended, p, key);
      BaseSilent(w, env, intended, key, s);
      if key !in env {
        ItemsNever(w, env, intended, p, key, 0, s);
      } else {
        var base := ListBase(w.json(env[key]));
        if base.Items? { OverlayNever(w, env, intended, p, key, base.items, 0, s); }
      }
    case DictP =>
      DecodedKeyFree(w, intended, p, key);
      BaseSilent(w, env, intended, key, s);
    case UnionP(_, _) => AlternativesNever(w, env, intended, p, key, 0, Missing, s);
    case KindP(names, parsers) =>
      KindUntouched(w, intended, p, key);
      KindOneLine(w, env, intended, p, key, s);
      forall i | 0 <= i < |parsers| ensures Silent(FromEnv(w, env, parsers[i], key), s) {
        assert Untouched(w, intended, parsers[i], key) by { NothingUntouched(w, intended, parsers[i], key); }
        NeverRead(w, env, intended, parsers[i], key, s);
      }
      var kind := KindName(names, env, key);
      if kind.Some? && LastIndexOf(names, kind.value).Some? && LastIndexOf(names, kind.value).value < |parsers| {
        var r := FromEnv(w, env, parsers[LastIndexOf(names, kind.value).value], key);
        WithKindSilent(r, kind.value, key + "_KIND" in env, s);
      }
    case DelayedP(target) =>
      if target in w.heap {
        DelayedLevel(w, target);
        DelayedUntouched(w, intended, p, key);
        NeverRead(w, env, intended, w.heap[target], key, s);
      }
    case _ =>
  }

  lemma NothingUntouched(w: World, intended: Env, p: Parser, key: string)
    requires Guarded(w) && NoVars(intended, key)
    ensures Untouched(w, intended, p, key)
  {
  }

  lemma SetFieldSilent(result: Json, name: string, x: Json, s: string)
    requires (result.Missing? || result.Dict?) && !x.Missing? && !Occurs(result, s) && !Occurs(x, s)
    ensures Silent(SetField(result, name, x), s)
  {
    var fields := if result.Missing? then map[] else result.fields;
    MergeSilent(if name in fields then fields[name] else Missing, x, s);
  }

  lemma {:induction false} FieldsNever(
      w: World, env: Env, intended: Env, p: Parser, key: string, i: nat, result: Json, s: string)
    requires Plain(w) && NamesOk(w, p) && Deaf(w, env, intended, s) && Untouched(w, intended, p, key)
    requires p.ModelP? && i <= |p.fields| && (result.Missing? || result.Dict?) && !Occurs(result, s)
    ensures Silent(FieldsFrom(w, env, p, key, i, result), s)
    decreases Room(env, key), Level(w.size, p), p, |p.fields| - i
  {
    hide Guarded, Closed, FromEnv, GuardHolds, SetField, Untouched, Deaf, Occurs, ApartFields;
    if i < |p.fields| {
      var field := p.fields[i];
      if GuardHolds(w, env, FieldKey(key, field)) {
        GuardLimitsLength(w, env, key, field);
        FieldUntouched(w, intended, p, key, i);
        NeverRead(w, env, intended, field.parser, FieldKey(key, field), s);
        var r := FromEnv(w, env, field.parser, FieldKey(key, field));
        if r.Ok? && !r.value.Missing? {
          SetFieldSilent(result, field.name, r.value, s);
          var next := SetField(result, field.name, r.value);
          if next.Ok? { FieldsNever(w, env, intended, p, key, i + 1, next.value, s); }
        } else {
          FieldsNever(w, env, intended, p, key, i + 1, result, s);
        }
      } else {
        FieldsNever(w, env, intended, p, key, i + 1, result, s);
      }
    }
  }

  lemma {:induction false} ItemsNever(w: World, env: Env, intended: Env, p: Parser, key: string, index: nat, s: string)
    requires Plain(w) && NamesOk(w, p) && Deaf(w, env, intended, s) && Untouched(w, intended, p, key) && p.ListP?
    ensures SilentItems(ItemsFrom(w, env, p, key, index), s)
    decreases Room(env, key), Level(w.size, p), p, IndexBound(env) - index
  {
    hide Guarded, Closed, FromEnv, Untouched, Deaf, Occurs, Dec;
    RoomBelow(env, key, index);
    ItemUntouched(w, intended, p, key, index);
    NeverRead(w, env, intended, p.item, ItemKey(key, index), s);
    var item := FromEnv(w, env, p.item, ItemKey(key, index));
    if item.Ok? && !item.value.Missing? {
      IndexIsBounded(env, key, index);
      ItemsNever(w, env, intended, p, key, index + 1, s);
    }
  }

  lemma RoomBelow(env: Env, key: string, index: nat)
    ensures Room(env, ItemKey(key, index)) <= Room(env, key)
  {
  }

  lemma {:induction false} OverlayNever(
      w: World, env: Env, intended: Env, p: Parser, key: string, base: seq<Json>, index: nat, s: string)
    requires Plain(w) && NamesOk(w, p) && Deaf(w, env, intended, s) && Untouched(w, intended, p, key)
    requires p.ListP? && index <= |base| && AllSilent(base, s)
    ensures SilentItems(OverlayFrom(w, env, p, key, base, index), s)
    decreases Room(env, key), Level(w.size, p), p, |base| - index
  {
    hide Guarded, Closed, FromEnv, Untouched, Deaf, Occurs, Dec, Merge;
    if index < |base| {
      RoomBelow(env, key, index);
      ItemUntouched(w, intended, p, key, index);
      NeverRead(w, env, intended, p.item, ItemKey(key, index), s);
      var item := FromEnv(w, env, p.item, ItemKey(key, index));
      if item.Ok? { MergeSilent(base[index], item.value, s); }
      OverlayNever(w, env, intended, p, key, base, index + 1, s);
    }
  }

  lemma {:induction false} AlternativesNever(
      w: World, env: Env, intended: Env, p: Parser, key: string, i: nat, result: Json, s: string)
    requires Plain(w) && NamesOk(w, p) && Deaf(w, env, intended, s) && Untouched(w, intended, p, key)
    requires p.UnionP? && i <= |p.alternatives| && !Occurs(result, s)
    ensures Silent(AlternativesFrom(w, env, p, key, i, result), s)
    decreases Room(env, key), Level(w.size, p), p, |p.alternatives| - i
  {
    hide Guarded, Closed, FromEnv, Untouched, Deaf, Occurs, Merge, NoneSafe;
    if i < |p.alternatives| {
      var alternative := p.alternatives[i];
      var r := FromEnv(w, env, alternative, key);
      if alternative.NoneP? {
        MarkerSilent(w, env, key, s);
      } else {
        AlternativeUntouched(w, intended, p, key, i);
        NeverRead(w, env, intended, alternative, key, s);
      }
      if r.Ok? {
        MergeSilent(result, r.value, s);
        if Merge(result, r.value).Ok? {
          AlternativesNever(w, env, intended, p, key, i + 1, Merge(result, r.value).value, s);
        }
      }
    }
  }

  lemma MarkerSilent(w: World, env: Env, key: string, s: string)
    requires Guarded(w)
    ensures Silent(FromEnv(w, env, NoneP, key), s)
  {
  }
}
