/** A parser looks only at the variables under its key, so the coarse prefix test that guards
    recursion never changes a result. */
module EnvLocality {
  import opened Text
  import opened EnvParser

  predicate SameVar(a: Env, b: Env, k: string) { (k in a <==> k in b) && (k in a ==> a[k] == b[k]) }

  /** The two environments agree on every variable equal to `key` or starting with `key_`. */
  ghost predicate Agree(a: Env, b: Env, key: string) { forall k :: InRegion(key, k) ==> SameVar(a, b, k) }

  lemma AgreeBelow(a: Env, b: Env, key: string, suffix: string)
    requires Agree(a, b, key)
    ensures Agree(a, b, key + "_" + suffix)
  {
    forall k | InRegion(key + "_" + suffix, k) ensures SameVar(a, b, k) { RegionsNest(key, suffix, k); }
  }

  lemma SuffixInRegion(key: string, suffix: string)
    ensures InRegion(key, key + "_" + suffix)
  {
    assert (key + "_" + suffix)[..|key| + 1] == key + "_";
  }

  lemma PrefixInRegion(key: string, suffix: string, k: string)
    requires key + "_" + suffix <= k
    ensures InRegion(key, k)
  {
    var name := key + "_" + suffix;
    assert name[..|key| + 1] == key + "_" && k[..|name|] == name;
    assert k[..|key| + 1] == k[..|name|][..|key| + 1];
  }

  /** A guard that holds in one environment holds in the other. */
  lemma GuardCarries(w: World, a: Env, b: Env, key: string, field: Field)
    requires Agree(a, b, key) && GuardHolds(w, a, FieldKey(key, field))
    ensures GuardHolds(w, b, FieldKey(key, field))
  {
    var name := FieldKey(key, field);
    var k :| k in a && if w.exactGuard then InRegion(name, k) else name <= k;
    assert name <= k;
    PrefixInRegion(key, Upper(field.name), k);
    assert SameVar(a, b, k);
  }

  lemma GuardLocal(w: World, a: Env, b: Env, key: string, field: Field)
    requires Agree(a, b, key)
    ensures GuardHolds(w, a, FieldKey(key, field)) == GuardHolds(w, b, FieldKey(key, field))
  {
    hide GuardHolds;
    if GuardHolds(w, a, FieldKey(key, field)) { GuardCarries(w, a, b, key, field); }
    if GuardHolds(w, b, FieldKey(key, field)) { GuardCarries(w, b, a, key, field); }
  }

  /** Locality: the result depends only on the variables under the key. */
  lemma {:induction false} FromEnvLocal(w: World, a: Env, b: Env, p: Parser, key: string)
    requires Guarded(w) && Agree(a, b, key)
    ensures FromEnv(w, a, p, key) == FromEnv(w, b, p, key)
    decreases Room(a, key), Level(w.size, p), p
  {
    hide Agree, Guarded, IsTrue, ParseInt, FieldsFrom, ItemsFrom, AlternativesFrom, OverlayFrom;
    assert SameVar(a, b, key) by { OwnKeyAgrees(a, b, key); }
    match p
    case NoneP => SuffixAgrees(a, b, key, "IS_NONE"); assert key + "_" + "IS_NONE" == key + "_IS_NONE";
    case ModelP(_) =>
      if JsonObject(w, a, key).Ok? { FieldsLocal(w, a, b, p, key, 0, JsonObject(w, a, key).value); }
    case ListP(_) =>
      if key !in a {
        ItemsLocal(w, a, b, p, key, 0);
      } else if ListBase(w.json(a[key])).Items? {
        OverlayLocal(w, a, b, p, key, ListBase(w.json(a[key])).items, 0);
      }
    case UnionP(_, _) => AlternativesLocal(w, a, b, p, key, 0, Missing);
    case KindP(names, parsers) =>
      SuffixAgrees(a, b, key, "KIND");
      assert key + "_" + "KIND" == key + "_KIND";
      forall i | 0 <= i < |parsers| ensures FromEnv(w, a, parsers[i], key) == FromEnv(w, b, parsers[i], key) {
        FromEnvLocal(w, a, b, parsers[i], key);
      }
    case DelayedP(target) =>
      if target in w.heap {
        DelayedLevel(w, target);
        FromEnvLocal(w, a, b, w.heap[target], key);
      }
    case _ =>
  }

  lemma DelayedLevel(w: World, target: ClassId)
    requires Guarded(w) && target in w.heap
    ensures Level(w.size, w.heap[target]) < Level(w.size, DelayedP(target))
  {
  }

  lemma OwnKeyAgrees(a: Env, b: Env, key: string)
    requires Agree(a, b, key)
    ensures SameVar(a, b, key)
  {
    assert InRegion(key, key);
  }

  lemma SuffixAgrees(a: Env, b: Env, key: string, suffix: string)
    requires Agree(a, b, key)
    ensures SameVar(a, b, key + "_" + suffix)
  {
    SuffixInRegion(key, suffix);
  }

  lemma {:induction false} FieldsLocal(w: World, a: Env, b: Env, p: Parser, key: string, i: nat, result: Json)
    requires Guarded(w) && Agree(a, b, key)
    requires p.ModelP? && i <= |p.fields| && (result.Missing? || result.Dict?)
    ensures FieldsFrom(w, a, p, key, i, result) == FieldsFrom(w, b, p, key, i, result)
    decreases Room(a, key), Level(w.size, p), p, |p.fields| - i
  {
    hide Agree, Guarded, FromEnv, GuardHolds, Merge;
    if i < |p.fields| {
      var field := p.fields[i];
      GuardLocal(w, a, b, key, field);
      if GuardHolds(w, a, FieldKey(key, field)) {
        GuardLimitsLength(w, a, key, field);
        AgreeBelow(a, b, key, Upper(field.name));
        FromEnvLocal(w, a, b, field.parser, FieldKey(key, field));
        var r := FromEnv(w, a, field.parser, FieldKey(key, field));
        if r.Ok? && !r.value.Missing? {
          var next := SetField(result, field.name, r.value);
          if next.Ok? { FieldsLocal(w, a, b, p, key, i + 1, next.value); }
        } else {
          FieldsLocal(w, a, b, p, key, i + 1, result);
        }
      } else {
        FieldsLocal(w, a, b, p, key, i + 1, result);
      }
    }
  }

  lemma {:induction false} ItemsLocal(w: World, a: Env, b: Env, p: Parser, key: string, index: nat)
    requires Guarded(w) && Agree(a, b, key) && p.ListP?
    ensures ItemsFrom(w, a, p, key, index) == ItemsFrom(w, b, p, key, index)
    decreases Room(a, key), Level(w.size, p), p, IndexBound(a) - index
  {
    hide Agree, Guarded, FromEnv;
    AgreeBelow(a, b, key, Dec(index));
    FromEnvLocal(w, a, b, p.item, ItemKey(key, index));
    var item := FromEnv(w, a, p.item, ItemKey(key, index));
    if item.Ok? && !item.value.Missing? {
      IndexIsBounded(a, key, index);
      ItemsLocal(w, a, b, p, key, index + 1);
    }
  }

  lemma {:induction false} OverlayLocal(w: World, a: Env, b: Env, p: Parser, key: string, base: seq<Json>, index: nat)
    requires Guarded(w) && Agree(a, b, key) && p.ListP? && index <= |base|
    ensures OverlayFrom(w, a, p, key, base, index) == OverlayFrom(w, b, p, key, base, index)
    decreases Room(a, key), Level(w.size, p), p, |base| - index
  {
    hide Agree, Guarded, FromEnv, Merge;
    if index < |base| {
      AgreeBelow(a, b, key, Dec(index));
      FromEnvLocal(w, a, b, p.item, ItemKey(key, index));
      OverlayLocal(w, a, b, p, key, base, index + 1);
    }
  }

  lemma {:induction false} AlternativesLocal(w: World, a: Env, b: Env, p: Parser, key: string, i: nat, result: Json)
    requires Guarded(w) && Agree(a, b, key) && p.UnionP? && i <= |p.alternatives|
    ensures AlternativesFrom(w, a, p, key, i, result) == AlternativesFrom(w, b, p, key, i, result)
    decreases Room(a, key), Level(w.size, p), p, |p.alternatives| - i
  {
    hide Agree, Guarded, FromEnv, Merge;
    if i < |p.alternatives| {
      FromEnvLocal(w, a, b, p.alternatives[i], key);
      var r := FromEnv(w, a, p.alternatives[i], key);
      if r.Ok? && Merge(result, r.value).Ok? {
        AlternativesLocal(w, a, b, p, key, i + 1, Merge(result, r.value).value);
      }
    }
  }

  // ---------- the guard ----------

  /** Every delayed reference leads somewhere, and every kind has its parser. */
  predicate Resolved(heap: map<ClassId, Parser>, p: Parser)
  {
    match p
    case ModelP(fields) => forall i :: 0 <= i < |fields| ==> Resolved(heap, fields[i].parser)
    case ListP(item) => Resolved(heap, item)
    case UnionP(alternatives, _) => forall i :: 0 <= i < |alternatives| ==> Resolved(heap, alternatives[i])
    case KindP(names, parsers) =>
      |names| == |parsers| && forall i :: 0 <= i < |parsers| ==> Resolved(heap, parsers[i])
    case DelayedP(target) => target in heap
    case _ => true
  }

  predicate Closed(heap: map<ClassId, Parser>) { forall id :: id in heap ==> Resolved(heap, heap[id]) }

  /** With no variables under its key a parser's result is missing. */
  lemma {:induction false} MissingWithoutVars(w: World, env: Env, p: Parser, key: string)
    requires Guarded(w) && Closed(w.heap) && Resolved(w.heap, p) && NoVars(env, key)
    ensures FromEnv(w, env, p, key) == Ok(Missing)
    decreases Level(w.size, p), p
  {
    hide Guarded, FieldsFrom, ItemsFrom, AlternativesFrom, OverlayFrom, IsTrue, ParseInt, NoVars;
    assert key !in env by { OwnKeyAbsent(env, key); }
    match p
    case NoneP => SuffixAbsent(env, key, "IS_NONE"); assert key + "_" + "IS_NONE" == key + "_IS_NONE";
    case ModelP(_) =>
    case ListP(item) =>
      NoVarsBelow(env, key, Dec(0));
      MissingWithoutVars(w, env, item, ItemKey(key, 0));
      NoItems(w, env, p, key);
    case UnionP(alternatives, _) =>
      forall i | 0 <= i < |alternatives| ensures FromEnv(w, env, alternatives[i], key) == Ok(Missing) {
        MissingWithoutVars(w, env, alternatives[i], key);
      }
      NoAlternatives(w, env, p, key, 0);
    case KindP(names, parsers) =>
      SuffixAbsent(env, key, "KIND");
      assert key + "_" + "KIND" == key + "_KIND";
      var kind := KindName(names, env, key);
      if kind.Some? {
        FoundByName(names, kind.value);
        MissingWithoutVars(w, env, parsers[LastIndexOf(names, kind.value).value], key);
      }
    case DelayedP(target) =>
      DelayedLevel(w, target);
      MissingWithoutVars(w, env, w.heap[target], key);
    case _ =>
  }

  lemma OwnKeyAbsent(env: Env, key: string)
    requires NoVars(env, key)
    ensures key !in env
  {
  }

  lemma SuffixAbsent(env: Env, key: string, suffix: string)
    requires NoVars(env, key)
    ensures key + "_" + suffix !in env
  {
    SuffixInRegion(key, suffix);
  }

  lemma FoundByName(names: seq<string>, name: string)
    requires names != [] && names[0] == name
    ensures LastIndexOf(names, name).Some?
  {
    if |names| > 1 && names[|names| - 1] != name { FoundByName(names[..|names| - 1], name); }
  }

  lemma NoItems(w: World, env: Env, p: Parser, key: string)
    requires Guarded(w) && p.ListP? && FromEnv(w, env, p.item, ItemKey(key, 0)) == Ok(Missing)
    ensures ItemsFrom(w, env, p, key, 0) == Items([])
  {
  }

  lemma {:induction false} NoAlternatives(w: World, env: Env, p: Parser, key: string, i: nat)
    requires Guarded(w) && p.UnionP? && i <= |p.alternatives|
    requires forall j :: i <= j < |p.alternatives| ==> FromEnv(w, env, p.alternatives[j], key) == Ok(Missing)
    ensures AlternativesFrom(w, env, p, key, i, Missing) == Ok(Missing)
    decreases |p.alternatives| - i
  {
    hide FromEnv;
    if i < |p.alternatives| { NoAlternatives(w, env, p, key, i + 1); }
  }

  /** Trading the prefix guard for the exact one changes no result. */
  lemma {:induction false} GuardIrrelevant(w: World, v: World, env: Env, p: Parser, key: string)
    requires Guarded(w) && Closed(w.heap) && Resolved(w.heap, p)
    requires !w.exactGuard && v == w.(exactGuard := true)
    ensures Guarded(v) && FromEnv(w, env, p, key) == FromEnv(v, env, p, key)
    decreases Room(env, key), Level(w.size, p), p
  {
    GuardedAlike(w, v);
    hide Guarded, FieldsFrom, ItemsFrom, AlternativesFrom, OverlayFrom, IsTrue, ParseInt;
    match p
    case ModelP(_) =>
      if JsonObject(w, env, key).Ok? { FieldsGuard(w, v, env, p, key, 0, JsonObject(w, env, key).value); }
    case ListP(_) =>
      if key !in env {
        ItemsGuard(w, v, env, p, key, 0);
      } else if ListBase(w.json(env[key])).Items? {
        OverlayGuard(w, v, env, p, key, ListBase(w.json(env[key])).items, 0);
      }
    case UnionP(_, _) => AlternativesGuard(w, v, env, p, key, 0, Missing);
    case KindP(names, parsers) =>
      forall i | 0 <= i < |parsers| ensures FromEnv(w, env, parsers[i], key) == FromEnv(v, env, parsers[i], key) {
        GuardIrrelevant(w, v, env, parsers[i], key);
      }
    case DelayedP(target) =>
      DelayedLevel(w, target);
      GuardIrrelevant(w, v, env, w.heap[target], key);
    case _ =>
  }

  lemma GuardedAlike(w: World, v: World)
    requires Guarded(w) && v.heap == w.heap && v.size == w.size
    ensures Guarded(v)
  {
  }

  /** The exact guard implies the prefix guard; where only the latter holds there is nothing to read. */
  lemma GuardsDiffer(w: World, v: World, env: Env, key: string, field: Field)
    requires !w.exactGuard && v == w.(exactGuard := true)
    ensures GuardHolds(v, env, FieldKey(key, field)) ==> GuardHolds(w, env, FieldKey(key, field))
    ensures !GuardHolds(v, env, FieldKey(key, field)) ==> NoVars(env, FieldKey(key, field))
  {
    var name := FieldKey(key, field);
    if GuardHolds(v, env, name) {
      var k :| k in env && InRegion(name, k);
      assert name <= k;
    }
  }

  lemma {:induction false} FieldsGuard(w: World, v: World, env: Env, p: Parser, key: string, i: nat, result: Json)
    requires Guarded(w) && Guarded(v) && Closed(w.heap) && Resolved(w.heap, p)
    requires !w.exactGuard && v == w.(exactGuard := true)
    requires p.ModelP? && i <= |p.fields| && (result.Missing? || result.Dict?)
    ensures FieldsFrom(w, env, p, key, i, result) == FieldsFrom(v, env, p, key, i, result)
    decreases Room(env, key), Level(w.size, p), p, |p.fields| - i
  {
    hide Guarded, FromEnv, GuardHolds, Merge, NoVars;
    if i < |p.fields| {
      var field := p.fields[i];
      var name := FieldKey(key, field);
      GuardsDiffer(w, v, env, key, field);
      if GuardHolds(v, env, name) {
        GuardLimitsLength(w, env, key, field);
        GuardIrrelevant(w, v, env, field.parser, name);
        var r := FromEnv(w, env, field.parser, name);
        if r.Ok? && !r.value.Missing? {
          var next := SetField(result, field.name, r.value);
          if next.Ok? { FieldsGuard(w, v, env, p, key, i + 1, next.value); }
        } else {
          FieldsGuard(w, v, env, p, key, i + 1, result);
        }
      } else {
        MissingWithoutVars(w, env, field.parser, name);
        FieldsGuard(w, v, env, p, key, i + 1, result);
      }
    }
  }

  lemma {:induction false} ItemsGuard(w: World, v: World, env: Env, p: Parser, key: string, index: nat)
    requires Guarded(w) && Guarded(v) && Closed(w.heap) && Resolved(w.heap, p) && p.ListP?
    requires !w.exactGuard && v == w.(exactGuard := true)
    ensures ItemsFrom(w, env, p, key, index) == ItemsFrom(v, env, p, key, index)
    decreases Room(env, key), Level(w.size, p), p, IndexBound(env) - index
  {
    hide Guarded, FromEnv;
    GuardIrrelevant(w, v, env, p.item, ItemKey(key, index));
    var item := FromEnv(w, env, p.item, ItemKey(key, index));
    if item.Ok? && !item.value.Missing? {
      IndexIsBounded(env, key, index);
      ItemsGuard(w, v, env, p, key, index + 1);
    }
  }

  lemma {:induction false} OverlayGuard(w: World, v: World, env: Env, p: Parser, key: string, base: seq<Json>,
      index: nat)
    requires Guarded(w) && Guarded(v) && Closed(w.heap) && Resolved(w.heap, p) && p.ListP? && index <= |base|
    requires !w.exactGuard && v == w.(exactGuard := true)
    ensures OverlayFrom(w, env, p, key, base, index) == OverlayFrom(v, env, p, key, base, index)
    decreases Room(env, key), Level(w.size, p), p, |base| - index
  {
    hide Guarded, FromEnv, Merge;
    if index < |base| {
      GuardIrrelevant(w, v, env, p.item, ItemKey(key, index));
      OverlayGuard(w, v, env, p, key, base, index + 1);
    }
  }

  lemma {:induction false} AlternativesGuard(w: World, v: World, env: Env, p: Parser, key: string, i: nat, result: Json)
    requires Guarded(w) && Guarded(v) && Closed(w.heap) && Resolved(w.heap, p)
    requires !w.exactGuard && v == w.(exactGuard := true)
    requires p.UnionP? && i <= |p.alternatives|
    ensures AlternativesFrom(w, env, p, key, i, result) == AlternativesFrom(v, env, p, key, i, result)
    decreases Room(env, key), Level(w.size, p), p, |p.alternatives| - i
  {
    hide Guarded, FromEnv, Merge;
    if i < |p.alternatives| {
      GuardIrrelevant(w, v, env, p.alternatives[i], key);
      var r := FromEnv(w, env, p.alternatives[i], key);
      if r.Ok? && Merge(result, r.value).Ok? {
        AlternativesGuard(w, v, env, p, key, i + 1, Merge(result, r.value).value);
      }
    }
  }
}
