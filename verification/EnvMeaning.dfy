/** What reading promises in the environment's own terms: which value wins where two are merged, what
    becomes of each field, item and alternative, and which texts the leaves accept. */
module EnvMeaning {
  import opened Text
  import opened EnvParser
  import opened EnvLocality

  // ---------- which value wins ----------

  datatype Hop = Key(name: string) | Index(i: nat)

  type Path = seq<Hop>

  /** What stands at a path. */
  function At(j: Json, path: Path): Option<Json>
    decreases |path|
  {
    if path == [] then Some(j)
    else if path[0].Key? && j.Dict? && path[0].name in j.fields then At(j.fields[path[0].name], path[1..])
    else if path[0].Index? && j.List? && path[0].i < |j.items| then At(j.items[path[0].i], path[1..])
    else None
  }

  predicate IsLeaf(j: Json) { j.Bool? || j.Int? || j.Float? || j.Str? }

  /** The overlay says nothing on the way to the path, nor there. */
  predicate Silent(overlay: Json, path: Path)
    decreases |path|
  {
    match overlay
    case Missing => true
    case Null => true
    case Dict(fields) =>
      path != [] && path[0].Key? && (path[0].name in fields ==> Silent(fields[path[0].name], path[1..]))
    case List(items) =>
      path != [] && path[0].Index? && (path[0].i < |items| ==> Silent(items[path[0].i], path[1..]))
    case _ => false
  }

  /** Wherever the overlay has a value, the result has that value. */
  lemma {:induction false} OverlayWins(a: Json, b: Json, path: Path)
    requires Merge(a, b).Ok? && At(b, path).Some? && IsLeaf(At(b, path).value)
    ensures At(Merge(a, b).value, path) == At(b, path)
    decreases |path|
  {
    if path != [] && a.Dict? && b.Dict? {
      OverlayWins(Lookup(a.fields, path[0].name), b.fields[path[0].name], path[1..]);
    } else if path != [] && a.List? && b.List? {
      OverlayWins(a.items[path[0].i], b.items[path[0].i], path[1..]);
    }
  }

  /** Where only the base has a value, the result keeps it. */
  lemma {:induction false} BaseStays(a: Json, b: Json, path: Path)
    requires Merge(a, b).Ok? && At(a, path).Some? && !At(a, path).value.Missing? && Silent(b, path)
    ensures At(Merge(a, b).value, path) == At(a, path)
    decreases |path|
  {
    if path != [] && a.Dict? && b.Dict? {
      var k := path[0].name;
      if k in b.fields { BaseStays(a.fields[k], b.fields[k], path[1..]); }
    } else if path != [] && a.List? && b.List? {
      var i := path[0].i;
      if i < |b.items| { BaseStays(a.items[i], b.items[i], path[1..]); }
    }
  }

  /** Somewhere both sides have a list and the overlay's is the longer one. */
  ghost predicate Overlong(a: Json, b: Json)
  {
    exists path: Path :: OverlongAt(a, b, path)
  }

  predicate OverlongAt(a: Json, b: Json, path: Path)
  {
    var x, y := At(a, path), At(b, path);
    x.Some? && y.Some? && x.value.List? && y.value.List? && |y.value.items| > |x.value.items|
  }

  /** Merging raises iff some overlay list is longer than the list it is merged into. */
  lemma {:induction false} MergeRaisesIff(a: Json, b: Json)
    ensures Merge(a, b).Raised? <==> Overlong(a, b)
    decreases b
  {
    if a.Dict? && b.Dict? {
      forall k | k in b.fields ensures Merge(Lookup(a.fields, k), b.fields[k]).Raised? <==>
          Overlong(Lookup(a.fields, k), b.fields[k]) {
        MergeRaisesIff(Lookup(a.fields, k), b.fields[k]);
      }
      DictOverlongIff(a, b);
    } else if a.List? && b.List? {
      if |b.items| > |a.items| {
        assert OverlongAt(a, b, []);
      } else {
        forall i | 0 <= i < |b.items|
            ensures Merge(a.items[i], b.items[i]).Raised? <==> Overlong(a.items[i], b.items[i]) {
          MergeRaisesIff(a.items[i], b.items[i]);
        }
        ListOverlongIff(a, b);
      }
    } else {
      NoSharedLists(a, b);
    }
  }

  lemma OverlongBelow(a: Json, b: Json, hop: Hop, path: Path)
    requires At(a, [hop]).Some? && At(b, [hop]).Some?
    ensures OverlongAt(a, b, [hop] + path) <==> OverlongAt(At(a, [hop]).value, At(b, [hop]).value, path)
  {
    assert ([hop] + path)[1..] == path && [hop][1..] == [];
  }

  lemma FirstHop(a: Json, b: Json, path: Path)
    requires OverlongAt(a, b, path) && path != []
    ensures At(a, [path[0]]).Some? && At(b, [path[0]]).Some?
    ensures OverlongAt(At(a, [path[0]]).value, At(b, [path[0]]).value, path[1..])
  {
    assert [path[0]][1..] == [] && path == [path[0]] + path[1..];
  }

  lemma DictOverlongIff(a: Json, b: Json)
    requires a.Dict? && b.Dict?
    ensures Overlong(a, b) <==> exists k :: k in b.fields && Overlong(Lookup(a.fields, k), b.fields[k])
  {
    if Overlong(a, b) {
      var path: Path :| OverlongAt(a, b, path);
      FirstHop(a, b, path);
      var k := path[0].name;
      assert Overlong(Lookup(a.fields, k), b.fields[k]);
    }
    if exists k :: k in b.fields && Overlong(Lookup(a.fields, k), b.fields[k]) {
      var k :| k in b.fields && Overlong(Lookup(a.fields, k), b.fields[k]);
      var path: Path :| OverlongAt(Lookup(a.fields, k), b.fields[k], path);
      NullHasNoList(Lookup(a.fields, k), path);
      assert [Key(k)][1..] == [];
      OverlongBelow(a, b, Key(k), path);
    }
  }

  lemma NullHasNoList(a: Json, path: Path)
    requires At(a, path).Some? && At(a, path).value.List?
    ensures !a.Null?
  {
  }

  lemma ListOverlongIff(a: Json, b: Json)
    requires a.List? && b.List? && |b.items| <= |a.items|
    ensures Overlong(a, b) <==> exists i :: 0 <= i < |b.items| && Overlong(a.items[i], b.items[i])
  {
    if Overlong(a, b) {
      var path: Path :| OverlongAt(a, b, path);
      FirstHop(a, b, path);
      assert Overlong(a.items[path[0].i], b.items[path[0].i]);
    }
    if exists i :: 0 <= i < |b.items| && Overlong(a.items[i], b.items[i]) {
      var i :| 0 <= i < |b.items| && Overlong(a.items[i], b.items[i]);
      var path: Path :| OverlongAt(a.items[i], b.items[i], path);
      assert [Index(i)][1..] == [];
      OverlongBelow(a, b, Index(i), path);
    }
  }

  lemma NoSharedLists(a: Json, b: Json)
    requires !(a.Dict? && b.Dict?) && !(a.List? && b.List?)
    ensures !Overlong(a, b) && Merge(a, b).Ok?
  {
    if Overlong(a, b) {
      var path: Path :| OverlongAt(a, b, path);
      if path != [] { FirstHop(a, b, path); }
    }
  }

  // ---------- what becomes of a model's fields ----------

  predicate DistinctFields(fields: seq<Field>)
  {
    forall i, j :: 0 <= i < j < |fields| ==> fields[i].name != fields[j].name
  }

  /** What a dictionary, or nothing, has under a name. */
  function EntryOf(result: Json, name: string): Json
  {
    if result.Dict? && name in result.fields then result.fields[name] else Missing
  }

  /** The field's own reading. */
  function FieldValue(w: World, env: Env, p: Parser, key: string, i: nat): Outcome
    requires Guarded(w) && p.ModelP? && i < |p.fields|
  {
    FromEnv(w, env, p.fields[i].parser, FieldKey(key, p.fields[i]))
  }

  /** A field that reads as nothing may be skipped: the guard never hides a value. */
  lemma FieldStep(w: World, env: Env, p: Parser, key: string, i: nat, result: Json)
    requires Guarded(w) && p.ModelP? && i < |p.fields| && (result.Missing? || result.Dict?)
    requires FieldsFrom(w, env, p, key, i, result).Ok?
    ensures FieldValue(w, env, p, key, i).Ok? || !GuardHolds(w, env, FieldKey(key, p.fields[i]))
    ensures var x := FieldValue(w, env, p, key, i);
            if x.Ok? && !x.value.Missing? then
              var next := SetField(result, p.fields[i].name, x.value);
              next.Ok? && FieldsFrom(w, env, p, key, i, result) == FieldsFrom(w, env, p, key, i + 1, next.value)
            else FieldsFrom(w, env, p, key, i, result) == FieldsFrom(w, env, p, key, i + 1, result)
  {
    hide Guarded, FromEnv, SetField, MaxLength;
    var field := p.fields[i];
    if !GuardHolds(w, env, FieldKey(key, field)) { UnguardedMissing(w, env, field.parser, FieldKey(key, field)); }
  }

  lemma UnguardedMissing(w: World, env: Env, p: Parser, name: string)
    requires Guarded(w) && !GuardHolds(w, env, name)
    ensures FromEnv(w, env, p, name).Raised? || FromEnv(w, env, p, name) == Ok(Missing)
  {
    assert NoVars(env, name);
  }

  /** The entry of every field is the base's entry overlaid with the field's own reading; other entries are
      the base's. */
  lemma {:induction false} FieldEntries(w: World, env: Env, p: Parser, key: string, i: nat, result: Json, name: string)
    requires Guarded(w) && p.ModelP? && i <= |p.fields| && (result.Missing? || result.Dict?)
    requires DistinctFields(p.fields) && FieldsFrom(w, env, p, key, i, result).Ok?
    ensures var r := FieldsFrom(w, env, p, key, i, result).value;
            && (r.Missing? || r.Dict?)
            && ((forall j :: i <= j < |p.fields| ==> p.fields[j].name != name) ==>
                EntryOf(r, name) == EntryOf(result, name))
            && forall j :: i <= j < |p.fields| && p.fields[j].name == name ==>
                 var x := FieldValue(w, env, p, key, j);
                 if x.Ok? then Merge(EntryOf(result, name), x.value) == Ok(EntryOf(r, name))
                 else EntryOf(r, name) == EntryOf(result, name)
    decreases |p.fields| - i
  {
    hide Guarded, FromEnv, FieldsFrom, GuardHolds, Merge;
    if i == |p.fields| {
      NoFieldsLeft(w, env, p, key, result);
    } else {
      FieldStep(w, env, p, key, i, result);
      var x := FieldValue(w, env, p, key, i);
      var next := if x.Ok? && !x.value.Missing? then SetField(result, p.fields[i].name, x.value).value else result;
      if x.Ok? { StepEntry(result, p.fields[i].name, x.value, name); }
      FieldEntries(w, env, p, key, i + 1, next, name);
    }
  }

  lemma NoFieldsLeft(w: World, env: Env, p: Parser, key: string, result: Json)
    requires Guarded(w) && p.ModelP? && (result.Missing? || result.Dict?)
    ensures FieldsFrom(w, env, p, key, |p.fields|, result) == Ok(result)
  {
  }

  lemma StepEntry(result: Json, field: string, x: Json, name: string)
    requires (result.Missing? || result.Dict?) && (!x.Missing? ==> SetField(result, field, x).Ok?)
    ensures var next := if x.Missing? then result else SetField(result, field, x).value;
            && (next.Missing? || next.Dict?)
            && (name != field ==> EntryOf(next, name) == EntryOf(result, name))
            && (name == field ==> Merge(EntryOf(result, name), x) == Ok(EntryOf(next, name)))
  {
  }

  /** What a model reads under one name: the decoded base's entry, overlaid with the field of that name. */
  lemma ModelEntry(w: World, env: Env, p: Parser, key: string, name: string)
    requires Guarded(w) && p.ModelP? && DistinctFields(p.fields) && FromEnv(w, env, p, key).Ok?
    ensures JsonObject(w, env, key).Ok?
    ensures var r, base := FromEnv(w, env, p, key).value, JsonObject(w, env, key).value;
            && (r.Missing? || r.Dict?)
            && ((forall j :: 0 <= j < |p.fields| ==> p.fields[j].name != name) ==>
                EntryOf(r, name) == EntryOf(base, name))
            && forall j :: 0 <= j < |p.fields| && p.fields[j].name == name ==>
                 var x := FieldValue(w, env, p, key, j);
                 if x.Ok? then Merge(EntryOf(base, name), x.value) == Ok(EntryOf(r, name))
                 else EntryOf(r, name) == EntryOf(base, name)
  {
    hide Guarded, FieldsFrom, Merge, JsonObject;
    ModelReads(w, env, p, key);
    FieldEntries(w, env, p, key, 0, JsonObject(w, env, key).value, name);
  }

  lemma ModelReads(w: World, env: Env, p: Parser, key: string)
    requires Guarded(w) && p.ModelP? && FromEnv(w, env, p, key).Ok?
    ensures JsonObject(w, env, key).Ok?
    ensures FromEnv(w, env, p, key) == FieldsFrom(w, env, p, key, 0, JsonObject(w, env, key).value)
  {
    hide Guarded, FieldsFrom, JsonObject;
  }

  /** A model reads as nothing iff it has no variable of its own and no field reads as something. */
  lemma {:induction false} NothingReadIff(w: World, env: Env, p: Parser, key: string, i: nat, result: Json)
    requires Guarded(w) && p.ModelP? && i <= |p.fields| && (result.Missing? || result.Dict?)
    requires FieldsFrom(w, env, p, key, i, result).Ok?
    ensures FieldsFrom(w, env, p, key, i, result).value.Missing? <==>
            result.Missing? && forall j :: i <= j < |p.fields| ==>
              FieldValue(w, env, p, key, j).Ok? ==> FieldValue(w, env, p, key, j).value.Missing?
    decreases |p.fields| - i
  {
    hide Guarded, FromEnv, FieldsFrom, GuardHolds, Merge, FieldValue;
    if i == |p.fields| {
      NoFieldsLeft(w, env, p, key, result);
    } else {
      FieldStep(w, env, p, key, i, result);
      var x := FieldValue(w, env, p, key, i);
      var next := if x.Ok? && !x.value.Missing? then SetField(result, p.fields[i].name, x.value).value else result;
      NothingReadIff(w, env, p, key, i + 1, next);
    }
  }

  lemma AtEntry(r: Json, name: string, path: Path)
    ensures At(r, [Key(name)] + path) ==
            if r.Dict? && name in r.fields then At(r.fields[name], path) else None
  {
    assert ([Key(name)] + path)[1..] == path;
  }

  /** A value read from the variables of a field stands in the model, whatever the decoded base says. */
  lemma VariableWins(w: World, env: Env, p: Parser, key: string, i: nat, path: Path)
    requires Guarded(w) && p.ModelP? && DistinctFields(p.fields) && i < |p.fields| && FromEnv(w, env, p, key).Ok?
    requires var x := FieldValue(w, env, p, key, i);
             x.Ok? && At(x.value, path).Some? && IsLeaf(At(x.value, path).value)
    ensures At(FromEnv(w, env, p, key).value, [Key(p.fields[i].name)] + path) ==
            At(FieldValue(w, env, p, key, i).value, path)
  {
    hide Guarded, FromEnv, Merge, JsonObject;
    var name, x := p.fields[i].name, FieldValue(w, env, p, key, i).value;
    ModelEntry(w, env, p, key, name);
    OverlayWins(EntryOf(JsonObject(w, env, key).value, name), x, path);
    AtEntry(FromEnv(w, env, p, key).value, name, path);
    if EntryOf(FromEnv(w, env, p, key).value, name).Missing? { NothingInMissing(path); }
  }

  lemma NothingInMissing(path: Path)
    ensures At(Missing, path) == None || At(Missing, path) == Some(Missing)
  {
  }

  /** Where a field's variables say nothing, the decoded base stands. */
  lemma DecodedStays(w: World, env: Env, p: Parser, key: string, i: nat, path: Path)
    requires Guarded(w) && p.ModelP? && DistinctFields(p.fields) && i < |p.fields| && FromEnv(w, env, p, key).Ok?
    requires FieldValue(w, env, p, key, i).Ok? && Silent(FieldValue(w, env, p, key, i).value, path)
    ensures JsonObject(w, env, key).Ok?
    ensures var base := At(JsonObject(w, env, key).value, [Key(p.fields[i].name)] + path);
            base.Some? && !base.value.Missing? ==>
            At(FromEnv(w, env, p, key).value, [Key(p.fields[i].name)] + path) == base
  {
    hide Guarded, FromEnv, Merge, JsonObject, Silent;
    var name, x := p.fields[i].name, FieldValue(w, env, p, key, i).value;
    ModelEntry(w, env, p, key, name);
    var base := JsonObject(w, env, key).value;
    AtEntry(base, name, path);
    AtEntry(FromEnv(w, env, p, key).value, name, path);
    var at := At(base, [Key(name)] + path);
    if at.Some? && !at.value.Missing? {
      BaseStays(EntryOf(base, name), x, path);
      if EntryOf(FromEnv(w, env, p, key).value, name).Missing? { NothingInMissing(path); }
    }
  }

  /** `C={"n": 1}` and `C_N=2` read as `{"n": 2}`. */
  lemma VariableOverridesJson(w: World, env: Env, key: string, m: int, n: int)
    requires Guarded(w) && key in env && env[key] != ""
    requires w.json(env[key]) == Some(Dict(map["n" := Int(m)]))
    requires key + "_N" in env && ParseInt(env[key + "_N"]) == Some(n)
    ensures FromEnv(w, env, ModelP([Field("n", IntP)]), key) == Ok(Dict(map["n" := Int(n)]))
  {
    hide Guarded, ParseInt;
    var field := Field("n", IntP);
    var p, base := ModelP([field]), Dict(map["n" := Int(m)]);
    UpperN();
    assert FieldKey(key, field) == key + "_N";
    assert GuardHolds(w, env, key + "_N") by { assert InRegion(key + "_N", key + "_N"); }
    assert FromEnv(w, env, IntP, key + "_N") == Ok(Int(n));
    assert Merge(Int(m), Int(n)) == Ok(Int(n));
    assert SetField(base, "n", Int(n)) == Ok(Dict(map["n" := Int(n)]));
    assert FieldsFrom(w, env, p, key, 1, Dict(map["n" := Int(n)])) == Ok(Dict(map["n" := Int(n)]));
    assert FieldsFrom(w, env, p, key, 0, base) == Ok(Dict(map["n" := Int(n)]));
  }

  lemma UpperN()
    ensures Upper("n") == "N"
  {
    assert "n"[1..] == "" && Upper("") == "";
    assert UpperChar('n') == 'N';
  }

  // ---------- alternatives, items, kinds ----------

  /** The last alternative with a value at a path decides it. */
  lemma {:induction false} LastAlternativeWins(
      w: World, env: Env, p: Parser, key: string, i: nat, result: Json, j: nat, path: Path)
    requires Guarded(w) && p.UnionP? && i <= j < |p.alternatives| && AlternativesFrom(w, env, p, key, i, result).Ok?
    requires var x := FromEnv(w, env, p.alternatives[j], key);
             x.Ok? && At(x.value, path).Some? && IsLeaf(At(x.value, path).value)
    requires forall k :: j < k < |p.alternatives| ==>
               FromEnv(w, env, p.alternatives[k], key).Ok? &&
                   Silent(FromEnv(w, env, p.alternatives[k], key).value, path)
    ensures At(AlternativesFrom(w, env, p, key, i, result).value, path) ==
            At(FromEnv(w, env, p.alternatives[j], key).value, path)
    decreases |p.alternatives| - i
  {
    hide Guarded, FromEnv, Merge, Silent;
    var x := FromEnv(w, env, p.alternatives[i], key);
    var next := Merge(result, x.value).value;
    if i < j {
      LastAlternativeWins(w, env, p, key, i + 1, next, j, path);
    } else {
      OverlayWins(result, x.value, path);
      LaterSilent(w, env, p, key, i + 1, next, path);
    }
  }

  lemma {:induction false} LaterSilent(w: World, env: Env, p: Parser, key: string, i: nat, result: Json, path: Path)
    requires Guarded(w) && p.UnionP? && i <= |p.alternatives| && AlternativesFrom(w, env, p, key, i, result).Ok?
    requires At(result, path).Some? && IsLeaf(At(result, path).value)
    requires forall k :: i <= k < |p.alternatives| ==>
               FromEnv(w, env, p.alternatives[k], key).Ok? &&
                   Silent(FromEnv(w, env, p.alternatives[k], key).value, path)
    ensures At(AlternativesFrom(w, env, p, key, i, result).value, path) == At(result, path)
    decreases |p.alternatives| - i
  {
    hide Guarded, FromEnv, Merge, Silent;
    if i < |p.alternatives| {
      var x := FromEnv(w, env, p.alternatives[i], key);
      BaseStays(result, x.value, path);
      LaterSilent(w, env, p, key, i + 1, Merge(result, x.value).value, path);
    }
  }

  /** Item `n` of the list reads as `x`. */
  predicate ItemReads(w: World, env: Env, p: Parser, key: string, n: nat, x: Json)
    requires Guarded(w) && p.ListP?
  {
    FromEnv(w, env, p.item, ItemKey(key, n)) == Ok(x)
  }

  lemma ItemsStep(w: World, env: Env, p: Parser, key: string, index: nat)
    requires Guarded(w) && p.ListP? && ItemsFrom(w, env, p, key, index).Items?
    ensures FromEnv(w, env, p.item, ItemKey(key, index)).Ok?
    ensures var x := FromEnv(w, env, p.item, ItemKey(key, index)).value;
            if x.Missing? then ItemsFrom(w, env, p, key, index) == Items([])
            else
              && ItemsFrom(w, env, p, key, index + 1).Items?
              && ItemsFrom(w, env, p, key, index).items == [x] + ItemsFrom(w, env, p, key, index + 1).items
  {
    hide Guarded, FromEnv, Dec;
  }

  /** A list without a variable of its own holds exactly the readings of its items 0, 1, 2, ... up to the
      first that is missing. */
  lemma {:induction false} ItemsInOrder(w: World, env: Env, p: Parser, key: string, index: nat)
    requires Guarded(w) && p.ListP? && ItemsFrom(w, env, p, key, index).Items?
    ensures var items := ItemsFrom(w, env, p, key, index).items;
            && (forall i :: 0 <= i < |items| ==> ItemReads(w, env, p, key, index + i, items[i]) && !items[i].Missing?)
            && ItemReads(w, env, p, key, index + |items|, Missing)
    decreases IndexBound(env) - index
  {
    hide Guarded, FromEnv, Dec, ItemsFrom, IndexBound;
    ItemsStep(w, env, p, key, index);
    var x := FromEnv(w, env, p.item, ItemKey(key, index)).value;
    assert ItemReads(w, env, p, key, index, x);
    if !x.Missing? {
      ItemPresent(w, env, p, key, index);
      ItemsInOrder(w, env, p, key, index + 1);
      hide ItemReads;
      var items, rest := ItemsFrom(w, env, p, key, index).items, ItemsFrom(w, env, p, key, index + 1).items;
      forall i | 0 <= i < |items| ensures ItemReads(w, env, p, key, index + i, items[i]) && !items[i].Missing? {
        if i > 0 { assert items[i] == rest[i - 1] && index + i == index + 1 + (i - 1); }
      }
      assert index + |items| == index + 1 + |rest|;
    }
  }

  lemma ItemPresent(w: World, env: Env, p: Parser, key: string, index: nat)
    requires Guarded(w) && p.ListP? && FromEnv(w, env, p.item, ItemKey(key, index)).Ok?
    requires !FromEnv(w, env, p.item, ItemKey(key, index)).value.Missing?
    ensures index < IndexBound(env)
  {
    hide Guarded, Dec;
    assert !NoVars(env, ItemKey(key, index));
    IndexIsBounded(env, key, index);
  }

  /** Item `n` of the list reads, and overlaid on `base` it gives `x`. */
  predicate ItemOverlays(w: World, env: Env, p: Parser, key: string, n: nat, base: Json, x: Json)
    requires Guarded(w) && p.ListP?
  {
    var own := FromEnv(w, env, p.item, ItemKey(key, n));
    own.Ok? && Merge(base, own.value) == Ok(x)
  }

  lemma OverlayStep(w: World, env: Env, p: Parser, key: string, base: seq<Json>, index: nat)
    requires Guarded(w) && p.ListP? && index < |base| && OverlayFrom(w, env, p, key, base, index).Items?
    ensures OverlayFrom(w, env, p, key, base, index + 1).Items?
    ensures var items, rest := OverlayFrom(w, env, p, key, base, index).items,
        OverlayFrom(w, env, p, key, base, index + 1).items;
            |items| > 0 && items == [items[0]] + rest && ItemOverlays(w, env, p, key, index, base[index], items[0])
  {
    hide Guarded, FromEnv, Dec, Merge;
  }

  /** Over a decoded list each item is the decoded one overlaid with its own reading. */
  lemma {:induction false} ItemsOverlaid(w: World, env: Env, p: Parser, key: string, base: seq<Json>, index: nat)
    requires Guarded(w) && p.ListP? && index <= |base| && OverlayFrom(w, env, p, key, base, index).Items?
    ensures var items := OverlayFrom(w, env, p, key, base, index).items;
            && |items| == |base| - index
            && forall i :: 0 <= i < |items| ==> ItemOverlays(w, env, p, key, index + i, base[index + i], items[i])
    decreases |base| - index
  {
    hide Guarded, ItemOverlays;
    if index < |base| {
      OverlayStep(w, env, p, key, base, index);
      ItemsOverlaid(w, env, p, key, base, index + 1);
      hide OverlayFrom;
      var items, rest := OverlayFrom(w, env, p, key, base, index).items,
          OverlayFrom(w, env, p, key, base, index + 1).items;
      forall i | 0 <= i < |items| ensures ItemOverlays(w, env, p, key, index + i, base[index + i], items[i]) {
        if i > 0 { assert items[i] == rest[i - 1] && index + i == index + 1 + (i - 1); }
      }
    }
  }

  /** A number as a list's own variable asks for that many items, each of which may be missing. */
  lemma NumberedList(w: World, env: Env, p: Parser, key: string, n: int)
    requires Guarded(w) && p.ListP? && key in env && w.json(env[key]) == Some(Int(n)) && FromEnv(w, env, p, key).Ok?
    ensures var r := FromEnv(w, env, p, key).value;
            && r.List? && |r.items| == Max(0, n)
            && forall i :: 0 <= i < |r.items| ==> ItemReads(w, env, p, key, i, r.items[i])
  {
    hide Guarded, Dec;
    var base := ListBase(Some(Int(n))).items;
    ListReads(w, env, p, key);
    ItemsOverlaid(w, env, p, key, base, 0);
    var r := FromEnv(w, env, p, key).value;
    forall i | 0 <= i < |r.items| ensures ItemReads(w, env, p, key, i, r.items[i]) {
      assert ItemOverlays(w, env, p, key, 0 + i, base[0 + i], r.items[i]);
      assert base[i].Missing?;
    }
  }

  lemma ListReads(w: World, env: Env, p: Parser, key: string)
    requires Guarded(w) && p.ListP? && key in env && FromEnv(w, env, p, key).Ok?
    ensures var base := ListBase(w.json(env[key]));
            && base.Items? && OverlayFrom(w, env, p, key, base.items, 0).Items?
            && FromEnv(w, env, p, key) == Ok(List(OverlayFrom(w, env, p, key, base.items, 0).items))
  {
    hide Guarded, OverlayFrom, ListBase;
  }

  /** A named kind is read by the parser of that name, and the name is recorded. */
  lemma KindReads(w: World, env: Env, p: Parser, key: string, i: nat)
    requires Guarded(w) && p.KindP? && i < |p.names| && i < |p.parsers|
    requires (forall j :: 0 <= j < |p.names| && j != i ==> p.names[j] != p.names[i]) && '.' !in p.names[i]
    requires key + "_KIND" in env && env[key + "_KIND"] == p.names[i]
    ensures var x, r := FromEnv(w, env, p.parsers[i], key), FromEnv(w, env, p, key);
            if x.Raised? then r.Raised?
            else if x.value.Missing? then r == Ok(Dict(map["kind" := Str(p.names[i])]))
            else if x.value.Dict? then r == Ok(Dict(x.value.fields["kind" := Str(p.names[i])]))
            else r.Raised?
  {
    hide Guarded;
    IndexOfName(p.names, i);
  }

  lemma {:induction false} IndexOfName(names: seq<string>, i: nat)
    requires i < |names| && forall j :: 0 <= j < |names| && j != i ==> names[j] != names[i]
    ensures LastIndexOf(names, names[i]) == Some(i)
  {
    if i < |names| - 1 { IndexOfName(names[..|names| - 1], i); }
  }

  /** An unknown kind raises; without one, several alternatives read as nothing. */
  lemma KindUnknown(w: World, env: Env, p: Parser, key: string)
    requires Guarded(w) && p.KindP?
    ensures key + "_KIND" in env && '.' !in env[key + "_KIND"] && env[key + "_KIND"] !in p.names ==>
              FromEnv(w, env, p, key).Raised?
    ensures key + "_KIND" !in env && (exists i, j :: 0 <= i < j < |p.names| && p.names[i] != p.names[j]) ==>
              FromEnv(w, env, p, key) == Ok(Missing)
  {
    hide Guarded;
    if key + "_KIND" !in env && (exists i, j :: 0 <= i < j < |p.names| && p.names[i] != p.names[j]) {
      assert KindName(p.names, env, key) == None;
    }
  }

  // ---------- what the leaves accept ----------

  /** The letter's capital, or the character itself. */
  predicate Capital(c: char, d: char)
  {
    if 'a' <= c <= 'z' then 'A' <= d <= 'Z' && d as int - 'A' as int == c as int - 'a' as int else d == c
  }

  /** Names are upper-cased letter by letter. */
  lemma {:induction false} UpperIsCapitals(s: string)
    ensures |Upper(s)| == |s| && forall i :: 0 <= i < |s| ==> Capital(s[i], Upper(s)[i])
  {
    if s != "" {
      UpperIsCapitals(s[1..]);
      forall i | 0 <= i < |s| ensures Capital(s[i], Upper(s)[i]) {
        if i > 0 { assert Upper(s)[i] == Upper(s[1..])[i - 1]; }
      }
    }
  }

  /** The variable of field `port` under `OH` is `OH_PORT`, that of item 2 is `OH_2`. */
  lemma VariableNames(p: Parser)
    ensures FieldKey("OH", Field("port", p)) == "OH_PORT" && ItemKey("OH", 2) == "OH_2"
  {
    UpperIsCapitals("port");
    assert Upper("port") == "PORT";
  }

  /** True are `1` and the word in any mixture of cases; everything else is false. */
  lemma TrueIff(s: string)
    ensures IsTrue(s) <==>
            s == "1" || (|s| == 4 && s[0] in {'t', 'T'} && s[1] in {'r', 'R'} && s[2] in {'u', 'U'} &&
                s[3] in {'e', 'E'})
  {
    UpperIsCapitals(s);
    if s == "1" { assert Upper(s) == "1"; }
    if |s| == 4 { assert Upper(s) == [Upper(s)[0], Upper(s)[1], Upper(s)[2], Upper(s)[3]]; }
  }

  /** A list of permitted values reads as one of them, or as nothing. */
  lemma LiteralReads(w: World, env: Env, values: seq<string>, key: string)
    requires Guarded(w)
    ensures FromEnv(w, env, LiteralP(values), key) ==
            if key in env && env[key] in values then Ok(Str(env[key])) else Ok(Missing)
  {
    hide Guarded;
  }

  /** `int` of a text that is stripped already. */
  lemma ParsesAs(s: string, sign: string, digits: string)
    requires Strip(s) == sign + digits && sign in {"", "+", "-"} && DigitGroups(digits)
    ensures var n := NatOf(DropUnderscores(digits)); ParseInt(s) == Some(if sign == "-" then -(n as int) else n)
  {
    hide NatOf, Strip, IsSpace, DigitGroups, DropUnderscores;
    GroupsStart(digits);
    if sign == "" { assert sign + digits == digits; } else { assert (sign + digits)[1..] == digits; }
  }

  lemma GroupsStart(digits: string)
    requires DigitGroups(digits)
    ensures digits != "" && digits[0] != '+' && digits[0] != '-' && DigitsAndUnderscores(digits)
  {
  }

  /** A plus sign, white space around, and single underscores between digits make no difference. */
  lemma IntegerNotation(d: string, e: string)
    requires d != "" && e != "" && AllDigits(d) && AllDigits(e)
    ensures ParseInt(d) == Some(NatOf(d)) && ParseInt("-" + d) == Some(-(NatOf(d) as int))
    ensures ParseInt("+" + d) == ParseInt(d)
    ensures ParseInt(d + "_" + e) == ParseInt(d + e)
    ensures ParseInt(" " + d) == ParseInt(d) && ParseInt(d + "\n") == ParseInt(d)
  {
    hide NatOf, IsSpace, Strip, DigitGroups, DropUnderscores, ParseInt;
    DigitIsNoSpace(d[0]);
    DigitIsNoSpace(d[|d| - 1]);
    DigitIsNoSpace(e[|e| - 1]);
    PlainDigits(d);
    PlainDigits(d + e);
    Underscored(d, e);
    Unpadded(d);
    Unpadded("-" + d);
    Unpadded("+" + d);
    Unpadded(d + "_" + e);
    Unpadded(d + e);
    Padded(d);
    ParsesAs(d, "", d);
    ParsesAs("-" + d, "-", d);
    ParsesAs("+" + d, "+", d);
    ParsesAs(d + "_" + e, "", d + "_" + e);
    ParsesAs(d + e, "", d + e);
    ParsesAs(" " + d, "", d);
    ParsesAs(d + "\n", "", d);
  }

  lemma DigitIsNoSpace(c: char)
    ensures (IsDigit(c) ==> !IsSpace(c)) && !IsSpace('+') && !IsSpace('-') && IsSpace(' ') && IsSpace('\n')
  {
  }

  lemma PlainDigits(d: string)
    requires d != "" && AllDigits(d)
    ensures DigitGroups(d) && DropUnderscores(d) == d && d[0] != '-' && d[0] != '+'
  {
  }

  lemma DropDigit(c: char, s: string)
    requires IsDigit(c) && DigitsAndUnderscores(s)
    ensures DigitsAndUnderscores([c] + s) && DropUnderscores([c] + s) == [c] + DropUnderscores(s)
  {
    assert ([c] + s)[1..] == s;
  }

  lemma {:induction false} DropPrefix(d: string, rest: string)
    requires AllDigits(d) && DigitsAndUnderscores(rest)
    ensures DigitsAndUnderscores(d + rest) && DropUnderscores(d + rest) == d + DropUnderscores(rest)
  {
    hide DropUnderscores;
    if d == "" {
      assert d + rest == rest && d + DropUnderscores(rest) == DropUnderscores(rest);
    } else {
      DropPrefix(d[1..], rest);
      DropDigit(d[0], d[1..] + rest);
      assert d + rest == [d[0]] + (d[1..] + rest);
      assert [d[0]] + (d[1..] + DropUnderscores(rest)) == d + DropUnderscores(rest);
    }
  }

  lemma Underscored(d: string, e: string)
    requires d != "" && e != "" && AllDigits(d) && AllDigits(e)
    ensures DigitGroups(d + "_" + e) && DropUnderscores(d + "_" + e) == d + e
  {
    var rest := "_" + e;
    assert d + "_" + e == d + rest;
    PlainDigits(e);
    assert rest[1..] == e && DropUnderscores(rest) == DropUnderscores(e);
    DropPrefix(d, rest);
  }

  lemma Unpadded(s: string)
    requires s != "" && !IsSpace(s[0]) && !IsSpace(s[|s| - 1])
    ensures Strip(s) == s
  {
    hide IsSpace;
  }

  lemma Padded(d: string)
    requires d != "" && !IsSpace(d[0]) && !IsSpace(d[|d| - 1])
    ensures Strip(" " + d) == d && Strip(d + "\n") == d
  {
    DigitIsNoSpace('0');
    hide IsSpace;
    var a, b := " " + d, d + "\n";
    assert RStrip(a) == a && a[1..] == d && LStrip(a) == LStrip(d) == d;
    assert b[..|b| - 1] == d && RStrip(b) == RStrip(d) == d;
  }

  /** A letter, or anything else a numeral cannot have, makes an integer unreadable. */
  lemma NoInteger(s: string, i: nat)
    requires i < |s| && !IsDigit(s[i]) && s[i] !in {'+', '-', '_'} && !IsSpace(s[i])
    ensures ParseInt(s) == None
  {
    hide IsSpace, NatOf;
    StripKeeps(s, s[i]);
    var t := Strip(s);
    if t != "" && (t[0] == '-' || t[0] == '+') { assert t == [t[0]] + t[1..]; }
  }

  lemma {:induction false} StripKeeps(s: string, c: char)
    requires c in s && !IsSpace(c)
    ensures c in Strip(s)
  {
    hide IsSpace;
    RStripKeeps(s, c);
    LStripKeeps(RStrip(s), c);
  }

  lemma {:induction false} RStripKeeps(s: string, c: char)
    requires c in s && !IsSpace(c)
    ensures c in RStrip(s)
  {
    hide IsSpace;
    if IsSpace(s[|s| - 1]) { RStripKeeps(s[..|s| - 1], c); }
  }

  lemma {:induction false} LStripKeeps(s: string, c: char)
    requires c in s && !IsSpace(c)
    ensures c in LStrip(s)
  {
    hide IsSpace;
    if IsSpace(s[0]) { LStripKeeps(s[1..], c); }
  }
}
