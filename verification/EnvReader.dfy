/** The parsers as they run: loops that fill a dictionary or a list in place. */
module EnvReader {
  import opened EnvParser

  /** `merge` of two dictionaries: the base is copied, then each overlay entry is merged in. */
  method MergeDicts(a: map<string, Json>, b: map<string, Json>, ghost whole: Json) returns (r: Outcome)
    requires whole == Dict(b)
    ensures r == Merge(Dict(a), whole)
    decreases whole, 0
  {
    hide Merge;
    var result := a;
    var todo := b.Keys;
    while todo != {}
      invariant todo <= b.Keys && result.Keys == a.Keys + (b.Keys - todo)
      invariant forall k :: k in b.Keys - todo ==> Merge(Lookup(a, k), b[k]) == Ok(result[k])
      invariant forall k :: k in a && k !in b.Keys - todo ==> result[k] == a[k]
      decreases todo
    {
      var k :| k in todo;
      var base := if k in result then result[k] else Null;
      assert base == Lookup(a, k);
      var merged := MergeValues(base, b[k]);
      if merged.Raised? {
        MergeOfDicts(a, b);
        return Raised;
      }
      result := result[k := merged.value];
      todo := todo - {k};
    }
    MergeOfDicts(a, b);
    assert forall k :: k in b ==> k in b.Keys - todo;
    r := Ok(Dict(result));
    assert result == map k | k in a.Keys + b.Keys ::
      if k in b then Merge(Lookup(a, k), b[k]).value else a[k];
  }

  lemma MergeOfDicts(a: map<string, Json>, b: map<string, Json>)
    ensures Merge(Dict(a), Dict(b)) ==
            if exists k | k in b :: Merge(Lookup(a, k), b[k]).Raised? then Raised
            else Ok(Dict(map k | k in a.Keys + b.Keys :: if k in b then Merge(Lookup(a, k), b[k]).value else a[k]))
  {
  }

  /** `merge` of two lists: item by item, with an index error once the overlay is longer. */
  method MergeLists(a: seq<Json>, b: seq<Json>, ghost whole: Json) returns (r: Outcome)
    requires whole == List(b)
    ensures r == Merge(List(a), whole)
    decreases whole, 0
  {
    hide Merge;
    var result := a;
    MergeOfLists(a, b);
    for index := 0 to |b|
      invariant index <= |a| == |result|
      invariant forall i :: 0 <= i < index ==> Merge(a[i], b[i]) == Ok(result[i])
      invariant forall i :: index <= i < |a| ==> result[i] == a[i]
    {
      if index >= |a| { return Raised; }
      var merged := MergeValues(result[index], b[index]);
      if merged.Raised? { return Raised; }
      result := result[index := merged.value];
    }
    r := Ok(List(result));
    assert result == seq(|a|, i requires 0 <= i < |a| => if i < |b| then Merge(a[i], b[i]).value else a[i]);
  }

  lemma MergeOfLists(a: seq<Json>, b: seq<Json>)
    ensures Merge(List(a), List(b)) ==
            if |b| > |a| || exists i | 0 <= i < |b| :: Merge(a[i], b[i]).Raised? then Raised
            else Ok(List(seq(|a|, i requires 0 <= i < |a| => if i < |b| then Merge(a[i], b[i]).value else a[i])))
  {
  }

  method MergeValues(a: Json, b: Json) returns (r: Outcome)
    ensures r == Merge(a, b)
    decreases b, 1
  {
    if a.Missing? { return Ok(b); }
    if b.Missing? { return Ok(a); }
    if a.Dict? && b.Dict? { r := MergeDicts(a.fields, b.fields, b); return; }
    if a.List? && b.List? { r := MergeLists(a.items, b.items, b); return; }
    if b.Null? { return Ok(a); }
    return Ok(b);
  }

  method ReadModel(w: World, env: Env, p: Parser, key: string) returns (r: Outcome)
    requires Guarded(w) && p.ModelP?
    ensures r == FromEnv(w, env, p, key)
    decreases Room(env, key), Level(w.size, p), p, 0
  {
    var base := JsonObject(w, env, key);
    if base.Raised? { return Raised; }
    hide FromEnv, GuardHolds, Merge;
    assert FieldsFrom(w, env, p, key, 0, base.value) == FromEnv(w, env, p, key) by { ModelResult(w, env, p, key); }
    var result := base.value;
    for i := 0 to |p.fields|
      invariant result.Missing? || result.Dict?
      invariant FieldsFrom(w, env, p, key, i, result) == FromEnv(w, env, p, key)
    {
      var field := p.fields[i];
      var name := FieldKey(key, field);
      if !GuardHolds(w, env, name) { continue; }
      GuardLimitsLength(w, env, key, field);
      var v := ReadEnv(w, env, field.parser, name);
      if v.Raised? { return Raised; }
      if v.value.Missing? { continue; }
      var fields := if result.Missing? then map[] else result.fields;
      var existing := if field.name in fields then fields[field.name] else Missing;
      var merged := MergeValues(existing, v.value);
      if merged.Raised? { return Raised; }
      result := Dict(fields[field.name := merged.value]);
    }
    return Ok(result);
  }

  lemma ModelResult(w: World, env: Env, p: Parser, key: string)
    requires Guarded(w) && p.ModelP? && JsonObject(w, env, key).Ok?
    ensures FieldsFrom(w, env, p, key, 0, JsonObject(w, env, key).value) == FromEnv(w, env, p, key)
  {
    hide FieldsFrom;
  }

  function Prepend(items: seq<Json>, r: Items): Items
  {
    match r case ItemsRaised => ItemsRaised case Items(rest) => Items(items + rest)
  }

  lemma PrependMore(items: seq<Json>, x: Json, r: Items)
    ensures Prepend(items, Prepend([x], r)) == Prepend(items + [x], r)
  {
    if r.Items? { assert items + ([x] + r.items) == (items + [x]) + r.items; }
  }

  /** Items 0, 1, 2, ... until one is missing. */
  method ReadItems(w: World, env: Env, p: Parser, key: string) returns (r: Items)
    requires Guarded(w) && p.ListP?
    ensures r == ItemsFrom(w, env, p, key, 0)
    decreases Room(env, key), Level(w.size, p), p, 0
  {
    hide FromEnv;
    var items: seq<Json> := [];
    var index := 0;
    assert Prepend([], ItemsFrom(w, env, p, key, 0)) == ItemsFrom(w, env, p, key, 0) by {
      if ItemsFrom(w, env, p, key, 0).Items? {
        assert [] + ItemsFrom(w, env, p, key, 0).items == ItemsFrom(w, env, p, key, 0).items;
      }
    }
    while true
      invariant 0 <= index
      invariant ItemsFrom(w, env, p, key, 0) == Prepend(items, ItemsFrom(w, env, p, key, index))
      decreases IndexBound(env) - index
    {
      var item := ReadEnv(w, env, p.item, ItemKey(key, index));
      if item.Raised? { return ItemsRaised; }
      if item.value.Missing? {
        assert items + [] == items;
        return Items(items);
      }
      IndexIsBounded(env, key, index);
      PrependMore(items, item.value, ItemsFrom(w, env, p, key, index + 1));
      items := items + [item.value];
      index := index + 1;
    }
  }

  /** Each item of a decoded list overwritten in place by its merge with the variables under it. */
  method ReadOverlay(w: World, env: Env, p: Parser, key: string, base: seq<Json>) returns (r: Items)
    requires Guarded(w) && p.ListP?
    ensures r == OverlayFrom(w, env, p, key, base, 0)
    decreases Room(env, key), Level(w.size, p), p, 0
  {
    hide FromEnv, Merge;
    var result := base;
    assert Prepend(result[..0], OverlayFrom(w, env, p, key, base, 0)) == OverlayFrom(w, env, p, key, base, 0) by {
      if OverlayFrom(w, env, p, key, base, 0).Items? {
        assert [] + OverlayFrom(w, env, p, key, base, 0).items == OverlayFrom(w, env, p, key, base, 0).items;
      }
    }
    for index := 0 to |base|
      invariant |result| == |base| && result[index..] == base[index..]
      invariant OverlayFrom(w, env, p, key, base, 0) ==
          Prepend(result[..index], OverlayFrom(w, env, p, key, base, index))
    {
      var item := ReadEnv(w, env, p.item, ItemKey(key, index));
      if item.Raised? { return ItemsRaised; }
      assert result[index] == result[index..][0] == base[index];
      var merged := MergeValues(result[index], item.value);
      if merged.Raised? { return ItemsRaised; }
      PrependMore(result[..index], merged.value, OverlayFrom(w, env, p, key, base, index + 1));
      ghost var before := result;
      result := result[index := merged.value];
      assert result[..index + 1] == before[..index] + [merged.value];
      assert result[index + 1..] == before[index..][1..] == base[index + 1..];
    }
    assert result[..|base|] + [] == result;
    return Items(result);
  }

  method ReadAlternatives(w: World, env: Env, p: Parser, key: string) returns (r: Outcome)
    requires Guarded(w) && p.UnionP?
    ensures r == AlternativesFrom(w, env, p, key, 0, Missing)
    decreases Room(env, key), Level(w.size, p), p, 0
  {
    hide FromEnv, Merge;
    var result := Missing;
    for i := 0 to |p.alternatives|
      invariant AlternativesFrom(w, env, p, key, 0, Missing) == AlternativesFrom(w, env, p, key, i, result)
    {
      var v := ReadEnv(w, env, p.alternatives[i], key);
      if v.Raised? { return Raised; }
      var merged := MergeValues(result, v.value);
      if merged.Raised? { return Raised; }
      result := merged.value;
    }
    return Ok(result);
  }

  /** Reads a value; terminates on every environment and every graph whose cycles pass through models. */
  method ReadEnv(w: World, env: Env, p: Parser, key: string) returns (r: Outcome)
    requires Guarded(w)
    ensures r == FromEnv(w, env, p, key)
    decreases Room(env, key), Level(w.size, p), p, 1
  {
    hide FieldsFrom, ItemsFrom, OverlayFrom, AlternativesFrom, IsTrue, ParseInt;
    match p
    case ModelP(_) => r := ReadModel(w, env, p, key);
    case ListP(_) =>
      if key !in env {
        var items := ReadItems(w, env, p, key);
        if items.ItemsRaised? { return Raised; }
        return Ok(if items.items == [] then Missing else List(items.items));
      }
      var base := ListBase(w.json(env[key]));
      if base.ItemsRaised? { return Raised; }
      var items := ReadOverlay(w, env, p, key, base.items);
      if items.ItemsRaised? { return Raised; }
      return Ok(List(items.items));
    case UnionP(_, _) => r := ReadAlternatives(w, env, p, key);
    case KindP(names, parsers) =>
      var kind := KindName(names, env, key);
      if kind.None? { return Ok(Missing); }
      var i := LastIndexOf(names, kind.value);
      if i.None? || i.value >= |parsers| { return Raised; }
      var v := ReadEnv(w, env, parsers[i.value], key);
      return WithKind(v, kind.value, key + "_KIND" in env);
    case DelayedP(target) =>
      if target !in w.heap { return Raised; }
      r := ReadEnv(w, env, w.heap[target], key);
    case BoolP => return FromEnv(w, env, p, key);
    case IntP => return FromEnv(w, env, p, key);
    case FloatP => return FromEnv(w, env, p, key);
    case StrP => return FromEnv(w, env, p, key);
    case NoneP => return FromEnv(w, env, p, key);
    case LiteralP(_) => return FromEnv(w, env, p, key);
    case DictP => return FromEnv(w, env, p, key);
  }
}
