/** Environment variables read into JSON-like values by a family of parsers that may refer to one
    another in cycles. */
module EnvParser {
  import opened Text

  type Env = map<string, string>

  type ClassId = nat

  /** `Missing` is a value of its own: lists may hold it. */
  datatype Json =
    | Missing
    | Null
    | Bool(b: bool)
    | Int(n: int)
    | Float(x: real)
    | Str(s: string)
    | List(items: seq<Json>)
    | Dict(fields: map<string, Json>)

  /** A value, or an exception (bad number, bad JSON, failed assertion, unknown kind, bad index). */
  datatype Outcome = Ok(value: Json) | Raised

  datatype Items = Items(items: seq<Json>) | ItemsRaised

  /** A union remembers of each alternative whether its type is a class, as opposed to a subscripted
      generic such as `list[int]`. */
  datatype Parser =
    | BoolP
    | IntP
    | FloatP
    | StrP
    | NoneP
    | LiteralP(values: seq<string>)
    | DictP
    | ModelP(fields: seq<Field>)
    | ListP(item: Parser)
    | UnionP(alternatives: seq<Parser>, classes: seq<bool>)
    | KindP(names: seq<string>, parsers: seq<Parser>)
    | DelayedP(target: ClassId)

  datatype Field = Field(name: string, parser: Parser)

  /** Where delayed references lead (classes are numbered below `size`), how text is decoded, and
      which test guards a model's recursion: the source's prefix test, or the exact one. */
  datatype World = World(
    heap: map<ClassId, Parser>,
    size: nat,
    json: string -> Option<Json>,
    float: string -> Option<real>,
    exactGuard: bool)

  // ---------- every cycle passes through a model ----------

  /** Bound on the delayed references that can be followed before a model is reached; a class
      refers, outside models, only to classes with greater numbers. */
  function Level(size: nat, p: Parser): nat
    decreases p, 1
  {
    match p
    case ListP(item) => Level(size, item)
    case UnionP(alternatives, _) => MaxLevel(size, alternatives)
    case KindP(_, parsers) => MaxLevel(size, parsers)
    case DelayedP(target) => if target < size then size - target else 0
    case _ => 0
  }

  function MaxLevel(size: nat, ps: seq<Parser>): (r: nat)
    ensures forall i :: 0 <= i < |ps| ==> Level(size, ps[i]) <= r
    decreases ps, 0
  {
    if ps == [] then 0
    else
      assert forall i :: 0 < i < |ps| ==> ps[i] == ps[1..][i - 1];
      Max(Level(size, ps[0]), MaxLevel(size, ps[1..]))
  }

  ghost predicate Guarded(w: World)
  {
    forall id :: id in w.heap ==> id < w.size && Level(w.size, w.heap[id]) < w.size - id
  }

  // ---------- keys ----------

  predicate InRegion(key: string, k: string) { k == key || key + "_" <= k }

  ghost predicate NoVars(env: Env, key: string) { forall k :: k in env ==> !InRegion(key, k) }

  lemma RegionsNest(key: string, suffix: string, k: string)
    requires InRegion(key + "_" + suffix, k)
    ensures key + "_" <= k && InRegion(key, k)
  {
    var sub := key + "_" + suffix;
    assert sub[..|key| + 1] == key + "_";
    assert k[..|sub|] == sub;
    assert k[..|key| + 1] == k[..|sub|][..|key| + 1];
  }

  lemma NoVarsBelow(env: Env, key: string, suffix: string)
    ensures NoVars(env, key) ==> NoVars(env, key + "_" + suffix)
  {
    forall k | k in env && InRegion(key + "_" + suffix, k) ensures InRegion(key, k) { RegionsNest(key, suffix, k); }
  }

  ghost function MaxLength(keys: set<string>): (n: nat)
    ensures forall k :: k in keys ==> |k| <= n
  {
    if keys == {} then 0
    else
      var k :| k in keys;
      Max(|k|, MaxLength(keys - {k}))
  }

  /** How much longer a key can grow before it is no prefix of any variable. */
  ghost function Room(env: Env, key: string): nat { Max(0, MaxLength(env.Keys) + 1 - |key|) }

  /** Only finitely many indices can occur in variables. */
  ghost function IndexBound(env: Env): nat { Pow10(MaxLength(env.Keys)) }

  lemma IndexIsBounded(env: Env, key: string, index: nat)
    requires !NoVars(env, key + "_" + Dec(index))
    ensures index < IndexBound(env)
  {
    var k :| k in env && InRegion(key + "_" + Dec(index), k);
    DecBound(index);
    Pow10Monotone(|Dec(index)|, MaxLength(env.Keys));
  }

  // ---------- leaves ----------

  function UpperChar(c: char): char
  {
    if 'a' <= c <= 'z' then (c as int - 32) as char else c
  }

  /** `s.upper()` on ASCII letters. */
  function Upper(s: string): (r: string)
    ensures |r| == |s|
  {
    if s == "" then "" else [UpperChar(s[0])] + Upper(s[1..])
  }

  predicate IsTrue(s: string) { Upper(s) == "1" || Upper(s) == "TRUE" }

  /** Digits with single underscores between them. */
  predicate DigitGroups(s: string)
  {
    && s != "" && IsDigit(s[0]) && IsDigit(s[|s| - 1])
    && DigitsAndUnderscores(s)
    && forall i :: 0 < i < |s| && s[i] == '_' ==> s[i - 1] != '_'
  }

  predicate DigitsAndUnderscores(s: string) { forall i :: 0 <= i < |s| ==> IsDigit(s[i]) || s[i] == '_' }

  function DropUnderscores(s: string): (r: string)
    requires DigitsAndUnderscores(s)
    ensures AllDigits(r)
    ensures AllDigits(s) ==> r == s
  {
    if s == "" then ""
    else
      assert forall i :: 0 < i < |s| ==> s[i] == s[1..][i - 1];
      (if s[0] == '_' then "" else [s[0]]) + DropUnderscores(s[1..])
  }

  /** `int(s)` */
  function ParseInt(s: string): Option<int>
  {
    var t := Strip(s);
    var signed := t != "" && (t[0] == '-' || t[0] == '+');
    var digits := if signed then t[1..] else t;
    if !DigitGroups(digits) then None
    else
      var n: int := NatOf(DropUnderscores(digits));
      Some(if signed && t[0] == '-' then -n else n)
  }

  /** A non-empty value must be a JSON object. */
  function JsonObject(w: World, env: Env, key: string): (r: Outcome)
    ensures r.Ok? ==> r.value.Missing? || r.value.Dict?
    ensures key !in env ==> r == Ok(Missing)
  {
    if key in env && env[key] != "" then
      match w.json(env[key])
      case Some(j) => if j.Dict? then Ok(j) else Raised
      case None => Raised
    else Ok(Missing)
  }

  // ---------- merging ----------

  /** `merge`: later values win, dictionaries and lists merge element by element, and a present
      value beats a missing or absent one. */
  function Merge(a: Json, b: Json): (r: Outcome)
    ensures a.Missing? ==> r == Ok(b)
    ensures b.Missing? ==> r == Ok(a)
    ensures r.Ok? && r.value.Missing? ==> a.Missing? && b.Missing?
    decreases b
  {
    if a.Missing? then Ok(b)
    else if b.Missing? then Ok(a)
    else if a.Dict? && b.Dict? then
      if exists k | k in b.fields :: Merge(Lookup(a.fields, k), b.fields[k]).Raised? then Raised
      else Ok(Dict(map k | k in a.fields.Keys + b.fields.Keys ::
                     if k in b.fields then Merge(Lookup(a.fields, k), b.fields[k]).value else a.fields[k]))
    else if a.List? && b.List? then
      if |b.items| > |a.items| || exists i | 0 <= i < |b.items| :: Merge(a.items[i], b.items[i]).Raised? then Raised
      else Ok(List(seq(|a.items|, i requires 0 <= i < |a.items| =>
                         if i < |b.items| then Merge(a.items[i], b.items[i]).value else a.items[i])))
    else if b.Null? then Ok(a)
    else Ok(b)
  }

  /** `result.get(key)`: an absent entry reads as `None`. */
  function Lookup(m: map<string, Json>, k: string): Json { if k in m then m[k] else Null }

  // ---------- the parsers ----------

  predicate GuardHolds(w: World, env: Env, name: string)
  {
    if w.exactGuard then exists k | k in env :: InRegion(name, k) else exists k | k in env :: name <= k
  }

  function FieldKey(key: string, field: Field): string { key + "_" + Upper(field.name) }

  function ItemKey(key: string, index: nat): string { key + "_" + Dec(index) }

  lemma GuardNeedsVars(w: World, env: Env, key: string, field: Field)
    requires GuardHolds(w, env, FieldKey(key, field))
    ensures !NoVars(env, key)
  {
    var name := FieldKey(key, field);
    var k :| k in env && name <= k;
    assert name[..|key| + 1] == key + "_" && k[..|name|] == name;
    assert k[..|key| + 1] == k[..|name|][..|key| + 1];
  }

  lemma GuardLimitsLength(w: World, env: Env, key: string, field: Field)
    requires GuardHolds(w, env, FieldKey(key, field))
    ensures Room(env, FieldKey(key, field)) < Room(env, key)
  {
    var name := FieldKey(key, field);
    var k :| k in env && name <= k;
    assert |k| <= MaxLength(env.Keys);
  }

  function LastIndexOf(names: seq<string>, name: string): (r: Option<nat>)
    ensures r.Some? ==> r.value < |names| && names[r.value] == name
  {
    if names == [] then None
    else if names[|names| - 1] == name then Some(|names| - 1)
    else LastIndexOf(names[..|names| - 1], name)
  }

  /** The part of a dotted class name after the last dot. */
  function AfterLastDot(s: string): string
  {
    if s == "" || s[|s| - 1] == '.' then "" else AfterLastDot(s[..|s| - 1]) + [s[|s| - 1]]
  }

  function KindName(names: seq<string>, env: Env, key: string): Option<string>
  {
    if key + "_KIND" in env then
      Some(if '.' in env[key + "_KIND"] then AfterLastDot(env[key + "_KIND"]) else env[key + "_KIND"])
    else if names != [] && forall i :: 0 <= i < |names| ==> names[i] == names[0] then Some(names[0])
    else None
  }

  function WithKind(r: Outcome, kind: string, kindGiven: bool): Outcome
  {
    match r
    case Raised => Raised
    case Ok(v) =>
      if v.Missing? then (if kindGiven then Ok(Dict(map["kind" := Str(kind)])) else Ok(Missing))
      else if v.Dict? then Ok(Dict(v.fields["kind" := Str(kind)]))
      else Raised
  }

  /** A JSON list, or a number N (booleans are numbers) standing for N missing items. */
  function ListBase(decoded: Option<Json>): Items
  {
    match decoded
    case None => ItemsRaised
    case Some(j) =>
      if j.List? then Items(j.items)
      else if j.Int? then Items(seq(Max(0, j.n), _ => Missing))
      else if j.Bool? then Items(if j.b then [Missing] else [])
      else ItemsRaised
  }

  function FromEnv(w: World, env: Env, p: Parser, key: string): (r: Outcome)
    requires Guarded(w)
    ensures NoVars(env, key) ==> r.Raised? || r == Ok(Missing)
    decreases Room(env, key), Level(w.size, p), p
  {
    match p
    case BoolP => if key in env then Ok(Bool(IsTrue(env[key]))) else Ok(Missing)
    case IntP =>
      if key !in env then Ok(Missing)
      else (match ParseInt(env[key]) case Some(n) => Ok(Int(n)) case None => Raised)
    case FloatP =>
      if key !in env then Ok(Missing)
      else (match w.float(env[key]) case Some(x) => Ok(Float(x)) case None => Raised)
    case StrP => if key in env then Ok(Str(env[key])) else Ok(Missing)
    case NoneP =>
      assert InRegion(key, key + "_IS_NONE") by { assert (key + "_IS_NONE")[..|key| + 1] == key + "_"; }
      if key + "_IS_NONE" in env && IsTrue(env[key + "_IS_NONE"]) then Ok(Null) else Ok(Missing)
    case LiteralP(values) => if key in env && env[key] in values then Ok(Str(env[key])) else Ok(Missing)
    case DictP => JsonObject(w, env, key)
    case ModelP(_) =>
      (match JsonObject(w, env, key)
       case Raised => Raised
       case Ok(base) => FieldsFrom(w, env, p, key, 0, base))
    case ListP(_) =>
      if key !in env then
        (match ItemsFrom(w, env, p, key, 0)
         case ItemsRaised => Raised
         case Items(items) => Ok(if items == [] then Missing else List(items)))
      else
        (match ListBase(w.json(env[key]))
         case ItemsRaised => Raised
         case Items(base) =>
           match OverlayFrom(w, env, p, key, base, 0)
           case ItemsRaised => Raised
           case Items(items) => Ok(List(items)))
    case UnionP(_, _) => AlternativesFrom(w, env, p, key, 0, Missing)
    case KindP(names, parsers) =>
      (assert InRegion(key, key + "_KIND") by { assert (key + "_KIND")[..|key| + 1] == key + "_"; }
       match KindName(names, env, key)
       case None => Ok(Missing)
       case Some(kind) =>
         match LastIndexOf(names, kind)
         case None => Raised
         case Some(i) =>
           if i >= |parsers| then Raised
           else WithKind(FromEnv(w, env, parsers[i], key), kind, key + "_KIND" in env))
    case DelayedP(target) => if target in w.heap then FromEnv(w, env, w.heap[target], key) else Raised
  }

  /** The fields from number `i` on, read over `result`. */
  function FieldsFrom(w: World, env: Env, p: Parser, key: string, i: nat, result: Json): (r: Outcome)
    requires Guarded(w) && p.ModelP? && i <= |p.fields| && (result.Missing? || result.Dict?)
    ensures NoVars(env, key) ==> r == Ok(result)
    decreases Room(env, key), Level(w.size, p), p, |p.fields| - i
  {
    if i == |p.fields| then Ok(result)
    else
      var field := p.fields[i];
      var name := FieldKey(key, field);
      if !GuardHolds(w, env, name) then FieldsFrom(w, env, p, key, i + 1, result)
      else
        GuardLimitsLength(w, env, key, field);
        GuardNeedsVars(w, env, key, field);
        match FromEnv(w, env, field.parser, name)
        case Raised => Raised
        case Ok(v) =>
          if v.Missing? then FieldsFrom(w, env, p, key, i + 1, result)
          else
            match SetField(result, field.name, v)
            case Raised => Raised
            case Ok(next) => FieldsFrom(w, env, p, key, i + 1, next)
  }

  /** One field's value merged into the model read so far. */
  function SetField(result: Json, name: string, v: Json): (r: Outcome)
    requires (result.Missing? || result.Dict?) && !v.Missing?
    ensures r.Ok? ==> r.value.Dict?
  {
    var fields := if result.Missing? then map[] else result.fields;
    match Merge(if name in fields then fields[name] else Missing, v)
    case Raised => Raised
    case Ok(merged) => Ok(Dict(fields[name := merged]))
  }

  /** Items read one by one until one is missing. */
  function ItemsFrom(w: World, env: Env, p: Parser, key: string, index: nat): (r: Items)
    requires Guarded(w) && p.ListP?
    ensures NoVars(env, key) ==> r.ItemsRaised? || r == Items([])
    decreases Room(env, key), Level(w.size, p), p, IndexBound(env) - index
  {
    NoVarsBelow(env, key, Dec(index));
    match FromEnv(w, env, p.item, ItemKey(key, index))
    case Raised => ItemsRaised
    case Ok(item) =>
      if item.Missing? then Items([])
      else
        IndexIsBounded(env, key, index);
        match ItemsFrom(w, env, p, key, index + 1)
        case ItemsRaised => ItemsRaised
        case Items(rest) => Items([item] + rest)
  }

  /** A decoded list with each item's own variables merged over it; items may stay missing. */
  function OverlayFrom(w: World, env: Env, p: Parser, key: string, base: seq<Json>, index: nat): Items
    requires Guarded(w) && p.ListP? && index <= |base|
    decreases Room(env, key), Level(w.size, p), p, |base| - index
  {
    if index == |base| then Items([])
    else
      match FromEnv(w, env, p.item, ItemKey(key, index))
      case Raised => ItemsRaised
      case Ok(item) =>
        match Merge(base[index], item)
        case Raised => ItemsRaised
        case Ok(merged) =>
          match OverlayFrom(w, env, p, key, base, index + 1)
          case ItemsRaised => ItemsRaised
          case Items(rest) => Items([merged] + rest)
  }

  /** The alternatives from number `i` on, merged over `result`. */
  function AlternativesFrom(w: World, env: Env, p: Parser, key: string, i: nat, result: Json): (r: Outcome)
    requires Guarded(w) && p.UnionP? && i <= |p.alternatives|
    ensures NoVars(env, key) ==> r.Raised? || r == Ok(result)
    decreases Room(env, key), Level(w.size, p), p, |p.alternatives| - i
  {
    if i == |p.alternatives| then Ok(result)
    else
      match FromEnv(w, env, p.alternatives[i], key)
      case Raised => Raised
      case Ok(v) =>
        match Merge(result, v)
        case Raised => Raised
        case Ok(next) => AlternativesFrom(w, env, p, key, i + 1, next)
  }
}
