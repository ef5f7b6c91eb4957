/** Building the parser graph of a class: delayed references stand in for classes under construction. */
module EnvBuild {
  import opened Text
  import opened EnvParser
  import opened EnvLocality

  datatype Ty =
    | StrT | IntT | FloatT | BoolT | NoneT
    | AnnotatedT(inner: Ty)
    | UnionT(members: seq<Ty>)
    | ListT(item: Ty)
    | DictT
    | LiteralT(values: seq<string>)
    | ClassT(id: ClassId)

  /** Classes are numbered in the order they are created, so a subclass follows its bases. */
  datatype ClassDef =
    | ModelC(fields: seq<FieldDef>)
    | AbstractC(subclasses: seq<ClassId>, names: seq<string>)
    | EnumC(values: seq<string>)
    | OtherC

  datatype FieldDef = FieldDef(name: string, ty: Ty)

  type ClassTable = seq<ClassDef>

  predicate WellOrdered(table: ClassTable)
  {
    forall id :: 0 <= id < |table| && table[id].AbstractC? ==>
      && |table[id].subclasses| == |table[id].names|
      && forall i :: 0 <= i < |table[id].subclasses| ==> id < table[id].subclasses[i] < |table|
  }

  /** The `parsers` dictionary, and the targets assigned to delayed parsers so far. */
  datatype Registry = Registry(parsers: map<ClassId, Parser>, heap: map<ClassId, Parser>)

  datatype Built = Built(parser: Parser, reg: Registry) | UnknownType

  datatype BuiltAll = BuiltAll(parsers: seq<Parser>, reg: Registry) | UnknownTypes

  ghost function Remaining(table: ClassTable, reg: Registry): set<ClassId>
  {
    Ids(|table|) - reg.parsers.Keys
  }

  ghost function Ids(n: nat): (ids: set<ClassId>)
    ensures forall id: nat :: id in ids <==> id < n
  {
    if n == 0 then {} else Ids(n - 1) + {n - 1}
  }

  function Start(reg: Registry, id: ClassId): Registry { reg.(parsers := reg.parsers[id := DelayedP(id)]) }

  function Finish(reg: Registry, id: ClassId, p: Parser): Registry
  {
    Registry(reg.parsers[id := p], reg.heap[id := p])
  }

  /** `isinstance` takes classes and unions of classes, but no subscripted generic. */
  predicate IsClass(ty: Ty)
  {
    match ty
    case AnnotatedT(_) => false
    case ListT(_) => false
    case DictT => false
    case LiteralT(_) => false
    case UnionT(members) => forall i :: 0 <= i < |members| ==> IsClass(members[i])
    case _ => true
  }

  function Classes(members: seq<Ty>): seq<bool>
  {
    seq(|members|, i requires 0 <= i < |members| => IsClass(members[i]))
  }

  function ClassTypes(ids: seq<ClassId>): seq<Ty> { seq(|ids|, i requires 0 <= i < |ids| => ClassT(ids[i])) }

  function FieldTypes(fields: seq<FieldDef>): seq<Ty> { seq(|fields|, i requires 0 <= i < |fields| => fields[i].ty) }

  function NamedFields(fields: seq<FieldDef>, ps: seq<Parser>): seq<Field>
    requires |ps| == |fields|
  {
    seq(|fields|, i requires 0 <= i < |fields| => Field(fields[i].name, ps[i]))
  }

  function Build(table: ClassTable, ty: Ty, reg: Registry): (r: Built)
    ensures r.Built? ==> reg.parsers.Keys <= r.reg.parsers.Keys
    decreases Remaining(table, reg), ty, 1
  {
    match ty
    case StrT => Built(StrP, reg)
    case IntT => Built(IntP, reg)
    case FloatT => Built(FloatP, reg)
    case BoolT => Built(BoolP, reg)
    case NoneT => Built(NoneP, reg)
    case AnnotatedT(inner) => Build(table, inner, reg)
    case UnionT(members) =>
      (match BuildAll(table, members, reg)
       case UnknownTypes => UnknownType
       case BuiltAll(ps, reg') => Built(UnionP(ps, Classes(members)), reg'))
    case ListT(item) =>
      (match Build(table, item, reg)
       case UnknownType => UnknownType
       case Built(p, reg') => Built(ListP(p), reg'))
    case DictT => Built(DictP, reg)
    case LiteralT(values) => Built(LiteralP(values), reg)
    case ClassT(id) =>
      if id in reg.parsers then Built(reg.parsers[id], reg)
      else if id >= |table| then UnknownType
      else
        match table[id]
        case AbstractC(subclasses, names) =>
          (assert id in Remaining(table, reg) && id !in Remaining(table, Start(reg, id));
           match BuildAll(table, ClassTypes(subclasses), Start(reg, id))
           case UnknownTypes => UnknownType
           case BuiltAll(ps, reg') => Built(KindP(names, ps), Finish(reg', id, KindP(names, ps))))
        case ModelC(fields) =>
          (assert id in Remaining(table, reg) && id !in Remaining(table, Start(reg, id));
           match BuildAll(table, FieldTypes(fields), Start(reg, id))
           case UnknownTypes => UnknownType
           case BuiltAll(ps, reg') =>
             var p := ModelP(NamedFields(fields, ps));
             Built(p, Finish(reg', id, p)))
        case EnumC(values) => Built(LiteralP(values), reg)
        case OtherC => UnknownType
  }

  function BuildAll(table: ClassTable, tys: seq<Ty>, reg: Registry): (r: BuiltAll)
    ensures r.BuiltAll? ==> |r.parsers| == |tys| && reg.parsers.Keys <= r.reg.parsers.Keys
    decreases Remaining(table, reg), tys, 0
  {
    if tys == [] then BuiltAll([], reg)
    else
      match Build(table, tys[0], reg)
      case UnknownType => UnknownTypes
      case Built(p, reg') =>
        match BuildAll(table, tys[1..], reg')
        case UnknownTypes => UnknownTypes
        case BuiltAll(ps, reg'') => BuiltAll([p] + ps, reg'')
  }

  // ---------- what the construction keeps ----------

  ghost predicate Sound(table: ClassTable, reg: Registry)
  {
    && (forall id :: id in reg.heap ==>
          && id < |table| && id in reg.parsers
          && Level(|table|, reg.heap[id]) < |table| - id
          && Resolved(reg.parsers, reg.heap[id]))
    && (forall id :: id in reg.parsers ==>
          id < |table| && (reg.parsers[id] == DelayedP(id) || (id in reg.heap && reg.parsers[id] == reg.heap[id])))
  }

  function InProgress(reg: Registry): set<ClassId> { reg.parsers.Keys - reg.heap.Keys }

  predicate LevelFits(table: ClassTable, ty: Ty, p: Parser)
  {
    ty.ClassT? && ty.id < |table| ==> Level(|table|, p) <= |table| - ty.id
  }

  lemma {:induction false} ResolvedGrows(a: map<ClassId, Parser>, b: map<ClassId, Parser>, p: Parser)
    requires a.Keys <= b.Keys && Resolved(a, p)
    ensures Resolved(b, p)
    decreases p
  {
    match p
    case ModelP(fields) => forall i | 0 <= i < |fields|
        ensures Resolved(b, fields[i].parser) { ResolvedGrows(a, b, fields[i].parser); }
    case ListP(item) => ResolvedGrows(a, b, item);
    case UnionP(ps, _) => forall i | 0 <= i < |ps| ensures Resolved(b, ps[i]) { ResolvedGrows(a, b, ps[i]); }
    case KindP(_, ps) => forall i | 0 <= i < |ps| ensures Resolved(b, ps[i]) { ResolvedGrows(a, b, ps[i]); }
    case DelayedP(target) => assert target in a.Keys;
    case _ =>
  }

  lemma StartSound(table: ClassTable, reg: Registry, id: ClassId)
    requires Sound(table, reg) && id !in reg.parsers && id < |table|
    ensures Sound(table, Start(reg, id)) && InProgress(Start(reg, id)) == InProgress(reg) + {id}
  {
    forall k | k in reg.heap ensures Resolved(Start(reg, id).parsers, reg.heap[k]) {
      ResolvedGrows(reg.parsers, Start(reg, id).parsers, reg.heap[k]);
    }
  }

  lemma FinishSound(table: ClassTable, reg: Registry, id: ClassId, p: Parser)
    requires Sound(table, reg) && id in reg.parsers && id < |table|
    requires Level(|table|, p) < |table| - id && Resolved(reg.parsers, p)
    ensures Sound(table, Finish(reg, id, p)) && InProgress(Finish(reg, id, p)) == InProgress(reg) - {id}
    ensures Resolved(Finish(reg, id, p).parsers, p)
  {
    var after := Finish(reg, id, p);
    forall k | k in after.heap ensures Resolved(after.parsers, after.heap[k]) {
      ResolvedGrows(reg.parsers, after.parsers, after.heap[k]);
    }
    ResolvedGrows(reg.parsers, after.parsers, p);
  }

  lemma {:induction false} BuildSound(table: ClassTable, ty: Ty, reg: Registry)
    requires WellOrdered(table) && Sound(table, reg) && Build(table, ty, reg).Built?
    ensures var r := Build(table, ty, reg);
            && Sound(table, r.reg) && InProgress(r.reg) == InProgress(reg)
            && Resolved(r.reg.parsers, r.parser) && LevelFits(table, ty, r.parser)
    decreases Remaining(table, reg), ty, 1
  {
    hide Sound;
    match ty
    case AnnotatedT(inner) => BuildSound(table, inner, reg);
    case UnionT(members) => BuildAllSound(table, members, reg);
    case ListT(item) => BuildSound(table, item, reg);
    case ClassT(id) =>
      if id in reg.parsers {
        RegisteredFits(table, reg, id);
      } else {
        match table[id]
        case AbstractC(subclasses, names) => BuildAbstractSound(table, id, reg);
        case ModelC(fields) =>
          StartSound(table, reg, id);
          assert id in Remaining(table, reg) && id !in Remaining(table, Start(reg, id));
          BuildAllSound(table, FieldTypes(fields), Start(reg, id));
          var all := BuildAll(table, FieldTypes(fields), Start(reg, id));
          FinishSound(table, all.reg, id, ModelP(NamedFields(fields, all.parsers)));
        case EnumC(values) =>
      }
    case _ =>
  }

  lemma RegisteredFits(table: ClassTable, reg: Registry, id: ClassId)
    requires Sound(table, reg) && id in reg.parsers
    ensures id < |table| && Resolved(reg.parsers, reg.parsers[id]) && Level(|table|, reg.parsers[id]) <= |table| - id
  {
  }

  lemma {:induction false} BuildAbstractSound(table: ClassTable, id: ClassId, reg: Registry)
    requires WellOrdered(table) && Sound(table, reg) && id !in reg.parsers && id < |table| && table[id].AbstractC?
    requires Build(table, ClassT(id), reg).Built?
    ensures var r := Build(table, ClassT(id), reg);
            && Sound(table, r.reg) && InProgress(r.reg) == InProgress(reg)
            && Resolved(r.reg.parsers, r.parser) && Level(|table|, r.parser) < |table| - id
    decreases Remaining(table, reg), ClassT(id), 0
  {
    hide Sound;
    var subclasses, names := table[id].subclasses, table[id].names;
    var tys := ClassTypes(subclasses);
    StartSound(table, reg, id);
    assert id in Remaining(table, reg) && id !in Remaining(table, Start(reg, id));
    BuildAllSound(table, tys, Start(reg, id));
    var all := BuildAll(table, tys, Start(reg, id));
    forall i | 0 <= i < |subclasses| ensures Level(|table|, all.parsers[i]) <= |table| - id - 1 {
      assert LevelFits(table, tys[i], all.parsers[i]);
    }
    MaxLevelBelow(|table|, all.parsers, |table| - id - 1);
    assert id in Start(reg, id).parsers.Keys;
    FinishSound(table, all.reg, id, KindP(names, all.parsers));
  }

  lemma {:induction false} MaxLevelBelow(size: nat, ps: seq<Parser>, bound: nat)
    requires forall i :: 0 <= i < |ps| ==> Level(size, ps[i]) <= bound
    ensures MaxLevel(size, ps) <= bound
  {
    if ps != [] {
      assert forall i :: 0 <= i < |ps[1..]| ==> ps[1..][i] == ps[i + 1];
      MaxLevelBelow(size, ps[1..], bound);
    }
  }

  lemma {:induction false} BuildAllSound(table: ClassTable, tys: seq<Ty>, reg: Registry)
    requires WellOrdered(table) && Sound(table, reg) && BuildAll(table, tys, reg).BuiltAll?
    ensures var r := BuildAll(table, tys, reg);
            && Sound(table, r.reg) && InProgress(r.reg) == InProgress(reg)
            && (forall i :: 0 <= i < |tys| ==>
                Resolved(r.reg.parsers, r.parsers[i]) && LevelFits(table, tys[i], r.parsers[i]))
    decreases Remaining(table, reg), tys, 0
  {
    hide Sound, Build, LevelFits;
    if tys != [] {
      var first := Build(table, tys[0], reg);
      BuildSound(table, tys[0], reg);
      BuildAllSound(table, tys[1..], first.reg);
      var rest := BuildAll(table, tys[1..], first.reg);
      ResolvedGrows(first.reg.parsers, rest.reg.parsers, first.parser);
      var r := BuildAll(table, tys, reg);
      forall i | 0 <= i < |tys| ensures Resolved(r.reg.parsers, r.parsers[i]) &&
          LevelFits(table, tys[i], r.parsers[i]) {
        if i > 0 { assert tys[i] == tys[1..][i - 1] && r.parsers[i] == rest.parsers[i - 1]; }
      }
    }
  }

  /** Every graph built from scratch can be read: cycles pass through models, no reference dangles. */
  lemma BuiltGraphIsReadable(table: ClassTable, ty: Ty, json: string -> Option<Json>, float: string -> Option<real>)
    requires WellOrdered(table) && Build(table, ty, Registry(map[], map[])).Built?
    ensures var r := Build(table, ty, Registry(map[], map[]));
            && Guarded(World(r.reg.heap, |table|, json, float, false))
            && Closed(r.reg.heap) && Resolved(r.reg.heap, r.parser)
  {
    var r := Build(table, ty, Registry(map[], map[]));
    BuildSound(table, ty, Registry(map[], map[]));
    assert InProgress(r.reg) == {};
    forall id | id in r.reg.parsers.Keys ensures id in r.reg.heap.Keys {
      assert id in InProgress(r.reg) <==> id !in r.reg.heap;
    }
    forall id | id in r.reg.heap ensures Resolved(r.reg.heap, r.reg.heap[id]) {
      ResolvedGrows(r.reg.parsers, r.reg.heap, r.reg.heap[id]);
    }
    ResolvedGrows(r.reg.parsers, r.reg.heap, r.parser);
  }

  // ---------- when the construction succeeds ----------

  /** Only classes of the table that some parser reads. */
  predicate Known(table: ClassTable, ty: Ty)
    decreases ty
  {
    match ty
    case AnnotatedT(inner) => Known(table, inner)
    case ListT(item) => Known(table, item)
    case UnionT(members) => forall i :: 0 <= i < |members| ==> Known(table, members[i])
    case ClassT(id) => id < |table| && !table[id].OtherC?
    case _ => true
  }

  predicate AllKnown(table: ClassTable)
  {
    forall id :: 0 <= id < |table| ==>
      && (table[id].ModelC? ==> forall i :: 0 <= i < |table[id].fields| ==> Known(table, table[id].fields[i].ty))
      && (table[id].AbstractC? ==>
            forall i :: 0 <= i < |table[id].subclasses| ==> Known(table, ClassT(table[id].subclasses[i])))
  }

  /** Classes of known fields always get a parser; the type of an unknown class never does. */
  lemma {:induction false} KnownIsBuilt(table: ClassTable, ty: Ty, reg: Registry)
    requires AllKnown(table) && Known(table, ty)
    ensures Build(table, ty, reg).Built?
    decreases Remaining(table, reg), ty, 1
  {
    match ty
    case AnnotatedT(inner) => KnownIsBuilt(table, inner, reg);
    case UnionT(members) => AllKnownAreBuilt(table, members, reg);
    case ListT(item) => KnownIsBuilt(table, item, reg);
    case ClassT(id) =>
      if id !in reg.parsers {
        match table[id]
        case AbstractC(subclasses, _) =>
          StartShrinks(table, reg, id);
          AllKnownAreBuilt(table, ClassTypes(subclasses), Start(reg, id));
        case ModelC(fields) =>
          StartShrinks(table, reg, id);
          AllKnownAreBuilt(table, FieldTypes(fields), Start(reg, id));
        case EnumC(_) =>
      }
    case _ =>
  }

  lemma {:induction false} AllKnownAreBuilt(table: ClassTable, tys: seq<Ty>, reg: Registry)
    requires AllKnown(table) && forall i :: 0 <= i < |tys| ==> Known(table, tys[i])
    ensures BuildAll(table, tys, reg).BuiltAll?
    decreases Remaining(table, reg), tys, 0
  {
    hide Build;
    if tys != [] {
      KnownIsBuilt(table, tys[0], reg);
      var first := Build(table, tys[0], reg);
      RemainingShrinks(table, reg, first.reg);
      AllKnownAreBuilt(table, tys[1..], first.reg);
    }
  }

  lemma UnknownIsNotBuilt(table: ClassTable, id: ClassId, reg: Registry)
    requires id !in reg.parsers && (id < |table| ==> table[id].OtherC?)
    ensures Build(table, ClassT(id), reg).UnknownType? && Build(table, ListT(ClassT(id)), reg).UnknownType?
  {
  }

  // ---------- the construction as it runs ----------

  lemma StartShrinks(table: ClassTable, reg: Registry, id: ClassId)
    requires id !in reg.parsers && id < |table|
    ensures Remaining(table, Start(reg, id)) < Remaining(table, reg)
  {
    assert id in Remaining(table, reg) && id !in Remaining(table, Start(reg, id));
  }

  function Prepend(ps: seq<Parser>, r: BuiltAll): BuiltAll
  {
    match r case UnknownTypes => UnknownTypes case BuiltAll(qs, reg) => BuiltAll(ps + qs, reg)
  }

  lemma PrependMore(ps: seq<Parser>, p: Parser, r: BuiltAll)
    ensures Prepend(ps, Prepend([p], r)) == Prepend(ps + [p], r)
  {
    if r.BuiltAll? { assert ps + ([p] + r.parsers) == (ps + [p]) + r.parsers; }
  }

  lemma RemainingShrinks(table: ClassTable, a: Registry, b: Registry)
    requires a.parsers.Keys <= b.parsers.Keys
    ensures Remaining(table, b) <= Remaining(table, a)
  {
  }

  class ParserRegistry {
    var parsers: map<ClassId, Parser>
    var heap: map<ClassId, Parser>

    function State(): Registry
      reads this
    {
      Registry(parsers, heap)
    }

    constructor ()
      ensures State() == Registry(map[], map[])
    {
      parsers, heap := map[], map[];
    }

    method GetEnvParser(table: ClassTable, ty: Ty) returns (p: Option<Parser>)
      modifies this
      ensures var r := Build(table, ty, old(State()));
              if r.Built? then p == Some(r.parser) && State() == r.reg else p == None
      ensures p.Some? ==> old(parsers.Keys) <= parsers.Keys
      decreases Remaining(table, State()), ty, 1
    {
      hide Remaining;
      match ty
      case StrT => return Some(StrP);
      case IntT => return Some(IntP);
      case FloatT => return Some(FloatP);
      case BoolT => return Some(BoolP);
      case NoneT => return Some(NoneP);
      case AnnotatedT(inner) => p := GetEnvParser(table, inner);
      case UnionT(members) =>
        var ps := GetAll(table, members);
        return if ps.None? then None else Some(UnionP(ps.value, Classes(members)));
      case ListT(item) =>
        var q := GetEnvParser(table, item);
        return if q.None? then None else Some(ListP(q.value));
      case DictT => return Some(DictP);
      case LiteralT(values) => return Some(LiteralP(values));
      case ClassT(id) =>
        if id in parsers { return Some(parsers[id]); }
        if id >= |table| { return None; }
        match table[id] {
          case AbstractC(subclasses, names) =>
            StartShrinks(table, State(), id);
            parsers := parsers[id := DelayedP(id)];
            var ps := GetAll(table, ClassTypes(subclasses));
            if ps.None? { return None; }
            heap := heap[id := KindP(names, ps.value)];
            parsers := parsers[id := KindP(names, ps.value)];
            return Some(KindP(names, ps.value));
          case ModelC(fields) =>
            StartShrinks(table, State(), id);
            parsers := parsers[id := DelayedP(id)];
            var ps := GetAll(table, FieldTypes(fields));
            if ps.None? { return None; }
            heap := heap[id := ModelP(NamedFields(fields, ps.value))];
            parsers := parsers[id := ModelP(NamedFields(fields, ps.value))];
            return Some(ModelP(NamedFields(fields, ps.value)));
          case EnumC(values) => return Some(LiteralP(values));
          case OtherC => return None;
        }
    }

    /** The parsers of a list of types, one after the other in the same registry. */
    method GetAll(table: ClassTable, tys: seq<Ty>) returns (ps: Option<seq<Parser>>)
      modifies this
      ensures var r := BuildAll(table, tys, old(State()));
              if r.BuiltAll? then ps == Some(r.parsers) && State() == r.reg else ps == None
      ensures ps.Some? ==> old(parsers.Keys) <= parsers.Keys
      decreases Remaining(table, State()), tys, 0
    {
      hide Build, Remaining;
      var result: seq<Parser> := [];
      ghost var all := BuildAll(table, tys, State());
      assert all == Prepend([], BuildAll(table, tys[0..], State())) by {
        assert tys[0..] == tys;
        if all.BuiltAll? { assert [] + all.parsers == all.parsers; }
      }
      for i := 0 to |tys|
        invariant old(parsers.Keys) <= parsers.Keys
        invariant all == Prepend(result, BuildAll(table, tys[i..], State()))
      {
        assert tys[i..][0] == tys[i] && tys[i..][1..] == tys[i + 1..];
        RemainingShrinks(table, old(State()), State());
        var p := GetEnvParser(table, tys[i]);
        if p.None? { return None; }
        PrependMore(result, p.value, BuildAll(table, tys[i + 1..], State()));
        result := result + [p.value];
      }
      assert tys[|tys|..] == [] && result + [] == result;
      return Some(result);
    }
  }
}
