/** From the classes themselves to the round trip: the graph built for a well-named class table meets
    every condition the round trip puts on parsers. */
module EnvSchema {
  import opened Text
  import opened EnvParser
  import opened EnvLocality
  import opened EnvBuild
  import opened EnvTemplate
  import opened EnvText
  import opened EnvRoundTrip
  import opened EnvLineFeed
  import opened EnvTextRoundTrip

  // ---------- conditions on the classes ----------

  function Bare(ty: Ty): Ty { if ty.AnnotatedT? then Bare(ty.inner) else ty }

  /** `X | None`, in either order. */
  predicate OptionalTy(members: seq<Ty>)
  {
    |members| == 2 && (Bare(members[0]).NoneT? <==> !Bare(members[1]).NoneT?)
  }

  /** A class that may be absent must not have fields that read the `IS_NONE` marker. */
  predicate NoneSafeTy(table: ClassTable, ty: Ty)
  {
    match Bare(ty)
    case ClassT(id) =>
      && id < |table| && (table[id].ModelC? || table[id].EnumC?)
      && (table[id].ModelC? ==> forall i :: 0 <= i < |table[id].fields| ==>
          Apart(Upper(table[id].fields[i].name), "IS_NONE"))
    case UnionT(_) => false
    case DictT => false
    case NoneT => false
    case _ => true
  }

  predicate TyOk(table: ClassTable, ty: Ty)
    decreases ty
  {
    match ty
    case AnnotatedT(inner) => TyOk(table, inner)
    case ListT(item) => TyOk(table, item)
    case LiteralT(values) => forall i :: 0 <= i < |values| ==> OneLine(values[i])
    case UnionT(members) =>
      && (forall i :: 0 <= i < |members| ==> TyOk(table, members[i]))
      && (OptionalTy(members) ==>
            forall i :: 0 <= i < |members| && !Bare(members[i]).NoneT? ==> NoneSafeTy(table, members[i]))
    case _ => true
  }

  /** Names are identifiers, siblings' names are apart, and enumerated values are single lines. */
  predicate ClassOk(table: ClassTable, c: ClassDef)
  {
    match c
    case ModelC(fields) =>
      && (forall i :: 0 <= i < |fields| ==> NameOk(fields[i].name) && TyOk(table, fields[i].ty))
      && forall i, j :: 0 <= i < |fields| && 0 <= j < |fields| && i != j ==>
           Apart(Upper(fields[i].name), Upper(fields[j].name))
    case AbstractC(_, names) => forall i :: 0 <= i < |names| ==> OneLine(names[i])
    case EnumC(values) => forall i :: 0 <= i < |values| ==> OneLine(values[i])
    case OtherC => true
  }

  predicate TableOk(table: ClassTable) { forall id :: 0 <= id < |table| ==> ClassOk(table, table[id]) }

  // ---------- what is built for a type ----------

  /** The parser has the structure of the type; a delayed reference stands for its class. */
  predicate Represents(table: ClassTable, ty: Ty, p: Parser)
    decreases p
  {
    var t := Bare(ty);
    match p
    case StrP => t.StrT?
    case IntP => t.IntT?
    case FloatP => t.FloatT?
    case BoolP => t.BoolT?
    case NoneP => t.NoneT?
    case DictP => t.DictT?
    case LiteralP(values) =>
      t == LiteralT(values) || (t.ClassT? && t.id < |table| && table[t.id] == EnumC(values))
    case ListP(item) => t.ListT? && Represents(table, t.item, item)
    case UnionP(ps, classes) =>
      && t.UnionT? && |ps| == |t.members| && classes == Classes(t.members)
      && forall i :: 0 <= i < |ps| ==> Represents(table, t.members[i], ps[i])
    case ModelP(fields) =>
      && t.ClassT? && t.id < |table| && table[t.id].ModelC? && |fields| == |table[t.id].fields|
      && forall i :: 0 <= i < |fields| ==>
           fields[i].name == table[t.id].fields[i].name && Represents(table, table[t.id].fields[i].ty, fields[i].parser)
    case KindP(names, ps) =>
      && t.ClassT? && t.id < |table| && table[t.id].AbstractC?
      && names == table[t.id].names && |ps| == |table[t.id].subclasses|
      && forall i :: 0 <= i < |ps| ==> Represents(table, ClassT(table[t.id].subclasses[i]), ps[i])
    case DelayedP(id) => t == ClassT(id) && id < |table| && (table[id].ModelC? || table[id].AbstractC?)
  }

  predicate Registered(table: ClassTable, reg: Registry)
  {
    && (forall id :: id in reg.parsers ==> Represents(table, ClassT(id), reg.parsers[id]))
    && (forall id :: id in reg.heap ==> Represents(table, ClassT(id), reg.heap[id]) && !reg.heap[id].DelayedP?)
  }

  lemma {:induction false} BuildRepresents(table: ClassTable, ty: Ty, reg: Registry)
    requires Registered(table, reg) && Build(table, ty, reg).Built?
    ensures var r := Build(table, ty, reg); Registered(table, r.reg) && Represents(table, ty, r.parser)
    decreases Remaining(table, reg), ty, 1
  {
    hide Registered;
    match ty
    case AnnotatedT(inner) =>
      BuildRepresents(table, inner, reg);
      SameBare(table, ty, inner, Build(table, ty, reg).parser);
    case UnionT(members) => BuildAllRepresent(table, members, reg);
    case ListT(item) => BuildRepresents(table, item, reg);
    case ClassT(id) =>
      if id in reg.parsers { RegisteredAt(table, reg, id); } else { BuildClassRepresents(table, id, reg); }
    case _ =>
  }

  lemma SameBare(table: ClassTable, a: Ty, b: Ty, p: Parser)
    requires Bare(a) == Bare(b) && Represents(table, b, p)
    ensures Represents(table, a, p)
  {
  }

  lemma RegisteredAt(table: ClassTable, reg: Registry, id: ClassId)
    requires Registered(table, reg)
    ensures id in reg.parsers ==> Represents(table, ClassT(id), reg.parsers[id])
    ensures id in reg.heap ==> Represents(table, ClassT(id), reg.heap[id]) && !reg.heap[id].DelayedP?
  {
  }

  lemma {:induction false} BuildClassRepresents(table: ClassTable, id: ClassId, reg: Registry)
    requires Registered(table, reg) && id !in reg.parsers && Build(table, ClassT(id), reg).Built?
    ensures var r := Build(table, ClassT(id), reg);
            Registered(table, r.reg) && Represents(table, ClassT(id), r.parser)
    decreases Remaining(table, reg), ClassT(id), 0
  {
    hide Registered;
    match table[id]
    case AbstractC(subclasses, names) =>
      StartRegistered(table, reg, id);
      StartShrinks(table, reg, id);
      BuildAllRepresent(table, ClassTypes(subclasses), Start(reg, id));
      var all := BuildAll(table, ClassTypes(subclasses), Start(reg, id));
      FinishRegistered(table, all.reg, id, KindP(names, all.parsers));
    case ModelC(fields) =>
      StartRegistered(table, reg, id);
      StartShrinks(table, reg, id);
      BuildAllRepresent(table, FieldTypes(fields), Start(reg, id));
      var all := BuildAll(table, FieldTypes(fields), Start(reg, id));
      FinishRegistered(table, all.reg, id, ModelP(NamedFields(fields, all.parsers)));
    case EnumC(values) =>
  }

  lemma StartRegistered(table: ClassTable, reg: Registry, id: ClassId)
    requires Registered(table, reg) && id < |table| && (table[id].ModelC? || table[id].AbstractC?)
    ensures Registered(table, Start(reg, id))
  {
  }

  lemma FinishRegistered(table: ClassTable, reg: Registry, id: ClassId, p: Parser)
    requires Registered(table, reg) && Represents(table, ClassT(id), p) && !p.DelayedP?
    ensures Registered(table, Finish(reg, id, p))
  {
    hide Represents;
  }

  lemma {:induction false} BuildAllRepresent(table: ClassTable, tys: seq<Ty>, reg: Registry)
    requires Registered(table, reg) && BuildAll(table, tys, reg).BuiltAll?
    ensures var r := BuildAll(table, tys, reg);
            && Registered(table, r.reg)
            && forall i :: 0 <= i < |tys| ==> Represents(table, tys[i], r.parsers[i])
    decreases Remaining(table, reg), tys, 0
  {
    hide Registered, Build, Represents;
    if tys != [] {
      var first := Build(table, tys[0], reg);
      BuildRepresents(table, tys[0], reg);
      RemainingShrinks(table, reg, first.reg);
      BuildAllRepresent(table, tys[1..], first.reg);
      var rest, r := BuildAll(table, tys[1..], first.reg), BuildAll(table, tys, reg);
      forall i | 0 <= i < |tys| ensures Represents(table, tys[i], r.parsers[i]) {
        if i > 0 { assert tys[i] == tys[1..][i - 1] && r.parsers[i] == rest.parsers[i - 1]; }
      }
    }
  }

  // ---------- well-named classes give well-named parsers ----------

  ghost predicate HeapOf(table: ClassTable, w: World)
  {
    && Guarded(w) && Closed(w.heap)
    && forall id :: id in w.heap ==> Represents(table, ClassT(id), w.heap[id]) && !w.heap[id].DelayedP?
  }

  lemma BuiltNoneSafe(table: ClassTable, w: World, ty: Ty, p: Parser)
    requires HeapOf(table, w) && Resolved(w.heap, p) && Represents(table, ty, p) && NoneSafeTy(table, ty)
    ensures NoneSafe(w, p)
  {
    hide Guarded, Closed, Apart;
    if p.DelayedP? {
      var q := w.heap[p.target];
      assert Represents(table, ClassT(p.target), q) && q.ModelP?;
      assert NoneSafe(w, q);
    }
  }

  lemma {:induction false} BuiltNamesOk(table: ClassTable, w: World, ty: Ty, p: Parser)
    requires HeapOf(table, w) && TableOk(table) && Resolved(w.heap, p) && Represents(table, ty, p) && TyOk(table, ty)
    ensures NamesOk(w, p)
    decreases p
  {
    hide HeapOf, Guarded, Apart, NameOk, OneLine, NoneSafe, NoneSafeTy;
    assert Guarded(w) by { HeapIsGuarded(table, w); }
    BareOk(table, ty);
    var t := Bare(ty);
    match p
    case ModelP(fields) =>
      assert ClassOk(table, table[t.id]);
      forall i | 0 <= i < |fields| ensures NamesOk(w, fields[i].parser) {
        BuiltNamesOk(table, w, table[t.id].fields[i].ty, fields[i].parser);
      }
    case ListP(item) => BuiltNamesOk(table, w, t.item, item);
    case UnionP(ps, _) =>
      forall i | 0 <= i < |ps| ensures NamesOk(w, ps[i]) { BuiltNamesOk(table, w, t.members[i], ps[i]); }
      if IsOptional(p) { OptionalSafe(table, w, t.members, p); }
    case KindP(names, ps) =>
      assert ClassOk(table, table[t.id]);
      forall i | 0 <= i < |ps| ensures NamesOk(w, ps[i]) {
        BuiltNamesOk(table, w, ClassT(table[t.id].subclasses[i]), ps[i]);
      }
    case LiteralP(values) => if t.ClassT? { assert ClassOk(table, table[t.id]); }
    case _ =>
  }

  lemma HeapIsGuarded(table: ClassTable, w: World)
    requires HeapOf(table, w)
    ensures Guarded(w)
  {
  }

  lemma {:induction false} BareOk(table: ClassTable, ty: Ty)
    requires TyOk(table, ty)
    ensures TyOk(table, Bare(ty)) && Bare(Bare(ty)) == Bare(ty) && !Bare(ty).AnnotatedT?
    decreases ty
  {
    if ty.AnnotatedT? { BareOk(table, ty.inner); }
  }

  lemma OptionalSafe(table: ClassTable, w: World, members: seq<Ty>, p: Parser)
    requires HeapOf(table, w) && Resolved(w.heap, p) && IsOptional(p) && TyOk(table, UnionT(members))
    requires |members| == 2 && forall i :: 0 <= i < 2 ==> Represents(table, members[i], p.alternatives[i])
    ensures NoneSafe(w, Present(p))
  {
    hide HeapOf, NoneSafe, NoneSafeTy, OneLine;
    assert Guarded(w) by { HeapIsGuarded(table, w); }
    hide Guarded;
    NoneMeansNone(table, members[0], p.alternatives[0]);
    NoneMeansNone(table, members[1], p.alternatives[1]);
    assert OptionalTy(members);
    var i := if p.alternatives[0].NoneP? then 1 else 0;
    BuiltNoneSafe(table, w, members[i], p.alternatives[i]);
  }

  lemma NoneMeansNone(table: ClassTable, ty: Ty, p: Parser)
    requires Represents(table, ty, p)
    ensures Bare(ty).NoneT? <==> p.NoneP?
  {
  }

  // ---------- the main results ----------

  function BuiltWorld(
    table: ClassTable, reg: Registry, json: string -> Option<Json>, float: string -> Option<real>): World
  {
    World(reg.heap, |table|, json, float, false)
  }

  /** The graph built from scratch for a type of a well-named class table. */
  lemma BuiltIsPlain(table: ClassTable, ty: Ty, json: string -> Option<Json>, float: string -> Option<real>)
    requires WellOrdered(table) && TableOk(table) && TyOk(table, ty)
    requires Build(table, ty, Registry(map[], map[])).Built?
    ensures var r := Build(table, ty, Registry(map[], map[]));
            var w := BuiltWorld(table, r.reg, json, float);
            Plain(w) && Resolved(w.heap, r.parser) && NamesOk(w, r.parser)
  {
    hide Build, TableOk, TyOk, Represents, NamesOk, Guarded, WellOrdered;
    var r := Build(table, ty, Registry(map[], map[]));
    var w := BuiltWorld(table, r.reg, json, float);
    BuiltGraphIsReadable(table, ty, json, float);
    BuildRepresents(table, ty, Registry(map[], map[]));
    BuiltNamesOk(table, w, ty, r.parser);
    forall id | id in w.heap ensures NamesOk(w, w.heap[id]) {
      ClosedAt(w, id);
      ClassTyOk(table, id);
      BuiltNamesOk(table, w, ClassT(id), w.heap[id]);
    }
  }

  lemma ClassTyOk(table: ClassTable, id: ClassId)
    ensures TyOk(table, ClassT(id))
  {
  }

  /** The round trip for a class: `from_env` undoes `to_env` with the parsers `get_env_parser` builds iff
      the value prints, has no empty list and no model without fields, holds only strings that fit, and
      the key can name its variables. */
  lemma ClassRoundTripIff(
      table: ClassTable, ty: Ty, json: string -> Option<Json>, float: string -> Option<real>, key: string, v: Value)
    requires WellOrdered(table) && TableOk(table) && TyOk(table, ty)
    requires Build(table, ty, Registry(map[], map[])).Built?
    ensures var r := Build(table, ty, Registry(map[], map[]));
            var w := BuiltWorld(table, r.reg, json, float);
            && Guarded(w)
            && (Conforms(w, r.parser, v) && JsonNeverGrows(w) ==>
                  (RoundTrips(w, r.parser, key, v) <==>
                   Printable(w, r.parser, v) && Solid(v) && StringsFit(v) && KeyFits(key, v)))
  {
    hide Build, TableOk, TyOk, WellOrdered, NamesOk, Guarded, Conforms, JsonNeverGrows, RoundTrips, Printable;
    hide Solid, StringsFit, KeyFits;
    var r := Build(table, ty, Registry(map[], map[]));
    var w := BuiltWorld(table, r.reg, json, float);
    BuiltIsPlain(table, ty, json, float);
    if Conforms(w, r.parser, v) && JsonNeverGrows(w) { RoundTripIff(w, r.parser, key, v); }
  }

  /** No value of a union with a subscripted member can be printed, whichever member it belongs to. */
  lemma SubscriptedUnionRaises(table: ClassTable, members: seq<Ty>, reg: Registry, w: World, i: nat, v: Value)
    requires Build(table, UnionT(members), reg).Built? && i < |members| && !IsClass(members[i]) && Guarded(w)
    ensures var p := Build(table, UnionT(members), reg).parser; Conforms(w, p, v) ==> !Printable(w, p, v)
  {
    hide Guarded, BuildAll, IsClass;
    var p := Build(table, UnionT(members), reg).parser;
    assert p.UnionP? && p.classes == Classes(members) && !p.classes[i];
  }

  /** `list[int] | None` is such a union; the absent value belongs to it. */
  lemma OptionalListRaises(table: ClassTable, reg: Registry, w: World)
    requires Guarded(w)
    ensures var r := Build(table, UnionT([ListT(IntT), NoneT]), reg);
            r.Built? && Conforms(w, r.parser, NoneV) && !Printable(w, r.parser, NoneV)
  {
    hide Guarded;
    var members := [ListT(IntT), NoneT];
    assert members[1..] == [NoneT] && members[1..][1..] == [];
    assert BuildAll(table, [NoneT], reg) == BuiltAll([NoneP], reg);
    assert Build(table, ListT(IntT), reg) == Built(ListP(IntP), reg);
    assert BuildAll(table, members, reg) == BuiltAll([ListP(IntP), NoneP], reg);
    assert Classes(members) == [false, true];
    SubscriptedUnionRaises(table, members, reg, w, 0, NoneV);
  }
}
