/**
 * The deep type-directed filters of common.ts and the empty-object pruning built
 * on them: `IPickByTypeDeep`, `IOmitByTypeDeep`, `IIsEmptyObject`,
 * `IWithoutEmptyObjectProps` and `IWithoutEmptyObjectPropsDeep`.
 *
 * The two deep filters share one shape and differ only in the shallow filter they
 * start from, so both are `FilterDeep` with a polarity: `pick` keeps the slots
 * whose `T[P]` extends `U`, otherwise the slots whose `T[P]` does not.
 */
module DeepFilters {
  import opened TsTypes
  import opened KeyFilters

  /** The keys the shallow filter of the given polarity keeps. */
  function FilterKeys(fs: seq<Field>, u: Ty, pick: bool): set<string>
  {
    if pick then KeysOfType(fs, u) else KeysNotOfType(fs, u)
  }

  /**
   * `IPickByTypeDeep<T, U>` (line 331) when `pick`, `IOmitByTypeDeep<T, U>` (line 376)
   * otherwise: the keys of the shallow filter, each slot kept with its modifier and,
   * when `T[P]` is an object type, its type filtered again.
   */
  function FilterDeep(fs: seq<Field>, u: Ty, pick: bool): seq<Field>
    decreases fs, 1
  {
    MapDeep(fs, FilterKeys(fs, u, pick), u, pick)
  }

  /** The mapped type over the keys `keys` of `T`: each slot of `T` with such a key, in its deep form. */
  function MapDeep(fs: seq<Field>, keys: set<string>, u: Ty, pick: bool): seq<Field>
    decreases fs, 0
  {
    if fs == [] then []
    else if fs[0].name in keys then [DeepSlot(fs[0], u, pick)] + MapDeep(fs[1..], keys, u, pick)
    else MapDeep(fs[1..], keys, u, pick)
  }

  /**
   * Whether `T[P] extends object` holds for a slot. The test is on `T[P]`, not on a
   * type parameter, so it does not distribute: it holds for a required slot
   * declared with an object type and, vacuously, for a required slot of type `never`.
   * An optional slot adds `undefined` (see `PropOfSlot`); arrays and `Date` are
   * leaves here.
   */
  predicate Descends(f: Field)
  {
    !f.optional && (f.ty.Obj? || f.ty == Never)
  }

  /**
   * One kept slot: `T[P] extends object ? Deep<T[P], U> : T[P]`. The deep filter of
   * `never` has no keys, so a required `never` slot becomes `{}`.
   */
  function DeepSlot(f: Field, u: Ty, pick: bool): (g: Field)
    ensures g.name == f.name && g.optional == f.optional
    ensures !Descends(f) ==> g == f
    ensures Descends(f) ==> g.ty.Obj?
    ensures f.ty == Never && !f.optional ==> g.ty == EmptyObj
    decreases f, 2
  {
    if !Descends(f) then f
    else if f.ty.Obj? then Field(f.name, Obj(FilterDeep(f.ty.fields, u, pick)), f.optional)
    else Field(f.name, EmptyObj, f.optional)
  }

  function PickByTypeDeep(fs: seq<Field>, u: Ty): (r: seq<Field>)
    ensures Names(r) == Names(PickByType(fs, u))
  {
    MapDeepNames(fs, KeysOfType(fs, u), u, true);
    FilterDeep(fs, u, true)
  }

  function OmitByTypeDeep(fs: seq<Field>, u: Ty): (r: seq<Field>)
    ensures Names(r) == Names(OmitByType(fs, u))
  {
    MapDeepNames(fs, KeysNotOfType(fs, u), u, false);
    FilterDeep(fs, u, false)
  }

  /**
   * The deep form of a mapped type has the keys of the shallow one, in the same
   * order and with the same modifiers.
   */
  lemma {:induction false} MapDeepNames(fs: seq<Field>, keys: set<string>, u: Ty, pick: bool)
    ensures |MapDeep(fs, keys, u, pick)| == |Pick(fs, keys)|
    ensures Names(MapDeep(fs, keys, u, pick)) == Names(Pick(fs, keys))
    ensures forall i | 0 <= i < |Pick(fs, keys)| ::
      MapDeep(fs, keys, u, pick)[i].optional == Pick(fs, keys)[i].optional
  {
    if fs != [] {
      MapDeepNames(fs[1..], keys, u, pick);
    }
  }

  /**
   * `IIsEmptyObject<T>` (line 412): `true` when `T` extends `Record<string, never>`,
   * `never` otherwise, distributed over the members of `T`; `false` stands for `never`.
   */
  function IsEmptyObject(t: Ty): (r: bool)
    ensures Flat(t) ==> (r <==> EmptyObj in Members(t))
  {
    var r := exists m | m in Members(t) :: Extends(m, EmptyObj);
    assert Flat(t) ==> forall m | m in Members(t) :: Extends(m, EmptyObj) <==> m == EmptyObj by {
      forall m | Flat(t) && m in Members(t) ensures Extends(m, EmptyObj) <==> m == EmptyObj {
        ExtendsEmptyObj(m);
      }
    }
    r
  }

  /** `IWithoutEmptyObjectProps<T>` (line 416): the slots whose `T[P]` does not extend `Record<string, never>`. */
  function WithoutEmptyObjectProps(fs: seq<Field>): (r: seq<Field>)
    ensures Subsequence(r, fs)
  {
    OmitByType(fs, EmptyObj)
  }

  /** `IWithoutEmptyObjectPropsDeep<T>` (line 424) */
  function WithoutEmptyObjectPropsDeep(fs: seq<Field>): (r: seq<Field>)
    ensures Names(r) == Names(WithoutEmptyObjectProps(fs))
  {
    OmitByTypeDeep(fs, EmptyObj)
  }

  /**
   * The slots the mapped type over `keys` produces are the deep forms of the slots
   * of `T` whose key is in `keys`.
   */
  lemma {:induction false} MapDeepMembers(fs: seq<Field>, keys: set<string>, u: Ty, pick: bool)
    ensures forall g :: g in MapDeep(fs, keys, u, pick) <==>
      exists f | f in fs && f.name in keys :: g == DeepSlot(f, u, pick)
  {
    if fs != [] {
      MapDeepMembers(fs[1..], keys, u, pick);
      assert forall f | f in fs :: f == fs[0] || f in fs[1..];
      assert forall f | f in fs[1..] :: f in fs;
    }
  }

  /**
   * In an object type that declares each property once, the deep filter keeps
   * exactly the slots the shallow criterion keeps (`T[P] extends U` for
   * `IPickByTypeDeep`, its negation for `IOmitByTypeDeep`), each in its deep form.
   */
  lemma FilterDeepKeeps(fs: seq<Field>, u: Ty, pick: bool)
    requires DistinctNames(fs)
    ensures forall f | f in fs :: DeepSlot(f, u, pick) in FilterDeep(fs, u, pick) <==> Extends(Prop(f), u) == pick
    ensures forall g | g in FilterDeep(fs, u, pick) ::
      exists f | f in fs && Extends(Prop(f), u) == pick :: g == DeepSlot(f, u, pick)
  {
    var keys := FilterKeys(fs, u, pick);
    MapDeepMembers(fs, keys, u, pick);
    if pick { KeysOfTypeMembers(fs, u); } else { KeysNotOfTypeMembers(fs, u); }
    forall f | f in fs && f.name in keys
      ensures Extends(Prop(f), u) == pick
    {
      var g :| g in fs && g.name == f.name && Extends(Prop(g), u) == pick;
      SameName(fs, f, g);
    }
    forall f, g | f in fs && g in fs && DeepSlot(f, u, pick) == DeepSlot(g, u, pick)
      ensures f == g
    {
      SameName(fs, f, g);
    }
  }

  /**
   * No slot the deep filter descends to has a `T[P]` that extends `U`: the slots
   * of `fs`, and of every required object slot, recursively.
   */
  predicate Clean(fs: seq<Field>, u: Ty)
    decreases fs
  {
    forall f | f in fs :: !Extends(Prop(f), u) && (f.ty.Obj? && !f.optional ==> Clean(f.ty.fields, u))
  }

  /** Omitting from a type in which nothing is to be omitted changes nothing. */
  lemma {:induction false} OmitDeepOfClean(fs: seq<Field>, u: Ty)
    requires Clean(fs, u)
    ensures FilterDeep(fs, u, false) == fs
    decreases fs, 1
  {
    AllKeysNotOfType(fs, u);
    AllKeysMembers(fs);
    MapDeepOfClean(fs, AllKeys(fs), u);
  }

  /** The mapped type over keys that include every key of a clean type gives the type back. */
  lemma {:induction false} MapDeepOfClean(fs: seq<Field>, keys: set<string>, u: Ty)
    requires Clean(fs, u)
    requires forall f | f in fs :: f.name in keys
    ensures MapDeep(fs, keys, u, false) == fs
    decreases fs, 0
  {
    if fs != [] {
      var f := fs[0];
      assert f in fs;
      assert f.name in keys;
      SlotOfClean(f, u);
      assert Clean(fs[1..], u) by {
        assert forall g | g in fs[1..] :: g in fs;
      }
      MapDeepOfClean(fs[1..], keys, u);
      assert MapDeep(fs, keys, u, false) == [f] + MapDeep(fs[1..], keys, u, false);
      assert fs == [f] + fs[1..];
    }
  }

  /** A slot with nothing to omit, at any depth, is its own deep form. */
  lemma {:induction false} SlotOfClean(f: Field, u: Ty)
    requires !Extends(Prop(f), u) && (f.ty.Obj? && !f.optional ==> Clean(f.ty.fields, u))
    ensures DeepSlot(f, u, false) == f
    decreases f, 2
  {
    if f.ty.Obj? && !f.optional {
      OmitDeepOfClean(f.ty.fields, u);
    }
  }

  /** When no slot's `T[P]` extends `U`, every key is one not of type `U`. */
  lemma {:induction false} AllKeysNotOfType(fs: seq<Field>, u: Ty)
    requires forall f | f in fs :: !Extends(Prop(f), u)
    ensures KeysNotOfType(fs, u) == AllKeys(fs)
  {
    if fs != [] {
      assert fs[0] in fs;
      assert forall f | f in fs[1..] :: f in fs;
      AllKeysNotOfType(fs[1..], u);
    }
  }

  /**
   * When `U` is a union of leaf types, `IOmitByTypeDeep<T, U>` leaves nothing to
   * omit at any depth it descends to: an object type never extends such a `U`, so
   * filtering an object slot cannot make it omittable.
   */
  lemma {:induction false} OmitDeepClean(fs: seq<Field>, u: Ty)
    requires WellFormed(Obj(fs))
    requires forall m | m in Members(u) :: IsLeaf(m)
    ensures Clean(OmitByTypeDeep(fs, u), u)
    decreases fs, 1
  {
    var keys := KeysNotOfType(fs, u);
    KeysNotOfTypeMembers(fs, u);
    forall f | f in fs && f.name in keys
      ensures !Extends(Prop(f), u)
    {
      var g :| g in fs && g.name == f.name && !Extends(Prop(g), u);
      SameName(fs, f, g);
    }
    forall f | f in fs
      ensures WellFormed(f.ty)
    {
      var i :| 0 <= i < |fs| && fs[i] == f;
    }
    MapDeepClean(fs, keys, u);
  }

  /** The mapped type over keys of slots not of type `U` is clean when `U` is a union of leaf types. */
  lemma {:induction false} MapDeepClean(fs: seq<Field>, keys: set<string>, u: Ty)
    requires forall f | f in fs :: WellFormed(f.ty)
    requires forall f | f in fs && f.name in keys :: !Extends(Prop(f), u)
    requires forall m | m in Members(u) :: IsLeaf(m)
    ensures Clean(MapDeep(fs, keys, u, false), u)
    decreases fs, 0
  {
    if fs != [] {
      var f := fs[0];
      assert f in fs;
      assert forall g | g in fs[1..] :: g in fs;
      MapDeepClean(fs[1..], keys, u);
      if f.name in keys {
        var g := DeepSlot(f, u, false);
        SlotClean(f, u);
        assert MapDeep(fs, keys, u, false) == [g] + MapDeep(fs[1..], keys, u, false);
      }
    }
  }

  /** The deep form of a slot not of type `U` is not of type `U`, and is clean below when `U` is a union of leaf types. */
  lemma {:induction false} SlotClean(f: Field, u: Ty)
    requires WellFormed(f.ty) && !Extends(Prop(f), u)
    requires forall m | m in Members(u) :: IsLeaf(m)
    ensures !Extends(Prop(DeepSlot(f, u, false)), u)
    ensures DeepSlot(f, u, false).ty.Obj? && !f.optional ==> Clean(DeepSlot(f, u, false).ty.fields, u)
    decreases f, 2
  {
    if f.ty.Obj? && !f.optional {
      OmitDeepClean(f.ty.fields, u);
      ObjNotExtendsLeaves(DeepSlot(f, u, false).ty.fields, u);
    }
  }

  /** When `U` is a union of leaf types, `IOmitByTypeDeep` is idempotent. */
  lemma OmitDeepIdempotent(fs: seq<Field>, u: Ty)
    requires WellFormed(Obj(fs))
    requires forall m | m in Members(u) :: IsLeaf(m)
    ensures OmitByTypeDeep(OmitByTypeDeep(fs, u), u) == OmitByTypeDeep(fs, u)
  {
    OmitDeepClean(fs, u);
    OmitDeepOfClean(OmitByTypeDeep(fs, u), u);
  }

  /**
   * When `U` is a union of leaf types, `IPickByTypeDeep<T, U>` is `IPickByType<T, U>`:
   * a slot it keeps has a `T[P]` extending `U`, so it is never an object slot to
   * descend into.
   */
  lemma PickDeepOfLeaves(fs: seq<Field>, u: Ty)
    requires DistinctNames(fs)
    requires forall m | m in Members(u) :: IsLeaf(m)
    requires forall f | f in fs :: !(f.ty == Never && !f.optional)
    ensures PickByTypeDeep(fs, u) == PickByType(fs, u)
  {
    var keys := KeysOfType(fs, u);
    KeysOfTypeMembers(fs, u);
    forall f | f in fs && f.name in keys
      ensures !Descends(f)
    {
      var g :| g in fs && g.name == f.name && Extends(Prop(g), u);
      SameName(fs, f, g);
      if f.ty.Obj? && !f.optional {
        ObjNotExtendsLeaves(f.ty.fields, u);
      }
    }
    MapDeepShallow(fs, keys, u, true);
  }

  /** The mapped type over `keys` is `Pick<T, keys>` when no picked slot is a required object slot. */
  lemma {:induction false} MapDeepShallow(fs: seq<Field>, keys: set<string>, u: Ty, pick: bool)
    requires forall f | f in fs && f.name in keys :: !Descends(f)
    ensures MapDeep(fs, keys, u, pick) == Pick(fs, keys)
  {
    if fs != [] {
      assert fs[0] in fs;
      assert forall g | g in fs[1..] :: g in fs;
      MapDeepShallow(fs[1..], keys, u, pick);
    }
  }


  /**
   * The deep filters of the two polarities split `keyof T` like the shallow ones:
   * their top-level keys are disjoint and together are every key.
   */
  lemma PickOmitDeepKeys(fs: seq<Field>, u: Ty)
    requires DistinctNames(fs)
    ensures AllKeys(PickByTypeDeep(fs, u)) + AllKeys(OmitByTypeDeep(fs, u)) == AllKeys(fs)
    ensures AllKeys(PickByTypeDeep(fs, u)) !! AllKeys(OmitByTypeDeep(fs, u))
  {
    KeysPartition(fs, u);
    KeysOfNames(PickByTypeDeep(fs, u), PickByType(fs, u));
    KeysOfNames(OmitByTypeDeep(fs, u), OmitByType(fs, u));
    PickKeys(fs, KeysOfType(fs, u));
    PickKeys(fs, KeysNotOfType(fs, u));
  }

  /**
   * `IWithoutEmptyObjectProps` removes exactly the slots whose `T[P]` has no member
   * other than `{}`: the ones typed `{}` (or `Record<string, never>`), and the
   * `never`-typed ones, since `never` extends everything.
   */
  lemma WithoutEmptyObjectPropsKeeps(fs: seq<Field>)
    requires DistinctNames(fs)
    requires forall f | f in fs :: Flat(f.ty)
    ensures forall f :: f in WithoutEmptyObjectProps(fs) <==> f in fs && !(Members(Prop(f)) <= {EmptyObj})
  {
    OmitByTypeKeeps(fs, EmptyObj);
    forall f | f in fs
      ensures Extends(Prop(f), EmptyObj) <==> Members(Prop(f)) <= {EmptyObj}
    {
      ExtendsByMembers(Prop(f), EmptyObj);
      assert Flat(Prop(f));
      forall m | m in Members(Prop(f)) ensures Extends(m, EmptyObj) <==> m == EmptyObj {
        ExtendsEmptyObj(m);
      }
    }
  }
}

/** The compile-time examples that common.ts gives for the deep filters and the pruning. */
module DeepFilterExamples {
  import opened TsTypes
  import opened KeyFilters
  import opened UnionAlgebra
  import opened DeepFilters

  /** `{ a: null; b: number; c: number[]; d: Date }` */
  const Z: seq<Field> := [Field("a", Null, false), Field("b", Num, false), Field("c", Arr(Num), false), Field("d", DateT, false)]

  /** `{ x: number; y: string; z: { a: null; b: number; c: number[]; d: Date } }` */
  const XYZ: seq<Field> := [Field("x", Num, false), Field("y", Str, false), Field("z", Obj(Z), false)]

  /** The keys of `Z` not of type `number`. */
  lemma KeysOfZNotNumber()
    ensures KeysNotOfType(Z, Num) == {"a", "c", "d"}
  {
    assert KeysNotOfType(Z[3..], Num) == {"d"};
    assert KeysNotOfType(Z[2..], Num) == {"c", "d"};
    assert KeysNotOfType(Z[1..], Num) == {"c", "d"};
  }

  /** The keys of `XYZ` not of type `number`. */
  lemma KeysOfXYZNotNumber()
    ensures KeysNotOfType(XYZ, Num) == {"y", "z"}
  {
    assert KeysNotOfType(XYZ[2..], Num) == {"z"};
    assert KeysNotOfType(XYZ[1..], Num) == {"y", "z"};
  }

  /** `IOmitByTypeDeep<Z, number>` is `{ a: null; c: number[]; d: Date }`. */
  lemma OmitNumberFromZ()
    ensures FilterDeep(Z, Num, false) == [Field("a", Null, false), Field("c", Arr(Num), false), Field("d", DateT, false)]
  {
    var k := {"a", "c", "d"};
    KeysOfZNotNumber();
    assert forall f | f in Z :: !f.ty.Obj? && f.ty != Never;
    MapDeepShallow(Z, k, Num, false);
    assert Pick(Z[3..], k) == [Z[3]];
    assert Pick(Z[2..], k) == [Z[2], Z[3]];
    assert Pick(Z[1..], k) == [Z[2], Z[3]];
  }

  /**
   * When `U` leaves `y` and `z` of `XYZ` in place and reduces the nested `Z` to `zr`,
   * `IOmitByTypeDeep<XYZ, U>` is `{ y: string; z: zr }`.
   */
  lemma OmitDeepOfXYZ(u: Ty, zr: seq<Field>)
    requires KeysNotOfType(XYZ, u) == {"y", "z"}
    requires FilterDeep(Z, u, false) == zr
    ensures OmitByTypeDeep(XYZ, u) == [Field("y", Str, false), Field("z", Obj(zr), false)]
  {
    var keys := {"y", "z"};
    MapDeepOfXYZTail(u, zr);
    assert MapDeep(XYZ[1..], keys, u, false) == [XYZ[1]] + MapDeep(XYZ[2..], keys, u, false);
    assert MapDeep(XYZ, keys, u, false) == MapDeep(XYZ[1..], keys, u, false);
  }

  /** The last slot of `XYZ`, `z`, is kept in its deep form. */
  lemma MapDeepOfXYZTail(u: Ty, zr: seq<Field>)
    requires FilterDeep(Z, u, false) == zr
    ensures MapDeep(XYZ[2..], {"y", "z"}, u, false) == [Field("z", Obj(zr), false)]
  {
    assert DeepSlot(XYZ[2], u, false) == Field("z", Obj(zr), false);
    assert MapDeep(XYZ[2..], {"y", "z"}, u, false) == [DeepSlot(XYZ[2], u, false)] + MapDeep(XYZ[3..], {"y", "z"}, u, false);
  }


  /** Line 368: `IOmitByTypeDeep<XYZ, number>` is `{ y: string; z: { a: null; c: number[]; d: Date } }`. */
  lemma OmitByTypeDeepExample()
    ensures OmitByTypeDeep(XYZ, Num)
      == [Field("y", Str, false), Field("z", Obj([Field("a", Null, false), Field("c", Arr(Num), false), Field("d", DateT, false)]), false)]
  {
    OmitNumberFromZ();
    KeysOfXYZNotNumber();
    OmitDeepOfXYZ(Num, [Field("a", Null, false), Field("c", Arr(Num), false), Field("d", DateT, false)]);
  }

  const NumNullDate: Ty := Union({Num, Null, DateT})

  /** The keys of `Z` whose type is not `number | null | Date`. */
  lemma KeysOfZNotNumberNullDate()
    ensures KeysNotOfType(Z, NumNullDate) == {"c"}
  {
    var leaves := {Num, Null, DateT};
    ExtendsLeafUnion(Null, leaves);
    ExtendsLeafUnion(Num, leaves);
    ExtendsLeafUnion(Arr(Num), leaves);
    ExtendsLeafUnion(DateT, leaves);
    assert KeysNotOfType(Z[3..], NumNullDate) == {};
    assert KeysNotOfType(Z[2..], NumNullDate) == {"c"};
    assert KeysNotOfType(Z[1..], NumNullDate) == {"c"};
  }

  /** The keys of `XYZ` whose type is not `number | null | Date`. */
  lemma KeysOfXYZNotNumberNullDate()
    ensures KeysNotOfType(XYZ, NumNullDate) == {"y", "z"}
  {
    var leaves := {Num, Null, DateT};
    ExtendsLeafUnion(Num, leaves);
    ExtendsLeafUnion(Str, leaves);
    ObjNotExtendsLeaves(Z, NumNullDate);
    assert Extends(Prop(XYZ[0]), NumNullDate);
    assert !Extends(Prop(XYZ[1]), NumNullDate);
    assert !Extends(Prop(XYZ[2]), NumNullDate);
    assert KeysNotOfType(XYZ[3..], NumNullDate) == {};
    assert KeysNotOfType(XYZ[2..], NumNullDate) == {"z"};
    assert KeysNotOfType(XYZ[1..], NumNullDate) == {"y", "z"};
  }

  /** `IOmitByTypeDeep<Z, number | null | Date>` is `{ c: number[] }`. */
  lemma OmitNumberNullDateFromZ()
    ensures FilterDeep(Z, NumNullDate, false) == [Field("c", Arr(Num), false)]
  {
    var k := {"c"};
    KeysOfZNotNumberNullDate();
    MapDeepShallow(Z, k, NumNullDate, false);
    assert Pick(Z[3..], k) == [];
    assert Pick(Z[2..], k) == [Z[2]];
    assert Pick(Z[1..], k) == [Z[2]];
  }

  /** Line 369: `IOmitByTypeDeep<XYZ, number | null | Date>` is `{ y: string; z: { c: number[] } }`. */
  lemma OmitByTypeDeepExampleWithNullAndDate()
    ensures OmitByTypeDeep(XYZ, NumNullDate)
      == [Field("y", Str, false), Field("z", Obj([Field("c", Arr(Num), false)]), false)]
  {
    OmitNumberNullDateFromZ();
    KeysOfXYZNotNumberNullDate();
    OmitDeepOfXYZ(NumNullDate, [Field("c", Arr(Num), false)]);
  }


  /**
   * Lines 328-329 promise `{ x: number; z: { b: number } }`, but the keys come from
   * `IPickByType<T, U>`, which drops `z`, so the alias gives `{ x: number }`.
   */
  lemma PickByTypeDeepDropsObjectSlots()
    ensures PickByTypeDeep(XYZ, Num) == [Field("x", Num, false)]
  {
    var k := {"x"};
    assert KeysOfType(XYZ[2..], Num) == {};
    assert KeysOfType(XYZ[1..], Num) == {};
    assert KeysOfType(XYZ, Num) == k;
    MapDeepShallow(XYZ, k, Num, true);
    assert Pick(XYZ[2..], k) == [];
    assert Pick(XYZ[1..], k) == [];
  }

  /** Lines 381-383: `IOmitByTypeDeep<{ a: number; b: never }, never>` is `{ a: number }`. */
  lemma OmitByTypeDeepNeverExample()
    ensures OmitByTypeDeep([Field("a", Num, false), Field("b", Never, false)], Never) == [Field("a", Num, false)]
  {
    var fs := [Field("a", Num, false), Field("b", Never, false)];
    assert !Extends(Num, Never) && Extends(Never, Never);
    assert KeysNotOfType(fs[1..], Never) == {};
    assert KeysNotOfType(fs, Never) == {"a"};
    MapDeepShallow(fs, {"a"}, Never, false);
    assert Pick(fs[1..], {"a"}) == [];
  }

  /**
   * A kept `never` slot passes `T[P] extends object`, and the deep filter of `never`
   * is `{}`: `IPickByTypeDeep<{ a: number; b: never }, number>` is `{ a: number; b: {} }`.
   */
  lemma PickByTypeDeepNeverSlot()
    ensures PickByTypeDeep([Field("a", Num, false), Field("b", Never, false)], Num)
      == [Field("a", Num, false), Field("b", EmptyObj, false)]
  {
    var fs := [Field("a", Num, false), Field("b", Never, false)];
    assert Extends(Num, Num) && Extends(Never, Num);
    assert KeysOfType(fs[1..], Num) == {"b"};
    assert KeysOfType(fs, Num) == {"a", "b"};
    assert DeepSlot(fs[0], Num, true) == fs[0];
    assert DeepSlot(fs[1], Num, true) == Field("b", EmptyObj, false);
    assert MapDeep(fs[1..], {"a", "b"}, Num, true) == [Field("b", EmptyObj, false)];
    assert MapDeep(fs, {"a", "b"}, Num, true) == [fs[0]] + MapDeep(fs[1..], {"a", "b"}, Num, true);
  }

  /** Line 414: `IIsEmptyObject<{}>` is `true`; the commented-out line 413: `IIsEmptyObject<{ t: 123 }>` is `never`. */
  lemma IsEmptyObjectExample()
    ensures IsEmptyObject(EmptyObj)
    ensures !IsEmptyObject(Obj([Field("t", Num, false)]))
  {
  }

  /** Lines 419-422: `IWithoutEmptyObjectProps<{ a: number; b: {} }>` is `{ a: number }`. */
  lemma WithoutEmptyObjectPropsExample()
    ensures WithoutEmptyObjectProps([Field("a", Num, false), Field("b", EmptyObj, false)]) == [Field("a", Num, false)]
  {
    var fs := [Field("a", Num, false), Field("b", EmptyObj, false)];
    assert Extends(Prop(fs[1]), EmptyObj) && !Extends(Prop(fs[0]), EmptyObj);
    assert KeysNotOfType(fs[1..], EmptyObj) == {};
    assert KeysNotOfType(fs, EmptyObj) == {"a"};
    assert Pick(fs[1..], {"a"}) == [];
  }

  /** `{ ggg: {} }` */
  const FF: seq<Field> := [Field("ggg", EmptyObj, false)]

  /** `{ dd: {}; ee: null; ff: { ggg: {} } }` */
  const C: seq<Field> := [Field("dd", EmptyObj, false), Field("ee", Null, false), Field("ff", Obj(FF), false)]

  /** `{ g: number }` */
  const B: seq<Field> := [Field("g", Num, false)]

  /** The object type of lines 428-432 without the `bb: object` slot. */
  const ABCD: seq<Field> := [Field("a", Num, false), Field("b", Obj(B), false), Field("c", Obj(C), false), Field("d", EmptyObj, false)]

  /** Pruning `{ ggg: {} }` drops `ggg`; pruning `{ g: number }` keeps it. */
  lemma PruneFFAndB()
    ensures WithoutEmptyObjectPropsDeep(FF) == []
    ensures WithoutEmptyObjectPropsDeep(B) == B
  {
    assert Extends(Prop(FF[0]), EmptyObj) && !Extends(Prop(B[0]), EmptyObj);
    assert KeysNotOfType(FF, EmptyObj) == {};
    assert KeysNotOfType(B, EmptyObj) == {"g"};
    MapDeepShallow(FF, {}, EmptyObj, false);
    MapDeepShallow(B, {"g"}, EmptyObj, false);
  }

  /** Pruning `{ dd: {}; ee: null; ff: { ggg: {} } }` gives `{ ee: null; ff: {} }`. */
  lemma PruneC()
    ensures WithoutEmptyObjectPropsDeep(C) == [Field("ee", Null, false), Field("ff", EmptyObj, false)]
  {
    PruneFFAndB();
    assert Extends(Prop(C[0]), EmptyObj) && !Extends(Prop(C[1]), EmptyObj) && !Extends(Prop(C[2]), EmptyObj);
    assert KeysNotOfType(C[2..], EmptyObj) == {"ff"};
    assert KeysNotOfType(C[1..], EmptyObj) == {"ee", "ff"};
    assert KeysNotOfType(C, EmptyObj) == {"ee", "ff"};
    var keys := {"ee", "ff"};
    assert DeepSlot(C[2], EmptyObj, false) == Field("ff", Obj(FilterDeep(FF, EmptyObj, false)), false);
    assert MapDeep(C[2..], keys, EmptyObj, false) == [DeepSlot(C[2], EmptyObj, false)] + MapDeep(C[3..], keys, EmptyObj, false);
    assert MapDeep(C[1..], keys, EmptyObj, false) == [C[1]] + MapDeep(C[2..], keys, EmptyObj, false);
    assert MapDeep(C, keys, EmptyObj, false) == MapDeep(C[1..], keys, EmptyObj, false);
  }

  /** The keys of the object type of lines 428-432 whose type is not `{}`. */
  lemma KeysOfABCDNotEmpty()
    ensures KeysNotOfType(ABCD, EmptyObj) == {"a", "b", "c"}
  {
    assert !Extends(Prop(ABCD[0]), EmptyObj) && !Extends(Prop(ABCD[1]), EmptyObj);
    assert !Extends(Prop(ABCD[2]), EmptyObj) && Extends(Prop(ABCD[3]), EmptyObj);
    assert KeysNotOfType(ABCD[3..], EmptyObj) == {};
    assert KeysNotOfType(ABCD[2..], EmptyObj) == {"c"};
    assert KeysNotOfType(ABCD[1..], EmptyObj) == {"b", "c"};
  }

  /**
   * Lines 428-433, without the `bb: object` slot: `dd` and `d` are dropped, `ff`
   * survives as `ff: {}` because the pass looks at `ff` before pruning inside it.
   */
  lemma WithoutEmptyObjectPropsDeepExample()
    ensures WithoutEmptyObjectPropsDeep(ABCD)
      == [
        Field("a", Num, false),
        Field("b", Obj([Field("g", Num, false)]), false),
        Field("c", Obj([Field("ee", Null, false), Field("ff", EmptyObj, false)]), false)]
  {
    PruneFFAndB();
    PruneC();
    KeysOfABCDNotEmpty();
    var keys := {"a", "b", "c"};
    var u := EmptyObj;
    assert DeepSlot(ABCD[1], u, false) == Field("b", Obj(FilterDeep(B, u, false)), false);
    assert DeepSlot(ABCD[2], u, false) == Field("c", Obj(FilterDeep(C, u, false)), false);
    assert MapDeep(ABCD[3..], keys, u, false) == [];
    assert MapDeep(ABCD[2..], keys, u, false) == [DeepSlot(ABCD[2], u, false)] + MapDeep(ABCD[3..], keys, u, false);
    assert MapDeep(ABCD[1..], keys, u, false) == [DeepSlot(ABCD[1], u, false)] + MapDeep(ABCD[2..], keys, u, false);
    assert MapDeep(ABCD, keys, u, false) == [ABCD[0]] + MapDeep(ABCD[1..], keys, u, false);
  }

  /**
   * Deep pruning is one top-down pass and not idempotent: `{ c: { d: {} } }` becomes
   * `{ c: {} }`, and pruning that again gives `{}`.
   */
  lemma PruningNotIdempotent()
    ensures WithoutEmptyObjectPropsDeep([Field("c", Obj([Field("d", EmptyObj, false)]), false)]) == [Field("c", EmptyObj, false)]
    ensures WithoutEmptyObjectPropsDeep([Field("c", EmptyObj, false)]) == []
  {
    var inner := [Field("d", EmptyObj, false)];
    var outer := [Field("c", Obj(inner), false)];
    var u := EmptyObj;
    assert Extends(Prop(inner[0]), u) && !Extends(Prop(outer[0]), u);
    assert KeysNotOfType(inner, u) == {};
    MapDeepShallow(inner, {}, u, false);
    assert FilterDeep(inner, u, false) == [];
    assert KeysNotOfType(outer, u) == {"c"};
    assert MapDeep(outer, {"c"}, u, false) == [DeepSlot(outer[0], u, false)] + MapDeep(outer[1..], {"c"}, u, false);
    var pruned := [Field("c", EmptyObj, false)];
    assert Extends(Prop(pruned[0]), u);
    assert KeysNotOfType(pruned, u) == {};
    MapDeepShallow(pruned, {}, u, false);
  }
}
