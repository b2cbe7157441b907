/**
 * The mongoose schema-definition deriver of common.ts: `IField<T>` (line 85) and
 * `IModelDefinition<T>` (line 98). A model type is turned into a tree of
 * descriptors with the same shape: a field descriptor for an id, a date, a
 * primitive or an array of primitives; a one-element list for an array of ids or
 * dates; a nested definition for an object; `never` for what it cannot classify.
 * Where a conditional distributes over a union, the result is the union of the
 * descriptors of its members.
 */
module Schema {
  import opened TsTypes
  import opened UnionAlgebra
  import opened FieldTypes

  /** The `required` slot of a descriptor: `required: true`, `required: false`, or no such key. */
  datatype Req = RequiredTrue | RequiredFalse | RequiredAbsent

  datatype Desc =
    /**
     * `IField<T>`, or `Omit<IField<T>, "required">`: the constructors of `type`,
     * the `required` slot, whether the `ref: string` slot is present (`T` extends
     * `Types.ObjectId`) and whether the `trim?: boolean` slot is (`T` extends `string`).
     */
    | Spec(types: set<Ctor>, required: Req, ref: bool, trim: bool)
    /** `[X]`, a one-element list. */
    | Single(elem: Desc)
    /** `{ type: X; required: false }` */
    | Wrapped(inner: Desc, required: Req)
    /** `IModelDefinition<U>`: one entry per key. */
    | Definition(entries: seq<Entry>)
    /** `never` */
    | NeverDesc
    /** A union of at least two descriptors, none of them `never`. */
    | AnyOf(alts: set<Desc>)

  datatype Entry = Entry(name: string, desc: Desc)

  /** `IPrimitiveForMongo` (line 63): `string | number | boolean`. */
  const Primitive: Ty := Union({Str, Num, Bool})

  /** The test of lines 99-103: `Types.ObjectId | Date | IPrimitiveForMongo | IPrimitiveForMongo[]`. */
  const Scalar: Ty := Union({ObjectId, DateT, Str, Num, Bool, Arr(Primitive)})

  /** `Types.ObjectId | Date` (line 108). */
  const IdOrDate: Ty := Union({ObjectId, DateT})

  /**
   * `IField<T>` for a slot whose `Required<T>[P]` is `t`, with its `required: true`
   * removed when the slot is optional (lines 104-106). `IField<never>` is `never`:
   * its two conditional parts distribute over no member at all.
   */
  function FieldSpec(t: Ty, optional: bool): (d: Desc)
    ensures d.Spec? ==> d.required == (if optional then RequiredAbsent else RequiredTrue)
    ensures d.Spec? <==> Members(t) != {}
  {
    if Members(t) == {} then NeverDesc
    else Spec(FieldType(t), if optional then RequiredAbsent else RequiredTrue, Extends(t, ObjectId), Extends(t, Str))
  }

  /**
   * One entry of `IModelDefinition<T>` (lines 99-119) for the slot `f`. Whether the
   * slot is required is read off its `?` modifier only (`Pick<T, P> extends
   * Required<Pick<T, P>>`); its type is `Required<T>[P]`.
   */
  ghost function DeriveField(f: Field): Desc
    decreases f, 0
  {
    var t := RequiredProp(f);
    if Extends(t, Scalar) then
      FieldSpec(t, f.optional)
    else if t.Arr? then
      var u := t.elem;
      Join(ElemDescs(u, f.optional))
    else if t.Obj? then
      if f.optional then Wrapped(Definition(ModelDefinition(t.fields)), RequiredFalse)
      else Definition(ModelDefinition(t.fields))
    else NeverDesc
  }

  /** The descriptors of the members of an array's element type `u`, one per member. */
  ghost function ElemDescs(u: Ty, optional: bool): set<Desc>
    decreases u, 1
  {
    if u.Union? then set m | m in u.alts :: DeriveElem(m, optional) else {DeriveElem(u, optional)}
  }

  /**
   * Lines 108-114 for one member `m` of the element type `U` of an array slot. `U`
   * is bound by `infer U`, so it is a type parameter there and both tests
   * distribute over its members.
   */
  ghost function DeriveElem(m: Ty, optional: bool): Desc
    decreases m, 0
  {
    if Extends(m, IdOrDate) then Single(FieldSpec(m, optional))
    else if m.Obj? then Wrapped(Single(Definition(ModelDefinition(m.fields))), RequiredFalse)
    else NeverDesc
  }

  /** The union of the descriptors `ds`: `never` members vanish, and a single survivor stands for itself. */
  ghost function Join(ds: set<Desc>): Desc
  {
    var live := ds - {NeverDesc};
    if live == {} then NeverDesc
    else if |live| == 1 then
      var d :| d in live;
      d
    else AnyOf(live)
  }

  /** The members of a descriptor read as a union: `never` has none, `AnyOf` its alternatives. */
  function Alternatives(d: Desc): set<Desc>
  {
    match d
    case NeverDesc => {}
    case AnyOf(alts) => alts
    case _ => {d}
  }

  /** Joining descriptors that are not themselves unions gives exactly the ones that are not `never`. */
  lemma JoinAlternatives(ds: set<Desc>)
    requires forall d | d in ds :: !d.AnyOf?
    ensures Alternatives(Join(ds)) == ds - {NeverDesc}
    ensures Join(ds).AnyOf? ==> |Join(ds).alts| >= 2
  {
    var live := ds - {NeverDesc};
    if live != {} && |live| == 1 {
      var d :| d in live;
      assert |live - {d}| == 0;
      assert live == {d};
    }
  }

  /** `IModelDefinition<T>` (line 98): an entry for every key of `T` but `_id`, in order. */
  ghost function ModelDefinition(fs: seq<Field>): seq<Entry>
    decreases fs, 1
  {
    if fs == [] then []
    else if fs[0].name == "_id" then ModelDefinition(fs[1..])
    else [Entry(fs[0].name, DeriveField(fs[0]))] + ModelDefinition(fs[1..])
  }

  /** The keys of `fs` other than `_id`, in order. */
  function KeysButId(fs: seq<Field>): seq<string>
  {
    if fs == [] then []
    else if fs[0].name == "_id" then KeysButId(fs[1..])
    else [fs[0].name] + KeysButId(fs[1..])
  }

  /**
   * Every key of `T` except `_id` gets an entry, optional keys included, in the
   * order of `T`, and the entry of a key is the descriptor derived from its slot.
   */
  lemma {:induction false} ModelDefinitionKeys(fs: seq<Field>)
    ensures |ModelDefinition(fs)| == |KeysButId(fs)|
    ensures forall i | 0 <= i < |ModelDefinition(fs)| :: ModelDefinition(fs)[i].name == KeysButId(fs)[i]
  {
    if fs != [] {
      ModelDefinitionKeys(fs[1..]);
    }
  }

  /** The entries of a definition are exactly the derived descriptors of the slots other than `_id`. */
  lemma {:induction false} ModelDefinitionEntries(fs: seq<Field>)
    ensures forall f | f in fs && f.name != "_id" :: Entry(f.name, DeriveField(f)) in ModelDefinition(fs)
    ensures forall e | e in ModelDefinition(fs) :: exists f | f in fs :: f.name != "_id" && e == Entry(f.name, DeriveField(f))
  {
    if fs != [] {
      ModelDefinitionEntries(fs[1..]);
      assert forall f | f in fs :: f == fs[0] || f in fs[1..];
      assert forall f | f in fs[1..] :: f in fs;
    }
  }

  /**
   * The `required` discipline of a whole descriptor tree: a field descriptor says
   * `required: true` or leaves the key out, never `required: false`; a
   * `{ type: ...; required: false }` wrapper always says `required: false`.
   */
  predicate Disciplined(d: Desc)
  {
    match d
    case Spec(_, req, _, _) => req != RequiredFalse
    case Single(e) => Disciplined(e)
    case Wrapped(inner, req) => req == RequiredFalse && Disciplined(inner)
    case Definition(es) => forall i | 0 <= i < |es| :: Disciplined(es[i].desc)
    case NeverDesc => true
    case AnyOf(alts) => forall a | a in alts :: Disciplined(a)
  }

  /** Every descriptor the deriver produces, at any depth, keeps the `required` discipline. */
  lemma {:induction false} DeriveFieldDisciplined(f: Field)
    ensures Disciplined(DeriveField(f))
    decreases f, 0
  {
    var t := RequiredProp(f);
    if Extends(t, Scalar) {
    } else if t.Arr? {
      var u := t.elem;
      var ds := ElemDescs(u, f.optional);
      if u.Union? {
        forall m | m in u.alts
          ensures Disciplined(DeriveElem(m, f.optional))
        {
          DeriveElemDisciplined(m, f.optional);
        }
      } else {
        DeriveElemDisciplined(u, f.optional);
      }
      JoinDisciplined(ds);
    } else if t.Obj? {
      ModelDefinitionDisciplined(t.fields);
    }
  }

  /** Joining disciplined descriptors gives a disciplined descriptor. */
  lemma JoinDisciplined(ds: set<Desc>)
    requires forall d | d in ds :: Disciplined(d)
    ensures Disciplined(Join(ds))
  {
  }

  /** The descriptor of one member of an array's element type keeps the `required` discipline. */
  lemma {:induction false} DeriveElemDisciplined(m: Ty, optional: bool)
    ensures Disciplined(DeriveElem(m, optional))
    decreases m, 0
  {
    if !Extends(m, IdOrDate) && m.Obj? {
      ModelDefinitionDisciplined(m.fields);
    }
  }

  /** Every entry of a definition keeps the `required` discipline. */
  lemma {:induction false} ModelDefinitionDisciplined(fs: seq<Field>)
    ensures Disciplined(Definition(ModelDefinition(fs)))
    decreases fs, 1
  {
    if fs != [] {
      ModelDefinitionDisciplined(fs[1..]);
      if fs[0].name != "_id" {
        DeriveFieldDisciplined(fs[0]);
      }
    }
  }

  /**
   * The `ref` slot appears only on a field of ids and the `trim` slot only on a
   * field of strings: then `type` is `Types.ObjectId`, respectively `String`.
   */
  lemma {:induction false} SpecFlags(t: Ty, optional: bool)
    requires Flat(t)
    ensures FieldSpec(t, optional).Spec? && FieldSpec(t, optional).ref ==> Members(t) == {ObjectId} && FieldSpec(t, optional).types == {ObjectIdCtor}
    ensures FieldSpec(t, optional).Spec? && FieldSpec(t, optional).trim ==> Members(t) == {Str} && FieldSpec(t, optional).types == {StringCtor}
  {
    var d := FieldSpec(t, optional);
    if d.Spec? {
      ExtendsByMembers(t, ObjectId);
      ExtendsByMembers(t, Str);
      var m :| m in Members(t);
      if d.ref {
        assert Members(t) == {ObjectId};
        assert FieldType(t) == {FieldTypeOf(ObjectId).value};
      }
      if d.trim {
        assert Members(t) == {Str};
        assert FieldType(t) == {FieldTypeOf(Str).value};
      }
    }
  }

  /**
   * A type that is not a union passes the test of lines 99-103 exactly when it is an
   * id, a date, a primitive, or an array whose element type extends a primitive.
   */
  lemma ExtendsScalar(m: Ty)
    requires !m.Union?
    ensures Extends(m, Scalar) <==> m in {ObjectId, DateT, Str, Num, Bool} || (m.Arr? && Extends(m.elem, Primitive))
  {
    if m.Arr? {
      assert Extends(m, Scalar) <==> Extends(m, Arr(Primitive));
    } else {
      ExtendsLeafUnion(m, {ObjectId, DateT, Str, Num, Bool});
    }
  }

  /**
   * A field whose `Required<T>[P]` is an id, a date, a primitive or an array of
   * primitives gets a field descriptor: with `required: true` when the slot is
   * required and without the key when it is optional, with `ref` exactly for an
   * id and `trim` exactly for a string, and with the constructor its shape picks.
   */
  lemma ScalarField(f: Field)
    requires !RequiredProp(f).Union? && Extends(RequiredProp(f), Scalar)
    ensures DeriveField(f).Spec?
    ensures DeriveField(f).required == (if f.optional then RequiredAbsent else RequiredTrue)
    ensures DeriveField(f).ref <==> RequiredProp(f) == ObjectId
    ensures DeriveField(f).trim <==> RequiredProp(f) == Str
    ensures DeriveField(f).types == (match ShapeCtor(RequiredProp(f)) case Some(c) => {c} case None => {})
  {
    var t := RequiredProp(f);
    assert Members(t) == {t};
    FieldTypeOfByShape(t);
    assert FieldType(t) == (match FieldTypeOf(t) case Some(c) => {c} case None => {});
  }

  /**
   * An array slot that fails the test of lines 99-103 gets the union, over the
   * members `m` of its element type, of the descriptor of `m` (lines 108-114), with
   * the `never` ones dropped.
   */
  lemma ArrayFieldDistributes(f: Field)
    requires RequiredProp(f).Arr? && !Extends(RequiredProp(f), Scalar)
    ensures Alternatives(DeriveField(f)) == Survivors(RequiredProp(f).elem, f.optional)
    ensures DeriveField(f).AnyOf? ==> |DeriveField(f).alts| >= 2
  {
    var u := RequiredProp(f).elem;
    ArrayFieldJoins(f);
    ElemDescsNotUnions(u, f.optional);
    JoinAlternatives(ElemDescs(u, f.optional));
    LiveElems(u, f.optional);
  }

  /** An array slot that fails the test of lines 99-103 joins the descriptors of its element type's members. */
  lemma ArrayFieldJoins(f: Field)
    requires RequiredProp(f).Arr? && !Extends(RequiredProp(f), Scalar)
    ensures DeriveField(f) == Join(ElemDescs(RequiredProp(f).elem, f.optional))
  {
  }

  /** No member of an array's element type gives a union descriptor. */
  lemma ElemDescsNotUnions(u: Ty, optional: bool)
    ensures forall d | d in ElemDescs(u, optional) :: !d.AnyOf?
  {
  }

  /** The descriptors of the members of `u` that are not `never`. */
  ghost function Survivors(u: Ty, optional: bool): set<Desc>
  {
    set m | m in Members(u) && DeriveElem(m, optional) != NeverDesc :: DeriveElem(m, optional)
  }

  /** Dropping `never` from the descriptors of the members of `u` leaves its survivors. */
  lemma LiveElems(u: Ty, optional: bool)
    ensures ElemDescs(u, optional) - {NeverDesc} == Survivors(u, optional)
  {
  }


  /** An array slot whose element type is a union of two members joins the descriptors of the two. */
  lemma ArrayOfPair(f: Field, a: Ty, b: Ty)
    requires RequiredProp(f).Arr? && !Extends(RequiredProp(f), Scalar) && RequiredProp(f).elem == Union({a, b})
    ensures DeriveField(f) == Join({DeriveElem(a, f.optional), DeriveElem(b, f.optional)})
  {
    var u := RequiredProp(f).elem;
    ArrayFieldJoins(f);
    LiveElems(u, f.optional);
    SurvivorsOfPair(a, b, f.optional);
    JoinOfLive(ElemDescs(u, f.optional), {DeriveElem(a, f.optional), DeriveElem(b, f.optional)});
  }

  /** The survivors of a union of two members are those of the two members that are not `never`. */
  lemma SurvivorsOfPair(a: Ty, b: Ty, optional: bool)
    ensures Survivors(Union({a, b}), optional) == {DeriveElem(a, optional), DeriveElem(b, optional)} - {NeverDesc}
  {
  }

  /** A join depends only on the descriptors other than `never`. */
  lemma JoinOfLive(ds: set<Desc>, es: set<Desc>)
    requires ds - {NeverDesc} == es - {NeverDesc}
    ensures Join(ds) == Join(es)
  {
  }

  /** Joining a descriptor with `never` gives the descriptor. */
  lemma JoinWithNever(x: Desc)
    requires x != NeverDesc
    ensures Join({x, NeverDesc}) == x
  {
    assert {x, NeverDesc} - {NeverDesc} == {x};
  }

  /** Joining two different descriptors, neither of them `never`, gives their union. */
  lemma JoinTwo(x: Desc, y: Desc)
    requires x != NeverDesc && y != NeverDesc && x != y
    ensures Join({x, y}) == AnyOf({x, y})
  {
    assert {x, y} - {NeverDesc} == {x, y};
  }

  /**
   * One member of an array's element type: an id or a date gives the one-element
   * list `[field]`, whose descriptor says `required: true` only when the slot is
   * required; an object type gives `{ type: [definition]; required: false }`
   * whether or not the slot is optional; anything else gives `never`.
   */
  lemma DeriveElemCases(m: Ty, optional: bool)
    requires !m.Union?
    ensures m == ObjectId || m == DateT ==> DeriveElem(m, optional) == Single(Spec({if m == ObjectId then ObjectIdCtor else DateCtor},
      if optional then RequiredAbsent else RequiredTrue, m == ObjectId, false))
    ensures m.Obj? ==> DeriveElem(m, optional) == Wrapped(Single(Definition(ModelDefinition(m.fields))), RequiredFalse)
    ensures m != ObjectId && m != DateT && !m.Obj? ==> DeriveElem(m, optional) == NeverDesc
  {
    ExtendsLeafUnion(m, {ObjectId, DateT});
    if m == ObjectId || m == DateT {
      IdOrDateSpec(m, optional);
    }
  }

  /** An array of a single member type gets that member's descriptor. */
  lemma ArrayOfOneMember(f: Field, e: Ty)
    requires !e.Union? && RequiredProp(f) == Arr(e) && !Extends(Arr(e), Scalar)
    requires DeriveElem(e, f.optional) != NeverDesc
    ensures DeriveField(f) == DeriveElem(e, f.optional)
  {
    JoinAlternatives({DeriveElem(e, f.optional)});
  }

  /**
   * An array of ids or dates becomes the one-element list `[field]`, whose
   * descriptor says `required: true` only when the slot is required.
   */
  lemma IdOrDateArrayField(f: Field, e: Ty)
    requires e == ObjectId || e == DateT
    requires RequiredProp(f) == Arr(e)
    ensures DeriveField(f) == Single(Spec({if e == ObjectId then ObjectIdCtor else DateCtor},
      if f.optional then RequiredAbsent else RequiredTrue, e == ObjectId, false))
  {
    IdOrDateClassified(e);
    DeriveElemCases(e, f.optional);
    ArrayOfOneMember(f, e);
  }

  /** An array of ids or dates fails the test of lines 99-103 and passes that of line 108. */
  lemma IdOrDateClassified(e: Ty)
    requires e == ObjectId || e == DateT
    ensures !Extends(Arr(e), Scalar) && Extends(e, IdOrDate)
  {
    assert !Extends(Arr(e), Scalar) by {
      ExtendsScalar(Arr(e));
      ExtendsLeafUnion(e, {Str, Num, Bool});
    }
    ExtendsLeafUnion(e, {ObjectId, DateT});
  }

  /** The field descriptor of an id or a date. */
  lemma IdOrDateSpec(e: Ty, optional: bool)
    requires e == ObjectId || e == DateT
    ensures FieldSpec(e, optional) == Spec({if e == ObjectId then ObjectIdCtor else DateCtor},
      if optional then RequiredAbsent else RequiredTrue, e == ObjectId, false)
  {
    assert Members(e) == {e};
    assert FieldType(e) == {FieldTypeOf(e).value};
  }

  /**
   * An array of objects becomes `{ type: [definition of the element]; required: false }`
   * whether the slot is optional or not.
   */
  lemma ObjectArrayField(f: Field, gs: seq<Field>)
    requires RequiredProp(f) == Arr(Obj(gs))
    ensures DeriveField(f) == Wrapped(Single(Definition(ModelDefinition(gs))), RequiredFalse)
  {
    ExtendsScalar(Arr(Obj(gs)));
    ObjNotExtendsLeaves(gs, Primitive);
    DeriveElemCases(Obj(gs), f.optional);
    ArrayOfOneMember(f, Obj(gs));
  }

  /**
   * A nested object becomes its bare definition when the slot is required and
   * `{ type: definition; required: false }` when it is optional.
   */
  lemma ObjectField(f: Field, gs: seq<Field>)
    requires RequiredProp(f) == Obj(gs)
    ensures !f.optional ==> DeriveField(f) == Definition(ModelDefinition(gs))
    ensures f.optional ==> DeriveField(f) == Wrapped(Definition(ModelDefinition(gs)), RequiredFalse)
  {
    ExtendsScalar(Obj(gs));
  }

  /**
   * The test of lines 99-103 does not distribute: a required slot typed `null`,
   * `string | null` or `string | undefined` fails it as a whole, is neither an
   * array nor an object, and becomes `never`.
   */
  lemma UnclassifiedField(f: Field)
    requires !f.optional && f.ty in {Null, Union({Str, Null}), Union({Str, Undefined})}
    ensures DeriveField(f) == NeverDesc
  {
    ExtendsScalar(Null);
    ExtendsScalar(Undefined);
  }
}

/** The compile-time example that common.ts gives for `IModelDefinition` (lines 122-181). */
module SchemaExamples {
  import opened TsTypes
  import opened UnionAlgebra
  import opened FieldTypes
  import opened Schema

  /** `{ test4: string; test5?: string[] }` */
  const Test3: seq<Field> := [Field("test4", Str, false), Field("test5", Arr(Str), true)]

  /** `{ test7: string; test8?: string }` */
  const Test6: seq<Field> := [Field("test7", Str, false), Field("test8", Str, true)]

  /** `{ test10: string; test11?: string }` */
  const Test9: seq<Field> := [Field("test10", Str, false), Field("test11", Str, true)]

  /** The model of lines 122-137. */
  const Model: seq<Field> := [
    Field("test", Str, true),
    Field("test2", Str, false),
    Field("test3", Obj(Test3), false),
    Field("test6", Arr(Obj(Test6)), true),
    Field("test9", Obj(Test9), true)
  ]

  /** A required and an optional string field. */
  const RequiredString: Desc := Spec({StringCtor}, RequiredTrue, false, true)
  const OptionalString: Desc := Spec({StringCtor}, RequiredAbsent, false, true)

  /** A key other than `_id` contributes its entry in front of the entries of the keys after it. */
  lemma ModelDefinitionCons(f: Field, rest: seq<Field>)
    requires f.name != "_id"
    ensures ModelDefinition([f] + rest) == [Entry(f.name, DeriveField(f))] + ModelDefinition(rest)
  {
    assert ([f] + rest)[1..] == rest;
  }

  /** `Required<T>[P]` of an optional slot whose type does not hold `undefined` is that type. */
  lemma RequiredPropOfOptional(f: Field)
    requires f.optional && f.ty in {Str, Arr(Str), Arr(Obj(Test6)), Obj(Test9)}
    ensures RequiredProp(f) == f.ty
  {
    assert Members(f.ty) == {f.ty};
    assert (set m | m in {f.ty} && !Extends(m, Undefined)) == {f.ty};
  }

  /** `test?: string` and `test2: string` (lines 139-146). */
  lemma StringFields(name: string)
    ensures DeriveField(Field(name, Str, true)) == OptionalString
    ensures DeriveField(Field(name, Str, false)) == RequiredString
  {
    RequiredPropOfOptional(Field(name, Str, true));
    ExtendsScalar(Str);
    ScalarField(Field(name, Str, true));
    ScalarField(Field(name, Str, false));
  }

  /** `test5?: string[]` (lines 152-154): `{ type: [String] }`. */
  lemma StringArrayField(name: string)
    ensures DeriveField(Field(name, Arr(Str), true)) == Spec({StringArrayCtor}, RequiredAbsent, false, false)
  {
    var f := Field(name, Arr(Str), true);
    RequiredPropOfOptional(f);
    ExtendsScalar(Arr(Str));
    ExtendsLeafUnion(Str, {Str, Num, Bool});
    ScalarField(f);
  }

  /** A slot list `{ a: string; b?: string }` gives a required and an optional string field. */
  lemma RequiredOptionalStrings(a: string, b: string)
    requires a != "_id" && b != "_id"
    ensures ModelDefinition([Field(a, Str, false), Field(b, Str, true)]) == [Entry(a, RequiredString), Entry(b, OptionalString)]
  {
    StringFields(a);
    StringFields(b);
    ModelDefinitionCons(Field(b, Str, true), []);
    ModelDefinitionCons(Field(a, Str, false), [Field(b, Str, true)]);
  }

  /** A slot list `{ a: string; b?: string[] }`, as `test3` declares. */
  lemma RequiredStringOptionalArray(a: string, b: string)
    requires a != "_id" && b != "_id"
    ensures ModelDefinition([Field(a, Str, false), Field(b, Arr(Str), true)])
      == [Entry(a, RequiredString), Entry(b, Spec({StringArrayCtor}, RequiredAbsent, false, false))]
  {
    StringFields(a);
    StringArrayField(b);
    ModelDefinitionCons(Field(b, Arr(Str), true), []);
    ModelDefinitionCons(Field(a, Str, false), [Field(b, Arr(Str), true)]);
  }

  /** `test3` (lines 147-155): `{ test4: { type: String; required: true }; test5: { type: [String] } }`. */
  lemma Test3Field()
    ensures DeriveField(Field("test3", Obj(Test3), false)) == Definition([
      Entry("test4", RequiredString),
      Entry("test5", Spec({StringArrayCtor}, RequiredAbsent, false, false))])
  {
    RequiredStringOptionalArray("test4", "test5");
    ObjectField(Field("test3", Obj(Test3), false), Test3);
  }

  /** `test6` (lines 156-169): an optional array of objects, wrapped with `required: false`. */
  lemma Test6Field()
    ensures DeriveField(Field("test6", Arr(Obj(Test6)), true))
      == Wrapped(Single(Definition([Entry("test7", RequiredString), Entry("test8", OptionalString)])), RequiredFalse)
  {
    var f := Field("test6", Arr(Obj(Test6)), true);
    RequiredPropOfOptional(f);
    ObjectArrayField(f, Test6);
    RequiredOptionalStrings("test7", "test8");
  }

  /** An array of a union with a member that is not a primitive fails the test of lines 99-103. */
  lemma ArrayOfUnionNotScalar(u: Ty, m: Ty)
    requires u.Union? && m in u.alts && !m.Union? && !Extends(m, Primitive)
    ensures !Extends(Arr(u), Scalar)
  {
    ExtendsScalar(Arr(u));
  }

  /** `a: (ObjectId | null)[]`: the `null` member gives `never` and drops out, leaving `[IField<ObjectId>]`. */
  lemma ArrayOfIdOrNull(f: Field)
    requires !f.optional && f.ty == Arr(Union({ObjectId, Null}))
    ensures DeriveField(f) == Single(Spec({ObjectIdCtor}, RequiredTrue, true, false))
  {
    ExtendsLeafUnion(ObjectId, {Str, Num, Bool});
    ArrayOfUnionNotScalar(Union({ObjectId, Null}), ObjectId);
    ArrayOfPair(f, ObjectId, Null);
    DeriveElemCases(ObjectId, false);
    DeriveElemCases(Null, false);
    JoinWithNever(DeriveElem(ObjectId, false));
  }

  /** `a: (ObjectId | Date)[]`: a union of `[IField<ObjectId>]`, with `ref`, and `[IField<Date>]`. */
  lemma ArrayOfIdOrDate(f: Field)
    requires !f.optional && f.ty == Arr(Union({ObjectId, DateT}))
    ensures DeriveField(f) == AnyOf({Single(Spec({ObjectIdCtor}, RequiredTrue, true, false)), Single(Spec({DateCtor}, RequiredTrue, false, false))})
  {
    ExtendsLeafUnion(ObjectId, {Str, Num, Bool});
    ArrayOfUnionNotScalar(Union({ObjectId, DateT}), ObjectId);
    ArrayOfPair(f, ObjectId, DateT);
    DeriveElemCases(ObjectId, false);
    DeriveElemCases(DateT, false);
    JoinTwo(DeriveElem(ObjectId, false), DeriveElem(DateT, false));
  }

  /**
   * `a: (G | H)[]` for two object types with different definitions: a union of
   * the two wrapped one-element lists.
   */
  lemma ArrayOfTwoObjects(f: Field, gs: seq<Field>, hs: seq<Field>)
    requires !f.optional && f.ty == Arr(Union({Obj(gs), Obj(hs)})) && ModelDefinition(gs) != ModelDefinition(hs)
    ensures DeriveField(f)
      == AnyOf({Wrapped(Single(Definition(ModelDefinition(gs))), RequiredFalse), Wrapped(Single(Definition(ModelDefinition(hs))), RequiredFalse)})
  {
    ObjNotExtendsLeaves(gs, Primitive);
    ArrayOfUnionNotScalar(Union({Obj(gs), Obj(hs)}), Obj(gs));
    ArrayOfPair(f, Obj(gs), Obj(hs));
    DeriveElemCases(Obj(gs), false);
    DeriveElemCases(Obj(hs), false);
    JoinTwo(DeriveElem(Obj(gs), false), DeriveElem(Obj(hs), false));
  }

  /** `test9` (lines 170-180): an optional object, wrapped with `required: false`. */
  lemma Test9Field()
    ensures DeriveField(Field("test9", Obj(Test9), true))
      == Wrapped(Definition([Entry("test10", RequiredString), Entry("test11", OptionalString)]), RequiredFalse)
  {
    var f := Field("test9", Obj(Test9), true);
    RequiredPropOfOptional(f);
    ObjectField(f, Test9);
    RequiredOptionalStrings("test10", "test11");
  }

  /** Lines 138-181: the definition derived from the model of lines 122-137. */
  lemma ModelDefinitionExample()
    ensures ModelDefinition(Model) == [
      Entry("test", OptionalString),
      Entry("test2", RequiredString),
      Entry("test3", Definition([
        Entry("test4", RequiredString),
        Entry("test5", Spec({StringArrayCtor}, RequiredAbsent, false, false))])),
      Entry("test6", Wrapped(Single(Definition([Entry("test7", RequiredString), Entry("test8", OptionalString)])), RequiredFalse)),
      Entry("test9", Wrapped(Definition([Entry("test10", RequiredString), Entry("test11", OptionalString)]), RequiredFalse))]
  {
    StringFields("test");
    StringFields("test2");
    Test3Field();
    Test6Field();
    Test9Field();
    DefinitionOfFive(Model[0], Model[1], Model[2], Model[3], Model[4]);
    assert Model == [Model[0], Model[1], Model[2], Model[3], Model[4]];
  }

  /** The definition of five keys other than `_id` is their five entries, in order. */
  lemma DefinitionOfFive(f0: Field, f1: Field, f2: Field, f3: Field, f4: Field)
    requires f0.name != "_id" && f1.name != "_id" && f2.name != "_id" && f3.name != "_id" && f4.name != "_id"
    ensures ModelDefinition([f0, f1, f2, f3, f4]) == [
      Entry(f0.name, DeriveField(f0)), Entry(f1.name, DeriveField(f1)), Entry(f2.name, DeriveField(f2)),
      Entry(f3.name, DeriveField(f3)), Entry(f4.name, DeriveField(f4))]
  {
    ModelDefinitionCons(f4, []);
    ModelDefinitionCons(f3, [f4]);
    ModelDefinitionCons(f2, [f3, f4]);
    ModelDefinitionCons(f1, [f2, f3, f4]);
    ModelDefinitionCons(f0, [f1, f2, f3, f4]);
    assert [f3] + [f4] == [f3, f4];
    assert [f2] + [f3, f4] == [f2, f3, f4];
    assert [f1] + [f2, f3, f4] == [f1, f2, f3, f4];
    assert [f0] + [f1, f2, f3, f4] == [f0, f1, f2, f3, f4];
  }
}
