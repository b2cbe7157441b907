/**
 * `IFieldType<T>` of common.ts (lines 65-83): the mongoose constructor that
 * describes a model field of type `T`. The constructors are reduced to tags.
 */
module FieldTypes {
  import opened TsTypes

  /** `Types.ObjectIdConstructor`, `typeof Types.ObjectId[]`, `typeof Date`, `typeof String`, ... */
  datatype Ctor =
    | ObjectIdCtor
    | ObjectIdArrayCtor
    | DateCtor
    | StringCtor
    | StringArrayCtor
    | NumberCtor
    | NumberArrayCtor
    | BooleanCtor
    | BooleanArrayCtor

  /** The type each constructor is meant for. */
  function CtorType(c: Ctor): Ty
  {
    match c
    case ObjectIdCtor => ObjectId
    case ObjectIdArrayCtor => Arr(ObjectId)
    case DateCtor => DateT
    case StringCtor => Str
    case StringArrayCtor => Arr(Str)
    case NumberCtor => Num
    case NumberArrayCtor => Arr(Num)
    case BooleanCtor => Bool
    case BooleanArrayCtor => Arr(Bool)
  }

  /** The position of each test in the conditional chain. */
  function Rank(c: Ctor): nat
  {
    match c
    case ObjectIdCtor => 0
    case ObjectIdArrayCtor => 1
    case DateCtor => 2
    case StringCtor => 3
    case StringArrayCtor => 4
    case NumberCtor => 5
    case NumberArrayCtor => 6
    case BooleanCtor => 7
    case BooleanArrayCtor => 8
  }

  /**
   * The conditional chain of `IFieldType` for one member `m` of `T`; `None` is `never`.
   * The chosen constructor is the first in priority order whose type `m` extends.
   * The last test (line 81) repeats `T extends boolean`, which the test before it
   * has already answered, so `typeof Boolean[]` is never chosen.
   */
  function FieldTypeOf(m: Ty): (r: Option<Ctor>)
    ensures r.Some? ==> Extends(m, CtorType(r.value)) && r.value != BooleanArrayCtor
    ensures r.Some? ==> forall c | Rank(c) < Rank(r.value) :: !Extends(m, CtorType(c))
    ensures r.None? ==> forall c | c != BooleanArrayCtor :: !Extends(m, CtorType(c))
  {
    if Extends(m, ObjectId) then Some(ObjectIdCtor)
    else if Extends(m, Arr(ObjectId)) then Some(ObjectIdArrayCtor)
    else if Extends(m, DateT) then Some(DateCtor)
    else if Extends(m, Str) then Some(StringCtor)
    else if Extends(m, Arr(Str)) then Some(StringArrayCtor)
    else if Extends(m, Num) then Some(NumberCtor)
    else if Extends(m, Arr(Num)) then Some(NumberArrayCtor)
    else if Extends(m, Bool) then Some(BooleanCtor)
    else if Extends(m, Bool) then Some(BooleanArrayCtor)
    else None
  }

  /** `IFieldType<T>` (line 65): distributed over the members of `T`, so a union gives a union of constructors. */
  function FieldType(t: Ty): set<Ctor>
  {
    set m | m in Members(t) && FieldTypeOf(m).Some? :: FieldTypeOf(m).value
  }

  /**
   * An independent reading of the chain by the shape of a type that is not a union:
   * each leaf picks its own constructor, an array picks by what its element extends.
   */
  function ShapeCtor(m: Ty): Option<Ctor>
  {
    match m
    case ObjectId => Some(ObjectIdCtor)
    case DateT => Some(DateCtor)
    case Str => Some(StringCtor)
    case Num => Some(NumberCtor)
    case Bool => Some(BooleanCtor)
    case Arr(e) =>
      if Extends(e, ObjectId) then Some(ObjectIdArrayCtor)
      else if Extends(e, Str) then Some(StringArrayCtor)
      else if Extends(e, Num) then Some(NumberArrayCtor)
      else None
    case _ => None
  }

  /** For a type that is not a union, the conditional chain agrees with the reading by shape. */
  lemma FieldTypeOfByShape(m: Ty)
    requires !m.Union?
    ensures FieldTypeOf(m) == ShapeCtor(m)
  {
  }

  /** `IFieldType` distributes over unions: the constructors of `a | b` are those of `a` and of `b`. */
  lemma FieldTypeOfUnion(a: Ty, b: Ty)
    ensures FieldType(Or(a, b)) == FieldType(a) + FieldType(b)
  {
  }

  /** A type that is not a union gets at most one constructor; `never` gets none. */
  lemma FieldTypeSize(t: Ty)
    ensures !t.Union? ==> |FieldType(t)| <= 1
    ensures Members(t) == {} ==> FieldType(t) == {}
  {
    if !t.Union? {
      assert Members(t) == {t};
      if FieldTypeOf(t).Some? {
        assert FieldType(t) == {FieldTypeOf(t).value};
      } else {
        assert FieldType(t) == {};
      }
    }
  }

  /** `typeof Boolean[]` is never produced, for any `T`. */
  lemma BooleanArrayNeverChosen(t: Ty)
    ensures BooleanArrayCtor !in FieldType(t)
  {
  }
}

/** Concrete instances of the field-type mapping. */
module FieldTypeExamples {
  import opened TsTypes
  import opened FieldTypes

  /** `IFieldType<boolean[]>` is `never`: line 81 tests `boolean` a second time instead of `boolean[]`. */
  lemma BooleanArrayFieldIsNever()
    ensures FieldType(Arr(Bool)) == {}
  {
    assert FieldTypeOf(Arr(Bool)) == None by {
      FieldTypeOfByShape(Arr(Bool));
    }
  }
}
