/**
 * TypeScript types reified as values.
 *
 * Every alias of common.ts is a function from types to types. This module
 * gives those types a representation: the leaf types the aliases test for,
 * arrays, object types made of property slots (a slot carries the `?`
 * modifier), and unions. The empty object type `{}` and
 * `Record<string, never>` are both `Obj([])`; `never` is the empty union.
 */
module TsTypes {

  datatype Ty =
    | Str        // string
    | Num        // number
    | Bool       // boolean
    | ObjectId   // Types.ObjectId
    | DateT      // Date
    | Null       // null
    | Undefined  // undefined
    | Arr(elem: Ty)
    | Obj(fields: seq<Field>)
    | Union(alts: set<Ty>)

  /** One property slot of an object type: `name: ty`, or `name?: ty` when optional. */
  datatype Field = Field(name: string, ty: Ty, optional: bool)

  datatype Option<T> = None | Some(value: T)

  const Never: Ty := Union({})

  /** `{}`, and equally `Record<string, never>`: an object type without properties. */
  const EmptyObj: Ty := Obj([])

  /** The members of a union; a type that is not a union is its own only member. */
  function Members(t: Ty): set<Ty>
  {
    if t.Union? then t.alts else {t}
  }

  /** A union whose members are not themselves unions, as TypeScript always flattens them. */
  predicate Flat(t: Ty)
  {
    forall m | m in Members(t) :: !m.Union?
  }

  predicate IsLeaf(t: Ty)
  {
    t.Str? || t.Num? || t.Bool? || t.ObjectId? || t.DateT? || t.Null? || t.Undefined?
  }

  /** `a | b`. When one side already holds every member of the union, that side is the result. */
  function Or(a: Ty, b: Ty): (r: Ty)
    ensures Members(r) == Members(a) + Members(b)
    ensures Flat(a) && Flat(b) ==> Flat(r)
  {
    var m := Members(a) + Members(b);
    if m == Members(a) then a else if m == Members(b) then b else Union(m)
  }

  /**
   * `s extends u`, for a type `s` that is not a naked type parameter (no distribution).
   * A union extends `u` when each of its members does; a non-union type extends a
   * union when it extends one of its members; arrays are covariant in their element;
   * otherwise a type extends only itself. In particular `never` extends everything and
   * only `{}` extends `Record<string, never>` (both `Obj([])`).
   */
  predicate Extends(s: Ty, u: Ty)
    decreases s, u
  {
    if s.Union? then forall a | a in s.alts :: Extends(a, u)
    else if u.Union? then exists b | b in u.alts :: Extends(s, b)
    else if s.Arr? && u.Arr? then Extends(s.elem, u.elem)
    else s == u
  }

  /** `T[P]` for the slot `f`: reading an optional slot may give `undefined`. */
  function Prop(f: Field): (t: Ty)
    ensures Members(t) == Members(f.ty) + (if f.optional then {Undefined} else {})
  {
    if f.optional then Or(f.ty, Undefined) else f.ty
  }

  /** The names of an object type's slots, in declaration order. */
  function Names(fs: seq<Field>): (ns: seq<string>)
    ensures |ns| == |fs|
    ensures forall i | 0 <= i < |fs| :: ns[i] == fs[i].name
  {
    if fs == [] then [] else [fs[0].name] + Names(fs[1..])
  }

  /** An object type declares each property once. */
  predicate DistinctNames(fs: seq<Field>)
  {
    forall i, j | 0 <= i < j < |fs| :: fs[i].name != fs[j].name
  }

  /** The first slot of `fs` named `k`. */
  function Lookup(fs: seq<Field>, k: string): (r: Option<Field>)
    ensures r.Some? ==> r.value in fs && r.value.name == k
    ensures r.None? <==> forall f | f in fs :: f.name != k
  {
    if fs == [] then None
    else if fs[0].name == k then Some(fs[0])
    else Lookup(fs[1..], k)
  }

  /** Dropping the first slot keeps the names distinct. */
  lemma DistinctTail(fs: seq<Field>)
    requires DistinctNames(fs) && fs != []
    ensures DistinctNames(fs[1..])
  {
    forall i, j | 0 <= i < j < |fs[1..]|
      ensures fs[1..][i].name != fs[1..][j].name
    {
      assert fs[1..][i] == fs[i + 1] && fs[1..][j] == fs[j + 1];
    }
  }

  /** Two slots of an object type that declares each property once are the same slot when their names agree. */
  lemma SameName(fs: seq<Field>, f: Field, g: Field)
    requires DistinctNames(fs) && f in fs && g in fs && f.name == g.name
    ensures f == g
  {
    var i :| 0 <= i < |fs| && fs[i] == f;
    var j :| 0 <= j < |fs| && fs[j] == g;
    assert !(i < j) && !(j < i);
  }

  /** Every object type inside `t`, at any depth, declares each property once. */
  predicate WellFormed(t: Ty)
    decreases t
  {
    match t
    case Arr(e) => WellFormed(e)
    case Obj(fs) => DistinctNames(fs) && forall i | 0 <= i < |fs| :: WellFormed(fs[i].ty)
    case Union(alts) => forall a | a in alts :: WellFormed(a)
    case _ => true
  }

  /** Whether a type extends a union can be read off its members one by one. */
  lemma ExtendsByMembers(t: Ty, u: Ty)
    ensures Extends(t, u) <==> forall m | m in Members(t) :: Extends(m, u)
  {
  }

  /** Every type extends itself. */
  lemma {:induction false} ExtendsReflexive(t: Ty)
    ensures Extends(t, t)
    decreases t
  {
    match t
    case Arr(e) =>
      ExtendsReflexive(e);
    case Union(alts) =>
      forall a | a in alts
        ensures Extends(a, t)
      {
        ExtendsReflexive(a);
        ExtendsUnionOfMember(a, a, alts);
      }
    case _ =>
  }

  /** Whatever extends a member of a union extends the union. */
  lemma {:induction false} ExtendsUnionOfMember(s: Ty, a: Ty, alts: set<Ty>)
    requires a in alts && Extends(s, a)
    ensures Extends(s, Union(alts))
    decreases s
  {
    if s.Union? {
      forall x | x in s.alts
        ensures Extends(x, Union(alts))
      {
        ExtendsUnionOfMember(x, a, alts);
      }
    }
  }

  /** `T[P]` of a required slot is its declared type; of an optional slot it is never an object type. */
  lemma PropOfSlot(f: Field)
    ensures !f.optional ==> Prop(f) == f.ty
    ensures f.optional ==> Undefined in Members(Prop(f)) && !Prop(f).Obj?
  {
  }

  /** A non-union type extends `Record<string, never>` exactly when it is the empty object type. */
  lemma ExtendsEmptyObj(t: Ty)
    requires !t.Union?
    ensures Extends(t, EmptyObj) <==> t == Obj([])
  {
  }

  /** No object type extends a union of leaf types. */
  lemma {:induction false} ObjNotExtendsLeaves(fs: seq<Field>, u: Ty)
    requires forall m | m in Members(u) :: IsLeaf(m)
    ensures !Extends(Obj(fs), u)
  {
    if u.Union? {
      forall b | b in u.alts
        ensures !Extends(Obj(fs), b)
      {
        assert IsLeaf(b);
      }
    } else {
      assert u in Members(u);
    }
  }
}
