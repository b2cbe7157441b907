/**
 * Union algebra of common.ts: `IDiff`, `IFilter` and `INonNullable`, conditional
 * types that distribute over the members of their first argument, and the
 * `Required<T>[P]` lookup the schema deriver uses.
 */
module UnionAlgebra {
  import opened TsTypes

  /** The union of a set of member types; a single member stands for itself. */
  ghost function FromMembers(s: set<Ty>): (t: Ty)
    ensures |s| == 1 ==> t in s
    ensures |s| != 1 ==> t == Union(s)
    ensures (forall x | x in s :: !x.Union?) ==> Members(t) == s && Flat(t)
  {
    if |s| == 1 then
      var x :| x in s;
      assert |s - {x}| == 0;
      assert s == {x};
      x
    else
      Union(s)
  }

  /** `IDiff<T, U>` (line 279): the members of `T` that do not extend `U`. */
  ghost function Diff(t: Ty, u: Ty): (r: Ty)
    ensures !r.Union? ==> r in Members(t)
    ensures Flat(t) ==> Flat(r) && Members(r) == set m | m in Members(t) && !Extends(m, u)
  {
    FromMembers(set m | m in Members(t) && !Extends(m, u))
  }

  /** `IFilter<T, U>` (line 284): the members of `T` that extend `U`. */
  ghost function Filter(t: Ty, u: Ty): (r: Ty)
    ensures !r.Union? ==> r in Members(t)
    ensures Flat(t) ==> Flat(r) && Members(r) == set m | m in Members(t) && Extends(m, u)
  {
    FromMembers(set m | m in Members(t) && Extends(m, u))
  }

  const Nullish: Ty := Union({Null, Undefined})

  /** `INonNullable<T>` (line 289): `T` without `null` and `undefined`. */
  ghost function NonNullable(t: Ty): (r: Ty)
    ensures Flat(t) ==> Members(r) == Members(t) - {Null, Undefined}
  {
    var r := Diff(t, Nullish);
    forall m | m in Members(t) && !m.Union?
      ensures Extends(m, Nullish) <==> m == Null || m == Undefined
    {
      ExtendsLeafUnion(m, {Null, Undefined});
    }
    r
  }

  /**
   * `Required<T>[P]` for the slot `f`: removing the `?` modifier also removes the
   * `undefined` it stood for.
   */
  ghost function RequiredProp(f: Field): (r: Ty)
    ensures !f.optional ==> r == f.ty
    ensures !r.Union? ==> r == f.ty || (f.ty.Union? && r in f.ty.alts)
    ensures Flat(f.ty) ==> Members(r) == Members(f.ty) - (if f.optional then {Undefined} else {})
  {
    if f.optional then Diff(f.ty, Undefined)
    else
      f.ty
  }

  /** `Required<T>[P]` extends `T[P]` as declared: dropping `undefined` only narrows the type. */
  lemma RequiredPropExtends(f: Field)
    ensures Extends(RequiredProp(f), f.ty)
  {
    forall m | m in Members(f.ty)
      ensures Extends(m, f.ty)
    {
      MemberExtends(m, f.ty);
    }
    if !f.optional {
      ExtendsReflexive(f.ty);
    }
  }

  /** Each member of a type extends the type. */
  lemma MemberExtends(m: Ty, t: Ty)
    requires m in Members(t)
    ensures Extends(m, t)
  {
    ExtendsReflexive(m);
    if t.Union? {
      ExtendsUnionOfMember(m, m, t.alts);
    }
  }

  /**
   * `IDiff` and `IFilter` split a union in two: no member is in both, together they
   * hold every member, what `IFilter` keeps extends `U` and nothing `IDiff` keeps does.
   */
  lemma {:induction false} DiffFilterPartition(t: Ty, u: Ty)
    requires Flat(t)
    ensures Members(Diff(t, u)) !! Members(Filter(t, u))
    ensures Members(Diff(t, u)) + Members(Filter(t, u)) == Members(t)
    ensures Extends(Filter(t, u), u)
    ensures forall m | m in Members(Diff(t, u)) :: !Extends(m, u)
  {
    DiffFilterCover(t, u);
    FilterExtends(t, u);
  }

  /** What `IFilter` and `IDiff` keep covers the members of `T`. */
  lemma DiffFilterCover(t: Ty, u: Ty)
    requires Flat(t)
    ensures Members(Diff(t, u)) + Members(Filter(t, u)) == Members(t)
  {
    forall m | m in Members(t)
      ensures m in Members(Diff(t, u)) + Members(Filter(t, u))
    {
      if Extends(m, u) {
        assert m in Members(Filter(t, u));
      } else {
        assert m in Members(Diff(t, u));
      }
    }
  }

  /** `IFilter<T, U>` extends `U`. */
  lemma FilterExtends(t: Ty, u: Ty)
    requires Flat(t)
    ensures Extends(Filter(t, u), u)
  {
    ExtendsByMembers(Filter(t, u), u);
  }

  /** A non-union type extends a union of leaves exactly when it is one of them. */
  lemma ExtendsLeafUnion(m: Ty, leaves: set<Ty>)
    requires !m.Union?
    requires forall b | b in leaves :: IsLeaf(b)
    ensures Extends(m, Union(leaves)) <==> m in leaves
  {
    if m in leaves {
      assert Extends(m, m);
    }
  }

  /** `INonNullable<string | null | undefined>` is `string`. */
  lemma NonNullableExample()
    ensures NonNullable(Union({Str, Null, Undefined})) == Str
  {
    var t := Union({Str, Null, Undefined});
    assert Flat(t);
    assert Members(NonNullable(t)) == {Str};
  }
}
