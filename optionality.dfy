/**
 * Optionality reshaping of common.ts: `IComplete`, `IOptToUndef` and
 * `IRequiredWithType`. Each maps every key of `T` to a required slot; the first
 * two keep the type read through the key (`T[P]`), the third replaces it.
 */
module Optionality {
  import opened TsTypes
  import opened UnionAlgebra
  import opened KeyFilters

  /**
   * One slot of `IComplete<T>` (line 195): a required slot reads as `T[P]`; an
   * optional one (`Pick<T, P>` is then not `Required<Pick<T, P>>`) as `T[P] | undefined`.
   */
  function CompleteSlot(f: Field): (g: Field)
    ensures g.name == f.name && !g.optional
    ensures Members(g.ty) == Members(f.ty) + (if f.optional then {Undefined} else {})
  {
    var required := !f.optional;
    Field(f.name, if required then Prop(f) else Or(Prop(f), Undefined), false)
  }

  /** `IComplete<T>` (line 195): every key of `T`, each made required. */
  function Complete(fs: seq<Field>): (r: seq<Field>)
    ensures |r| == |fs|
    ensures forall i | 0 <= i < |fs| :: r[i].name == fs[i].name && !r[i].optional
    ensures forall i | 0 <= i < |fs| :: Members(r[i].ty) == Members(Prop(fs[i]))
    ensures forall i | 0 <= i < |fs| && !fs[i].optional :: r[i].ty == fs[i].ty
  {
    seq(|fs|, i requires 0 <= i < |fs| => CompleteSlot(fs[i]))
  }

  /**
   * One slot of `IOptToUndef<T>` (line 241): `T[K]`, joined with `undefined` when
   * `{}` extends `Pick<T, K>` (the slot is optional) and with `never` otherwise.
   */
  function OptToUndefSlot(f: Field): (g: Field)
    ensures g.name == f.name && !g.optional
    ensures Members(g.ty) == Members(Prop(f))
  {
    var emptyExtendsPick := f.optional;
    Field(f.name, Or(Prop(f), if emptyExtendsPick then Undefined else Never), false)
  }

  /**
   * For an optional slot, neither alias depends on how its optionality test comes
   * out: `T[P]` already holds `undefined`, so `T[P]` and `T[P] | undefined` are the
   * same type. Whatever `test` stands for (`Pick<T, P> extends Required<Pick<T, P>>`
   * at line 196, `{} extends Pick<T, K>` at line 242), the slot reads as `T[P]`.
   */
  lemma OptionalSlotIgnoresTest(f: Field, test: bool)
    requires f.optional
    ensures Members(if test then Prop(f) else Or(Prop(f), Undefined)) == Members(Prop(f))
    ensures Members(Or(Prop(f), if test then Undefined else Never)) == Members(Prop(f))
  {
    assert Undefined in Members(Prop(f));
  }

  /** `IOptToUndef<T>` (line 241) */
  function OptToUndef(fs: seq<Field>): (r: seq<Field>)
    ensures |r| == |fs|
    ensures forall i | 0 <= i < |fs| :: r[i].name == fs[i].name && !r[i].optional
    ensures forall i | 0 <= i < |fs| :: Members(r[i].ty) == Members(Prop(fs[i]))
  {
    seq(|fs|, i requires 0 <= i < |fs| => OptToUndefSlot(fs[i]))
  }

  /**
   * One slot of `IRequiredWithType<T, V>` (line 253): the mapped type `{ [P in keyof T]-?: V }`
   * is homomorphic, so `-?` removes `undefined` from `V` where `P` was optional in `T`.
   */
  ghost function RequiredWithTypeSlot(f: Field, v: Ty): (g: Field)
    ensures g.name == f.name && !g.optional
    ensures !f.optional ==> g.ty == v
    ensures Flat(v) ==> Members(g.ty) == Members(v) - (if f.optional then {Undefined} else {})
    ensures Extends(g.ty, v)
  {
    RequiredPropExtends(Field(f.name, v, f.optional));
    Field(f.name, RequiredProp(Field(f.name, v, f.optional)), false)
  }

  /** `IRequiredWithType<T, V>` (line 252): every key of `T`, required, typed `V` less `undefined` where `T` had `?`. */
  ghost function RequiredWithType(fs: seq<Field>, v: Ty): (r: seq<Field>)
    ensures |r| == |fs|
    ensures forall i | 0 <= i < |fs| :: r[i].name == fs[i].name && !r[i].optional
    ensures forall i | 0 <= i < |fs| && !fs[i].optional :: r[i].ty == v
    ensures Flat(v) ==> forall i | 0 <= i < |fs| ::
      Members(r[i].ty) == Members(v) - (if fs[i].optional then {Undefined} else {})
  {
    seq(|fs|, i requires 0 <= i < |fs| => RequiredWithTypeSlot(fs[i], v))
  }

  /**
   * The two formulations agree: `IComplete<T>` and `IOptToUndef<T>` are the same
   * type, slot for slot.
   */
  lemma CompleteIsOptToUndef(fs: seq<Field>)
    ensures Complete(fs) == OptToUndef(fs)
  {
    forall i | 0 <= i < |fs|
      ensures Complete(fs)[i] == OptToUndef(fs)[i]
    {
      var f := fs[i];
      if f.optional {
        assert Members(Prop(f)) + Members(Undefined) == Members(Prop(f));
      } else {
        assert Members(Prop(f)) + Members(Never) == Members(Prop(f));
      }
    }
  }

  /**
   * `IComplete` changes no key and no type read through a key: `IComplete<T>[P]`
   * and `T[P]` have the same members for every `P`, and `keyof` is unchanged.
   */
  lemma CompleteKeepsReads(fs: seq<Field>, k: string)
    ensures AllKeys(Complete(fs)) == AllKeys(fs)
    ensures Lookup(fs, k).None? <==> Lookup(Complete(fs), k).None?
    ensures Lookup(fs, k).Some? ==> Members(Prop(Lookup(Complete(fs), k).value)) == Members(Prop(Lookup(fs, k).value))
  {
    CompleteKeepsKeys(fs);
    LookupComplete(fs, k);
  }

  /** `keyof IComplete<T>` is `keyof T`. */
  lemma CompleteKeepsKeys(fs: seq<Field>)
    ensures AllKeys(Complete(fs)) == AllKeys(fs)
  {
    var r := Complete(fs);
    AllKeysMembers(fs);
    AllKeysMembers(r);
    forall k' | k' in AllKeys(fs) ensures k' in AllKeys(r) {
      var f :| f in fs && f.name == k';
      var i :| 0 <= i < |fs| && fs[i] == f;
      assert r[i] in r;
    }
    forall k' | k' in AllKeys(r) ensures k' in AllKeys(fs) {
      var f :| f in r && f.name == k';
      var i :| 0 <= i < |fs| && r[i] == f;
      assert fs[i] in fs;
    }
  }

  /** Looking a key up in `IComplete<T>` finds the completed slot of that key. */
  lemma {:induction false} LookupComplete(fs: seq<Field>, k: string)
    ensures Lookup(Complete(fs), k) == (match Lookup(fs, k) case None => None case Some(f) => Some(CompleteSlot(f)))
  {
    if fs != [] {
      assert Complete(fs)[1..] == Complete(fs[1..]);
      LookupComplete(fs[1..], k);
    }
  }

  /** `IComplete` is idempotent: completing a completed type changes nothing. */
  lemma CompleteIdempotent(fs: seq<Field>)
    ensures Complete(Complete(fs)) == Complete(fs)
  {
    var r := Complete(fs);
    forall i | 0 <= i < |r|
      ensures Complete(r)[i] == r[i]
    {
      assert !r[i].optional;
    }
  }

  /**
   * `IRequiredWithType<T, V>` keeps every key of `T`, and every one of them is of
   * type `V`: its `IKeysOfType` for `V` is all of `keyof T`.
   */
  lemma {:induction false} RequiredWithTypeKeys(fs: seq<Field>, v: Ty)
    ensures AllKeys(RequiredWithType(fs, v)) == AllKeys(fs)
    ensures KeysOfType(RequiredWithType(fs, v), v) == AllKeys(fs)
  {
    if fs != [] {
      var r := RequiredWithType(fs, v);
      assert r[1..] == RequiredWithType(fs[1..], v);
      RequiredWithTypeKeys(fs[1..], v);
      assert r[0] == RequiredWithTypeSlot(fs[0], v);
      assert Extends(Prop(r[0]), v);
    }
  }
}

/** The compile-time examples that common.ts gives for its optionality aliases. */
module OptionalityExamples {
  import opened TsTypes
  import opened UnionAlgebra
  import opened Optionality

  /** The object type of lines 200-209. */
  const Keys: seq<Field> := [
    Field("key1", Num, false),
    Field("key2", Union({Num, Undefined}), false),
    Field("key3", Str, true),
    Field("key4", Str, true),
    Field("key5", Undefined, true),
    Field("key6", Null, true),
    Field("key7", Undefined, false),
    Field("key8", Null, false)
  ]

  /**
   * Lines 200-219: `IComplete` makes every key required; `key3`/`key4` become
   * `string | undefined`, `key5` stays `undefined`, `key6` becomes `null | undefined`.
   */
  lemma CompleteExample()
    ensures Complete(Keys) == [
      Field("key1", Num, false),
      Field("key2", Union({Num, Undefined}), false),
      Field("key3", Union({Str, Undefined}), false),
      Field("key4", Union({Str, Undefined}), false),
      Field("key5", Undefined, false),
      Field("key6", Union({Null, Undefined}), false),
      Field("key7", Undefined, false),
      Field("key8", Null, false)
    ]
  {
    assert {Str} + {Undefined} == {Str, Undefined};
    assert {Null} + {Undefined} == {Null, Undefined};
  }

  /** Lines 220-233: `bar?: number` becomes the required `bar: number | undefined`. */
  lemma CompleteExample3()
    ensures Complete([Field("foo", Num, false), Field("bar", Num, true), Field("baz", Union({Num, Undefined}), false)])
      == [Field("foo", Num, false), Field("bar", Union({Num, Undefined}), false), Field("baz", Union({Num, Undefined}), false)]
  {
    assert {Num} + {Undefined} == {Num, Undefined};
  }

  /** Line 244: `IOptToUndef<{ test?: string }>` is `{ test: string | undefined }`. */
  lemma OptToUndefExample()
    ensures OptToUndef([Field("test", Str, true)]) == [Field("test", Union({Str, Undefined}), false)]
  {
    assert {Str} + {Undefined} == {Str, Undefined};
  }

  /** Lines 255-263: `IRequiredWithType<{ one?: string; two: string; three: string | undefined }, number>`. */
  lemma RequiredWithTypeExample()
    ensures RequiredWithType([Field("one", Str, true), Field("two", Str, false), Field("three", Union({Str, Undefined}), false)], Num)
      == [Field("one", Num, false), Field("two", Num, false), Field("three", Num, false)]
  {
    RequiredSlotOf(Field("one", Str, true), Num, Num);
  }

  /**
   * With `V = number | undefined`, `-?` strips `undefined` from the key that was
   * optional: `IRequiredWithType<{ one?: string; two: string }, number | undefined>`
   * is `{ one: number; two: number | undefined }`.
   */
  lemma RequiredWithTypeStripsUndefined()
    ensures RequiredWithType([Field("one", Str, true), Field("two", Str, false)], Union({Num, Undefined}))
      == [Field("one", Num, false), Field("two", Union({Num, Undefined}), false)]
  {
    RequiredSlotOf(Field("one", Str, true), Union({Num, Undefined}), Num);
  }

  /** The slot of an optional key is the leaf `e` when `V` without `undefined` is just `e`. */
  lemma RequiredSlotOf(f: Field, v: Ty, e: Ty)
    requires f.optional && Flat(v) && !e.Union? && Members(v) - {Undefined} == {e}
    ensures RequiredWithTypeSlot(f, v) == Field(f.name, e, false)
  {
    assert Members(RequiredProp(Field(f.name, v, f.optional))) == {e};
  }
}
