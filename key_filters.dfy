/**
 * Key algebra and the shallow type-directed filters of common.ts:
 * `IAllKeys`, `IKeysOfType`, `IKeysNotOfType`, `IPickByType`, `IOmitByType`
 * and `ICommonProps`. An object type is given by its slots; a key union by a
 * set of property names.
 */
module KeyFilters {
  import opened TsTypes

  /** `IAllKeys<T>` (line 403), that is `keyof T`. */
  function AllKeys(fs: seq<Field>): set<string>
  {
    if fs == [] then {} else {fs[0].name} + AllKeys(fs[1..])
  }

  /** `IKeysOfType<T, U>` (line 344): the keys `P` whose `T[P]` extends `U`. */
  function KeysOfType(fs: seq<Field>, u: Ty): set<string>
  {
    if fs == [] then {}
    else (if Extends(Prop(fs[0]), u) then {fs[0].name} else {}) + KeysOfType(fs[1..], u)
  }

  /** `IKeysNotOfType<T, U>` (line 392): the keys `P` whose `T[P]` does not extend `U`. */
  function KeysNotOfType(fs: seq<Field>, u: Ty): set<string>
  {
    if fs == [] then {}
    else (if Extends(Prop(fs[0]), u) then {} else {fs[0].name}) + KeysNotOfType(fs[1..], u)
  }

  /** `keyof T` holds the name of every slot of `T` and nothing else. */
  lemma {:induction false} AllKeysMembers(fs: seq<Field>)
    ensures forall f | f in fs :: f.name in AllKeys(fs)
    ensures forall k | k in AllKeys(fs) :: exists f | f in fs :: f.name == k
  {
    if fs != [] {
      AllKeysMembers(fs[1..]);
      assert forall f | f in fs :: f == fs[0] || f in fs[1..];
      assert forall f | f in fs[1..] :: f in fs;
    }
  }

  /** `IKeysOfType<T, U>` holds a key exactly when some slot of that name has a `T[P]` extending `U`. */
  lemma {:induction false} KeysOfTypeMembers(fs: seq<Field>, u: Ty)
    ensures forall f | f in fs && Extends(Prop(f), u) :: f.name in KeysOfType(fs, u)
    ensures forall k | k in KeysOfType(fs, u) :: exists f | f in fs :: f.name == k && Extends(Prop(f), u)
  {
    if fs != [] {
      KeysOfTypeMembers(fs[1..], u);
      assert forall f | f in fs :: f == fs[0] || f in fs[1..];
      assert forall f | f in fs[1..] :: f in fs;
    }
  }

  /** `IKeysNotOfType<T, U>` holds a key exactly when some slot of that name has a `T[P]` not extending `U`. */
  lemma {:induction false} KeysNotOfTypeMembers(fs: seq<Field>, u: Ty)
    ensures forall f | f in fs && !Extends(Prop(f), u) :: f.name in KeysNotOfType(fs, u)
    ensures forall k | k in KeysNotOfType(fs, u) :: exists f | f in fs :: f.name == k && !Extends(Prop(f), u)
  {
    if fs != [] {
      KeysNotOfTypeMembers(fs[1..], u);
      assert forall f | f in fs :: f == fs[0] || f in fs[1..];
      assert forall f | f in fs[1..] :: f in fs;
    }
  }

  /** `r` lists some of the slots of `fs`, in the order `fs` has them. */
  predicate Subsequence(r: seq<Field>, fs: seq<Field>)
    decreases fs
  {
    if r == [] then true
    else if fs == [] then false
    else if r[0] == fs[0] then Subsequence(r[1..], fs[1..])
    else Subsequence(r, fs[1..])
  }

  /** `Pick<T, K>`: the slots of `T` whose key is in `K`, with their modifiers and in their order. */
  function Pick(fs: seq<Field>, keys: set<string>): seq<Field>
  {
    if fs == [] then []
    else if fs[0].name in keys then [fs[0]] + Pick(fs[1..], keys)
    else Pick(fs[1..], keys)
  }

  /** `Pick<T, K>` holds exactly the slots of `T` whose key is in `K`. */
  lemma {:induction false} PickMembers(fs: seq<Field>, keys: set<string>)
    ensures forall f :: f in Pick(fs, keys) <==> f in fs && f.name in keys
  {
    if fs != [] {
      PickMembers(fs[1..], keys);
      assert forall f | f in fs :: f == fs[0] || f in fs[1..];
    }
  }

  /** Two types with the same names in the same order have the same keys. */
  lemma KeysOfNames(a: seq<Field>, b: seq<Field>)
    requires Names(a) == Names(b)
    ensures AllKeys(a) == AllKeys(b)
  {
    AllKeysMembers(a);
    AllKeysMembers(b);
    forall k | k in AllKeys(a) ensures k in AllKeys(b) {
      var f :| f in a && f.name == k;
      var i :| 0 <= i < |a| && a[i] == f;
      assert Names(b)[i] == k;
      assert b[i] in b;
    }
    forall k | k in AllKeys(b) ensures k in AllKeys(a) {
      var f :| f in b && f.name == k;
      var i :| 0 <= i < |b| && b[i] == f;
      assert Names(a)[i] == k;
      assert a[i] in a;
    }
  }

  /** The keys of `Pick<T, K>` are the keys of `T` in `K`. */
  lemma PickKeys(fs: seq<Field>, keys: set<string>)
    ensures AllKeys(Pick(fs, keys)) == AllKeys(fs) * keys
  {
    PickMembers(fs, keys);
    AllKeysMembers(fs);
    AllKeysMembers(Pick(fs, keys));
    forall k | k in AllKeys(fs) * keys ensures k in AllKeys(Pick(fs, keys)) {
      var f :| f in fs && f.name == k;
    }
  }

  /** `Pick<T, K>` keeps the slots of `T` in their order. */
  lemma {:induction false} PickOrder(fs: seq<Field>, keys: set<string>)
    ensures Subsequence(Pick(fs, keys), fs)
  {
    if fs != [] {
      PickOrder(fs[1..], keys);
      if fs[0].name !in keys {
        SubsequenceOfTail(Pick(fs[1..], keys), fs);
      }
    }
  }

  /** What is a subsequence of the tail is one of the whole. */
  lemma {:induction false} SubsequenceOfTail(r: seq<Field>, fs: seq<Field>)
    requires fs != [] && Subsequence(r, fs[1..])
    ensures Subsequence(r, fs)
    decreases fs, 0
  {
    if r != [] && r[0] == fs[0] {
      SubsequenceDropHead(r, fs[1..]);
    }
  }

  /** Dropping the first slot of a subsequence leaves a subsequence. */
  lemma {:induction false} SubsequenceDropHead(r: seq<Field>, fs: seq<Field>)
    requires r != [] && Subsequence(r, fs)
    ensures Subsequence(r[1..], fs)
    decreases fs, 1
  {
    if r[0] == fs[0] {
      SubsequenceOfTail(r[1..], fs);
    } else {
      SubsequenceDropHead(r, fs[1..]);
      SubsequenceOfTail(r[1..], fs);
    }
  }

  /** `IPickByType<T, U>` (line 321) */
  function PickByType(fs: seq<Field>, u: Ty): (r: seq<Field>)
    ensures Subsequence(r, fs)
  {
    PickOrder(fs, KeysOfType(fs, u));
    Pick(fs, KeysOfType(fs, u))
  }

  /** `IOmitByType<T, U>` (line 361) */
  function OmitByType(fs: seq<Field>, u: Ty): (r: seq<Field>)
    ensures Subsequence(r, fs)
  {
    PickOrder(fs, KeysNotOfType(fs, u));
    Pick(fs, KeysNotOfType(fs, u))
  }

  /** `ICommonProps<A, B>` (line 301): the keys of both, each typed `A[K] | B[K]`; the mapped type drops `?`. */
  function CommonProps(a: seq<Field>, b: seq<Field>): (r: seq<Field>)
    ensures forall f | f in r :: !f.optional && Lookup(a, f.name).Some? && Lookup(b, f.name).Some?
    ensures forall f | f in a && Lookup(b, f.name).Some? :: exists g | g in r :: g.name == f.name
  {
    if a == [] then []
    else
      var rest := CommonProps(a[1..], b);
      match Lookup(b, a[0].name)
      case Some(g) => [Field(a[0].name, Or(Prop(a[0]), Prop(g)), false)] + rest
      case None => rest
  }

  /**
   * For every `U`, `IKeysOfType` and `IKeysNotOfType` split `keyof T`: together they
   * are all the keys, and no key is in both.
   */
  lemma {:induction false} KeysPartition(fs: seq<Field>, u: Ty)
    requires DistinctNames(fs)
    ensures KeysOfType(fs, u) + KeysNotOfType(fs, u) == AllKeys(fs)
    ensures KeysOfType(fs, u) !! KeysNotOfType(fs, u)
  {
    if fs != [] {
      var rest := fs[1..];
      DistinctTail(fs);
      KeysPartition(rest, u);
      FirstNameFresh(fs);
      assert KeysOfType(fs, u) == (if Extends(Prop(fs[0]), u) then {fs[0].name} else {}) + KeysOfType(rest, u);
      assert KeysNotOfType(fs, u) == (if Extends(Prop(fs[0]), u) then {} else {fs[0].name}) + KeysNotOfType(rest, u);
      assert AllKeys(fs) == {fs[0].name} + AllKeys(rest);
    }
  }

  /** In an object type that declares each property once, the first key is not among the others. */
  lemma FirstNameFresh(fs: seq<Field>)
    requires DistinctNames(fs) && fs != []
    ensures fs[0].name !in AllKeys(fs[1..])
  {
    AllKeysMembers(fs[1..]);
    forall g | g in fs[1..]
      ensures g.name != fs[0].name
    {
      var j :| 0 <= j < |fs[1..]| && fs[1..][j] == g;
      assert fs[j + 1] == g;
    }
  }

  /** A slot is kept by `IPickByType` exactly when its `T[P]` extends `U`. */
  lemma {:induction false} PickByTypeKeeps(fs: seq<Field>, u: Ty)
    requires DistinctNames(fs)
    ensures forall f :: f in PickByType(fs, u) <==> f in fs && Extends(Prop(f), u)
  {
    PickMembers(fs, KeysOfType(fs, u));
    KeysOfTypeMembers(fs, u);
    forall f | f in fs && f.name in KeysOfType(fs, u)
      ensures Extends(Prop(f), u)
    {
      var g :| g in fs && g.name == f.name && Extends(Prop(g), u);
      SameName(fs, f, g);
    }
  }

  /** A slot is kept by `IOmitByType` exactly when its `T[P]` does not extend `U`. */
  lemma {:induction false} OmitByTypeKeeps(fs: seq<Field>, u: Ty)
    requires DistinctNames(fs)
    ensures forall f :: f in OmitByType(fs, u) <==> f in fs && !Extends(Prop(f), u)
  {
    PickMembers(fs, KeysNotOfType(fs, u));
    KeysNotOfTypeMembers(fs, u);
    forall f | f in fs && f.name in KeysNotOfType(fs, u)
      ensures !Extends(Prop(f), u)
    {
      var g :| g in fs && g.name == f.name && !Extends(Prop(g), u);
      SameName(fs, f, g);
    }
  }

  /** Picking two disjoint key sets that cover every key gives back every slot once. */
  lemma {:induction false} PickComplementary(fs: seq<Field>, k1: set<string>, k2: set<string>)
    requires k1 !! k2
    requires forall f | f in fs :: f.name in k1 + k2
    ensures multiset(Pick(fs, k1)) + multiset(Pick(fs, k2)) == multiset(fs)
  {
    if fs != [] {
      PickComplementary(fs[1..], k1, k2);
      assert fs == [fs[0]] + fs[1..];
    }
  }

  /** `IPickByType` and `IOmitByType` are complementary: together they rebuild `T`, each slot once. */
  lemma {:induction false} PickOmitRebuild(fs: seq<Field>, u: Ty)
    requires DistinctNames(fs)
    ensures multiset(PickByType(fs, u)) + multiset(OmitByType(fs, u)) == multiset(fs)
  {
    KeysPartition(fs, u);
    AllKeysMembers(fs);
    PickComplementary(fs, KeysOfType(fs, u), KeysNotOfType(fs, u));
  }

  /** Each key of `ICommonProps<A, B>` is typed as the union of its types in `A` and in `B`. */
  lemma {:induction false} CommonPropsSlot(a: seq<Field>, b: seq<Field>, f: Field)
    requires DistinctNames(a)
    requires f in CommonProps(a, b)
    ensures Lookup(a, f.name).Some? && Lookup(b, f.name).Some?
    ensures Members(f.ty) == Members(Prop(Lookup(a, f.name).value)) + Members(Prop(Lookup(b, f.name).value))
  {
    var rest := CommonProps(a[1..], b);
    assert DistinctNames(a[1..]) by {
      forall i, j | 0 <= i < j < |a[1..]| ensures a[1..][i].name != a[1..][j].name {
        assert a[1..][i] == a[i + 1] && a[1..][j] == a[j + 1];
      }
    }
    if f in rest {
      CommonPropsSlot(a[1..], b, f);
      assert f.name != a[0].name by {
        var g := Lookup(a[1..], f.name).value;
        var j :| 0 <= j < |a[1..]| && a[1..][j] == g;
        assert a[j + 1] == g;
      }
    }
  }
}

/** The compile-time examples that common.ts gives for its key algebra and shallow filters. */
module KeyFilterExamples {
  import opened TsTypes
  import opened KeyFilters
  import opened UnionAlgebra

  /** `{ x: number; y: string; z: null }` */
  const XYZ: seq<Field> := [Field("x", Num, false), Field("y", Str, false), Field("z", Null, false)]

  /** Line 342: `IKeysOfType<{ a: number; b: boolean; c: null }, boolean | null>` is `"b" | "c"`. */
  lemma KeysOfTypeExample()
    ensures KeysOfType([Field("a", Num, false), Field("b", Bool, false), Field("c", Null, false)], Union({Bool, Null}))
      == {"b", "c"}
  {
    var fs := [Field("a", Num, false), Field("b", Bool, false), Field("c", Null, false)];
    var u := Union({Bool, Null});
    ExtendsLeafUnion(Num, {Bool, Null});
    ExtendsLeafUnion(Bool, {Bool, Null});
    ExtendsLeafUnion(Null, {Bool, Null});
  }

  /** Line 390: `IKeysNotOfType<{ a: number; b: boolean; c: null }, boolean>` is `"a" | "c"`. */
  lemma KeysNotOfTypeExample()
    ensures KeysNotOfType([Field("a", Num, false), Field("b", Bool, false), Field("c", Null, false)], Bool)
      == {"a", "c"}
  {
    var fs := [Field("a", Num, false), Field("b", Bool, false), Field("c", Null, false)];
    assert !Extends(Num, Bool) && Extends(Bool, Bool) && !Extends(Null, Bool);
  }

  /** The keys of `{ x: number; y: string; z: null }` of type `number`, and the others. */
  lemma KeysOfXYZNumber()
    ensures KeysOfType(XYZ, Num) == {"x"} && KeysNotOfType(XYZ, Num) == {"y", "z"}
  {
    assert Extends(Num, Num) && !Extends(Str, Num) && !Extends(Null, Num);
  }

  /** The keys of `{ x: number; y: string; z: null }` of type `number | null`, and the others. */
  lemma KeysOfXYZNumberOrNull()
    ensures KeysOfType(XYZ, Union({Num, Null})) == {"x", "z"} && KeysNotOfType(XYZ, Union({Num, Null})) == {"y"}
  {
    var u := Union({Num, Null});
    ExtendsLeafUnion(Num, {Num, Null});
    ExtendsLeafUnion(Str, {Num, Null});
    ExtendsLeafUnion(Null, {Num, Null});
  }

  /** Line 318: `IPickByType<{ x: number; y: string; z: null }, number>` is `{ x: number }`. */
  lemma PickByTypeExample()
    ensures PickByType(XYZ, Num) == [Field("x", Num, false)]
  {
    KeysOfXYZNumber();
  }

  /** Line 319: `IPickByType<{ x: number; y: string; z: null }, number | null>` is `{ x: number; z: null }`. */
  lemma PickByTypeExampleWithNull()
    ensures PickByType(XYZ, Union({Num, Null})) == [Field("x", Num, false), Field("z", Null, false)]
  {
    KeysOfXYZNumberOrNull();
  }

  /** Line 353: `IOmitByType<{ x: number; y: string; z: null }, number>` is `{ y: string; z: null }`. */
  lemma OmitByTypeExample()
    ensures OmitByType(XYZ, Num) == [Field("y", Str, false), Field("z", Null, false)]
  {
    KeysOfXYZNumber();
  }

  /** Line 354: `IOmitByType<{ x: number; y: string; z: null }, number | null>` is `{ y: string }`. */
  lemma OmitByTypeExampleWithNull()
    ensures OmitByType(XYZ, Union({Num, Null})) == [Field("y", Str, false)]
  {
    KeysOfXYZNumberOrNull();
  }

  /** Line 406: `IAllKeys<{ a: 3; b: true }>` is `"a" | "b"` (the literal types read as `number` and `boolean`). */
  lemma AllKeysExample()
    ensures AllKeys([Field("a", Num, false), Field("b", Bool, false)]) == {"a", "b"}
  {
    var fs := [Field("a", Num, false), Field("b", Bool, false)];
    assert fs[0] in fs && fs[1] in fs;
  }

  /** Lines 304-309: the common props of `{ y: number; x: string }` and `{ y: number; z: boolean }` are `{ y: number }`. */
  lemma CommonPropsExample()
    ensures CommonProps([Field("y", Num, false), Field("x", Str, false)], [Field("y", Num, false), Field("z", Bool, false)])
      == [Field("y", Num, false)]
  {
  }

  /**
   * The second example of the comment at line 297 promises `{ }` for
   * `A = { x: number; y: string }` and `B = { y: boolean }`; the mapped type keeps `y`
   * and types it `string | boolean`.
   */
  lemma CommonPropsKeepsDifferentlyTypedKey()
    ensures CommonProps([Field("x", Num, false), Field("y", Str, false)], [Field("y", Bool, false)])
      == [Field("y", Union({Str, Bool}), false)]
  {
    assert {Str} + {Bool} == {Str, Bool};
  }
}
