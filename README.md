# Type-level utilities of `common.ts`, modelled in Dafny

`common.ts` is a library of TypeScript type aliases. It has no runtime code. Its
aliases do four jobs:

- **Optionality.** `IComplete`, `IOptToUndef` and `IRequiredWithType` make every key
  of an object type required.
- **Union algebra.** `IDiff`, `IFilter` and `INonNullable` filter the members of a
  union.
- **Key filters.** `IAllKeys`, `IKeysOfType`, `IKeysNotOfType`, `IPickByType`,
  `IOmitByType`, `ICommonProps`, the deep forms `IPickByTypeDeep` and
  `IOmitByTypeDeep`, and the empty-object pruning `IIsEmptyObject`,
  `IWithoutEmptyObjectProps` and `IWithoutEmptyObjectPropsDeep`.
- **A mongoose schema deriver.** `IFieldType`, `IField` and `IModelDefinition` turn a
  model type into the type of its schema definition.

In the model, TypeScript types are values of the datatype `TsTypes.Ty`:

- the leaves `string`, `number`, `boolean`, `Types.ObjectId`, `Date`, `null` and
  `undefined`;
- arrays;
- object types, written as a sequence of property slots, each with its `?` modifier;
- unions, written as a set of members. `never` is the empty union. `{}` and
  `Record<string, never>` are both the object type without slots.

`T extends U` is the predicate `TsTypes.Extends`, and each alias is a function over
these values. A conditional type whose checked type is a naked type parameter
distributes over the members of a union. The model distributes exactly these
conditionals:

- `IFieldType<T>` (line 65);
- `IDiff` and `IFilter` (lines 279 and 284);
- `IIsEmptyObject<T>` (line 412);
- the two tests on the element type `U` that `infer U` binds in `IModelDefinition`
  (lines 108 and 112). An array of a union gets the union of the descriptors of
  its members (`Schema.ArrayFieldDistributes`).

The other conditionals test `T[P]`, `Required<T>[P]` or `Pick<T, P>`. None of these
is a naked type parameter, so the type is tested as a whole. Two conditionals of
`IField<T>` do distribute but are not followed: the `default` slot at line 90 and
the intersections at lines 93-94 (see "Left out").

The files follow the structure of the source:

- `ts_types.dfy`: types, `extends` and `T[P]`.
- `union_algebra.dfy`: `IDiff`, `IFilter`, `INonNullable` and `Required<T>[P]`.
- `key_filters.dfy`: key sets and shallow filters.
- `optionality.dfy`: `IComplete`, `IOptToUndef` and `IRequiredWithType`.
- `deep_filters.dfy`: the deep filters and empty-object pruning.
- `field_types.dfy`: `IFieldType`.
- `schema.dfy`: `IField` and `IModelDefinition`.

Each of the last five files ends with a module of examples (`FieldTypeExamples` in
`field_types.dfy`). These lemmas prove the
compile-time examples and the documented examples of the source, or show where the
aliases differ from their comments.

Where a comment in `common.ts` and the code disagree, the model follows the code:

- **Line 81.** The last test of `IFieldType` repeats `T extends boolean`, so
  `typeof Boolean[]` is never chosen and `IFieldType<boolean[]>` is `never`
  (`FieldTypeExamples.BooleanArrayFieldIsNever`).
- **Line 106.** The comment calls `a: string | undefined` optional. The test at line
  104 only sees the `?` modifier. Such a slot is required, and its type
  `string | undefined` fails the test of lines 99-103 as a whole, so its descriptor
  is `never` (`Schema.UnclassifiedField`).
- **Line 297.** The comment expects `{ }` for `ICommonProps<{ x: number; y: string },
  { y: boolean }>`. The mapped type keeps `y: string | boolean`.
- **Lines 328-329.** The examples keep `z: { b: number }`. `IPickByTypeDeep` takes its
  keys from `IPickByType`, which drops `z`, so the result is `{ x: number }`.
- **Pruning is one top-down pass.** `IWithoutEmptyObjectPropsDeep` is therefore not
  idempotent: `{ c: { d: {} } }` becomes `{ c: {} }`, and a second pass gives `{}`
  (`DeepFilterExamples.PruningNotIdempotent`). For a union of leaf types, `U`,
  `IOmitByTypeDeep` is idempotent (`DeepFilters.OmitDeepIdempotent`).

## Model

| member | source | states |
|---|---|---|
| TsTypes.ExtendsByMembers | common.ts:345 | a union extends `U` exactly when each of its members does |
| TsTypes.Extends | common.ts:345 | no contract of its own: `T extends U` as TypeScript decides it for these types. Its properties are in `TsTypes.ExtendsByMembers`, `TsTypes.ExtendsReflexive`, `TsTypes.ExtendsUnionOfMember`, `TsTypes.ExtendsEmptyObj` and `TsTypes.ObjNotExtendsLeaves` |
| TsTypes.Prop | common.ts:196-198 | `T[P]` has the members of the declared type, plus `undefined` when the slot is optional |
| TsTypes.PropOfSlot | common.ts:196-198 | `T[P]` of a required slot is its declared type; reading an optional slot may give `undefined`, so it is never an object type |
| TsTypes.ExtendsEmptyObj | common.ts:412 | a type that is not a union extends `Record<string, never>` exactly when it is `{}` |
| UnionAlgebra.Diff | common.ts:279 | `IDiff<T, U>` holds exactly the members of `T` that do not extend `U`; any single result is one of `T`'s members |
| UnionAlgebra.Filter | common.ts:284 | `IFilter<T, U>` holds exactly the members of `T` that extend `U` |
| UnionAlgebra.DiffFilterPartition | common.ts:279-284 | `IDiff` and `IFilter` split `T`: disjoint, together all of `T`, `IFilter` extends `U`, no member of `IDiff` does |
| UnionAlgebra.NonNullable | common.ts:289 | `INonNullable<T>` is `T` without `null` and `undefined` |
| UnionAlgebra.NonNullableExample | common.ts:289 | `INonNullable<string \| null \| undefined>` is `string` |
| UnionAlgebra.RequiredProp | common.ts:99 | `Required<T>[P]` is the declared type of a required slot; for an optional slot it drops `undefined` |
| UnionAlgebra.RequiredPropExtends | common.ts:99 | `Required<T>[P]` extends `T[P]`: removing `undefined` only narrows the type |
| FieldTypes.FieldType | common.ts:65-83 | no contract of its own: `IFieldType<T>` distributed over the members of `T`. `FieldTypes.FieldTypeOfUnion`, `FieldTypes.FieldTypeSize` and `FieldTypes.BooleanArrayNeverChosen` state its properties |
| FieldTypes.FieldTypeOf | common.ts:65-83 | the constructor chosen for a member extends that constructor's type, and no test earlier in the chain matches; `never` only when no test matches |
| FieldTypes.FieldTypeOfByShape | common.ts:65-83 | for a type that is not a union, the chain picks the constructor of its shape: each leaf its own, arrays of ids, strings or numbers theirs, anything else `never` |
| FieldTypes.FieldTypeOfUnion | common.ts:65 | `IFieldType` distributes: the constructors of `a \| b` are those of `a` and those of `b` |
| FieldTypes.FieldTypeSize | common.ts:65-83 | a type that is not a union gets at most one constructor; `never` gets none |
| FieldTypes.BooleanArrayNeverChosen | common.ts:79-82 | `typeof Boolean[]` is produced for no type at all |
| FieldTypeExamples.BooleanArrayFieldIsNever | common.ts:79-82 | `IFieldType<boolean[]>` is `never` |
| KeyFilters.AllKeys | common.ts:403-405 | no contract of its own; `KeyFilters.AllKeysMembers` states what it holds |
| KeyFilters.KeysOfType | common.ts:344-346 | no contract of its own; `KeyFilters.KeysOfTypeMembers` and `KeyFilters.KeysPartition` state what it holds |
| KeyFilters.KeysNotOfType | common.ts:392-394 | no contract of its own; `KeyFilters.KeysNotOfTypeMembers` and `KeyFilters.KeysPartition` state what it holds |
| KeyFilters.Pick | common.ts:321 | no contract of its own; `KeyFilters.PickMembers`, `KeyFilters.PickOrder` and `KeyFilters.PickKeys` state what it keeps |
| KeyFilters.AllKeysMembers | common.ts:403-405 | `IAllKeys<T>` is exactly the set of names of `T`'s slots |
| KeyFilters.KeysOfTypeMembers | common.ts:344-346 | `IKeysOfType<T, U>` is exactly the set of keys `P` whose `T[P]` extends `U` |
| KeyFilters.KeysNotOfTypeMembers | common.ts:392-394 | `IKeysNotOfType<T, U>` is exactly the set of keys `P` whose `T[P]` does not extend `U` |
| KeyFilters.KeysPartition | common.ts:344-394 | `IKeysOfType` and `IKeysNotOfType` are disjoint and together make up `keyof T` |
| KeyFilters.PickMembers | common.ts:321 | `Pick<T, K>` keeps exactly the slots of `T` whose names are in `K`, unchanged |
| KeyFilters.PickOrder | common.ts:321 | `Pick<T, K>` keeps the slots in the order `T` declares them |
| KeyFilters.PickKeys | common.ts:321 | `keyof Pick<T, K>` is `keyof T` intersected with `K` |
| KeyFilters.PickByType | common.ts:321 | `IPickByType<T, U>` is an ordered selection of the slots of `T` |
| KeyFilters.PickByTypeKeeps | common.ts:321 | `IPickByType<T, U>` keeps exactly the slots whose `T[P]` extends `U` |
| KeyFilters.OmitByType | common.ts:361 | `IOmitByType<T, U>` is an ordered selection of the slots of `T` |
| KeyFilters.OmitByTypeKeeps | common.ts:361 | `IOmitByType<T, U>` keeps exactly the slots whose `T[P]` does not extend `U` |
| KeyFilters.PickComplementary | common.ts:321 | picking two disjoint key sets that cover `keyof T` splits `T`'s slots between the two results |
| KeyFilters.PickOmitRebuild | common.ts:321-361 | `IPickByType<T, U>` and `IOmitByType<T, U>` together hold every slot of `T` exactly once |
| KeyFilters.CommonProps | common.ts:301-303 | `ICommonProps<A, B>` has a required slot for exactly the keys present in both `A` and `B` |
| KeyFilters.CommonPropsSlot | common.ts:301-303 | the slot of a common key `K` has type `A[K] \| B[K]` |
| KeyFilterExamples.KeysOfTypeExample | common.ts:342 | `IKeysOfType<{ a: number; b: boolean; c: null }, boolean \| null>` is `"b" \| "c"` |
| KeyFilterExamples.KeysNotOfTypeExample | common.ts:390 | `IKeysNotOfType<{ a: number; b: boolean; c: null }, boolean>` is `"a" \| "c"` |
| KeyFilterExamples.PickByTypeExample | common.ts:318 | `IPickByType<{ x: number; y: string; z: null }, number>` is `{ x: number }` |
| KeyFilterExamples.PickByTypeExampleWithNull | common.ts:319 | with `number \| null` it is `{ x: number; z: null }` |
| KeyFilterExamples.OmitByTypeExample | common.ts:353 | `IOmitByType<{ x: number; y: string; z: null }, number>` is `{ y: string; z: null }` |
| KeyFilterExamples.OmitByTypeExampleWithNull | common.ts:354 | with `number \| null` it is `{ y: string }` |
| KeyFilterExamples.AllKeysExample | common.ts:401 | `IAllKeys<{ a: number; b: boolean }>` is `"a" \| "b"` |
| KeyFilterExamples.CommonPropsExample | common.ts:304-309 | the common props of `{ y: number; x: string }` and `{ y: number; z: boolean }` are `{ y: number }` |
| KeyFilterExamples.CommonPropsKeepsDifferentlyTypedKey | common.ts:297 | for `{ x: number; y: string }` and `{ y: boolean }` the result is `{ y: string \| boolean }`, not `{ }` |
| Optionality.CompleteSlot | common.ts:195-199 | a completed slot is required, keeps its name, and has the members of `T[P]` plus `undefined` when the slot was optional |
| Optionality.Complete | common.ts:195-199 | `IComplete<T>` has `T`'s keys in order, all required; each reads as `T[P]`, and a required slot keeps its type |
| Optionality.CompleteKeepsReads | common.ts:195-199 | `IComplete` keeps `keyof T`, the keys that are present, and the members of every `T[P]` |
| Optionality.LookupComplete | common.ts:195-199 | looking a key up in `IComplete<T>` finds the completed slot of that key |
| Optionality.CompleteIdempotent | common.ts:195-199 | completing a completed type changes nothing |
| Optionality.OptToUndefSlot | common.ts:241-243 | a slot of `IOptToUndef` is required and reads as `T[K]` |
| Optionality.OptionalSlotIgnoresTest | common.ts:195-243 | for an optional slot, both aliases give `T[P]` whichever way their optionality test comes out, since `T[P]` already holds `undefined` |
| Optionality.OptToUndef | common.ts:241-243 | `IOptToUndef<T>` has `T`'s keys in order, all required, each reading as `T[K]` |
| Optionality.CompleteIsOptToUndef | common.ts:195-243 | `IComplete<T>` and `IOptToUndef<T>` are the same type, slot for slot |
| Optionality.RequiredWithTypeSlot | common.ts:252-254 | a slot of `IRequiredWithType<T, V>` is required and keeps its name; it is typed `V` when the key was required, and `V` without `undefined` when it was optional (`-?` strips `undefined`), so it always extends `V` |
| Optionality.RequiredWithType | common.ts:252-254 | `IRequiredWithType<T, V>` has `T`'s keys in order, each required; a required key is typed `V`, an optional one has the members of `V` other than `undefined` |
| Optionality.RequiredWithTypeKeys | common.ts:252-254 | `IRequiredWithType<T, V>` keeps `keyof T`, and every key of it is a key of type `V` |
| OptionalityExamples.CompleteExample | common.ts:200-219 | the eight-key test: optional keys become `X \| undefined`; required ones keep their type |
| OptionalityExamples.CompleteExample3 | common.ts:220-233 | `bar?: number` becomes `bar: number \| undefined` |
| OptionalityExamples.OptToUndefExample | common.ts:244-246 | `IOptToUndef<{ test?: string }>` is `{ test: string \| undefined }` |
| OptionalityExamples.RequiredWithTypeExample | common.ts:255-263 | `one?`, `two` and `three` all become required `number` |
| OptionalityExamples.RequiredWithTypeStripsUndefined | common.ts:252-254 | with `V = number \| undefined`, the optional `one?` becomes `one: number` while the required `two` becomes `two: number \| undefined` |
| DeepFilters.FilterDeep | common.ts:331-380 | no contract of its own: the shared shape of the two deep filters. `DeepFilters.FilterDeepKeeps` and `DeepFilters.PickOmitDeepKeys` state what it keeps |
| DeepFilters.MapDeep | common.ts:331-380 | no contract of its own: the mapped type over the selected keys. `DeepFilters.MapDeepNames` and `DeepFilters.MapDeepMembers` state what it holds |
| DeepFilters.DeepSlot | common.ts:331-380 | a slot keeps its name and modifier; only a required slot whose `T[P]` is an object type or `never` is rewritten, and it becomes an object: `never` passes `T[P] extends object` without distributing and becomes `{}` |
| DeepFilters.PickByTypeDeep | common.ts:331-335 | `IPickByTypeDeep<T, U>` has exactly the keys of `IPickByType<T, U>`, in order |
| DeepFilters.OmitByTypeDeep | common.ts:376-380 | `IOmitByTypeDeep<T, U>` has exactly the keys of `IOmitByType<T, U>`, in order |
| DeepFilters.MapDeepNames | common.ts:331-380 | the deep mapped type has the keys of the shallow `Pick`; each slot is the deep form of the picked slot |
| DeepFilters.MapDeepMembers | common.ts:376-380 | the slots of the deep mapped type are exactly the deep forms of the slots with a selected key |
| DeepFilters.FilterDeepKeeps | common.ts:331-380 | a slot's deep form is in the result exactly when whether `T[P]` extends `U` agrees with pick or omit |
| DeepFilters.MapDeepShallow | common.ts:331-380 | when no selected slot is an object type, the deep filter is the shallow `Pick` |
| DeepFilters.PickDeepOfLeaves | common.ts:331-335 | for a union of leaf types `U` and a `T` with no required `never` slot, `IPickByTypeDeep` equals `IPickByType` |
| DeepFilters.PickOmitDeepKeys | common.ts:331-380 | the deep pick and the deep omit split `keyof T` |
| DeepFilters.AllKeysNotOfType | common.ts:392-394 | when no slot's type extends `U`, `IKeysNotOfType<T, U>` is `keyof T` |
| DeepFilters.OmitDeepOfClean | common.ts:376-380 | a type with no slot of type `U` at any depth is left unchanged by `IOmitByTypeDeep` |
| DeepFilters.MapDeepOfClean | common.ts:376-380 | a type with no slot of type `U` at any depth, with every key selected, is left unchanged |
| DeepFilters.OmitDeepClean | common.ts:376-380 | for a union of leaf types `U`, the result has no slot of type `U` at any depth |
| DeepFilters.MapDeepClean | common.ts:376-380 | for a union of leaf types `U`, the deep mapped type over keys not of type `U` has no slot of type `U` at any depth |
| DeepFilters.OmitDeepIdempotent | common.ts:376-380 | for a union of leaf types `U`, `IOmitByTypeDeep` is idempotent |
| DeepFilters.IsEmptyObject | common.ts:412 | `IIsEmptyObject<T>` is `true` exactly when `{}` is a member of `T` (distributing over a union) |
| DeepFilters.WithoutEmptyObjectProps | common.ts:416-418 | the result is an ordered selection of `T`'s slots |
| DeepFilters.WithoutEmptyObjectPropsKeeps | common.ts:416-418 | exactly the slots whose `T[P]` has no member other than `{}` are removed |
| DeepFilters.WithoutEmptyObjectPropsDeep | common.ts:424-427 | the deep pruning has the keys of the shallow one, in order |
| DeepFilterExamples.OmitByTypeDeepExample | common.ts:368 | `{ x; y; z: { a; b; c; d } }` without `number` is `{ y: string; z: { a: null; c: number[]; d: Date } }` |
| DeepFilterExamples.OmitByTypeDeepExampleWithNullAndDate | common.ts:369 | without `number \| null \| Date` it is `{ y: string; z: { c: number[] } }` |
| DeepFilterExamples.PickByTypeDeepDropsObjectSlots | common.ts:328-335 | `IPickByTypeDeep` of the same type with `number` is `{ x: number }`: `z` is dropped |
| DeepFilterExamples.PickByTypeDeepNeverSlot | common.ts:331-335 | `IPickByTypeDeep<{ a: number; b: never }, number>` is `{ a: number; b: {} }`: `b` is picked, since `never` extends `number`, and then rewritten to `{}` |
| DeepFilterExamples.OmitByTypeDeepNeverExample | common.ts:381-383 | `IOmitByTypeDeep<{ a: number; b: never }, never>` is `{ a: number }` |
| DeepFilterExamples.IsEmptyObjectExample | common.ts:412-414 | `IIsEmptyObject<{}>` is `true`; `IIsEmptyObject<{ t: number }>` is `never` |
| DeepFilterExamples.WithoutEmptyObjectPropsExample | common.ts:419-422 | `IWithoutEmptyObjectProps<{ a: number; b: {} }>` is `{ a: number }` |
| DeepFilterExamples.WithoutEmptyObjectPropsDeepExample | common.ts:428-433 | `dd` and `d` are dropped, and `ff` survives as `ff: {}` |
| DeepFilterExamples.PruningNotIdempotent | common.ts:424-427 | `{ c: { d: {} } }` prunes to `{ c: {} }`, which prunes to `{}` |
| Schema.FieldSpec | common.ts:85-95 | a field descriptor has `required: true` for a required slot and no `required` key for an optional one; `IField<never>` is `never` |
| Schema.SpecFlags | common.ts:93-94 | `ref` appears only when every member is an id, and then `type` is the id constructor; `trim` likewise for strings |
| Schema.ExtendsScalar | common.ts:99-103 | a type that is not a union passes the scalar test exactly when it is an id, a date, a primitive, or an array of primitives |
| Schema.ScalarField | common.ts:99-106 | a scalar slot gets a field descriptor with the constructor of its shape, the `required` rule, `ref` exactly for ids and `trim` exactly for strings |
| Schema.IdOrDateSpec | common.ts:85-94 | the field descriptor of an id or a date: its constructor, the `required` rule, `ref` only for ids, no `trim` |
| Schema.DeriveField | common.ts:99-119 | no contract of its own. `Schema.ScalarField`, `Schema.ArrayFieldDistributes`, `Schema.ObjectField`, `Schema.UnclassifiedField` and `Schema.DeriveFieldDisciplined` state each branch |
| Schema.ModelDefinition | common.ts:98 | no contract of its own; `Schema.ModelDefinitionKeys` and `Schema.ModelDefinitionEntries` state what it holds |
| Schema.DeriveElem | common.ts:108-114 | no contract of its own; `Schema.DeriveElemCases` states each case |
| Schema.ArrayFieldDistributes | common.ts:107-114 | an array slot that fails the scalar test gets the union of the descriptors of the members of its element type, with `never` dropped; a union descriptor has at least two alternatives |
| Schema.JoinAlternatives | common.ts:107-114 | joining descriptors keeps exactly those that are not `never`; a union is formed only from two or more |
| Schema.DeriveElemCases | common.ts:108-114 | an id or a date gives `[IField<U>]`, without `required` when the slot is optional; an object type gives `{ type: [definition]; required: false }`; anything else gives `never` |
| Schema.ArrayOfOneMember | common.ts:107-114 | an array whose element type is not a union gets that element's descriptor |
| Schema.ArrayOfPair | common.ts:107-114 | an array of `a \| b` joins the descriptors of `a` and `b` |
| Schema.IdOrDateArrayField | common.ts:107-111 | an array of ids or dates becomes the one-element list `[field]` |
| Schema.ObjectArrayField | common.ts:112-113 | an array of objects becomes `{ type: [definition of U]; required: false }`, whether or not the slot is optional |
| Schema.ObjectField | common.ts:115-118 | a nested object becomes its definition when required, and `{ type: definition; required: false }` when optional |
| Schema.UnclassifiedField | common.ts:99-119 | required slots typed `null`, `string \| null` or `string \| undefined` become `never` |
| Schema.ModelDefinitionKeys | common.ts:98-99 | the definition has one entry per key of `T` except `_id`, in declaration order |
| Schema.ModelDefinitionEntries | common.ts:98-120 | each entry is the descriptor derived from its slot, and each slot other than `_id` has its entry |
| Schema.DeriveFieldDisciplined | common.ts:98-120 | at any depth, a field descriptor never says `required: false` and a wrapper always does |
| Schema.DeriveElemDisciplined | common.ts:108-114 | the descriptor of one member of an array's element type keeps the same discipline |
| Schema.JoinDisciplined | common.ts:107-114 | a union of disciplined descriptors is disciplined |
| Schema.ModelDefinitionDisciplined | common.ts:98-120 | the same `required` discipline holds for every entry of a definition |
| SchemaExamples.StringFields | common.ts:139-146 | `test?: string` gives `{ type: String }` with no `required`, and `test2: string` gives `{ type: String; required: true }`, both with `trim` |
| SchemaExamples.Test3Field | common.ts:147-155 | the nested `test3` is the bare definition of `test4` (required) and `test5` (`[String]`, no `required`) |
| SchemaExamples.Test6Field | common.ts:156-169 | the optional array `test6` is `{ type: [definition]; required: false }` |
| SchemaExamples.Test9Field | common.ts:170-180 | the optional object `test9` is `{ type: definition; required: false }` |
| SchemaExamples.ArrayOfUnionNotScalar | common.ts:99-103 | an array of a union with a member that is not a primitive fails the scalar test |
| SchemaExamples.ArrayOfIdOrNull | common.ts:107-114 | `a: (ObjectId \| null)[]` gives `[IField<ObjectId>]`, with `ref` |
| SchemaExamples.ArrayOfIdOrDate | common.ts:107-114 | `a: (ObjectId \| Date)[]` gives `[IField<ObjectId>] \| [IField<Date>]`, with `ref` only on the first |
| SchemaExamples.ArrayOfTwoObjects | common.ts:107-114 | an array of a union of two object types gives the union of the two wrapped definitions |
| SchemaExamples.ModelDefinitionExample | common.ts:122-181 | the whole definition derived from the test model matches `testModelDefinition1` |

## Left out

- `ISelected`, `ISelectedTwoFlags`, `ISelectedThreeFlags` and `IVisible` (lines 27-56) are flat records of boolean flags with no logic in them.
- `IPrimitive` (line 189) is only a union constant. The model has no `bigint` or `symbol` types.
- `IArrayElement` (line 274) needs `readonly` arrays and tuples. The model has no such types.
- The `mongoose` import (line 1): the constructors `typeof String`, `Types.ObjectIdConstructor` and the rest become the tags of `FieldTypes.Ctor`, and `Types.ObjectId` and `Date` are opaque leaf types.
- `Schema.FieldSpec`: leaves out the `unique`, `dropDups`, `default` and `validate` slots of `IField` (lines 88-91). They hold values the caller supplies and play no part in the derivation.
- `Schema.FieldSpec`: `ref` and `trim` mean "every member of `T` is an id" and "every member of `T` is a string". The intersection at lines 93-94 distributes over a union `T` and gives a union of object types, which the model does not build.
- `Schema.FieldSpec`: for an optional slot whose `Required<T>[P]` is `never` (`a?: undefined`, `a?: never`), line 106 gives `Omit<IField<never>, "required">`. `IField<never>` is `never`, but `Omit` of it is not: `keyof never` is every key, so TypeScript produces an object type whose `string`, `number` and `symbol` index signatures are all `never`. The model gives `never` for such a slot, as for a required one.
- `Schema.DeriveField`: `infer U` at line 107 is taken only from an array type, not from a union of array types. `U extends object` at line 112 holds only for object types, so a member of `U` that is itself an array becomes `never`.
- `Schema.DeriveField`: a slot whose `Required<T>[P]` is a union of object types becomes `never` instead of a definition.
- `TsTypes.Extends`: `object`, `Object` and the `{}` subtleties (lines 8-16) are not modelled. Because there is no `object` type, the `bb: object` slot of the test at lines 428-433 is left out of `DeepFilterExamples.WithoutEmptyObjectPropsDeepExample`.
- `TsTypes.Extends`: two object types are related only when they are identical; structural subtyping between different object types is not modelled.
- Literal types (`3`, `true`, `"foo"`) are not modelled. The test at line 406 uses `number` and `boolean` instead.
- `DeepFilters.DeepSlot`: arrays, `Date` and `Types.ObjectId` are leaves for the deep filters, though TypeScript counts them as `object`. A union of object types is not recursed into.
- `KeyFilters.AllKeysMembers`: key unions are sets of names. `IAllKeys` (lines 403-405) indexes a homomorphic mapped type, which keeps the `?` of an optional key, so in TypeScript `IAllKeys<T>` of a `T` with an optional key also holds `undefined`. The model leaves that `undefined` out.
- `KeyFilters.KeysOfTypeMembers`: for the same reason `IKeysOfType<T, U>` (lines 344-346) also holds `undefined` when `T` has an optional key; for example `IKeysOfType<{ a?: number; b: string }, string>` is `"b" | undefined`. The model gives `{"b"}`.
- `KeyFilters.KeysNotOfTypeMembers`: `IKeysNotOfType<T, U>` (lines 392-394) likewise holds `undefined` when `T` has an optional key. The model leaves it out.
- `KeyFilters.KeysPartition`: the two key unions are disjoint only as sets of names. In TypeScript both hold `undefined` when `T` has an optional key. `Pick` ignores that `undefined`, so the filters built on these unions are unaffected.
- `DeepFilters.AllKeysNotOfType`: states the names only; the extra `undefined` of an optional key is left out as above.
- A shape the deriver cannot handle yields the value `never` inside the result tree. Nothing reports it as an error.
