# Unsaved-changes tracker, modelled in Dafny

A model of the one piece of logic in the Vue front end's
`src/composables/hasNonSavedChanges.ts`: the composable
`useHasNonSavedChanges`, which snapshots a form's data and keeps a
`hasChanges` flag telling whether the data has drifted from that snapshot,
together with its two helpers `cloneDeep` (a copy made by
`JSON.parse(JSON.stringify(...))`) and `deepEqual` (a recursive structural
comparison).

- `json.dfy`, module `JsonValues`: the JSON values the tracker can hold
  (`Null | Bool | Num(int) | Str | Arr | Obj`), `typeof` on them, and
  `Object.keys` / `a[key]` on arrays and objects. An array's keys are the
  decimal numerals of its indices, as in JavaScript.
- `deep_equal.dfy`, module `DeepEquality`: `StrictEquals` (`===`),
  `DeepEqual` (the comparison, branch for branch), `CloneDeep` (the copy, as
  a member-by-member rebuild) and the properties proved about them. The
  central one is `DeepEqualIffSameKeyedForm`. It says that two values are
  deep-equal exactly when their "keyed forms" coincide. The keyed form is the
  value with every array replaced by the object keyed by its indices.
  Reflexivity, symmetry and transitivity follow from it.
- `tracker.dfy`, module `NonSavedChanges`: the composable as a class
  `ChangeTracker`. It has a reference `data` to the observed value, the
  snapshot `rawInitial` and the flag `hasChanges`. The constructor runs the
  `immediate` watch callback once. `Notify` is the watch callback.
  `ResetChanges` is `resetChanges`. `EditSession` is a client that edits a
  form through a tracker.

The source treats arrays and objects alike: both are compared through
`Object.keys`. The model keeps that behaviour, so `[x]` is deep-equal to
`{"0": x}` (`SingletonArrayEqualsIndexObject`, `DeepEqualArrayObject`).
Comparing an array with an array is still index by index, in order
(`DeepEqualArrays`, `ArrayOrderMatters`). A reimplementation might be
expected to compare arrays only with arrays; the code does not, and the
model follows the code.

## Model

| member | source | states |
|---|---|---|
| JsonValues.IndexKey | src/composables/hasNonSavedChanges.ts:38-39 | an array's key for index n is a non-empty numeral without leading zeros that reads back as n, so distinct indices have distinct keys |
| JsonValues.ArrayKeys | src/composables/hasNonSavedChanges.ts:38-45 | `Object.keys` of an array lists exactly one key per element, and `a[key]` under the i-th key is the i-th element |
| JsonValues.TypeOf | src/composables/hasNonSavedChanges.ts:34-36 | `typeof` answers "object" exactly for null, arrays and objects, so the values that pass the null test at line 35 and reach the key loop are the arrays and objects |
| JsonValues.Keys | src/composables/hasNonSavedChanges.ts:38-41 | `Object.keys` lists one key per array element or object entry (see also `ArrayKeys`) |
| JsonValues.Member | src/composables/hasNonSavedChanges.ts:45 | `a[key]` on an object is the entry under the key; on an array it is the element the numeral names, which `ArrayKeys` states |
| DeepEquality.StrictEquals | src/composables/hasNonSavedChanges.ts:32 | the `===` shortcut holds exactly for identical primitives or two nulls, never for two freshly parsed composites |
| DeepEquality.DeepEqual | src/composables/hasNonSavedChanges.ts:31-49 | a match implies the same runtime kind and the same null-ness; fully specified by `DeepEqualIffSameKeyedForm`, `DeepEqualComposite` and `DeepEqualOnPrimitives` |
| DeepEquality.CloneDeep | src/composables/hasNonSavedChanges.ts:26-29 | the copy keeps the runtime kind and, for arrays and objects, the key set; `CloneDeepIsIdentity` shows it is the value itself |
| DeepEquality.CloneDeepIsIdentity | src/composables/hasNonSavedChanges.ts:26-29 | the serialise-and-parse copy of a JSON value is that same value |
| DeepEquality.CloneIsDeepEqual | src/composables/hasNonSavedChanges.ts:26-49 | a value and its copy are deep-equal, in either argument order |
| DeepEquality.DeepEqualOnPrimitives | src/composables/hasNonSavedChanges.ts:32-36 | if either side is a primitive or null, deep equality is plain equality: different kinds never match, null matches only null, primitives match by value |
| DeepEquality.DeepEqualComposite | src/composables/hasNonSavedChanges.ts:38-48 | two arrays/objects are equal iff they have the same key set and deep-equal members under every key (same count plus one-way inclusion) |
| DeepEquality.DeepEqualIffSameKeyedForm | src/composables/hasNonSavedChanges.ts:31-49 | deep equality holds iff the two values have the same index-keyed form, in both directions |
| DeepEquality.DeepEqualReflexive | src/composables/hasNonSavedChanges.ts:31-49 | every value is deep-equal to itself, through the key loop and not only the `===` shortcut |
| DeepEquality.DeepEqualSymmetric | src/composables/hasNonSavedChanges.ts:41-46 | swapping the arguments never changes the answer, although only the keys of the first are enumerated |
| DeepEquality.DeepEqualTransitive | src/composables/hasNonSavedChanges.ts:31-49 | deep equality is transitive |
| DeepEquality.DeepEqualArrays | src/composables/hasNonSavedChanges.ts:38-46 | two arrays are equal iff same length and element-wise deep-equal in order |
| DeepEquality.DeepEqualObjects | src/composables/hasNonSavedChanges.ts:38-46 | two objects are equal iff same key set and member-wise deep-equal |
| DeepEquality.DeepEqualArrayObject | src/composables/hasNonSavedChanges.ts:36-46 | an array equals an object iff the object's keys are the array's index numerals and the members match element by element |
| DeepEquality.ArrayOrderMatters | src/composables/hasNonSavedChanges.ts:43-45 | [1,2,3] and [3,2,1] are not deep-equal |
| DeepEquality.SingletonArrayEqualsIndexObject | src/composables/hasNonSavedChanges.ts:36-46 | [x] is deep-equal to {"0": x} |
| NonSavedChanges.Ref.constructor | src/composables/hasNonSavedChanges.ts:3 | the observed value `data` is a reference holding the caller's current value |
| NonSavedChanges.ChangeTracker.constructor | src/composables/hasNonSavedChanges.ts:4-13 | right after construction the snapshot equals the observed value and no change is reported |
| NonSavedChanges.ChangeTracker.Notify | src/composables/hasNonSavedChanges.ts:7-11 | after a notification the flag is exactly "observed value not deep-equal to the snapshot"; restoring the snapshot's value clears it; the snapshot and the observed value are untouched |
| NonSavedChanges.ChangeTracker.ResetChanges | src/composables/hasNonSavedChanges.ts:15-18 | after a reset the snapshot is the observed value and the flag is false, which agrees with deep equality; the observed value is untouched, so a second reset leaves the same state |
| NonSavedChanges.TagCountChangeIsAChange | src/composables/hasNonSavedChanges.ts:9-11 | a form whose tag list changed length is not deep-equal to the old form, so the flag goes up |
| NonSavedChanges.EditSession | src/composables/hasNonSavedChanges.ts:3-24 | create clean, push a tag (dirty), pop it (clean), push again (dirty), reset (clean), reset again (still clean, same snapshot); the snapshot after either reset holds the three tags |

## Left out

- Vue reactivity (`ref`, `watch` with `deep` and `immediate`, `isRef`, `toRaw`): the watch callback is the explicit method `Notify`, which the caller runs after each change. Batching of notifications is not modelled; a batch is one call of `Notify` on the final value.
- `===` on arrays and objects is reference identity. The values compared are fresh results of `JSON.parse`, which never share arrays or objects, so the shortcut is modelled as false on composites. Even when it does fire, `DeepEqualReflexive` shows the answer would be the same.
- The lossy part of `JSON.stringify`/`JSON.parse`: dropping functions and `undefined`, coercing dates and `NaN`, and the exception on cyclic values. The model's values are acyclic JSON data, where the copy is exact. The serialisation error that a cyclic value would raise is therefore not modelled.
- Text serialisation itself: `CloneDeep` rebuilds the value member by member instead of printing and re-parsing text.
- Floating-point numbers: JSON numbers are `int`.
- Strings are sequences of Unicode scalar values. JavaScript strings are sequences of UTF-16 code units, and a string holding a lone surrogate survives the serialise-and-parse copy; such strings are outside the model's values.
- Key order of `Object.keys`: objects are maps, so two objects written with their keys in different orders are the same value, and their deep equality holds by construction (through `DeepEqualReflexive`). The comparison's result does not depend on the order in which keys are visited either, because the key loop only returns early on a mismatch.
- The REST stores (`src/stores/*.ts`), the router and its guard (`src/router/index.ts`), the bootstrap (`src/main.ts`) and the type declarations (`src/types/index.ts`): network and framework glue, not part of this model.
