# runtypes-generate: descriptor-to-generator compiler and its constraint repairs

This project models the deterministic core of `runtypes-generate`, which turns a
`runtypes` type descriptor into a `jsverify` arbitrary so that property tests can
draw values of that type and check them against the type's own guard.

Three pieces are modelled and proved:

- **The compiler** (`Generate`, src/index.ts). `makeJsverifyArbitrary` looks the
  descriptor's tag up in the `types` table and calls the matching strategy. A
  strategy for a compound descriptor calls the compiler again on each child. The
  result is an uninterpreted generator term (`Jsverify.Gen`), with one
  constructor per combinator the file calls. A tag that is missing or not in the
  table raises the error `Can not generate this type`, modelled as `Err`.
  Descriptors (`Runtypes.Descriptor`) have one constructor per table entry. An
  `Other(tag)` constructor stands for every descriptor whose tag has no entry:
  `partial`, any other string, or `""` for a missing tag.
- **The "contains exactly N matching elements" custom type** (`Contains`,
  src/custom.spec.ts). `contains` counts the elements the item guard accepts.
  It then applies one of three callbacks. The `ArrayWithContains` predicate
  returns `Pass` or a message built from these callbacks. The correction inside
  `generatorContains` (`Repair`) has three branches:
  - the list is returned unchanged when the count is right;
  - missing elements are spliced in when too few match (`FillMissing`);
  - surplus matching elements are dropped when too many match (`TrimSurplus`).
- **Two validator/correction pairs** (`Corrections`, src/index.spec.ts).
  `positiveConstraint` and `checkFamily` are each used as
  `withConstraint(result, value)`. Through the `constraint` strategy with a
  correction (src/index.ts:9-10), every draw becomes `value(draw)`. The property
  holds only if the corrected value always satisfies `result`, and this is
  proved for both pairs.

The item guard of the contains type is a parameter (`T -> bool`). So are the
random indices and elements that the too-few repair draws with `jsc.sampler`.
The `requires` of `FillMissing` and `Repair` state what a successful draw
yields: the right number of elements, and indices within the list. A draw that
fails is not modelled (see "## Left out").

Design and code differ in places; the model follows the code:

- src/index.ts has no `partial` entry, so `partial` descriptors are rejected.
- There are no extension registries and no intersection resolver.
- `intersect` compiles to a plain `jsc.oneof` over the compiled intersectees.
  Each draw therefore comes from one intersectee alone, and nothing enforces the
  conjunction.
- A constraint's `args` are ignored by the table.
- `addTypeToRegistry` and `generateAndCheck` are imported by src/custom.spec.ts
  from src/index.ts, but that file does not define them.

## Model

| member | source | states |
|---|---|---|
| Runtypes.TagOf | src/index.ts:32 | the tag is a key of the strategy table exactly when the descriptor is not of a foreign kind |
| Runtypes.SupportedByTag | src/index.ts:32 | a descriptor is supported iff its own tag is a key of the table and every direct child is supported |
| Generate.Compile | src/index.ts:31-36 | compilation succeeds iff every descriptor reachable from the input (through element, components, fields, alternatives, intersectees, underlying, value) has a table tag; every failure is the single `Can not generate this type` error |
| Generate.CompileEach | src/index.ts:25 | mapping the compiler over a list of children succeeds iff every child is supported; the generators then have the same length and order, the i-th being the i-th child's; a failure is the compiler's error |
| Generate.CompileFields | src/index.ts:17-23 | the record's `spec` is built iff every field is supported; its keys are exactly the field names, each mapped to that field's generator |
| Generate.CompileRecord | src/index.ts:17-23 | the field-by-field loop that fills `spec` produces exactly the compiler's record result, including failure when any field fails |
| Generate.ForeignTagRejected | src/index.ts:32-35 | a descriptor whose tag is not one of the 14 table keys is rejected with the compiler's error |
| Generate.PartialRejected | src/index.ts:5-28 | case equation of `Compile`: `partial` is not in the table and is rejected |
| Generate.ChildRejected | src/index.ts:5-28 | a failing direct child makes its parent fail with the same error (for any descendant, see `Generate.Compile`'s `Ok? <==> Supported`) |
| Generate.ConstraintBranches | src/index.ts:9-11 | case equation of `Compile`: with a correction, the underlying generator mapped through correction and right inverse (identity when absent); without one, the underlying generator filtered by the constraint; failure of the underlying propagates |
| Generate.TupleShape | src/index.ts:25 | a tuple compiles iff every component does, to a tuple term of the same length whose i-th part is the i-th component's generator |
| Generate.UnionShape | src/index.ts:26 | a union compiles iff every alternative does, to a `Sum` of the same length and order |
| Generate.IntersectShape | src/index.ts:14 | an intersection compiles iff every intersectee does, to a `OneOf` of the same length and order (no conjunction) |
| Generate.RecordShape | src/index.ts:17-23 | a record compiles iff every field does, to a spec whose key set is exactly the field names, each mapped to that field's generator |
| Generate.ConstantShapes | src/index.ts:15-27 | case equation of `Compile`: `void` compiles to `Elements([null, undefined])` and a literal to `Const(value)`; neither recurses or fails |
| Generate.PrimitiveShapes | src/index.ts:6-24 | case equation of `Compile`: always, boolean, number, string and function compile to the corresponding primitive arbitraries |
| Generate.WrapperShapes | src/index.ts:7-12 | case equation of `Compile`: array and dictionary wrap the element's generator and fail exactly when it fails |
| Seqs.Filter | src/custom.spec.ts:8 | the filtered list is no longer than the input, and holds exactly the input elements that satisfy the guard |
| Seqs.Insert | src/custom.spec.ts:48 | `splice(i, 0, e)` puts `e` at index `i` and keeps the elements before and after it |
| Seqs.CountInsert | src/custom.spec.ts:48 | a splice adds one to the matching count exactly when the inserted element matches |
| Contains.NeedCount | src/custom.spec.ts:10 | the needed count is `args.count`, or 1 when it is undefined |
| Contains.Classify | src/custom.spec.ts:14-20 | exactly one branch is chosen: equal, too few or too many, by the comparison of needCount with the matching count |
| Contains.Contains | src/custom.spec.ts:7-21 | `contains` returns the result of the one callback chosen by the comparison, applied to the list and the summary |
| Contains.CheckContains | src/custom.spec.ts:23-32 | the predicate is `Pass` iff the matching count equals needCount; otherwise it is the "less than" or "more than" message |
| Contains.TrimmedSubseq | src/custom.spec.ts:52-63 | the too-many output is a subsequence of the input |
| Contains.TrimmedKeepsOthers | src/custom.spec.ts:52-63 | every non-matching element is kept, in order |
| Contains.TrimmedKeepsFirstMatching | src/custom.spec.ts:52-63 | of the matching elements exactly the first needCount (clamped to 0 and to the count) are kept |
| Contains.TrimmedStep | src/custom.spec.ts:53-62 | one step of the `reduce`: the element is kept if it does not match or the quota is positive, and a matching element uses up one unit of quota whether kept or not |
| Contains.TrimSurplus | src/custom.spec.ts:52-63 | the `reduce` loop computes exactly the trimmed list (whose order, kept elements and counts are the three lemmas above) |
| Contains.PositionsFit | src/custom.spec.ts:43-45 | the chosen indices (sampled from the original length, or `range(howMuch)` for an empty list) number `howMuch` and each one is at most the length at its insertion |
| Contains.InsertAll | src/custom.spec.ts:47-49 | the splices in order lengthen the list by the number of insertions |
| Contains.InsertAllSubseq | src/custom.spec.ts:47-49 | the original elements keep their relative order through the splices |
| Contains.InsertAllMultiset | src/custom.spec.ts:47-49 | the output holds exactly the original elements plus the inserted ones |
| Contains.InsertAllCount | src/custom.spec.ts:47-49 | the matching count grows by the number of matching inserted elements |
| Contains.FillMissing | src/custom.spec.ts:42-50 | exactly `needCount - count` insertions at fitting indices; output length is input length plus that; originals in order; nothing else added; exactly needCount matching when the inserted elements match |
| Contains.Repair | src/custom.spec.ts:37-66 | unchanged list when the count is right, exactly `InsertAll(coll, Positions(...), elements)` (in order, with the multiset grown by the elements) when too few match, the trimmed list when too many match; and when needCount is not negative and the inserted elements match, the result passes `ArrayWithContains` |
| Corrections.PositiveConstraint | src/index.spec.ts:70-76 | `result` holds iff n > 0; `value` is n when positive and 3 otherwise, so always > 0 |
| Corrections.PositiveRepairsInOneStep | src/index.spec.ts:77-79 | the corrected value is always accepted, and an accepted value is not changed |
| Corrections.CheckFamily | src/index.spec.ts:115-163 | `Pass`, with the object unchanged, iff the family is espoused with exactly one spouse or not espoused with none; the type is never changed; every failure is one of the three messages, never `Pass` |
| Corrections.KeepFirstSpouseStep | src/index.spec.ts:143-151 | one step of the `reduce`: a non-spouse survives the filter, and the first spouse starts the kept list |
| Corrections.KeepFirstSpouse | src/index.spec.ts:143-151 | the `reduce` loop with the `hasSpouse` flag computes the members from the first spouse onward, without later spouses |
| Corrections.NonSpousesHaveNoSpouse | src/index.spec.ts:134 | the filtered members contain no spouse |
| Corrections.FirstSpouseOnwardSpouseCount | src/index.spec.ts:143-151 | the third correction keeps exactly one spouse when there was any |
| Corrections.FirstSpouseOnwardAt | src/index.spec.ts:143-151 | with k the index of the first spouse, the result is that spouse followed by the non-spouses after k; members before k are dropped |
| Corrections.MissingSpouseCorrection | src/index.spec.ts:118-129 | case equation of `CheckFamily`: espoused with no spouse: `{role: 'spouse', fio: {}}` is prepended to the original members and the type is unchanged |
| Corrections.StraySpouseCorrection | src/index.spec.ts:130-139 | not espoused with spouses: the members are the originals without any spouse, order preserved |
| Corrections.ExtraSpouseCorrection | src/index.spec.ts:140-156 | the "more than 1 spouse" branch is reached only for an espoused family, and its members hold exactly one spouse |
| Corrections.CheckFamilyRepairsInOneStep | src/index.spec.ts:168-175 | for every family, the checked value of the corrected value is `Pass` |

## Left out

- Random generation itself is not modelled. `Gen` is a term. The following are not given any meaning: `jsc.sampler`, the rejection loop of `suchthat`, `smap` shrinking, the distribution of `elements`/`oneof`/`sum`, and the internals of `jsc.json`, `jsc.fn()` and `jsc.dict`.
- Runtypes guards (`rt.guard`, `args.item.guard`) are not reimplemented. The item guard is a total predicate parameter, and constraint predicates and corrections inside descriptors are opaque `Callable` names.
- The `generateAndCheck` harness of src/index.spec.ts:9-18 is not modelled: `console.log`, `JSON.stringify`, `rt.check` throwing, and the jest `describe`/`test` wiring. The fixture schemas built from runtypes in both test files are left out too.
- `addTypeToRegistry` and the registration of `generatorContains` (src/custom.spec.ts:69) are left out, because src/index.ts does not define a registry. For the same reason, how a `Custom` descriptor would reach `generatorContains` is not modelled; only its correction function (`Contains.Repair`) is.
- Descriptors of a foreign kind (`Other`) carry only their tag. The compiler rejects them without reading anything else.
- Numbers are `real` in `positiveConstraint`, and counts are `int`. Floating-point behaviour, `NaN` and non-integer counts are left out, so the last `else if` of `contains` always holds and `contains` never returns `undefined`.
- `FillMissing`/`Repair`: the list is a value here. The source splices into the generated array in place and returns that same array, which is aliasing the model does not capture.
- `FillMissing`/`Repair`: lodash `zip` padding and `splice` clamping an index past the end are left out. The `requires` assume a draw of exactly `howMuch` in-range indices and elements.
- `FillMissing`/`Repair`: the drawn elements are taken as given. `jsc.sampler(makeJsverifyArbitrary(res.item))` (src/custom.spec.ts:46) throws `Can not generate this type` (src/index.ts:35) when the item descriptor is not supported, and that exception is not modelled. The file's own `Spouse` item (src/custom.spec.ts:78-86) is such a case: it intersects a `partial`, which has no table entry, so the too-few repair throws for it.
- `Repair`: a negative `count` can never pass `ArrayWithContains`, so the pass guarantee is stated for a needCount that is not negative.
- Object key order (`Object.keys`) is not modelled. A record's fields are a `map`, and since every field compiles independently, the order only decides which failing field throws first.
- `checkFamily`'s third correction drops the non-spouse members that come before the first spouse. This is modelled as written (`Corrections.FirstSpouseOnwardAt`): the result still passes the check.
