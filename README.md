# EOPatch container model

A Dafny model of the `EOPatch` container of eo-learn (`eolearn.core.eodata`) and of its
`FeatureType` enumeration. It covers the behaviour the container's test suite
(`core/eolearn/tests/test_eodata.py`) relies on.

An EOPatch holds one dictionary per feature type, from field name to array. Each type fixes
the rank that every array stored under it must have:

| feature types | rank |
|---|---|
| DATA, MASK | 4 |
| DATA_TIMELESS, MASK_TIMELESS | 3 |
| LABEL, SCALAR | 2 |
| LABEL_TIMELESS, SCALAR_TIMELESS | 1 |

It provides the following operations:

- Rank-checked construction and `add_feature`.
- `get_feature` and `remove_feature`.
- The `features` view, which maps each field to the shape of its array.
- Structural `==`.
- `EOPatch.concatenate(a, b)`. It joins the temporal types strictly: the key sets must be equal, and each field is concatenated along the time axis. It intersects the timeless types leniently: only shared fields with equal arrays are kept.

Modules, one per file:

- `NdArrays` (`ndarray.dfy`): arrays as a shape plus row-major integer elements.
  - Exact equality, in the sense of numpy's `array_equal`.
  - Concatenation along axis 0, described frame by frame.
  - The split that undoes it.
- `FeatureTypes` (`feature_type.dfy`): the enumeration, its temporal and raster axes, and the required rank of each type.
- `EOData` (`eodata.dfy`): the contents of a patch as a value (`Features`).
  - The value-level add, get, remove and `features`.
  - Equality and concatenation.
  - The lemmas about all of them.
- `EOPatches` (`eopatch.dfy`): the `EOPatch` class.
  - It has one mutable map field per feature type, updated in place by `AddFeature` and `RemoveFeature`.
  - Each method is proved against a function of `EOData`. `Create` is proved against `WellFormed`, `Slot` against `Get` and `Equals` against `FeaturesEqual`. The other methods are proved against the `EOData` operation of the same name.
  - Checked construction (`Create`) and `Concatenate` return fresh objects.
- `EODataTests` (`eodata_tests.dfy`): each test scenario, written with the same sequence of calls, with its assertions as postconditions.

The implementation module `eolearn/core/eodata.py` is not part of this model. The behaviour is
taken from what the test suite asserts. Where the tests are silent, the model makes its own
choice, and each such choice is listed under "Left out".

## Model

| member | source | states |
|---|---|---|
| NdArrays.ArrayEqual | core/eolearn/tests/test_eodata.py:25 | `array_equal` holds exactly when the two arrays have the same shape and the same elements, i.e. are the same value |
| NdArrays.Frame | core/eolearn/tests/test_eodata.py:86 | the k-th time frame of an array has one frame's worth of elements |
| NdArrays.Concat0 | core/eolearn/tests/test_eodata.py:86 | `np.concatenate(..., axis=0)` of stackable arrays keeps the rank and trailing shape, and has leading dimension the sum of the two |
| NdArrays.Concat0Frames | core/eolearn/tests/test_eodata.py:86 | frame k of the concatenation is frame k of the first array below its length, and frame k - n of the second array above it |
| NdArrays.SplitConcat0 | core/eolearn/tests/test_eodata.py:86 | cutting the concatenation after the first array's frames gives back both inputs |
| NdArrays.Concat0OfSplit | core/eolearn/tests/test_eodata.py:86 | concatenating the first m frames with the rest rebuilds the array |
| FeatureTypes.RequiredRank | core/eolearn/tests/test_eodata.py:52-73 | the required rank is 3 for raster types and 1 otherwise, plus 1 for the time axis of temporal types |
| FeatureTypes.AllTypesComplete | core/eolearn/tests/test_eodata.py:52-73 | the enumeration lists every feature type |
| EOData.Features.AddFeature | core/eolearn/tests/test_eodata.py:19-25 | adding succeeds exactly when the rank matches. On success the slot gains or overwrites the field and every other slot is unchanged. On failure the error names the type, the field, the expected and the actual rank |
| EOData.Features.GetFeature | core/eolearn/tests/test_eodata.py:27-35 | get succeeds exactly when the field is present, returns the stored array, and otherwise reports KeyNotFound for that type and field |
| EOData.Features.RemoveFeature | core/eolearn/tests/test_eodata.py:37-50 | after removal the slot has the old field names minus the field, with the same arrays, and every other slot is unchanged |
| EOData.Features.ShapeView | core/eolearn/tests/test_eodata.py:89-93 | `features[t]` has the slot's field names, each mapped to the shape of its array |
| EOData.EmptyWellFormed | core/eolearn/tests/test_eodata.py:22 | a new patch has no features and satisfies the rank invariant |
| EOData.AddThenGet | core/eolearn/tests/test_eodata.py:19-35 | after a successful add, the slot, `get_feature` and `features` all report the new array |
| EOData.AddPreservesWellFormed | core/eolearn/tests/test_eodata.py:52-73 | add_feature keeps every stored array at its type's rank |
| EOData.AddLeavesOthers | core/eolearn/tests/test_eodata.py:40-45 | add_feature leaves every other (type, field) entry as it was |
| EOData.RemoveLeavesOthers | core/eolearn/tests/test_eodata.py:47-50 | after removal the field is gone from its slot and from `features`, and every other entry, same-type siblings included, is unchanged |
| EOData.RemoveUndoesAdd | core/eolearn/tests/test_eodata.py:40-50 | removing a field just added to a slot that lacked it gives back the original contents |
| EOData.RemoveAbsentIsNoOp | core/eolearn/tests/test_eodata.py:47 | removing a field that is not present changes nothing |
| EOData.RemovePreservesWellFormed | core/eolearn/tests/test_eodata.py:47 | remove_feature keeps the rank invariant |
| EOData.ShapeViewRanks | core/eolearn/tests/test_eodata.py:89-93 | every shape in `features[t]` has t's required rank |
| EOData.StoreEqual | core/eolearn/tests/test_eodata.py:145 | two slots are equal exactly when they have the same field names and `array_equal` arrays |
| EOData.FeaturesEqual | core/eolearn/tests/test_eodata.py:141-149 | `==` holds exactly when, for every feature type, the slots are equal |
| EOData.AddBreaksEquality | core/eolearn/tests/test_eodata.py:147-149 | adding a feature missing from one of two equal patches makes them unequal |
| EOData.ConcatTemporal | core/eolearn/tests/test_eodata.py:75-105 | the strict policy: a temporal slot pair joins exactly when the key sets are equal and each field pair is stackable. A key-set difference is reported as KeySetMismatch, before any ShapeMismatch. The result has the same field names, each the axis-0 concatenation |
| EOData.ConcatTimeless | core/eolearn/tests/test_eodata.py:107-139 | the lenient policy: a timeless slot pair keeps exactly the fields present in both with equal arrays, unchanged |
| EOData.ConcatSlot | core/eolearn/tests/test_eodata.py:75-139 | one slot combines exactly when it is timeless or its pair is compatible. A timeless slot always gives the lenient intersection |
| EOData.ConcatSlots | core/eolearn/tests/test_eodata.py:84 | combining the slots of a list of types succeeds exactly when every slot combines. The result lists the combined slots in order, and an error is the error of one of the slots |
| EOData.ConcatSlotsAllTypes | core/eolearn/tests/test_eodata.py:84 | combining the slots of all types succeeds exactly when every temporal slot pair is compatible, and then holds the combination of slot t at t's position |
| EOData.Concatenate | core/eolearn/tests/test_eodata.py:75-139 | `EOPatch.concatenate` succeeds exactly when every temporal slot pair is compatible. Each slot of the result is then the per-slot combination of the two inputs' slots |
| EOData.ConcatenateError | core/eolearn/tests/test_eodata.py:95-105 | a failed concatenation names a temporal type whose slots cannot be joined, and reports KeySetMismatch exactly when their field names differ |
| EOData.ConcatenateKeyMismatch | core/eolearn/tests/test_eodata.py:95-105 | different field names in any temporal slot abort the concatenation |
| EOData.ConcatenateTemporal | core/eolearn/tests/test_eodata.py:75-87 | each temporal slot of the result has the shared field names, each joined along axis 0 |
| EOData.ConcatenateTimeless | core/eolearn/tests/test_eodata.py:107-139 | each timeless slot of the result holds exactly the fields present in both inputs with equal arrays, unchanged |
| EOData.ConcatenateWellFormed | core/eolearn/tests/test_eodata.py:84 | the concatenation of two patches satisfying the rank invariant satisfies it too |
| EOData.ConcatTimelessCommutes | core/eolearn/tests/test_eodata.py:107-123 | the timeless policy does not depend on the order of the two patches |
| EOData.ConcatTimelessIdempotent | core/eolearn/tests/test_eodata.py:125-139 | joining a timeless slot with itself keeps all of it |
| EOPatches.CheckStore | core/eolearn/tests/test_eodata.py:55-56 | the per-slot rank check gives Pass exactly when the slot satisfies the invariant. Otherwise its Fail names a field of the slot whose rank is wrong, with the expected and actual ranks |
| EOPatches.CheckFeatures | core/eolearn/tests/test_eodata.py:55-56 | the construction check gives Pass exactly when every slot satisfies the invariant. Otherwise its Fail names one wrong-rank field |
| EOPatches.EOPatch.constructor | core/eolearn/tests/test_eodata.py:22 | `EOPatch()` is empty in every slot |
| EOPatches.EOPatch.Create | core/eolearn/tests/test_eodata.py:55-56 | `EOPatch(data=...)` succeeds exactly when every initial array has its type's rank, giving a fresh patch with those contents. Otherwise it reports a wrong-rank initial field |
| EOPatches.EOPatch.Slot | core/eolearn/tests/test_eodata.py:25 | `eop.data`, `eop.mask`, ... is the slot of that type |
| EOPatches.EOPatch.AddFeature | core/eolearn/tests/test_eodata.py:23 | the method updates the patch in place exactly as `Features.AddFeature`, changes nothing on failure, and keeps the invariant |
| EOPatches.EOPatch.GetFeature | core/eolearn/tests/test_eodata.py:33 | the method returns the array stored in the slot, or KeyNotFound |
| EOPatches.EOPatch.RemoveFeature | core/eolearn/tests/test_eodata.py:47 | the method updates the patch in place exactly as `Features.RemoveFeature` and keeps the invariant |
| EOPatches.EOPatch.ShapeView | core/eolearn/tests/test_eodata.py:45 | `eop.features[t]` maps the slot's field names to their shapes |
| EOPatches.EOPatch.Equals | core/eolearn/tests/test_eodata.py:145 | `eop1 == eop2` holds exactly when the two patches hold the same contents |
| EOPatches.EOPatch.Concatenate | core/eolearn/tests/test_eodata.py:84 | the static method succeeds exactly when `EOData.Concatenate` does, giving a fresh, well-formed patch with its result. Otherwise it reports its error |
| EODataTests.TestAddFeature | core/eolearn/tests/test_eodata.py:19-25 | the array in `eop.data['bands']` is the one added |
| EODataTests.TestGetFeature | core/eolearn/tests/test_eodata.py:27-35 | `get_feature(DATA, 'bands')` returns the array added |
| EODataTests.TestRemoveFeature | core/eolearn/tests/test_eodata.py:37-50 | 'bands_copy' is in `data` and `features[DATA]` before removal and in neither after, and 'bands' stays |
| EODataTests.TestCheckDimsConstructor | core/eolearn/tests/test_eodata.py:53-56 | `EOPatch(data={'bands': bands_2d})` fails with a DATA dimension mismatch (expected 4, got 2) |
| EODataTests.TestCheckDimsAddFeature | core/eolearn/tests/test_eodata.py:53-73 | each of the eight wrong-rank adds fails, and the patch stays empty |
| EODataTests.TestConcatenate | core/eolearn/tests/test_eodata.py:75-87 | the concatenated 'bands' is `np.concatenate((bands1, bands2), axis=0)`, of shape (5,3,3,2), with bands1's elements followed by bands2's |
| EODataTests.TestGetFeatures | core/eolearn/tests/test_eodata.py:89-93 | `features[DATA]['bands']` is (2,3,3,2) |
| EODataTests.TestConcatenateProhibitKeyMismatch | core/eolearn/tests/test_eodata.py:95-105 | concatenating DATA 'bands' with DATA 'measurements' fails with a DATA key-set mismatch |
| EODataTests.TimelessOnlyConcatenate | core/eolearn/tests/test_eodata.py:107-139 | two patches holding DATA_TIMELESS features only concatenate into the patch holding the intersected slot only |
| EODataTests.TestConcatenateLeaveOutTimelessMismatchedKeys | core/eolearn/tests/test_eodata.py:107-123 | the call succeeds, keeps 'mask' and drops 'mask1' and 'mask2' |
| EODataTests.TestConcatenateLeaveOutKeysWithMismatchedValue | core/eolearn/tests/test_eodata.py:125-139 | the call succeeds, keeps 'mask' and drops 'nask', whose arrays differ |
| EODataTests.TestEquals | core/eolearn/tests/test_eodata.py:141-149 | two patches built from equal DATA arrays are equal, and stop being equal once one gains a DATA_TIMELESS feature |

## Left out

- `save` / `load` (test lines 151-161): filesystem access and numpy binary serialisation are outside a value model.
- The test scaffolding (setUpClass and tearDown at lines 15-17 and 163-165) and the logging setup: I/O and test plumbing.
- numpy is reduced to shape plus integer elements:
  - dtypes, broadcasting and `np.arange` contents are not modelled.
  - The test arrays are parameters constrained to the shapes the tests build.
  - The scalar multiples `5*mask1`, `3*mask` and `5*mask` are not modelled. In the first timeless test, the two patches' 'mask' arrays are one parameter, because both are `5*mask1`. In the second, the two 'nask' arrays are two parameters required to differ.
- Errors are values of `PatchError`: a Python exception class hierarchy is not modelled. The tests only check that a `ValueError` is raised.
- EOData.Features.RemoveFeature: removing an absent field is a no-op (`RemoveAbsentIsNoOp`). The tests do not exercise this path; the no-op is this model's choice.
- EOData.ConcatTemporal: two temporal arrays under the same field whose rank or trailing shape differ give a `ShapeMismatch` error. This follows numpy's `concatenate` refusing them; the tests do not exercise this case.
- EOData.Concatenate: when several temporal types cannot be joined, the error reported is that of the first in declaration order (DATA, MASK, LABEL, SCALAR). The tests fix only that some error is raised.
- EOPatches.EOPatch.Create: when several initial arrays have the wrong rank, which one is reported is left open. The contract says only that the reported field really is wrong.
- EOData.Features.GetFeature: a missing field gives `KeyNotFound`. The tests only read present fields.
- Aliasing: a patch owns its maps. The model does not capture arrays shared between patches or mutated after being added.
- The `label`, `scalar`, `label_timeless` and `scalar_timeless` attributes are the fields `labels`, `scalars`, `labelsTimeless` and `scalarsTimeless`, because `label` is a reserved word in Dafny.
