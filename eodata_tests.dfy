/**
 * The scenarios of the EOPatch test suite, each built by the same calls
 * the suite makes and each promising what the suite asserts. Arrays are
 * parameters constrained to the shapes the suite builds them with.
 */
module EODataTests {
  import opened NdArrays
  import opened FeatureTypes
  import opened EOData
  import opened EOPatches

  /** test_add_feature: the array added under DATA 'bands' is the one stored in eop.data. */
  method TestAddFeature(bands: Array) returns (stored: Array)
    requires bands.shape == [2, 3, 3, 2]
    ensures stored == bands
  {
    var eop := new EOPatch();
    var r := eop.AddFeature(Data, "bands", bands);
    assert r.Pass?;
    stored := eop.data["bands"];
  }

  /** test_get_feature: get_feature returns the array just added. */
  method TestGetFeature(bands: Array) returns (got: Result<Array>)
    requires bands.shape == [2, 3, 3, 2]
    ensures got == Ok(bands)
  {
    var eop := new EOPatch();
    var r := eop.AddFeature(Data, "bands", bands);
    got := eop.GetFeature(Data, "bands");
  }

  /**
   * test_remove_feature: 'bands_copy' is in eop.data and in features[DATA]
   * after being added and in neither after being removed, while 'bands'
   * stays.
   */
  method TestRemoveFeature(bands: Array)
    returns (storedBefore: bool, viewedBefore: bool, storedAfter: bool, viewedAfter: bool, siblingAfter: bool)
    requires bands.shape == [2, 3, 3, 2]
    ensures storedBefore && viewedBefore
    ensures !storedAfter && !viewedAfter
    ensures siblingAfter
  {
    var eop := new EOPatch();
    var r1 := eop.AddFeature(Data, "bands", bands);
    var r2 := eop.AddFeature(Data, "bands_copy", bands);
    storedBefore := "bands_copy" in eop.data;
    viewedBefore := "bands_copy" in eop.ShapeView(Data);
    eop.RemoveFeature(Data, "bands_copy");
    storedAfter := "bands_copy" in eop.data;
    viewedAfter := "bands_copy" in eop.ShapeView(Data);
    siblingAfter := "bands" in eop.data;
  }

  /** test_check_dims, first part: constructing a patch with a rank-2 DATA array fails. */
  method TestCheckDimsConstructor(bands2d: Array) returns (created: Result<EOPatch>)
    requires bands2d.shape == [3, 3]
    ensures created == Err(DimensionMismatch(Data, "bands", 4, 2))
  {
    var init := EMPTY.With(Data, map["bands" := bands2d]);
    EmptyWellFormed();
    assert "bands" in init.Get(Data) && !StoreWellFormed(Data, init.Get(Data));
    assert forall t :: t != Data ==> init.Get(t) == map[];
    created := EOPatch.Create(init);
  }

  /** One add_feature call of test_check_dims: an array of the wrong rank is refused. */
  method AddRejected(eop: EOPatch, t: FeatureType, f: string, v: Array) returns (o: Outcome)
    requires eop.Valid() && Rank(v) != RequiredRank(t)
    modifies eop
    ensures o == Fail(DimensionMismatch(t, f, RequiredRank(t), Rank(v)))
    ensures eop.Valid() && eop.Value() == old(eop.Value())
  {
    o := eop.AddFeature(t, f, v);
  }

  /**
   * test_check_dims, second part: adding an array of the wrong rank fails
   * under each of the eight feature types, and leaves the patch empty.
   */
  method TestCheckDimsAddFeature(bands2d: Array, bands3d: Array) returns (outcomes: seq<Outcome>, empty: bool)
    requires bands2d.shape == [3, 3] && bands3d.shape == [3, 3, 3]
    ensures |outcomes| == 8 && forall i :: 0 <= i < |outcomes| ==> outcomes[i].Fail?
    ensures empty
  {
    var eop := new EOPatch();
    var o1 := AddRejected(eop, Data, "bands", bands2d);
    var o2 := AddRejected(eop, Mask, "mask", bands2d);
    var o3 := AddRejected(eop, DataTimeless, "bands_timeless", bands2d);
    var o4 := AddRejected(eop, MaskTimeless, "mask_timeless", bands2d);
    var o5 := AddRejected(eop, Label, "label", bands3d);
    var o6 := AddRejected(eop, Scalar, "scalar", bands3d);
    var o7 := AddRejected(eop, LabelTimeless, "label_timeless", bands2d);
    var o8 := AddRejected(eop, ScalarTimeless, "scalar_timeless", bands2d);
    outcomes := [o1, o2, o3, o4, o5, o6, o7, o8];
    var blank := new EOPatch();
    empty := eop.Equals(blank);
  }

  /** A fresh patch after one successful add_feature(t, f, v). */
  method NewWithOne(t: FeatureType, f: string, v: Array) returns (eop: EOPatch)
    requires Rank(v) == RequiredRank(t)
    ensures fresh(eop) && eop.Valid()
    ensures eop.Value() == EMPTY.With(t, map[f := v])
  {
    eop := new EOPatch();
    var r := eop.AddFeature(t, f, v);
    SlotsDetermine(eop.Value(), EMPTY.With(t, map[f := v]));
  }

  /** A fresh patch after add_feature(t, f1, v1) and then add_feature(t, f2, v2). */
  method NewWithTwo(t: FeatureType, f1: string, v1: Array, f2: string, v2: Array) returns (eop: EOPatch)
    requires Rank(v1) == RequiredRank(t) && Rank(v2) == RequiredRank(t)
    ensures fresh(eop) && eop.Valid()
    ensures eop.Value() == EMPTY.With(t, map[f1 := v1, f2 := v2])
  {
    eop := new EOPatch();
    var r1 := eop.AddFeature(t, f1, v1);
    var r2 := eop.AddFeature(t, f2, v2);
    SlotsDetermine(eop.Value(), EMPTY.With(t, map[f1 := v1, f2 := v2]));
  }

  /**
   * test_concatenate: joining (2,3,3,2) and (3,3,3,2) DATA arrays gives their
   * axis-0 concatenation, of shape (5,3,3,2), with the frames of bands1
   * followed by those of bands2.
   */
  method TestConcatenate(bands1: Array, bands2: Array) returns (joined: Array)
    requires bands1.shape == [2, 3, 3, 2] && bands2.shape == [3, 3, 3, 2]
    ensures Stackable(bands1, bands2) && joined == Concat0(bands1, bands2)
    ensures joined.shape == [5, 3, 3, 2]
    ensures joined.vals == bands1.vals + bands2.vals
  {
    var eop1 := NewWithOne(Data, "bands", bands1);
    var eop2 := NewWithOne(Data, "bands", bands2);
    EmptyWellFormed();
    assert Stackable(bands1, bands2);
    var x1, x2 := eop1.Value(), eop2.Value();
    forall t | IsTemporal(t) ensures TemporalCompatible(x1.Get(t), x2.Get(t)) {
      if t != Data {
        EmptySlotsCombine(t);
      }
    }
    ConcatenateTemporal(x1, x2, Data);
    var eop := EOPatch.Concatenate(eop1, eop2);
    joined := eop.value.data["bands"];
    assert joined.shape == [5] + [3, 3, 2];
  }

  /** test_get_features: features[DATA]['bands'] is the shape of the added array. */
  method TestGetFeatures(bands1: Array) returns (shape: seq<nat>)
    requires bands1.shape == [2, 3, 3, 2]
    ensures shape == [2, 3, 3, 2]
  {
    var eop := new EOPatch();
    var r := eop.AddFeature(Data, "bands", bands1);
    shape := eop.ShapeView(Data)["bands"];
  }

  /** test_concatenate_prohibit_key_mismatch: DATA 'bands' against DATA 'measurements' fails. */
  method TestConcatenateProhibitKeyMismatch(bands1: Array, bands2: Array) returns (r: Result<EOPatch>)
    requires bands1.shape == [2, 3, 3, 2] && bands2.shape == [3, 3, 3, 2]
    ensures r == Err(KeySetMismatch(Data))
  {
    var eop1 := NewWithOne(Data, "bands", bands1);
    var eop2 := NewWithOne(Data, "measurements", bands2);
    var x1, x2 := eop1.Value(), eop2.Value();
    assert "bands" !in x2.Get(Data);
    ConcatenateKeyMismatch(x1, x2, Data);
    ConcatenateError(x1, x2);
    r := EOPatch.Concatenate(eop1, eop2);
  }

  /** Two empty slots combine into an empty slot, whatever the type. */
  lemma EmptySlotsCombine(t: FeatureType)
    ensures ConcatSlot(t, map[], map[]) == Ok(map[])
  {
    if IsTemporal(t) {
      assert ConcatTemporal(t, map[], map[]).Ok?;
    }
  }

  /** Patches holding DATA_TIMELESS features only always concatenate, by the lenient policy. */
  lemma TimelessOnlyConcatenate(s1: Store, s2: Store)
    ensures Concatenate(EMPTY.With(DataTimeless, s1), EMPTY.With(DataTimeless, s2))
         == Ok(EMPTY.With(DataTimeless, ConcatTimeless(s1, s2)))
  {
    var a, b := EMPTY.With(DataTimeless, s1), EMPTY.With(DataTimeless, s2);
    var e := EMPTY.With(DataTimeless, ConcatTimeless(s1, s2));
    EmptyWellFormed();
    var c := Concatenate(a, b).value;
    forall t ensures c.Get(t) == e.Get(t) {
      if t != DataTimeless {
        EmptySlotsCombine(t);
      }
    }
    SlotsDetermine(c, e);
  }

  /** EOPatch.concatenate of two patches holding DATA_TIMELESS features only, and its data_timeless. */
  method JoinTimeless(eop1: EOPatch, eop2: EOPatch, ghost s1: Store, ghost s2: Store)
    returns (succeeded: bool, joined: Store)
    requires eop1.Valid() && eop1.Value() == EMPTY.With(DataTimeless, s1)
    requires eop2.Valid() && eop2.Value() == EMPTY.With(DataTimeless, s2)
    ensures succeeded && joined == ConcatTimeless(s1, s2)
  {
    TimelessOnlyConcatenate(s1, s2);
    var eop := EOPatch.Concatenate(eop1, eop2);
    succeeded := eop.Ok?;
    joined := eop.value.dataTimeless;
  }

  /**
   * test_concatenate_leave_out_timeless_mismatched_keys: timeless fields on
   * one side only ('mask1', 'mask2') are dropped, the shared equal one
   * ('mask') is kept, and the call succeeds.
   */
  method TestConcatenateLeaveOutTimelessMismatchedKeys(mask1: Array, mask2: Array, mask: Array)
    returns (succeeded: bool, hasMask1: bool, hasMask2: bool, hasMask: bool)
    requires mask1.shape == [3, 3, 2] && mask2.shape == [3, 3, 2] && mask.shape == [3, 3, 2]
    ensures succeeded && !hasMask1 && !hasMask2 && hasMask
  {
    var eop1 := NewWithTwo(DataTimeless, "mask1", mask1, "mask", mask);
    var eop2 := NewWithTwo(DataTimeless, "mask2", mask2, "mask", mask);
    var s1, s2 := map["mask1" := mask1, "mask" := mask], map["mask2" := mask2, "mask" := mask];
    var joined;
    succeeded, joined := JoinTimeless(eop1, eop2, s1, s2);
    hasMask1 := "mask1" in joined;
    hasMask2 := "mask2" in joined;
    hasMask := "mask" in joined;
  }

  /**
   * test_concatenate_leave_out_keys_with_mismatched_value: the shared field
   * with equal arrays ('mask') is kept, the shared field whose arrays
   * differ ('nask') is dropped.
   */
  method TestConcatenateLeaveOutKeysWithMismatchedValue(mask: Array, nask1: Array, nask2: Array)
    returns (succeeded: bool, hasMask: bool, hasNask: bool)
    requires mask.shape == [3, 3, 2] && nask1.shape == [3, 3, 2] && nask2.shape == [3, 3, 2]
    requires nask1 != nask2
    ensures succeeded && hasMask && !hasNask
  {
    var eop1 := NewWithTwo(DataTimeless, "mask", mask, "nask", nask1);
    var eop2 := NewWithTwo(DataTimeless, "mask", mask, "nask", nask2);
    var s1, s2 := map["mask" := mask, "nask" := nask1], map["mask" := mask, "nask" := nask2];
    var joined;
    succeeded, joined := JoinTimeless(eop1, eop2, s1, s2);
    hasMask := "mask" in joined;
    hasNask := "nask" in joined;
  }

  /**
   * test_equals: two patches built from equal DATA arrays are equal, and
   * stop being equal once one of them gains a DATA_TIMELESS feature.
   */
  method TestEquals(bands1: Array, bands2: Array, dem: Array) returns (before: bool, after: bool)
    requires bands1 == bands2 && bands1.shape == [2, 3, 3, 2] && dem.shape == [3, 3, 2]
    ensures before && !after
  {
    var init1 := EMPTY.With(Data, map["bands" := bands1]);
    var init2 := EMPTY.With(Data, map["bands" := bands2]);
    EmptyWellFormed();
    assert StoreWellFormed(Data, init1.Get(Data));
    var c1 := EOPatch.Create(init1);
    var c2 := EOPatch.Create(init2);
    var eop1 := c1.value;
    var eop2 := c2.value;
    before := eop1.Equals(eop2);
    assert "dem" !in eop1.Value().Get(DataTimeless);
    AddBreaksEquality(eop1.Value(), eop2.Value(), DataTimeless, "dem", dem);
    var r := eop1.AddFeature(DataTimeless, "dem", dem);
    after := eop1.Equals(eop2);
  }
}
