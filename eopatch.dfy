/**
 * The EOPatch object: one mutable dictionary attribute per feature type,
 * changed in place by add_feature and remove_feature. Each method is tied
 * to a value-level operation on EOData.Features, whose properties are
 * proved there.
 */
module EOPatches {
  import opened NdArrays
  import opened FeatureTypes
  import opened EOData

  /** Checks the rank of every array of one slot; reports a wrong-rank field if there is one. */
  method CheckStore(t: FeatureType, s: Store) returns (err: Outcome)
    ensures err.Pass? <==> StoreWellFormed(t, s)
    ensures err.Fail? ==> (err.error.DimensionMismatch? && err.error.ftype == t &&
      err.error.field in s && err.error.expected == RequiredRank(t) &&
      err.error.actual == Rank(s[err.error.field]) && err.error.actual != err.error.expected)
  {
    var keys := s.Keys;
    while keys != {}
      invariant keys <= s.Keys
      invariant forall f <- s.Keys :: f !in keys ==> Rank(s[f]) == RequiredRank(t)
      decreases keys
    {
      var f :| f in keys;
      if Rank(s[f]) != RequiredRank(t) {
        return Fail(DimensionMismatch(t, f, RequiredRank(t), Rank(s[f])));
      }
      keys := keys - {f};
    }
    return Pass;
  }

  /** Checks every slot, in type order; reports the first wrong-rank field found. */
  method CheckFeatures(x: Features) returns (err: Outcome)
    ensures err.Pass? <==> x.WellFormed()
    ensures err.Fail? ==> (err.error.DimensionMismatch? &&
      err.error.field in x.Get(err.error.ftype) && err.error.expected == RequiredRank(err.error.ftype) &&
      err.error.actual == Rank(x.Get(err.error.ftype)[err.error.field]) && err.error.actual != err.error.expected)
  {
    var i := 0;
    while i < |ALL_TYPES|
      invariant 0 <= i <= |ALL_TYPES|
      invariant forall j :: 0 <= j < i ==> StoreWellFormed(ALL_TYPES[j], x.Get(ALL_TYPES[j]))
    {
      err := CheckStore(ALL_TYPES[i], x.Get(ALL_TYPES[i]));
      if err.Fail? {
        return;
      }
      i := i + 1;
    }
    forall t ensures StoreWellFormed(t, x.Get(t)) {
      assert ALL_TYPES[Index(t)] == t;
    }
    return Pass;
  }

  class EOPatch {
    var data: Store
    var mask: Store
    var dataTimeless: Store
    var maskTimeless: Store
    var labels: Store
    var scalars: Store
    var labelsTimeless: Store
    var scalarsTimeless: Store

    /** The contents of the patch as a value, slots in type order. */
    function Value(): Features
      reads this
    {
      var s: seq<Store> := [data, mask, dataTimeless, maskTimeless, labels, scalars, labelsTimeless, scalarsTimeless];
      assert |s| == |ALL_TYPES|;
      Features(s)
    }

    /** Every stored array has the rank of its feature type. */
    ghost predicate Valid()
      reads this
    {
      Value().WellFormed()
    }

    /** EOPatch(): a patch without features. */
    constructor ()
      ensures Value() == EMPTY
      ensures forall t :: Value().Get(t) == map[]
      ensures Valid()
    {
      data, mask, dataTimeless, maskTimeless := map[], map[], map[], map[];
      labels, scalars, labelsTimeless, scalarsTimeless := map[], map[], map[], map[];
      new;
      EmptyWellFormed();
    }

    /** A patch holding the given well-formed contents. */
    constructor FromValue(x: Features)
      requires x.WellFormed()
      ensures Value() == x
      ensures Valid()
    {
      data, mask, dataTimeless, maskTimeless := x.Get(Data), x.Get(Mask), x.Get(DataTimeless), x.Get(MaskTimeless);
      labels, scalars := x.Get(Label), x.Get(Scalar);
      labelsTimeless, scalarsTimeless := x.Get(LabelTimeless), x.Get(ScalarTimeless);
      new;
      SlotsDetermine(Value(), x);
    }

    /**
     * EOPatch(data=..., mask=..., ...): the patch holding init, or, when an
     * initial array has the wrong rank for its type, the error naming it.
     */
    static method Create(init: Features) returns (r: Result<EOPatch>)
      ensures r.Ok? <==> init.WellFormed()
      ensures r.Ok? ==> fresh(r.value) && r.value.Value() == init && r.value.Valid()
      ensures r.Err? ==> (r.error.DimensionMismatch? && r.error.field in init.Get(r.error.ftype) &&
        r.error.expected == RequiredRank(r.error.ftype) &&
        r.error.actual == Rank(init.Get(r.error.ftype)[r.error.field]) && r.error.actual != r.error.expected)
    {
      var err := CheckFeatures(init);
      if err.Fail? {
        return Err(err.error);
      }
      var p := new EOPatch.FromValue(init);
      return Ok(p);
    }

    /** Replaces the attribute holding slot t. */
    method SetSlot(t: FeatureType, s: Store)
      modifies this
      ensures Value() == old(Value()).With(t, s)
    {
      match t {
        case Data => data := s;
        case Mask => mask := s;
        case DataTimeless => dataTimeless := s;
        case MaskTimeless => maskTimeless := s;
        case Label => labels := s;
        case Scalar => scalars := s;
        case LabelTimeless => labelsTimeless := s;
        case ScalarTimeless => scalarsTimeless := s;
      }
      assert Value().slots == old(Value()).slots[Index(t) := s];
    }

    /** The attribute holding slot t (eop.data, eop.mask, ...). */
    function Slot(t: FeatureType): (s: Store)
      reads this
      ensures s == Value().Get(t)
    {
      match t
      case Data => data
      case Mask => mask
      case DataTimeless => dataTimeless
      case MaskTimeless => maskTimeless
      case Label => labels
      case Scalar => scalars
      case LabelTimeless => labelsTimeless
      case ScalarTimeless => scalarsTimeless
    }

    /**
     * add_feature(t, f, v): stores v under (t, f) in place when its rank is
     * the one t requires; otherwise fails and changes nothing.
     */
    method AddFeature(t: FeatureType, f: string, v: Array) returns (r: Outcome)
      requires Valid()
      modifies this
      ensures Valid()
      ensures r.Pass? <==> old(Value()).AddFeature(t, f, v).Ok?
      ensures r.Pass? ==> Value() == old(Value()).AddFeature(t, f, v).value
      ensures r.Fail? ==> r.error == old(Value()).AddFeature(t, f, v).error && unchanged(this)
    {
      if Rank(v) != RequiredRank(t) {
        return Fail(DimensionMismatch(t, f, RequiredRank(t), Rank(v)));
      }
      AddPreservesWellFormed(Value(), t, f, v);
      SetSlot(t, Slot(t)[f := v]);
      SlotsDetermine(Value(), old(Value()).AddFeature(t, f, v).value);
      return Pass;
    }

    /** get_feature(t, f). */
    function GetFeature(t: FeatureType, f: string): (r: Result<Array>)
      reads this
      ensures r.Ok? <==> f in Slot(t)
      ensures r.Ok? ==> r.value == Slot(t)[f]
      ensures r.Err? ==> r.error == KeyNotFound(t, f)
    {
      Value().GetFeature(t, f)
    }

    /** remove_feature(t, f): deletes the field in place; an absent field is left alone. */
    method RemoveFeature(t: FeatureType, f: string)
      requires Valid()
      modifies this
      ensures Valid()
      ensures Value() == old(Value()).RemoveFeature(t, f)
    {
      RemovePreservesWellFormed(Value(), t, f);
      SetSlot(t, Slot(t) - {f});
      SlotsDetermine(Value(), old(Value()).RemoveFeature(t, f));
    }

    /** The `features` attribute for type t: field name to shape. */
    function ShapeView(t: FeatureType): (v: map<string, seq<nat>>)
      reads this
      ensures v.Keys == Slot(t).Keys
      ensures forall f :: f in v ==> v[f] == Slot(t)[f].shape
    {
      Value().ShapeView(t)
    }

    /** eop1 == eop2: the same features with equal arrays, for every type. */
    function Equals(other: EOPatch): (eq: bool)
      reads this, other
      ensures eq <==> Value() == other.Value()
    {
      FeaturesEqual(Value(), other.Value())
    }

    /**
     * EOPatch.concatenate(a, b): a new patch, leaving both inputs as they
     * were, or the error of the first temporal type whose slots cannot be
     * joined.
     */
    static method Concatenate(a: EOPatch, b: EOPatch) returns (r: Result<EOPatch>)
      requires a.Valid() && b.Valid()
      ensures r.Ok? <==> EOData.Concatenate(a.Value(), b.Value()).Ok?
      ensures r.Ok? ==> fresh(r.value) && r.value.Valid()
      ensures r.Ok? ==> r.value.Value() == EOData.Concatenate(a.Value(), b.Value()).value
      ensures r.Err? ==> r.error == EOData.Concatenate(a.Value(), b.Value()).error
    {
      var c := EOData.Concatenate(a.Value(), b.Value());
      if c.Err? {
        return Err(c.error);
      }
      ConcatenateWellFormed(a.Value(), b.Value());
      var p := new EOPatch.FromValue(c.value);
      return Ok(p);
    }
  }
}
