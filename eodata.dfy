/**
 * The contents of an EOPatch as a value: one store per feature type, each
 * mapping a field name to an array. Everything the container does that
 * does not change an object in place lives here: the rank check, lookup,
 * the shape view, structural equality and concatenation of two patches.
 */
module EOData {
  import opened NdArrays
  import opened FeatureTypes

  /** One feature-type slot: field name to array. */
  type Store = map<string, Array>

  datatype PatchError =
    | DimensionMismatch(ftype: FeatureType, field: string, expected: nat, actual: nat)
    | KeyNotFound(ftype: FeatureType, field: string)
    | KeySetMismatch(ftype: FeatureType)
    | ShapeMismatch(ftype: FeatureType)

  datatype Result<T> = Ok(value: T) | Err(error: PatchError)
  {
    predicate IsFailure()
    {
      Err?
    }

    function PropagateFailure<U>(): Result<U>
      requires Err?
    {
      Err(error)
    }

    function Extract(): T
      requires Ok?
    {
      value
    }
  }

  datatype Outcome = Pass | Fail(error: PatchError)

  /** Every array of the slot has the rank its feature type requires (invariant I1). */
  predicate StoreWellFormed(t: FeatureType, s: Store)
  {
    forall f <- s.Keys :: Rank(s[f]) == RequiredRank(t)
  }

  /** One store per feature type, at the type's position in the enumeration. */
  type Slots = s: seq<Store> | |s| == |ALL_TYPES|
    witness [map[], map[], map[], map[], map[], map[], map[], map[]]

  datatype Features = Features(slots: Slots)
  {
    /** The slot of feature type t. */
    function Get(t: FeatureType): Store
    {
      slots[Index(t)]
    }

    /** These contents with the slot of t replaced by s and the others unchanged. */
    function With(t: FeatureType, s: Store): (r: Features)
      ensures r.Get(t) == s
      ensures forall u :: u != t ==> r.Get(u) == Get(u)
    {
      Features(slots[Index(t) := s])
    }

    ghost predicate WellFormed()
    {
      forall t :: StoreWellFormed(t, Get(t))
    }

    /**
     * add_feature: stores (or overwrites) v under (t, f) when v has the
     * rank t requires, and otherwise fails naming the type, the field,
     * the expected and the actual rank.
     */
    function AddFeature(t: FeatureType, f: string, v: Array): (r: Result<Features>)
      ensures r.Ok? <==> Rank(v) == RequiredRank(t)
      ensures r.Err? ==> r.error == DimensionMismatch(t, f, RequiredRank(t), Rank(v))
      ensures r.Ok? ==> r.value.Get(t) == Get(t)[f := v]
      ensures r.Ok? ==> forall u :: u != t ==> r.value.Get(u) == Get(u)
    {
      if Rank(v) != RequiredRank(t) then Err(DimensionMismatch(t, f, RequiredRank(t), Rank(v)))
      else Ok(With(t, Get(t)[f := v]))
    }

    /** get_feature: the array stored under (t, f), or KeyNotFound. */
    function GetFeature(t: FeatureType, f: string): (r: Result<Array>)
      ensures r.Ok? <==> f in Get(t)
      ensures r.Ok? ==> r.value == Get(t)[f]
      ensures r.Err? ==> r.error == KeyNotFound(t, f)
    {
      if f in Get(t) then Ok(Get(t)[f]) else Err(KeyNotFound(t, f))
    }

    /** remove_feature: drops field f of type t, if present, and nothing else. */
    function RemoveFeature(t: FeatureType, f: string): (r: Features)
      ensures r.Get(t).Keys == Get(t).Keys - {f}
      ensures forall g :: g in r.Get(t) ==> r.Get(t)[g] == Get(t)[g]
      ensures forall u :: u != t ==> r.Get(u) == Get(u)
    {
      With(t, Get(t) - {f})
    }

    /** The `features` view for type t: field name to the shape of its array. */
    function ShapeView(t: FeatureType): (v: map<string, seq<nat>>)
      ensures v.Keys == Get(t).Keys
      ensures forall f :: f in v ==> v[f] == Get(t)[f].shape
    {
      map f | f in Get(t) :: Get(t)[f].shape
    }
  }

  /** A patch with no features. */
  const EMPTY: Features := Features([map[], map[], map[], map[], map[], map[], map[], map[]])

  lemma EmptyWellFormed()
    ensures EMPTY.WellFormed()
    ensures forall t :: EMPTY.Get(t) == map[]
  {
  }

  /** Two contents are the same value when they agree on every slot. */
  lemma SlotsDetermine(x: Features, y: Features)
    requires forall t :: x.Get(t) == y.Get(t)
    ensures x == y
  {
    forall i | 0 <= i < |ALL_TYPES| ensures x.slots[i] == y.slots[i] {
      IndexOfPosition(i);
      assert x.Get(ALL_TYPES[i]) == y.Get(ALL_TYPES[i]);
    }
  }

  // ---------------------------------------------------------------------
  // add / get / remove / features

  /** After a successful add, get_feature and the shape view both report the new array. */
  lemma AddThenGet(x: Features, t: FeatureType, f: string, v: Array)
    requires Rank(v) == RequiredRank(t)
    ensures x.AddFeature(t, f, v).Ok?
    ensures x.AddFeature(t, f, v).value.Get(t)[f] == v
    ensures x.AddFeature(t, f, v).value.GetFeature(t, f) == Ok(v)
    ensures x.AddFeature(t, f, v).value.ShapeView(t)[f] == v.shape
  {
  }

  /** add_feature keeps invariant I1. */
  lemma AddPreservesWellFormed(x: Features, t: FeatureType, f: string, v: Array)
    requires x.WellFormed()
    ensures x.AddFeature(t, f, v).Ok? ==> x.AddFeature(t, f, v).value.WellFormed()
  {
    if x.AddFeature(t, f, v).Ok? {
      var y := x.AddFeature(t, f, v).value;
      forall u ensures StoreWellFormed(u, y.Get(u)) {
        assert StoreWellFormed(u, x.Get(u));
      }
    }
  }

  /** add_feature leaves every other (type, field) entry as it was. */
  lemma AddLeavesOthers(x: Features, t: FeatureType, f: string, v: Array, u: FeatureType, g: string)
    requires x.AddFeature(t, f, v).Ok? && (u, g) != (t, f)
    ensures var y := x.AddFeature(t, f, v).value;
      (g in y.Get(u) <==> g in x.Get(u)) && (g in x.Get(u) ==> y.Get(u)[g] == x.Get(u)[g])
  {
  }

  /**
   * remove_feature drops f from the slot and from the shape view, and leaves
   * every other entry (same-type siblings included) as it was.
   */
  lemma RemoveLeavesOthers(x: Features, t: FeatureType, f: string, u: FeatureType, g: string)
    requires (u, g) != (t, f)
    ensures var y := x.RemoveFeature(t, f);
      f !in y.Get(t) && f !in y.ShapeView(t) &&
      (g in y.Get(u) <==> g in x.Get(u)) && (g in x.Get(u) ==> y.Get(u)[g] == x.Get(u)[g])
  {
  }

  /** Removing a field just added to a slot that lacked it gives back the original contents. */
  lemma RemoveUndoesAdd(x: Features, t: FeatureType, f: string, v: Array)
    requires f !in x.Get(t) && Rank(v) == RequiredRank(t)
    ensures x.AddFeature(t, f, v).Ok?
    ensures x.AddFeature(t, f, v).value.RemoveFeature(t, f) == x
  {
    var y := x.AddFeature(t, f, v).value.RemoveFeature(t, f);
    assert y.Get(t) == x.Get(t);
    SlotsDetermine(y, x);
  }

  /** Removing a field that is not there is a no-op. */
  lemma RemoveAbsentIsNoOp(x: Features, t: FeatureType, f: string)
    requires f !in x.Get(t)
    ensures x.RemoveFeature(t, f) == x
  {
    var y := x.RemoveFeature(t, f);
    assert y.Get(t) == x.Get(t);
    SlotsDetermine(y, x);
  }

  /** remove_feature keeps invariant I1. */
  lemma RemovePreservesWellFormed(x: Features, t: FeatureType, f: string)
    requires x.WellFormed()
    ensures x.RemoveFeature(t, f).WellFormed()
  {
    var y := x.RemoveFeature(t, f);
    forall u ensures StoreWellFormed(u, y.Get(u)) {
      assert StoreWellFormed(u, x.Get(u));
    }
  }

  /** Every shape the view reports for t has t's required rank. */
  lemma ShapeViewRanks(x: Features, t: FeatureType, f: string)
    requires x.WellFormed() && f in x.ShapeView(t)
    ensures |x.ShapeView(t)[f]| == RequiredRank(t)
  {
    assert StoreWellFormed(t, x.Get(t));
  }

  // ---------------------------------------------------------------------
  // equality

  /** Per slot: same field names and array_equal arrays under each. */
  function StoreEqual(a: Store, b: Store): (eq: bool)
    ensures eq <==> a == b
  {
    a.Keys == b.Keys && forall f <- a.Keys :: ArrayEqual(a[f], b[f])
  }

  lemma EqualOnAllTypes(a: Features, b: Features)
    ensures (forall t <- ALL_TYPES :: StoreEqual(a.Get(t), b.Get(t))) <==> a == b
  {
    if forall t <- ALL_TYPES :: StoreEqual(a.Get(t), b.Get(t)) {
      forall t ensures a.Get(t) == b.Get(t) {
        AllTypesComplete(t);
      }
      SlotsDetermine(a, b);
    }
  }

  /**
   * The container's `==`: for every feature type the same field names and
   * exactly equal arrays. It coincides with equality of the contents.
   */
  function FeaturesEqual(a: Features, b: Features): (eq: bool)
    ensures eq <==> a == b
  {
    EqualOnAllTypes(a, b);
    forall t <- ALL_TYPES :: StoreEqual(a.Get(t), b.Get(t))
  }

  /** Adding a feature absent from one of two equal contents makes them unequal. */
  lemma AddBreaksEquality(a: Features, b: Features, t: FeatureType, f: string, v: Array)
    requires FeaturesEqual(a, b) && f !in a.Get(t) && Rank(v) == RequiredRank(t)
    ensures !FeaturesEqual(a.AddFeature(t, f, v).value, b)
  {
    assert f in a.AddFeature(t, f, v).value.Get(t);
  }

  // ---------------------------------------------------------------------
  // concatenation

  /** Temporal stores can be joined: same field names, each pair joinable along time. */
  predicate TemporalCompatible(a: Store, b: Store)
  {
    a.Keys == b.Keys && forall f <- a.Keys :: Stackable(a[f], b[f])
  }

  /**
   * Strict policy of temporal types: it succeeds exactly on compatible
   * stores, reports a key-set mismatch before a shape mismatch, and joins
   * every field of a with the same field of b along axis 0.
   */
  function ConcatTemporal(t: FeatureType, a: Store, b: Store): (r: Result<Store>)
    ensures r.Ok? <==> TemporalCompatible(a, b)
    ensures r.Err? ==> r.error == if a.Keys != b.Keys then KeySetMismatch(t) else ShapeMismatch(t)
    ensures r.Ok? ==> r.value.Keys == a.Keys
    ensures r.Ok? ==> forall f :: f in a ==> Stackable(a[f], b[f]) && r.value[f] == Concat0(a[f], b[f])
  {
    if a.Keys != b.Keys then Err(KeySetMismatch(t))
    else if !(forall f <- a.Keys :: Stackable(a[f], b[f])) then Err(ShapeMismatch(t))
    else Ok(map f | f in a.Keys :: Concat0(a[f], b[f]))
  }

  /**
   * Lenient policy of timeless types: it keeps exactly the fields present on
   * both sides with array_equal values, unchanged, and drops the rest.
   */
  function ConcatTimeless(a: Store, b: Store): (r: Store)
    ensures forall f :: f in r <==> f in a && f in b && a[f] == b[f]
    ensures forall f :: f in r ==> r[f] == a[f]
  {
    map f | f in a.Keys && f in b.Keys && ArrayEqual(a[f], b[f]) :: a[f]
  }

  /**
   * One slot of concatenate: the strict policy for temporal types, the
   * lenient one otherwise; only a temporal slot can fail.
   */
  function ConcatSlot(t: FeatureType, a: Store, b: Store): (r: Result<Store>)
    ensures r.Ok? <==> (IsTemporal(t) ==> TemporalCompatible(a, b))
    ensures !IsTemporal(t) ==> r == Ok(ConcatTimeless(a, b))
  {
    if IsTemporal(t) then ConcatTemporal(t, a, b) else Ok(ConcatTimeless(a, b))
  }

  /**
   * The slots of the types ts, combined one after the other; the first slot
   * that cannot be combined aborts with its error.
   */
  function ConcatSlots(ts: seq<FeatureType>, a: Features, b: Features): (r: Result<seq<Store>>)
    ensures r.Ok? <==> forall i :: 0 <= i < |ts| ==> ConcatSlot(ts[i], a.Get(ts[i]), b.Get(ts[i])).Ok?
    ensures r.Ok? ==> |r.value| == |ts|
    ensures r.Ok? ==> forall i :: 0 <= i < |ts| ==> ConcatSlot(ts[i], a.Get(ts[i]), b.Get(ts[i])) == Ok(r.value[i])
    ensures r.Err? ==> exists i :: 0 <= i < |ts| && ConcatSlot(ts[i], a.Get(ts[i]), b.Get(ts[i])) == Err(r.error)
  {
    if ts == [] then Ok([])
    else
      var s :- ConcatSlot(ts[0], a.Get(ts[0]), b.Get(ts[0]));
      var rest :- ConcatSlots(ts[1..], a, b);
      assert forall i :: 1 <= i < |ts| ==> ts[i] == ts[1..][i - 1];
      Ok([s] + rest)
  }

  /**
   * Combining the slots of all types succeeds exactly when every temporal
   * slot pair is compatible, and then holds the combination of slot t at
   * the position of t.
   */
  lemma ConcatSlotsAllTypes(a: Features, b: Features)
    ensures ConcatSlots(ALL_TYPES, a, b).Ok? <==> forall t :: IsTemporal(t) ==> TemporalCompatible(a.Get(t), b.Get(t))
    ensures ConcatSlots(ALL_TYPES, a, b).Ok? ==>
      forall t :: ConcatSlot(t, a.Get(t), b.Get(t)) == Ok(ConcatSlots(ALL_TYPES, a, b).value[Index(t)])
  {
    forall t ensures ALL_TYPES[Index(t)] == t {
    }
  }

  /**
   * EOPatch.concatenate(a, b): every slot combined in type order, temporal
   * slots strictly and timeless slots leniently. It succeeds exactly when
   * every temporal slot pair is compatible, and each slot of the result is
   * then the combination of the two input slots.
   */
  function Concatenate(a: Features, b: Features): (r: Result<Features>)
    ensures r.Ok? <==> forall t :: IsTemporal(t) ==> TemporalCompatible(a.Get(t), b.Get(t))
    ensures r.Ok? ==> forall t :: ConcatSlot(t, a.Get(t), b.Get(t)) == Ok(r.value.Get(t))
  {
    ConcatSlotsAllTypes(a, b);
    var slots :- ConcatSlots(ALL_TYPES, a, b);
    Ok(Features(slots))
  }

  /**
   * A failed concatenation names a temporal type whose slots cannot be
   * joined, as KeySetMismatch exactly when their field names differ.
   */
  lemma ConcatenateError(a: Features, b: Features)
    requires Concatenate(a, b).Err?
    ensures var e := Concatenate(a, b).error;
      (e.KeySetMismatch? || e.ShapeMismatch?) && IsTemporal(e.ftype) &&
      !TemporalCompatible(a.Get(e.ftype), b.Get(e.ftype)) &&
      (e.KeySetMismatch? <==> a.Get(e.ftype).Keys != b.Get(e.ftype).Keys)
  {
    var i :| 0 <= i < |ALL_TYPES| &&
      ConcatSlot(ALL_TYPES[i], a.Get(ALL_TYPES[i]), b.Get(ALL_TYPES[i])) == Err(Concatenate(a, b).error);
  }

  /** Different field names in any temporal slot abort the concatenation. */
  lemma ConcatenateKeyMismatch(a: Features, b: Features, t: FeatureType)
    requires IsTemporal(t) && a.Get(t).Keys != b.Get(t).Keys
    ensures Concatenate(a, b).Err?
  {
  }

  /** Temporal slots of the result: the same field names, each joined along axis 0. */
  lemma ConcatenateTemporal(a: Features, b: Features, t: FeatureType)
    requires Concatenate(a, b).Ok? && IsTemporal(t)
    ensures var c := Concatenate(a, b).value.Get(t);
      c.Keys == a.Get(t).Keys == b.Get(t).Keys &&
      forall f :: f in c ==> Stackable(a.Get(t)[f], b.Get(t)[f]) && c[f] == Concat0(a.Get(t)[f], b.Get(t)[f])
  {
  }

  /**
   * Timeless slots of the result: exactly the fields present in both inputs
   * with equal arrays, holding those arrays unchanged.
   */
  lemma ConcatenateTimeless(a: Features, b: Features, t: FeatureType)
    requires Concatenate(a, b).Ok? && !IsTemporal(t)
    ensures var c := Concatenate(a, b).value.Get(t);
      (forall f :: f in c <==> f in a.Get(t) && f in b.Get(t) && a.Get(t)[f] == b.Get(t)[f]) &&
      (forall f :: f in c ==> f in a.Get(t) && c[f] == a.Get(t)[f])
  {
  }

  /** The concatenation of two well-formed contents is well formed. */
  lemma ConcatenateWellFormed(a: Features, b: Features)
    requires a.WellFormed() && b.WellFormed() && Concatenate(a, b).Ok?
    ensures Concatenate(a, b).value.WellFormed()
  {
    var c := Concatenate(a, b).value;
    forall t ensures StoreWellFormed(t, c.Get(t)) {
      assert StoreWellFormed(t, a.Get(t));
      if IsTemporal(t) {
        ConcatenateTemporal(a, b, t);
      } else {
        ConcatenateTimeless(a, b, t);
      }
    }
  }

  /** The timeless policy does not depend on the order of the inputs. */
  lemma ConcatTimelessCommutes(a: Store, b: Store)
    ensures ConcatTimeless(a, b) == ConcatTimeless(b, a)
  {
  }

  /** Joining a timeless store with itself keeps all of it. */
  lemma ConcatTimelessIdempotent(a: Store)
    ensures ConcatTimeless(a, a) == a
  {
  }
}
