/**
 * The closed enumeration of feature types of an EOPatch. Each type fixes
 * the rank every array stored under it must have.
 */
module FeatureTypes {

  datatype FeatureType =
    | Data | Mask
    | DataTimeless | MaskTimeless
    | Label | Scalar
    | LabelTimeless | ScalarTimeless

  /** Temporal types carry a leading time axis. */
  predicate IsTemporal(t: FeatureType)
  {
    t.Data? || t.Mask? || t.Label? || t.Scalar?
  }

  /** Raster types carry (height, width, channel) axes; the others one attribute axis. */
  predicate IsRaster(t: FeatureType)
  {
    t.Data? || t.Mask? || t.DataTimeless? || t.MaskTimeless?
  }

  /**
   * The rank an array must have to be stored under t: three raster axes
   * or one attribute axis, plus the time axis for temporal types.
   */
  function RequiredRank(t: FeatureType): (r: nat)
    ensures r == (if IsRaster(t) then 3 else 1) + (if IsTemporal(t) then 1 else 0)
  {
    match t
    case Data => 4
    case Mask => 4
    case DataTimeless => 3
    case MaskTimeless => 3
    case Label => 2
    case Scalar => 2
    case LabelTimeless => 1
    case ScalarTimeless => 1
  }

  /** Every feature type, in declaration order. */
  const ALL_TYPES: seq<FeatureType> :=
    [Data, Mask, DataTimeless, MaskTimeless, Label, Scalar, LabelTimeless, ScalarTimeless]

  /** Position of t in the enumeration. */
  function Index(t: FeatureType): (i: nat)
    ensures i < |ALL_TYPES| && ALL_TYPES[i] == t
  {
    match t
    case Data => 0
    case Mask => 1
    case DataTimeless => 2
    case MaskTimeless => 3
    case Label => 4
    case Scalar => 5
    case LabelTimeless => 6
    case ScalarTimeless => 7
  }

  /** Every type occurs in the enumeration, at exactly one position. */
  lemma IndexOfPosition(i: nat)
    requires i < |ALL_TYPES|
    ensures Index(ALL_TYPES[i]) == i
  {
  }

  lemma AllTypesComplete(t: FeatureType)
    ensures t in ALL_TYPES
  {
    assert ALL_TYPES[Index(t)] == t;
  }
}
