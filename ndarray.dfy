/**
 * Abstract N-dimensional integer arrays: a shape and the elements in
 * row-major order. This is all of the array library that the EOPatch
 * container relies on: rank and shape introspection, exact equality and
 * concatenation along the first (time) axis.
 */
module NdArrays {

  /** Number of elements of an array of the given shape (1 for the empty shape). */
  function Product(shape: seq<nat>): nat
  {
    if shape == [] then 1 else shape[0] * Product(shape[1..])
  }

  datatype NdArray = NdArray(shape: seq<nat>, vals: seq<int>)

  /** An array whose element count agrees with its shape. */
  type Array = a: NdArray | |a.vals| == Product(a.shape) witness NdArray([], [0])

  /** Number of dimensions. */
  function Rank(a: Array): nat
  {
    |a.shape|
  }

  /** Number of elements in one slab along axis 0 (one time frame). */
  function FrameSize(a: Array): nat
    requires Rank(a) >= 1
  {
    Product(a.shape[1..])
  }

  lemma MulStep(count: nat, k: nat, n: nat)
    requires k < count
    ensures k * n + n <= count * n
  {
    assert count * n == k * n + n + (count - k - 1) * n;
  }

  lemma MulLe(m: nat, count: nat, n: nat)
    requires m <= count
    ensures m * n <= count * n
    ensures count * n - m * n == (count - m) * n
  {
    assert count * n == m * n + (count - m) * n;
  }

  /** The k-th slab along axis 0, in row-major order. */
  function Frame(a: Array, k: nat): (r: seq<int>)
    requires Rank(a) >= 1 && k < a.shape[0]
    ensures |r| == FrameSize(a)
  {
    var n := FrameSize(a);
    MulStep(a.shape[0], k, n);
    a.vals[k * n .. k * n + n]
  }

  /**
   * Exact equality in the sense of numpy's array_equal: same shape and,
   * position by position, the same elements.
   */
  function ArrayEqual(x: Array, y: Array): (eq: bool)
    ensures eq <==> x == y
  {
    x.shape == y.shape && forall i :: 0 <= i < |x.vals| ==> x.vals[i] == y.vals[i]
  }

  /** Two arrays can be joined along axis 0: same rank (at least 1), same trailing shape. */
  predicate Stackable(x: Array, y: Array)
  {
    Rank(x) >= 1 && Rank(y) == Rank(x) && x.shape[1..] == y.shape[1..]
  }

  /** Concatenation along axis 0: the frames of x followed by the frames of y. */
  function Concat0(x: Array, y: Array): (r: Array)
    requires Stackable(x, y)
    ensures Rank(r) == Rank(x)
    ensures r.shape[0] == x.shape[0] + y.shape[0] && r.shape[1..] == x.shape[1..]
  {
    var shape := [x.shape[0] + y.shape[0]] + x.shape[1..];
    var n := Product(x.shape[1..]);
    assert shape[1..] == x.shape[1..];
    assert Product(shape) == (x.shape[0] + y.shape[0]) * n;
    assert |x.vals + y.vals| == x.shape[0] * n + y.shape[0] * n;
    NdArray(shape, x.vals + y.vals)
  }

  /** The first m frames of a, as an array with leading dimension m. */
  function TakeFrames(a: Array, m: nat): (r: Array)
    requires Rank(a) >= 1 && m <= a.shape[0]
    ensures r.shape == [m] + a.shape[1..]
  {
    var n := FrameSize(a);
    MulLe(m, a.shape[0], n);
    var shape := [m] + a.shape[1..];
    assert shape[1..] == a.shape[1..];
    NdArray(shape, a.vals[..m * n])
  }

  /** Everything after the first m frames of a. */
  function DropFrames(a: Array, m: nat): (r: Array)
    requires Rank(a) >= 1 && m <= a.shape[0]
    ensures r.shape == [a.shape[0] - m] + a.shape[1..]
  {
    var n := FrameSize(a);
    MulLe(m, a.shape[0], n);
    var shape := [a.shape[0] - m] + a.shape[1..];
    assert shape[1..] == a.shape[1..];
    NdArray(shape, a.vals[m * n..])
  }

  lemma SliceOfAppendLeft(s: seq<int>, t: seq<int>, lo: nat, hi: nat)
    requires lo <= hi <= |s|
    ensures (s + t)[lo..hi] == s[lo..hi]
  {
    assert forall i :: 0 <= i < hi - lo ==> (s + t)[lo..hi][i] == s[lo..hi][i];
  }

  lemma SliceOfAppendRight(s: seq<int>, t: seq<int>, lo: nat, hi: nat)
    requires |s| <= lo <= hi <= |s| + |t|
    ensures (s + t)[lo..hi] == t[lo - |s|..hi - |s|]
  {
    assert forall i :: 0 <= i < hi - lo ==> (s + t)[lo..hi][i] == t[lo - |s|..hi - |s|][i];
  }

  lemma MulAdd(a: nat, b: nat, n: nat)
    ensures (a + b) * n == a * n + b * n
  {
  }

  lemma Concat0FrameLeft(x: Array, y: Array, k: nat)
    requires Stackable(x, y) && k < x.shape[0]
    ensures Frame(Concat0(x, y), k) == Frame(x, k)
  {
    var n := FrameSize(x);
    assert Concat0(x, y).vals == x.vals + y.vals;
    assert FrameSize(Concat0(x, y)) == n;
    MulStep(x.shape[0], k, n);
    SliceOfAppendLeft(x.vals, y.vals, k * n, k * n + n);
  }

  lemma Concat0FrameRight(x: Array, y: Array, j: nat)
    requires Stackable(x, y) && j < y.shape[0]
    ensures Frame(Concat0(x, y), x.shape[0] + j) == Frame(y, j)
  {
    var n := FrameSize(x);
    var k := x.shape[0] + j;
    var c := Concat0(x, y);
    assert c.vals == x.vals + y.vals;
    assert FrameSize(c) == n && FrameSize(y) == n;
    var xn, jn, kn := x.shape[0] * n, j * n, k * n;
    assert |x.vals| == xn;
    MulAdd(x.shape[0], j, n);
    assert kn == xn + jn;
    MulStep(y.shape[0], j, n);
    assert jn + n <= |y.vals|;
    assert Frame(c, k) == c.vals[kn..kn + n];
    assert Frame(y, j) == y.vals[jn..jn + n];
    SliceOfAppendRight(x.vals, y.vals, kn, kn + n);
  }

  /**
   * Frame k of an axis-0 concatenation is frame k of x when k is below
   * x's leading dimension, and frame k - x.shape[0] of y otherwise.
   */
  lemma Concat0Frames(x: Array, y: Array, k: nat)
    requires Stackable(x, y) && k < x.shape[0] + y.shape[0]
    ensures FrameSize(Concat0(x, y)) == FrameSize(x) == FrameSize(y)
    ensures Frame(Concat0(x, y), k) == if k < x.shape[0] then Frame(x, k) else Frame(y, k - x.shape[0])
  {
    if k < x.shape[0] {
      Concat0FrameLeft(x, y, k);
    } else {
      Concat0FrameRight(x, y, k - x.shape[0]);
    }
  }

  /** Splitting an axis-0 concatenation at x's leading dimension gives back x and y. */
  lemma SplitConcat0(x: Array, y: Array)
    requires Stackable(x, y)
    ensures TakeFrames(Concat0(x, y), x.shape[0]) == x
    ensures DropFrames(Concat0(x, y), x.shape[0]) == y
  {
    var r := Concat0(x, y);
    var n := FrameSize(x);
    assert |x.vals| == x.shape[0] * n;
    assert FrameSize(r) == n;
    assert r.vals == x.vals + y.vals;
    assert x.shape == [x.shape[0]] + x.shape[1..];
    assert y.shape == [y.shape[0]] + y.shape[1..];
    assert (x.vals + y.vals)[..|x.vals|] == x.vals;
    assert (x.vals + y.vals)[|x.vals|..] == y.vals;
  }

  /** Concatenating the first m frames with the rest along axis 0 rebuilds the array. */
  lemma Concat0OfSplit(a: Array, m: nat)
    requires Rank(a) >= 1 && m <= a.shape[0]
    ensures Stackable(TakeFrames(a, m), DropFrames(a, m))
    ensures Concat0(TakeFrames(a, m), DropFrames(a, m)) == a
  {
    var n := FrameSize(a);
    MulLe(m, a.shape[0], n);
    assert a.vals[..m * n] + a.vals[m * n..] == a.vals;
    assert a.shape == [a.shape[0]] + a.shape[1..];
  }
}
