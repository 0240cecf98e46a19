/** `InterpolatedBufferAccessor`: a view of `_size` elements over a buffer
    of `originalSize` elements with factor = originalSize / _size. View
    element `i` is buffer element round(i * factor). That is a
    nearest-neighbour pick of one buffer element, not the linear
    interpolation the class comment announces. Doubles are exact reals
    here; `std::round` on the non-negative ratios involved rounds halves
    up. */
module Interpolated {
  import opened Faults
  import opened Arith

  /** The state of a view: `originalSize` and `_size`. The doubles `factor`
      and `invFactor` are the ratios originalSize / size and its inverse. */
  datatype Resampled = Resampled(originalSize: nat, size: nat)

  /** `std::round(p / q)` for p, q >= 0: the integer nearest to p/q, halves
      rounded up, i.e. |p/q - r| <= 1/2 with r + 1/2 excluded. */
  function RoundDiv(p: nat, q: nat): (r: nat)
    requires q > 0
    ensures 2 * q * r <= 2 * p + q < 2 * q * (r + 1)
  {
    FloorDivBounds(2 * p + q, 2 * q);
    (2 * p + q) / (2 * q)
  }

  /** The size constructor: the view has exactly `newSize` elements. */
  function BySize(len: nat, newSize: nat): (r: Resampled)
    ensures r.originalSize == len && r.size == newSize
  {
    Resampled(len, newSize)
  }

  /** The rate constructor: size = round(downsampledRate * len / originalRate).
      With a zero original rate the double ratio is infinite or NaN and its
      conversion to `size_t` is undefined. */
  function ByRate(len: nat, originalRate: nat, downsampledRate: nat): (r: Result<Resampled>)
    ensures r.Ok? <==> originalRate > 0
    ensures r.Err? ==> r.fault == NonFinite
    ensures r.Ok? ==> r.value.originalSize == len
    ensures r.Ok? ==> var n := r.value.size;
                      2 * originalRate * n <= 2 * downsampledRate * len + originalRate < 2 * originalRate * (n + 1)
  {
    if originalRate == 0 then Err(NonFinite)
    else Ok(Resampled(len, RoundDiv(downsampledRate * len, originalRate)))
  }

  /** `getOriginalIndex`: round(factor * i), the buffer index k nearest to
      i * originalSize / size: |k - i * factor| <= 1/2, halves rounded up. */
  function OriginalIndex(v: Resampled, i: nat): (k: nat)
    requires v.size > 0
    ensures 2 * v.size * k <= 2 * (i * v.originalSize) + v.size < 2 * v.size * (k + 1)
  {
    RoundDiv(i * v.originalSize, v.size)
  }

  /** `getInterpolatedIndex`: round(invFactor * j), the view index nearest
      to j * size / originalSize, halves rounded up. */
  function InterpolatedIndex(v: Resampled, j: nat): (i: nat)
    requires v.originalSize > 0
    ensures 2 * v.originalSize * i <= 2 * (j * v.size) + v.originalSize < 2 * v.originalSize * (i + 1)
  {
    RoundDiv(j * v.size, v.originalSize)
  }

  /** `operator[]` read: the single buffer element `k` whose position,
      rescaled to the view, is nearest to `i` (|k - i * factor| <= 1/2).
      Indexing is unchecked, so that element must exist. */
  function Get<T>(data: seq<T>, v: Resampled, i: nat): (x: T)
    requires v.originalSize == |data| && i < v.size && OriginalIndex(v, i) < |data|
    ensures exists k | 0 <= k < |data| ::
              x == data[k] && 2 * k * v.size <= 2 * i * |data| + v.size < 2 * (k + 1) * v.size
  {
    var k := OriginalIndex(v, i);
    assert 2 * k * v.size <= 2 * i * |data| + v.size < 2 * (k + 1) * v.size;
    data[k]
  }

  /** `operator[]` write: only buffer element round(i * factor) changes. */
  function Put<T>(data: seq<T>, v: Resampled, i: nat, x: T): (r: seq<T>)
    requires v.originalSize == |data| && i < v.size && OriginalIndex(v, i) < |data|
    ensures |r| == |data| && r[OriginalIndex(v, i)] == x
    ensures forall k | 0 <= k < |data| && k != OriginalIndex(v, i) :: r[k] == data[k]
  {
    data[OriginalIndex(v, i) := x]
  }

  // ---------------------------------------------------------------------
  // Properties of the index mapping.

  /** `RoundDiv` is determined by its bracketing property. */
  lemma RoundDivUnique(p: nat, q: nat, r: nat)
    requires q > 0 && 2 * q * r <= 2 * p + q < 2 * q * (r + 1)
    ensures RoundDiv(p, q) == r
  {
    assert r * (2 * q) == 2 * q * r;
    assert (r + 1) * (2 * q) == 2 * q * (r + 1);
    FloorDivUnique(2 * p + q, 2 * q, r);
  }

  /** View element 0 is buffer element 0. */
  lemma OriginalIndexZero(v: Resampled)
    requires v.size > 0
    ensures OriginalIndex(v, 0) == 0
  {
    RoundDivUnique(0, v.size, 0);
  }

  /** The mapping never goes backwards. */
  lemma OriginalIndexMonotone(v: Resampled, i: nat, j: nat)
    requires v.size > 0 && i <= j
    ensures OriginalIndex(v, i) <= OriginalIndex(v, j)
  {
    MulMonotone(i, j, v.originalSize);
    DivMonotone(2 * (i * v.originalSize) + v.size, 2 * (j * v.originalSize) + v.size, 2 * v.size);
  }

  /** When the view is no longer than the buffer, every view index maps
      inside the buffer, so `operator[]` never reads out of range. */
  lemma DownsamplingInBounds(v: Resampled, i: nat)
    requires 0 < v.size <= v.originalSize && i < v.size
    ensures OriginalIndex(v, i) < v.originalSize
  {
    var k := OriginalIndex(v, i);
    var L, S := v.originalSize, v.size;
    var a, b, c := i * L, S * k, S * L;
    assert 2 * S * k == 2 * b;
    assert 2 * b <= 2 * a + S;
    MulMonotone(i, S - 1, L);
    MulPred(S, L);
    assert b < c;
    MulCancelLess(S, k, L);
  }

  /** A view made by the size constructor that is no longer than its
      buffer reads only inside the buffer. */
  lemma BySizeReadsInBounds(len: nat, newSize: nat, i: nat)
    requires 0 < newSize <= len && i < newSize
    ensures BySize(len, newSize).size == newSize
    ensures OriginalIndex(BySize(len, newSize), i) < len
  {
    DownsamplingInBounds(BySize(len, newSize), i);
  }

  /** A view as long as its buffer is the identity mapping. */
  lemma SameSizeIsIdentity(v: Resampled, i: nat)
    requires v.size > 0 && v.size == v.originalSize
    ensures OriginalIndex(v, i) == i
    ensures InterpolatedIndex(v, i) == i
  {
    var S := v.size;
    assert 2 * S * i <= 2 * (i * S) + S < 2 * S * (i + 1);
    RoundDivUnique(i * S, S, i);
  }

  /** When downsampling, mapping a view index to the buffer and back gives
      the view index again. */
  lemma IndexRoundTrip(v: Resampled, i: nat)
    requires 0 < v.size <= v.originalSize
    ensures InterpolatedIndex(v, OriginalIndex(v, i)) == i
  {
    var L, S := v.originalSize, v.size;
    if S == L {
      SameSizeIsIdentity(v, i);
      SameSizeIsIdentity(v, OriginalIndex(v, i));
    } else {
      ShrinkingRoundTrip(v, i, OriginalIndex(v, i));
    }
  }

  lemma ShrinkingRoundTrip(v: Resampled, i: nat, j: nat)
    requires 0 < v.size < v.originalSize
    requires 2 * v.size * j <= 2 * (i * v.originalSize) + v.size < 2 * v.size * (j + 1)
    ensures RoundDiv(j * v.size, v.originalSize) == i
  {
    var L, S := v.originalSize, v.size;
    var a, b := i * L, j * S;
    assert 2 * S * j == 2 * b && 2 * S * (j + 1) == 2 * b + 2 * S;
    BracketNarrows(a, b, S, L);
    assert 2 * L * i == 2 * a && 2 * L * (i + 1) == 2 * a + 2 * L;
    RoundDivUnique(b, L, i);
  }

  /** The linear core of the round trip: with S < L, if a rounds to b at
      scale S then b rounds back to a at scale L. */
  lemma BracketNarrows(a: int, b: int, s: int, l: int)
    requires s < l && 2 * b <= 2 * a + s < 2 * b + 2 * s
    ensures 2 * a <= 2 * b + l < 2 * a + 2 * l
  {
  }

  /** Resampling a one-element buffer to two elements maps view index 1 to
      buffer index 1, one past the end: the view is only safe for
      downsampling. */
  lemma UpsamplingReadsPastEnd()
    ensures OriginalIndex(Resampled(1, 2), 1) == 1
  {
    RoundDivUnique(1, 2, 1);
  }
}
