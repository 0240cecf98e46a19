/** The strided (decimating) views `DownsampledBufferAccessor` and
    `DownsampledVectorAccessor`. Both keep `pointsToSkip` (the stride) and
    `_size`; element `i` of the view is element `i * stride` of the
    underlying buffer or vector, read and written in place. The two classes
    share this model; the vector one adds the bounds-checked `at`. */
module Downsampled {
  import opened Faults
  import opened Arith

  /** The state of a view: `pointsToSkip` and `_size`. */
  datatype Strided = Strided(stride: nat, size: nat) {

    /** The invariant the constructors establish over an underlying
        sequence of `len` elements: a positive stride and
        size = floor(len / stride). */
    predicate Over(len: nat) {
      stride > 0 && size == len / stride
    }

    /** Where view element `i` lives in the underlying sequence. */
    function Index(i: nat): nat {
      i * stride
    }
  }

  /** The size constructor: stride = floor(len / newSize). With `newSize`
      zero, or larger than `len` (stride zero), the program divides by
      zero. */
  function BySize(len: nat, newSize: nat): (r: Result<Strided>)
    ensures r.Ok? <==> 0 < newSize <= len
    ensures r.Err? ==> r.fault == DivisionByZero
    ensures r.Ok? ==> r.value.Over(len)
    ensures r.Ok? ==> r.value.stride * newSize <= len < (r.value.stride + 1) * newSize
  {
    if newSize == 0 then Err(DivisionByZero)
    else
      var stride := len / newSize;
      FloorDivBounds(len, newSize);
      if stride == 0 then Err(DivisionByZero)
      else
        MulMonotone(1, stride, newSize);
        Ok(Strided(stride, len / stride))
  }

  /** The rate constructor: stride = floor(originalRate / downsampledRate).
      A zero target rate, or a target rate above the original one, divides
      by zero. */
  function ByRate(len: nat, originalRate: nat, downsampledRate: nat): (r: Result<Strided>)
    ensures r.Ok? <==> 0 < downsampledRate <= originalRate
    ensures r.Err? ==> r.fault == DivisionByZero
    ensures r.Ok? ==> r.value.Over(len)
    ensures r.Ok? ==> r.value.stride * downsampledRate <= originalRate < (r.value.stride + 1) * downsampledRate
  {
    if downsampledRate == 0 then Err(DivisionByZero)
    else
      var stride := originalRate / downsampledRate;
      FloorDivBounds(originalRate, downsampledRate);
      if stride == 0 then Err(DivisionByZero)
      else Ok(Strided(stride, len / stride))
  }

  /** `operator[]` read: view element `i`, which lies inside the underlying
      sequence whenever `i < size()`. */
  function Get<T>(data: seq<T>, v: Strided, i: nat): (x: T)
    requires v.Over(|data|) && i < v.size
    ensures v.Index(i) < |data| && x == data[v.Index(i)]
  {
    InBounds(|data|, v, i);
    data[v.Index(i)]
  }

  /** `operator[]` write: only element `i * stride` of the underlying
      sequence changes. */
  function Put<T>(data: seq<T>, v: Strided, i: nat, x: T): (r: seq<T>)
    requires v.Over(|data|) && i < v.size
    ensures |r| == |data| && v.Over(|r|)
    ensures v.Index(i) < |r| && r[v.Index(i)] == x
    ensures forall k | 0 <= k < |data| && k != v.Index(i) :: r[k] == data[k]
  {
    InBounds(|data|, v, i);
    data[v.Index(i) := x]
  }

  /** `DownsampledVectorAccessor::at`: `std::vector::at` checks the
      underlying index, not the view index, so it fails exactly when
      `i * stride` is past the end of the vector. */
  function At<T>(data: seq<T>, v: Strided, i: nat): (r: Result<T>)
    ensures r.Ok? <==> v.Index(i) < |data|
    ensures r.Err? ==> r.fault == OutOfRange
    ensures r.Ok? ==> r.value == data[v.Index(i)]
  {
    if v.Index(i) < |data| then Ok(data[v.Index(i)]) else Err(OutOfRange)
  }

  /** The whole view as a sequence: every `stride`-th element of the
      underlying sequence, starting with the first, as many as fit whole
      strides. */
  function View<T>(data: seq<T>, v: Strided): (r: seq<T>)
    requires v.Over(|data|)
    ensures |r| == v.size == |data| / v.stride
    ensures forall i | 0 <= i < |r| :: v.Index(i) < |data| && r[i] == data[v.Index(i)]
  {
    EveryIndexInBounds(|data|, v);
    seq(v.size, i requires 0 <= i < v.size => data[v.Index(i)])
  }

  // ---------------------------------------------------------------------
  // Properties of the views.

  /** Every view index below `size()` maps inside the underlying sequence. */
  lemma InBounds(len: nat, v: Strided, i: nat)
    requires v.Over(len) && i < v.size
    ensures v.Index(i) < len
  {
    var q := len / v.stride;
    assert q * v.stride <= len;
    MulMonotone(i + 1, q, v.stride);
    assert (i + 1) * v.stride == i * v.stride + v.stride;
  }

  /** `InBounds` for every view index at once. */
  lemma EveryIndexInBounds(len: nat, v: Strided)
    requires v.Over(len)
    ensures forall i | 0 <= i < v.size :: v.Index(i) < len
  {
    forall i | 0 <= i < v.size
      ensures v.Index(i) < len
    {
      InBounds(len, v, i);
    }
  }

  /** The size constructor's view has at least `newSize` elements, and
      exactly `newSize` when `len` is a multiple of it. */
  lemma {:induction false} SizeAtLeastRequested(len: nat, newSize: nat)
    requires 0 < newSize <= len
    ensures BySize(len, newSize).value.size >= newSize
    ensures len % newSize == 0 ==> BySize(len, newSize).value.size == newSize
  {
    var v := BySize(len, newSize).value;
    assert v.stride * newSize <= len;
    DivLowerBound(v.stride, newSize, len);
    if len % newSize == 0 {
      assert len == v.stride * newSize;
      DivExact(newSize, v.stride);
    }
  }

  /** A stride of one is the identity view. */
  lemma StrideOneIsIdentity<T>(data: seq<T>)
    ensures Strided(1, |data|).Over(|data|)
    ensures View(data, Strided(1, |data|)) == data
  {
  }

  /** The vector's `at` agrees with `operator[]` on every view index. */
  lemma AtAgreesWithGet<T>(data: seq<T>, v: Strided, i: nat)
    requires v.Over(|data|) && i < v.size
    ensures At(data, v, i) == Ok(Get(data, v, i))
  {
  }

  /** Writing view element `i` and reading view element `j` sees the new
      value when `i == j` and the old one otherwise. */
  lemma PutThenGet<T>(data: seq<T>, v: Strided, i: nat, j: nat, x: T)
    requires v.Over(|data|) && i < v.size && j < v.size
    ensures Get(Put(data, v, i, x), v, j) == if i == j then x else Get(data, v, j)
  {
    if i != j {
      DistinctIndices(v, i, j);
    }
  }

  /** Writing through the view changes exactly one element of the view:
      the view of the written sequence is the old view with slot `i`
      replaced. */
  lemma ViewAfterPut<T>(data: seq<T>, v: Strided, i: nat, x: T)
    requires v.Over(|data|) && i < v.size
    ensures View(Put(data, v, i, x), v) == View(data, v)[i := x]
  {
    forall j | 0 <= j < v.size
      ensures View(Put(data, v, i, x), v)[j] == View(data, v)[i := x][j]
    {
      PutThenGet(data, v, i, j, x);
    }
  }

  lemma DistinctIndices(v: Strided, i: nat, j: nat)
    requires v.stride > 0 && i != j
    ensures v.Index(i) != v.Index(j)
  {
    if i < j {
      MulMonotone(i + 1, j, v.stride);
      assert (i + 1) * v.stride == i * v.stride + v.stride;
    } else {
      MulMonotone(j + 1, i, v.stride);
      assert (j + 1) * v.stride == j * v.stride + v.stride;
    }
  }
}
