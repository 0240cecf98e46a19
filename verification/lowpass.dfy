/** `LowPass<T>`: an FFT-based low-pass filter applied in place to
    successive blocks of N samples. The FFTW transforms are abstract
    length-preserving functions; the logistic soft-cutoff curve is an
    abstract function of (f, k, f0). What remains is the coefficient
    layout, the block schedule and the per-bin and per-sample scaling. */
module LowPassFilter {
  import opened ComplexMath
  import opened Arith

  // ---------------------------------------------------------------------
  // Abstract transforms.

  /** The transforms the filter plans and executes: complex forward and
      backward DFTs, and FFTW's real-to-complex and complex-to-real pair.
      The backward transforms are unnormalised, as FFTW's are. */
  datatype Fft = Fft(
    forward: seq<Complex> -> seq<Complex>,
    backward: seq<Complex> -> seq<Complex>,
    forwardReal: seq<real> -> seq<Complex>,
    backwardReal: seq<Complex> -> seq<real>)
  {
    /** A plan of size N maps N inputs to N outputs. */
    ghost predicate Valid() {
      && (forall b :: |forward(b)| == |b|)
      && (forall b :: |backward(b)| == |b|)
      && (forall b :: |forwardReal(b)| == |b|)
      && (forall b :: |backwardReal(b)| == |b|)
    }
  }

  /** `logistic(f, k, f0)`, left abstract. */
  type Logistic = (real, real, real) -> real

  // ---------------------------------------------------------------------
  // Construction.

  /** A constructed filter: cutoff `frequency`, block length `n` and the
      two coefficient vectors. */
  datatype LowPass = LowPass(frequency: int, n: nat, coefficients: seq<real>, complexCoefficients: seq<real>) {

    /** What filtering needs: a positive block length (with N = 0 the block
        loop never advances) and one coefficient per bin. */
    predicate Valid() {
      n > 0 && |coefficients| == n && |complexCoefficients| == n
    }
  }

  /** `fftIndex`: the FFT bin of the cutoff frequency. */
  function FftIndex(frequency: int, n: nat, sampleRate: int): real
    requires sampleRate != 0
  {
    frequency as real * n as real / sampleRate as real
  }

  /** `generateCoefficients`: the vector is resized to N (zero-filled) and
      only its lower half is written, so the upper half stays zero. */
  method GenerateCoefficients(n: nat, logistic: Logistic, fftIndex: real) returns (c: seq<real>)
    ensures |c| == n
    ensures forall i | 0 <= i < n / 2 :: c[i] == logistic(i as real, 1.0, fftIndex)
    ensures forall i | n / 2 <= i < n :: c[i] == 0.0
  {
    c := seq(n, _ => 0.0);
    var i := 0;
    while i < n / 2
      invariant 0 <= i <= n / 2 && |c| == n
      invariant forall k | 0 <= k < i :: c[k] == logistic(k as real, 1.0, fftIndex)
      invariant forall k | i <= k < n :: c[k] == 0.0
    {
      c := c[i := logistic(i as real, 1.0, fftIndex)];
      i := i + 1;
    }
  }

  /** `generateComplexCoefficients`: the lower half as above, then the upper
      half mirrored from it, so the response is symmetric:
      c[i] == c[n - 1 - i]. For odd n the middle entry mirrors itself and
      stays zero. */
  method GenerateComplexCoefficients(n: nat, logistic: Logistic, fftIndex: real) returns (c: seq<real>)
    ensures |c| == n
    ensures forall i | 0 <= i < n / 2 :: c[i] == logistic(i as real, 1.0, fftIndex)
    ensures forall i | 0 <= i < n :: c[i] == c[n - 1 - i]
    ensures n % 2 == 1 ==> c[n / 2] == 0.0
  {
    c := seq(n, _ => 0.0);
    var i := 0;
    while i < n / 2
      invariant 0 <= i <= n / 2 && |c| == n
      invariant forall k | 0 <= k < i :: c[k] == logistic(k as real, 1.0, fftIndex)
      invariant forall k | i <= k < n :: c[k] == 0.0
    {
      c := c[i := logistic(i as real, 1.0, fftIndex)];
      i := i + 1;
    }
    i := n / 2;
    while i < n
      invariant n / 2 <= i <= n && |c| == n
      invariant forall k | 0 <= k < n / 2 :: c[k] == logistic(k as real, 1.0, fftIndex)
      invariant forall k | n / 2 <= k < i :: c[k] == c[n - 1 - k]
      invariant forall k | i <= k < n :: c[k] == 0.0
      invariant n % 2 == 1 && i > n / 2 ==> c[n / 2] == 0.0
    {
      c := c[i := c[n - i - 1]];
      i := i + 1;
    }
  }

  /** `lp` is the filter `LowPass(frequency, n, sampleRate)` builds: the
      given cutoff and block length, and both coefficient vectors laid out
      from the cutoff bin frequency * n / sampleRate. This pins every
      coefficient: the real vector is logistic below n/2 and zero above;
      the complex vector is logistic below n/2, mirror-symmetric, and zero
      in the middle for odd n. */
  ghost predicate Built(lp: LowPass, frequency: int, n: nat, sampleRate: int, logistic: Logistic)
    requires sampleRate != 0
  {
    && lp.frequency == frequency && lp.n == n
    && |lp.coefficients| == n && |lp.complexCoefficients| == n
    && (forall i | 0 <= i < n / 2 ::
          lp.coefficients[i] == lp.complexCoefficients[i]
          == logistic(i as real, 1.0, FftIndex(frequency, n, sampleRate)))
    && (forall i | n / 2 <= i < n :: lp.coefficients[i] == 0.0)
    && (forall i | 0 <= i < n :: lp.complexCoefficients[i] == lp.complexCoefficients[n - 1 - i])
    && (n % 2 == 1 ==> lp.complexCoefficients[n / 2] == 0.0)
  }

  /** The constructor's arguments determine the filter completely. */
  lemma BuiltIsUnique(a: LowPass, b: LowPass, frequency: int, n: nat, sampleRate: int, logistic: Logistic)
    requires sampleRate != 0
    requires Built(a, frequency, n, sampleRate, logistic) && Built(b, frequency, n, sampleRate, logistic)
    ensures a == b
  {
    assert a.coefficients == b.coefficients;
    forall i | 0 <= i < n
      ensures a.complexCoefficients[i] == b.complexCoefficients[i]
    {
      if i >= n / 2 && !(n % 2 == 1 && i == n / 2) {
        var m := n - 1 - i;
        assert m < n / 2;
        assert a.complexCoefficients[m] == b.complexCoefficients[m];
        assert a.complexCoefficients[i] == a.complexCoefficients[m];
        assert b.complexCoefficients[i] == b.complexCoefficients[m];
      }
    }
    assert a.complexCoefficients == b.complexCoefficients;
  }

  /** The constructor: both coefficient vectors from the cutoff bin
      frequency * N / sampleRate. They agree on the lower half, where both
      follow the logistic curve. */
  method NewLowPass(frequency: int, n: nat, sampleRate: int, logistic: Logistic) returns (lp: LowPass)
    requires sampleRate != 0
    ensures lp.frequency == frequency && lp.n == n
    ensures n > 0 ==> lp.Valid()
    ensures forall i | 0 <= i < n / 2 ::
              lp.coefficients[i] == lp.complexCoefficients[i]
              == logistic(i as real, 1.0, FftIndex(frequency, n, sampleRate))
    ensures forall i | n / 2 <= i < n :: lp.coefficients[i] == 0.0
    ensures forall i | 0 <= i < n :: lp.complexCoefficients[i] == lp.complexCoefficients[n - 1 - i]
    ensures Built(lp, frequency, n, sampleRate, logistic)
  {
    var fftIndex := FftIndex(frequency, n, sampleRate);
    var c := GenerateCoefficients(n, logistic, fftIndex);
    var cc := GenerateComplexCoefficients(n, logistic, fftIndex);
    lp := LowPass(frequency, n, c, cc);
  }

  // ---------------------------------------------------------------------
  // One block.

  /** Complex overload: both parts of every bin are multiplied by the
      bin's coefficient, i.e. each bin is scaled as a complex number. */
  function ScaleComplexBins(bins: seq<Complex>, c: seq<real>): (r: seq<Complex>)
    requires |bins| == |c|
    ensures |r| == |bins|
    ensures forall i | 0 <= i < |bins| :: r[i] == bins[i].Scale(c[i])
  {
    seq(|bins|, i requires 0 <= i < |bins| => Complex(bins[i].re * c[i], bins[i].im * c[i]))
  }

  /** Real overload: only the real part of every bin is multiplied; the
      imaginary part is left as the forward transform produced it. */
  function ScaleRealBins(bins: seq<Complex>, c: seq<real>): (r: seq<Complex>)
    requires |bins| == |c|
    ensures |r| == |bins|
    ensures forall i | 0 <= i < |bins| :: r[i].re == bins[i].Scale(c[i]).re && r[i].im == bins[i].im
  {
    seq(|bins|, i requires 0 <= i < |bins| => Complex(bins[i].re * c[i], bins[i].im))
  }

  /** One block of the complex overload: forward transform, scaled bins,
      backward transform, then every sample divided by N to undo the
      transform's gain. */
  function ComplexBlock(lp: LowPass, fft: Fft, block: seq<Complex>): (r: seq<Complex>)
    requires lp.Valid() && fft.Valid() && |block| == lp.n
    ensures |r| == lp.n
    ensures var y := fft.backward(ScaleComplexBins(fft.forward(block), lp.complexCoefficients));
            forall i | 0 <= i < lp.n :: r[i].Scale(lp.n as real) == y[i]
  {
    var bins := fft.forward(block);
    var y := fft.backward(ScaleComplexBins(bins, lp.complexCoefficients));
    var r := seq(lp.n, i requires 0 <= i < lp.n => y[i].DivScalar(lp.n as real));
    assert forall i | 0 <= i < lp.n :: r[i].Scale(lp.n as real) == y[i] by {
      forall i | 0 <= i < lp.n
        ensures r[i].Scale(lp.n as real) == y[i]
      {
        UnscaleScale(y[i], lp.n as real);
      }
    }
    r
  }

  /** One block of the real overload, the same four steps. */
  function RealBlock(lp: LowPass, fft: Fft, block: seq<real>): (r: seq<real>)
    requires lp.Valid() && fft.Valid() && |block| == lp.n
    ensures |r| == lp.n
    ensures var y := fft.backwardReal(ScaleRealBins(fft.forwardReal(block), lp.coefficients));
            forall i | 0 <= i < lp.n :: r[i] * (lp.n as real) == y[i]
  {
    var bins := fft.forwardReal(block);
    var y := fft.backwardReal(ScaleRealBins(bins, lp.coefficients));
    var r := seq(lp.n, i requires 0 <= i < lp.n => y[i] / lp.n as real);
    assert forall i | 0 <= i < lp.n :: r[i] * (lp.n as real) == y[i] by {
      forall i | 0 <= i < lp.n
        ensures r[i] * (lp.n as real) == y[i]
      {
        DivThenMul(y[i], lp.n as real);
      }
    }
    r
  }

  lemma UnscaleScale(a: Complex, s: real)
    requires s != 0.0
    ensures a.DivScalar(s).Scale(s) == a
  {
    DivThenMul(a.re, s);
    DivThenMul(a.im, s);
  }

  lemma DivThenMul(x: real, s: real)
    requires s != 0.0
    ensures (x / s) * s == x
  {
  }

  // ---------------------------------------------------------------------
  // The block schedule.

  /** How many blocks the loop `while (currentIndex + N < size)` processes:
      offsets 0, N, 2N, ... strictly before the last full block's end
      reaches `size`. */
  function BlockCount(size: nat, n: nat): nat
    requires n > 0
  {
    if size == 0 then 0 else (size - 1) / n
  }

  /** Block `k` is processed exactly when its end lies strictly before the
      end of the buffer. */
  lemma BlockCountSpec(size: nat, n: nat, k: nat)
    requires n > 0
    ensures k < BlockCount(size, n) <==> k * n + n < size
  {
    if size > 0 {
      FloorDivBounds(size - 1, n);
      var q := (size - 1) / n;
      if k < q {
        MulMonotone(k + 1, q, n);
      } else {
        MulMonotone(q + 1, k + 1, n);
      }
    }
  }

  /** A buffer of exactly one block, or any shorter one, is not filtered. */
  lemma {:induction false} SingleBlockUnfiltered(n: nat)
    requires n > 0
    ensures BlockCount(n, n) == 0
  {
    BlockCountSpec(n, n, 0);
  }

  /** Removing one leading block removes one processed block. */
  lemma BlockCountStep(size: nat, n: nat)
    requires 0 < n < size
    ensures BlockCount(size, n) == BlockCount(size - n, n) + 1
  {
    var q := BlockCount(size - n, n);
    FloorDivBounds(size - n - 1, n);
    assert (q + 1) * n == q * n + n;
    assert (q + 2) * n == q * n + n + n;
    FloorDivUnique(size - 1, n, q + 1);
  }

  /** Block `k` of a sequence. */
  function BlockSlice<T>(s: seq<T>, n: nat, k: nat): (b: seq<T>)
    requires n > 0 && k < BlockCount(|s|, n)
    ensures |b| == n
    ensures forall i | 0 <= i < n :: k * n + i < |s| && b[i] == s[k * n + i]
  {
    BlockCountSpec(|s|, n, k);
    s[k * n .. k * n + n]
  }

  /** A block function suitable for the schedule: length-preserving on
      blocks of exactly `n` elements. */
  ghost predicate BlockFunction<T(!new)>(n: nat, f: seq<T> -> seq<T>) {
    forall b: seq<T> | |b| == n :: |f(b)| == n
  }

  /** `s` with `b` written over it from offset `start`: the in-place effect
      of one pass of the loop body on the buffer. */
  function Overwrite<T>(s: seq<T>, start: nat, b: seq<T>): (r: seq<T>)
    requires start + |b| <= |s|
    ensures |r| == |s|
    ensures forall j | 0 <= j < |s| ::
              r[j] == if start <= j < start + |b| then b[j - start] else s[j]
  {
    seq(|s|, j requires 0 <= j < |s| => if start <= j < start + |b| then b[j - start] else s[j])
  }

  /** The buffer the loop leaves behind when it resumes at offset `i` with
      buffer `s`: while a whole block and at least one more sample remain,
      the block at the offset is overwritten by `f` of it and the offset
      advances by one block. */
  function BlockedFrom<T(!new)>(s: seq<T>, n: nat, f: seq<T> -> seq<T>, i: nat): (r: seq<T>)
    requires n > 0 && BlockFunction(n, f) && i <= |s|
    ensures |r| == |s|
    decreases |s| - i
  {
    if i + n < |s| then BlockedFrom(Overwrite(s, i, f(s[i .. i + n])), n, f, i + n) else s
  }

  /** The buffer after the whole schedule. */
  function Blocked<T(!new)>(data: seq<T>, n: nat, f: seq<T> -> seq<T>): (r: seq<T>)
    requires n > 0 && BlockFunction(n, f)
    ensures |r| == |data|
  {
    BlockedFrom(data, n, f, 0)
  }

  /** How many samples the loop processes, counted linearly: one more block
      as long as a whole block and at least one more sample remain. */
  function Processed(size: nat, n: nat): (p: nat)
    requires n > 0
    ensures p <= size
    decreases size
  {
    if n < size then n + Processed(size - n, n) else 0
  }

  lemma {:induction false} ProcessedIsBlocks(size: nat, n: nat)
    requires n > 0
    ensures Processed(size, n) == BlockCount(size, n) * n
    decreases size
  {
    if n < size {
      ProcessedIsBlocks(size - n, n);
      BlockCountStep(size, n);
      MulPred(BlockCount(size, n), n);
    } else if size > 0 {
      FloorDivUnique(size - 1, n, 0);
    }
  }

  /** `d` is a whole number of blocks of `n`. */
  predicate Aligned(d: nat, n: nat)
    requires n > 0
    decreases d
  {
    d == 0 || (d >= n && Aligned(d - n, n))
  }

  lemma {:induction false} AlignedBlocks(k: nat, n: nat)
    requires n > 0
    ensures Aligned(k * n, n)
    decreases k
  {
    if k > 0 {
      MulPred(k, n);
      AlignedBlocks(k - 1, n);
    }
  }

  /** Resuming at offset `i` leaves everything before `i`, and everything
      after the samples still to be processed, as it was. */
  lemma {:induction false} BlockedFromKeeps<T(!new)>(s: seq<T>, n: nat, f: seq<T> -> seq<T>, i: nat, j: nat)
    requires n > 0 && BlockFunction(n, f) && i <= |s| && j < |s|
    requires j < i || i + Processed(|s| - i, n) <= j
    ensures BlockedFrom(s, n, f, i)[j] == s[j]
    decreases |s| - i
  {
    if i + n < |s| {
      var s' := Overwrite(s, i, f(s[i .. i + n]));
      assert BlockedFrom(s, n, f, i) == BlockedFrom(s', n, f, i + n);
      BlockedFromKeeps(s', n, f, i + n, j);
    }
  }

  /** Resuming at offset `i`, the block at the aligned offset `p` becomes
      `f` of what the buffer held there. */
  lemma {:induction false} BlockedFromFilters<T(!new)>(s: seq<T>, n: nat, f: seq<T> -> seq<T>, i: nat, p: nat, t: nat)
    requires n > 0 && BlockFunction(n, f) && i <= p && p + n < |s| && t < n
    requires Aligned(p - i, n)
    ensures BlockedFrom(s, n, f, i)[p + t] == f(s[p .. p + n])[t]
    decreases p - i
  {
    var s' := Overwrite(s, i, f(s[i .. i + n]));
    assert BlockedFrom(s, n, f, i) == BlockedFrom(s', n, f, i + n);
    if p == i {
      BlockedFromKeeps(s', n, f, i + n, i + t);
    } else {
      BlockedFromFilters(s', n, f, i + n, p, t);
      assert s'[p .. p + n] == s[p .. p + n];
    }
  }

  /** Every processed block of the result is `f` of the same block of the
      input. */
  lemma BlockedFiltersBlocks<T(!new)>(data: seq<T>, n: nat, f: seq<T> -> seq<T>, k: nat)
    requires n > 0 && BlockFunction(n, f) && k < BlockCount(|data|, n)
    ensures BlockSlice(Blocked(data, n, f), n, k) == f(BlockSlice(data, n, k))
  {
    BlockCountSpec(|data|, n, k);
    AlignedBlocks(k, n);
    forall t | 0 <= t < n
      ensures Blocked(data, n, f)[k * n + t] == f(BlockSlice(data, n, k))[t]
    {
      BlockedFromFilters(data, n, f, 0, k * n, t);
    }
  }

  /** The samples from BlockCount * N on are left as they were. */
  lemma BlockedKeepsTail<T(!new)>(data: seq<T>, n: nat, f: seq<T> -> seq<T>, j: nat)
    requires n > 0 && BlockFunction(n, f) && BlockCount(|data|, n) * n <= j < |data|
    ensures Blocked(data, n, f)[j] == data[j]
  {
    ProcessedIsBlocks(|data|, n);
    BlockedFromKeeps(data, n, f, 0, j);
  }

  /** Both halves of the schedule's effect at once, for every block and
      every tail sample. */
  lemma BlockedSpec<T(!new)>(data: seq<T>, n: nat, f: seq<T> -> seq<T>)
    requires n > 0 && BlockFunction(n, f)
    ensures forall k | 0 <= k < BlockCount(|data|, n) ::
              BlockSlice(Blocked(data, n, f), n, k) == f(BlockSlice(data, n, k))
    ensures forall j | BlockCount(|data|, n) * n <= j < |data| :: Blocked(data, n, f)[j] == data[j]
  {
    forall k | 0 <= k < BlockCount(|data|, n)
      ensures BlockSlice(Blocked(data, n, f), n, k) == f(BlockSlice(data, n, k))
    {
      BlockedFiltersBlocks(data, n, f, k);
    }
    forall j | BlockCount(|data|, n) * n <= j < |data|
      ensures Blocked(data, n, f)[j] == data[j]
    {
      BlockedKeepsTail(data, n, f, j);
    }
  }

  /** The loop of both `filter` overloads: while currentIndex + N < size,
      replace the block at currentIndex by `f` of it and advance by N. */
  method ApplyBlocks<T(!new)>(data: seq<T>, n: nat, f: seq<T> -> seq<T>) returns (out: seq<T>)
    requires n > 0 && BlockFunction(n, f)
    ensures out == Blocked(data, n, f)
    ensures |out| == |data|
    ensures forall k | 0 <= k < BlockCount(|data|, n) :: BlockSlice(out, n, k) == f(BlockSlice(data, n, k))
    ensures forall j | BlockCount(|data|, n) * n <= j < |data| :: out[j] == data[j]
  {
    out := data;
    var currentIndex := 0;
    while currentIndex + n < |out|
      invariant currentIndex <= |out| == |data|
      invariant BlockedFrom(out, n, f, currentIndex) == Blocked(data, n, f)
      decreases |out| - currentIndex
    {
      var filtered := f(out[currentIndex .. currentIndex + n]);
      out := Overwrite(out, currentIndex, filtered);
      currentIndex := currentIndex + n;
    }
    BlockedSpec(data, n, f);
  }

  /** The block function of the complex overload. */
  function ComplexBlockFn(lp: LowPass, fft: Fft): (f: seq<Complex> -> seq<Complex>)
    requires lp.Valid() && fft.Valid()
    ensures BlockFunction(lp.n, f)
  {
    b => if |b| == lp.n then ComplexBlock(lp, fft, b) else b
  }

  /** The block function of the real overload. */
  function RealBlockFn(lp: LowPass, fft: Fft): (f: seq<real> -> seq<real>)
    requires lp.Valid() && fft.Valid()
    ensures BlockFunction(lp.n, f)
  {
    b => if |b| == lp.n then RealBlock(lp, fft, b) else b
  }

  /** `filter(DataBuffer<Complex>&)`: the buffer keeps its length, every
      processed block is the complex block filter of the same input block,
      and samples from BlockCount * N on are left as they were. */
  method FilterComplex(lp: LowPass, fft: Fft, data: seq<Complex>) returns (out: seq<Complex>)
    requires lp.Valid() && fft.Valid()
    ensures out == Blocked(data, lp.n, ComplexBlockFn(lp, fft))
    ensures |out| == |data|
    ensures forall k | 0 <= k < BlockCount(|data|, lp.n) ::
              BlockSlice(out, lp.n, k) == ComplexBlock(lp, fft, BlockSlice(data, lp.n, k))
    ensures forall j | BlockCount(|data|, lp.n) * lp.n <= j < |data| :: out[j] == data[j]
  {
    var f := ComplexBlockFn(lp, fft);
    out := ApplyBlocks(data, lp.n, f);
  }

  /** `filter(DataBuffer<T>&)` for real samples, likewise with the real
      block filter. */
  method FilterReal(lp: LowPass, fft: Fft, data: seq<real>) returns (out: seq<real>)
    requires lp.Valid() && fft.Valid()
    ensures out == Blocked(data, lp.n, RealBlockFn(lp, fft))
    ensures |out| == |data|
    ensures forall k | 0 <= k < BlockCount(|data|, lp.n) ::
              BlockSlice(out, lp.n, k) == RealBlock(lp, fft, BlockSlice(data, lp.n, k))
    ensures forall j | BlockCount(|data|, lp.n) * lp.n <= j < |data| :: out[j] == data[j]
  {
    var f := RealBlockFn(lp, fft);
    out := ApplyBlocks(data, lp.n, f);
  }
}
