/** `FmDemodulator`: the byte-to-IQ transform, the discriminator, the size
    arithmetic of the demodulation stage, the int16 clamp, the rate and gain
    setters and the construction of the three single-worker stages. Filter
    transforms are passed in as an abstract `Fft`; the output callback is
    left out, so the demodulation stage returns the audio buffer it would
    hand to it. */
module FmDemod {
  import opened Faults
  import opened ComplexMath
  import opened Arith
  import Downsampled
  import opened LowPassFilter
  import opened ThreadPool

  /** The intermediate rate the baseband is decimated to. */
  const FmDownsampled: nat := 220500

  /** Workers per stage. */
  const PoolSize: nat := 1

  const Int16Min: int := -32768
  const Int16Max: int := 32767

  /** A `uint8_t` sample from the tuner. */
  type Byte = x: int | 0 <= x < 256

  // ---------------------------------------------------------------------
  // coerceToInt16

  /** The `(int16_t)` conversion of a value already in range: the
      fractional part is dropped, toward zero. */
  function TruncateTowardZero(x: real): (r: int)
    ensures x >= 0.0 ==> 0 <= r && r as real <= x < r as real + 1.0
    ensures x < 0.0 ==> r <= 0 && r as real - 1.0 < x <= r as real
  {
    if x >= 0.0 then x.Floor else -((-x).Floor)
  }

  /** `coerceToInt16`: `std::max(min, std::min(max, value))`, then the cast.
      (`std::min(a, b)` is `b < a ? b : a`, `std::max(a, b)` is
      `a < b ? b : a`.) */
  function CoerceToInt16(x: real): (r: int)
    ensures Int16Min <= r <= Int16Max
    ensures x >= Int16Max as real ==> r == Int16Max
    ensures x <= Int16Min as real ==> r == Int16Min
    ensures Int16Min as real < x < Int16Max as real ==>
              (x >= 0.0 ==> r as real <= x < r as real + 1.0) &&
              (x < 0.0 ==> r as real - 1.0 < x <= r as real)
  {
    var upper := if x < Int16Max as real then x else Int16Max as real;
    var clamped := if Int16Min as real < upper then upper else Int16Min as real;
    TruncateTowardZero(clamped)
  }

  /** Integers in range come back unchanged. */
  lemma CoerceKeepsInt16(k: int)
    requires Int16Min <= k <= Int16Max
    ensures CoerceToInt16(k as real) == k
  {
  }

  /** The clamp preserves order. */
  lemma CoerceIsMonotone(x: real, y: real)
    requires x <= y
    ensures CoerceToInt16(x) <= CoerceToInt16(y)
  {
    if x < 0.0 <= y {
      assert CoerceToInt16(x) <= 0 <= CoerceToInt16(y);
    }
  }

  // ---------------------------------------------------------------------
  // transformExecutor

  /** The tuner bytes with the ADC midpoint subtracted. */
  function Centred(data: seq<Byte>): (r: seq<real>)
    ensures |r| == |data|
    ensures forall i | 0 <= i < |data| :: -128.0 <= r[i] <= 127.0
  {
    seq(|data|, i requires 0 <= i < |data| => data[i] as real - 128.0)
  }

  /** IQ samples laid out as interleaved (re, im) pairs: the inverse of the
      pairing the transform performs. */
  function Interleave(cs: seq<Complex>): (r: seq<real>)
    ensures |r| == 2 * |cs|
    ensures forall k | 0 <= k < |cs| :: r[2 * k] == cs[k].re && r[2 * k + 1] == cs[k].im
  {
    seq(2 * |cs|, j requires 0 <= j < 2 * |cs| => if j % 2 == 0 then cs[j / 2].re else cs[j / 2].im)
  }

  /** Sample k of the transform: bytes 2k and 2k+1, centred. */
  function IqSample(data: seq<Byte>, k: nat): Complex
    requires 2 * k + 1 < |data|
  {
    Complex(data[2 * k] as real - 128.0, data[2 * k + 1] as real - 128.0)
  }

  /** A sequence of samples built pairwise from the bytes interleaves back
      to the centred bytes. */
  lemma InterleavePairs(data: seq<Byte>, out: seq<Complex>)
    requires |data| == 2 * |out|
    requires forall k | 0 <= k < |out| :: out[k] == IqSample(data, k)
    ensures Interleave(out) == Centred(data)
  {
    forall j | 0 <= j < |data|
      ensures Interleave(out)[j] == Centred(data)[j]
    {
      var k := j / 2;
      if j % 2 == 0 {
        assert j == 2 * k;
      } else {
        assert j == 2 * k + 1;
      }
    }
  }

  /** `transformExecutor` as written. The loop steps i by 2 up to the
      length and reads bytes i and i+1, writing sample i/2 of a buffer of
      length/2. On an odd length the last iteration reads one byte past the
      end and writes one sample past the end of the output; that is the
      `OutOfRange` outcome. On an even length nothing is lost: the samples
      interleave back to the centred bytes, and every component lies in
      [-128, 127]. */
  method Transform(data: seq<Byte>) returns (r: Result<seq<Complex>>)
    ensures r.Ok? <==> |data| % 2 == 0
    ensures r.Err? ==> r.fault == OutOfRange
    ensures r.Ok? ==> |r.value| == |data| / 2 && Interleave(r.value) == Centred(data)
    ensures r.Ok? ==> forall k | 0 <= k < |r.value| ::
              -128.0 <= r.value[k].re <= 127.0 && -128.0 <= r.value[k].im <= 127.0
  {
    if |data| % 2 == 1 {
      return Err(OutOfRange);
    }
    var tf := seq(|data| / 2, _ => Zero);
    var i := 0;
    while i < |data|
      invariant 0 <= i <= |data| && i % 2 == 0
      invariant |tf| == |data| / 2
      invariant forall k | 0 <= k < i / 2 :: tf[k] == IqSample(data, k)
    {
      tf := tf[i / 2 := Complex(data[i] as real - 128.0, data[i + 1] as real - 128.0)];
      i := i + 2;
    }
    InterleavePairs(data, tf);
    return Ok(tf);
  }

  /** The transform with the loop guard the pairing needs (`i + 1 < size`):
      a trailing odd byte is ignored, and the result interleaves back to the
      centred bytes before it. */
  method TransformFixed(data: seq<Byte>) returns (tf: seq<Complex>)
    ensures |tf| == |data| / 2
    ensures Interleave(tf) == Centred(data[..2 * (|data| / 2)])
    ensures forall k | 0 <= k < |tf| :: -128.0 <= tf[k].re <= 127.0 && -128.0 <= tf[k].im <= 127.0
  {
    tf := seq(|data| / 2, _ => Zero);
    var i := 0;
    while i + 1 < |data|
      invariant 0 <= i <= 2 * (|data| / 2) && i % 2 == 0
      invariant |tf| == |data| / 2
      invariant forall k | 0 <= k < i / 2 :: tf[k] == IqSample(data, k)
    {
      tf := tf[i / 2 := Complex(data[i] as real - 128.0, data[i + 1] as real - 128.0)];
      i := i + 2;
    }
    var even := data[..2 * (|data| / 2)];
    assert forall k | 0 <= k < |tf| :: tf[k] == IqSample(even, k);
    InterleavePairs(even, tf);
  }

  // ---------------------------------------------------------------------
  // The discriminator.

  /** The discriminator expression of the demodulation loop,
      (re * dIm - im * dRe) / (re^2 + im^2) over consecutive samples. It
      needs `cur` to be non-zero. */
  function Discriminator(prev: Complex, cur: Complex): (r: real)
    requires cur.MagnitudeSquared() != 0.0
    ensures r * cur.MagnitudeSquared() == cur.re * (cur.im - prev.im) - cur.im * (cur.re - prev.re)
  {
    (cur.re * (cur.im - prev.im) - cur.im * (cur.re - prev.re)) / (Sqr(cur.re) + Sqr(cur.im))
  }

  /** The discriminator is the imaginary part of the complex quotient
      (cur - prev) / cur, the small-angle phase step from `prev` to `cur`. */
  lemma DiscriminatorIsPhaseStep(prev: Complex, cur: Complex)
    requires cur.MagnitudeSquared() != 0.0
    ensures Discriminator(prev, cur) == cur.Sub(prev).Div(cur).im
  {
  }

  /** A sample that does not move has a zero phase step. */
  lemma StillSampleHasNoStep(c: Complex)
    requires c.MagnitudeSquared() != 0.0
    ensures Discriminator(c, c) == 0.0
  {
    assert c.im - c.im == 0.0 && c.re - c.re == 0.0;
    assert Times(c.re, 0.0) == 0.0 && Times(c.im, 0.0) == 0.0;
  }

  /** The discriminator over a run of samples, defined when no sample after
      the first is zero: output i is the step from sample i to sample i+1. */
  function Discriminated(xs: seq<Complex>): (r: seq<real>)
    requires |xs| > 0 && forall i | 1 <= i < |xs| :: xs[i] != Zero
    ensures |r| == |xs| - 1
    ensures forall i | 1 <= i < |xs| :: xs[i].MagnitudeSquared() != 0.0
    ensures forall i | 0 <= i < |r| :: r[i] == Discriminator(xs[i], xs[i + 1])
  {
    seq(|xs| - 1, i requires 0 <= i < |xs| - 1 => Discriminator(xs[i], xs[i + 1]))
  }

  /** The discriminator loop over the decimated baseband: slot i-1 gets the
      step from view element i-1 to view element i, so slots 0 .. size-2
      are each written once. A zero sample (the only sample whose
      re^2 + im^2 is zero) makes both numerator and denominator zero; the
      double division 0/0 then yields NaN, the `NonFinite` outcome. */
  method Discriminate(data: seq<Complex>, v: Downsampled.Strided) returns (r: Result<seq<real>>)
    requires v.Over(|data|) && v.size > 0
    ensures forall i | 0 <= i < v.size :: Downsampled.View(data, v)[i] == Downsampled.Get(data, v, i)
    ensures r.Ok? <==> forall i | 1 <= i < v.size :: Downsampled.Get(data, v, i) != Zero
    ensures r.Err? ==> r.fault == NonFinite
    ensures r.Ok? ==> r.value == Discriminated(Downsampled.View(data, v))
  {
    var demod := seq(v.size - 1, _ => 0.0);
    for i := 1 to v.size
      invariant |demod| == v.size - 1
      invariant forall j | 1 <= j < i :: Downsampled.Get(data, v, j) != Zero
      invariant forall j | 0 <= j < i - 1 ::
                  demod[j] == Discriminator(Downsampled.Get(data, v, j), Downsampled.Get(data, v, j + 1))
    {
      var prev := Downsampled.Get(data, v, i - 1);
      var cur := Downsampled.Get(data, v, i);
      if cur == Zero {
        return Err(NonFinite);
      }
      demod := demod[i - 1 := Discriminator(prev, cur)];
    }
    DiscriminatedView(data, v, demod);
    return Ok(demod);
  }

  /** A buffer holding the discriminator of every consecutive pair of view
      elements is the discriminator over the whole view. */
  lemma DiscriminatedView(data: seq<Complex>, v: Downsampled.Strided, demod: seq<real>)
    requires v.Over(|data|) && v.size > 0 && |demod| == v.size - 1
    requires forall j | 1 <= j < v.size :: Downsampled.Get(data, v, j) != Zero
    requires forall j | 0 <= j < v.size - 1 ::
               demod[j] == Discriminator(Downsampled.Get(data, v, j), Downsampled.Get(data, v, j + 1))
    ensures forall j | 1 <= j < v.size :: Downsampled.View(data, v)[j] != Zero
    ensures demod == Discriminated(Downsampled.View(data, v))
  {
    var xs := Downsampled.View(data, v);
    assert forall j | 0 <= j < v.size :: xs[j] == Downsampled.Get(data, v, j);
  }

  // ---------------------------------------------------------------------
  // The demodulator.

  datatype Demodulator = Demodulator(
    sampleRate: nat,
    audioSampleRate: nat,
    gain: real,
    lowPass: LowPass,
    audioLowPass: LowPass,
    transformPool: Pool<seq<Byte>>,
    filterPool: Pool<seq<Complex>>,
    demodPool: Pool<seq<Complex>>)

  /** The constructor: a 100 kHz complex filter over blocks of 8192 at the
      input rate, a 20 kHz real filter over blocks of 4096 at the
      intermediate rate, and three stages of `PoolSize` workers each. */
  method NewDemodulator(sampleRate: nat, audioSampleRate: nat, gain: real, logistic: Logistic)
    returns (d: Demodulator)
    requires sampleRate != 0
    ensures d.sampleRate == sampleRate && d.audioSampleRate == audioSampleRate && d.gain == gain
    ensures d.lowPass.Valid() && Built(d.lowPass, 100000, 8192, sampleRate, logistic)
    ensures d.audioLowPass.Valid() && Built(d.audioLowPass, 20000, 4096, FmDownsampled, logistic)
    ensures d.transformPool == NewPool(PoolSize) && d.filterPool == NewPool(PoolSize) && d.demodPool == NewPool(PoolSize)
    ensures |d.transformPool.workers| == 1 && |d.filterPool.workers| == 1 && |d.demodPool.workers| == 1
    ensures d.transformPool.queue == [] && d.filterPool.queue == [] && d.demodPool.queue == []
    ensures d.transformPool.running && d.filterPool.running && d.demodPool.running
  {
    var lowPass := NewLowPass(100000, 8192, sampleRate, logistic);
    var audioLowPass := NewLowPass(20000, 4096, FmDownsampled, logistic);
    d := Demodulator(sampleRate, audioSampleRate, gain, lowPass, audioLowPass,
                     NewPool(PoolSize), NewPool(PoolSize), NewPool(PoolSize));
  }

  /** Every stage has one worker, so each stage hands its buffers on in the
      order it received them. The demod stage is also cleared by
      `setSampleRate`; the buffers it drops are skipped, and the rest still
      go out in order. Without a `clear`, nothing is skipped either. */
  lemma StagesAreFifo<T>(ops: seq<Op<T>>)
    ensures Subsequence(Run(NewPool<T>(PoolSize), ops).executed, Submitted(ops))
    ensures NeverCleared(ops) ==> Run(NewPool<T>(PoolSize), ops).executed <= Submitted(ops)
  {
    var p := NewPool<T>(PoolSize);
    assert Pending(p) == [];
    assert Pending(p) + Submitted(ops) == Submitted(ops);
    ExecutedInSubmissionOrder(p, ops);
    SingleWorkerIsFifo(p, ops);
  }

  /** `setSampleRate`: pending demodulation work is discarded and the rate
      replaced; nothing else changes. */
  function SetSampleRate(d: Demodulator, sampleRate: nat): (r: Demodulator)
    ensures r.sampleRate == sampleRate && r.demodPool.queue == []
    ensures r.demodPool.running == d.demodPool.running && r.demodPool.workers == d.demodPool.workers
    ensures r.demodPool.executed == d.demodPool.executed
    ensures r.(sampleRate := d.sampleRate, demodPool := d.demodPool) == d
  {
    d.(demodPool := Clear(d.demodPool), sampleRate := sampleRate)
  }

  /** `setDigitalGain`: only the gain changes. */
  function SetDigitalGain(d: Demodulator, gain: real): (r: Demodulator)
    ensures r.gain == gain && r.(gain := d.gain) == d
  {
    d.(gain := gain)
  }

  /** The decimation factor to the intermediate rate. */
  function InputStride(sampleRate: nat): nat {
    sampleRate / FmDownsampled
  }

  /** The decimation factor from the intermediate rate to the audio rate. */
  function AudioStride(audioSampleRate: nat): nat
    requires audioSampleRate > 0
  {
    FmDownsampled / audioSampleRate
  }

  /** The stage's inputs are usable: both strides are positive and at
      least one sample survives decimation. */
  predicate Demodulable(sampleRate: nat, audioSampleRate: nat, size: nat) {
    InputStride(sampleRate) > 0 && audioSampleRate > 0 && AudioStride(audioSampleRate) > 0 &&
    size / InputStride(sampleRate) > 0
  }

  /** The decimation view the stage builds over its input is exactly
      `downsampledSize` long, so the discriminator writes every slot of its
      `downsampledSize - 1` buffer once. */
  lemma InputViewCoversDemodBuffer(size: nat, sampleRate: nat)
    requires InputStride(sampleRate) > 0
    ensures Downsampled.ByRate(size, sampleRate, FmDownsampled).Ok?
    ensures Downsampled.ByRate(size, sampleRate, FmDownsampled).value ==
            Downsampled.Strided(InputStride(sampleRate), size / InputStride(sampleRate))
  {
  }

  /** The audio view over the discriminator buffer is exactly `outputSize`
      long, so every audio slot is written once and none out of bounds. */
  lemma AudioViewCoversOutput(downsampledSize: nat, audioSampleRate: nat)
    requires downsampledSize > 0 && 0 < audioSampleRate <= FmDownsampled
    ensures AudioStride(audioSampleRate) > 0
    ensures Downsampled.ByRate(downsampledSize - 1, FmDownsampled, audioSampleRate).Ok?
    ensures Downsampled.ByRate(downsampledSize - 1, FmDownsampled, audioSampleRate).value.size ==
            (downsampledSize - 1) / AudioStride(audioSampleRate)
  {
    DivLowerBound(audioSampleRate, 1, FmDownsampled);
  }

  /** One audio sample: `coerceToInt16(sample * gain)`. */
  function AudioSample(x: real, gain: real): (r: int)
    ensures Int16Min <= r <= Int16Max
  {
    CoerceToInt16(x * gain)
  }

  /** The audio the stage produces from the discriminator output: the
      filtered signal decimated to the audio rate, scaled by the gain and
      clamped. */
  function Audio(d: Demodulator, fft: Fft, demod: seq<real>): (r: seq<int>)
    requires d.audioLowPass.Valid() && fft.Valid() && d.audioSampleRate > 0 && AudioStride(d.audioSampleRate) > 0
    ensures |r| == |demod| / AudioStride(d.audioSampleRate)
    ensures forall i | 0 <= i < |r| :: Int16Min <= r[i] <= Int16Max
  {
    var filtered := Blocked(demod, d.audioLowPass.n, RealBlockFn(d.audioLowPass, fft));
    var v := Downsampled.Strided(AudioStride(d.audioSampleRate), |filtered| / AudioStride(d.audioSampleRate));
    seq(v.size, i requires 0 <= i < v.size => AudioSample(Downsampled.Get(filtered, v, i), d.gain))
  }

  /** The audio half of `demodExecutor`: filter the discriminator output in
      place, then write `outputSize` clamped, scaled samples taken at the
      audio stride. */
  method AudioStage(d: Demodulator, fft: Fft, demod: seq<real>) returns (audio: seq<int>)
    requires d.audioLowPass.Valid() && fft.Valid() && 0 < d.audioSampleRate <= FmDownsampled
    ensures AudioStride(d.audioSampleRate) > 0 && audio == Audio(d, fft, demod)
  {
    DivLowerBound(d.audioSampleRate, 1, FmDownsampled);
    var filtered := FilterReal(d.audioLowPass, fft, demod);
    var demodDs := Downsampled.ByRate(|filtered|, FmDownsampled, d.audioSampleRate).value;
    var outputSize := |demod| / (FmDownsampled / d.audioSampleRate);
    var audio' := seq(outputSize, _ => 0);
    for i := 0 to demodDs.size
      invariant |audio'| == outputSize
      invariant forall j | 0 <= j < i :: audio'[j] == AudioSample(Downsampled.Get(filtered, demodDs, j), d.gain)
    {
      audio' := audio'[i := AudioSample(Downsampled.Get(filtered, demodDs, i), d.gain)];
    }
    assert demodDs == Downsampled.Strided(AudioStride(d.audioSampleRate), |filtered| / AudioStride(d.audioSampleRate));
    audio := audio';
  }

  /** `demodExecutor` up to the callback. The faults come in the order the
      source meets them: a sample rate below the intermediate rate makes the
      first stride zero; an audio rate of zero or above the intermediate
      rate makes the second; an input shorter than one stride leaves
      `downsampledSize - 1` to wrap around; a zero sample after the first
      makes a discriminator denominator zero. Otherwise the audio buffer is
      `outputSize` long and every slot is the clamped, scaled sample of the
      filtered discriminator output at the audio stride. */
  method DemodExecutor(d: Demodulator, fft: Fft, data: seq<Complex>) returns (r: Result<seq<int>>)
    requires d.audioLowPass.Valid() && fft.Valid()
    ensures InputStride(d.sampleRate) == 0 ==> r == Err(DivisionByZero)
    ensures InputStride(d.sampleRate) > 0 && (d.audioSampleRate == 0 || d.audioSampleRate > FmDownsampled) ==>
              r == Err(DivisionByZero)
    ensures (InputStride(d.sampleRate) > 0 && 0 < d.audioSampleRate <= FmDownsampled &&
             |data| < InputStride(d.sampleRate)) ==> r == Err(SizeUnderflow)
    ensures Demodulable(d.sampleRate, d.audioSampleRate, |data|) ==>
              var s := InputStride(d.sampleRate);
              (r.Ok? <==> forall i | 1 <= i < |data| / s :: data[i * s] != Zero) &&
              (r.Err? ==> r.fault == NonFinite)
    ensures r.Ok? ==> Demodulable(d.sampleRate, d.audioSampleRate, |data|)
    ensures r.Ok? ==> |r.value| == (|data| / InputStride(d.sampleRate) - 1) / AudioStride(d.audioSampleRate)
    ensures r.Ok? ==> forall i | 0 <= i < |r.value| :: Int16Min <= r.value[i] <= Int16Max
    ensures r.Ok? ==>
              var xs := Downsampled.View(data, Downsampled.Strided(InputStride(d.sampleRate), |data| / InputStride(d.sampleRate)));
              |xs| > 0 && (forall i | 1 <= i < |xs| :: xs[i] != Zero) &&
              r.value == Audio(d, fft, Discriminated(xs))
  {
    var stride := d.sampleRate / FmDownsampled;
    if stride == 0 {
      return Err(DivisionByZero);
    }
    var downsampledSize := |data| / stride;
    if d.audioSampleRate > 0 {
      QuotientPositive(FmDownsampled, d.audioSampleRate);
    }
    if d.audioSampleRate == 0 || FmDownsampled / d.audioSampleRate == 0 {
      return Err(DivisionByZero);
    }
    QuotientPositive(|data|, stride);
    if downsampledSize == 0 {
      return Err(SizeUnderflow);
    }
    InputViewCoversDemodBuffer(|data|, d.sampleRate);
    var dataDs := Downsampled.ByRate(|data|, d.sampleRate, FmDownsampled).value;
    assert dataDs == Downsampled.Strided(InputStride(d.sampleRate), |data| / InputStride(d.sampleRate));
    var demod := Discriminate(data, dataDs);
    assert forall i | 1 <= i < dataDs.size :: Downsampled.Get(data, dataDs, i) == data[i * stride];
    if demod.Err? {
      return Err(NonFinite);
    }
    var audio := AudioStage(d, fft, demod.value);
    return Ok(audio);
  }

  /** A tuner buffer of 16384 bytes (8192 IQ samples) at 2,400,000 samples
      per second with 44,100 Hz audio: 819 decimated samples, 818
      discriminator outputs and 163 audio samples. Neither filter has a
      block to process at these sizes, because each block must end before
      the last sample: 8192 samples against N = 8192, and 818 against
      N = 4096. */
  lemma ExampleBufferSizes()
    ensures InputStride(2400000) == 10 && 8192 / InputStride(2400000) == 819
    ensures AudioStride(44100) == 5 && (819 - 1) / AudioStride(44100) == 163
    ensures Demodulable(2400000, 44100, 8192)
    ensures BlockCount(8192, 8192) == 0 && BlockCount(818, 4096) == 0
  {
  }
}
