# fm-demod in Dafny

A Dafny model of the core of `fm-demod`, a C++ FM broadcast demodulator
that turns 8-bit IQ samples from an RTL-SDR tuner into 16-bit audio. The
program runs three single-worker stages, each a `DataProcessingThreadPool`:

- **transform** turns byte pairs into complex samples centred on the ADC
  midpoint;
- **filter** runs a 100 kHz FFT low-pass (`LowPass<Complex>`, blocks of 8192);
- **demod** decimates to 220500 Hz with a `DownsampledBufferAccessor`,
  applies the polar discriminator, runs a 20 kHz low-pass
  (`LowPass<double>`, blocks of 4096), decimates to the audio rate and
  clamps to `int16`.

The model covers the parts whose correctness is about indices, sizes and
exact arithmetic:

- `DataBuffer` ownership (module `Buffers`);
- the `Complex` operators over exact reals (`ComplexMath`);
- the strided accessors (`Downsampled`), which cover both
  `DownsampledBufferAccessor` and `DownsampledVectorAccessor`;
- the nearest-neighbour accessor (`Interpolated`);
- the coefficient layout and block schedule of `LowPass` (`LowPassFilter`);
- the queue discipline of the thread pool as a sequential state machine
  (`ThreadPool`);
- the demodulator's executors and setters (`FmDemod`).

Some of the places where the C++ program crashes or has undefined
behaviour return a named outcome in the model: `Err(DivisionByZero)`,
`Err(SizeUnderflow)`, `Err(OutOfRange)` or `Err(NonFinite)` (module
`Faults`). These are the accessor constructors, the vector accessor's `at`,
`transformExecutor` on an odd length, and the demodulation path of
`demodExecutor`. Unchecked element accesses and divisions elsewhere become
preconditions instead, and are listed under "## Left out": indices past
`size()`, a short source array, a zero complex or scalar divisor, N == 0
and a zero sample rate.

Facts the proofs bring out about the program as written:

- Both `filter` overloads process a block only while `offset + N < size`.
  A buffer of exactly N samples is therefore not filtered at all. For a
  16384-byte buffer at 2.4 MHz, neither filter has a block to
  process: 8192 samples against N = 8192, and 818 discriminator outputs
  against N = 4096 (`FmDemod.ExampleBufferSizes`).
- The interpolating accessor picks the nearest element. Its comment calls
  this linear interpolation. When upsampling it can index one past the
  end.
- With more than one worker, a pool can hand items to the executor out of
  order. Each stage uses one worker, and one worker is FIFO.
- The thread pool's queue bound of 25 is never enforced.
- `DownsampledVectorAccessor` calls `data._size()`, which `std::vector`
  does not have. It is read here as `data.size()`.

## Model

| member | source | states |
|---|---|---|
| `Buffers.NewBuffer` | include/DataBuffer.h:17-19 | the size constructor yields a buffer of exactly `size` elements in storage that no live buffer owned before; every array that existed before keeps its contents |
| `Buffers.FromPointer` | include/DataBuffer.h:20-23 | the pointer constructor copies the first `size` source elements element by element into fresh storage; the source must hold at least `size` elements; every array that existed before keeps its contents |
| `Buffers.Copy` | include/DataBuffer.h:24-27 | the copy has the same size and the same elements as the original, in storage at a different address; the original and every other existing array are left as they were |
| `Buffers.CopyIsIndependent` | include/DataBuffer.h:24-27 | writing an element of a copy leaves the original's elements unchanged and changes just that element of the copy |
| `Buffers.Move` | include/DataBuffer.h:28-32 | structural: the moved-to buffer takes the source's pointer and size; the source is left null with size 0; that ownership really passes is stated by `Buffers.MoveTransfersOwnership` |
| `Buffers.MoveTransfersOwnership` | include/DataBuffer.h:28-35 | destroying a moved-from buffer releases nothing: the new owner still owns the same elements |
| `Buffers.Destroy` | include/DataBuffer.h:33-35 | the destructor releases exactly the owned array (nothing for null); every other array stays as it was |
| `Buffers.Get` | include/DataBuffer.h:42-44 | reading needs an index below `size()`, and the value read is element `index` of the buffer's contents |
| `Buffers.SetThenGet` | include/DataBuffer.h:42-44 | after writing index i, reading index j gives the written value when j == i and the old element otherwise |
| `Buffers.Set` | include/DataBuffer.h:42-44 | writing index k sets element k, leaves every other element of every array unchanged, and keeps the size |
| `ComplexMath.Complex.MagnitudeSquared` | include/Complex.h:98-100 | re² + im² is never negative and is zero exactly for the zero number |
| `ComplexMath.Complex.Scale` | include/Complex.h:16-20 | dividing the scaled number by the same nonzero factor gives the original back |
| `ComplexMath.Complex.DivScalar` | include/Complex.h:28-32 | multiplying the quotient's components by the divisor gives the original back |
| `ComplexMath.Complex.Mul` | include/Complex.h:42-46 | the product's squared magnitude is the product of the squared magnitudes |
| `ComplexMath.Complex.Div` | include/Complex.h:57-62 | for a nonzero divisor, quotient times divisor is the dividend |
| `ComplexMath.Complex.Add` | include/Complex.h:70-74 | subtracting the addend componentwise from the sum gives the original back |
| `ComplexMath.Complex.Sub` | include/Complex.h:82-86 | a - b equals a + (-b) |
| `ComplexMath.Complex.Neg` | include/Complex.h:88-92 | a + (-a) is zero |
| `ComplexMath.ScaleAssign` | include/Complex.h:10-14 | `*=` by a scalar leaves the same value as the binary `*` |
| `ComplexMath.DivScalarAssign` | include/Complex.h:22-26 | `/=` by a nonzero scalar leaves the same value as the binary `/` |
| `ComplexMath.MulAssign` | include/Complex.h:34-40 | `*=` computes both parts from the old value (through temporaries), matching the binary `*` |
| `ComplexMath.DivAssign` | include/Complex.h:48-55 | `/=` computes both parts from the old value, matching the binary `/` |
| `ComplexMath.AddAssign` | include/Complex.h:64-68 | `+=` matches the binary `+` |
| `ComplexMath.SubAssign` | include/Complex.h:76-80 | `-=` matches the binary `-` |
| `ComplexMath.MulCommutes` | include/Complex.h:42-46 | complex multiplication commutes |
| `ComplexMath.MulDivRoundTrip` | include/Complex.h:57-62 | (a * b) / b == a for every nonzero b |
| `ComplexMath.ScaleRoundTrip` | include/Complex.h:16-32 | (a * s) / s == a for every nonzero real s |
| `Downsampled.BySize` | include/DownsampledBufferAccessor.h:16-19 | succeeds exactly when 0 < newSize <= len (otherwise a division by zero); the stride is floor(len / newSize) and the view's size is floor(len / stride) |
| `Downsampled.ByRate` | include/DownsampledBufferAccessor.h:20-25 | succeeds exactly when 0 < downsampledRate <= originalRate; the stride is floor(originalRate / downsampledRate) and the size is floor(len / stride) |
| `Downsampled.Get` | include/DownsampledBufferAccessor.h:115-120 | view element i is buffer element i * stride, which lies inside the buffer for every i below the view's size |
| `Downsampled.Put` | include/DownsampledBufferAccessor.h:115-117 | writing view element i changes buffer element i * stride and no other |
| `Downsampled.At` | include/DownsampledVectorAccessor.h:101-106 | `at` fails exactly when i * stride is past the end of the vector, and otherwise returns that element |
| `Downsampled.View` | include/DownsampledBufferAccessor.h:115-129 | the view read in order has `size()` = floor(len / stride) elements, element i being buffer element i * stride, which is always inside the buffer |
| `Downsampled.EveryIndexInBounds` | include/DownsampledBufferAccessor.h:115-129 | every view index below `size()` maps inside the buffer |
| `Downsampled.ViewAfterPut` | include/DownsampledBufferAccessor.h:115-120 | writing view element i through `operator[]` changes the whole view in slot i only, to the written value |
| `Downsampled.InBounds` | include/DownsampledBufferAccessor.h:17-24 | with size = floor(len / stride), every view index maps inside the buffer |
| `Downsampled.SizeAtLeastRequested` | include/DownsampledBufferAccessor.h:16-19 | the size constructor's view has at least the requested number of elements, and exactly that many when it divides the length |
| `Downsampled.StrideOneIsIdentity` | include/DownsampledBufferAccessor.h:115-129 | a stride-1 view is the buffer itself |
| `Downsampled.AtAgreesWithGet` | include/DownsampledVectorAccessor.h:101-113 | within the view, `at` succeeds and agrees with `operator[]` |
| `Downsampled.PutThenGet` | include/DownsampledBufferAccessor.h:115-120 | after writing view element i, reading view element j gives the written value when j == i and the old value otherwise |
| `Downsampled.DistinctIndices` | include/DownsampledBufferAccessor.h:115-117 | distinct view indices map to distinct buffer indices |
| `Interpolated.BySize` | include/InterpolatedBufferAccessor.h:16-19 | structural: the size constructor keeps the buffer's length as `originalSize` and the requested size as the view's size; what this means for reads is stated by `Interpolated.BySizeReadsInBounds` |
| `Interpolated.BySizeReadsInBounds` | include/InterpolatedBufferAccessor.h:16-19 | a view made by the size constructor with no more elements than the buffer maps every view index inside the buffer |
| `Interpolated.OriginalIndex` | include/InterpolatedBufferAccessor.h:159-161 | `getOriginalIndex(i)` is the integer nearest to i * originalSize / size, halves rounded up |
| `Interpolated.InterpolatedIndex` | include/InterpolatedBufferAccessor.h:155-157 | `getInterpolatedIndex(j)` is the integer nearest to j * size / originalSize, halves rounded up |
| `Interpolated.RoundDiv` | include/InterpolatedBufferAccessor.h:155-161 | `std::round` of a non-negative ratio p/q: the result r satisfies r - 1/2 <= p/q < r + 1/2 |
| `Interpolated.ByRate` | include/InterpolatedBufferAccessor.h:21-27 | succeeds exactly when the original rate is nonzero; the size is the rounded value of downsampledRate * len / originalRate |
| `Interpolated.Get` | include/InterpolatedBufferAccessor.h:129-135 | view element i is the one buffer element k whose position is nearest to i * factor (no interpolation) |
| `Interpolated.Put` | include/InterpolatedBufferAccessor.h:129-131 | writing view element i changes exactly buffer element round(i * factor) |
| `Interpolated.RoundDivUnique` | include/InterpolatedBufferAccessor.h:155-161 | the rounding is determined by its bracket: any r with r - 1/2 <= p/q < r + 1/2 is the rounded value |
| `Interpolated.OriginalIndexZero` | include/InterpolatedBufferAccessor.h:159-161 | view index 0 maps to buffer index 0 |
| `Interpolated.OriginalIndexMonotone` | include/InterpolatedBufferAccessor.h:159-161 | the index mapping never goes backwards |
| `Interpolated.DownsamplingInBounds` | include/InterpolatedBufferAccessor.h:129-135 | when the view is no longer than the buffer, every view index maps inside the buffer |
| `Interpolated.SameSizeIsIdentity` | include/InterpolatedBufferAccessor.h:16-19 | a view as long as its buffer maps every index to itself, both ways |
| `Interpolated.IndexRoundTrip` | include/InterpolatedBufferAccessor.h:155-161 | when downsampling, getInterpolatedIndex(getOriginalIndex(i)) == i |
| `Interpolated.UpsamplingReadsPastEnd` | include/InterpolatedBufferAccessor.h:129-131 | a one-element buffer viewed as two elements maps view index 1 to buffer index 1, past the end |
| `LowPassFilter.GenerateCoefficients` | include/LowPass.h:109-115 | the real coefficients have length N: logistic(i, 1, fftIndex) below N/2 and zero from N/2 on |
| `LowPassFilter.GenerateComplexCoefficients` | include/LowPass.h:117-128 | the complex coefficients have length N, agree with the logistic curve below N/2, are mirror-symmetric (c[i] == c[N-1-i]), and for odd N the middle one is zero |
| `LowPassFilter.NewLowPass` | include/LowPass.h:25-29 | both coefficient vectors have length N and agree with the logistic curve below N/2; the real vector's upper half is zero; the complex vector is mirror-symmetric with a zero middle for odd N |
| `LowPassFilter.BuiltIsUnique` | include/LowPass.h:25-29 | the constructor's description determines the filter: two filters built from the same frequency, N and sample rate are equal |
| `LowPassFilter.ScaleComplexBins` | include/LowPass.h:47-50 | the complex filter multiplies both parts of bin i by c[i] |
| `LowPassFilter.ScaleRealBins` | include/LowPass.h:80-82 | the real filter multiplies only the real part of bin i by c[i] and leaves the imaginary part as it was |
| `LowPassFilter.ComplexBlock` | include/LowPass.h:42-59 | a complex block is transformed, scaled bin by bin, transformed back and divided by N: the output times N is the unnormalised inverse transform |
| `LowPassFilter.RealBlock` | include/LowPass.h:76-90 | the same for a real block, with the real-to-complex transform pair and the real coefficients |
| `LowPassFilter.BlockCountSpec` | include/LowPass.h:41-62 | block k is processed exactly when k*N + N < size, so there are floor((size-1)/N) blocks |
| `LowPassFilter.SingleBlockUnfiltered` | include/LowPass.h:41 | a buffer of exactly N samples has no block to filter |
| `LowPassFilter.ProcessedIsBlocks` | include/LowPass.h:41-62 | advancing one block at a time while a block and at least one more sample remain covers exactly BlockCount * N samples |
| `LowPassFilter.BlockedFiltersBlocks` | include/LowPass.h:41-62 | after the schedule, processed block k is the block function applied to input block k, even though earlier blocks were overwritten in place first |
| `LowPassFilter.BlockedKeepsTail` | include/LowPass.h:41-66 | after the schedule, every sample from BlockCount * N on is the input sample |
| `LowPassFilter.ApplyBlocks` | include/LowPass.h:36-66 | the in-place loop over offsets 0, N, 2N, ... keeps the length, leaves each processed block as the block function of the same input block, and leaves the samples from BlockCount * N on untouched |
| `LowPassFilter.FilterComplex` | include/LowPass.h:34-66 | `filter` on complex data keeps the length, filters each complete block before the last sample, and leaves the rest untouched |
| `LowPassFilter.FilterReal` | include/LowPass.h:68-97 | the same for real data |
| `ThreadPool.NewPool` | include/DataProcessingThreadPool.h:26-33 | a new pool has an empty queue, is running, and has `Size` workers at the top of their loop |
| `ThreadPool.Process` | include/DataProcessingThreadPool.h:63-98 | each `process` overload appends exactly one entry at the back, keeps the earlier entries in order, and changes nothing else |
| `ThreadPool.Clear` | include/DataProcessingThreadPool.h:103-109 | `clear` empties the queue and changes nothing else |
| `ThreadPool.Shutdown` | include/DataProcessingThreadPool.h:35-49 | the destructor empties the queue and clears `running`; workers and executed items are unchanged |
| `ThreadPool.Step` | include/DataProcessingThreadPool.h:111-130 | at the loop head a worker always moves, to waiting if the pool runs and to exited otherwise; a waiting worker moves exactly when the queue is non-empty, and then takes the front entry; a worker holding an entry calls the executor on it unless it is null and returns to the loop head; an exited worker never moves; no other worker changes |
| `ThreadPool.SingleWorkerIsFifo` | include/DataProcessingThreadPool.h:116-126 | with one worker and no `clear`, the executed items followed by the held and queued items are exactly the non-null submitted items, in order; so the executor sees a prefix of the submissions |
| `ThreadPool.ApplyExtendsPending` | include/DataProcessingThreadPool.h:63-130 | a `process` call adds its item at the back of the pending items and a worker step keeps them; a `clear` keeps exactly the executed and held items |
| `ThreadPool.ApplyKeepsOrder` | include/DataProcessingThreadPool.h:63-130 | every action, `clear` included, leaves the pending items a subsequence of the old ones followed by what it submits |
| `ThreadPool.SingleWorkerNeverReorders` | include/DataProcessingThreadPool.h:103-130 | with one worker, under any mix of `process`, worker steps and `clear`, the pending items are the submitted ones with some deleted, never reordered |
| `ThreadPool.ExecutedInSubmissionOrder` | include/DataProcessingThreadPool.h:103-130 | hence the executor sees the items it runs in submission order, `clear` or not |
| `ThreadPool.TwoWorkersCanReorder` | include/DataProcessingThreadPool.h:114-127 | with two workers, an interleaving exists in which the executor sees b before a although a was submitted first |
| `ThreadPool.CheckQueueLimits` | include/DataProcessingThreadPool.h:141-147 | `checkQueueLimits` returns before its trimming loop, so the queue comes back unchanged and no entry is dropped |
| `ThreadPool.QueueIsUnbounded` | include/DataProcessingThreadPool.h:141-147 | after any number of submissions the queue has grown by exactly that number |
| `ThreadPool.QueueExceedsSoftBound` | include/DataProcessingThreadPool.h:141-147 | 26 submissions leave more than `QueueMaxSize` = 25 entries queued |
| `ThreadPool.ShutdownLeavesParkedWorkerBlocked` | include/DataProcessingThreadPool.h:114-118 | after shutdown, a worker that was waiting stays waiting and can never move, whatever other workers do |
| `ThreadPool.StepFixed` | include/DataProcessingThreadPool.h:114-118 | with the corrected wait, a waiting worker can move when the queue is non-empty or the pool is stopped, and it exits on an empty stopped pool |
| `ThreadPool.StoppedStaysStopped` | include/DataProcessingThreadPool.h:111-130 | with the corrected wait, once the queue is empty and the pool stopped, no sequence of worker steps refills the queue or restarts the pool |
| `ThreadPool.ShutdownStopsEveryWorkerFixed` | include/DataProcessingThreadPool.h:35-56 | with the corrected wait, after shutdown and any interleaving of steps of any workers, each worker exits within two more of its own steps, so every join returns |
| `FmDemod.TruncateTowardZero` | include/FmDemodulator.h:78 | the `int16_t` cast drops the fraction toward zero |
| `FmDemod.CoerceToInt16` | include/FmDemodulator.h:73-79 | the result lies in [-32768, 32767]; inputs at or above 32767 give 32767 and inputs at or below -32768 give -32768; values in between are truncated toward zero |
| `FmDemod.CoerceKeepsInt16` | include/FmDemodulator.h:76-78 | an integer in range comes back unchanged |
| `FmDemod.CoerceIsMonotone` | include/FmDemodulator.h:76-78 | x <= y implies coerce(x) <= coerce(y) |
| `FmDemod.Transform` | src/FmDemodulator.cpp:34-48 | an odd byte count reads and writes past the end; for an even count the result has len/2 samples that interleave back to the bytes minus 128, each component in [-128, 127] |
| `FmDemod.TransformFixed` | src/FmDemodulator.cpp:39-45 | with the guard `i + 1 < size` the trailing odd byte is dropped and the samples interleave back to the centred bytes before it |
| `FmDemod.Discriminator` | src/FmDemodulator.cpp:81-82 | the output times the denominator re² + im² of the current sample is the cross term re·Δim − im·Δre of the current sample against the step from the previous one |
| `FmDemod.DiscriminatorIsPhaseStep` | src/FmDemodulator.cpp:81-82 | the discriminator expression equals Im((cur - prev) / cur) |
| `FmDemod.StillSampleHasNoStep` | src/FmDemodulator.cpp:81-82 | two equal non-zero samples give a discriminator output of zero |
| `FmDemod.Discriminated` | src/FmDemodulator.cpp:79-83 | over n samples with no zero after the first, there are n - 1 outputs, output i being the discriminator of samples i and i+1, and every denominator is non-zero |
| `FmDemod.Discriminate` | src/FmDemodulator.cpp:78-83 | the loop fails exactly when a decimated sample after the first is zero; otherwise output i is the discriminator of view elements i and i+1, and all `size - 1` slots are written |
| `FmDemod.DiscriminatedView` | src/FmDemodulator.cpp:78-83 | a buffer holding the discriminator of every consecutive pair of decimated samples is the discriminator over the whole view |
| `FmDemod.NewDemodulator` | src/FmDemodulator.cpp:5-18 | the constructor keeps the rates and the gain; builds the 100 kHz filter over blocks of 8192 at the input sample rate and the 20 kHz filter over blocks of 4096 at 220500 Hz, each exactly as the `LowPass` constructor would; and starts three fresh pools, each running with one worker and an empty queue |
| `FmDemod.StagesAreFifo` | include/FmDemodulator.h:53-67 | every stage has `TRDPOOL_SZ` = 1 worker; under any mix of `process`, worker steps and `clear` (which `setSampleRate` applies to the demod stage), the buffers it hands on are the submitted ones in submission order with the cleared ones skipped, and without a `clear` they are a prefix of the submissions |
| `FmDemod.SetSampleRate` | src/FmDemodulator.cpp:98-102 | the demod stage's queue is emptied and the rate replaced; gain, filters, the other stages and the demod workers are unchanged |
| `FmDemod.SetDigitalGain` | src/FmDemodulator.cpp:104-107 | only the gain changes |
| `FmDemod.InputViewCoversDemodBuffer` | src/FmDemodulator.cpp:72-78 | for a sample rate of at least 220500, the decimation view has stride sRate/220500 and exactly `downsampledSize` elements |
| `FmDemod.AudioViewCoversOutput` | src/FmDemodulator.cpp:73-89 | for an audio rate in (0, 220500], the audio view over the `downsampledSize - 1` discriminator outputs has exactly `outputSize` elements |
| `FmDemod.AudioSample` | src/FmDemodulator.cpp:92 | whatever the filtered sample and the gain, the audio sample lies in [-32768, 32767] |
| `FmDemod.Audio` | src/FmDemodulator.cpp:86-93 | the audio has floor(len / (220500 / audioRate)) samples, each in [-32768, 32767] |
| `FmDemod.AudioStage` | src/FmDemodulator.cpp:86-93 | filtering the discriminator output in place and then writing the clamped, scaled samples at the audio stride produces exactly the audio `Audio` describes |
| `FmDemod.DemodExecutor` | src/FmDemodulator.cpp:60-96 | division by zero when sRate < 220500 or the audio rate is 0 or above 220500; size underflow when the input is shorter than one stride; a non-finite result when a decimated sample after the first is zero; otherwise `outputSize` clamped samples of the filtered discriminator output at the audio stride, times the gain |
| `FmDemod.ExampleBufferSizes` | src/FmDemodulator.cpp:72-89 | 8192 samples at 2,400,000 Hz with 44,100 Hz audio give 819 decimated samples, 818 discriminator outputs and 163 audio samples, and neither filter processes a block |

## Left out

- FFTW plans and transforms: the transforms are abstract length-preserving functions (`LowPassFilter.Fft`). The filter's correctness as a low-pass is not stated; only its layout, schedule and scaling are.
- FFTW's real-to-complex transform yields N/2 + 1 bins, and the complex-to-real transform reads as many. The model treats both as N bins; `LowPassFilter.ScaleRealBins` scales all N.
- `logistic` and `exp`: the cutoff curve is an abstract function of (f, k, f0).
- Floating point: doubles and floats are exact reals. There is no rounding, no NaN and no infinity. `float` is not narrowed, neither in `fftIndex` nor in the gain. A zero complex denominator is reported as `Err(NonFinite)` and not carried through the filter.
- `LowPassFilter.NewLowPass`: requires a non-zero sample rate. With zero, the float division in `fftIndex` gives an infinite or NaN cutoff, for which exact reals have no value.
- `FmDemod.NewDemodulator`: requires a non-zero sample rate, for the same reason.
- `FmDemod.DemodExecutor`: a zero sample stops the model with `NonFinite`. In the program the discriminator's numerator and denominator are then both zero, so the division gives NaN; the NaN is carried through the filter, and `coerceToInt16` turns it into 32767: the comparison inside `std::min` is false for NaN, so `std::min` yields 32767, which `std::max` then keeps.
- `LowPassFilter.FilterComplex` and `LowPassFilter.FilterReal` require N > 0 (through `Valid`). With N == 0 and a non-empty buffer the program's block loop never advances its offset and never ends.
- Threads, mutexes, condition variables, `notify_*`, `pthread_create` and `pthread_join`: each worker step is one critical section. The unlocked read of `running` and the unlocked getters `getSampleRate`/`getDigitalGain` (plain field reads) are not modelled.
- The `demodulate` overloads and the forwarding from one stage to the next (`filterPool.process`, `demodPool.process`, the `demodCallback` call) are plumbing. `DemodExecutor` returns the buffer it would pass to the callback. `filterExecutor` is `FilterComplex` followed by `Process`.
- The iterators of all three accessors use raw pointer arithmetic.
- `DownsampledBufferAccessor::at` and `InterpolatedBufferAccessor::at` call a `DataBuffer::at` that does not exist. Only the vector accessor's `at` is modelled (`Downsampled.At`).
- `Complex::magnitude` needs `sqrt`, which has no exact-real counterpart.
- Integer widths: rates are natural numbers, so negative `int` rates are not modelled, nor their conversion to `unsigned`. `size_t` wrap-around is modelled only where it matters: `downsampledSize - 1` with `downsampledSize == 0` becomes `Err(SizeUnderflow)`.
- `Downsampled.At`, `Downsampled.Get` and `Downsampled.Put`: the index product `i * pointsToSkip` is an unbounded integer. The program's `size_t` product wraps for huge `i`, so `at` with such an index could pass its check where the model reports `OutOfRange`.
- `DataBuffer::get`, `memcpy` byte copying, and the indeterminate contents of `new T[size]`: elements are copied one by one, and the caller chooses the fresh contents.
- `Buffers.Get` and `Buffers.Set`: require an index below `size()`. The program does not check, and an index past the end reads or writes outside the array.
- `Buffers.FromPointer`: requires the source to hold at least `size` elements. The program copies `size` elements from the pointer regardless.
- `Downsampled.Get` and `Downsampled.Put`: require a view index below `size()`, the view's domain. The program does not check. The index `size()` still lands inside the buffer when the stride does not divide its length, and any later index lands past it.
- `Interpolated.Get` and `Interpolated.Put`: require the rounded index to lie inside the buffer. When upsampling the program does read past the end (`Interpolated.UpsamplingReadsPastEnd`).
- `ComplexMath.Complex.Div`, `ComplexMath.Complex.DivScalar`, `ComplexMath.DivAssign` and `ComplexMath.DivScalarAssign`: require a non-zero divisor. In the program a zero divisor gives infinities or NaN.
- `Interpolated.BySize` with a zero size has an infinite `factor`. The index functions require a non-zero size.
- `Math.h`'s `sqr` is x * x.

## Findings

| source | as written | input that shows it | evidently intended | confidence | as-written member | corrected member |
|---|---|---|---|---|---|---|
| include/DataProcessingThreadPool.h:114-118 | a worker waits until the queue is non-empty; the predicate ignores `running` | the destructor runs while a worker is waiting on an empty queue: the queue is emptied, `running` cleared, `notify_all` wakes the worker, the predicate is still false and it waits again, so `pthread_join` never returns | wait until the queue is non-empty or `running` is false, and leave the loop when stopped | high, not executed | `ThreadPool.ShutdownLeavesParkedWorkerBlocked` | `ThreadPool.StepFixed` |
| src/FmDemodulator.cpp:40-44 | the loop runs `i < size` in steps of 2 and reads `data[i + 1]` into `tfData[i / 2]` | a 3-byte buffer: the second iteration reads byte 3 and writes sample 1 of a 1-sample buffer | loop while `i + 1 < size`, dropping a trailing odd byte | medium, not executed | `FmDemod.Transform` | `FmDemod.TransformFixed` |
