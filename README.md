# mozu signal-processing core in Dafny

mozu is an audio feature-extraction library for Elixir, implemented in C++. This project models its numeric core and proves properties of that model:

- **Framing** (`to_frames`, module `Frames`): cuts a wave into frames of `window` samples, one every `hop` samples. It can do this plainly or centred. Centred frames use reflect padding at both edges.
- **Evenly spaced grids** (`_linspace`, module `NpyUtils`).
- **Mel scales** (module `MelScale`): the selection of a scale by name, and the Hz↔mel conversions of the HTK, Kaldi and Slaney scales.
- **Mel filter bank** (`_create_triangular_filter_bank` and the computation of `mel_filter_bank`, module `FilterBank`): a row-major matrix of triangular filters with optional Slaney area normalisation. The normalisation is done in place on a buffer.
- **Spectrum** (`dft` and `fft`, module `Fft`): a direct discrete Fourier transform and a recursive radix-2 Cooley-Tukey transform. The recursive one falls back to the direct one for odd lengths.

Two helper modules hold shared definitions:

- `CInt`: C++ truncating integer division and loop iteration counts.
- `Matrix`: row-major flattening of a sequence of rows.

The model follows the C++ code:

- Each loop that builds a vector with `push_back` is a method with a `while` or `for` loop. The vector is a `seq` that the loop extends.
- The in-place Slaney normalisation and the butterfly output of `fft` work on an `array<real>`.
- Each method is proved equal to a specification function (`PlainFrames`, `CentredFrames`, `Grid`, `BankRows`, `Bank`, `DftSpec`, `FftSpec`). Lemmas state what those functions mean.
- `double` and `float` are modelled as `real`.
- The C library's `log10`, `log`, `exp`, `pow`, `cos` and `sin` are not interpreted. They are fields of the parameter records `MelScale.Math` and `Fft.Trig`. The proofs rely only on the exact values `log10(1) = 0`, `log(1) = 0`, `exp(0) = 1`, `pow(10, 0) = 1`, `log(6.4) > 0`, `cos(0) = 1` and `sin(0) = 0`.

Where the code decides a detail, the model follows the code:

- The centred half window is `int((window - 1) / 2) + 1`. This is one sample more than `window / 2` for odd windows.
- The reflect padding at the front does not repeat the first sample: position `-1` reads sample `1`.
- The padding at the rear does repeat the last sample: position `len` reads sample `len - 1`.
- The centred mode emits `ceil(len / hop)` frames, one for every start offset inside the wave.
- The FFT-bin grid of `mel_filter_bank` ends at the integer `int(sampling_rate / 2)`, not at half the sampling rate as a real number.
- Normalisation happens only when `norm` is set and the scale is Slaney.

## Model

| member | source | states |
|---|---|---|
| CInt.TruncDiv | src/audio.cc:139 | C++ `int` division by a positive divisor truncates toward zero: Euclidean for non-negative dividends, and the quotient never lies beyond the dividend on the far side of zero |
| CInt.Count | src/npy_utils.h:37 | a counted `for (i = 0; i < n; i++)` loop runs `max(n, 0)` times: zero exactly when `n <= 0`, `n` otherwise |
| Frames.PlainFramesSpec | src/audio.cc:162-169 | plain framing yields `0` frames when the wave is shorter than the window, else `(len - window) / hop + 1`; frame `m` is exactly `wave[m*hop .. m*hop + window]`; every frame has `window` samples |
| Frames.PlainRows | src/audio.cc:162-169 | row `m` of the flat non-centred buffer is the wave slice at `m*hop`, and the buffer has `count * window` samples |
| Frames.PlainToFrames | src/audio.cc:161-170 | the non-centred loop returns that frame count and the concatenation of those frames; row `m` of the flat buffer is the wave slice at `m*hop` |
| Frames.PushPlainFrame | src/audio.cc:163-167 | the inner non-centred loop appends exactly `wave[src .. src + window]` to the buffer |
| Frames.HalfWindow | src/audio.cc:139 | the half window is 1 for window 0, `window/2` for even windows, `window/2 + 1` for odd ones |
| Frames.Reflect | src/audio.cc:143-156 | inside the wave a position reads itself; before the wave it mirrors around index 0 (`r + p == 0`), past the end around `len - 1/2` (`r + p == 2*len - 1`), and any position within one wave length of either end reads inside the wave |
| Frames.CentredCountSpec | src/audio.cc:141-158 | `m` is a centred frame number exactly when its start offset `m*hop` is inside the wave; every frame's start is at most the last frame's start |
| Frames.CentredFrameAt | src/audio.cc:142-155 | sample `i` of the centred frame at offset `s` reads position `p = s - half + i`: `wave[p]` inside the wave, `wave[-p]` before it, `wave[2*len - 1 - p]` after it, and always an index inside the wave |
| Frames.CentredFramesSpec | src/audio.cc:141-159 | centred framing yields `ceil(len / hop)` frames; frame `m` is the mirrored frame at offset `m*hop`; every frame has `window` samples |
| Frames.CentredRows | src/audio.cc:141-159 | row `m` of the flat centred buffer is the mirrored frame at `m*hop`, and the buffer has `count * window` samples |
| Frames.SimpleBoundsSuffice | src/audio.cc:145-152 | a half window shorter than the wave and a window no longer than the wave keep every mirrored read inside the wave |
| Frames.CentredInBoundsNeedsShortHalf | src/audio.cc:142-147 | on a non-empty wave and window, in-bounds reads force `half < len`, because the first read is at `-half` and mirrors to index `half` |
| Frames.PushCentredFrame | src/audio.cc:142-157 | the inner centred loop appends exactly the mirrored frame at offset `src` to the buffer |
| Frames.CentredToFrames | src/audio.cc:138-160 | the centred loop returns `ceil(len / hop)` frames and their concatenation; row `m` of the flat buffer is the mirrored frame at `m*hop` |
| Frames.ToFrames | src/audio.cc:121-177 | `to_frames` returns the frame count of the selected mode and a flat buffer of `count * window` samples that concatenates that mode's frames |
| Frames.PlainFramesExample | src/audio.cc:161-170 | plain frames of `1..10` with hop 2 and window 4 are `[1,2,3,4]`, `[3,4,5,6]`, `[5,6,7,8]`, `[7,8,9,10]` |
| Frames.CentredFramesExample | src/audio.cc:138-160 | centred frames of `[1,2,3,4]` with hop 3 and window 5 are `[4,3,2,1,2]` and `[1,2,3,4,4]`, showing both mirror rules |
| NpyUtils.Linspace | src/npy_utils.h:27-42 | `_linspace` returns `max(num, 0)` points; point `i` is `start + i*(stop - start)/section`, with `section` being `num - 1` with the endpoint and `num` without it; the result is the grid `Grid` |
| NpyUtils.GridShape | src/npy_utils.h:34-39 | the grid has `max(num, 0)` points and starts at `start` |
| NpyUtils.GridEndsAtStop | src/npy_utils.h:34-39 | with the endpoint and at least two points, the last point is exactly `stop` |
| NpyUtils.PointIsSteps | src/npy_utils.h:37-39 | point `i` lies `i` steps of `(stop - start)/section` from `start` |
| NpyUtils.GridSteps | src/npy_utils.h:37-39 | consecutive points differ by exactly one step |
| NpyUtils.GridIncreasing | src/npy_utils.h:37-39 | for `start < stop` the grid is strictly increasing |
| NpyUtils.GridBelowStop | src/npy_utils.h:34-39 | for `start < stop` every point is strictly below `stop` without the endpoint, and at most `stop` with it |
| NpyUtils.GridExample | src/npy_utils.h:27-42 | `linspace(0, 10, 5)` is `[0, 2.5, 5, 7.5, 10]` |
| MelScale.ScaleOfName | src/filter_bank.cc:27-42 | the atoms `htk`, `kaldi`, `slaney` select their scale and succeed; every other name fails, with `NONE` (both directions of each equivalence) |
| MelScale.ScaleNameRoundTrip | src/filter_bank.cc:36-41 | parsing a scale's name gives back that scale; a name that parses is the name of the scale it gives |
| MelScale.SlaneyLinearRoundTrip | src/filter_bank.cc:64-66 | below 1000 Hz the Slaney scale is `3x/200`, stays below 15 mel, and the inverse at lines 123-125 gives `x` back exactly; likewise in the other direction below 15 mel |
| MelScale.SlaneyBranchesMeet | src/filter_bank.cc:123-125 | both Slaney branches meet: 1000 Hz is 15 mel and 15 mel is 1000 Hz by either formula, in both directions |
| MelScale.Hz2Mel | src/filter_bank.cc:56-78 | one conversion per selectable scale (HTK, Kaldi, Slaney, with Slaney split at 1000 Hz); every scale maps 0 Hz to 0 mel, and Slaney stays below 15 mel under 1000 Hz and is 15 mel at 1000 Hz |
| MelScale.Mel2Hz | src/filter_bank.cc:115-137 | one conversion per selectable scale (HTK, Kaldi, Slaney, with Slaney split at 15 mel); every scale maps 0 mel to 0 Hz, and Slaney stays below 1000 Hz under 15 mel and is 1000 Hz at 15 mel |
| MelScale.Hz2MelSeq | src/filter_bank.cc:80-88 | the array `_hz2mel` keeps the length and converts each position with the scalar conversion |
| MelScale.Mel2HzSeq | src/filter_bank.cc:139-147 | the array `_mel2hz` keeps the length and converts each position with the scalar conversion |
| MelScale.SlaneyLinearSeqRoundTrip | src/filter_bank.cc:80-88 | an array of frequencies below 1000 Hz comes back unchanged from Slaney `_mel2hz(_hz2mel(...))` |
| FilterBank.Differences | src/filter_bank.cc:209-212 | `diff` has `max(cols - 1, 0)` entries, entry `k` being `filter_freqs[k+1] - filter_freqs[k]` |
| FilterBank.SlopeMatrix | src/filter_bank.cc:214-218 | `slopes` is the row-major matrix with `filter_freqs[j] - fft_freqs[i]` at `(i, j)` |
| FilterBank.WeightFromSlopes | src/filter_bank.cc:224-226 | the weight computed from `diff` and row `r` of the flat `slopes` matrix is bank entry `(r, c)`, and both divisors are non-zero |
| FilterBank.PushWeightRow | src/filter_bank.cc:222-229 | one pass of the row loop appends row `i` of the triangular bank |
| FilterBank.CreateTriangularFilterBank | src/filter_bank.cc:202-232 | the result has `rows * max(cols - 2, 0)` entries and is the flattened bank whose entry `(i, j)` is the clipped triangle weight of filter `j` at frequency `i` |
| FilterBank.WeightNonNegative | src/filter_bank.cc:224-226 | every triangle weight is at least 0 |
| FilterBank.Weight | src/filter_bank.cc:224-226 | the clipped triangle: non-negative, and when positive it is the smaller of the rising edge `(x - lo)/(mid - lo)` and the falling edge `(hi - x)/(hi - mid)` |
| FilterBank.WeightPeak | src/filter_bank.cc:224-226 | with increasing corners, a weight is at most 1, and it is 1 exactly at the middle corner |
| FilterBank.WeightSupport | src/filter_bank.cc:224-226 | with increasing corners, a weight is positive exactly strictly between the outer corners, and 0 at or beyond them |
| FilterBank.NeighboursSumToOne | src/filter_bank.cc:224-226 | between two neighbouring peaks, the falling edge of one filter and the rising edge of the next add up to 1 |
| FilterBank.EntryProperties | src/filter_bank.cc:220-229 | every bank entry is non-negative; with increasing boundaries it is at most 1, it is 1 exactly at the filter's centre, and it is 0 outside the filter's base |
| FilterBank.SlaneyFactors | src/filter_bank.cc:277-280 | `enorm` has `max(num_mel, 0)` entries, entry `j` being `2 / (filter_freqs[j+2] - filter_freqs[j])` |
| FilterBank.NormalisedArea | src/filter_bank.cc:277-280 | with increasing boundaries the factor is positive, a normalised triangle has unit area (peak times half its base is 1), and normalised weights stay non-negative |
| FilterBank.ScaleRow | src/filter_bank.cc:284-286 | the inner loop multiplies the `num_mel` entries of one row by `enorm` in place and leaves the rest of the buffer unchanged |
| FilterBank.ScaleBin | src/filter_bank.cc:283-288 | one pass of the row loop scales the row at `i * num_mel`, extending the scaled part of the buffer by one row |
| FilterBank.ScaleInPlace | src/filter_bank.cc:282-289 | the row loop turns the buffer holding the bank into the bank with column `j` multiplied by `enorm[j]` |
| FilterBank.FilterFreqs | src/filter_bank.cc:265-272 | the filter boundaries are `num_mel + 2` points, giving `num_mel` triangles |
| FilterBank.FftFreqs | src/filter_bank.cc:266-269 | the FFT-bin frequencies are `num_bins` points |
| FilterBank.Bank | src/filter_bank.cc:274-290 | the (optionally normalised) bank has one row per FFT bin and `num_mel` entries per row |
| FilterBank.MelFilterBank | src/filter_bank.cc:265-290 | `mel_filter_bank` returns `num_bins * num_mel` values: the flattened bank over the two grids, sharing one domain, normalised exactly when `norm` is set and the scale is Slaney |
| FilterBank.NoFiltersDefined | src/filter_bank.cc:276-289 | with `num_mel <= -2` (and `num_bins != 1`), a normalised Slaney call meets the precondition: there are no filters, so no factor is divided |
| FilterBank.NormalisedRowsAt | src/filter_bank.cc:282-289 | entry `(i, j)` of the column-scaled bank is the triangle weight times `2 / (f[j+2] - f[j])` |
| FilterBank.BankEntry | src/filter_bank.cc:274-290 | flat entry `i*num_mel + j` is the triangle weight, multiplied by its Slaney factor (whose divisor is non-zero) when normalising; with increasing boundaries it is non-negative |
| Fft.DftAt | src/fft.h:33-45 | bin `k` of the direct transform is at positions `2k` (the cosine sum) and `2k + 1` (minus the sine sum) |
| Fft.Dft | src/fft.h:27-48 | `dft` returns `2N` values, equal to the direct transform `DftSpec` bin by bin |
| Fft.DftBinZero | src/fft.h:33-45 | the direct transform's bin 0 is the sum of the samples, with imaginary part 0 |
| Fft.Split | src/fft.h:71-79 | the split loop puts the even-indexed samples in `even` and the odd-indexed ones in `odd`, in order |
| Fft.SplitRoundTrip | src/fft.h:71-79 | an even-length input is the interleaving of its two halves, each of length `N/2`; splitting an interleaving gives back both sequences |
| Fft.SplitSnoc | src/fft.h:73-78 | appending a sample extends the half picked by the parity of its index |
| Fft.SplitSum | src/fft.h:71-79 | the two halves together sum to the whole input |
| Fft.ButterflyFour | src/fft.h:86-97 | butterfly `k` sits at positions `2k`, `2k + 1` (even bin plus the rotated odd bin) and `N + 2k`, `N + 2k + 1` (even bin minus the rotated odd bin), with the twiddle factor `cos θ - i sin θ` |
| Fft.WriteButterfly | src/fft.h:85-98 | one pass of the butterfly loop writes butterfly `k` into its four positions and leaves every other position unchanged |
| Fft.WrittenIsButterfly | src/fft.h:84-98 | a `2N` buffer holding every butterfly in its four positions is the butterfly output |
| Fft.Combine | src/fft.h:84-98 | the butterfly loop fills a fresh `2N` buffer with the butterfly of the two half spectra |
| Fft.ButterflySymmetry | src/fft.h:93-97 | the two outputs of a butterfly sum to twice the even bin, and differ by twice the odd bin rotated by the twiddle factor |
| Fft.FftSpec | src/fft.h:59-102 | the recursive transform of a non-empty input has `2N` values |
| Fft.Fft | src/fft.h:59-102 | `fft` returns `2N` values: `[x0, 0]` for one sample, the direct transform for odd lengths above 1, and `FftSpec` always |
| Fft.FftEven | src/fft.h:69-98 | for even lengths the recursive transform is the butterfly of the two halves' transforms, each half holding `N/2` samples |
| Fft.ButterflyBinZero | src/fft.h:85-92 | butterfly 0 (twiddle angle 0) adds the two half spectra's bin 0 |
| Fft.FftBinZero | src/fft.h:59-102 | the recursive transform's bin 0 is the sum of the samples with imaginary part 0, and agrees with the direct transform's bin 0 |
| Fft.FftPair | src/fft.h:59-102 | two samples `a`, `b` transform to `[a + b, 0, a - b, 0]` |

## Left out

- WAV loading and saving (`wav_load`, `wav_save` and the dr_wav library) are not modelled. They are file I/O.
- The NIF entry points are not modelled: argument decoding, `badarg` replies and result encoding. This covers the `hz2mel`, `mel2hz`, `linspace`, `to_frames`, `fft` and `mel_filter_bank` wrappers. They are marshalling between the BEAM and C++.
- `fft.cc`, `npy_util.cc` and `filter_bank.h` are not part of this model.
- `enif_get_mel_scale` reads the atom into a 16-byte buffer, so longer atoms fail to decode. The model takes the decoded name as given.
- Floating point is modelled as real arithmetic. Rounding, overflow, infinities and not-a-number values are not modelled.
- `to_frames` reads samples as `float`, and everything else uses `double`. The model makes framing generic in the sample type.
- The numeric values of `log10`, `log`, `exp`, `pow`, `cos` and `sin` are not modelled; they are parameters. Consequently, round trips through the logarithmic branches are not stated.
- Frames.ToFrames: requires `hop >= 1`. With `hop <= 0` the C++ loops never advance or step backwards whenever they start. The requirement also excludes the `hop <= 0` calls whose loop never starts and which return 0 frames in the C++: a centred call on an empty wave, and a plain call with `window > len`.
- Frames.ToFrames: the window is a natural number. With a negative window the C++ counts frames but copies no samples into them; the model does not cover that case.
- Frames.ToFrames: in centred mode requires `CentredInBounds`. This ensures that every mirrored read is inside the wave. The C++ does not check this and reads outside the vector otherwise.
- NpyUtils.Linspace: excludes `endpoint` with `num == 1`, where the C++ divides by zero.
- MelScale.Hz2Mel: has no case for `NONE`, where `_fn_hz2mel` returns an empty function that throws when called. The same holds for MelScale.Mel2Hz.
- FilterBank.MelFilterBank: requires `MelBankDefined`. This excludes the inputs for which the C++ divides by zero:
  - `num_bins == 1`;
  - `num_mel == -1`;
  - equal neighbouring filter boundaries;
  - equal boundaries two apart among the first `num_mel` filters when normalising.

  The requirement on neighbouring boundaries also excludes calls with `num_bins <= 0` and no normalisation. The C++ performs no slope division there, because the bank has no rows.
- FilterBank.MelFilterBank: with normalisation and `num_mel <= -2` the model returns the empty bank the C++ computes. With `num_bins >= 1` the C++ row cursor then steps backwards by `num_mel` per row without reading or writing; the model has no pointer and does not capture that step.
- Fft.Fft: requires a non-empty input. For an empty input the C++ recurses without end.
- Fft.FftBinZero: the equality of the recursive and direct transforms is proved only for bin 0 (and for two samples in Fft.FftPair). The general equality needs trigonometric identities that a parameter `Trig` does not provide.
