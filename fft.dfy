/** The complex spectrum of a real signal: a direct discrete Fourier transform and a
    recursive radix-2 Cooley-Tukey transform that falls back to it for odd lengths.
    Both return `2 * N` values, the real and imaginary parts of bins `0 .. N-1`
    interleaved. Doubles are modelled as reals; `cos` and `sin` are parameters. */
module Fft {
  import opened Matrix

  /** `M_PI`, as written in the C library's header. */
  const Pi: real := 3.14159265358979323846

  /** The trigonometric functions of the C library. */
  datatype Trig = Trig(cos: real -> real, sin: real -> real)
  {
    /** The only facts about them the proofs below rely on. */
    predicate Valid()
    {
      cos(0.0) == 1.0 && sin(0.0) == 0.0
    }
  }

  // ---------------------------------------------------------------------------
  // The direct transform.
  // ---------------------------------------------------------------------------

  /** The angle `2*pi * k/N * n` of term `n` of bin `k`. */
  function DftTheta(k: nat, n: nat, size: nat): real
    requires size > 0
  {
    2.0 * Pi * (k as real) / (size as real) * (n as real)
  }

  /** The real part of bin `k` accumulated over the first `n` samples. */
  function ReSum(x: seq<real>, trig: Trig, k: nat, n: nat): real
    requires n <= |x|
  {
    if n == 0 then 0.0
    else ReSum(x, trig, k, n - 1) + x[n - 1] * trig.cos(DftTheta(k, n - 1, |x|))
  }

  /** The imaginary part of bin `k` accumulated over the first `n` samples. */
  function ImSum(x: seq<real>, trig: Trig, k: nat, n: nat): real
    requires n <= |x|
  {
    if n == 0 then 0.0
    else ImSum(x, trig, k, n - 1) - x[n - 1] * trig.sin(DftTheta(k, n - 1, |x|))
  }

  /** Bins `0 .. k-1` of the direct transform, interleaved. */
  function DftBins(x: seq<real>, trig: Trig, k: nat): (r: seq<real>)
    requires k <= |x|
    ensures |r| == 2 * k
  {
    if k == 0 then []
    else DftBins(x, trig, k - 1) + [ReSum(x, trig, k - 1, |x|), ImSum(x, trig, k - 1, |x|)]
  }

  /** The direct transform of `x`. */
  function DftSpec(x: seq<real>, trig: Trig): seq<real>
  {
    DftBins(x, trig, |x|)
  }

  /** Bin `k` of the direct transform sits at positions `2k` (real) and `2k + 1`
      (imaginary), and the transform has `2 * |x|` values. */
  lemma {:induction false} DftAt(x: seq<real>, trig: Trig, k: nat, bins: nat)
    requires k < bins <= |x|
    ensures |DftBins(x, trig, bins)| == 2 * bins
    ensures DftBins(x, trig, bins)[2 * k] == ReSum(x, trig, k, |x|)
    ensures DftBins(x, trig, bins)[2 * k + 1] == ImSum(x, trig, k, |x|)
  {
    if k < bins - 1 {
      DftAt(x, trig, k, bins - 1);
    }
  }

  /** `dft`: for each bin, the two sums accumulated over all samples, then appended. */
  method Dft(input: seq<real>, trig: Trig) returns (output: seq<real>)
    ensures |output| == 2 * |input|
    ensures output == DftSpec(input, trig)
  {
    output := [];
    var size := |input|;
    for k := 0 to size
      invariant output == DftBins(input, trig, k)
    {
      var re := 0.0;
      var im := 0.0;
      for n := 0 to size
        invariant re == ReSum(input, trig, k, n)
        invariant im == ImSum(input, trig, k, n)
      {
        var theta := DftTheta(k, n, size);
        re := re + input[n] * trig.cos(theta);
        im := im - input[n] * trig.sin(theta);
      }
      output := output + [re, im];
    }
  }

  /** The sum of a sequence, added up from the front. */
  function Sum(s: seq<real>): real
  {
    if s == [] then 0.0 else Sum(s[..|s| - 1]) + s[|s| - 1]
  }

  /** At bin 0 every angle is 0: the real part sums the first `n` samples and the
      imaginary part is 0. */
  lemma {:induction false} BinZeroSums(x: seq<real>, trig: Trig, n: nat)
    requires trig.Valid() && n <= |x|
    ensures ReSum(x, trig, 0, n) == Sum(x[..n])
    ensures ImSum(x, trig, 0, n) == 0.0
  {
    if n > 0 {
      BinZeroSums(x, trig, n - 1);
      assert x[..n][..n - 1] == x[..n - 1];
      assert DftTheta(0, n - 1, |x|) == 0.0;
    }
  }

  /** The direct transform's bin 0 is the sum of the samples, with no imaginary part. */
  lemma DftBinZero(x: seq<real>, trig: Trig)
    requires trig.Valid() && |x| >= 1
    ensures |DftSpec(x, trig)| == 2 * |x|
    ensures DftSpec(x, trig)[0] == Sum(x) && DftSpec(x, trig)[1] == 0.0
  {
    DftAt(x, trig, 0, |x|);
    BinZeroSums(x, trig, |x|);
    assert x[..|x|] == x;
  }

  // ---------------------------------------------------------------------------
  // The even/odd split.
  // ---------------------------------------------------------------------------

  /** The samples at even positions. */
  function Evens(x: seq<real>): (r: seq<real>)
    ensures |r| == (|x| + 1) / 2
  {
    seq((|x| + 1) / 2, i requires 0 <= i < (|x| + 1) / 2 => x[2 * i])
  }

  /** The samples at odd positions. */
  function Odds(x: seq<real>): (r: seq<real>)
    ensures |r| == |x| / 2
  {
    seq(|x| / 2, i requires 0 <= i < |x| / 2 => x[2 * i + 1])
  }

  /** Two sequences of one length, merged element by element. */
  function Interleave(a: seq<real>, b: seq<real>): (r: seq<real>)
    requires |a| == |b|
    ensures |r| == 2 * |a|
  {
    seq(2 * |a|, i requires 0 <= i < 2 * |a| => if i % 2 == 0 then a[i / 2] else b[i / 2])
  }

  /** The split loses nothing: an even-length input is the interleaving of its halves,
      and splitting an interleaving gives back the two sequences. */
  lemma SplitRoundTrip(x: seq<real>, a: seq<real>, b: seq<real>)
    requires |x| % 2 == 0 && |a| == |b|
    ensures |Evens(x)| == |Odds(x)| == |x| / 2
    ensures Interleave(Evens(x), Odds(x)) == x
    ensures Evens(Interleave(a, b)) == a && Odds(Interleave(a, b)) == b
  {
    var y := Interleave(Evens(x), Odds(x));
    forall i | 0 <= i < |x|
      ensures y[i] == x[i]
    {
      if i % 2 == 0 {
        assert y[i] == Evens(x)[i / 2];
      } else {
        assert y[i] == Odds(x)[i / 2];
      }
    }
  }

  /** Appending a sample extends the half it belongs to. */
  lemma SplitSnoc(x: seq<real>, v: real)
    ensures |x| % 2 == 0 ==> Evens(x + [v]) == Evens(x) + [v] && Odds(x + [v]) == Odds(x)
    ensures |x| % 2 == 1 ==> Evens(x + [v]) == Evens(x) && Odds(x + [v]) == Odds(x) + [v]
  {
    if |x| % 2 == 0 {
      assert Evens(x + [v]) == Evens(x) + [v];
      assert Odds(x + [v]) == Odds(x);
    } else {
      assert Evens(x + [v]) == Evens(x);
      assert Odds(x + [v]) == Odds(x) + [v];
    }
  }

  /** A sequence followed by one more element sums to its sum plus that element. */
  lemma SumSnoc(s: seq<real>, v: real)
    ensures Sum(s + [v]) == Sum(s) + v
  {
    assert (s + [v])[..|s|] == s;
  }

  /** The two halves together hold all of the samples. */
  lemma {:induction false} SplitSum(x: seq<real>)
    ensures Sum(Evens(x)) + Sum(Odds(x)) == Sum(x)
  {
    if x != [] {
      var init, v := x[..|x| - 1], x[|x| - 1];
      assert x == init + [v];
      SplitSum(init);
      SplitSnoc(init, v);
      SumSnoc(init, v);
      if |init| % 2 == 0 {
        SumSnoc(Evens(init), v);
      } else {
        SumSnoc(Odds(init), v);
      }
    }
  }

  // ---------------------------------------------------------------------------
  // The recursive transform.
  // ---------------------------------------------------------------------------

  /** The twiddle angle `2*pi * k/N` of butterfly `k`. */
  function TwiddleTheta(k: nat, size: nat): real
    requires size > 0
  {
    2.0 * Pi * (k as real) / (size as real)
  }

  /** The real part `cos(theta)` of the twiddle factor of butterfly `k`. */
  function TwiddleRe(trig: Trig, k: nat, size: nat): real
    requires size > 0
  {
    trig.cos(TwiddleTheta(k, size))
  }

  /** The imaginary part `-sin(theta)` of the twiddle factor of butterfly `k`. */
  function TwiddleIm(trig: Trig, k: nat, size: nat): real
    requires size > 0
  {
    -trig.sin(TwiddleTheta(k, size))
  }

  /** What butterfly `k` writes into the first half of the output: the even spectrum's
      bin `k` plus the odd spectrum's bin `k` rotated by `cos(theta) - i*sin(theta)`,
      as a (real, imaginary) pair. */
  function Upper(evenFft: seq<real>, oddFft: seq<real>, size: nat, trig: Trig, k: nat): (r: seq<real>)
    requires size > 0 && |evenFft| == size && |oddFft| == size && 2 * k + 1 < size
    ensures |r| == 2
  {
    var re, im, reOdd, imOdd := TwiddleRe(trig, k, size), TwiddleIm(trig, k, size), oddFft[2 * k], oddFft[2 * k + 1];
    [evenFft[2 * k] + re * reOdd - im * imOdd, evenFft[2 * k + 1] + re * imOdd + im * reOdd]
  }

  /** What butterfly `k` writes into the second half: the even bin minus the rotated odd bin. */
  function Lower(evenFft: seq<real>, oddFft: seq<real>, size: nat, trig: Trig, k: nat): (r: seq<real>)
    requires size > 0 && |evenFft| == size && |oddFft| == size && 2 * k + 1 < size
    ensures |r| == 2
  {
    var re, im, reOdd, imOdd := TwiddleRe(trig, k, size), TwiddleIm(trig, k, size), oddFft[2 * k], oddFft[2 * k + 1];
    [evenFft[2 * k] - re * reOdd + im * imOdd, evenFft[2 * k + 1] - re * imOdd - im * reOdd]
  }

  /** The pairs of the first half, one per butterfly. */
  function UpperHalf(evenFft: seq<real>, oddFft: seq<real>, size: nat, trig: Trig): (rows: seq<seq<real>>)
    requires size > 0 && size % 2 == 0 && |evenFft| == size && |oddFft| == size
    ensures |rows| == size / 2 && Uniform(rows, 2)
  {
    seq(size / 2, k requires 0 <= k < size / 2 => Upper(evenFft, oddFft, size, trig, k))
  }

  /** The pairs of the second half, one per butterfly. */
  function LowerHalf(evenFft: seq<real>, oddFft: seq<real>, size: nat, trig: Trig): (rows: seq<seq<real>>)
    requires size > 0 && size % 2 == 0 && |evenFft| == size && |oddFft| == size
    ensures |rows| == size / 2 && Uniform(rows, 2)
  {
    seq(size / 2, k requires 0 <= k < size / 2 => Lower(evenFft, oddFft, size, trig, k))
  }

  /** The whole butterfly output: the first half's pairs, then the second half's. */
  function Butterfly(evenFft: seq<real>, oddFft: seq<real>, size: nat, trig: Trig): (r: seq<real>)
    requires size > 0 && size % 2 == 0 && |evenFft| == size && |oddFft| == size
    ensures |r| == 2 * size
  {
    FlattenLength(UpperHalf(evenFft, oddFft, size, trig), 2);
    FlattenLength(LowerHalf(evenFft, oddFft, size, trig), 2);
    Flatten(UpperHalf(evenFft, oddFft, size, trig)) + Flatten(LowerHalf(evenFft, oddFft, size, trig))
  }

  /** The four positions butterfly `k` writes: `2k`, `2k + 1` in the first half and
      `size + 2k`, `size + 2k + 1` in the second. */
  lemma ButterflyFour(evenFft: seq<real>, oddFft: seq<real>, size: nat, trig: Trig, k: nat, out: seq<real>)
    requires size > 0 && size % 2 == 0 && |evenFft| == size && |oddFft| == size && k < size / 2
    requires out == Butterfly(evenFft, oddFft, size, trig)
    ensures out[2 * k] == Upper(evenFft, oddFft, size, trig, k)[0]
    ensures out[2 * k + 1] == Upper(evenFft, oddFft, size, trig, k)[1]
    ensures out[size + 2 * k] == Lower(evenFft, oddFft, size, trig, k)[0]
    ensures out[size + 2 * k + 1] == Lower(evenFft, oddFft, size, trig, k)[1]
  {
    var up, low := UpperHalf(evenFft, oddFft, size, trig), LowerHalf(evenFft, oddFft, size, trig);
    FlattenLength(up, 2);
    var first, second := Flatten(up), Flatten(low);
    assert out == first + second && |first| == size;
    FlattenAt(up, 2, k, 0);
    FlattenAt(up, 2, k, 1);
    FlattenAt(low, 2, k, 0);
    FlattenAt(low, 2, k, 1);
  }

  /** What `fft` returns: `[x0, 0]` for one sample, the direct transform for other odd
      lengths, and the butterfly of the halves' transforms for even lengths. */
  function FftSpec(x: seq<real>, trig: Trig): (r: seq<real>)
    requires |x| >= 1
    ensures |r| == 2 * |x|
    decreases |x|
  {
    if |x| == 1 then [x[0], 0.0]
    else if |x| % 2 == 1 then DftSpec(x, trig)
    else
      assert (|x| + 1) / 2 == |x| / 2 && 2 * (|x| / 2) == |x|;
      Butterfly(FftSpec(Evens(x), trig), FftSpec(Odds(x), trig), |x|, trig)
  }

  /** The loop that deals the samples out to `even` and `odd` by position. */
  method Split(input: seq<real>) returns (even: seq<real>, odd: seq<real>)
    ensures even == Evens(input) && odd == Odds(input)
  {
    even, odd := [], [];
    for i := 0 to |input|
      invariant |even| == (i + 1) / 2 && |odd| == i / 2
      invariant forall j :: 0 <= j < |even| ==> even[j] == input[2 * j]
      invariant forall j :: 0 <= j < |odd| ==> odd[j] == input[2 * j + 1]
    {
      if i % 2 == 0 {
        even := even + [input[i]];
      } else {
        odd := odd + [input[i]];
      }
    }
  }

  /** Butterfly `k` is in place in `s`: its pair of the first half at `2k` and its pair
      of the second half at `size + 2k`. */
  predicate Written(s: seq<real>, evenFft: seq<real>, oddFft: seq<real>, size: nat, trig: Trig, k: nat)
    requires size > 0 && |evenFft| == size && |oddFft| == size && 2 * k + 1 < size && |s| == 2 * size
  {
    && s[2 * k] == Upper(evenFft, oddFft, size, trig, k)[0]
    && s[2 * k + 1] == Upper(evenFft, oddFft, size, trig, k)[1]
    && s[size + 2 * k] == Lower(evenFft, oddFft, size, trig, k)[0]
    && s[size + 2 * k + 1] == Lower(evenFft, oddFft, size, trig, k)[1]
  }

  /** A buffer holding every butterfly is the butterfly output. */
  lemma WrittenIsButterfly(s: seq<real>, evenFft: seq<real>, oddFft: seq<real>, size: nat, trig: Trig)
    requires size > 0 && size % 2 == 0 && |evenFft| == size && |oddFft| == size && |s| == 2 * size
    requires forall k :: 0 <= k < size / 2 ==> Written(s, evenFft, oddFft, size, trig, k)
    ensures s == Butterfly(evenFft, oddFft, size, trig)
  {
    var up, low := UpperHalf(evenFft, oddFft, size, trig), LowerHalf(evenFft, oddFft, size, trig);
    var first, second := s[..size], s[size..];
    forall m | 0 <= m < size / 2
      ensures m * 2 + 2 <= |first| && first[m * 2 .. m * 2 + 2] == up[m]
      ensures m * 2 + 2 <= |second| && second[m * 2 .. m * 2 + 2] == low[m]
    {
      assert Written(s, evenFft, oddFft, size, trig, m);
      assert first[m * 2 .. m * 2 + 2] == [s[2 * m], s[2 * m + 1]];
      assert second[m * 2 .. m * 2 + 2] == [s[size + 2 * m], s[size + 2 * m + 1]];
    }
    FlattenFromRows(first, up, 2);
    FlattenFromRows(second, low, 2);
    assert s == first + second;
  }

  /** One pass of the butterfly loop: writes the four positions of butterfly `k`. */
  method WriteButterfly(out: array<real>, evenFft: seq<real>, oddFft: seq<real>, size: nat, trig: Trig, k: nat)
    requires size > 0 && size % 2 == 0 && |evenFft| == size && |oddFft| == size && k < size / 2
    requires out.Length == 2 * size
    modifies out
    ensures Written(out[..], evenFft, oddFft, size, trig, k)
    ensures forall i :: 0 <= i < out.Length && i != 2 * k && i != 2 * k + 1 && i != size + 2 * k && i != size + 2 * k + 1 ==>
      out[i] == old(out[i])
  {
    var theta := TwiddleTheta(k, size);
    var re := trig.cos(theta);
    var im := -trig.sin(theta);

    var reOdd := oddFft[2 * k + 0];
    var imOdd := oddFft[2 * k + 1];

    out[0 + 2 * k + 0] := evenFft[2 * k + 0] + re * reOdd - im * imOdd;
    out[0 + 2 * k + 1] := evenFft[2 * k + 1] + re * imOdd + im * reOdd;

    out[size + 2 * k + 0] := evenFft[2 * k + 0] - re * reOdd + im * imOdd;
    out[size + 2 * k + 1] := evenFft[2 * k + 1] - re * imOdd - im * reOdd;
  }

  /** The butterfly loop: fills a fresh `2 * size` buffer, four positions per `k`. */
  method Combine(evenFft: seq<real>, oddFft: seq<real>, size: nat, trig: Trig) returns (output: seq<real>)
    requires size > 0 && size % 2 == 0 && |evenFft| == size && |oddFft| == size
    ensures |output| == 2 * size
    ensures output == Butterfly(evenFft, oddFft, size, trig)
  {
    var out := new real[2 * size];
    for k := 0 to size / 2
      invariant forall j :: 0 <= j < k ==> Written(out[..], evenFft, oddFft, size, trig, j)
    {
      ghost var prev := out[..];
      WriteButterfly(out, evenFft, oddFft, size, trig, k);
      forall j | 0 <= j < k
        ensures Written(out[..], evenFft, oddFft, size, trig, j)
      {
        assert Written(prev, evenFft, oddFft, size, trig, j);
        assert out[2 * j] == prev[2 * j] && out[2 * j + 1] == prev[2 * j + 1];
        assert out[size + 2 * j] == prev[size + 2 * j] && out[size + 2 * j + 1] == prev[size + 2 * j + 1];
      }
    }
    output := out[..];
    WrittenIsButterfly(output, evenFft, oddFft, size, trig);
  }

  /** `fft`. The length must be at least 1: for an empty input the even branch would
      call itself on an empty input again, without end. */
  method Fft(input: seq<real>, trig: Trig) returns (output: seq<real>)
    requires |input| >= 1
    ensures |output| == 2 * |input|
    ensures |input| == 1 ==> output == [input[0], 0.0]
    ensures |input| > 1 && |input| % 2 == 1 ==> output == DftSpec(input, trig)
    ensures output == FftSpec(input, trig)
    decreases |input|
  {
    var size := |input|;
    if size == 1 {
      output := [input[0], 0.0];
    } else if size % 2 == 1 {
      output := Dft(input, trig);
      assert output == FftSpec(input, trig);
    } else {
      var even, odd := Split(input);
      FftEven(input, trig);
      var evenFft := Fft(even, trig);
      var oddFft := Fft(odd, trig);
      assert |evenFft| == |oddFft| == size;
      output := Combine(evenFft, oddFft, size, trig);
    }
  }

  /** The butterfly's two halves add up to twice the even spectrum, and differ by twice
      the rotated odd spectrum, whatever the twiddle factor is. */
  lemma ButterflySymmetry(evenFft: seq<real>, oddFft: seq<real>, size: nat, trig: Trig, k: nat, out: seq<real>)
    requires size > 0 && size % 2 == 0 && |evenFft| == size && |oddFft| == size && k < size / 2
    requires out == Butterfly(evenFft, oddFft, size, trig)
    ensures out[2 * k] + out[size + 2 * k] == 2.0 * evenFft[2 * k]
    ensures out[2 * k + 1] + out[size + 2 * k + 1] == 2.0 * evenFft[2 * k + 1]
    ensures out[2 * k] - out[size + 2 * k] ==
      2.0 * (TwiddleRe(trig, k, size) * oddFft[2 * k] - TwiddleIm(trig, k, size) * oddFft[2 * k + 1])
    ensures out[2 * k + 1] - out[size + 2 * k + 1] ==
      2.0 * (TwiddleRe(trig, k, size) * oddFft[2 * k + 1] + TwiddleIm(trig, k, size) * oddFft[2 * k])
  {
    ButterflyFour(evenFft, oddFft, size, trig, k, out);
  }

  /** For even lengths `fft` is the butterfly of the halves' transforms, each half
      holding `|x| / 2` samples, so the symmetries above hold of its output. */
  lemma FftEven(x: seq<real>, trig: Trig)
    requires |x| >= 2 && |x| % 2 == 0
    ensures |Evens(x)| == |Odds(x)| == |x| / 2 >= 1
    ensures FftSpec(x, trig) == Butterfly(FftSpec(Evens(x), trig), FftSpec(Odds(x), trig), |x|, trig)
  {
  }

  /** With a zero twiddle angle, butterfly 0 adds the two spectra's bin 0. */
  lemma ButterflyBinZero(evenFft: seq<real>, oddFft: seq<real>, size: nat, trig: Trig, out: seq<real>)
    requires trig.Valid() && size > 0 && size % 2 == 0 && |evenFft| == size && |oddFft| == size
    requires out == Butterfly(evenFft, oddFft, size, trig)
    ensures out[0] == evenFft[0] + oddFft[0]
    ensures out[1] == evenFft[1] + oddFft[1]
  {
    assert TwiddleTheta(0, size) == 0.0;
    ButterflyFour(evenFft, oddFft, size, trig, 0, out);
  }

  /** The recursive transform agrees with the direct one at bin 0: the sum of the
      samples, with no imaginary part. */
  lemma {:induction false} FftBinZero(x: seq<real>, trig: Trig)
    requires trig.Valid() && |x| >= 1
    ensures FftSpec(x, trig)[0] == Sum(x) && FftSpec(x, trig)[1] == 0.0
    ensures FftSpec(x, trig)[0] == DftSpec(x, trig)[0] && FftSpec(x, trig)[1] == DftSpec(x, trig)[1]
    decreases |x|
  {
    DftBinZero(x, trig);
    if |x| == 1 {
      assert x == [x[0]] && x[..0] == [];
    } else if |x| % 2 == 0 {
      var evenFft, oddFft := FftSpec(Evens(x), trig), FftSpec(Odds(x), trig);
      FftEven(x, trig);
      FftBinZero(Evens(x), trig);
      FftBinZero(Odds(x), trig);
      SplitSum(x);
      ButterflyBinZero(evenFft, oddFft, |x|, trig, FftSpec(x, trig));
    }
  }

  /** Two samples `a`, `b` give the bins `a + b` and `a - b`, both real. */
  lemma FftPair(a: real, b: real, trig: Trig)
    requires trig.Valid()
    ensures FftSpec([a, b], trig) == [a + b, 0.0, a - b, 0.0]
  {
    var x := [a, b];
    assert Evens(x) == [a] && Odds(x) == [b];
    assert FftSpec([a], trig) == [a, 0.0] && FftSpec([b], trig) == [b, 0.0];
    FftEven(x, trig);
    var out := Butterfly([a, 0.0], [b, 0.0], 2, trig);
    assert TwiddleTheta(0, 2) == 0.0;
    ButterflyFour([a, 0.0], [b, 0.0], 2, trig, 0, out);
  }
}
