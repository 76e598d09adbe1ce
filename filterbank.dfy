/** The triangular mel filter bank: `_create_triangular_filter_bank`, the Slaney
    area normalisation and the composition done by `mel_filter_bank`. Matrices are
    row-major: one row per FFT frequency, one column per mel filter. */
module FilterBank {
  import opened CInt
  import opened Matrix
  import opened NpyUtils
  import opened MelScale

  /** `std::min(a, b)`: `(b < a) ? b : a`. */
  function Min(a: real, b: real): real
  {
    if b < a then b else a
  }

  /** `std::max(a, b)`: `(a < b) ? b : a`. */
  function Max(a: real, b: real): real
  {
    if a < b then b else a
  }

  /** Neighbouring boundary frequencies differ, so the slopes' divisors are
      non-zero. (The divisions only happen when there are at least three.) */
  predicate NoZeroSteps(filterFreqs: seq<real>)
  {
    |filterFreqs| <= 2 || forall j :: 0 <= j < |filterFreqs| - 1 ==> filterFreqs[j + 1] != filterFreqs[j]
  }

  /** Strictly increasing boundary frequencies. */
  predicate Increasing(filterFreqs: seq<real>)
  {
    forall j :: 0 <= j < |filterFreqs| - 1 ==> filterFreqs[j] < filterFreqs[j + 1]
  }

  /** The number of filters bounded by the boundary frequencies. */
  function Filters(filterFreqs: seq<real>): nat
  {
    Count(|filterFreqs| - 2)
  }

  /** The weight at frequency `x` of the triangle with corners `lo`, `mid`, `hi`:
      the smaller of the rising slope and the falling slope, clipped at 0. */
  function Weight(x: real, lo: real, mid: real, hi: real): (r: real)
    requires mid != lo && hi != mid
    ensures r >= 0.0
    ensures r > 0.0 ==> r <= (x - lo) / (mid - lo) && r <= (hi - x) / (hi - mid)
    ensures r > 0.0 ==> r == (x - lo) / (mid - lo) || r == (hi - x) / (hi - mid)
  {
    Max(Min(-(lo - x) / (mid - lo), (hi - x) / (hi - mid)), 0.0)
  }

  /** Entry `(i, j)`: the weight of filter `j` at FFT frequency `i`. */
  function Entry(fftFreqs: seq<real>, filterFreqs: seq<real>, i: nat, j: nat): real
    requires NoZeroSteps(filterFreqs)
    requires i < |fftFreqs| && j < Filters(filterFreqs)
  {
    Weight(fftFreqs[i], filterFreqs[j], filterFreqs[j + 1], filterFreqs[j + 2])
  }

  /** The rows of the triangular filter bank. */
  function BankRows(fftFreqs: seq<real>, filterFreqs: seq<real>): (rows: seq<seq<real>>)
    requires NoZeroSteps(filterFreqs)
    ensures |rows| == |fftFreqs| && Uniform(rows, Filters(filterFreqs))
  {
    seq(|fftFreqs|, i requires 0 <= i < |fftFreqs| =>
      seq(Filters(filterFreqs), j requires 0 <= j < Filters(filterFreqs) => Entry(fftFreqs, filterFreqs, i, j)))
  }

  /** The `slopes` matrix: `filterFreqs[j] - fftFreqs[i]` at `(i, j)`. */
  function SlopeRows(fftFreqs: seq<real>, filterFreqs: seq<real>): (rows: seq<seq<real>>)
    ensures |rows| == |fftFreqs| && Uniform(rows, |filterFreqs|)
  {
    seq(|fftFreqs|, i requires 0 <= i < |fftFreqs| =>
      seq(|filterFreqs|, j requires 0 <= j < |filterFreqs| => filterFreqs[j] - fftFreqs[i]))
  }

  // ---------------------------------------------------------------------------
  // What a weight is.
  // ---------------------------------------------------------------------------

  /** Every weight is non-negative. */
  lemma WeightNonNegative(x: real, lo: real, mid: real, hi: real)
    requires mid != lo && hi != mid
    ensures Weight(x, lo, mid, hi) >= 0.0
  {
  }

  /** How a quotient by a positive divisor compares with 0 and 1. */
  lemma Ratio(n: real, d: real)
    requires d > 0.0
    ensures n / d < 1.0 <==> n < d
    ensures n / d == 1.0 <==> n == d
    ensures n / d > 0.0 <==> n > 0.0
    ensures n / d >= 0.0 <==> n >= 0.0
  {
    var q := n / d;
    assert q * d == n;
    assert (q - 1.0) * d == n - d;
  }

  /** The two slopes of a weight, as ratios of distances. */
  lemma Slopes(x: real, lo: real, mid: real, hi: real)
    requires lo < mid < hi
    ensures -(lo - x) / (mid - lo) == (x - lo) / (mid - lo)
    ensures (x - lo) / (mid - lo) < 1.0 <==> x < mid
    ensures (x - lo) / (mid - lo) == 1.0 <==> x == mid
    ensures (x - lo) / (mid - lo) > 0.0 <==> x > lo
    ensures (hi - x) / (hi - mid) < 1.0 <==> x > mid
    ensures (hi - x) / (hi - mid) == 1.0 <==> x == mid
    ensures (hi - x) / (hi - mid) > 0.0 <==> x < hi
  {
    Ratio(x - lo, mid - lo);
    Ratio(hi - x, hi - mid);
  }

  /** With increasing corners a weight is at most 1, and is 1 exactly at the peak `mid`. */
  lemma WeightPeak(x: real, lo: real, mid: real, hi: real)
    requires lo < mid < hi
    ensures Weight(x, lo, mid, hi) <= 1.0
    ensures Weight(x, lo, mid, hi) == 1.0 <==> x == mid
  {
    Slopes(x, lo, mid, hi);
  }

  /** With increasing corners the weight is positive exactly strictly between the
      outer corners, and 0 at or beyond them. */
  lemma WeightSupport(x: real, lo: real, mid: real, hi: real)
    requires lo < mid < hi
    ensures Weight(x, lo, mid, hi) > 0.0 <==> lo < x < hi
    ensures x <= lo || x >= hi ==> Weight(x, lo, mid, hi) == 0.0
  {
    Slopes(x, lo, mid, hi);
  }

  /** Between two neighbouring peaks, the falling edge of one filter and the rising
      edge of the next add up to exactly 1. */
  lemma NeighboursSumToOne(x: real, a: real, b: real, c: real, d: real)
    requires a < b < c < d
    requires b <= x <= c
    ensures Weight(x, a, b, c) + Weight(x, b, c, d) == 1.0
  {
    Slopes(x, a, b, c);
    Slopes(x, b, c, d);
    var fall, rise := (c - x) / (c - b), (x - b) / (c - b);
    assert fall * (c - b) == c - x && rise * (c - b) == x - b;
    assert (fall + rise) * (c - b) == c - b;
    assert fall + rise == 1.0;
    Ratio(c - x, c - b);
    Ratio(x - b, c - b);
  }

  /** Filter bank entries: non-negative; for increasing boundaries at most 1, 1 exactly
      on the filter's centre frequency, and 0 at or outside its outer boundaries. */
  lemma EntryProperties(fftFreqs: seq<real>, filterFreqs: seq<real>, i: nat, j: nat)
    requires NoZeroSteps(filterFreqs)
    requires i < |fftFreqs| && j < Filters(filterFreqs)
    ensures Entry(fftFreqs, filterFreqs, i, j) >= 0.0
    ensures Increasing(filterFreqs) ==> Entry(fftFreqs, filterFreqs, i, j) <= 1.0
    ensures Increasing(filterFreqs) ==>
              (Entry(fftFreqs, filterFreqs, i, j) == 1.0 <==> fftFreqs[i] == filterFreqs[j + 1])
    ensures Increasing(filterFreqs) && (fftFreqs[i] <= filterFreqs[j] || fftFreqs[i] >= filterFreqs[j + 2]) ==>
              Entry(fftFreqs, filterFreqs, i, j) == 0.0
  {
    var x, lo, mid, hi := fftFreqs[i], filterFreqs[j], filterFreqs[j + 1], filterFreqs[j + 2];
    WeightNonNegative(x, lo, mid, hi);
    if Increasing(filterFreqs) {
      assert lo < mid < hi;
      WeightPeak(x, lo, mid, hi);
      WeightSupport(x, lo, mid, hi);
    }
  }

  // ---------------------------------------------------------------------------
  // `_create_triangular_filter_bank`.
  // ---------------------------------------------------------------------------

  /** The first loop of `_create_triangular_filter_bank`: the `diff` vector of
      differences between neighbouring boundary frequencies. */
  method Differences(filterFreqs: seq<real>) returns (diff: seq<real>)
    ensures |diff| == Count(|filterFreqs| - 1)
    ensures forall k :: 0 <= k < |diff| ==> diff[k] == filterFreqs[k + 1] - filterFreqs[k]
  {
    diff := [];
    var i := 0;
    while i < |filterFreqs| - 1
      invariant 0 <= i <= Count(|filterFreqs| - 1)
      invariant |diff| == i
      invariant forall k :: 0 <= k < i ==> diff[k] == filterFreqs[k + 1] - filterFreqs[k]
    {
      diff := diff + [filterFreqs[i + 1] - filterFreqs[i]];
      i := i + 1;
    }
  }

  /** The second loop nest of `_create_triangular_filter_bank`: the flat `slopes`
      matrix, `filterFreqs[j] - fftFreqs[i]` at `(i, j)`. */
  method SlopeMatrix(fftFreqs: seq<real>, filterFreqs: seq<real>) returns (slopes: seq<real>)
    ensures slopes == Flatten(SlopeRows(fftFreqs, filterFreqs))
  {
    ghost var slopeRows := SlopeRows(fftFreqs, filterFreqs);
    slopes := [];
    for r := 0 to |fftFreqs|
      invariant slopes == Flatten(slopeRows[..r])
    {
      for c := 0 to |filterFreqs|
        invariant slopes == Flatten(slopeRows[..r]) + slopeRows[r][..c]
      {
        assert slopeRows[r][..c + 1] == slopeRows[r][..c] + [filterFreqs[c] - fftFreqs[r]];
        slopes := slopes + [filterFreqs[c] - fftFreqs[r]];
      }
      assert slopeRows[r][..|filterFreqs|] == slopeRows[r];
      assert slopeRows[..r + 1] == slopeRows[..r] + [slopeRows[r]];
      FlattenSnoc(slopeRows[..r], slopeRows[r]);
    }
    assert slopeRows[..|fftFreqs|] == slopeRows;
  }

  /** The weight the inner loop computes from `diff` and row `r` of the flat `slopes`
      matrix is bank entry `(r, c)`, and both divisors are non-zero. */
  lemma WeightFromSlopes(fftFreqs: seq<real>, filterFreqs: seq<real>, diff: seq<real>, slopes: seq<real>,
                         slopesRow: nat, r: nat, c: nat)
    requires NoZeroSteps(filterFreqs) && r < |fftFreqs| && c < Filters(filterFreqs)
    requires |diff| == Count(|filterFreqs| - 1)
    requires forall k :: 0 <= k < |diff| ==> diff[k] == filterFreqs[k + 1] - filterFreqs[k]
    requires slopes == Flatten(SlopeRows(fftFreqs, filterFreqs))
    requires slopesRow == r * |filterFreqs|
    ensures c + 1 < |diff| && diff[c] != 0.0 && diff[c + 1] != 0.0
    ensures slopesRow + c + 2 < |slopes|
    ensures Max(Min(- slopes[slopesRow + c] / diff[c], slopes[slopesRow + c + 2] / diff[c + 1]), 0.0)
            == Entry(fftFreqs, filterFreqs, r, c)
  {
    var slopeRows := SlopeRows(fftFreqs, filterFreqs);
    FlattenAt(slopeRows, |filterFreqs|, r, c);
    FlattenAt(slopeRows, |filterFreqs|, r, c + 2);
    assert diff[c] == filterFreqs[c + 1] - filterFreqs[c] != 0.0;
    assert diff[c + 1] == filterFreqs[c + 2] - filterFreqs[c + 1] != 0.0;
  }

  /** The inner loop of the third loop nest: pushes the weights of row `r`, reading
      the slopes of that row from offset `slopesRow` of the flat `slopes` matrix. */
  method PushWeightRow(fftFreqs: seq<real>, filterFreqs: seq<real>, diff: seq<real>, slopes: seq<real>,
                       slopesRow: nat, r: nat, result: seq<real>) returns (out: seq<real>)
    requires NoZeroSteps(filterFreqs) && r < |fftFreqs|
    requires |diff| == Count(|filterFreqs| - 1)
    requires forall k :: 0 <= k < |diff| ==> diff[k] == filterFreqs[k + 1] - filterFreqs[k]
    requires slopes == Flatten(SlopeRows(fftFreqs, filterFreqs))
    requires slopesRow == r * |filterFreqs|
    ensures out == result + BankRows(fftFreqs, filterFreqs)[r]
  {
    ghost var row := BankRows(fftFreqs, filterFreqs)[r];
    out := result;
    var c := 0;
    while c < |filterFreqs| - 2
      invariant 0 <= c <= Filters(filterFreqs)
      invariant out == result + row[..c]
    {
      WeightFromSlopes(fftFreqs, filterFreqs, diff, slopes, slopesRow, r, c);
      var downSlope := - slopes[slopesRow + c] / diff[c];
      var upSlope := slopes[slopesRow + c + 2] / diff[c + 1];
      var w := Max(Min(downSlope, upSlope), 0.0);
      assert w == row[c];
      assert row[..c + 1] == row[..c] + [w];
      out := out + [w];
      c := c + 1;
    }
    assert row[..Filters(filterFreqs)] == row;
  }

  /** `_create_triangular_filter_bank`: builds `diff`, then the `slopes` matrix, then
      the weights row by row, walking `slopes` one row (`|filterFreqs|` entries) at a
      time. The result has `|fftFreqs| * (|filterFreqs| - 2)` entries (none with fewer
      than three boundaries), entry `(i, j)` at index `i*(|filterFreqs|-2) + j`. */
  method CreateTriangularFilterBank(fftFreqs: seq<real>, filterFreqs: seq<real>) returns (result: seq<real>)
    requires NoZeroSteps(filterFreqs)
    ensures |result| == |fftFreqs| * Filters(filterFreqs)
    ensures result == Flatten(BankRows(fftFreqs, filterFreqs))
  {
    var maxRow, maxCol := |fftFreqs|, |filterFreqs|;
    var diff := Differences(filterFreqs);
    var slopes := SlopeMatrix(fftFreqs, filterFreqs);

    ghost var rows := BankRows(fftFreqs, filterFreqs);
    result := [];
    var slopesRow := 0;
    for r := 0 to maxRow
      invariant slopesRow == r * maxCol
      invariant result == Flatten(rows[..r])
    {
      result := PushWeightRow(fftFreqs, filterFreqs, diff, slopes, slopesRow, r, result);
      assert rows[..r + 1] == rows[..r] + [rows[r]];
      FlattenSnoc(rows[..r], rows[r]);
      assert (r + 1) * maxCol == r * maxCol + maxCol;
      slopesRow := slopesRow + maxCol;
    }
    assert rows[..maxRow] == rows;
    FlattenUniform(rows, Filters(filterFreqs));
  }

  // ---------------------------------------------------------------------------
  // Slaney area normalisation.
  // ---------------------------------------------------------------------------

  /** The outer boundaries of each of the first `numMel` filters differ, so the
      normalisation factors are defined. With no filters (`numMel <= 0`) nothing
      is divided. */
  predicate NoZeroSpans(filterFreqs: seq<real>, numMel: int)
  {
    numMel <= 0 || (numMel + 2 <= |filterFreqs| && forall j :: 0 <= j < numMel ==> filterFreqs[j] != filterFreqs[j + 2])
  }

  /** The normalisation factor of filter `j`: 2 over the width of its base. */
  function Factor(filterFreqs: seq<real>, j: nat): real
    requires j + 2 < |filterFreqs| && filterFreqs[j + 2] != filterFreqs[j]
  {
    2.0 / (filterFreqs[j + 2] - filterFreqs[j])
  }

  /** The `enorm` vector. */
  function Enorm(filterFreqs: seq<real>, numMel: int): (e: seq<real>)
    requires NoZeroSpans(filterFreqs, numMel)
    ensures |e| == Count(numMel)
  {
    seq(Count(numMel), j requires 0 <= j < Count(numMel) => Factor(filterFreqs, j))
  }

  /** One row with each entry `j` multiplied by `enorm[j]`. */
  function Scaled(row: seq<real>, enorm: seq<real>): (r: seq<real>)
    requires |row| == |enorm|
    ensures |r| == |enorm|
  {
    seq(|enorm|, j requires 0 <= j < |enorm| => row[j] * enorm[j])
  }

  /** Each column `j` of the matrix multiplied by `enorm[j]`. */
  function ScaleColumns(rows: seq<seq<real>>, enorm: seq<real>): (scaled: seq<seq<real>>)
    requires Uniform(rows, |enorm|)
    ensures |scaled| == |rows| && Uniform(scaled, |enorm|)
  {
    seq(|rows|, i requires 0 <= i < |rows| => Scaled(rows[i], enorm))
  }

  /** A normalised filter with increasing boundaries encloses unit area: its peak
      value, `Factor`, times half the width of its base is 1, and it stays non-negative. */
  lemma NormalisedArea(filterFreqs: seq<real>, j: nat, x: real)
    requires j + 2 < |filterFreqs| && Increasing(filterFreqs)
    ensures filterFreqs[j + 2] != filterFreqs[j]
    ensures Factor(filterFreqs, j) > 0.0
    ensures (filterFreqs[j + 2] - filterFreqs[j]) * Factor(filterFreqs, j) / 2.0 == 1.0
    ensures Weight(x, filterFreqs[j], filterFreqs[j + 1], filterFreqs[j + 2]) * Factor(filterFreqs, j) >= 0.0
  {
    var lo, mid, hi := filterFreqs[j], filterFreqs[j + 1], filterFreqs[j + 2];
    assert lo < mid < hi;
    Ratio(2.0, hi - lo);
    WeightNonNegative(x, lo, mid, hi);
  }

  /** The first loop of the normalisation block: one factor per mel filter. */
  method SlaneyFactors(filterFreqs: seq<real>, numMel: int) returns (enorm: seq<real>)
    requires NoZeroSpans(filterFreqs, numMel)
    ensures |enorm| == Count(numMel)
    ensures forall j :: 0 <= j < |enorm| ==> enorm[j] == 2.0 / (filterFreqs[j + 2] - filterFreqs[j])
    ensures enorm == Enorm(filterFreqs, numMel)
  {
    enorm := [];
    var j := 0;
    while j < numMel
      invariant 0 <= j <= Count(numMel)
      invariant |enorm| == j
      invariant forall k :: 0 <= k < j ==> enorm[k] == Factor(filterFreqs, k)
    {
      enorm := enorm + [2.0 / (filterFreqs[j + 2] - filterFreqs[j])];
      j := j + 1;
    }
  }

  /** The inner loop of the second loop nest: multiplies, in place, the `numMel` entries
      of the flat bank starting at `row` by the matching factors, leaving the rest alone. */
  method ScaleRow(melFilters: array<real>, enorm: seq<real>, numMel: int, row: int)
    requires |enorm| == Count(numMel)
    requires numMel > 0 ==> 0 <= row && row + numMel <= melFilters.Length
    modifies melFilters
    ensures numMel <= 0 ==> melFilters[..] == old(melFilters[..])
    ensures numMel > 0 ==>
      melFilters[..] == old(melFilters[..row]) + Scaled(old(melFilters[row..row + numMel]), enorm) + old(melFilters[row + numMel..])
  {
    var j := 0;
    while j < numMel
      invariant 0 <= j <= Count(numMel)
      invariant forall k :: 0 <= k < melFilters.Length && row <= k < row + j ==>
        melFilters[k] == old(melFilters[k]) * enorm[k - row]
      invariant forall k :: 0 <= k < melFilters.Length && !(row <= k < row + j) ==>
        melFilters[k] == old(melFilters[k])
    {
      melFilters[row + j] := melFilters[row + j] * enorm[j];
      j := j + 1;
    }
    if numMel > 0 {
      SliceScaled(old(melFilters[..]), melFilters[..], enorm, row);
    }
  }

  /** The element-wise description of scaling one slice, as a sequence equation. */
  lemma SliceScaled(before: seq<real>, after: seq<real>, enorm: seq<real>, row: nat)
    requires |after| == |before| && row + |enorm| <= |before|
    requires forall k :: 0 <= k < |after| && row <= k < row + |enorm| ==> after[k] == before[k] * enorm[k - row]
    requires forall k :: 0 <= k < |after| && !(row <= k < row + |enorm|) ==> after[k] == before[k]
    ensures after == before[..row] + Scaled(before[row..row + |enorm|], enorm) + before[row + |enorm|..]
  {
    var rhs := before[..row] + Scaled(before[row..row + |enorm|], enorm) + before[row + |enorm|..];
    forall k | 0 <= k < |after|
      ensures after[k] == rhs[k]
    {
      if k < row {
      } else if k < row + |enorm| {
        assert rhs[k] == Scaled(before[row..row + |enorm|], enorm)[k - row];
      } else {
        assert rhs[k] == before[row + |enorm|..][k - row - |enorm|];
      }
    }
  }

  /** The second loop nest of the normalisation block: multiplies, in place, entry `(i, j)`
      of the flat bank by `enorm[j]`, advancing the row cursor by `numMel` entries per bin. */
  method ScaleInPlace(melFilters: array<real>, enorm: seq<real>, numBins: int, numMel: int, ghost rows: seq<seq<real>>)
    requires |rows| == Count(numBins) && |enorm| == Count(numMel) && Uniform(rows, |enorm|)
    requires melFilters[..] == Flatten(rows)
    modifies melFilters
    ensures melFilters[..] == Flatten(ScaleColumns(rows, enorm))
  {
    var row := 0;
    var i := 0;
    while i < numBins
      invariant 0 <= i <= Count(numBins)
      invariant row == i * numMel
      invariant melFilters[..] == Flatten(ScaleColumns(rows[..i], enorm)) + Flatten(rows[i..])
    {
      ScaleBin(melFilters, enorm, numMel, row, rows, i);
      assert (i + 1) * numMel == i * numMel + numMel;
      row := row + numMel;
      i := i + 1;
    }
    assert rows[..i] == rows && rows[i..] == [];
  }

  /** One pass of the row loop: scales row `i`, the slice at `row = i * numMel`, which
      extends the scaled prefix by that row. */
  method ScaleBin(melFilters: array<real>, enorm: seq<real>, numMel: int, row: int, ghost rows: seq<seq<real>>, i: nat)
    requires |enorm| == Count(numMel) && Uniform(rows, |enorm|) && i < |rows|
    requires row == i * numMel
    requires melFilters[..] == Flatten(ScaleColumns(rows[..i], enorm)) + Flatten(rows[i..])
    modifies melFilters
    ensures melFilters[..] == Flatten(ScaleColumns(rows[..i + 1], enorm)) + Flatten(rows[i + 1..])
  {
    ScaledPrefixStep(rows, enorm, i);
    ghost var done := Flatten(ScaleColumns(rows[..i], enorm));
    ghost var rest := Flatten(rows[i..]);
    ghost var before := melFilters[..];
    assert numMel > 0 ==> row == |done|;
    ScaleRow(melFilters, enorm, numMel, row);
    StepSlices(before, melFilters[..], done, rest, rows[i], enorm, numMel, row);
  }

  /** Scaling the slice that follows an already scaled prefix `done` scales the first
      row of the unscaled remainder `rest`. The requirements on `after` are
      `ScaleRow`'s postconditions for a slice starting at `start`. */
  lemma StepSlices(before: seq<real>, after: seq<real>, done: seq<real>, rest: seq<real>, row: seq<real>,
                   enorm: seq<real>, numMel: int, start: int)
    requires |enorm| == Count(numMel) && |row| == |enorm| <= |rest| && rest[..|enorm|] == row
    requires before == done + rest
    requires numMel > 0 ==> start == |done|
    requires numMel <= 0 ==> after == before
    requires numMel > 0 ==>
      0 <= start && start + numMel <= |before| &&
      after == before[..start] + Scaled(before[start..start + numMel], enorm) + before[start + numMel..]
    ensures after == done + Scaled(row, enorm) + rest[|enorm|..]
  {
    var w := |enorm|;
    if numMel <= 0 {
      assert Scaled(row, enorm) == [] && rest[0..] == rest;
    } else {
      assert before[..start] == done;
      assert before[start..start + w] == rest[..w];
      assert before[start + w..] == rest[w..];
    }
  }

  /** One step of `ScaleInPlace`'s invariant: with the first `i` rows scaled, the flat
      bank is the scaled prefix followed by the rest; scaling the slice of row `i`
      extends the scaled prefix by one row. */
  lemma ScaledPrefixStep(rows: seq<seq<real>>, enorm: seq<real>, i: nat)
    requires Uniform(rows, |enorm|) && i < |rows|
    ensures var w := |enorm|;
      var done := Flatten(ScaleColumns(rows[..i], enorm));
      var rest := Flatten(rows[i..]);
      && |done| == i * w && w <= |rest|
      && rest[..w] == rows[i]
      && Flatten(ScaleColumns(rows[..i + 1], enorm)) == done + Scaled(rows[i], enorm)
      && Flatten(rows[i + 1..]) == rest[w..]
  {
    var w := |enorm|;
    assert Uniform(rows[..i], w);
    FlattenLength(ScaleColumns(rows[..i], enorm), w);
    assert rows[i..][0] == rows[i] && rows[i..][1..] == rows[i + 1..];
    assert ScaleColumns(rows[..i + 1], enorm) == ScaleColumns(rows[..i], enorm) + [Scaled(rows[i], enorm)];
    FlattenSnoc(ScaleColumns(rows[..i], enorm), Scaled(rows[i], enorm));
  }

  // ---------------------------------------------------------------------------
  // `mel_filter_bank`: the composition.
  // ---------------------------------------------------------------------------

  /** `mel_filter_bank` only normalises for the Slaney scale. */
  predicate Normalises(norm: bool, scale: Scale)
  {
    norm && scale == Slaney
  }

  /** The boundary frequencies: `numMel + 2` points evenly spaced in mel between the
      mel values of `minFreq` and `maxFreq`, converted back to Hz unless the triangles
      are built in mel space. */
  function FilterFreqs(math: Math, scale: Scale, numMel: int, minFreq: real, maxFreq: real, inMel: bool): (r: seq<real>)
    requires scale != None && math.Valid() && numMel != -1
    ensures |r| == Count(numMel + 2) && Filters(r) == Count(numMel)
  {
    GridShape(Hz2Mel(math, scale, minFreq), Hz2Mel(math, scale, maxFreq), numMel + 2, true);
    var mels := Grid(Hz2Mel(math, scale, minFreq), Hz2Mel(math, scale, maxFreq), numMel + 2, true);
    if inMel then mels else Mel2HzSeq(math, scale, mels)
  }

  /** The FFT bin frequencies: `numBins` points from 0 up to the integer
      `int(samplingRate / 2)`, converted to mel when the triangles are built in mel space. */
  function FftFreqs(math: Math, scale: Scale, numBins: int, samplingRate: int, inMel: bool): (r: seq<real>)
    requires scale != None && math.Valid() && numBins != 1
    ensures |r| == Count(numBins)
  {
    GridShape(0.0, TruncDiv(samplingRate, 2) as real, numBins, true);
    var hz := Grid(0.0, TruncDiv(samplingRate, 2) as real, numBins, true);
    if inMel then Hz2MelSeq(math, scale, hz) else hz
  }

  /** What `mel_filter_bank` needs so that none of its divisions is by zero; with
      doubles these would yield infinities or not-a-number values. */
  predicate MelBankDefined(numBins: int, numMel: int, minFreq: real, maxFreq: real,
                           scale: Scale, norm: bool, inMel: bool, math: Math)
  {
    && scale != None && math.Valid()
    && numBins != 1 && numMel != -1
    && NoZeroSteps(FilterFreqs(math, scale, numMel, minFreq, maxFreq, inMel))
    && (Normalises(norm, scale) ==> NoZeroSpans(FilterFreqs(math, scale, numMel, minFreq, maxFreq, inMel), numMel))
  }

  /** A normalised Slaney bank with no filters (`num_mel <= -2`) needs no division
      at all: the boundary grid is empty and both normalisation loops are skipped. */
  lemma NoFiltersDefined(math: Math, numBins: int, numMel: int, minFreq: real, maxFreq: real, inMel: bool)
    requires math.Valid() && numBins != 1 && numMel <= -2
    ensures MelBankDefined(numBins, numMel, minFreq, maxFreq, Slaney, true, inMel, math)
  {
  }

  /** The triangular bank over the given grids, with its columns scaled by `Enorm`
      when `normalise` is set: `|fftFreqs|` rows of `numMel` filters. */
  function Bank(fftFreqs: seq<real>, filterFreqs: seq<real>, numMel: int, normalise: bool): (rows: seq<seq<real>>)
    requires NoZeroSteps(filterFreqs) && Filters(filterFreqs) == Count(numMel)
    requires normalise ==> NoZeroSpans(filterFreqs, numMel)
    ensures |rows| == |fftFreqs| && Uniform(rows, Count(numMel))
  {
    var rows := BankRows(fftFreqs, filterFreqs);
    if normalise then ScaleColumns(rows, Enorm(filterFreqs, numMel)) else rows
  }

  /** `mel_filter_bank` after argument decoding: the two grids, the conversion of one of
      them so both share a domain, the triangular bank, and the Slaney normalisation,
      performed in place on the bank, only when `norm` is set and the scale is Slaney. */
  method MelFilterBank(numBins: int, numMel: int, minFreq: real, maxFreq: real, samplingRate: int,
                       scale: Scale, norm: bool, inMel: bool, math: Math) returns (melFilters: seq<real>)
    requires MelBankDefined(numBins, numMel, minFreq, maxFreq, scale, norm, inMel, math)
    ensures |melFilters| == Count(numBins) * Count(numMel)
    ensures melFilters == Flatten(Bank(FftFreqs(math, scale, numBins, samplingRate, inMel),
                                       FilterFreqs(math, scale, numMel, minFreq, maxFreq, inMel),
                                       numMel, Normalises(norm, scale)))
  {
    var filterFreqs := Linspace(Hz2Mel(math, scale, minFreq), Hz2Mel(math, scale, maxFreq), numMel + 2, true);
    var fftFreqs := Linspace(0.0, TruncDiv(samplingRate, 2) as real, numBins, true);
    if inMel {
      fftFreqs := Hz2MelSeq(math, scale, fftFreqs);
    } else {
      filterFreqs := Mel2HzSeq(math, scale, filterFreqs);
    }
    assert filterFreqs == FilterFreqs(math, scale, numMel, minFreq, maxFreq, inMel);
    assert fftFreqs == FftFreqs(math, scale, numBins, samplingRate, inMel);

    melFilters := CreateTriangularFilterBank(fftFreqs, filterFreqs);
    ghost var rows := BankRows(fftFreqs, filterFreqs);

    if norm && scale == Slaney {
      var enorm := SlaneyFactors(filterFreqs, numMel);
      var bank := new real[|melFilters|](k requires 0 <= k < |melFilters| reads {} => melFilters[k]);
      assert bank[..] == Flatten(rows);
      ScaleInPlace(bank, enorm, numBins, numMel, rows);
      melFilters := bank[..];
    }
    FlattenLength(Bank(fftFreqs, filterFreqs, numMel, Normalises(norm, scale)), Count(numMel));
  }

  /** Entry `(i, j)` of the normalised matrix is the triangular weight times the factor
      of filter `j`. */
  lemma NormalisedRowsAt(fftFreqs: seq<real>, filterFreqs: seq<real>, numMel: int, i: nat, j: nat)
    requires NoZeroSteps(filterFreqs) && NoZeroSpans(filterFreqs, numMel)
    requires Filters(filterFreqs) == Count(numMel)
    requires i < |fftFreqs| && j < Count(numMel)
    ensures var scaled := ScaleColumns(BankRows(fftFreqs, filterFreqs), Enorm(filterFreqs, numMel));
      i < |scaled| && j < |scaled[i]| && scaled[i][j] == Entry(fftFreqs, filterFreqs, i, j) * Factor(filterFreqs, j)
  {
    var rows := BankRows(fftFreqs, filterFreqs);
    var enorm := Enorm(filterFreqs, numMel);
    assert ScaleColumns(rows, enorm)[i] == Scaled(rows[i], enorm);
  }

  /** Entry `(i, j)` of `Bank` is the triangular weight, multiplied by the factor of
      filter `j` exactly when normalising; with increasing boundaries it is non-negative. */
  lemma BankEntry(fftFreqs: seq<real>, filterFreqs: seq<real>, numMel: int, normalise: bool, i: nat, j: nat)
    requires NoZeroSteps(filterFreqs) && Filters(filterFreqs) == Count(numMel)
    requires normalise ==> NoZeroSpans(filterFreqs, numMel)
    requires i < |fftFreqs| && j < Count(numMel)
    ensures var bank := Flatten(Bank(fftFreqs, filterFreqs, numMel, normalise));
      && i * Count(numMel) + j < |bank|
      && (normalise ==>
            j + 2 < |filterFreqs| && filterFreqs[j + 2] != filterFreqs[j] &&
            bank[i * Count(numMel) + j] == Entry(fftFreqs, filterFreqs, i, j) * Factor(filterFreqs, j))
      && (!normalise ==> bank[i * Count(numMel) + j] == Entry(fftFreqs, filterFreqs, i, j))
      && (Increasing(filterFreqs) ==> bank[i * Count(numMel) + j] >= 0.0)
  {
    var rows := Bank(fftFreqs, filterFreqs, numMel, normalise);
    var e := Entry(fftFreqs, filterFreqs, i, j);
    FlattenAt(rows, Count(numMel), i, j);
    EntryProperties(fftFreqs, filterFreqs, i, j);
    if normalise {
      NormalisedRowsAt(fftFreqs, filterFreqs, numMel, i, j);
      if Increasing(filterFreqs) {
        NormalisedArea(filterFreqs, j, fftFreqs[i]);
      }
    }
  }
}
