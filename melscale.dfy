/** Mel-scale selection and the Hz <-> mel conversions of the filter-bank code.
    The C library's `log10`, `log`, `exp` and `pow` are not interpreted: they are
    the fields of a `Math` value passed in, and only the few exact values the C
    library guarantees are assumed of them. */
module MelScale {

  /** The four selector values of the C++ mel-scale enumeration, in its order:
      `None` (value 0, no scale selected), then HTK, Kaldi and Slaney. */
  datatype Scale = None | Htk | Kaldi | Slaney

  /** The transcendental functions of the C math library. */
  datatype Math = Math(log10: real -> real, ln: real -> real, exp: real -> real, pow: (real, real) -> real)
  {
    /** The exact values the model relies on: `log10(1) == 0`, `log(1) == 0`,
        `exp(0) == 1` and `pow(10, 0) == 1` (exact in IEEE arithmetic), and
        `log(6.4) > 0`, the divisor of the Slaney logarithmic branch. */
    predicate Valid()
    {
      log10(1.0) == 0.0 && ln(1.0) == 0.0 && exp(0.0) == 1.0 && pow(10.0, 0.0) == 1.0 && ln(6.4) > 0.0
    }
  }

  /** The name→scale mapping of `enif_get_mel_scale`: returns the scale and whether
      the name was recognised; any other name yields `None` and failure. */
  function ScaleOfName(name: string): (r: (Scale, bool))
    ensures r.1 <==> r.0 != None
    ensures r.0 == Htk <==> name == "htk"
    ensures r.0 == Kaldi <==> name == "kaldi"
    ensures r.0 == Slaney <==> name == "slaney"
  {
    var scale := if name == "htk" then Htk
                 else if name == "kaldi" then Kaldi
                 else if name == "slaney" then Slaney
                 else None;
    (scale, scale != None)
  }

  /** The atom name of each selectable scale. */
  function NameOf(scale: Scale): string
    requires scale != None
  {
    match scale
    case Htk => "htk"
    case Kaldi => "kaldi"
    case Slaney => "slaney"
  }

  /** Every selectable scale is found under its name, and a recognised name is the
      name of the scale it selects. */
  lemma ScaleNameRoundTrip(scale: Scale, name: string)
    ensures scale != None ==> ScaleOfName(NameOf(scale)) == (scale, true)
    ensures ScaleOfName(name).1 ==> NameOf(ScaleOfName(name).0) == name
  {
  }

  /** `_hz2mel(x, scale)`, i.e. the function `_fn_hz2mel(scale)` applied to `x`.
      There is no conversion for `None` (the C++ returns an empty function). Every
      scale maps 0 Hz to 0 mel; the Slaney scale is linear below 1000 Hz, where it
      stays below 15 mel, and reaches exactly 15 mel at 1000 Hz. */
  function Hz2Mel(math: Math, scale: Scale, x: real): (r: real)
    requires scale != None && math.Valid()
    ensures x == 0.0 ==> r == 0.0
    ensures scale == Slaney && x < 1000.0 ==> r < 15.0
    ensures scale == Slaney && x == 1000.0 ==> r == 15.0
  {
    match scale
    case Htk => 2595.0 * math.log10(1.0 + x / 700.0)
    case Kaldi => 1127.0 * math.ln(1.0 + x / 700.0)
    case Slaney =>
      if x >= 1000.0 then 15.0 + math.ln(x / 1000.0) * (27.0 / math.ln(6.4))
      else 3.0 * x / 200.0
  }

  /** `_mel2hz(x, scale)`, i.e. the function `_fn_mel2hz(scale)` applied to `x`.
      Every scale maps 0 mel to 0 Hz; the Slaney scale is linear below 15 mel, where
      it stays below 1000 Hz, and reaches exactly 1000 Hz at 15 mel. */
  function Mel2Hz(math: Math, scale: Scale, x: real): (r: real)
    requires scale != None && math.Valid()
    ensures x == 0.0 ==> r == 0.0
    ensures scale == Slaney && x < 15.0 ==> r < 1000.0
    ensures scale == Slaney && x == 15.0 ==> r == 1000.0
  {
    match scale
    case Htk => 700.0 * (math.pow(10.0, x / 2595.0) - 1.0)
    case Kaldi => 700.0 * (math.exp(x / 1127.0) - 1.0)
    case Slaney =>
      if x >= 15.0 then 1000.0 * math.exp((math.ln(6.4) / 27.0) * (x - 15.0))
      else 200.0 * x / 3.0
  }

  /** Below 1000 Hz the Slaney scale is linear, `3x/200`, which stays below 15 mel, so
      the inverse takes its linear branch and gives back `x` exactly; likewise below
      15 mel in the other direction. */
  lemma SlaneyLinearRoundTrip(math: Math, x: real, m: real)
    requires math.Valid()
    ensures x < 1000.0 ==> Hz2Mel(math, Slaney, x) == 3.0 * x / 200.0 < 15.0
    ensures x < 1000.0 ==> Mel2Hz(math, Slaney, Hz2Mel(math, Slaney, x)) == x
    ensures m < 15.0 ==> Mel2Hz(math, Slaney, m) == 200.0 * m / 3.0 < 1000.0
    ensures m < 15.0 ==> Hz2Mel(math, Slaney, Mel2Hz(math, Slaney, m)) == m
  {
  }

  /** The two Slaney branches meet: 1000 Hz is 15 mel by either formula, and 15 mel
      is 1000 Hz by either formula. */
  lemma SlaneyBranchesMeet(math: Math)
    requires math.Valid()
    ensures Hz2Mel(math, Slaney, 1000.0) == 15.0 == 3.0 * 1000.0 / 200.0
    ensures Mel2Hz(math, Slaney, 15.0) == 1000.0 == 200.0 * 15.0 / 3.0
  {
  }

  /** The elementwise `_hz2mel(Array&, scale)`: same length, converted position by position. */
  function Hz2MelSeq(math: Math, scale: Scale, freqs: seq<real>): (r: seq<real>)
    requires scale != None && math.Valid()
    ensures |r| == |freqs|
    ensures forall i :: 0 <= i < |freqs| ==> r[i] == Hz2Mel(math, scale, freqs[i])
  {
    if freqs == [] then [] else [Hz2Mel(math, scale, freqs[0])] + Hz2MelSeq(math, scale, freqs[1..])
  }

  /** The elementwise `_mel2hz(Array&, scale)`: same length, converted position by position. */
  function Mel2HzSeq(math: Math, scale: Scale, mels: seq<real>): (r: seq<real>)
    requires scale != None && math.Valid()
    ensures |r| == |mels|
    ensures forall i :: 0 <= i < |mels| ==> r[i] == Mel2Hz(math, scale, mels[i])
  {
    if mels == [] then [] else [Mel2Hz(math, scale, mels[0])] + Mel2HzSeq(math, scale, mels[1..])
  }

  /** A sequence of frequencies below 1000 Hz survives the Slaney round trip unchanged. */
  lemma SlaneyLinearSeqRoundTrip(math: Math, freqs: seq<real>)
    requires math.Valid()
    requires forall i :: 0 <= i < |freqs| ==> freqs[i] < 1000.0
    ensures Mel2HzSeq(math, Slaney, Hz2MelSeq(math, Slaney, freqs)) == freqs
  {
    var back := Mel2HzSeq(math, Slaney, Hz2MelSeq(math, Slaney, freqs));
    forall i | 0 <= i < |freqs| ensures back[i] == freqs[i] {
      SlaneyLinearRoundTrip(math, freqs[i], 0.0);
    }
  }
}
