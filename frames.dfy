/** Frame segmentation (`to_frames`): a window of `window` samples slides over a
    sample sequence in steps of `hop`. The flat result holds the frames one after
    the other (row-major, one row per frame). */
module Frames {
  import opened CInt
  import opened Matrix

  // ---------------------------------------------------------------------------
  // Non-centred mode: contiguous slices while a whole window still fits.
  // ---------------------------------------------------------------------------

  /** The frames the non-centred loop emits once its iterator is at offset `s`. */
  function PlainFramesFrom<T>(wave: seq<T>, hop: nat, window: nat, s: nat): seq<seq<T>>
    requires hop >= 1
    decreases |wave| - s
  {
    if s + window > |wave| then []
    else [wave[s .. s + window]] + PlainFramesFrom(wave, hop, window, s + hop)
  }

  /** All frames of the non-centred mode. */
  function PlainFrames<T>(wave: seq<T>, hop: nat, window: nat): seq<seq<T>>
    requires hop >= 1
  {
    PlainFramesFrom(wave, hop, window, 0)
  }

  /** The documented frame count of the non-centred mode. */
  function PlainCount(len: nat, hop: nat, window: nat): nat
    requires hop >= 1
  {
    if len < window then 0 else (len - window) / hop + 1
  }

  /** One more hop removes exactly one from the quotient. */
  lemma DivStep(a: nat, hop: nat)
    requires hop >= 1 && a >= hop
    ensures (a - hop) / hop + 1 == a / hop
  {
    var q, r := (a - hop) / hop, (a - hop) % hop;
    assert a - hop == q * hop + r && 0 <= r < hop;
    assert a == (q + 1) * hop + r;
    DivUnique(a, hop, q + 1, r);
  }

  /** Euclidean division has a unique quotient. */
  lemma DivUnique(a: int, b: int, q: int, r: int)
    requires b > 0 && 0 <= r < b && a == q * b + r
    ensures a / b == q
  {
    var q', r' := a / b, a % b;
    assert a == q' * b + r' && 0 <= r' < b;
    if q' != q {
      var d := if q' < q then q - q' else q' - q;
      AtLeastOnce(d, b);
      assert false;
    }
  }

  /** A positive multiple of `b` is at least `b`. */
  lemma AtLeastOnce(d: int, b: int)
    requires d >= 1 && b > 0
    ensures d * b >= b
  {
    assert d * b == (d - 1) * b + b;
  }

  /** The loop starting at `s` emits one frame per hop while a window fits. */
  lemma {:induction false} PlainFramesFromCount<T>(wave: seq<T>, hop: nat, window: nat, s: nat)
    requires hop >= 1
    ensures |PlainFramesFrom(wave, hop, window, s)| ==
            if s + window > |wave| then 0 else (|wave| - window - s) / hop + 1
    decreases |wave| - s
  {
    if s + window <= |wave| {
      PlainFramesFromCount(wave, hop, window, s + hop);
      var a := |wave| - window - s;
      if a >= hop {
        DivStep(a, hop);
      }
    }
  }

  /** Frame `m` emitted from offset `s` is the slice starting at `s + m*hop`. */
  lemma {:induction false} PlainFramesFromAt<T>(wave: seq<T>, hop: nat, window: nat, s: nat, m: nat)
    requires hop >= 1
    requires m < |PlainFramesFrom(wave, hop, window, s)|
    ensures s + m * hop + window <= |wave|
    ensures PlainFramesFrom(wave, hop, window, s)[m] == wave[s + m * hop .. s + m * hop + window]
    decreases m
  {
    if m > 0 {
      PlainFramesFromAt(wave, hop, window, s + hop, m - 1);
      assert s + hop + (m - 1) * hop == s + m * hop;
    }
  }

  /** Non-centred frames: there are `PlainCount` of them (none when the wave is
      shorter than the window) and frame `m` is `wave[m*hop .. m*hop + window)`. */
  lemma PlainFramesSpec<T>(wave: seq<T>, hop: nat, window: nat)
    requires hop >= 1
    ensures |PlainFrames(wave, hop, window)| == PlainCount(|wave|, hop, window)
    ensures |wave| < window ==> PlainFrames(wave, hop, window) == []
    ensures forall m :: 0 <= m < |PlainFrames(wave, hop, window)| ==>
              m * hop + window <= |wave| && PlainFrames(wave, hop, window)[m] == wave[m * hop .. m * hop + window]
    ensures Uniform(PlainFrames(wave, hop, window), window)
  {
    PlainFramesFromCount(wave, hop, window, 0);
    forall m | 0 <= m < |PlainFrames(wave, hop, window)|
      ensures m * hop + window <= |wave| && PlainFrames(wave, hop, window)[m] == wave[m * hop .. m * hop + window]
    {
      PlainFramesFromAt(wave, hop, window, 0, m);
    }
  }

  // ---------------------------------------------------------------------------
  // Centred mode: one frame per start offset below the length, mirrored at the edges.
  // ---------------------------------------------------------------------------

  /** `int((window - 1) / 2) + 1` with C++ truncating division: `window/2` for an even
      window and `(window+1)/2` for an odd one (one more than `window/2`). */
  function HalfWindow(window: nat): (h: nat)
    ensures window == 0 ==> h == 1
    ensures window > 0 && window % 2 == 0 ==> h == window / 2
    ensures window % 2 == 1 ==> h == (window + 1) / 2 == window / 2 + 1
  {
    TruncDiv(window - 1, 2) + 1
  }

  /** The sample index read for the centred position `p`. A position before the
      wave mirrors around index 0 without repeating it (`-1` reads index `1`); a
      position past the end mirrors around the end and does repeat the last sample
      (`len` reads index `len - 1`). */
  function Reflect(len: nat, p: int): (r: int)
    ensures 0 <= p < len ==> r == p
    ensures p < 0 ==> r + p == 0
    ensures p >= len ==> r + p == 2 * len - 1
    ensures -(len as int) < p < 2 * len ==> 0 <= r < len
  {
    if p < 0 then -p else if p >= len then 2 * len - 1 - p else p
  }

  /** The number of centred frames: one per start offset `0, hop, 2*hop, ... < len`. */
  function CentredCount(len: nat, hop: nat): nat
    requires hop >= 1
  {
    (len + hop - 1) / hop
  }

  /** Every position of the frame starting at `s` mirrors into the wave. */
  predicate FrameInBounds(len: nat, window: nat, s: nat)
  {
    s < len && (window == 0 || (HalfWindow(window) < len && s + window - HalfWindow(window) <= 2 * len))
  }

  /** What the centred loop needs of its input so that it never reads outside the
      wave; the code relies on this without checking it. The front needs
      `HalfWindow(window) < len`, the rear needs the last frame to end at most
      `len` positions past the end. */
  predicate CentredInBounds(len: nat, hop: nat, window: nat)
    requires hop >= 1
  {
    len == 0 || window == 0 ||
    (HalfWindow(window) < len && (CentredCount(len, hop) - 1) * hop + window - HalfWindow(window) <= 2 * len)
  }

  /** The centred frame whose hop offset is `s`: it starts `HalfWindow(window)`
      samples earlier and mirrors positions outside the wave back into it. */
  function CentredFrame<T>(wave: seq<T>, window: nat, s: nat): (f: seq<T>)
    requires FrameInBounds(|wave|, window, s)
    ensures |f| == window
  {
    seq(window, i requires 0 <= i < window => wave[Reflect(|wave|, s - HalfWindow(window) + i)])
  }

  /** Frame number `m` starts at `m*hop`, and `m` is a frame exactly when that
      offset is still inside the wave. */
  lemma CentredCountSpec(len: nat, hop: nat, m: nat)
    requires hop >= 1
    ensures m < CentredCount(len, hop) <==> m * hop < len
    ensures m < CentredCount(len, hop) ==> m * hop <= (CentredCount(len, hop) - 1) * hop
  {
    var c, r := CentredCount(len, hop), (len + hop - 1) % hop;
    assert len + hop - 1 == c * hop + r && 0 <= r < hop;
    assert (c - 1) * hop == c * hop - hop;
    if m < c {
      MulMono(m, c - 1, hop);
    } else {
      MulMono(c, m, hop);
    }
  }

  /** Multiplying by a non-negative factor keeps the order. */
  lemma MulMono(a: int, b: int, h: int)
    requires a <= b && h >= 0
    ensures a * h <= b * h
  {
    assert b * h - a * h == (b - a) * h;
  }

  /** Under `CentredInBounds`, every frame start inside the wave is in bounds. */
  lemma StartInBounds(len: nat, hop: nat, window: nat, m: nat)
    requires hop >= 1 && CentredInBounds(len, hop, window)
    requires m * hop < len
    ensures FrameInBounds(len, window, m * hop)
  {
    CentredCountSpec(len, hop, m);
  }

  /** The frames the centred loop emits once it has emitted `m` of them. */
  function CentredFramesFrom<T>(wave: seq<T>, hop: nat, window: nat, m: nat): seq<seq<T>>
    requires hop >= 1 && CentredInBounds(|wave|, hop, window)
    decreases |wave| - m * hop
  {
    if m * hop >= |wave| then []
    else
      StartInBounds(|wave|, hop, window, m);
      assert (m + 1) * hop == m * hop + hop;
      [CentredFrame(wave, window, m * hop)] + CentredFramesFrom(wave, hop, window, m + 1)
  }

  /** All frames of the centred mode. */
  function CentredFrames<T>(wave: seq<T>, hop: nat, window: nat): seq<seq<T>>
    requires hop >= 1 && CentredInBounds(|wave|, hop, window)
  {
    CentredFramesFrom(wave, hop, window, 0)
  }

  /** The centred loop emits one frame for each remaining start offset. */
  lemma {:induction false} CentredFramesFromCount<T>(wave: seq<T>, hop: nat, window: nat, m: nat)
    requires hop >= 1 && CentredInBounds(|wave|, hop, window)
    ensures m * hop >= |wave| ==> |CentredFramesFrom(wave, hop, window, m)| == 0
    ensures m * hop < |wave| ==> |CentredFramesFrom(wave, hop, window, m)| == CentredCount(|wave|, hop) - m
    decreases |wave| - m * hop
  {
    CentredCountSpec(|wave|, hop, m);
    if m * hop < |wave| {
      assert (m + 1) * hop == m * hop + hop;
      CentredFramesFromCount(wave, hop, window, m + 1);
      CentredCountSpec(|wave|, hop, m + 1);
    }
  }

  /** Frame `k` emitted after `m0` frames is the frame at offset `(m0 + k) * hop`. */
  lemma {:induction false} CentredFramesFromAt<T>(wave: seq<T>, hop: nat, window: nat, m0: nat, k: nat)
    requires hop >= 1 && CentredInBounds(|wave|, hop, window)
    requires k < |CentredFramesFrom(wave, hop, window, m0)|
    ensures FrameInBounds(|wave|, window, (m0 + k) * hop)
    ensures CentredFramesFrom(wave, hop, window, m0)[k] == CentredFrame(wave, window, (m0 + k) * hop)
    decreases k
  {
    if k > 0 {
      assert (m0 + 1) * hop == m0 * hop + hop;
      CentredFramesFromAt(wave, hop, window, m0 + 1, k - 1);
    }
  }

  /** Centred frames: `ceil(len / hop)` of them, frame `m` is the mirrored frame at
      hop offset `m*hop`, and every frame has `window` elements. */
  lemma CentredFramesSpec<T>(wave: seq<T>, hop: nat, window: nat)
    requires hop >= 1 && CentredInBounds(|wave|, hop, window)
    ensures |CentredFrames(wave, hop, window)| == CentredCount(|wave|, hop)
    ensures forall m :: 0 <= m < |CentredFrames(wave, hop, window)| ==>
              FrameInBounds(|wave|, window, m * hop) &&
              CentredFrames(wave, hop, window)[m] == CentredFrame(wave, window, m * hop)
    ensures Uniform(CentredFrames(wave, hop, window), window)
  {
    CentredFramesFromCount(wave, hop, window, 0);
    if |wave| == 0 {
      assert CentredCount(|wave|, hop) == (hop - 1) / hop == 0;
    }
    forall m | 0 <= m < |CentredFrames(wave, hop, window)|
      ensures FrameInBounds(|wave|, window, m * hop) &&
              CentredFrames(wave, hop, window)[m] == CentredFrame(wave, window, m * hop)
    {
      CentredFramesFromAt(wave, hop, window, 0, m);
    }
  }

  /** Element `i` of the centred frame at offset `s` reads position `p = s - half + i`:
      `wave[p]` inside the wave, `wave[-p]` before it, `wave[2*len - 1 - p]` after it,
      and all of these lie in `[0, len)`. */
  lemma CentredFrameAt<T>(wave: seq<T>, window: nat, s: nat, i: nat)
    requires FrameInBounds(|wave|, window, s) && i < window
    ensures var p := s - HalfWindow(window) + i;
      && 0 <= Reflect(|wave|, p) < |wave|
      && (0 <= p < |wave| ==> CentredFrame(wave, window, s)[i] == wave[p])
      && (p < 0 ==> CentredFrame(wave, window, s)[i] == wave[-p])
      && (p >= |wave| ==> CentredFrame(wave, window, s)[i] == wave[2 * |wave| - 1 - p])
  {
  }

  /** The simpler condition `HalfWindow(window) < len && window <= len` already keeps
      every read in bounds. */
  lemma SimpleBoundsSuffice(len: nat, hop: nat, window: nat)
    requires hop >= 1
    requires HalfWindow(window) < len && window <= len
    ensures CentredInBounds(len, hop, window)
  {
    if len > 0 && window > 0 {
      var c := CentredCount(len, hop);
      assert c >= 1 by { CentredCountSpec(len, hop, 0); }
      CentredCountSpec(len, hop, c - 1);
    }
  }

  /** On a non-empty wave with a non-empty window, `CentredInBounds` cannot hold
      unless the half window is shorter than the wave: the very first read is at
      position `-HalfWindow(window)`. */
  lemma CentredInBoundsNeedsShortHalf(len: nat, hop: nat, window: nat)
    requires hop >= 1 && len > 0 && window > 0
    requires CentredInBounds(len, hop, window)
    ensures HalfWindow(window) < len
    ensures Reflect(len, 0 - HalfWindow(window) as int) == HalfWindow(window)
  {
  }

  // ---------------------------------------------------------------------------
  // The operation itself.
  // ---------------------------------------------------------------------------

  /** The non-centred branch of `to_frames`. */
  method PlainToFrames<T>(wave: seq<T>, hop: nat, window: nat) returns (numFrames: nat, frames: seq<T>)
    requires hop >= 1
    ensures numFrames == PlainCount(|wave|, hop, window)
    ensures |frames| == numFrames * window
    ensures frames == Flatten(PlainFrames(wave, hop, window))
    ensures forall m :: 0 <= m < numFrames ==>
              m * window + window <= |frames| && m * hop + window <= |wave| &&
              Row(frames, window, m) == wave[m * hop .. m * hop + window]
  {
    ghost var all := PlainFrames(wave, hop, window);
    numFrames, frames := 0, [];
    var src: nat := 0;
    while src + window <= |wave|
      invariant Flatten(all) == frames + Flatten(PlainFramesFrom(wave, hop, window, src))
      invariant numFrames + |PlainFramesFrom(wave, hop, window, src)| == |all|
      decreases |wave| - src
    {
      PlainStep(wave, hop, window, src, frames, all);
      frames := PushPlainFrame(wave, window, src, frames);
      numFrames := numFrames + 1;
      src := src + hop;
    }
    assert PlainFramesFrom(wave, hop, window, src) == [];
    assert frames == Flatten(all) && numFrames == |all|;
    PlainFramesSpec(wave, hop, window);
    PlainRows(wave, hop, window);
  }

  /** Row `m` of the flat non-centred buffer is the wave slice at offset `m*hop`. */
  lemma PlainRows<T>(wave: seq<T>, hop: nat, window: nat)
    requires hop >= 1
    ensures |Flatten(PlainFrames(wave, hop, window))| == |PlainFrames(wave, hop, window)| * window
    ensures forall m :: 0 <= m < |PlainFrames(wave, hop, window)| ==>
              m * window + window <= |Flatten(PlainFrames(wave, hop, window))| && m * hop + window <= |wave| &&
              Row(Flatten(PlainFrames(wave, hop, window)), window, m) == wave[m * hop .. m * hop + window]
  {
    var all := PlainFrames(wave, hop, window);
    PlainFramesSpec(wave, hop, window);
    FlattenUniform(all, window);
  }

  /** One pass of the non-centred loop: emitting the slice at `src` moves it from the
      pending frames to the buffer. */
  lemma PlainStep<T>(wave: seq<T>, hop: nat, window: nat, src: nat, frames: seq<T>, all: seq<seq<T>>)
    requires hop >= 1 && src + window <= |wave|
    requires Flatten(all) == frames + Flatten(PlainFramesFrom(wave, hop, window, src))
    ensures Flatten(all) == (frames + wave[src .. src + window]) + Flatten(PlainFramesFrom(wave, hop, window, src + hop))
    ensures |PlainFramesFrom(wave, hop, window, src)| == 1 + |PlainFramesFrom(wave, hop, window, src + hop)|
  {
    var frame, rest := wave[src .. src + window], PlainFramesFrom(wave, hop, window, src + hop);
    assert PlainFramesFrom(wave, hop, window, src) == [frame] + rest;
    FlattenCons(frame, rest);
  }

  /** The inner loop of the non-centred branch: pushes the `window` samples starting at
      offset `src` onto `frames`. */
  method PushPlainFrame<T>(wave: seq<T>, window: nat, src: nat, frames: seq<T>) returns (out: seq<T>)
    requires src + window <= |wave|
    ensures out == frames + wave[src .. src + window]
  {
    out := frames;
    var frame := src;
    for i := 0 to window
      invariant frame == src + i
      invariant out == frames + wave[src .. frame]
    {
      out := out + [wave[frame]];
      frame := frame + 1;
    }
  }

  /** One pass of the centred loop: emitting frame `m` moves it from the pending frames
      to the buffer. */
  lemma CentredStep<T>(wave: seq<T>, hop: nat, window: nat, m: nat, frames: seq<T>, all: seq<seq<T>>)
    requires hop >= 1 && CentredInBounds(|wave|, hop, window) && m * hop < |wave|
    requires Flatten(all) == frames + Flatten(CentredFramesFrom(wave, hop, window, m))
    ensures FrameInBounds(|wave|, window, m * hop)
    ensures Flatten(all) == (frames + CentredFrame(wave, window, m * hop)) + Flatten(CentredFramesFrom(wave, hop, window, m + 1))
    ensures |CentredFramesFrom(wave, hop, window, m)| == 1 + |CentredFramesFrom(wave, hop, window, m + 1)|
  {
    StartInBounds(|wave|, hop, window, m);
    var frame, rest := CentredFrame(wave, window, m * hop), CentredFramesFrom(wave, hop, window, m + 1);
    assert CentredFramesFrom(wave, hop, window, m) == [frame] + rest;
    FlattenCons(frame, rest);
  }

  /** The inner loop of the centred branch: pushes the `window` samples of the frame at
      hop offset `src`, mirrored at the edges, onto `frames`; `halfWindow` is the
      half window computed once by the caller. */
  method PushCentredFrame<T>(wave: seq<T>, window: nat, halfWindow: nat, src: nat, frames: seq<T>) returns (out: seq<T>)
    requires halfWindow == HalfWindow(window) && FrameInBounds(|wave|, window, src)
    ensures out == frames + CentredFrame(wave, window, src)
  {
    ghost var expected := CentredFrame(wave, window, src);
    out := frames;
    var frame := src - halfWindow;
    for i := 0 to window
      invariant frame == src - halfWindow + i
      invariant out == frames + expected[..i]
    {
      CentredFrameAt(wave, window, src, i);
      var v;
      if frame < 0 {
        var refrect := 0 - frame;
        v := wave[refrect];
      } else if frame >= |wave| {
        var refrect := frame - |wave| + 1;
        v := wave[|wave| - refrect];
      } else {
        v := wave[frame];
      }
      assert expected[..i + 1] == expected[..i] + [v];
      out := out + [v];
      frame := frame + 1;
    }
    assert expected[..window] == expected;
  }

  /** The centred branch of `to_frames`. */
  method CentredToFrames<T>(wave: seq<T>, hop: nat, window: nat) returns (numFrames: nat, frames: seq<T>)
    requires hop >= 1 && CentredInBounds(|wave|, hop, window)
    ensures numFrames == CentredCount(|wave|, hop)
    ensures |frames| == numFrames * window
    ensures frames == Flatten(CentredFrames(wave, hop, window))
    ensures forall m :: 0 <= m < numFrames ==>
              m * window + window <= |frames| && FrameInBounds(|wave|, window, m * hop) &&
              Row(frames, window, m) == CentredFrame(wave, window, m * hop)
  {
    ghost var all := CentredFrames(wave, hop, window);
    var halfWindow := HalfWindow(window);
    numFrames, frames := 0, [];
    var src: nat := 0;
    while src < |wave|
      invariant src == numFrames * hop
      invariant Flatten(all) == frames + Flatten(CentredFramesFrom(wave, hop, window, numFrames))
      invariant numFrames + |CentredFramesFrom(wave, hop, window, numFrames)| == |all|
      decreases |wave| - src
    {
      CentredStep(wave, hop, window, numFrames, frames, all);
      frames := PushCentredFrame(wave, window, halfWindow, src, frames);
      numFrames := numFrames + 1;
      src := src + hop;
    }
    assert CentredFramesFrom(wave, hop, window, numFrames) == [];
    assert frames == Flatten(all) && numFrames == |all|;
    CentredFramesSpec(wave, hop, window);
    CentredRows(wave, hop, window);
  }

  /** Row `m` of the flat centred buffer is the mirrored frame at offset `m*hop`. */
  lemma CentredRows<T>(wave: seq<T>, hop: nat, window: nat)
    requires hop >= 1 && CentredInBounds(|wave|, hop, window)
    ensures |Flatten(CentredFrames(wave, hop, window))| == |CentredFrames(wave, hop, window)| * window
    ensures forall m :: 0 <= m < |CentredFrames(wave, hop, window)| ==>
              m * window + window <= |Flatten(CentredFrames(wave, hop, window))| &&
              FrameInBounds(|wave|, window, m * hop) &&
              Row(Flatten(CentredFrames(wave, hop, window)), window, m) == CentredFrame(wave, window, m * hop)
  {
    CentredFramesSpec(wave, hop, window);
    FlattenUniform(CentredFrames(wave, hop, window), window);
  }


  /** `to_frames`: the frame count and the flat frame buffer of either mode. */
  method ToFrames<T>(wave: seq<T>, hop: nat, window: nat, center: bool) returns (numFrames: nat, frames: seq<T>)
    requires hop >= 1
    requires center ==> CentredInBounds(|wave|, hop, window)
    ensures numFrames == if center then CentredCount(|wave|, hop) else PlainCount(|wave|, hop, window)
    ensures |frames| == numFrames * window
    ensures center ==> frames == Flatten(CentredFrames(wave, hop, window))
    ensures !center ==> frames == Flatten(PlainFrames(wave, hop, window))
  {
    if center {
      numFrames, frames := CentredToFrames(wave, hop, window);
    } else {
      numFrames, frames := PlainToFrames(wave, hop, window);
    }
  }

  /** Ten samples, hop 2, window 4: four overlapping frames, the last ending on the
      last sample. */
  lemma PlainFramesExample()
    ensures PlainFrames([1, 2, 3, 4, 5, 6, 7, 8, 9, 10], 2, 4) ==
      [[1, 2, 3, 4], [3, 4, 5, 6], [5, 6, 7, 8], [7, 8, 9, 10]]
  {
    var wave := [1, 2, 3, 4, 5, 6, 7, 8, 9, 10];
    PlainFramesSpec(wave, 2, 4);
    assert wave[0..4] == [1, 2, 3, 4] && wave[2..6] == [3, 4, 5, 6];
    assert wave[4..8] == [5, 6, 7, 8] && wave[6..10] == [7, 8, 9, 10];
  }

  /** Four samples, hop 3, window 5: two frames; the front mirror skips the edge sample
      and the rear mirror repeats it. */
  lemma CentredFramesExample()
    ensures CentredInBounds(4, 3, 5)
    ensures CentredFrames([1, 2, 3, 4], 3, 5) == [[4, 3, 2, 1, 2], [1, 2, 3, 4, 4]]
  {
    var wave := [1, 2, 3, 4];
    assert HalfWindow(5) == 3 && CentredCount(4, 3) == 2;
    CentredFramesSpec(wave, 3, 5);
    var front, rear := CentredFrame(wave, 5, 0), CentredFrame(wave, 5, 3);
    forall i | 0 <= i < 5
      ensures front[i] == wave[Reflect(4, i - 3)] && rear[i] == wave[Reflect(4, i)]
    {
    }
    assert Reflect(4, -3) == 3 && Reflect(4, -2) == 2 && Reflect(4, -1) == 1 && Reflect(4, 4) == 3;
    assert front == [4, 3, 2, 1, 2];
    assert rear == [1, 2, 3, 4, 4];
  }
}
