/** Index arithmetic of the loop synthesizer (advanceLoopPlayback): where in
    the frozen snapshot each output sample reads, how the seam crossfade
    weighs tail against head, and how the fractional playhead advances and
    wraps. Sample values stay opaque: a Tap records what would be read and
    with which weights, not the interpolated audio. */
module LoopPlayback {
  import opened Modular

  /** The reads behind one output sample: window start s, integer and
      fractional parts of the playhead, the two tail indices, the two head
      (crossfade-in) indices and the two crossfade weights. */
  datatype Tap = Tap(start: int, whole: int, frac: real,
                     idx0: int, idx1: int, cidx0: int, cidx1: int,
                     xfadeA: real, xfadeB: real)


  /** Start of the loop window, snapEndPos - currentLoopSamples, clamped
      into the snapshot. */
  function WindowStart(snapEndPos: int, current: int, n: int): (s: int)
    requires n >= 1
    ensures 0 <= s < n
    ensures 0 <= snapEndPos - current < n ==> s == snapEndPos - current
  {
    Clamp(0, n - 1, snapEndPos - current)
  }

  /** A tail read at offset k from the window start, folded back by one
      loop length once it reaches snapEndPos. When the window lies where
      it should, every offset 0..current lands inside the window. */
  function TailIndex(s: int, k: int, snapEndPos: int, current: int): (idx: int)
    ensures idx == s + k || idx == s + k - current
    ensures 1 <= current && s == snapEndPos - current && 0 <= k <= current ==>
      snapEndPos - current <= idx < snapEndPos
  {
    if s + k >= snapEndPos then s + k - current else s + k
  }

  /** Seam crossfade weights for a playhead that has samplesLeft whole
      samples before the loop end: all tail outside the crossfade zone,
      then a linear hand-over ending all head on the last sample. The two
      weights always lie in [0, 1] and sum to 1. */
  function CrossfadeWeights(samplesLeft: int, xfadeSamples: int): (w: (real, real))
    ensures 0.0 <= w.0 <= 1.0 && w.1 == 1.0 - w.0
    ensures samplesLeft >= xfadeSamples ==> w == (1.0, 0.0)
    ensures 0 <= samplesLeft < xfadeSamples ==> w.0 == samplesLeft as real / xfadeSamples as real
    ensures samplesLeft <= 0 && samplesLeft < xfadeSamples ==> w == (0.0, 1.0)
  {
    if samplesLeft < xfadeSamples then
      var t := ClampReal(0.0, 1.0, samplesLeft as real / Max(1, xfadeSamples) as real);
      (t, 1.0 - t)
    else
      (1.0, 0.0)
  }

  /** The head read index folded into the snapshot: repeated additions of
      n while negative, then at most one subtraction. It keeps the residue
      modulo n, and lands in [0, n) whenever it started below 2n. */
  method WrapHead(c: int, n: int) returns (r: int)
    requires n >= 1
    ensures r % n == c % n
    ensures c < 2 * n ==> 0 <= r < n
    ensures 0 <= c ==> r == if c >= n then c - n else c
  {
    r := c;
    while r < 0
      invariant r % n == c % n
      invariant c < 0 ==> r < n
      invariant 0 <= c ==> r == c
      decreases -r
    {
      ModShift(r, 1, n);
      r := r + n;
    }
    if r >= n {
      ModShift(r, -1, n);
      r := r - n;
    }
  }

  /** The playhead is where the source declares it: inside the current
      loop, whose window fits in the snapshot. */
  predicate PlayheadInWindow(snapEndPos: int, current: int, n: int, pos: real)
  {
    1 <= current <= snapEndPos <= n && 0.0 <= pos < current as real
  }

  /** Every read of the tap is inside the snapshot: the tail reads inside
      the tap's window [start, snapEndPos), the head reads in [0, n). */
  predicate TapInBounds(t: Tap, snapEndPos: int, n: int)
  {
    && 0 <= t.start
    && t.start <= t.idx0 < snapEndPos
    && t.start <= t.idx1 < snapEndPos
    && 0 <= t.cidx0 < n && 0 <= t.cidx1 < n
    && 0.0 <= t.frac < 1.0
  }

  /** The tap that PluginProcessor.cpp:341-363 and 373-378 compute for a playhead pos in
      a loop of current samples ending at snapEndPos in an n-sample
      snapshot. The head indices are given up to multiples of n. */
  predicate TapFor(t: Tap, pos: real, current: int, snapEndPos: int, n: int, xfadeSamples: int): (b: bool)
    requires n >= 1
    ensures b ==> 0 <= t.start < n && 0.0 <= t.xfadeA <= 1.0 && t.xfadeA + t.xfadeB == 1.0
    ensures b && 0.0 <= pos ==> 0.0 <= t.frac < 1.0
  {
    && t.start == WindowStart(snapEndPos, current, n)
    && t.whole == Trunc(pos) && t.frac == pos - t.whole as real
    && t.idx0 == TailIndex(t.start, t.whole, snapEndPos, current)
    && t.idx1 == TailIndex(t.start, t.whole + 1, snapEndPos, current)
    && t.cidx0 % n == (t.start + t.whole + 1 - current) % n
    && t.cidx1 % n == (t.start + t.whole + 2 - current) % n
    && (t.xfadeA, t.xfadeB) == CrossfadeWeights(current - 1 - t.whole, xfadeSamples)
  }

  /** A block of taps read by a playhead that starts at pos in a loop of
      current samples, with pending waiting and the given speed: tap i is
      the one for the i-th playhead position of FixedAfter. */
  predicate TapsFollow(taps: seq<Tap>, pos: real, current: int, pending: int, speed: real,
                       snapEndPos: int, n: int, xfadeSamples: int)
    requires n >= 1
    decreases |taps|
  {
    taps == [] ||
    (&& TapsFollow(taps[..|taps| - 1], pos, current, pending, speed, snapEndPos, n, xfadeSamples)
     && var ph := FixedAfter(pos, current, pending, speed, |taps| - 1);
        TapFor(taps[|taps| - 1], ph.0, ph.1, snapEndPos, n, xfadeSamples))
  }

  /** Extending a block by the tap for the next playhead position. */
  lemma TapsFollowSnoc(taps: seq<Tap>, t: Tap, pos: real, current: int, pending: int, speed: real,
                       snapEndPos: int, n: int, xfadeSamples: int)
    requires n >= 1 && TapsFollow(taps, pos, current, pending, speed, snapEndPos, n, xfadeSamples)
    requires var ph := FixedAfter(pos, current, pending, speed, |taps|);
      TapFor(t, ph.0, ph.1, snapEndPos, n, xfadeSamples)
    ensures TapsFollow(taps + [t], pos, current, pending, speed, snapEndPos, n, xfadeSamples)
  {
    assert (taps + [t])[..|taps|] == taps;
  }

  /** Reading TapsFollow index by index. */
  lemma {:induction false} TapsFollowEach(taps: seq<Tap>, pos: real, current: int, pending: int, speed: real,
                                          snapEndPos: int, n: int, xfadeSamples: int, j: int)
    requires n >= 1 && TapsFollow(taps, pos, current, pending, speed, snapEndPos, n, xfadeSamples)
    requires 0 <= j < |taps|
    ensures var ph := FixedAfter(pos, current, pending, speed, j);
      TapFor(taps[j], ph.0, ph.1, snapEndPos, n, xfadeSamples)
    decreases |taps|
  {
    if j < |taps| - 1 {
      var init := taps[..|taps| - 1];
      assert init[j] == taps[j];
      TapsFollowEach(init, pos, current, pending, speed, snapEndPos, n, xfadeSamples, j);
    }
  }

  /** One iteration of the per-sample loop body: the reads and weights for
      the playhead pos. The early return of advanceLoopPlayback guarantees
      n > 1 and current > 0 here. The head reads always land in the
      snapshot unless the playhead is two snapshots ahead, and while the
      playhead is inside its window every read is in bounds. */
  method ComputeTap(snapEndPos: int, current: int, n: int, pos: real, xfadeSamples: int) returns (t: Tap)
    requires n > 1 && current > 0
    ensures TapFor(t, pos, current, snapEndPos, n, xfadeSamples)
    ensures t.start + t.whole + 2 - current < 2 * n ==> 0 <= t.cidx0 < n && 0 <= t.cidx1 < n
    ensures PlayheadInWindow(snapEndPos, current, n, pos) ==> TapInBounds(t, snapEndPos, n)
  {
    var s := WindowStart(snapEndPos, current, n);
    var ip := Trunc(pos);
    var frac := pos - ip as real;
    var idx0 := TailIndex(s, ip, snapEndPos, current);
    var idx1 := TailIndex(s, ip + 1, snapEndPos, current);
    var w := CrossfadeWeights(current - 1 - ip, xfadeSamples);
    var cidx0 := WrapHead(s + (ip + 1 - current), n);
    var cidx1 := WrapHead(s + (ip + 2 - current), n);
    t := Tap(s, ip, frac, idx0, idx1, cidx0, cidx1, w.0, w.1);
  }

  /** The advance of the playhead with the corrected wrap: step by the
      speed; on reaching the loop end take off the length of the loop that
      ended, commit the pending length and fold what is left into it. This
      is the in-place update the per-sample loop performs; the function
      PlayheadStepFixed is its specification, which the lemmas about whole
      blocks (FixedAfter) are stated in. */
  method AdvancePlayhead(pos: real, current: int, pending: int, speed: real) returns (pos': real, current': int)
    ensures (pos', current') == PlayheadStepFixed(pos, current, pending, speed)
    ensures current' == current || current' == Max(1, pending)
    ensures 1 <= current && 0.0 <= pos < current as real && 0.0 < speed ==> 0.0 <= pos' < current' as real
  {
    pos', current' := pos + speed, current;
    if pos' >= current as real {
      var rest := pos' - current as real;
      current' := Max(1, pending);
      pos' := FoldInto(rest, current');
    }
    if 1 <= current && 0.0 <= pos < current as real && 0.0 < speed {
      FixedStepKeepsRange(pos, current, pending, speed);
    }
  }

  /** AdvancePlayhead on the k-th playhead of a block gives the next one.
      It packages the step with FixedAfterNext so that PlaySamples's loop
      body discharges one small call instead of unfolding FixedAfter. */
  method AdvanceAlong(pos: real, current: int, pending: int, speed: real, k: nat, p: real, c: int)
    returns (p': real, c': int)
    requires (p, c) == FixedAfter(pos, current, pending, speed, k)
    ensures (p', c') == FixedAfter(pos, current, pending, speed, k + 1)
    ensures c' == c || c' == Max(1, pending)
    ensures 1 <= c && 0.0 <= p < c as real && 0.0 < speed ==> 0.0 <= p' < c' as real
  {
    FixedAfterNext(pos, current, pending, speed, k);
    p', c' := AdvancePlayhead(p, c, pending, speed);
  }

  /** advanceLoopPlayback up to its stop test, over a block of numSamples
      output samples, on the playhead pos in a loop of current samples with
      pending waiting: with no snapshot to read (n <= 1) or no loop
      (current <= 0) nothing happens; otherwise the taps read, then the
      playhead and loop length the block leaves behind. The length changes
      only to the pending one; a playhead in [0, current) stays in its
      loop; and started inside its window with a pending length that fits
      before the snapshot end, the playhead stays in its window and every
      read of the block is in bounds. */
  method PlayBlock(pos: real, current: int, pending: int, speed: real,
                   snapEndPos: int, n: int, xfadeSamples: int, numSamples: nat)
    returns (taps: seq<Tap>, pos': real, current': int)
    requires pending >= 1
    ensures n <= 1 || current <= 0 ==> taps == [] && pos' == pos && current' == current
    ensures n > 1 && current > 0 ==>
      && |taps| == numSamples
      && (current' == current || current' == pending)
      && (pos', current') == FixedAfter(pos, current, pending, speed, numSamples)
      && TapsFollow(taps, pos, current, pending, speed, snapEndPos, n, xfadeSamples)
    ensures 0.0 <= pos < current as real && 0.0 < speed ==> 0.0 <= pos' < current' as real
    ensures n > 1 && PlayheadInWindow(snapEndPos, current, n, pos) && pending <= snapEndPos && 0.0 < speed ==>
      && PlayheadInWindow(snapEndPos, current', n, pos')
      && forall i :: 0 <= i < |taps| ==>
           TapInBounds(taps[i], snapEndPos, n)
  {
    taps, pos', current' := [], pos, current;
    if n <= 1 || current <= 0 {
      return;
    }
    taps, pos', current' := PlaySamples(pos, current, pending, speed, snapEndPos, n, xfadeSamples, numSamples);
  }

  /** The per-sample loop of PlayBlock, once there is a snapshot and a loop
      to read. */
  method PlaySamples(pos: real, current: int, pending: int, speed: real,
                     snapEndPos: int, n: int, xfadeSamples: int, numSamples: nat)
    returns (taps: seq<Tap>, pos': real, current': int)
    requires n > 1 && current > 0 && pending >= 1
    ensures |taps| == numSamples
    ensures current' == current || current' == pending
    ensures (pos', current') == FixedAfter(pos, current, pending, speed, numSamples)
    ensures TapsFollow(taps, pos, current, pending, speed, snapEndPos, n, xfadeSamples)
    ensures 0.0 <= pos < current as real && 0.0 < speed ==> 0.0 <= pos' < current' as real
    ensures PlayheadInWindow(snapEndPos, current, n, pos) && pending <= snapEndPos && 0.0 < speed ==>
      && PlayheadInWindow(snapEndPos, current', n, pos')
      && forall i :: 0 <= i < |taps| ==>
           TapInBounds(taps[i], snapEndPos, n)
  {
    taps, pos', current' := [], pos, current;
    var ranged := 0.0 <= pos < current as real && 0.0 < speed;
    var inWindow := PlayheadInWindow(snapEndPos, current, n, pos) && pending <= snapEndPos && 0.0 < speed;
    var i := 0;
    while i < numSamples
      invariant 0 <= i <= numSamples && |taps| == i
      invariant current' == current || current' == pending
      invariant (pos', current') == FixedAfter(pos, current, pending, speed, i)
      invariant TapsFollow(taps, pos, current, pending, speed, snapEndPos, n, xfadeSamples)
      invariant ranged ==> 0.0 <= pos' < current' as real
      invariant inWindow ==> PlayheadInWindow(snapEndPos, current', n, pos')
      invariant inWindow ==> forall j :: 0 <= j < i ==>
        TapInBounds(taps[j], snapEndPos, n)
    {
      var t := ComputeTap(snapEndPos, current', n, pos', xfadeSamples);
      TapsFollowSnoc(taps, t, pos, current, pending, speed, snapEndPos, n, xfadeSamples);
      taps := taps + [t];
      pos', current' := AdvanceAlong(pos, current, pending, speed, i, pos', current');
      i := i + 1;
    }
  }

  /** PluginProcessor.cpp:388-394 as written: advance by the speed; on reaching the loop
      end, commit the pending length FIRST and then subtract it. The loop
      length changes only on such a wrap, and never drops below 1. */
  function PlayheadStep(pos: real, current: int, pending: int, speed: real): (r: (real, int))
    ensures r.1 != current ==> pos + speed >= current as real
    ensures pos + speed >= current as real ==> r.1 == Max(1, pending) >= 1
    ensures pos + speed < current as real ==> r == (pos + speed, current)
  {
    var q := pos + speed;
    if q >= current as real then
      var c := Max(1, pending);
      (q - c as real, c)
    else
      (q, current)
  }

  /** The playhead and loop length after k output samples, as written. The
      length is still the starting one or has become the pending one. */
  function PlayheadAfter(pos: real, current: int, pending: int, speed: real, k: nat): (r: (real, int))
    ensures r.1 == current || r.1 == Max(1, pending)
  {
    if k == 0 then (pos, current)
    else
      var prev := PlayheadAfter(pos, current, pending, speed, k - 1);
      PlayheadStep(prev.0, prev.1, pending, speed)
  }

  /** The declared playhead range [0, currentLoopSamples) is kept for any
      number of samples, but only while no new length is pending and the
      speed does not exceed the loop length. */
  lemma {:induction false} SettledPlayheadStaysInLoop(pos: real, current: int, speed: real, k: nat)
    requires 1 <= current && 0.0 <= pos < current as real && 0.0 < speed <= current as real
    ensures PlayheadAfter(pos, current, current, speed, k).1 == current
    ensures 0.0 <= PlayheadAfter(pos, current, current, speed, k).0 < current as real
  {
    if k > 0 {
      SettledPlayheadStaysInLoop(pos, current, speed, k - 1);
    }
  }

  /** The seam at unit speed: the last sample before the wrap is read
      wholly from the head, at the window start, and the first sample after
      the wrap is read from the window start again at the same fraction.
      When the loop is longer than the crossfade, that sample is all tail,
      so one output sample repeats at every seam. */
  lemma SeamAtUnitSpeed(snapEndPos: int, current: int, n: int, pos: real, xfadeSamples: int)
    requires PlayheadInWindow(snapEndPos, current, n, pos) && Trunc(pos) == current - 1 && xfadeSamples >= 1
    ensures CrossfadeWeights(current - 1 - Trunc(pos), xfadeSamples) == (0.0, 1.0)
    ensures var s := WindowStart(snapEndPos, current, n);
      var next := PlayheadStep(pos, current, current, 1.0);
      && s + Trunc(pos) + 1 - current == s
      && next == (pos - Trunc(pos) as real, current)
      && TailIndex(s, Trunc(next.0), snapEndPos, current) == s
    ensures var next := PlayheadStep(pos, current, current, 1.0);
      && Trunc(next.0) == 0
      && (xfadeSamples <= current - 1 ==> CrossfadeWeights(current - 1 - Trunc(next.0), xfadeSamples) == (1.0, 0.0))
  {
  }

  // ---------------------------------------------------------------------
  // Where the as-written wrap leaves the declared range.

  /** Committing a longer pending length before subtracting it drives the
      playhead negative: from 899.5 in a 900-sample loop with 984 pending,
      one step lands at -83.5, and the next tail read in a 1000-sample
      snapshot is at index -67, before the buffer. */
  lemma LongerPendingReadsBeforeSnapshot()
    ensures PlayheadStep(899.5, 900, 984, 1.0) == (-83.5, 984)
    ensures TailIndex(WindowStart(1000, 984, 1000), Trunc(-83.5), 1000, 984) == -67
  {
  }

  /** Committing a shorter pending length before subtracting it leaves the
      playhead beyond the new loop: from 99.5 in a 100-sample loop with 10
      pending, one step lands at 90.5, and the next tail read in a
      1000-sample snapshot is at index 1070, past the buffer. */
  lemma ShorterPendingReadsPastSnapshot()
    ensures PlayheadStep(99.5, 100, 10, 1.0) == (90.5, 10)
    ensures TailIndex(WindowStart(1000, 10, 1000), Trunc(90.5), 1000, 10) == 1070
  {
  }

  /** A single subtraction cannot wrap a speed above the loop length: a
      one-sample loop at speed 1.5 goes from 0.5 to 1.0, outside [0, 1),
      and the second tail read of the next sample, in a 1000-sample snapshot, is at index
      1000, past the buffer, although nothing is pending. */
  lemma FastOneSampleLoopReadsPastSnapshot()
    ensures PlayheadStep(0.5, 1, 1, 1.5) == (1.0, 1)
    ensures TailIndex(WindowStart(1000, 1, 1000), Trunc(1.0) + 1, 1000, 1) == 1000
  {
  }

  // ---------------------------------------------------------------------
  // The wrap as evidently intended.

  /** Wrap by the length of the loop that just ended, then commit the
      pending length and fold what is left over into it. */
  function PlayheadStepFixed(pos: real, current: int, pending: int, speed: real): (r: (real, int))
  {
    var q := pos + speed;
    if q < current as real then
      (q, current)
    else
      var c := Max(1, pending);
      var rest := q - current as real;
      (FoldInto(rest, c), c)
  }

  /** What is left of an overshoot rest once whole loops of c samples are
      taken off: c times the fractional part of rest / c, in [0, c). */
  function FoldInto(rest: real, c: int): (r: real)
    requires c >= 1
    ensures 0.0 <= r < c as real
  {
    var g := FracPart(rest / c as real);
    ScaleBelow(c as real, g);
    c as real * g
  }

  /** The fractional part x - floor(x), in [0, 1). */
  function FracPart(x: real): (g: real)
    ensures 0.0 <= g < 1.0
  {
    x - x.Floor as real
  }

  /** The corrected wrap keeps the playhead in [0, currentLoopSamples) on
      every step, whatever is pending and whatever the speed, and the loop
      length still changes only on a wrap. */
  lemma FixedStepKeepsRange(pos: real, current: int, pending: int, speed: real)
    requires 1 <= current && 0.0 <= pos < current as real && 0.0 < speed
    ensures var r := PlayheadStepFixed(pos, current, pending, speed);
      && 1 <= r.1 && 0.0 <= r.0 < r.1 as real
      && (r.1 != current ==> pos + speed >= current as real)
  {
    var q := pos + speed;
    if q >= current as real {
      assert PlayheadStepFixed(pos, current, pending, speed) == (FoldInto(q - current as real, Max(1, pending)), Max(1, pending));
    }
  }

  /** A fraction of a positive length stays in [0, length). */
  lemma ScaleBelow(c: real, g: real)
    requires 0.0 < c && 0.0 <= g < 1.0
    ensures 0.0 <= c * g < c
  {
    MulPositiveMonotone(c, 0.0, g);
    MulPositiveStrict(c, g, 1.0);
  }

  /** Scaling by a positive factor keeps a non-strict order. */
  lemma MulPositiveMonotone(c: real, a: real, b: real)
    requires 0.0 < c && a <= b
    ensures c * a <= c * b
  {
    assert c * b - c * a == c * (b - a);
  }

  /** Scaling by a positive factor keeps a strict order. */
  lemma MulPositiveStrict(c: real, a: real, b: real)
    requires 0.0 < c && a < b
    ensures c * a < c * b
  {
    assert c * b - c * a == c * (b - a);
  }

  /** With the corrected wrap every tap of a block reads inside the
      snapshot, as long as neither the current nor the pending length
      exceeds the snapshot end. */
  lemma {:induction false} FixedPlaybackStaysInWindow(snapEndPos: int, n: int, pos: real, current: int, pending: int, speed: real, k: nat)
    requires PlayheadInWindow(snapEndPos, current, n, pos)
    requires 1 <= pending <= snapEndPos && 0.0 < speed
    ensures PlayheadInWindow(snapEndPos, FixedAfter(pos, current, pending, speed, k).1, n, FixedAfter(pos, current, pending, speed, k).0)
  {
    if k > 0 {
      FixedPlaybackStaysInWindow(snapEndPos, n, pos, current, pending, speed, k - 1);
      var prev := FixedAfter(pos, current, pending, speed, k - 1);
      FixedStepKeepsRange(prev.0, prev.1, pending, speed);
    }
  }

  /** The corrected playhead and loop length after k output samples. */
  function FixedAfter(pos: real, current: int, pending: int, speed: real, k: nat): (real, int)
  {
    if k == 0 then (pos, current)
    else
      var prev := FixedAfter(pos, current, pending, speed, k - 1);
      PlayheadStepFixed(prev.0, prev.1, pending, speed)
  }

  /** One more output sample is one more corrected step. */
  lemma FixedAfterNext(pos: real, current: int, pending: int, speed: real, k: nat)
    ensures var prev := FixedAfter(pos, current, pending, speed, k);
      FixedAfter(pos, current, pending, speed, k + 1) == PlayheadStepFixed(prev.0, prev.1, pending, speed)
  {
  }

  /** An overshoot already shorter than the new loop is kept as it is: the
      fold only matters when the rest reaches a whole loop. */
  lemma FoldIntoSmallRest(rest: real, c: int)
    requires c >= 1 && 0.0 <= rest < c as real
    ensures FoldInto(rest, c) == rest
  {
    var g := rest / c as real;
    assert g * c as real == rest;
    MulPositiveMonotone(c as real, 0.0, g);
    if g >= 1.0 {
      MulPositiveMonotone(c as real, 1.0, g);
      assert false;
    }
    assert g.Floor == 0;
  }

  /** The correction changes nothing where the code as written is right:
      with nothing pending and a speed no larger than the loop, a playhead
      inside the loop takes the same step either way. */
  lemma FixedAgreesWhenSettled(pos: real, current: int, speed: real)
    requires 1 <= current && 0.0 <= pos < current as real && 0.0 < speed <= current as real
    ensures PlayheadStepFixed(pos, current, current, speed) == PlayheadStep(pos, current, current, speed)
  {
    var q := pos + speed;
    if q >= current as real {
      FoldIntoSmallRest(q - current as real, current);
    }
  }
}
