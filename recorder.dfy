/** The always-running ring recorder and the snapshot taken from it: the
    loops of writeToRecorder and snapshotRecorder on the two buffers, and
    their cursor arithmetic. A buffer is an array2 indexed [channel,
    sample]; sample values are opaque. The buffers are fields of
    Engine.Buffr3Processor, which passes them in. */
module Recorder {
  import opened Modular

  /** The latency-compensated end cursor of snapshotRecorder: the write
      cursor moved back by the latency, brought up by whole capacities while
      negative and then reduced modulo the capacity. It is the ring slot
      (writePos - latency) mod n. */
  method LatencyCompensatedEnd(writePos: int, latency: int, n: int) returns (end: int)
    requires n >= 1
    ensures 0 <= end < n
    ensures end == (writePos - latency) % n
  {
    end := writePos - latency;
    while end < 0
      invariant end % n == (writePos - latency) % n
      decreases -end
    {
      ModShift(end, 1, n);
      end := end + n;
    }
    end := end % n;
  }

  /** The snapshot is the ring read from slot end onward: snapshot index k
      holds ring slot (end + k) mod capacity, on every channel. */
  ghost predicate Frozen<S>(snap: array2<S>, ring: array2<S>, end: int)
    reads snap, ring
    requires ring.Length1 >= 1 && snap.Length0 <= ring.Length0
  {
    forall ch, k :: 0 <= ch < snap.Length0 && 0 <= k < snap.Length1 ==>
      snap[ch, k] == ring[ch, Slot(end, k, ring.Length1)]
  }

  /** The sample loop of writeToRecorder: input sample k of the block goes
      to ring slot (w0 + k) mod capacity on the channels both buffers have,
      later samples overwriting earlier ones, so the last capacity samples
      of the block survive. The cursor ends at (w0 + block length) mod
      capacity. Slots the block does not reach, and channels beyond the
      input's, keep their samples. */
  method RecordBlock<S>(ring: array2<S>, inp: array2<S>, w0: int) returns (w: int)
    requires ring != inp && 0 <= w0 < ring.Length1
    modifies ring
    ensures w == Slot(w0, inp.Length1, ring.Length1)
    ensures forall ch, k :: 0 <= ch < Min(ring.Length0, inp.Length0) && 0 <= k < inp.Length1 && inp.Length1 - ring.Length1 <= k ==>
      ring[ch, Slot(w0, k, ring.Length1)] == inp[ch, k]
    ensures forall ch, d :: 0 <= ch < Min(ring.Length0, inp.Length0) && inp.Length1 <= d < ring.Length1 ==>
      ring[ch, Slot(w0, d, ring.Length1)] == old(ring[ch, Slot(w0, d, ring.Length1)])
    ensures forall ch, j :: Min(ring.Length0, inp.Length0) <= ch < ring.Length0 && 0 <= j < ring.Length1 ==>
      ring[ch, j] == old(ring[ch, j])
  {
    var numCh := Min(ring.Length0, inp.Length0);
    var n := inp.Length1;
    var cap := ring.Length1;
    w := w0;
    ModUnique(w0, cap, 0, w0);
    var i := 0;
    while i < n
      invariant 0 <= i <= n
      invariant 0 <= w < cap && w == Slot(w0, i, cap)
      invariant forall ch, k :: 0 <= ch < numCh && 0 <= k < i && i - cap <= k ==>
        ring[ch, Slot(w0, k, cap)] == inp[ch, k]
      invariant forall ch, d :: 0 <= ch < numCh && i <= d < cap ==>
        ring[ch, Slot(w0, d, cap)] == old(ring[ch, Slot(w0, d, cap)])
      invariant forall ch, j :: numCh <= ch < ring.Length0 && 0 <= j < cap ==>
        ring[ch, j] == old(ring[ch, j])
    {
      WriteColumn(ring, inp, i, w, numCh);
      forall c, k | 0 <= c < numCh && 0 <= k < i && i + 1 - cap <= k
        ensures ring[c, Slot(w0, k, cap)] == inp[c, k]
      {
        ModDistinct(w0, k, i, cap);
      }
      forall c, d | 0 <= c < numCh && i + 1 <= d < cap
        ensures ring[c, Slot(w0, d, cap)] == old(ring[c, Slot(w0, d, cap)])
      {
        ModDistinct(w0, i, d, cap);
      }
      ModStep(w0 + i, cap);
      w := w + 1;
      if w >= cap {
        w := 0;
      }
      i := i + 1;
    }
  }

  /** The channel loop inside writeToRecorder: input sample i of the first
      numCh channels goes to ring slot w; nothing else changes. */
  method WriteColumn<S>(ring: array2<S>, inp: array2<S>, i: int, w: int, numCh: int)
    requires ring != inp && 0 <= i < inp.Length1 && 0 <= w < ring.Length1
    requires 0 <= numCh <= ring.Length0 && numCh <= inp.Length0
    modifies ring
    ensures forall c, j :: 0 <= c < ring.Length0 && 0 <= j < ring.Length1 ==>
      ring[c, j] == if c < numCh && j == w then inp[c, i] else old(ring[c, j])
  {
    var ch := 0;
    while ch < numCh
      invariant 0 <= ch <= numCh
      invariant forall c, j :: 0 <= c < ring.Length0 && 0 <= j < ring.Length1 ==>
        ring[c, j] == if c < ch && j == w then inp[c, i] else old(ring[c, j])
    {
      ring[ch, w] := inp[ch, i];
      ch := ch + 1;
    }
  }

  /** The copy of snapshotRecorder: every channel of the ring, rotated so
      that the snapshot starts at ring slot end. */
  method CopyRotated<S>(ring: array2<S>, snap: array2<S>, end: int)
    requires ring != snap && snap.Length0 == ring.Length0 && snap.Length1 == ring.Length1
    requires 0 <= end < ring.Length1
    modifies snap
    ensures Frozen(snap, ring, end)
  {
    var ch := 0;
    while ch < ring.Length0
      invariant 0 <= ch <= ring.Length0
      invariant forall c, k :: 0 <= c < ch && 0 <= k < ring.Length1 ==> snap[c, k] == ring[c, Slot(end, k, ring.Length1)]
    {
      CopyChannel(ring, snap, ch, end);
      ch := ch + 1;
    }
  }

  /** One channel of the rotated copy: first the part of the ring from
      slot end to the physical end, then the part before slot end. Other
      channels keep their samples. */
  method CopyChannel<S>(ring: array2<S>, snap: array2<S>, ch: int, end: int)
    requires ring != snap && snap.Length0 == ring.Length0 && snap.Length1 == ring.Length1
    requires 0 <= ch < ring.Length0 && 0 <= end < ring.Length1
    modifies snap
    ensures forall k :: 0 <= k < ring.Length1 ==> snap[ch, k] == ring[ch, Slot(end, k, ring.Length1)]
    ensures forall c, k :: 0 <= c < snap.Length0 && c != ch && 0 <= k < snap.Length1 ==> snap[c, k] == old(snap[c, k])
  {
    var cap := ring.Length1;
    var tail := cap - end;
    var k := 0;
    while k < tail
      invariant 0 <= k <= tail
      invariant forall c, j :: 0 <= c < snap.Length0 && c != ch && 0 <= j < cap ==> snap[c, j] == old(snap[c, j])
      invariant forall j :: 0 <= j < k ==> snap[ch, j] == ring[ch, end + j]
    {
      snap[ch, k] := ring[ch, end + k];
      k := k + 1;
    }
    k := 0;
    while k < end
      invariant 0 <= k <= end
      invariant forall c, j :: 0 <= c < snap.Length0 && c != ch && 0 <= j < cap ==> snap[c, j] == old(snap[c, j])
      invariant forall j :: 0 <= j < tail ==> snap[ch, j] == ring[ch, end + j]
      invariant forall j :: 0 <= j < k ==> snap[ch, tail + j] == ring[ch, j]
    {
      snap[ch, tail + k] := ring[ch, k];
      k := k + 1;
    }
    forall j | 0 <= j < cap
      ensures snap[ch, j] == ring[ch, Slot(end, j, cap)]
    {
      RingOffset(end, j, cap);
      if j >= tail {
        assert snap[ch, tail + (j - tail)] == ring[ch, j - tail];
      }
    }
  }

  /** The freeze after a block: once RecordBlock has written the n samples
      of inp from cursor w0 and the ring is frozen with a latency of lat
      samples (end == (w - lat) % cap, w the cursor RecordBlock returns),
      the snapshot ends with the input lat samples before the newest one:
      the sample j places before its end is input sample n - 1 - lat - j. */
  lemma {:induction false} SnapshotEndsWithNewestInput<S>(ring: array2<S>, snap: array2<S>, inp: array2<S>,
                                                         w0: int, lat: int, ch: int, j: int)
    requires ring.Length1 >= 1 && snap.Length0 <= ring.Length0 && snap.Length1 == ring.Length1
    requires 0 <= w0 < ring.Length1
    requires Frozen(snap, ring, (Slot(w0, inp.Length1, ring.Length1) - lat) % ring.Length1)
    requires forall c, k :: 0 <= c < Min(ring.Length0, inp.Length0) && 0 <= k < inp.Length1 && inp.Length1 - ring.Length1 <= k ==>
      ring[c, Slot(w0, k, ring.Length1)] == inp[c, k]
    requires 0 <= ch < Min(snap.Length0, inp.Length0)
    requires 0 <= lat && 0 <= j && lat + j < Min(inp.Length1, ring.Length1)
    ensures snap[ch, ring.Length1 - 1 - j] == inp[ch, inp.Length1 - 1 - lat - j]
  {
    var cap, n := ring.Length1, inp.Length1;
    var k := n - 1 - lat - j;
    ModAddMod(w0 + n, -lat, cap);
    ModAddMod(w0 + n - lat, cap - 1 - j, cap);
    ModShift(w0 + k, 1, cap);
    assert Slot((Slot(w0, n, cap) - lat) % cap, cap - 1 - j, cap) == Slot(w0, k, cap);
  }
}
