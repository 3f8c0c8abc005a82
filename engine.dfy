/** The live loop engine of Buffr3AudioProcessor: the always-running ring
    recorder, the snapshot frozen from it, the MIDI-driven trigger state, the
    loop playhead and the two envelope targets. Audio samples are an opaque
    type S; a buffer is an array2 indexed [channel, sample]. */
module Engine {
  import opened Modular
  import opened Envelopes
  import opened MidiControl
  import opened LoopPlayback
  import opened Recorder

  /** An envelope whose value and target stay in the unit interval. */
  predicate UnitEnvelope(e: Envelope)
  {
    0.0 <= e.current <= 1.0 && 0.0 <= e.target <= 1.0
  }

  /** Ramp time of a release: releaseMs in seconds, at least 1 ms. */
  function ReleaseSeconds(releaseMs: int): (s: real)
    ensures s >= 0.001
    ensures releaseMs >= 1 ==> s == releaseMs as real / 1000.0
  {
    MaxReal(0.001, releaseMs as real / 1000.0)
  }

  class Buffr3Processor<S> {
    // Recorder (always running): recBuffer and its write cursor.
    const rec: array2<S>
    var recWritePos: int

    // Snapshot taken at trigger.
    const snap: array2<S>
    var snapEndPos: int
    var userSampleLoaded: bool

    // Loop playback.
    var looping: bool
    var currentLoopSamples: int
    var pendingLoopSamples: int
    var loopReadPos: real
    const xfadeSamples: int

    // Envelopes: loop gain, and passthrough (1 full, 0 muted).
    var loopEnv: Envelope
    var passthroughMuteEnv: Envelope

    // Pitch state driven by MIDI.
    var pitchBendNorm: real
    var notesDown: int
    var lastNoteNumber: int

    // Ring capacity (4 seconds at the session rate).
    const maxSamples4s: int

    /** The engine's invariant: the declared ranges of the header plus the
        buffer shapes prepareToPlay establishes. */
    ghost predicate Valid()
      reads this
    {
      && rec.Length0 >= 1 && rec.Length1 == maxSamples4s && maxSamples4s >= 17
      && snap != rec && snap.Length0 == rec.Length0 && snap.Length1 == rec.Length1
      && 0 <= recWritePos < rec.Length1
      && 0 <= snapEndPos <= snap.Length1
      && 1 <= currentLoopSamples <= maxSamples4s - 16
      && 1 <= pendingLoopSamples <= maxSamples4s - 16
      && 0.0 <= loopReadPos < currentLoopSamples as real
      && (looping ==> snapEndPos == snap.Length1)
      && xfadeSamples >= 1
      && UnitEnvelope(loopEnv) && UnitEnvelope(passthroughMuteEnv)
      && notesDown >= 0
      && -1.0 <= pitchBendNorm <= 1.0
    }

    /** Construction followed by prepareToPlay: both buffers sized to
        maxSamples and cleared, cursors at 0, loop lengths 1, loop silent,
        passthrough open, middle C as the last note, bend centred. */
    constructor (inputChannels: nat, maxSamples: int, xfade: int, silence: S)
      requires maxSamples >= 17 && xfade >= 1
      ensures Valid() && fresh(rec) && fresh(snap)
      ensures rec.Length0 == Max(1, inputChannels) && rec.Length1 == maxSamples
      ensures forall ch, i :: 0 <= ch < rec.Length0 && 0 <= i < rec.Length1 ==>
        rec[ch, i] == silence && snap[ch, i] == silence
      ensures recWritePos == 0 && snapEndPos == 0 && !userSampleLoaded && !looping
      ensures currentLoopSamples == 1 && pendingLoopSamples == 1 && loopReadPos == 0.0
      ensures xfadeSamples == xfade && maxSamples4s == maxSamples
      ensures notesDown == 0 && lastNoteNumber == 60 && pitchBendNorm == 0.0
      ensures loopEnv == Envelope(0.0, 0.0, 0.03) && passthroughMuteEnv == Envelope(1.0, 1.0, 0.03)
    {
      var channels := Max(1, inputChannels);
      rec := new S[channels, maxSamples]((ch, i) => silence);
      snap := new S[channels, maxSamples]((ch, i) => silence);
      recWritePos := 0;
      snapEndPos := 0;
      userSampleLoaded := false;
      looping := false;
      currentLoopSamples := 1;
      pendingLoopSamples := 1;
      loopReadPos := 0.0;
      xfadeSamples := xfade;
      loopEnv := Envelope(0.0, 0.0, 0.03);
      passthroughMuteEnv := Envelope(1.0, 1.0, 0.03);
      pitchBendNorm := 0.0;
      notesDown := 0;
      lastNoteNumber := 60;
      maxSamples4s := maxSamples;
    }

    // ----------------------------------------------------------------
    // Telemetry getters: pure reads.

    function RecorderWritePos(): (p: int)
      reads this
      requires Valid()
      ensures 0 <= p < rec.Length1 && p == recWritePos
    {
      recWritePos
    }

    function SnapshotEndPos(): (p: int)
      reads this
      requires Valid()
      ensures 0 <= p <= snap.Length1 && p == snapEndPos
    {
      snapEndPos
    }

    function IsLoopingActive(): (b: bool)
      reads this
      ensures b == looping
    {
      looping
    }

    function HasUserSample(): (b: bool)
      reads this
      ensures b == userSampleLoaded
    {
      userSampleLoaded
    }

    function LoopEnv(): (v: real)
      reads this
      requires Valid()
      ensures 0.0 <= v <= 1.0 && v == loopEnv.current
    {
      loopEnv.current
    }

    function PassthroughEnv(): (v: real)
      reads this
      requires Valid()
      ensures 0.0 <= v <= 1.0 && v == 1.0 - passthroughMuteEnv.current
    {
      1.0 - passthroughMuteEnv.current
    }

    // ----------------------------------------------------------------
    // Ring recorder.

    /** writeToRecorder: every input sample i of the block goes to ring slot
        (w0 + i) mod capacity on the channels both buffers have, later
        samples overwriting earlier ones; the cursor advances by the block
        length modulo the capacity. Slots the block does not reach and
        channels beyond the input's keep their samples. */
    method WriteToRecorder(inp: array2<S>)
      requires Valid() && inp != rec
      modifies rec, this`recWritePos
      ensures Valid()
      ensures recWritePos == Slot(old(recWritePos), inp.Length1, rec.Length1)
      ensures forall ch, k :: 0 <= ch < Min(rec.Length0, inp.Length0) && 0 <= k < inp.Length1 && inp.Length1 - rec.Length1 <= k ==>
        rec[ch, Slot(old(recWritePos), k, rec.Length1)] == inp[ch, k]
      ensures var w0 := old(recWritePos);
        forall ch, d :: 0 <= ch < Min(rec.Length0, inp.Length0) && inp.Length1 <= d < rec.Length1 ==>
          rec[ch, Slot(w0, d, rec.Length1)] == old(rec[ch, Slot(w0, d, rec.Length1)])
      ensures forall ch, j :: Min(rec.Length0, inp.Length0) <= ch < rec.Length0 && 0 <= j < rec.Length1 ==>
        rec[ch, j] == old(rec[ch, j])
    {
      recWritePos := RecordBlock(rec, inp, recWritePos);
    }

    // ----------------------------------------------------------------
    // Snapshot extractor.

    /** snapshotRecorder: rotate the ring into the snapshot so that it starts
        at the latency-compensated end cursor, so that the newest compensated
        sample (ring slot end - 1) lands at the last index
        (Recorder.SnapshotEndsWithNewestInput). The snapshot end becomes
        the capacity and the playhead is put on the loop boundary. The ring
        is not touched. */
    method SnapshotRecorder(latencyCompSamples: int)
      requires Valid()
      modifies snap, this`snapEndPos, this`loopReadPos
      ensures Valid()
      ensures Frozen(snap, rec, (recWritePos - latencyCompSamples) % rec.Length1)
      ensures snapEndPos == rec.Length1
      ensures loopReadPos == (currentLoopSamples - 1) as real
    {
      var end := LatencyCompensatedEnd(recWritePos, latencyCompSamples, rec.Length1);
      CopyRotated(rec, snap, end);
      snapEndPos := rec.Length1;
      loopReadPos := (currentLoopSamples - 1) as real;
    }

    // ----------------------------------------------------------------
    // MIDI and trigger state.

    /** handleMidi: the block's events in order update notesDown,
        lastNoteNumber and pitchBendNorm as Run describes. Any note-on
        re-snapshots the recorder unless hold or the user sample pins the
        content, and while looping pulls the loop envelope target back to 1
        and the passthrough target to 0. */
    method HandleMidi(events: seq<MidiEvent>, midiEnabled: bool, hold: bool, useUserSample: bool, latencySamples: int)
      requires Valid()
      modifies this`notesDown, this`lastNoteNumber, this`pitchBendNorm, this`loopEnv, this`passthroughMuteEnv
      modifies snap, this`snapEndPos, this`loopReadPos
      ensures Valid()
      ensures PitchState(notesDown, lastNoteNumber, pitchBendNorm) ==
        Run(old(PitchState(notesDown, lastNoteNumber, pitchBendNorm)), events, midiEnabled)
      ensures HasNoteOn(events) && !hold && !useUserSample ==>
        && Frozen(snap, rec, (recWritePos - latencySamples) % rec.Length1)
        && snapEndPos == rec.Length1 && loopReadPos == (currentLoopSamples - 1) as real
      ensures !(HasNoteOn(events) && !hold && !useUserSample) ==>
        && snapEndPos == old(snapEndPos) && loopReadPos == old(loopReadPos)
        && forall ch, k :: 0 <= ch < snap.Length0 && 0 <= k < snap.Length1 ==> snap[ch, k] == old(snap[ch, k])
      ensures HasNoteOn(events) && looping ==>
        loopEnv == old(loopEnv).(target := 1.0) && passthroughMuteEnv == old(passthroughMuteEnv).(target := 0.0)
      ensures !(HasNoteOn(events) && looping) ==>
        loopEnv == old(loopEnv) && passthroughMuteEnv == old(passthroughMuteEnv)
    {
      ghost var st0 := PitchState(notesDown, lastNoteNumber, pitchBendNorm);
      ghost var loopEnv0, passEnv0 := loopEnv, passthroughMuteEnv;
      var i := 0;
      while i < |events|
        invariant 0 <= i <= |events|
        invariant Valid()
        invariant PitchState(notesDown, lastNoteNumber, pitchBendNorm) == Run(st0, events[..i], midiEnabled)
        invariant HasNoteOn(events[..i]) && !hold && !useUserSample ==>
          && Frozen(snap, rec, (recWritePos - latencySamples) % rec.Length1)
          && snapEndPos == rec.Length1 && loopReadPos == (currentLoopSamples - 1) as real
        invariant !(HasNoteOn(events[..i]) && !hold && !useUserSample) ==>
          && snapEndPos == old(snapEndPos) && loopReadPos == old(loopReadPos)
          && forall ch, k :: 0 <= ch < snap.Length0 && 0 <= k < snap.Length1 ==> snap[ch, k] == old(snap[ch, k])
        invariant HasNoteOn(events[..i]) && looping ==>
          loopEnv == loopEnv0.(target := 1.0) && passthroughMuteEnv == passEnv0.(target := 0.0)
        invariant !(HasNoteOn(events[..i]) && looping) ==>
          loopEnv == loopEnv0 && passthroughMuteEnv == passEnv0
      {
        HasNoteOnExtend(events, i);
        assert events[..i + 1][..i] == events[..i];
        HandleEvent(events[i], midiEnabled, hold, useUserSample, latencySamples);
        i := i + 1;
      }
      assert events[..|events|] == events;
    }

    /** One event of handleMidi: a note-on counts a held note, becomes the
        last note when MIDI control is enabled, re-snapshots the recorder
        unless hold or the user sample pins the content, and while looping
        aims the loop envelope at 1 and the passthrough at 0; a note-off
        releases one held note (not below zero); a pitch-wheel message sets
        the bend; anything else is ignored. */
    method HandleEvent(ev: MidiEvent, midiEnabled: bool, hold: bool, useUserSample: bool, latencySamples: int)
      requires Valid()
      modifies this`notesDown, this`lastNoteNumber, this`pitchBendNorm, this`loopEnv, this`passthroughMuteEnv
      modifies snap, this`snapEndPos, this`loopReadPos
      ensures Valid()
      ensures PitchState(notesDown, lastNoteNumber, pitchBendNorm) ==
        ApplyEvent(old(PitchState(notesDown, lastNoteNumber, pitchBendNorm)), ev, midiEnabled)
      ensures ev.NoteOn? && !hold && !useUserSample ==>
        && Frozen(snap, rec, (recWritePos - latencySamples) % rec.Length1)
        && snapEndPos == rec.Length1 && loopReadPos == (currentLoopSamples - 1) as real
      ensures !(ev.NoteOn? && !hold && !useUserSample) ==>
        && snapEndPos == old(snapEndPos) && loopReadPos == old(loopReadPos)
        && forall ch, k :: 0 <= ch < snap.Length0 && 0 <= k < snap.Length1 ==> snap[ch, k] == old(snap[ch, k])
      ensures ev.NoteOn? && looping ==>
        loopEnv == old(loopEnv).(target := 1.0) && passthroughMuteEnv == old(passthroughMuteEnv).(target := 0.0)
      ensures !(ev.NoteOn? && looping) ==>
        loopEnv == old(loopEnv) && passthroughMuteEnv == old(passthroughMuteEnv)
    {
      match ev {
        case NoteOn(note) =>
          NoteOnEvent(note, midiEnabled, hold, useUserSample, latencySamples);
        case NoteOff(_) =>
          notesDown := Max(0, notesDown - 1);
        case PitchWheel(v) =>
          pitchBendNorm := BendFromWheel(v);
        case OtherMessage =>
      }
    }

    /** The note-on branch of handleMidi. */
    method NoteOnEvent(note: int, midiEnabled: bool, hold: bool, useUserSample: bool, latencySamples: int)
      requires Valid()
      modifies this`notesDown, this`lastNoteNumber, this`loopEnv, this`passthroughMuteEnv
      modifies snap, this`snapEndPos, this`loopReadPos
      ensures Valid()
      ensures notesDown == old(notesDown) + 1
      ensures lastNoteNumber == if midiEnabled then note else old(lastNoteNumber)
      ensures !hold && !useUserSample ==>
        && Frozen(snap, rec, (recWritePos - latencySamples) % rec.Length1)
        && snapEndPos == rec.Length1 && loopReadPos == (currentLoopSamples - 1) as real
      ensures hold || useUserSample ==>
        && snapEndPos == old(snapEndPos) && loopReadPos == old(loopReadPos)
        && forall ch, k :: 0 <= ch < snap.Length0 && 0 <= k < snap.Length1 ==> snap[ch, k] == old(snap[ch, k])
      ensures looping ==>
        loopEnv == old(loopEnv).(target := 1.0) && passthroughMuteEnv == old(passthroughMuteEnv).(target := 0.0)
      ensures !looping ==> loopEnv == old(loopEnv) && passthroughMuteEnv == old(passthroughMuteEnv)
    {
      notesDown := Max(0, notesDown + 1);
      if midiEnabled {
        lastNoteNumber := note;
      }
      if !hold && !useUserSample {
        SnapshotRecorder(latencySamples);
      }
      if looping {
        loopEnv := SetTarget(loopEnv, 1.0);
        passthroughMuteEnv := SetTarget(passthroughMuteEnv, 0.0);
      }
    }

    /** computePendingLoopFromControls, from the clamp on: the target length
        is clamped into [1, maxSamples4s - 16] and becomes pending. Then the
        trigger logic: with hold set or a note down while not looping the loop
        starts (fresh snapshot, or the loaded user sample when selected; the
        current length takes the pending one; the playhead sits on the loop
        boundary; loop envelope from 0 toward 1 and passthrough toward 0,
        both over 30 ms). With hold off, no note down and a loop running the
        release starts (looping stays on; loop envelope toward 0 and
        passthrough toward 1 over the release time). Otherwise only the
        pending length changes. */
    method ComputePendingLoopFromControls(targetSamples: int, hold: bool, useUserSample: bool, latencySamples: int, releaseMs: int)
      requires Valid()
      modifies this`pendingLoopSamples, this`currentLoopSamples, this`loopReadPos, this`looping
      modifies this`loopEnv, this`passthroughMuteEnv, snap, this`snapEndPos
      ensures Valid()
      ensures pendingLoopSamples == Clamp(1, maxSamples4s - 16, targetSamples)
      ensures (hold || notesDown > 0) && !old(looping) ==>
        && looping
        && currentLoopSamples == pendingLoopSamples
        && loopReadPos == (currentLoopSamples - 1) as real
        && loopEnv == Envelope(0.0, 1.0, 0.03)
        && passthroughMuteEnv == old(passthroughMuteEnv).(rampSeconds := 0.03, target := 0.0)
        && (useUserSample && userSampleLoaded ==>
              && snapEndPos == snap.Length1
              && forall ch, k :: 0 <= ch < snap.Length0 && 0 <= k < snap.Length1 ==> snap[ch, k] == old(snap[ch, k]))
        && (!(useUserSample && userSampleLoaded) ==>
              Frozen(snap, rec, (recWritePos - latencySamples) % rec.Length1) && snapEndPos == rec.Length1)
      ensures !hold && notesDown == 0 && old(looping) ==>
        && looping
        && currentLoopSamples == old(currentLoopSamples) && loopReadPos == old(loopReadPos)
        && loopEnv == old(loopEnv).(rampSeconds := ReleaseSeconds(releaseMs), target := 0.0)
        && passthroughMuteEnv == old(passthroughMuteEnv).(rampSeconds := ReleaseSeconds(releaseMs), target := 1.0)
        && snapEndPos == old(snapEndPos)
        && forall ch, k :: 0 <= ch < snap.Length0 && 0 <= k < snap.Length1 ==> snap[ch, k] == old(snap[ch, k])
      ensures !((hold || notesDown > 0) && !old(looping)) && !(!hold && notesDown == 0 && old(looping)) ==>
        && looping == old(looping)
        && currentLoopSamples == old(currentLoopSamples) && loopReadPos == old(loopReadPos)
        && loopEnv == old(loopEnv) && passthroughMuteEnv == old(passthroughMuteEnv)
        && snapEndPos == old(snapEndPos)
        && forall ch, k :: 0 <= ch < snap.Length0 && 0 <= k < snap.Length1 ==> snap[ch, k] == old(snap[ch, k])
    {
      pendingLoopSamples := Clamp(1, maxSamples4s - 16, targetSamples);
      if (hold || notesDown > 0) && !looping {
        StartLoop(useUserSample, latencySamples);
      } else if !hold && notesDown == 0 && looping {
        StartRelease(releaseMs);
      }
    }

    /** The start branch of computePendingLoopFromControls: freeze new
        content (or keep the loaded user sample), adopt the pending length,
        put the playhead on the loop boundary, fade the loop in from 0 and
        the passthrough out, both over 30 ms. */
    method StartLoop(useUserSample: bool, latencySamples: int)
      requires Valid()
      modifies this`currentLoopSamples, this`loopReadPos, this`looping
      modifies this`loopEnv, this`passthroughMuteEnv, snap, this`snapEndPos
      ensures Valid() && looping
      ensures currentLoopSamples == pendingLoopSamples
      ensures loopReadPos == (currentLoopSamples - 1) as real
      ensures loopEnv == Envelope(0.0, 1.0, 0.03)
      ensures passthroughMuteEnv == old(passthroughMuteEnv).(rampSeconds := 0.03, target := 0.0)
      ensures useUserSample && userSampleLoaded ==>
        && snapEndPos == snap.Length1
        && forall ch, k :: 0 <= ch < snap.Length0 && 0 <= k < snap.Length1 ==> snap[ch, k] == old(snap[ch, k])
      ensures !(useUserSample && userSampleLoaded) ==>
        Frozen(snap, rec, (recWritePos - latencySamples) % rec.Length1) && snapEndPos == rec.Length1
    {
      if useUserSample && userSampleLoaded {
        snapEndPos := snap.Length1;
      } else {
        SnapshotRecorder(latencySamples);
      }
      currentLoopSamples := Max(1, pendingLoopSamples);
      loopReadPos := (currentLoopSamples - 1) as real;
      looping := true;
      loopEnv := SetTarget(SetCurrentAndTarget(Reset(loopEnv, 0.03), 0.0), 1.0);
      passthroughMuteEnv := SetTarget(Reset(passthroughMuteEnv, 0.03), 0.0);
    }

    /** The release branch of computePendingLoopFromControls: looping goes
        on while the loop fades toward 0 and the passthrough back toward 1
        over the release time. */
    method StartRelease(releaseMs: int)
      requires Valid()
      modifies this`loopEnv, this`passthroughMuteEnv
      ensures Valid()
      ensures loopEnv == old(loopEnv).(rampSeconds := ReleaseSeconds(releaseMs), target := 0.0)
      ensures passthroughMuteEnv == old(passthroughMuteEnv).(rampSeconds := ReleaseSeconds(releaseMs), target := 1.0)
    {
      loopEnv := SetTarget(Reset(loopEnv, ReleaseSeconds(releaseMs)), 0.0);
      passthroughMuteEnv := SetTarget(Reset(passthroughMuteEnv, ReleaseSeconds(releaseMs)), 1.0);
    }

    // ----------------------------------------------------------------
    // Loop synthesizer.

    /** advanceLoopPlayback for numSamples output samples at the given
        speed, with the corrected wrap: returns what each output sample
        reads (its Tap) and moves the playhead along FixedAfter, so the
        length changes only to the pending one and the playhead stays in
        [0, currentLoopSamples). While looping, every read of the block is
        inside the snapshot, the tail reads inside the loop window. Looping
        stops, with the playhead back at 0, exactly when the loop envelope
        has settled at about zero. */
    method AdvanceLoopPlayback(numSamples: nat, speed: real) returns (taps: seq<Tap>)
      requires Valid() && 0.0 < speed
      modifies this`loopReadPos, this`currentLoopSamples, this`looping
      ensures Valid()
      ensures |taps| == numSamples
      ensures TapsFollow(taps, old(loopReadPos), old(currentLoopSamples), pendingLoopSamples, speed, snapEndPos, snap.Length1, xfadeSamples)
      ensures currentLoopSamples == old(currentLoopSamples) || currentLoopSamples == pendingLoopSamples
      ensures currentLoopSamples == FixedAfter(old(loopReadPos), old(currentLoopSamples), pendingLoopSamples, speed, numSamples).1
      ensures SettledNearZero(loopEnv) ==> !looping && loopReadPos == 0.0
      ensures !SettledNearZero(loopEnv) ==>
        && looping == old(looping)
        && loopReadPos == FixedAfter(old(loopReadPos), old(currentLoopSamples), pendingLoopSamples, speed, numSamples).0
      ensures old(looping) ==> forall i :: 0 <= i < |taps| ==> TapInBounds(taps[i], snapEndPos, snap.Length1)
    {
      var pos, cur;
      taps, pos, cur := PlayBlock(loopReadPos, currentLoopSamples, pendingLoopSamples, speed,
                                  snapEndPos, snap.Length1, xfadeSamples, numSamples);
      loopReadPos, currentLoopSamples := pos, cur;
      if SettledNearZero(loopEnv) {
        looping := false;
        loopReadPos := 0.0;
      }
    }

    /** The per-sample getNextValue calls of the mixing stage, summarised:
        each envelope moves from where it stood toward its target (how far
        is the ramp's business and an input here); targets and ramp times
        stay. */
    method AdvanceEnvelopes(loopNext: real, passNext: real)
      requires Valid() && Toward(loopEnv, loopNext) && Toward(passthroughMuteEnv, passNext)
      modifies this`loopEnv, this`passthroughMuteEnv
      ensures Valid()
      ensures loopEnv == old(loopEnv).(current := loopNext)
      ensures passthroughMuteEnv == old(passthroughMuteEnv).(current := passNext)
    {
      loopEnv := loopEnv.(current := loopNext);
      passthroughMuteEnv := passthroughMuteEnv.(current := passNext);
    }

    // ----------------------------------------------------------------
    // User sample.

    /** clearUserSample: only deselects the loaded sample; the snapshot
        buffer and its end position stay as they are. */
    method ClearUserSample()
      requires Valid()
      modifies this`userSampleLoaded
      ensures Valid() && !userSampleLoaded
      ensures snapEndPos == old(snapEndPos)
    {
      userSampleLoaded := false;
    }
  }
}
