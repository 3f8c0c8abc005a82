# Buffr3 live loop engine in Dafny

Buffr3 is an audio effect plug-in. It keeps the last four seconds of its
input in an always-running ring recorder. A note-on or the hold switch
freezes that ring into a linear snapshot. A loop synthesizer then reads the
end of the snapshot at a fractional, speed-scaled playhead, crossfading
across the loop seam. The loop length follows the played note, and a new
length takes effect only when the playhead wraps. Two gain envelopes fade
the loop in and out and mute or restore the dry passthrough.

This project models the engine of `Buffr3AudioProcessor` and proves
properties of that model. Audio samples are an opaque type `S`: the model
tracks where every sample is written and read, not the audio arithmetic.

- `Modular` (`modular.dfy`) holds juce::jlimit as `Clamp`/`ClampReal` and
  the C++ float-to-int conversion as `Trunc`. It also holds the Euclidean
  remainder facts the ring cursor needs.
- `BusLayout` (`layout.dfy`) holds `isBusesLayoutSupported`.
- `Envelopes` (`envelope.dfy`) models a linear juce::SmoothedValue as its
  current value, its target and its ramp time.
- `MidiControl` (`midi.dfy`) holds the pitch and trigger state that MIDI
  drives. `Run` is the specification of the event loop of `handleMidi`.
- `Recorder` (`recorder.dfy`) holds the ring write of `writeToRecorder` and
  the rotation of `snapshotRecorder`. Both are methods over `array2<S>`
  (channel × sample), and `Frozen` states what a snapshot holds.
- `LoopPlayback` (`playback.dfy`) holds the index arithmetic of
  `advanceLoopPlayback`:
  - the window start, the tail and head read indices and the crossfade
    weights, recorded per output sample as a `Tap`;
  - the playhead step as written, and the counterexamples to it;
  - the corrected step, which the engine uses.
- `Engine` (`engine.dfy`) holds the class `Buffr3Processor<S>`. Its fields
  are the engine state declared in `PluginProcessor.h`. Its methods do what
  the source methods do to that state, and `Valid()` collects the declared
  ranges.

## Model

| member | source | states |
|---|---|---|
| Modular.Clamp | Source/PluginProcessor.cpp:280 | jlimit on integers: the result lies in [lo, hi] and is v itself when v is already in range |
| Modular.ClampIsNearest | Source/PluginProcessor.cpp:280 | no point of [lo, hi] is closer to v than the clamped value |
| Modular.ClampReal | Source/PluginProcessor.cpp:360 | jlimit on floating-point values: the result lies in [lo, hi] and is v when v is in range |
| Modular.ClampRealIsNearest | Source/PluginProcessor.cpp:360 | no point of [lo, hi] is closer to v than the clamped real |
| Modular.Trunc | Source/PluginProcessor.cpp:345 | `(int) pos` truncates toward zero: for x ≥ 0 the result is the floor (i ≤ x < i+1); for x < 0 it is the ceiling (i−1 < x ≤ i) |
| Modular.Slot | Source/PluginProcessor.cpp:222 | the ring slot k steps after cursor w always lies in [0, capacity) |
| Modular.ModStep | Source/PluginProcessor.cpp:222 | advancing the cursor by one and resetting it to 0 at the capacity is addition modulo the capacity |
| Modular.RingOffset | Source/PluginProcessor.cpp:242-248 | offset k from slot end in the ring is end+k, or end+k−N once past the end (the two memcpy halves) |
| BusLayout.IsBusesLayoutSupported | Source/PluginProcessor.cpp:36-43 | accepted exactly for mono-in/mono-out and stereo-in/stereo-out; input and output then have the same channel count, at most 2 |
| Envelopes.Smoothing | Source/PluginProcessor.cpp:398 | an envelope that is not smoothing has nowhere left to move: every value a ramp can reach from it is its current value |
| Envelopes.SettledNearZero | Source/PluginProcessor.cpp:398 | the stop test holds exactly when the envelope has settled on a target of at most 0.001; the 0.002 bound on the current value then never decides |
| Envelopes.Reset | Source/PluginProcessor.cpp:311-316 | re-arming the ramp sets the ramp time to the seconds given and keeps the target and whether the envelope is smoothing |
| Envelopes.SetCurrentAndTarget | Source/PluginProcessor.cpp:312 | the envelope jumps to the value and is settled there; the ramp time stays |
| Envelopes.SetTarget | Source/PluginProcessor.cpp:443-444 | the target changes with no jump in the current value and the ramp time stays; the envelope is smoothing exactly when the new target differs from the current value |
| MidiControl.ApplyEvent | Source/PluginProcessor.cpp:429-456 | a note-on raises a non-negative held-note count by one and a note-off lowers it by one, floored at 0; only a pitch-wheel message changes the bend, only a note-on the last note, and a pitch-wheel or other message leaves the count alone; the count never goes negative |
| MidiControl.Run | Source/PluginProcessor.cpp:425-457 | a block made only of messages other than notes and pitch wheel leaves the MIDI state unchanged |
| MidiControl.BendFromWheel | Source/PluginProcessor.cpp:451-455 | the bend lies in [−1, 1]; on 0..16383 it is (v−8192)/8192, 0 at the centre, −1 at the bottom, and out-of-range values saturate |
| MidiControl.RunKeepsRanges | Source/PluginProcessor.cpp:425-457 | after any block of events notesDown is ≥ 0 and pitchBendNorm is in [−1, 1] |
| MidiControl.NotesDownCounts | Source/PluginProcessor.cpp:429-450 | notesDown ends between the zero-floored net count of note-ons minus note-offs and the old count plus the note-ons; it equals the latter when the block has no note-off, and the old count less the note-offs, floored at 0, when the block has no note-on |
| MidiControl.LastNoteIsLatestNoteOn | Source/PluginProcessor.cpp:429-433 | lastNoteNumber becomes the note of the block's last note-on when MIDI control is enabled; otherwise it keeps its value |
| MidiControl.BendIsLatestWheel | Source/PluginProcessor.cpp:451-456 | pitchBendNorm follows the block's last pitch-wheel message and nothing else |
| MidiControl.LatestNoteOnExists | Source/PluginProcessor.cpp:425-446 | a block has a last note-on exactly when it contains a note-on |
| Recorder.LatencyCompensatedEnd | Source/PluginProcessor.cpp:236-238 | the add-N-while-negative loop and the final `%=` give (writePos − latency) mod N, in [0, N) |
| Recorder.RecordBlock | Source/PluginProcessor.cpp:213-223 | input sample k lands in slot (w0+k) mod N; later samples win, so the last N of the block survive; slots the block does not reach and channels beyond min(ring, input) keep their samples; the cursor returned is (w0+n) mod N |
| Recorder.WriteColumn | Source/PluginProcessor.cpp:219-220 | one input column is written to slot w on every channel both buffers share, and nothing else changes |
| Recorder.CopyRotated | Source/PluginProcessor.cpp:241-248 | afterwards snap[ch, k] == ring[ch, (end+k) mod N] for every channel and every k < N (`Frozen`) |
| Recorder.CopyChannel | Source/PluginProcessor.cpp:244-247 | the two memcpy calls rotate one channel so that it starts at slot end; other channels are untouched |
| Recorder.SnapshotEndsWithNewestInput | Source/PluginProcessor.cpp:211-249 | after a block and a freeze with latency lat, the snapshot sample j places before its end is input sample n−1−lat−j; with lat = 0 the last index holds the newest input |
| LoopPlayback.WindowStart | Source/PluginProcessor.cpp:341-342 | the window start lies in [0, N) and equals snapEndPos − current whenever that already lies in range |
| LoopPlayback.TailIndex | Source/PluginProcessor.cpp:349-352 | the tail read is s+k, or s+k−current once at the end; with the window in place every offset 0..current reads inside [snapEndPos − current, snapEndPos) |
| LoopPlayback.CrossfadeWeights | Source/PluginProcessor.cpp:354-363 | both weights lie in [0, 1] and sum to 1; all tail outside the crossfade zone, linear samplesLeft/X inside it, all head at or past the last sample |
| LoopPlayback.WrapHead | Source/PluginProcessor.cpp:375-378 | the folded head index keeps its residue mod N and lands in [0, N) whenever it started below 2N |
| LoopPlayback.TapFor | Source/PluginProcessor.cpp:341-378 | a tap that follows the playhead starts inside the snapshot, has crossfade weights in [0, 1] summing to 1, and for a non-negative playhead a fraction in [0, 1) |
| LoopPlayback.ComputeTap | Source/PluginProcessor.cpp:341-378 | the tap is the one `TapFor` defines; its head reads lie in [0, N) unless the playhead is two snapshots ahead; with the playhead in its window every tail read lies in [snapEndPos − current, snapEndPos), every head read in [0, N), and the fraction in [0, 1) |
| LoopPlayback.AdvancePlayhead | Source/PluginProcessor.cpp:388-394 | the advance with the corrected wrap equals `PlayheadStepFixed`; the length becomes the pending one or stays; a playhead in [0, length) stays in [0, new length) |
| LoopPlayback.PlayheadStep | Source/PluginProcessor.cpp:388-394 | the loop length changes only on a wrap, where it becomes max(1, pending) ≥ 1; without a wrap the playhead just advances by the speed |
| LoopPlayback.PlayheadAfter | Source/PluginProcessor.cpp:338-395 | after any number of samples with the wrap as written, the loop length is either the old length or max(1, pending) |
| LoopPlayback.PlayBlock | Source/PluginProcessor.cpp:333-395 | with the corrected wrap of the findings below: with N ≤ 1 or no loop nothing changes; otherwise one tap per output sample, each the tap for the playhead of that sample (`TapsFollow`); the final playhead and length are `FixedAfter`; the length ends as the old or the pending one; a playhead in [0, length) stays there; started in its window with pending ≤ snapEndPos, it stays in its window and every read is in bounds |
| LoopPlayback.PlaySamples | Source/PluginProcessor.cpp:338-395 | the per-sample loop, with the corrected wrap of the findings below: the same guarantees as PlayBlock once N > 1 and the length is positive |
| LoopPlayback.TapsFollowEach | Source/PluginProcessor.cpp:338-395 | tap j of a block is the tap for the playhead after j samples |
| LoopPlayback.SettledPlayheadStaysInLoop | Source/PluginProcessor.h:110 | the declared range [0, currentLoopSamples) holds after any number of samples when pending equals current and 0 < speed ≤ current |
| LoopPlayback.SeamAtUnitSpeed | Source/PluginProcessor.cpp:354-378 | at speed 1 the last sample before the wrap reads wholly from the head at the window start, and the next sample reads the window start again at the same fraction; when the loop is longer than the crossfade that next sample is all tail, so one output sample repeats at every seam (head read at line 373, tail read at line 349) |
| LoopPlayback.LongerPendingReadsBeforeSnapshot | Source/PluginProcessor.cpp:389-393 | as written, a longer pending length makes the playhead negative (−83.5) and the next tail read falls before the snapshot (−67) |
| LoopPlayback.ShorterPendingReadsPastSnapshot | Source/PluginProcessor.cpp:389-393 | as written, a shorter pending length leaves the playhead beyond the new loop (90.5 in 10) and the next tail read falls past the snapshot (1070 of 1000) |
| LoopPlayback.FastOneSampleLoopReadsPastSnapshot | Source/PluginProcessor.cpp:388-394 | as written, one subtraction cannot wrap a speed above the loop length: 1.0 in a 1-sample loop, and the next read is past the snapshot |
| LoopPlayback.FixedStepKeepsRange | Source/PluginProcessor.h:110 | the corrected wrap (subtract the old length, commit, fold the rest) keeps the playhead in [0, length) with length ≥ 1 for any pending length and any positive speed; the length still changes only on a wrap |
| LoopPlayback.FixedPlaybackStaysInWindow | Source/PluginProcessor.cpp:341-394 | with the corrected wrap and a pending length no larger than snapEndPos, the playhead stays in its window after any number of samples |
| LoopPlayback.FoldIntoSmallRest | Source/PluginProcessor.cpp:393 | folding an overshoot already shorter than the new loop leaves it unchanged, so the fold departs from a plain subtraction only when that would leave the loop |
| LoopPlayback.FixedAgreesWhenSettled | Source/PluginProcessor.cpp:388-394 | with nothing pending and speed ≤ the loop length, the corrected step equals the step as written |
| Engine.ReleaseSeconds | Source/PluginProcessor.cpp:321 | the release ramp time is releaseMs/1000 seconds, and never below 1 ms |
| Engine.Buffr3Processor.constructor | Source/PluginProcessor.cpp:46-68 | both buffers get max(1, channels) × maxSamples cleared samples; the cursor and snapEndPos are 0; both loop lengths are 1 and the playhead is 0; looping is off and no user sample is loaded; the loop envelope starts at 0 and the passthrough at 1, both over 30 ms; notesDown is 0, the last note 60 and the bend 0; the invariant `Valid()` holds. `Valid()` covers the ranges declared in PluginProcessor.h:99-120, including the playhead in [0, currentLoopSamples) |
| Engine.Buffr3Processor.RecorderWritePos | Source/PluginProcessor.h:55 | the recorder cursor, always inside the ring |
| Engine.Buffr3Processor.SnapshotEndPos | Source/PluginProcessor.h:56 | the snapshot end, always within the snapshot |
| Engine.Buffr3Processor.IsLoopingActive | Source/PluginProcessor.h:49 | reads the looping flag |
| Engine.Buffr3Processor.HasUserSample | Source/PluginProcessor.h:61 | reads the user-sample flag |
| Engine.Buffr3Processor.LoopEnv | Source/PluginProcessor.h:50 | the loop envelope's current value, in [0, 1] |
| Engine.Buffr3Processor.PassthroughEnv | Source/PluginProcessor.h:51 | one minus the mute envelope's current value, in [0, 1] |
| Engine.Buffr3Processor.WriteToRecorder | Source/PluginProcessor.cpp:211-225 | the engine's ring receives the block as RecordBlock states, and recWritePos becomes (old + n) mod N, still in [0, N) |
| Engine.Buffr3Processor.SnapshotRecorder | Source/PluginProcessor.cpp:227-251 | the snapshot is the ring rotated to start at (recWritePos − latency) mod N; snapEndPos becomes N and the playhead current−1; the ring is untouched |
| Engine.Buffr3Processor.HandleMidi | Source/PluginProcessor.cpp:418-459 | the pitch state becomes `Run` of the block; the snapshot is retaken iff the block has a note-on and neither hold nor the user sample is selected, and is otherwise untouched; the envelope targets go to 1 (loop) and 0 (passthrough) iff there is a note-on while looping |
| Engine.Buffr3Processor.HandleEvent | Source/PluginProcessor.cpp:427-456 | one event: the pitch state becomes `ApplyEvent` of it, with the same snapshot and envelope effects for a note-on |
| Engine.Buffr3Processor.NoteOnEvent | Source/PluginProcessor.cpp:429-446 | notesDown goes up by one; the note is recorded when MIDI control is enabled; the snapshot is retaken unless hold or the user sample pins it; while looping the targets go to 1 and 0 |
| Engine.Buffr3Processor.ComputePendingLoopFromControls | Source/PluginProcessor.cpp:280-326 | pending becomes clamp(target, 1, N−16); the start case, the release case and the case with neither behave as StartLoop, StartRelease and "nothing but pending changes" |
| Engine.Buffr3Processor.StartLoop | Source/PluginProcessor.cpp:293-317 | looping starts; the loaded user sample is kept as it is (snapEndPos becomes its size) or the ring is frozen with latency compensation; current becomes pending; the playhead is put at current−1; the loop fades from 0 toward 1 and the passthrough toward 0, both over 30 ms |
| Engine.Buffr3Processor.StartRelease | Source/PluginProcessor.cpp:318-326 | looping stays on; the loop envelope aims at 0 and the passthrough at 1, both with the release time |
| Engine.Buffr3Processor.AdvanceLoopPlayback | Source/PluginProcessor.cpp:329-403 | the taps and the new playhead and length are those of PlayBlock with the corrected wrap; the length changes only to the pending one; the playhead stays in [0, currentLoopSamples) (kept by `Valid()`); while looping every read of the block is inside the snapshot; looping stops and the playhead returns to 0 exactly when the loop envelope has settled near 0 |
| Engine.Buffr3Processor.AdvanceEnvelopes | Source/PluginProcessor.cpp:197-416 | both envelopes move toward their targets by the amount given (the loop envelope's `getNextValue` at line 197, the passthrough envelope's at lines 405-416); targets and ramp times stay |
| Engine.Buffr3Processor.ClearUserSample | Source/PluginProcessor.cpp:122-125 | only the user-sample flag is cleared; the snapshot and snapEndPos are untouched |

## Left out

- The frequency and period maths (midiNoteToHz, semitoneShiftToRatio, squeezeToMs, and the rounding to samples, lines 258-279 of `PluginProcessor.cpp`) are transcendental floating point. `ComputePendingLoopFromControls` takes the rounded target length as an integer input, which then goes through the clamp at line 280.
- Portamento (`glideHz`, `lastTargetHz`, lines 282-286) is left out. Its value is written but never read by the engine, and the pending length uses the unsmoothed target.
- The ramp inside juce::SmoothedValue is library code, so it is not modelled. `AdvanceEnvelopes` takes the value reached as an input between the current value and the target. The once-per-channel-per-sample `getNextValue` calls (lines 197 and 414) are summarised as that one step.
- Envelopes.Reset: JUCE's `SmoothedValue::reset` also sets the current value to the target on every call, and `Reset` leaves the current value alone. The release branch (lines 318-326) runs again on every block while the notes are up. So in the program, the second release block's `reset` probably jumps the loop envelope straight to 0, and the release ends one block after it starts. `StartRelease` keeps the current value and so models the intended ramp of releaseMs, not that jump.
- The 32-bit floats of the source are exact reals in the model. This covers `loopReadPos` and the speed (lines 344-346 and 388-393, `PluginProcessor.h`:110), `pitchBendNorm` (lines 454-455, `PluginProcessor.h`:120), the envelope values, and the crossfade weight `t` (line 360). The rounding that `loopReadPos += speed` accumulates over a block is not captured. The range and in-bounds results do not depend on that rounding: they hold for any real playhead position.
- Sample arithmetic is not modelled: interpolation, the crossfade blend, passthrough muting, gains, the wet/dry mix and the RMS meters (lines 175-205, 365-385 and 405-416). Samples are opaque. The model proves where each sample is read and with which weights (`Tap`), not the audio values.
- processBlock's own sequencing (lines 156-209) is not a member: the model has the methods processBlock calls, each on its own.
- loadWavFile, getStateInformation and setStateInformation (file and stream I/O) are left out. The only effect the model keeps is the `userSampleLoaded` flag with a snapshot of the ring's size. In the program, setStateInformation (line 114) can restore a shorter snapshot, while `pendingLoopSamples` can still reach `maxSamples4s − 16`. `AdvanceLoopPlayback` proves its reads in bounds only because the model's snapshot has the ring's size. With a shorter restored snapshot that guarantee is not shown.
- prepareToPlay is folded into the constructor. Its sizing maths (ceil of sampleRate × 4 and the 3 ms crossfade) becomes the inputs `maxSamples` ≥ 17 and `xfade` ≥ 1.
- Engine.Buffr3Processor.constructor: it models only the first preparation. A later prepareToPlay (lines 46-68) sets `snapEndPos` to 0, the loop length to 1 and the playhead to 0, and clears both buffers, but it leaves `looping` set. If a loop is running at that moment, processBlock keeps calling advanceLoopPlayback (line 177), and the start branch (line 293) takes no new snapshot while looping. That state, looping with `snapEndPos == 0`, is outside `Valid()`, so `AdvanceLoopPlayback`'s in-bounds result does not cover it. In the program, the first tail read there folds to index −1 (lines 341-351).
- MIDI messages arrive already classified: `NoteOn` means a message for which JUCE's `isNoteOn()` holds. A note-on with velocity 0 fails `isNoteOn()` and passes `isNoteOff()`, so it takes the note-off branch (line 447) and is a `NoteOff` in the model. JUCE's classification itself is library code and is not modelled.
- Atomics, the MidiMessageCollector queue and ScopedNoDenormals are concurrency plumbing. The model is single-threaded, and atomics are plain fields.
- getCurrentLoopMs and getPendingLoopMs are left out: they divide by the floating-point sample rate.
- The editor files (`PluginEditor.cpp`, `PluginEditor.h`) are GUI, not engine, and are not part of this model.
- Engine.Buffr3Processor.AdvanceLoopPlayback: this method advances the playhead with the corrected wrap of the findings below, not the wrap at lines 389-393. The wrap as written is `LoopPlayback.PlayheadStep`. `LoopPlayback.SettledPlayheadStaysInLoop` proves the declared range for it only when nothing is pending. `LoopPlayback.FixedAgreesWhenSettled` shows that the two wraps agree in that case.
- Engine.Buffr3Processor.AdvanceLoopPlayback: the early return for N ≤ 1 or a non-positive loop length (line 335) skips the stop test. The engine's invariant makes both conditions impossible, so the method always applies the stop test. `LoopPlayback.PlayBlock` models the guard on values.
- Engine.Buffr3Processor.AdvanceLoopPlayback: it requires a positive speed. The playbackSpeed parameter is declared in [0.5, 2.0] (line 19), and the model does not carry that parameter range.
- LoopPlayback.ComputeTap: the head indices are pinned down modulo N (`TapFor`) and proved to lie in [0, N) only below 2N. The source folds them the same way.
- The model follows these details of the code:
  - the start branch keeps the user sample whenever it is selected and loaded, whatever hold says (line 297);
  - a note-on re-snapshots whether or not MIDI control is enabled (line 437);
  - ring slot `end` goes to snapshot index 0, and slot `end − 1` to the last index (lines 242-248);
  - the wrap commits the pending length before subtracting it (lines 389-393; see the findings).

## Findings

| source | as written | input that shows it | evidently intended | confidence | as-written member | corrected member |
|---|---|---|---|---|---|---|
| Source/PluginProcessor.cpp:389-393 | on a wrap the pending length is committed first and then subtracted from the playhead | playhead 899.5, loop 900, pending 984, speed 1 → playhead −83.5, tail read −67; playhead 99.5, loop 100, pending 10 → playhead 90.5 in a 10-sample loop, tail read 1070 in a 1000-sample snapshot | subtract the length of the loop that just ended, then commit the pending length, so the playhead stays in [0, currentLoopSamples) (PluginProcessor.h:110) | high, not executed | LoopPlayback.LongerPendingReadsBeforeSnapshot, LoopPlayback.ShorterPendingReadsPastSnapshot | LoopPlayback.FixedStepKeepsRange, LoopPlayback.AdvancePlayhead, LoopPlayback.PlaySamples, LoopPlayback.PlayBlock, Engine.Buffr3Processor.AdvanceLoopPlayback |
| Source/PluginProcessor.cpp:388-394 | one subtraction per sample cannot wrap a speed larger than the loop length | loop 1, pending 1, playhead 0.5, speed 1.5 → playhead 1.0, second tail read 1000 in a 1000-sample snapshot | fold the playhead back into [0, length) however far it overshoots | medium, not executed | LoopPlayback.FastOneSampleLoopReadsPastSnapshot | LoopPlayback.FixedStepKeepsRange, LoopPlayback.FixedPlaybackStaysInWindow |
