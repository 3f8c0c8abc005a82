/** The two gain envelopes of the engine (loop presence and passthrough
    mute), each a linear juce::SmoothedValue in the source. The ramp itself
    lives in the JUCE library; the model keeps what the engine decides and
    reads: the value reached so far, the value being ramped toward, and the
    ramp time last armed. */
module Envelopes {

  datatype Envelope = Envelope(current: real, target: real, rampSeconds: real)

  /** isSmoothing(): the value has not yet reached its target. An envelope
      that is not smoothing cannot move: the only value between its current
      value and its target is the current value. */
  predicate Smoothing(e: Envelope): (b: bool)
    ensures !b ==> forall x :: Toward(e, x) ==> x == e.current
  {
    e.current != e.target
  }

  /** reset(sampleRate, seconds): arms the ramp time used by later target
      changes. The model keeps the current value where it is, which is the
      ramp the engine evidently intends. JUCE's own SmoothedValue::reset
      also sets the current value to the target on every call. That library
      code is not part of this model. */
  function Reset(e: Envelope, seconds: real): (r: Envelope)
    ensures r.rampSeconds == seconds
    ensures Smoothing(r) == Smoothing(e) && r.target == e.target
  {
    e.(rampSeconds := seconds)
  }

  /** setCurrentAndTargetValue(v): jump to v with no ramp; the envelope is
      settled there. */
  function SetCurrentAndTarget(e: Envelope, v: real): (r: Envelope)
    ensures !Smoothing(r) && r.current == v
    ensures r.rampSeconds == e.rampSeconds
  {
    e.(current := v, target := v)
  }

  /** setTargetValue(v): start ramping toward v from the current value, with
      no jump; it is smoothing exactly when v differs from where it stands. */
  function SetTarget(e: Envelope, v: real): (r: Envelope)
    ensures r.current == e.current && r.target == v && r.rampSeconds == e.rampSeconds
    ensures Smoothing(r) <==> e.current != v
  {
    e.(target := v)
  }

  /** The value a ramp may have reached after some getNextValue calls: it
      lies between where the ramp stood and the target (inclusive). */
  predicate Toward(e: Envelope, next: real)
  {
    (e.current <= next <= e.target) || (e.target <= next <= e.current)
  }

  /** The stop test of advanceLoopPlayback: the loop envelope is no longer
      ramping, aims at (about) zero and has got there. Because a settled
      value equals its target, the test holds exactly when value and target
      coincide at or below 0.001; its 0.002 bound never decides. */
  predicate SettledNearZero(e: Envelope): (b: bool)
    ensures b <==> e.current == e.target && e.target <= 0.001
  {
    !Smoothing(e) && e.target <= 0.001 && e.current <= 0.002
  }
}
