/** The pitch/trigger state that incoming MIDI drives in handleMidi: the
    count of held notes (never below zero), the last note number and the
    normalised pitch bend. Events arrive already classified by the MIDI
    layer; the per-block loop over them is Engine.Buffr3Processor.HandleMidi,
    specified by Run below. */
module MidiControl {
  import opened Modular

  datatype Option<T> = None | Some(value: T)

  /** Events as the MIDI layer classifies them: `NoteOn` is a message for
      which isNoteOn() holds, so a note-on with velocity 0 arrives as
      `NoteOff`. */
  datatype MidiEvent =
    | NoteOn(noteNumber: int)
    | NoteOff(noteNumber: int)
    | PitchWheel(value: int)
    | OtherMessage

  datatype PitchState = PitchState(notesDown: int, lastNoteNumber: int, pitchBendNorm: real)

  /** A 14-bit pitch-wheel value mapped onto [-1, 1] around the centre
      8192. The clamp never bites inside 0..16383: there the value is the
      plain ratio, with 0 at the centre and -1 at the bottom. */
  function BendFromWheel(value: int): (b: real)
    ensures -1.0 <= b <= 1.0
    ensures 0 <= value <= 16383 ==> b == (value - 8192) as real / 8192.0
    ensures value == 8192 ==> b == 0.0
    ensures value <= 0 ==> b == -1.0
    ensures value >= 16384 ==> b == 1.0
  {
    ClampReal(-1.0, 1.0, (value - 8192) as real / 8192.0)
  }

  /** The effect of one event on the pitch state: notes touch only the
      held-note count and the last note, a pitch-wheel message only the bend,
      and anything else nothing. The count never goes below zero. */
  function ApplyEvent(st: PitchState, ev: MidiEvent, midiEnabled: bool): (r: PitchState)
    ensures !ev.PitchWheel? ==> r.pitchBendNorm == st.pitchBendNorm
    ensures !ev.NoteOn? ==> r.lastNoteNumber == st.lastNoteNumber
    ensures ev.PitchWheel? || ev.OtherMessage? ==> r.notesDown == st.notesDown
    ensures st.notesDown >= 0 ==> r.notesDown >= 0
    ensures ev.NoteOn? && st.notesDown >= 0 ==> r.notesDown == st.notesDown + 1
    ensures ev.NoteOff? ==> r.notesDown == Max(0, st.notesDown - 1)
  {
    match ev
    case NoteOn(n) =>
      st.(notesDown := Max(0, st.notesDown + 1),
          lastNoteNumber := if midiEnabled then n else st.lastNoteNumber)
    case NoteOff(_) => st.(notesDown := Max(0, st.notesDown - 1))
    case PitchWheel(v) => st.(pitchBendNorm := BendFromWheel(v))
    case OtherMessage => st
  }

  /** A block that holds no note and no pitch-wheel message. */
  predicate NoControl(events: seq<MidiEvent>)
  {
    events == [] || (events[|events| - 1].OtherMessage? && NoControl(events[..|events| - 1]))
  }

  /** The pitch state after a block's events, in order. A block of
      messages the engine does not handle leaves the state as it was. */
  function Run(st: PitchState, events: seq<MidiEvent>, midiEnabled: bool): (r: PitchState)
    ensures NoControl(events) ==> r == st
  {
    if events == [] then st
    else ApplyEvent(Run(st, events[..|events| - 1], midiEnabled), events[|events| - 1], midiEnabled)
  }

  function CountNoteOns(events: seq<MidiEvent>): nat
  {
    if events == [] then 0
    else CountNoteOns(events[..|events| - 1]) + (if events[|events| - 1].NoteOn? then 1 else 0)
  }

  function CountNoteOffs(events: seq<MidiEvent>): nat
  {
    if events == [] then 0
    else CountNoteOffs(events[..|events| - 1]) + (if events[|events| - 1].NoteOff? then 1 else 0)
  }

  /** The note number of the last note-on of the block, if any. */
  function LatestNoteOn(events: seq<MidiEvent>): Option<int>
  {
    if events == [] then None
    else if events[|events| - 1].NoteOn? then Some(events[|events| - 1].noteNumber)
    else LatestNoteOn(events[..|events| - 1])
  }

  /** The value of the last pitch-wheel message of the block, if any. */
  function LatestWheel(events: seq<MidiEvent>): Option<int>
  {
    if events == [] then None
    else if events[|events| - 1].PitchWheel? then Some(events[|events| - 1].value)
    else LatestWheel(events[..|events| - 1])
  }

  predicate HasNoteOn(events: seq<MidiEvent>)
  {
    exists i :: 0 <= i < |events| && events[i].NoteOn?
  }

  /** The declared ranges survive any block of events: notesDown stays at
      or above zero and pitchBendNorm inside [-1, 1]. */
  lemma {:induction false} RunKeepsRanges(st: PitchState, events: seq<MidiEvent>, midiEnabled: bool)
    requires st.notesDown >= 0 && -1.0 <= st.pitchBendNorm <= 1.0
    ensures Run(st, events, midiEnabled).notesDown >= 0
    ensures -1.0 <= Run(st, events, midiEnabled).pitchBendNorm <= 1.0
  {
    if events != [] {
      RunKeepsRanges(st, events[..|events| - 1], midiEnabled);
    }
  }

  /** Counting held notes: each note-on adds one and each note-off removes
      one, except that the count is floored at zero. So the count ends
      between the floored net count and the number of notes pressed, and
      equals the plain sum when nothing is released; when nothing is pressed
      it is the old count less the releases, floored at zero. */
  lemma {:induction false} NotesDownCounts(st: PitchState, events: seq<MidiEvent>, midiEnabled: bool)
    requires st.notesDown >= 0
    ensures var nd := Run(st, events, midiEnabled).notesDown;
      Max(0, st.notesDown + CountNoteOns(events) - CountNoteOffs(events)) <= nd <= st.notesDown + CountNoteOns(events)
    ensures CountNoteOffs(events) == 0 ==> Run(st, events, midiEnabled).notesDown == st.notesDown + CountNoteOns(events)
    ensures CountNoteOns(events) == 0 ==> Run(st, events, midiEnabled).notesDown == Max(0, st.notesDown - CountNoteOffs(events))
  {
    if events != [] {
      NotesDownCounts(st, events[..|events| - 1], midiEnabled);
    }
  }

  /** lastNoteNumber is the note of the block's last note-on while MIDI
      control is enabled, and otherwise keeps its value. */
  lemma {:induction false} LastNoteIsLatestNoteOn(st: PitchState, events: seq<MidiEvent>, midiEnabled: bool)
    ensures Run(st, events, midiEnabled).lastNoteNumber ==
      if midiEnabled && LatestNoteOn(events).Some? then LatestNoteOn(events).value else st.lastNoteNumber
  {
    if events != [] {
      LastNoteIsLatestNoteOn(st, events[..|events| - 1], midiEnabled);
    }
  }

  /** pitchBendNorm follows the block's last pitch-wheel message and is
      untouched by notes. */
  lemma {:induction false} BendIsLatestWheel(st: PitchState, events: seq<MidiEvent>, midiEnabled: bool)
    ensures Run(st, events, midiEnabled).pitchBendNorm ==
      if LatestWheel(events).Some? then BendFromWheel(LatestWheel(events).value) else st.pitchBendNorm
  {
    if events != [] {
      BendIsLatestWheel(st, events[..|events| - 1], midiEnabled);
    }
  }

  /** A block has a last note-on exactly when it has a note-on. */
  lemma {:induction false} LatestNoteOnExists(events: seq<MidiEvent>)
    ensures LatestNoteOn(events).Some? <==> HasNoteOn(events)
  {
    if events != [] {
      var init := events[..|events| - 1];
      LatestNoteOnExists(init);
      if HasNoteOn(init) {
        var i :| 0 <= i < |init| && init[i].NoteOn?;
        assert events[i].NoteOn?;
      }
      if HasNoteOn(events) && !events[|events| - 1].NoteOn? {
        var i :| 0 <= i < |events| && events[i].NoteOn?;
        assert init[i].NoteOn?;
      }
    }
  }

  /** Growing a block by one event adds a note-on exactly when that event
      is one. */
  lemma HasNoteOnExtend(events: seq<MidiEvent>, i: int)
    requires 0 <= i < |events|
    ensures HasNoteOn(events[..i + 1]) <==> HasNoteOn(events[..i]) || events[i].NoteOn?
  {
  }
}
