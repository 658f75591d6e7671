/** NAudioMidiEventAnalyzer: the held-delta classifier the splitter runs on
    live NAudio events, and the note test used by the file-name template. */
module NAudioMidiEventAnalyzer {
  import opened NAudioEvents

  /** The held-delta of one event, exactly as the switch expression decides
      it: note events by velocity alone, the sustain pedal by the values 255
      and 0, everything else 0. */
  function NoteAndSustainPedalCount(e: MidiEvent): (r: int)
    ensures -1 <= r <= 1
    ensures e.NoteEvent? ==> (r == 1 <==> e.velocity > 0) && (r == -1 <==> e.velocity == 0)
    ensures r != 0 ==> e.NoteEvent? || (e.ControlChangeEvent? && e.controller == Sustain)
  {
    match e
    case NoteEvent(_, _, _, _, velocity) => if velocity > 0 then 1 else -1
    case ControlChangeEvent(_, _, controller, value) =>
      if controller == Sustain && value == 255 then 1
      else if controller == Sustain && value == 0 then -1
      else 0
    case _ => 0
  }

  /** IsNote: true exactly for note events (note on, note off, key after-touch). */
  predicate IsNote(e: MidiEvent)
  {
    e.NoteEvent?
  }

  /** Only a note event is a note; its classification is never 0. */
  lemma IsNoteClassified(e: MidiEvent)
    ensures IsNote(e) <==> e.NoteEvent?
    ensures IsNote(e) ==> NoteAndSustainPedalCount(e) != 0
    ensures !IsNote(e) && NoteAndSustainPedalCount(e) != 0 ==> e.ControlChangeEvent? && e.controller == Sustain
  {
  }

  /** The delta is decided by velocity alone: a NoteOff command that carries
      a release velocity counts as a newly held note, like a NoteOn. */
  lemma NoteOffWithVelocityCountsAsHeld(time: int, channel: int, note: SevenBit, velocity: SevenBit)
    requires velocity > 0
    ensures NoteAndSustainPedalCount(NoteEvent(time, channel, NoteOff, note, velocity)) == 1
    ensures NoteAndSustainPedalCount(NoteEvent(time, channel, NoteOff, note, velocity))
         == NoteAndSustainPedalCount(NoteEvent(time, channel, NoteOn, note, velocity))
  {
  }

  /** Releasing the sustain pedal (value 0) counts -1, and any sustain value
      other than 0 counts 0: a 7-bit controller value is never 255, so
      pressing the pedal never counts as holding anything. */
  lemma SustainPedalNeverHolds(time: int, channel: int, value: SevenBit)
    ensures NoteAndSustainPedalCount(ControlChangeEvent(time, channel, Sustain, value)) == (if value == 0 then -1 else 0)
    ensures NoteAndSustainPedalCount(ControlChangeEvent(time, channel, Sustain, value)) != 1
  {
  }

  /** A concrete case: the pedal fully pressed (127) is ignored. */
  lemma SustainPedalPressedIsIgnored()
    ensures NoteAndSustainPedalCount(ControlChangeEvent(0, 1, Sustain, 127)) == 0
  {
  }

  /** The sustain rule as evidently intended: the pedal fully pressed (127,
      the largest 7-bit value) counts +1 and released (0) counts -1; every
      other event is classified as written. */
  function CorrectedNoteAndSustainPedalCount(e: MidiEvent): (r: int)
    ensures -1 <= r <= 1
    ensures e.ControlChangeEvent? && e.controller == Sustain ==>
              (r == 1 <==> e.controllerValue == 127) && (r == -1 <==> e.controllerValue == 0)
    ensures !(e.ControlChangeEvent? && e.controller == Sustain) ==> r == NoteAndSustainPedalCount(e)
  {
    match e
    case ControlChangeEvent(_, _, controller, value) =>
      if controller == Sustain && value == 127 then 1
      else if controller == Sustain && value == 0 then -1
      else 0
    case _ => NoteAndSustainPedalCount(e)
  }

  /** With the corrected rule a press followed by a release of the pedal
      balances out, as a note on followed by its note off does. */
  lemma CorrectedPedalPressReleaseBalances(t0: int, t1: int, channel: int)
    ensures CorrectedNoteAndSustainPedalCount(ControlChangeEvent(t0, channel, Sustain, 127)) == 1
    ensures CorrectedNoteAndSustainPedalCount(ControlChangeEvent(t0, channel, Sustain, 127))
          + CorrectedNoteAndSustainPedalCount(ControlChangeEvent(t1, channel, Sustain, 0)) == 0
  {
  }
}
