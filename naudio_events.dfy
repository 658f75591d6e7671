/** The shapes of the NAudio MIDI events the recorder classifies, rebases and
    groups into tracks.  Only the fields the core reads are kept. */
module NAudioEvents {
  /** A 7-bit MIDI data byte: note number, velocity, controller number or value. */
  type SevenBit = x: int | 0 <= x < 128

  datatype MidiCommandCode =
    | NoteOff | NoteOn | KeyAfterTouch | ControlChange | PatchChange
    | ChannelAfterTouch | PitchWheelChange | Sysex | MetaEventCode

  datatype MetaEventType = EndTrack | SetTempo | TextEvent | OtherMetaType(code: int)

  /** NAudio's MidiEvent hierarchy.  A NoteEvent covers NoteOn, NoteOff and
      key after-touch messages alike (NoteOnEvent is one of its subclasses);
      every event has an absolute time and a channel (1..16 for channel
      messages; a MetaEvent built by the recorder has channel 1). */
  datatype MidiEvent =
    | NoteEvent(absoluteTime: int, channel: int, commandCode: MidiCommandCode, noteNumber: SevenBit, velocity: SevenBit)
    | ControlChangeEvent(absoluteTime: int, channel: int, controller: SevenBit, controllerValue: SevenBit)
    | MetaEvent(absoluteTime: int, channel: int, metaEventType: MetaEventType)
    | OtherEvent(absoluteTime: int, channel: int, commandCode: MidiCommandCode)

  /** MidiController.Sustain, the damper pedal (controller 64). */
  const Sustain: SevenBit := 64

  /** A MIDI event tagged with the index of the input port it came from. */
  datatype MidiEventWithPort = MidiEventWithPort(midiEvent: MidiEvent, port: int)
}
