/** The shapes of the CannedBytes.Midi messages and file events the
    CommandLine recorder builds tracks and file names from. */
module CannedBytesMidi {
  type byte = x: int | 0 <= x < 256

  datatype MidiMetaType = EndOfTrack | Tempo | Text | OtherMetaType(code: byte)

  /** A short (channel or system) message has a status byte and up to two
      parameter bytes; a meta message a type and a payload; a system
      exclusive message its bytes. */
  datatype MidiMessage =
    | MidiShortMessage(status: byte, parameters: seq<byte>)
    | MidiMetaMessage(metaType: MidiMetaType, metaData: seq<byte>)
    | MidiSysExMessage(sysExData: seq<byte>)

  /** GetData(): the bytes of a message; for a short message the status
      byte comes first, for a meta message it is the payload alone. */
  function GetData(m: MidiMessage): (r: seq<byte>)
    ensures m.MidiShortMessage? ==> |r| >= 1 && r[0] == m.status
  {
    match m
    case MidiShortMessage(status, parameters) => [status] + parameters
    case MidiMetaMessage(_, metaData) => metaData
    case MidiSysExMessage(sysExData) => sysExData
  }

  /** A timed message in a MIDI file track.  The recorder writes only the
      delta-time of existing events, so the message is fixed here. */
  class MidiFileEvent {
    const message: MidiMessage
    var absoluteTime: int
    var deltaTime: int

    constructor (message: MidiMessage, absoluteTime: int, deltaTime: int)
      ensures this.message == message && this.absoluteTime == absoluteTime && this.deltaTime == deltaTime
    {
      this.message := message;
      this.absoluteTime := absoluteTime;
      this.deltaTime := deltaTime;
    }
  }
}
