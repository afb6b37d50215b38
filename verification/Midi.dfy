/** src/midi.hpp: MIDI numbers, output events, and the conversions between controller values and ratios. */
module Midi {

  type Byte = b: int | 0 <= b < 256
  type Ratio = r: real | 0.0 <= r <= 1.0

  const CHANNEL_MAX: Byte := 15
  const CHANNELS := 16
  const INVALID_CHANNEL: Byte := 255
  const NOTE_MAX: Byte := 127
  const NOTES := 128
  const INVALID_NOTE: Byte := 255

  const NOTE_OFF: Byte := 0x80
  const NOTE_ON: Byte := 0x90
  const AFTERTOUCH: Byte := 0xa0
  const CONTROL_CHANGE: Byte := 0xb0
  const PROGRAM_CHANGE: Byte := 0xc0
  const CHANNEL_PRESSURE: Byte := 0xd0
  const PITCH_BEND_CHANGE: Byte := 0xe0

  const CONTROL_CHANGE_ALL_SOUND_OFF: Byte := 0x78
  const DATA_ENTRY_MSB: Byte := 0x06
  const RPN_LSB: Byte := 0x64
  const RPN_MSB: Byte := 0x65

  datatype Event = Event(time: real, command: Byte, channel: Byte, data1: Byte, data2: Byte,
                         value: real, preNoteOnSetup: bool)

  /** Nearest integer, halves away from zero. */
  function Round(x: real): int {
    if x >= 0.0 then (x + 0.5).Floor else -((0.5 - x).Floor)
  }

  function Clamp(x: int, low: int, high: int): (r: int)
    requires low <= high
    ensures low <= r <= high
  {
    if x < low then low else if x > high then high else x
  }

  function FloatToByte(value: real): Byte {
    Clamp(Round(value * 127.0), 0, 127)
  }

  function FloatToWord(value: real): (r: int)
    ensures 0 <= r < 16384
  {
    Clamp(Round(value * 16383.0), 0, 16383)
  }

  function ByteToFloat(value: Byte): Ratio {
    if value as real / 127.0 <= 1.0 then value as real / 127.0 else 1.0
  }

  function WordToFloat(value: nat): Ratio {
    if value as real / 16383.0 <= 1.0 then value as real / 16383.0 else 1.0
  }

  /** The nearest byte, or the nearest 14-bit number; halves go up. */
  lemma NearestByteAndWord(value: Ratio)
    ensures -0.5 < FloatToByte(value) as real - value * 127.0 <= 0.5
    ensures -0.5 < FloatToWord(value) as real - value * 16383.0 <= 0.5
  {
  }

  lemma ByteSurvivesFloat(value: Byte)
    requires value <= 127
    ensures FloatToByte(ByteToFloat(value)) == value
  {
    assert ByteToFloat(value) * 127.0 == value as real;
  }

  lemma WordSurvivesFloat(value: nat)
    requires value < 16384
    ensures FloatToWord(WordToFloat(value)) == value
  {
    assert WordToFloat(value) * 16383.0 == value as real;
  }
}
