/** What both MIDI writers hand to `makeEvent`: the command, channel, note, velocity and tick. */
module Midi {

  /** A note-on (`noteOn`) or note-off event. */
  datatype MidiEvent = MidiEvent(noteOn: bool, channel: int, note: int, velocity: int, tick: int)

  /** The MIDI note number of the lowest piano key, A0, which is key 0 of the keyboard. */
  const BaseNote := 21

  /** The velocity every event is sent with. */
  const Velocity := 100

  lemma DivMonotone(x: real, y: real, d: real)
    requires x <= y && d > 0.0
    ensures x / d <= y / d
  {
    assert y / d - x / d == (y - x) / d;
  }
}
