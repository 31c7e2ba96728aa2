/** The recognised-notation model the builder consumes (the `homr.results` types). */
module Notation {

  import opened Wrappers

  datatype DurationModifier = NoModifier | Dot | Triplet

  /** A length in divisions of a quarter note, its symbolic name ("quarter",
      "whole", ...) and a modifier. */
  datatype Duration = Duration(duration: int, durationName: string, modifier: DurationModifier)

  /** Step letter, an optional alteration in semitones, and a possibly negative octave. */
  datatype Pitch = Pitch(step: string, octave: int, alter: Option<int>)

  datatype Note = Note(pitch: Pitch, duration: Duration)

  /** A chord: its sounding length, its notes, and whether it is a rest. */
  datatype Chord = Chord(duration: Duration, notes: seq<Note>, isRest: bool)

  datatype ClefType = ClefType(sign: string, line: int)

  /** A clef and the key signature as a circle-of-fifths value. */
  datatype Clef = Clef(clefType: ClefType, circleOfFifth: int)

  datatype TimeSignature = TimeSignature(numerator: int, denominator: int)

  datatype Symbol = ClefSymbol(clef: Clef) | TimeSymbol(time: TimeSignature) | ChordSymbol(chord: Chord)

  datatype Measure = Measure(symbols: seq<Symbol>, isNewLine: bool)

  datatype Staff = Staff(measures: seq<Measure>)
}
