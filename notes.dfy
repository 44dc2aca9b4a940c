/**
 * The values that cross the boundary between the event loop and the note
 * resolver (`notes::match_note`, whose body is not part of this model), and
 * the terminal library's key codes.
 */
module Notes {

  /** The width of the program's `i16` (octave offsets, sequences, positions). */
  type I16 = x: int | -0x8000 <= x < 0x8000

  /** A key code as the terminal library reports it. */
  datatype Key =
    | Tab | Enter | Esc | Backspace
    | Right | Left | Up | Down
    | Delete | Insert | Home | End | PageUp | PageDown
    | Char(c: char)
    | Ctrl(c: char)
    | F(n: nat)
    | Unknown(code: nat)

  /**
   * A resolved key press: the sound class, its octave, the screen column of
   * the key on the drawn keyboard and whether it is a white key.
   */
  datatype Note = Note(sound: string, sequence: I16, position: I16, white: bool)

  /** The main loop's guard: only a note whose column lies strictly between 0 and 155 is played and drawn. */
  predicate Playable(note: Note)
  {
    0 < note.position < 155
  }

  /** The resolver, left abstract: any total function from a key and the current octave offset to a note. */
  type Resolver = (Key, I16) -> Note
}
