/**
 * The highlight a played note leaves on the diagram: a shaded mark `▒▒`
 * (white key, bottom row of the white keys) or `▒` (black key, bottom row of
 * the black keys) at the note's column, in the configured colour, shown at
 * once; and the later repaint of the same cells in the key's own colour,
 * which a detached thread performs after the mark duration.
 */
module Highlight {
  import opened Wrappers
  import opened Notes
  import opened Palette
  import opened Screen
  import Layout

  const WhiteMarkRow: nat := 15
  const BlackMarkRow: nat := 8

  function MarkRow(white: bool): nat
  {
    if white then WhiteMarkRow else BlackMarkRow
  }

  function MarkText(white: bool): string
  {
    if white then "▒▒" else "▒"
  }

  /** Rust's `pos as usize` on an `i16`: the 64-bit value congruent to `pos` modulo 2^64. */
  function AsUsize(pos: I16): (r: nat)
    ensures r < 0x1_0000_0000_0000_0000 && (r - pos) % 0x1_0000_0000_0000_0000 == 0
    ensures pos >= 0 ==> r == pos
  {
    if pos >= 0 then pos else pos + 0x1_0000_0000_0000_0000
  }

  /**
   * Cell (c, r) lies under the mark for a key at `pos`. A negative position
   * puts the whole mark beyond the grid, so it paints nothing; the terminal's
   * own `x + i` would wrap the second cell of a two-cell mark at -1 onto
   * column 0. The main loop's guard lets no such position through.
   */
  predicate Marked(c: int, r: int, pos: I16, white: bool)
  {
    r == MarkRow(white) && AsUsize(pos) <= c < AsUsize(pos) + |MarkText(white)|
  }

  /** The lit mark: the shade in the highlight colour on white. */
  function Lit(fg: Color): Glyph
  {
    Glyph('▒', fg, White)
  }

  /** What the revert paints: the shade in the key's own colour on white. */
  function Unlit(white: bool): Glyph
  {
    Glyph('▒', if white then White else Black, White)
  }

  /** Paints the mark for a key at `pos` in foreground `fg` and presents the screen. */
  method PaintMark(t: Terminal, pos: I16, white: bool, fg: Color)
    requires t.Valid()
    modifies t.back, t.front
    ensures forall c, r :: 0 <= c < t.width && 0 <= r < t.height ==>
      && t.back[c, r] == (if Marked(c, r, pos, white) then Lit(fg) else old(t.back[c, r]))
      && t.front[c, r] == t.back[c, r]
  {
    var col := AsUsize(pos);
    if white {
      t.Print(col, WhiteMarkRow, fg, White, "▒▒");
    } else {
      t.Print(col, BlackMarkRow, fg, White, "▒");
    }
    t.Present();
  }

  /**
   * Paints the mark for a key at `pos` in the colour named `color` and
   * presents the screen. An unknown colour name panics (`panicked`) before
   * anything is painted.
   */
  method Draw(t: Terminal, pos: I16, white: bool, color: string) returns (panicked: bool)
    requires t.Valid()
    modifies t.back, t.front
    ensures panicked <==> color !in ColorNames
    ensures panicked ==> unchanged(t.back) && unchanged(t.front)
    ensures !panicked ==> forall c, r :: 0 <= c < t.width && 0 <= r < t.height ==>
      && t.back[c, r] == (if Marked(c, r, pos, white) then Lit(ColorOf(color).value) else old(t.back[c, r]))
      && t.front[c, r] == t.back[c, r]
  {
    var colorPos := ColorIndex(color);
    if colorPos.None? {
      return true;
    }
    var fg := TermColors[colorPos.value];
    assert fg == ColorOf(color).value;
    PaintMark(t, pos, white, fg);
    panicked := false;
  }

  /** The revert as the program performs it: the mark's cells are repainted, but the screen is not presented. */
  method Revert(t: Terminal, pos: I16, white: bool)
    requires t.Valid()
    modifies t.back
    ensures forall c, r :: 0 <= c < t.width && 0 <= r < t.height ==>
      t.back[c, r] == if Marked(c, r, pos, white) then Unlit(white) else old(t.back[c, r])
  {
    if white {
      t.Print(AsUsize(pos), WhiteMarkRow, White, White, "▒▒");
    } else {
      t.Print(AsUsize(pos), BlackMarkRow, Black, White, "▒");
    }
  }

  /** The revert followed by `present`, as `draw` does after painting (line 149 of `src/main.rs`). */
  method RevertPresented(t: Terminal, pos: I16, white: bool)
    requires t.Valid()
    modifies t.back, t.front
    ensures forall c, r :: 0 <= c < t.width && 0 <= r < t.height ==>
      && t.back[c, r] == (if Marked(c, r, pos, white) then Unlit(white) else old(t.back[c, r]))
      && t.front[c, r] == t.back[c, r]
  {
    Revert(t, pos, white);
    t.Present();
  }

  /**
   * A flash as the program performs it, draw then revert: afterwards the
   * screen still shows the lit mark, whatever the mark duration, until
   * something else presents the screen.
   */
  method FlashAsWritten(t: Terminal, pos: I16, white: bool, color: string) returns (panicked: bool)
    requires t.Valid()
    modifies t.back, t.front
    ensures panicked <==> color !in ColorNames
    ensures !panicked ==> forall c, r :: 0 <= c < t.width && 0 <= r < t.height && Marked(c, r, pos, white) ==>
      t.front[c, r] == Lit(ColorOf(color).value) && t.back[c, r] == Unlit(white)
  {
    panicked := Draw(t, pos, white, color);
    if !panicked {
      Revert(t, pos, white);
    }
  }

  /**
   * The same flash with the presented revert: afterwards the screen shows the
   * unlit mark. This takes the revert to run while the main loop waits for
   * input, which needs the loop to release the terminal before it polls.
   */
  method FlashCorrected(t: Terminal, pos: I16, white: bool, color: string) returns (panicked: bool)
    requires t.Valid()
    modifies t.back, t.front
    ensures panicked <==> color !in ColorNames
    ensures !panicked ==> forall c, r :: 0 <= c < t.width && 0 <= r < t.height && Marked(c, r, pos, white) ==>
      t.front[c, r] == Unlit(white) && t.back[c, r] == Unlit(white)
  {
    panicked := Draw(t, pos, white, color);
    if !panicked {
      RevertPresented(t, pos, white);
    }
  }

  /**
   * The lit mark equals what the revert paints exactly when the colour is the
   * key's own: "white" on a white key, "black" on a black key.
   */
  lemma LitDiffersFromUnlit(white: bool, color: string)
    requires color in ColorNames
    ensures Lit(ColorOf(color).value) == Unlit(white) <==> color == (if white then "white" else "black")
  {
    var k := ColorIndex(color).value;
    NameAt(k);
    assert ColorOf(color).value == TermColors[k];
  }

  /**
   * For a key that passes the main loop's guard, the mark lies on the diagram:
   * at the note's own column, in the last row the matching key pass paints,
   * and the revert repaints exactly the cells the mark covered.
   */
  lemma MarkOnKeyboard(note: Note, c: int)
    requires Playable(note)
    ensures AsUsize(note.position) == note.position
    ensures MarkRow(note.white) == if note.white then Layout.WhiteRows - 1 else Layout.BlackRows - 1
    ensures Marked(c, MarkRow(note.white), note.position, note.white) ==>
      note.position <= c <= note.position + 1 && Layout.Keyboard(c, MarkRow(note.white)).Some?
  {
  }

  /** The repaint leaves a shade where the diagram had a solid block or a border: it never restores the diagram's own glyph. */
  lemma RevertLeavesShade(white: bool, c: int, r: int)
    requires Layout.Keyboard(c, r).Some?
    ensures Unlit(white) != Layout.Keyboard(c, r).value
  {
  }
}
