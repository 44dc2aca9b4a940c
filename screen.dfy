/**
 * The terminal the keyboard is drawn on, reduced to what the program relies
 * on: a fixed grid of cells addressed by (column, row), a back buffer that
 * `print` writes and a front buffer, the screen the user sees, that
 * `present` brings up to date. A cell outside the grid is not written.
 */
module Screen {
  import opened Palette

  /** One cell: its character, foreground and background colour. */
  datatype Glyph = Glyph(ch: char, fg: Color, bg: Color)

  class Terminal {
    const width: nat
    const height: nat
    /** What has been printed. */
    const back: array2<Glyph>
    /** What the user sees: the back buffer as of the last `Present`. */
    const front: array2<Glyph>

    ghost predicate Valid()
    {
      && back.Length0 == width && back.Length1 == height
      && front.Length0 == width && front.Length1 == height
      && back != front
    }

    /** A terminal of `w` columns and `h` rows, every cell `blank` on both buffers. */
    constructor (w: nat, h: nat, blank: Glyph)
      ensures Valid() && width == w && height == h
      ensures fresh(back) && fresh(front)
      ensures forall c, r :: 0 <= c < w && 0 <= r < h ==> back[c, r] == blank && front[c, r] == blank
    {
      width, height := w, h;
      back := new Glyph[w, h]((c, r) => blank);
      front := new Glyph[w, h]((c, r) => blank);
    }

    /** Writes the characters of `s` into consecutive columns of `row` from `col` on, in the given colours. */
    method Print(col: nat, row: nat, fg: Color, bg: Color, s: string)
      requires Valid()
      modifies back
      ensures forall c, r :: 0 <= c < width && 0 <= r < height ==>
        back[c, r] == if r == row && col <= c < col + |s| then Glyph(s[c - col], fg, bg) else old(back[c, r])
    {
      for i := 0 to |s|
        invariant forall c, r :: 0 <= c < width && 0 <= r < height ==>
          back[c, r] == if r == row && col <= c < col + i then Glyph(s[c - col], fg, bg) else old(back[c, r])
      {
        if col + i < width && row < height {
          back[col + i, row] := Glyph(s[i], fg, bg);
        }
      }
    }

    /** Makes the screen show what has been printed. */
    method Present()
      requires Valid()
      modifies front
      ensures forall c, r :: 0 <= c < width && 0 <= r < height ==> front[c, r] == back[c, r]
    {
      for r := 0 to height
        invariant forall c, r' :: 0 <= c < width && 0 <= r' < r ==> front[c, r'] == back[c, r']
      {
        for c := 0 to width
          invariant forall c', r' :: 0 <= c' < width && 0 <= r' < r ==> front[c', r'] == back[c', r']
          invariant forall c' :: 0 <= c' < c ==> front[c', r] == back[c', r]
        {
          front[c, r] := back[c, r];
        }
      }
    }
  }
}
