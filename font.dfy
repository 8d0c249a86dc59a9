/** The 5x8 bitmap font and the rule that picks a glyph for a character.

    Each glyph is five bytes, one per pixel column from left to right; bit 0
    of a byte is the column's top pixel.  The table has 27 rows: space, then
    `A` to `Z`.  The character rule reaches rows 0 to 25 only: the letter
    range it accepts stops before `Z`, so the `Z` row is never drawn. */
module Font {
  import opened Bus

  /** Five pixel columns. */
  type Glyph = g: seq<uint8> | |g| == 5 witness [0x00, 0x00, 0x00, 0x00, 0x00]

  const Blank: Glyph := [0x00, 0x00, 0x00, 0x00, 0x00]

  /** A glyph from its five columns, left to right. */
  function Row(c0: uint8, c1: uint8, c2: uint8, c3: uint8, c4: uint8): Glyph {
    [c0, c1, c2, c3, c4]
  }

  const Font5x8: seq<Glyph> := [
    Row(0x00, 0x00, 0x00, 0x00, 0x00), // space
    Row(0x7E, 0x11, 0x11, 0x11, 0x7E), // A
    Row(0x7F, 0x49, 0x49, 0x49, 0x36), // B
    Row(0x3E, 0x41, 0x41, 0x41, 0x22), // C
    Row(0x7F, 0x41, 0x41, 0x22, 0x1C), // D
    Row(0x7F, 0x49, 0x49, 0x49, 0x41), // E
    Row(0x7F, 0x09, 0x09, 0x09, 0x01), // F
    Row(0x3E, 0x41, 0x49, 0x49, 0x7A), // G
    Row(0x7F, 0x08, 0x08, 0x08, 0x7F), // H
    Row(0x00, 0x41, 0x7F, 0x41, 0x00), // I
    Row(0x20, 0x40, 0x41, 0x3F, 0x01), // J
    Row(0x7F, 0x08, 0x14, 0x22, 0x41), // K
    Row(0x7F, 0x40, 0x40, 0x40, 0x40), // L
    Row(0x7F, 0x02, 0x0C, 0x02, 0x7F), // M
    Row(0x7F, 0x04, 0x08, 0x10, 0x7F), // N
    Row(0x3E, 0x41, 0x41, 0x41, 0x3E), // O
    Row(0x7F, 0x09, 0x09, 0x09, 0x06), // P
    Row(0x3E, 0x41, 0x51, 0x21, 0x5E), // Q
    Row(0x7F, 0x09, 0x19, 0x29, 0x46), // R
    Row(0x46, 0x49, 0x49, 0x49, 0x31), // S
    Row(0x01, 0x01, 0x7F, 0x01, 0x01), // T
    Row(0x3F, 0x40, 0x40, 0x40, 0x3F), // U
    Row(0x0F, 0x30, 0x40, 0x30, 0x0F), // V
    Row(0x7F, 0x20, 0x18, 0x20, 0x7F), // W
    Row(0x63, 0x14, 0x08, 0x14, 0x63), // X
    Row(0x03, 0x04, 0x78, 0x04, 0x03), // Y
    Row(0x61, 0x51, 0x49, 0x45, 0x43)  // Z
  ]

  /** The glyph row drawn for `c`, or `None` when `c` is skipped.  The letter
      range is half-open, `'A'` up to but not including `'Z'`; space is row 0.
      Every row it picks lies inside the table. */
  function GlyphIndex(c: char): (r: Option<nat>)
    ensures r.Some? ==> r.value < |Font5x8|
  {
    if 'A' <= c < 'Z' then Some(c as int - 'A' as int + 1)
    else if c == ' ' then Some(0)
    else None
  }

  /** The number of rows `GlyphIndex` can pick. */
  const Reachable: nat := 26

  /** The character that selects row `i`: the inverse of `GlyphIndex`. */
  function GlyphChar(i: nat): char
    requires i < Reachable
  {
    if i == 0 then ' ' else ('A' as int + i - 1) as char
  }

  /** `GlyphIndex` is a bijection between the characters it accepts and rows
      0 to 25: each row is picked by exactly one character. */
  lemma GlyphIndexInverse(c: char, i: nat)
    ensures GlyphIndex(c) == Some(i) <==> i < Reachable && c == GlyphChar(i)
  {
    if i < Reachable && c == GlyphChar(i) && i != 0 {
      assert c as int == 'A' as int + i - 1;
    }
  }

  /** No character selects the `Z` row, the last of the table. */
  lemma ZRowUnreachable(c: char)
    ensures GlyphIndex(c) != Some(|Font5x8| - 1)
  {
    GlyphIndexInverse(c, |Font5x8| - 1);
  }

  /** The characters the rule skips: `'Z'`, lower-case letters, digits and
      every other character outside `' '` and `'A'` to `'Y'`. */
  lemma Skipped(c: char)
    ensures GlyphIndex(c).None? <==> c != ' ' && !('A' <= c <= 'Y')
    ensures c == 'Z' || 'a' <= c <= 'z' || '0' <= c <= '9' ==> GlyphIndex(c).None?
  {
  }

  /** Space draws five empty columns. */
  lemma SpaceIsBlank()
    ensures GlyphIndex(' ') == Some(0) && Font5x8[0] == Blank
  {
  }
}
