/** Distance and screen-row shading (main.cpp lines 186-201 and 216-226).
    Both are pure threshold chains over five glyph classes. */
module Shade {
  import opened World

  /** Wall glyphs from nearest to farthest: U+2588, U+2593, U+2592, U+2591. */
  const FullBlock: char := '\U{2588}'
  const DarkShade: char := '\U{2593}'
  const MediumShade: char := '\U{2592}'
  const LightShade: char := '\U{2591}'

  /** The glyph for a wall strip `distance` away: four bands up to `Depth`,
      blank beyond it; a corner seam (`boundary`) is blacked out. */
  function WallGlyph(distance: real, boundary: bool): (g: char)
    ensures g == ' ' <==> boundary || distance >= Depth
  {
    var shade :=
      if distance <= Depth / 4.0 then FullBlock
      else if distance < Depth / 3.0 then DarkShade
      else if distance < Depth / 2.0 then MediumShade
      else if distance < Depth then LightShade
      else ' ';
    if boundary then ' ' else shade
  }

  /** How dense a wall glyph is: 4 for the solid block down to 0 for blank. */
  function WallDensity(g: char): nat {
    if g == FullBlock then 4
    else if g == DarkShade then 3
    else if g == MediumShade then 2
    else if g == LightShade then 1
    else 0
  }

  /** With `Depth` = 16 the bands are [0, 4], (4, 16/3), [16/3, 8), [8, 16)
      and [16, oo); the first band is closed on the right, the others open. */
  lemma WallGlyphBands(distance: real)
    ensures WallGlyph(distance, false) == FullBlock <==> distance <= 4.0
    ensures WallGlyph(distance, false) == DarkShade <==> 4.0 < distance < 16.0 / 3.0
    ensures WallGlyph(distance, false) == MediumShade <==> 16.0 / 3.0 <= distance < 8.0
    ensures WallGlyph(distance, false) == LightShade <==> 8.0 <= distance < 16.0
    ensures WallGlyph(distance, false) == ' ' <==> 16.0 <= distance
  {
  }

  /** A nearer wall is never drawn lighter than a farther one. */
  lemma WallGlyphMonotone(d1: real, d2: real)
    requires d1 <= d2
    ensures WallDensity(WallGlyph(d1, false)) >= WallDensity(WallGlyph(d2, false))
  {
  }

  /** A seam is blank whatever the distance. */
  lemma BoundaryIsBlank(distance: real)
    ensures WallGlyph(distance, true) == ' '
    ensures WallDensity(WallGlyph(distance, true)) == 0
  {
  }

  /** The floor's normalised row position `b`: 1 at the horizon row
      `ScreenHeight / 2`, falling to 0 at the bottom edge. */
  function FloorRatio(y: int): real {
    1.0 - ((y as real - ScreenHeight as real / 2.0) / (ScreenHeight as real / 2.0))
  }

  /** The floor glyph of screen row `y`. */
  function FloorGlyph(y: int): char {
    var b := FloorRatio(y);
    if b < 0.25 then '#'
    else if b < 0.5 then 'x'
    else if b < 0.75 then '.'
    else if b < 0.9 then '-'
    else ' '
  }

  /** How dense a floor glyph is: 4 for `'#'` down to 0 for blank. */
  function FloorDensity(g: char): nat {
    if g == '#' then 4
    else if g == 'x' then 3
    else if g == '.' then 2
    else if g == '-' then 1
    else 0
  }

  /** On the 40-row screen the floor glyph of a row depends only on which
      of five row bands holds it. */
  lemma FloorGlyphRows(y: int)
    ensures FloorGlyph(y) == '#' <==> 35 < y
    ensures FloorGlyph(y) == 'x' <==> 30 < y <= 35
    ensures FloorGlyph(y) == '.' <==> 25 < y <= 30
    ensures FloorGlyph(y) == '-' <==> 22 < y <= 25
    ensures FloorGlyph(y) == ' ' <==> y <= 22
  {
  }

  /** Lower rows (larger `y`) never get a lighter floor glyph. */
  lemma FloorGlyphMonotone(y1: int, y2: int)
    requires y1 <= y2
    ensures FloorDensity(FloorGlyph(y1)) <= FloorDensity(FloorGlyph(y2))
  {
  }
}
