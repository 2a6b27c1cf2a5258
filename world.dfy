/** The game's fixed configuration and the 16 x 16 level map (main.cpp
    lines 10-19 and 37-53). The map is a flat, row-major string of
    `'#'` (wall) and `'.'` (open) cells; it is never modified. */
module World {
  import opened Numeric

  const ScreenWidth: int := 120
  const ScreenHeight: int := 40
  const MapWidth: int := 16
  const MapHeight: int := 16

  /** Maximum render depth, in map cells. */
  const Depth: real := 16.0
  /** Field of view, a quarter of the source's approximation of pi. */
  const Fov: real := 3.14159 / 4.0
  /** One speed scales both rotation and movement per elapsed second. */
  const Speed: real := 150.0

  /** A level map: row-major, `MapWidth * MapHeight` cells. */
  type Grid = m: seq<char> | |m| == MapWidth * MapHeight
    witness seq(MapWidth * MapHeight, _ => '.')

  /** One map row. */
  type Row = s: string | |s| == MapWidth witness seq(MapWidth, _ => '.')

  /** The level as the source spells it, one row per string. */
  const Rows: seq<Row> := [
    "#########.......",
    "#...............",
    "#.......########",
    "#..............#",
    "#......##......#",
    "#......##......#",
    "#..............#",
    "###............#",
    "##.............#",
    "#......####..###",
    "#......#.......#",
    "#......#.......#",
    "#..............#",
    "#......#########",
    "#..............#",
    "################"
  ]

  /** The level map, flattened row after row as the source's `map +=`
      lines build it. */
  const Level: Grid := seq(MapWidth * MapHeight, i requires 0 <= i < MapWidth * MapHeight => Rows[i / MapWidth][i % MapWidth])

  /** Where the player starts. */
  const StartX: real := 14.0
  const StartY: real := 12.0
  const StartA: real := 0.0

  predicate InMap(cx: int, cy: int) {
    0 <= cx < MapWidth && 0 <= cy < MapHeight
  }

  /** The flat map index of cell column `cx`, row `cy`. */
  function CellIndex(cx: int, cy: int): int {
    cy * MapWidth + cx
  }

  /** The flat map index the source computes for a continuous position:
      `(int)y * nMapWidth + (int)x`, with no bounds check on either axis. */
  function PositionIndex(x: real, y: real): int {
    CellIndex(Trunc(x), Trunc(y))
  }

  /** An in-map cell has exactly one index, and it lies inside the map. */
  lemma CellIndexInjective(cx1: int, cy1: int, cx2: int, cy2: int)
    requires InMap(cx1, cy1) && InMap(cx2, cy2)
    ensures 0 <= CellIndex(cx1, cy1) < MapWidth * MapHeight
    ensures CellIndex(cx1, cy1) == CellIndex(cx2, cy2) <==> cx1 == cx2 && cy1 == cy2
  {
  }

  /** Cell (cx, cy) of the flat level is character cx of row cy. */
  lemma LevelCell(cx: int, cy: int)
    requires InMap(cx, cy)
    ensures Level[CellIndex(cx, cy)] == Rows[cy][cx]
  {
    var i := CellIndex(cx, cy);
    assert i / MapWidth == cy && i % MapWidth == cx;
  }

  /** Straight ahead of the start position (increasing y) the next cell
      is a wall. */
  lemma WallAheadOfStart()
    ensures Level[CellIndex(14, 12)] == '.' && Level[CellIndex(14, 13)] == '#'
  {
    LevelCell(14, 12);
    LevelCell(14, 13);
  }

  /** The start position lies in an open cell of the level. */
  lemma StartIsOpen()
    ensures PositionIndex(StartX, StartY) == CellIndex(14, 12)
    ensures Level[PositionIndex(StartX, StartY)] == '.'
  {
    LevelCell(14, 12);
  }
}
