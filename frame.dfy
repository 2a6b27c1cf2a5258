/** Composition of one frame into the flat 120 x 40 character buffer
    (main.cpp lines 119-229 and 237-244): every screen column casts one
    ray, turns its distance into a ceiling row and a floor row, and fills
    the column with sky, wall and floor; then the map is copied into rows
    1-16 of the left edge and the player's cell is marked with `'P'`.

    The buffer is the source's `wchar_t` array, indexed `y * 120 + x`. */
module Frame {
  import opened Numeric
  import opened World
  import opened Shade
  import opened RayCast
  import opened Movement

  /** The angle of the ray for screen column `x`: the left edge of the
      field of view plus the column's share of it. */
  function RayAngle(a: real, x: int): real {
    (a - Fov / 2.0) + (x as real / ScreenWidth as real) * Fov
  }

  /** The 120 columns sweep the field of view from its left edge up to,
      but not including, its right edge. */
  lemma RayAngleSpan(a: real, x: int)
    requires 0 <= x < ScreenWidth
    ensures a - Fov / 2.0 <= RayAngle(a, x) < a + Fov / 2.0
  {
  }

  /** Columns further right look further clockwise. */
  lemma RayAngleIncreasing(a: real, x1: int, x2: int)
    requires x1 < x2
    ensures RayAngle(a, x1) < RayAngle(a, x2)
  {
  }

  /** `sin` and `cos` lie on the unit circle, as `sinf` and `cosf` do, so
      every eye vector has length 1; the seam test relies on it. */
  ghost predicate UnitEye(sin: real -> real, cos: real -> real) {
    forall a :: sin(a) * sin(a) + cos(a) * cos(a) == 1.0
  }

  /** The ray of column `x` for a player at pose `p`; `sin` and `cos` stand
      for `sinf` and `cosf`. */
  function ViewRay(p: Pose, sin: real -> real, cos: real -> real, x: int): Ray {
    Ray(p.x, p.y, sin(RayAngle(p.a, x)), cos(RayAngle(p.a, x)))
  }

  /** The last sky row of a column whose wall is `distance` away: half the
      screen height less `height / distance`, truncated toward zero. It
      always lies above the horizon row. */
  function CeilingRow(distance: real): (c: int)
    requires 0.0 < distance
    ensures c < ScreenHeight / 2
  {
    PositiveQuotient(ScreenHeight as real, distance);
    Trunc(ScreenHeight as real / 2.0 - ScreenHeight as real / distance)
  }

  /** The last wall row, the mirror image of the ceiling; it always lies
      below the horizon row. */
  function FloorRow(distance: real): (f: int)
    requires 0.0 < distance
    ensures f > ScreenHeight / 2
  {
    ScreenHeight - CeilingRow(distance)
  }

  /** The glyph of row `y` of a column whose wall is `distance` away. */
  function ColumnGlyph(distance: real, boundary: bool, y: int): char
    requires 0.0 < distance
  {
    if y <= CeilingRow(distance) then ' '
    else if y <= FloorRow(distance) then WallGlyph(distance, boundary)
    else FloorGlyph(y)
  }

  /** Whether row `y` belongs to the wall strip of the column. */
  predicate IsWallRow(distance: real, y: int)
    requires 0.0 < distance
  {
    CeilingRow(distance) < y <= FloorRow(distance)
  }

  /** The two rows around the horizon always show the wall, however far
      it is. */
  lemma HorizonIsWall(distance: real, boundary: bool)
    requires 0.0 < distance
    ensures IsWallRow(distance, ScreenHeight / 2) && IsWallRow(distance, ScreenHeight / 2 + 1)
    ensures ColumnGlyph(distance, boundary, ScreenHeight / 2) == WallGlyph(distance, boundary)
    ensures ColumnGlyph(distance, boundary, ScreenHeight / 2 + 1) == WallGlyph(distance, boundary)
  {
  }

  /** A nearer wall is drawn at least as tall: its strip of wall rows
      contains the strip of any farther wall. */
  lemma NearerWallIsTaller(d1: real, d2: real, y: int)
    requires 0.0 < d1 <= d2
    requires IsWallRow(d2, y)
    ensures IsWallRow(d1, y)
  {
    var h := ScreenHeight as real;
    DivAntitone(h, d1, d2);
    TruncMonotone(h / 2.0 - h / d1, h / 2.0 - h / d2);
  }

  /** A wall at the full render depth still spans rows 18 to 23. */
  lemma FarthestWallRows()
    ensures CeilingRow(Depth) == 17 && FloorRow(Depth) == 23
  {
    assert ScreenHeight as real / Depth == 2.5;
  }

  /** A wall nearer than 40/21 fills the whole column: no sky, no floor. */
  lemma NearWallFillsColumn(distance: real, boundary: bool, y: int)
    requires 0.0 < distance <= 40.0 / 21.0
    requires 0 <= y < ScreenHeight
    ensures ColumnGlyph(distance, boundary, y) == WallGlyph(distance, boundary)
  {
    var h := ScreenHeight as real;
    DivAntitone(h, distance, 40.0 / 21.0);
    assert h / (40.0 / 21.0) == 21.0;
    assert CeilingRow(distance) < 0;
  }

  /** The flat buffer index of screen cell (x, y). */
  function ScreenIndex(x: int, y: int): int {
    y * ScreenWidth + x
  }

  /** Every cell of the screen has its own index in the buffer, and every
      index of the buffer belongs to a cell. */
  lemma ScreenIndexBijective(x: int, y: int, i: int)
    requires 0 <= x < ScreenWidth && 0 <= y < ScreenHeight
    requires 0 <= i < ScreenWidth * ScreenHeight
    ensures 0 <= ScreenIndex(x, y) < ScreenWidth * ScreenHeight
    ensures ScreenIndex(x, y) == i <==> x == i % ScreenWidth && y == i / ScreenWidth
  {
  }

  /** Fill column `x` top to bottom (main.cpp lines 183-229). Like the
      source, one `shade` variable holds the wall glyph and is overwritten
      by each floor row; since every floor row comes after every wall row,
      the walls still get the wall glyph. */
  method DrawColumn(screen: array<char>, x: int, distance: real, boundary: bool)
    requires screen.Length == ScreenWidth * ScreenHeight
    requires 0 <= x < ScreenWidth && 0.0 < distance
    modifies screen
    ensures forall y :: 0 <= y < ScreenHeight ==>
      screen[ScreenIndex(x, y)] == ColumnGlyph(distance, boundary, y)
    ensures forall x', y' :: 0 <= x' < ScreenWidth && 0 <= y' < ScreenHeight && x' != x ==>
      screen[ScreenIndex(x', y')] == old(screen[ScreenIndex(x', y')])
  {
    var ceiling := CeilingRow(distance);
    var floor := ScreenHeight - ceiling;
    var shade := WallGlyph(distance, boundary);
    var y := 0;
    while y < ScreenHeight
      invariant 0 <= y <= ScreenHeight
      invariant y <= floor + 1 ==> shade == WallGlyph(distance, boundary)
      invariant forall y' :: 0 <= y' < y ==>
        screen[ScreenIndex(x, y')] == ColumnGlyph(distance, boundary, y')
      invariant forall x', y' :: 0 <= x' < ScreenWidth && 0 <= y' < ScreenHeight && (x' != x || y <= y') ==>
        screen[ScreenIndex(x', y')] == old(screen[ScreenIndex(x', y')])
    {
      if y <= ceiling {
        screen[ScreenIndex(x, y)] := ' ';
      } else if y > ceiling && y <= floor {
        screen[ScreenIndex(x, y)] := shade;
      } else {
        shade := FloorGlyph(y);
        screen[ScreenIndex(x, y)] := shade;
      }
      y := y + 1;
    }
  }

  /** Row `y` of column `x` of the 3D view for a player at pose `p`. */
  function ColumnAt(m: Grid, p: Pose, sin: real -> real, cos: real -> real, cosBound: CosBound, x: int, y: int): char {
    var h := Cast(m, ViewRay(p, sin, cos, x), cosBound);
    ColumnGlyph(h.distance, h.boundary, y)
  }

  /** The loop over the screen columns (main.cpp lines 121-229): cast the
      column's ray, then fill the column. */
  method RenderColumns(screen: array<char>, m: Grid, p: Pose, sin: real -> real, cos: real -> real, cosBound: CosBound)
    requires screen.Length == ScreenWidth * ScreenHeight
    requires UnitEye(sin, cos)
    modifies screen
    ensures forall x, y :: 0 <= x < ScreenWidth && 0 <= y < ScreenHeight ==>
      screen[ScreenIndex(x, y)] == ColumnAt(m, p, sin, cos, cosBound, x, y)
  {
    var x := 0;
    while x < ScreenWidth
      invariant 0 <= x <= ScreenWidth
      invariant forall x', y :: 0 <= x' < x && 0 <= y < ScreenHeight ==>
        screen[ScreenIndex(x', y)] == ColumnAt(m, p, sin, cos, cosBound, x', y)
    {
      var rayAngle := RayAngle(p.a, x);
      var eyeX, eyeY := sin(rayAngle), cos(rayAngle);
      var distance, hit, boundary := March(m, Ray(p.x, p.y, eyeX, eyeY), cosBound);
      DrawColumn(screen, x, distance, boundary);
      x := x + 1;
    }
  }

  /** The screen cells the map overlay covers: columns 0-15 of rows 1-16;
      map row `ny` lands on screen row `ny + 1`. */
  predicate InMinimap(x: int, y: int) {
    0 <= x < MapWidth && 1 <= y <= MapHeight
  }

  /** Copy the map into the top-left corner of the screen (main.cpp lines
      237-241), leaving every other cell as it was. */
  method DrawMinimap(screen: array<char>, m: Grid)
    requires screen.Length == ScreenWidth * ScreenHeight
    modifies screen
    ensures forall x, y :: 0 <= x < ScreenWidth && 0 <= y < ScreenHeight ==>
      screen[ScreenIndex(x, y)] ==
        if InMinimap(x, y) then m[CellIndex(x, y - 1)] else old(screen[ScreenIndex(x, y)])
  {
    var nx := 0;
    while nx < MapWidth
      invariant 0 <= nx <= MapWidth
      invariant forall x, y :: 0 <= x < ScreenWidth && 0 <= y < ScreenHeight ==>
        screen[ScreenIndex(x, y)] ==
          if InMinimap(x, y) && x < nx then m[CellIndex(x, y - 1)] else old(screen[ScreenIndex(x, y)])
    {
      var ny := 0;
      while ny < MapHeight
        invariant 0 <= ny <= MapHeight
        invariant forall x, y :: 0 <= x < ScreenWidth && 0 <= y < ScreenHeight ==>
          screen[ScreenIndex(x, y)] ==
            if InMinimap(x, y) && (x < nx || (x == nx && y <= ny)) then m[CellIndex(x, y - 1)]
            else old(screen[ScreenIndex(x, y)])
      {
        screen[ScreenIndex(nx, ny + 1)] := m[CellIndex(nx, ny)];
        ny := ny + 1;
      }
      nx := nx + 1;
    }
  }

  /** The buffer index of the player marker: the player's cell, one row
      down, computed flat and without a bounds check. */
  function MarkerIndex(p: Pose): int {
    (Trunc(p.y) + 1) * ScreenWidth + Trunc(p.x)
  }

  /** A player inside the map is marked on its own cell of the minimap. */
  lemma MarkerOnPlayerCell(p: Pose)
    requires InMap(Trunc(p.x), Trunc(p.y))
    ensures 0 <= MarkerIndex(p) < ScreenWidth * ScreenHeight
    ensures MarkerIndex(p) == ScreenIndex(Trunc(p.x), Trunc(p.y) + 1)
    ensures InMinimap(Trunc(p.x), Trunc(p.y) + 1)
  {
  }

  /** At the start pose the marker covers screen cell (14, 13). */
  lemma StartMarker()
    ensures MarkerIndex(Pose(StartX, StartY, StartA)) == ScreenIndex(14, 13)
  {
  }

  /** Cell (x, y) of a finished frame: the marker, else the map overlay,
      else the 3D view. */
  function FrameCell(m: Grid, p: Pose, sin: real -> real, cos: real -> real, cosBound: CosBound, x: int, y: int): char
    requires 0 <= x < ScreenWidth && 0 <= y < ScreenHeight
  {
    if ScreenIndex(x, y) == MarkerIndex(p) then 'P'
    else if InMinimap(x, y) then m[CellIndex(x, y - 1)]
    else ColumnAt(m, p, sin, cos, cosBound, x, y)
  }

  /** A player inside the map sees the whole map in the overlay except its
      own cell, which shows `'P'`; outside the overlay the frame is the 3D
      view. */
  lemma OverlayShowsMap(m: Grid, p: Pose, sin: real -> real, cos: real -> real, cosBound: CosBound, x: int, y: int)
    requires InMap(Trunc(p.x), Trunc(p.y))
    requires 0 <= x < ScreenWidth && 0 <= y < ScreenHeight
    ensures InMinimap(x, y) ==>
      FrameCell(m, p, sin, cos, cosBound, x, y) ==
        if x == Trunc(p.x) && y == Trunc(p.y) + 1 then 'P' else m[CellIndex(x, y - 1)]
    ensures !InMinimap(x, y) ==>
      FrameCell(m, p, sin, cos, cosBound, x, y) == ColumnAt(m, p, sin, cos, cosBound, x, y)
  {
    MarkerOnPlayerCell(p);
    ScreenIndexBijective(x, y, MarkerIndex(p));
  }

  /** Draw the whole frame: the 3D view, then the map overlay, then the
      marker (main.cpp lines 121-244). */
  method RenderFrame(screen: array<char>, m: Grid, p: Pose, sin: real -> real, cos: real -> real, cosBound: CosBound)
    requires screen.Length == ScreenWidth * ScreenHeight
    requires UnitEye(sin, cos)
    requires 0 <= MarkerIndex(p) < ScreenWidth * ScreenHeight
    modifies screen
    ensures forall x, y :: 0 <= x < ScreenWidth && 0 <= y < ScreenHeight ==>
      screen[ScreenIndex(x, y)] == FrameCell(m, p, sin, cos, cosBound, x, y)
  {
    RenderColumns(screen, m, p, sin, cos, cosBound);
    DrawMinimap(screen, m);
    screen[MarkerIndex(p)] := 'P';
  }

  /** One pass of the frame loop (main.cpp lines 79-244): handle the key,
      then draw the frame for the new pose. The frame is drawn even on
      `'q'`; the loop only stops before the next pass. */
  method RunFrame(player: Player, screen: array<char>, key: char, m: Grid,
                  sin: real -> real, cos: real -> real, elapsed: real, cosBound: CosBound)
    returns (running: bool)
    requires screen.Length == ScreenWidth * ScreenHeight
    requires UnitEye(sin, cos)
    requires MoveDefined(player.CurrentPose(), key, sin, cos, elapsed)
    requires 0 <= MarkerIndex(NextPose(player.CurrentPose(), key, m, sin, cos, elapsed)) < ScreenWidth * ScreenHeight
    modifies player, screen
    ensures running <==> key != 'q'
    ensures player.CurrentPose() == NextPose(old(player.CurrentPose()), key, m, sin, cos, elapsed)
    ensures forall x, y :: 0 <= x < ScreenWidth && 0 <= y < ScreenHeight ==>
      screen[ScreenIndex(x, y)] == FrameCell(m, player.CurrentPose(), sin, cos, cosBound, x, y)
  {
    running := player.HandleKey(key, m, sin, cos, elapsed);
    RenderFrame(screen, m, player.CurrentPose(), sin, cos, cosBound);
  }
}
