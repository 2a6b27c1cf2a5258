# console_fps raycaster: a verified model of the frame loop

console_fps is a pseudo-3D first-person view drawn in a terminal. A player
stands on a 16 x 16 character map (`#` walls, `.` floor). Every frame, the
program does three things:

- It reads one key. `a`/`d` rotate the player. `w`/`s` move it forward or
  back, undoing the move if it lands in a wall. `q` quits.
- It casts one ray per screen column. Each ray is marched in steps of 0.1
  until it leaves the map, meets a wall, or reaches the render depth 16.
- It fills the column of the 120 x 40 character buffer with sky, a wall
  strip shaded by distance, and a floor shaded by screen row. Then it
  copies the map into the top-left corner and marks the player's cell
  with `P`.

This project models all of that in Dafny, module by module:

| module | file | what |
|---|---|---|
| `Numeric` | numeric.dfy | the C++ `(int)` cast (truncation toward zero) and small facts about division |
| `World` | world.dfy | screen and map sizes, field of view, depth, speed, the level, the start pose, flat cell indexing |
| `Movement` | movement.dfy | the pose, the key switch with collision rollback; `Player` is the three globals updated in place |
| `Shade` | shade.dfy | the wall-shade and floor-shade threshold chains |
| `RayCast` | raycast.dfy | the ray march (`March`, a `while` loop proved against the function `Cast`) and the corner-seam test |
| `Frame` | frame.dfy | ray angles, ceiling and floor rows, the per-column fill, the minimap and marker overlay, one whole pass of the frame loop |

Floats are modelled as exact reals, so the model uses exact arithmetic
where the program rounds.

The trigonometric functions `sinf` and `cosf` are parameters
(`sin, cos: real -> real`). The only thing assumed about them is that
they lie on the unit circle.

The seam test `acos(dot) < 0.01` contains `sqrt` and `acos`. It is
restated without either. Take a corner vector `v` of squared length `l`,
with `e = eye . v`. The test becomes `e > 0 && e*e > c*c*l`, where `c`
is `cos(0.01)`, a parameter in the range (0.9999, 1).
`RayCast.GrazesIsAngleTest` proves that this holds exactly when the
source's normalised `dot = e / |v|` exceeds `c`. For a unit eye vector
`dot` lies in [-1, 1], where `acos` is decreasing, so that is the
source's test. The frame-level methods therefore require `sin` and `cos`
to lie on the unit circle (`Frame.UnitEye`).
The four corners are sorted by squared length, which orders them the
same way as length.

## Model

| member | source | states |
|---|---|---|
| Numeric.Trunc | main.cpp:138-139 | `(int)r` truncates toward zero: for r >= 0 the result is the largest int not above r, for r < 0 the smallest int not below r |
| Numeric.TruncMonotone | main.cpp:183 | truncation preserves order |
| Numeric.TruncNearZero | main.cpp:138-139 | every value in (-1, 1) truncates to cell 0, unlike flooring |
| World.CellIndexInjective | main.cpp:148 | `cy * 16 + cx` gives each in-map cell its own index, inside the map |
| World.LevelCell | main.cpp:37-53 | the flat level string holds character cx of row cy at index `cy * 16 + cx` |
| World.WallAheadOfStart | main.cpp:50-51 | cell (14, 12) is open and cell (14, 13) is a wall |
| World.StartIsOpen | main.cpp:15-16 | the start position (14, 12) lies in an open cell |
| Movement.RotationChangesOnlyAngle | main.cpp:81-87 | `a` subtracts and `d` adds `speed * elapsed` to the angle; position unchanged |
| Movement.ForwardOutcome | main.cpp:89-99 | `w` keeps the angle; if the destination cell is a wall the pose is exactly unchanged (full rollback on both axes), otherwise the position is moved by (sin a, cos a) * speed * elapsed |
| Movement.BackwardOutcome | main.cpp:101-111 | the same for `s` with the displacement negated |
| Movement.OtherKeysKeepPose | main.cpp:113-117 | `q` and unknown keys leave the pose unchanged |
| Movement.NeverEntersWall | main.cpp:79-111 | a player in an open cell is never left in a wall cell by any key |
| Movement.Player.constructor | main.cpp:15-17 | the player starts at (14, 12) facing angle 0 |
| Movement.Player.HandleKey | main.cpp:79-118 | updates the three globals in place to `NextPose` of the old pose; returns false exactly for `q` |
| RayCast.InsertByLength | main.cpp:166 | inserting into a list sorted by corner distance keeps it sorted and adds exactly that element |
| RayCast.SortByLength | main.cpp:164-166 | the corner list sorted by distance is a permutation of the input |
| RayCast.GrazesIsAngleTest | main.cpp:159-173 | for a corner at length `len > 0`, the seam test holds exactly when the normalised dot product `eye . v / len` exceeds cos(0.01), the source's `acos(dot) < 0.01` for `dot` in [-1, 1] |
| RayCast.DegenerateCornerNeverGrazes | main.cpp:159-171 | a corner at the player's own position is never a seam, as `acos` of 0/0 compares false |
| RayCast.TwoNearestCorners | main.cpp:151-173 | the seam test only looks at the two nearest of the four corners, whose squared lengths are no larger than those of the other two |
| RayCast.Sightings | main.cpp:136-148 | for each of the 160 step distances 0.1 to 16.0 (entry 0 is never read): the entry is `Outside` exactly when the sampled cell is off the map, a wall exactly when it is an in-map `#` cell, carrying that cell's corner-test flag, and `Open` exactly when it is an in-map non-`#` cell |
| RayCast.MarchFrom | main.cpp:135-178 | the march from step k ends at a distance above k steps and at most `Depth`; without a hit the distance is `Depth`; only a hit can be a seam |
| RayCast.Cast | main.cpp:126-178 | the march from distance 0 reports a positive distance of at most `Depth`, and exactly `Depth` when nothing was hit |
| RayCast.March | main.cpp:126-178 | the `while` loop terminates and its final distance, hit flag and seam flag are those of `Cast` |
| RayCast.MarchFirstEvent | main.cpp:141-149 | the first sample that is not open decides the march: outside the map gives a hit at exactly `Depth` with no seam, a wall gives a hit at that step's distance with that wall's seam flag |
| RayCast.MarchAllOpen | main.cpp:135-136 | if every sample is open, the march stops at `Depth` with no hit |
| RayCast.MarchNearHit | main.cpp:135-150 | a march that ends nearer than `Depth` ended on a wall at a whole number of steps, with every earlier sample open |
| RayCast.CastNearHit | main.cpp:135-150 | in terms of map cells: a ray that stops nearer than `Depth` stopped on an in-map `#` cell at n * 0.1, every earlier cell was in the map and not `#`, and the seam flag is that cell's corner test |
| RayCast.CastFirstWall | main.cpp:148-149 | if the first non-open cell is a wall at step n, the ray stops there at n * 0.1 with that cell's seam flag |
| RayCast.CastLeavesMap | main.cpp:142-144 | if the first non-open cell is outside the map, the ray stops as a hit at exactly `Depth` with no seam |
| RayCast.CastAllOpen | main.cpp:135-136 | a ray over only open in-map cells runs to `Depth` without a hit |
| RayCast.StartViewIsSeam | main.cpp:126-178 | from the start pose looking along +y, the ray meets the wall of row 13 after ten steps, exactly at a corner, so it is a seam |
| RayCast.StartViewOpen | main.cpp:138-148 | samples 1 to 9 of that ray fall in open cells |
| RayCast.StartViewWall | main.cpp:138-149 | sample 10 of that ray falls in the wall cell (14, 13) and is a seam |
| RayCast.StartViewCorners | main.cpp:151-173 | the nearest corner of that wall cell lies straight along the ray, so the seam test fires |
| RayCast.UnitCornerAheadGrazes | main.cpp:169-171 | a corner straight ahead at distance 1 passes the `acos(dot) < 0.01` test |
| Shade.WallGlyph | main.cpp:186-201 | the wall glyph is blank exactly when the column is a seam or the wall is at least `Depth` away |
| Shade.WallGlyphBands | main.cpp:189-198 | solid block for d <= 4, dark shade for 4 < d < 16/3, medium for 16/3 <= d < 8, light for 8 <= d < 16, blank from 16 |
| Shade.WallGlyphMonotone | main.cpp:189-198 | a nearer wall is never drawn lighter |
| Shade.BoundaryIsBlank | main.cpp:200-201 | a seam is blank at any distance |
| Shade.FloorGlyphRows | main.cpp:216-226 | on the 40-row screen: `#` below row 35, `x` rows 31-35, `.` rows 26-30, `-` rows 23-25, blank from row 22 up |
| Shade.FloorGlyphMonotone | main.cpp:216-226 | a lower row never gets a lighter floor glyph |
| Frame.RayAngleSpan | main.cpp:124 | the 120 column angles lie in [a - fov/2, a + fov/2) |
| Frame.RayAngleIncreasing | main.cpp:124 | columns further right get larger angles |
| Frame.CeilingRow | main.cpp:183 | the last sky row lies above the horizon row 20, for every positive distance |
| Frame.FloorRow | main.cpp:184 | the last wall row lies below the horizon row 20 |
| Frame.HorizonIsWall | main.cpp:183-212 | rows 20 and 21 always show the wall glyph |
| Frame.NearerWallIsTaller | main.cpp:183-184 | every wall row of a farther wall is a wall row of a nearer one |
| Frame.FarthestWallRows | main.cpp:183-184 | a wall at depth 16 has ceiling row 17 and floor row 23 |
| Frame.NearWallFillsColumn | main.cpp:183-212 | a wall nearer than 40/21 fills every row of the column |
| Frame.ScreenIndexBijective | main.cpp:207 | `y * 120 + x` is a bijection between the screen cells and the buffer indices |
| Frame.DrawColumn | main.cpp:183-229 | every row of column x gets sky, the wall glyph or the floor glyph by its band; the shared `nShade` variable never leaks a floor glyph into the wall; no other column changes |
| Frame.RenderColumns | main.cpp:121-229 | for `sin`/`cos` on the unit circle, after the column loop every cell holds the glyph of its column's ray |
| Frame.DrawMinimap | main.cpp:237-241 | screen cell (x, y + 1) holds map cell (x, y) for every map cell; all other cells are unchanged |
| Frame.MarkerOnPlayerCell | main.cpp:244 | for a player inside the map, the marker index is in the buffer and covers the player's own minimap cell |
| Frame.StartMarker | main.cpp:244 | at the start pose the marker is at screen cell (14, 13) |
| Frame.OverlayShowsMap | main.cpp:237-244 | with the player inside the map, the overlay shows the whole map except the player's cell, which is `P`; everything else is the 3D view |
| Frame.RenderFrame | main.cpp:121-244 | after drawing, every cell is the marker, the map overlay or the 3D view, in that priority |
| Frame.RunFrame | main.cpp:79-244 | one pass of the loop: the key moves the player to `NextPose`, and the frame is drawn for the new pose; the result is false exactly for `q` |

## Left out

- ncurses set-up and tear-down, the terminal-size wait loop, `getch`, `mvaddwstr` and `refresh` (main.cpp:24-33, 66-77, 247-252). These are terminal I/O. The key is a parameter of `HandleKey` and `RunFrame`.
- The stats line and the `std::chrono` frame timing (main.cpp:55-64, 233-234). These are clock and formatting code. The elapsed time is a parameter.
- The outer `while (shouldRun)` loop itself. `RunFrame` models one pass, and its result is the new `shouldRun`.
- `sinf`, `cosf`, `sqrt` and `acos` are not computed. The eye vector comes from the `sin`/`cos` parameters. The seam test is restated exactly, as described above, with `cos(0.01)` as a parameter in (0.9999, 1).
- Float rounding. All arithmetic is exact real arithmetic. The exact rollback of a move and the step distances being exact multiples of 0.1 hold only in reals. In the program, 0.1f added 160 times is not exactly 16.
- RayCast.March: for an eye vector that is not of unit length the source's normalised dot product can leave [-1, 1], where its `acos` gives NaN and the test fails; the model's seam flag then need not match. Every eye vector the frame builds has unit length (`Frame.UnitEye`).
- RayCast.SortByLength: `std::sort` leaves the order of equally distant corners unspecified. The model uses a stable insertion sort. The seam flag can differ only when two corners are equally distant and only one of them passes the test.
- Movement.Player.HandleKey: the collision check indexes the map without a bounds check, and row 0 has open cells, so the player can walk off the map. Reading outside the string is undefined behaviour. The model requires the destination index to lie inside the map (`MoveDefined`).
- Frame.RenderFrame: the marker index `((int)y + 1) * 120 + (int)x` is not bounds-checked either. The model requires it to lie inside the buffer. `MarkerOnPlayerCell` shows that this holds whenever the player is inside the map.
- Frame.CeilingRow: the model requires a positive distance. Every march reports one (`Cast`), so the division by the distance is always defined.
- The 16-bit `short nShade` holding the wall glyph is modelled as a `char`. All its values fit.
