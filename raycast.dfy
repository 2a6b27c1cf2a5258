/** The per-column ray march of main.cpp lines 126-178: starting at
    distance 0 the ray advances by 0.1 until it leaves the map (a hit at
    exactly `Depth`), samples a wall cell (a hit at the current distance,
    with corner-seam detection), or reaches `Depth`.

    The eye vector `(sin, cos)` of the ray angle is given, not computed.
    The seam test `acos(dot) < 0.01` is stated without `acos` or `sqrt`
    (`GrazesIsAngleTest`), and agrees with the source for unit eye vectors:
    for a unit eye vector and a corner vector `v` of length `|v| > 0`,
    `dot = eye . v / |v|` lies in [-1, 1], `acos` is decreasing there, so the
    test is `eye . v > c * |v|` with `c = cos(0.01)`, which for `c > 0` is
    `eye . v > 0 && (eye . v)^2 > c^2 * |v|^2`. For `|v| = 0` the source
    computes `acos(NaN)`, which compares false, and so does this form. */
module RayCast {
  import opened Numeric
  import opened World

  /** A ray from the player's position along the eye vector of its angle. */
  datatype Ray = Ray(ox: real, oy: real, ex: real, ey: real)

  /** The outcome of one march: the source's `fDistanceToWall`, `bHitWall`
      and `bBoundary` once the loop has ended. */
  datatype Hit = Hit(distance: real, hit: bool, boundary: bool)

  /** The cosine of the seam tolerance 0.01 rad, which lies in this range. */
  type CosBound = c: real | 0.9999 < c < 1.0 witness 0.99995

  const Step: real := 0.1
  /** The number of steps after which the distance reaches `Depth`. */
  const MaxSteps: nat := 160

  /** The distance after `k` steps. */
  function SampleDistance(k: nat): real {
    k as real * Step
  }

  /** The cell the ray samples at distance `d`, each axis truncated. */
  function SampleX(r: Ray, d: real): int {
    Trunc(r.ox + r.ex * d)
  }

  function SampleY(r: Ray, d: real): int {
    Trunc(r.oy + r.ey * d)
  }

  /** What the source records per corner of the hit cell: the length of
      the vector from the player to the corner (here squared, which orders
      corners the same way) and the dot product of the eye vector with that
      vector (here not divided by the length; `Grazes` accounts for it). */
  datatype Probe = Probe(lengthSq: real, dot: real)

  function CornerProbe(r: Ray, vx: real, vy: real): Probe {
    Probe(vx * vx + vy * vy, r.ex * vx + r.ey * vy)
  }

  /** The probes of the four corners of cell (cx, cy) in the source's loop
      order (tx outer, ty inner). */
  function Corners(r: Ray, cx: int, cy: int): seq<Probe> {
    [CornerProbe(r, cx as real - r.ox, cy as real - r.oy),
     CornerProbe(r, cx as real - r.ox, cy as real + 1.0 - r.oy),
     CornerProbe(r, cx as real + 1.0 - r.ox, cy as real - r.oy),
     CornerProbe(r, cx as real + 1.0 - r.ox, cy as real + 1.0 - r.oy)]
  }

  predicate SortedByLength(s: seq<Probe>) {
    forall i, j :: 0 <= i < j < |s| ==> s[i].lengthSq <= s[j].lengthSq
  }

  /** Insert `p` before the first probe at least as long. */
  function InsertByLength(p: Probe, s: seq<Probe>): (t: seq<Probe>)
    requires SortedByLength(s)
    ensures SortedByLength(t)
    ensures multiset(t) == multiset(s) + multiset{p}
    ensures |t| == |s| + 1
    ensures forall i :: 0 <= i < |t| ==> t[i] == p || t[i] in s
  {
    if s == [] || p.lengthSq <= s[0].lengthSq then [p] + s
    else
      var rest := InsertByLength(p, s[1..]);
      assert s == [s[0]] + s[1..];
      [s[0]] + rest
  }

  /** Order the probes from nearest to farthest, as `std::sort` does with a
      less-than on the length. */
  function SortByLength(s: seq<Probe>): (t: seq<Probe>)
    ensures SortedByLength(t)
    ensures multiset(t) == multiset(s)
    ensures |t| == |s|
  {
    if s == [] then []
    else
      assert s == [s[0]] + s[1..];
      InsertByLength(s[0], SortByLength(s[1..]))
  }

  /** The seam test of one corner: the angle between the eye vector and the
      corner vector is below the tolerance whose cosine is `cosBound`. */
  predicate Grazes(p: Probe, cosBound: CosBound) {
    p.dot > 0.0 && p.dot * p.dot > cosBound * cosBound * p.lengthSq
  }

  /** The seam test is the source's comparison on the normalised dot
      product: for a corner at length `len > 0`, the source's `dot` is
      `p.dot / len`, and `Grazes` holds exactly when it exceeds the cosine
      of the tolerance, which for `dot` in [-1, 1] is `acos(dot) < 0.01`. */
  lemma GrazesIsAngleTest(p: Probe, len: real, cosBound: CosBound)
    requires 0.0 < len && len * len == p.lengthSq
    ensures Grazes(p, cosBound) <==> p.dot / len > cosBound
  {
    var q, x := p.dot / len, cosBound * len;
    assert q * len == p.dot;
    assert cosBound * cosBound * p.lengthSq == x * x;
    ScaleStrict(cosBound, q, len);
    if p.dot > 0.0 {
      SquareStrict(x, p.dot);
    }
  }

  /** A corner at the player's own position (length 0) is never a seam;
      the source's `acos` of 0/0 compares false as well. */
  lemma DegenerateCornerNeverGrazes(r: Ray, cosBound: CosBound)
    ensures !Grazes(CornerProbe(r, 0.0, 0.0), cosBound)
  {
  }

  /** Whether the hit on cell (cx, cy) is a seam: one of the two corners
      nearest the player lies almost exactly along the ray. */
  function Boundary(r: Ray, cx: int, cy: int, cosBound: CosBound): bool {
    var p := SortByLength(Corners(r, cx, cy));
    Grazes(p[0], cosBound) || Grazes(p[1], cosBound)
  }

  /** The two corners the seam test looks at are the two nearest ones. */
  lemma TwoNearestCorners(r: Ray, cx: int, cy: int)
    ensures var p := SortByLength(Corners(r, cx, cy));
      |p| == 4 && multiset(p) == multiset(Corners(r, cx, cy)) &&
      p[0].lengthSq <= p[1].lengthSq &&
      forall i :: 2 <= i < 4 ==> p[1].lengthSq <= p[i].lengthSq
  {
  }

  /** The cell sampled at step `k` lies outside the map. */
  predicate OutsideAt(r: Ray, k: nat) {
    var d := SampleDistance(k);
    !InMap(SampleX(r, d), SampleY(r, d))
  }

  /** The cell sampled at step `k` is inside the map and a wall. */
  predicate WallAt(m: Grid, r: Ray, k: nat) {
    var d := SampleDistance(k);
    InMap(SampleX(r, d), SampleY(r, d)) && m[CellIndex(SampleX(r, d), SampleY(r, d))] == '#'
  }

  /** The cell sampled at step `k` is inside the map and not a wall. */
  predicate OpenAt(m: Grid, r: Ray, k: nat) {
    var d := SampleDistance(k);
    InMap(SampleX(r, d), SampleY(r, d)) && m[CellIndex(SampleX(r, d), SampleY(r, d))] != '#'
  }

  /** The seam flag of the cell sampled at step `k`. */
  predicate SeamAt(r: Ray, k: nat, cosBound: CosBound) {
    var d := SampleDistance(k);
    Boundary(r, SampleX(r, d), SampleY(r, d), cosBound)
  }

  /** What the march finds at one sample: a cell outside the map, a wall
      cell (with its seam flag), or an open cell. */
  datatype Sighting = Outside | Wall(seam: bool) | Open

  /** `x` is what the ray sees at step `k`: outside the map, a wall cell
      with that cell's seam flag, or an open cell. */
  predicate SeenAt(x: Sighting, m: Grid, r: Ray, cosBound: CosBound, k: nat) {
    (x == Outside <==> OutsideAt(r, k)) &&
    (x.Wall? <==> WallAt(m, r, k)) &&
    (x.Wall? ==> x.seam == SeamAt(r, k, cosBound)) &&
    (x == Open <==> OpenAt(m, r, k))
  }

  /** What the ray sees at step `k`. The seam flag is only ever read for
      the wall cell that ends the march, which is where the source computes it. */
  function SightingAt(m: Grid, r: Ray, cosBound: CosBound, k: nat): Sighting {
    var d := SampleDistance(k);
    var cx, cy := SampleX(r, d), SampleY(r, d);
    if !InMap(cx, cy) then Outside
    else if m[CellIndex(cx, cy)] == '#' then Wall(Boundary(r, cx, cy, cosBound))
    else Open
  }

  /** Everything the ray would see at steps 0 to `MaxSteps` (step 0 is
      never read): each entry is outside the map, a wall cell with that
      cell's seam flag, or an open cell, exactly as the cell sampled at
      that step is. */
  function Sightings(m: Grid, r: Ray, cosBound: CosBound): (s: seq<Sighting>)
    ensures |s| == MaxSteps + 1
    ensures forall k :: 0 <= k <= MaxSteps ==> SeenAt(s[k], m, r, cosBound, k)
  {
    seq(MaxSteps + 1, k requires 0 <= k => SightingAt(m, r, cosBound, k))
  }

  /** The march along a sequence of sightings from the state after `k`
      steps (distance below `Depth`, no hit yet): take step `k + 1` and act
      on what is seen there. */
  function MarchFrom(s: seq<Sighting>, k: nat): (h: Hit)
    requires |s| == MaxSteps + 1 && k < MaxSteps
    ensures SampleDistance(k) < h.distance <= Depth
    ensures h.hit || h.distance == Depth
    ensures !h.hit ==> !h.boundary
    decreases MaxSteps - k
  {
    var d := SampleDistance(k + 1);
    match s[k + 1]
    case Outside => Hit(Depth, true, false)
    case Wall(seam) => Hit(d, true, seam)
    case Open => if d < Depth then MarchFrom(s, k + 1) else Hit(d, false, false)
  }

  /** The march of one ray over the map, from distance 0. The distance it
      reports is positive and at most `Depth`, and a ray that hit nothing
      reports exactly `Depth`. */
  function Cast(m: Grid, r: Ray, cosBound: CosBound): (h: Hit)
    ensures 0.0 < h.distance <= Depth
    ensures h.hit || h.distance == Depth
  {
    MarchFrom(Sightings(m, r, cosBound), 0)
  }

  /** The source's `while` loop. */
  method March(m: Grid, r: Ray, cosBound: CosBound) returns (distance: real, hit: bool, boundary: bool)
    ensures Hit(distance, hit, boundary) == Cast(m, r, cosBound)
  {
    ghost var s := Sightings(m, r, cosBound);
    distance, hit, boundary := 0.0, false, false;
    ghost var k: nat := 0;
    while !hit && distance < Depth
      invariant k <= MaxSteps
      invariant !hit ==> distance == SampleDistance(k) && !boundary
      invariant !hit && k < MaxSteps ==> MarchFrom(s, k) == Cast(m, r, cosBound)
      invariant !hit && k == MaxSteps ==> Hit(distance, false, false) == Cast(m, r, cosBound)
      invariant hit ==> Hit(distance, hit, boundary) == Cast(m, r, cosBound)
      decreases MaxSteps - k + (if hit then 0 else 1)
    {
      distance := distance + Step;
      k := k + 1;
      assert distance == SampleDistance(k);
      var testX, testY := SampleX(r, distance), SampleY(r, distance);
      assert SeenAt(s[k], m, r, cosBound, k);
      if testX < 0 || testX >= MapWidth || testY < 0 || testY >= MapHeight {
        hit := true;
        distance := Depth;
        assert OutsideAt(r, k);
      } else if m[CellIndex(testX, testY)] == '#' {
        hit := true;
        boundary := Boundary(r, testX, testY, cosBound);
        assert WallAt(m, r, k) && SeamAt(r, k, cosBound) == boundary;
      } else {
        assert OpenAt(m, r, k);
      }
    }
  }

  /** If step `n` is the first whose cell is not open, it decides the
      outcome: leaving the map gives exactly `Depth` with no seam; a wall
      gives the distance of step `n` and that wall's seam flag. */
  lemma {:induction false} MarchFirstEvent(s: seq<Sighting>, k: nat, n: nat)
    requires |s| == MaxSteps + 1
    requires k < n <= MaxSteps
    requires forall j :: k < j < n ==> s[j] == Open
    ensures s[n] == Outside ==> MarchFrom(s, k) == Hit(Depth, true, false)
    ensures s[n].Wall? ==> MarchFrom(s, k) == Hit(SampleDistance(n), true, s[n].seam)
    decreases n - k
  {
    if k + 1 < n {
      assert s[k + 1] == Open;
      MarchFirstEvent(s, k + 1, n);
    }
  }

  /** If every cell up to `Depth` is open, there is no hit and the
      distance is exactly `Depth`. */
  lemma {:induction false} MarchAllOpen(s: seq<Sighting>, k: nat)
    requires |s| == MaxSteps + 1 && k < MaxSteps
    requires forall j :: k < j <= MaxSteps ==> s[j] == Open
    ensures MarchFrom(s, k) == Hit(Depth, false, false)
    decreases MaxSteps - k
  {
    assert s[k + 1] == Open;
    if k + 1 < MaxSteps {
      MarchAllOpen(s, k + 1);
    }
  }

  /** Conversely, a march that ends nearer than `Depth` ended on a wall at
      some step `n`: every earlier cell was open and inside the map, the
      distance is `n` whole steps and the seam flag is that wall's. */
  lemma {:induction false} MarchNearHit(s: seq<Sighting>, k: nat)
    requires |s| == MaxSteps + 1 && k < MaxSteps
    ensures var h := MarchFrom(s, k);
      h.distance < Depth ==>
        h.hit &&
        exists n :: k < n < MaxSteps && s[n] == Wall(h.boundary) && h.distance == SampleDistance(n) &&
          forall j :: k < j < n ==> s[j] == Open
    decreases MaxSteps - k
  {
    var h := MarchFrom(s, k);
    if h.distance < Depth {
      if s[k + 1].Wall? {
        assert s[k + 1] == Wall(h.boundary) && h.distance == SampleDistance(k + 1);
      } else {
        assert s[k + 1] == Open;
        MarchNearHit(s, k + 1);
        var n :| k + 1 < n < MaxSteps && s[n] == Wall(h.boundary) && h.distance == SampleDistance(n) &&
          forall j :: k + 1 < j < n ==> s[j] == Open;
        assert forall j :: k < j < n ==> s[j] == Open;
      }
    }
  }

  /** The march in terms of map cells: a ray that stops nearer than `Depth`
      stopped on a wall cell at a whole number of steps, every cell sampled
      before it was inside the map and open, and the seam flag is the
      corner test of that wall cell. */
  lemma CastNearHit(m: Grid, r: Ray, cosBound: CosBound)
    ensures var h := Cast(m, r, cosBound);
      h.distance < Depth ==>
        h.hit &&
        exists n :: 0 < n < MaxSteps && WallAt(m, r, n) && h.distance == SampleDistance(n) &&
          h.boundary == SeamAt(r, n, cosBound) && forall j :: 0 < j < n ==> OpenAt(m, r, j)
  {
    var s := Sightings(m, r, cosBound);
    var h := MarchFrom(s, 0);
    MarchNearHit(s, 0);
    if h.distance < Depth {
      var n :| 0 < n < MaxSteps && s[n] == Wall(h.boundary) && h.distance == SampleDistance(n) &&
        forall j :: 0 < j < n ==> s[j] == Open;
      assert SeenAt(s[n], m, r, cosBound, n);
      forall j | 0 < j < n
        ensures OpenAt(m, r, j)
      {
        assert SeenAt(s[j], m, r, cosBound, j);
      }
    }
  }

  /** Conversely, if the first cell that is not open is a wall cell at step
      `n`, the ray stops there, with that cell's seam flag. */
  lemma CastFirstWall(m: Grid, r: Ray, cosBound: CosBound, n: nat)
    requires 0 < n <= MaxSteps
    requires WallAt(m, r, n)
    requires forall j :: 0 < j < n ==> OpenAt(m, r, j)
    ensures Cast(m, r, cosBound) == Hit(SampleDistance(n), true, SeamAt(r, n, cosBound))
  {
    var s := Sightings(m, r, cosBound);
    forall j | 0 < j < n
      ensures s[j] == Open
    {
      assert OpenAt(m, r, j);
    }
    MarchFirstEvent(s, 0, n);
  }

  /** If the first cell that is not open lies outside the map, the ray
      stops as a hit at exactly `Depth`, with no seam. */
  lemma CastLeavesMap(m: Grid, r: Ray, cosBound: CosBound, n: nat)
    requires 0 < n <= MaxSteps
    requires OutsideAt(r, n)
    requires forall j :: 0 < j < n ==> OpenAt(m, r, j)
    ensures Cast(m, r, cosBound) == Hit(Depth, true, false)
  {
    var s := Sightings(m, r, cosBound);
    forall j | 0 < j < n
      ensures s[j] == Open
    {
      assert OpenAt(m, r, j);
    }
    MarchFirstEvent(s, 0, n);
  }

  /** A ray whose every sampled cell is inside the map and open runs to
      `Depth` without a hit. */
  lemma CastAllOpen(m: Grid, r: Ray, cosBound: CosBound)
    requires forall j :: 0 < j <= MaxSteps ==> OpenAt(m, r, j)
    ensures Cast(m, r, cosBound) == Hit(Depth, false, false)
  {
    var s := Sightings(m, r, cosBound);
    forall j | 0 < j <= MaxSteps
      ensures s[j] == Open
    {
      assert OpenAt(m, r, j);
    }
    MarchAllOpen(s, 0);
  }

  /** From the start position, looking straight down the map (angle 0), the
      ray runs along the grid line x = 14 and meets the wall of row 13 after
      ten steps, right at a corner: a seam. */
  lemma StartViewIsSeam(cosBound: CosBound)
    ensures Cast(Level, Ray(StartX, StartY, 0.0, 1.0), cosBound) == Hit(1.0, true, true)
  {
    var r := Ray(StartX, StartY, 0.0, 1.0);
    forall j | 0 < j < 10
      ensures OpenAt(Level, r, j)
    {
      StartViewOpen(cosBound, j);
    }
    StartViewWall(cosBound);
    CastFirstWall(Level, r, cosBound, 10);
    assert SampleDistance(10) == 1.0;
  }

  /** Samples 1 to 9 stay in the open start cell (14, 12). */
  lemma StartViewOpen(cosBound: CosBound, j: nat)
    requires 0 < j < 10
    ensures OpenAt(Level, Ray(StartX, StartY, 0.0, 1.0), j)
  {
    var r := Ray(StartX, StartY, 0.0, 1.0);
    var d := SampleDistance(j);
    assert 0.0 < d < 1.0;
    assert SampleX(r, d) == Trunc(14.0);
    assert SampleY(r, d) == Trunc(12.0 + d);
    assert SampleX(r, d) == 14 && SampleY(r, d) == 12;
    WallAheadOfStart();
  }

  /** Sample 10 lands on the wall cell (14, 13), at one of its corners, so
      it is a seam. */
  lemma StartViewWall(cosBound: CosBound)
    ensures WallAt(Level, Ray(StartX, StartY, 0.0, 1.0), 10)
    ensures SeamAt(Ray(StartX, StartY, 0.0, 1.0), 10, cosBound)
  {
    var r := Ray(StartX, StartY, 0.0, 1.0);
    var d := SampleDistance(10);
    assert d == 1.0;
    assert SampleX(r, d) == Trunc(14.0);
    assert SampleY(r, d) == Trunc(13.0);
    assert SampleX(r, d) == 14 && SampleY(r, d) == 13;
    WallAheadOfStart();
    StartViewCorners(cosBound);
  }

  /** The nearest corner of cell (14, 13) lies one unit straight ahead. */
  lemma StartViewCorners(cosBound: CosBound)
    ensures Boundary(Ray(StartX, StartY, 0.0, 1.0), 14, 13, cosBound)
  {
    var r := Ray(StartX, StartY, 0.0, 1.0);
    var c := Corners(r, 14, 13);
    assert c == [Probe(1.0, 1.0), Probe(4.0, 2.0), Probe(2.0, 1.0), Probe(5.0, 2.0)];
    var rest := SortByLength(c[1..]);
    assert rest[0].lengthSq >= 2.0 by {
      assert rest[0] in multiset(c[1..]);
    }
    assert SortByLength(c) == InsertByLength(c[0], rest);
    assert SortByLength(c)[0] == Probe(1.0, 1.0);
    UnitCornerAheadGrazes(cosBound);
  }

  /** A corner at distance 1 straight along the unit eye vector passes
      the seam test. */
  lemma UnitCornerAheadGrazes(cosBound: CosBound)
    ensures Grazes(Probe(1.0, 1.0), cosBound)
  {
    assert cosBound * cosBound < cosBound;
  }
}
