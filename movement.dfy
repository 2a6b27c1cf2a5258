/** The player's pose and the key handling of the frame loop (main.cpp
    lines 15-17 and 79-118). Rotation turns the player; a move adds the
    displacement to both axes at once, samples the single map cell at the
    new position and, if it is a wall, subtracts the displacement again.
    `sin` and `cos` stand for the C library's `sinf` and `cosf`; they are
    parameters, so nothing here depends on their values. */
module Movement {
  import opened Numeric
  import opened World

  datatype Pose = Pose(x: real, y: real, a: real)

  /** The distance covered per axis for one frame: `sin(a) * speed * t`
      and `cos(a) * speed * t`. */
  function StepX(sin: real -> real, a: real, elapsed: real): real {
    sin(a) * Speed * elapsed
  }

  function StepY(cos: real -> real, a: real, elapsed: real): real {
    cos(a) * Speed * elapsed
  }

  /** Whether the map cell the source reads after a move of the given
      direction exists, so that the collision check is defined. Rotation,
      quit and unknown keys read no cell. */
  predicate MoveDefined(p: Pose, key: char, sin: real -> real, cos: real -> real, elapsed: real) {
    var dx, dy := StepX(sin, p.a, elapsed), StepY(cos, p.a, elapsed);
    (key == 'w' ==> 0 <= PositionIndex(p.x + dx, p.y + dy) < MapWidth * MapHeight) &&
    (key == 's' ==> 0 <= PositionIndex(p.x - dx, p.y - dy) < MapWidth * MapHeight)
  }

  /** Move by (dx, dy) unless the flat cell at the destination is a wall. */
  function TryMove(p: Pose, m: Grid, dx: real, dy: real): Pose
    requires 0 <= PositionIndex(p.x + dx, p.y + dy) < |m|
  {
    if m[PositionIndex(p.x + dx, p.y + dy)] == '#' then p
    else p.(x := p.x + dx, y := p.y + dy)
  }

  /** The pose after one frame's key. */
  function NextPose(p: Pose, key: char, m: Grid, sin: real -> real, cos: real -> real, elapsed: real): Pose
    requires MoveDefined(p, key, sin, cos, elapsed)
  {
    var dx, dy := StepX(sin, p.a, elapsed), StepY(cos, p.a, elapsed);
    match key
    case 'a' => p.(a := p.a - Speed * elapsed)
    case 'd' => p.(a := p.a + Speed * elapsed)
    case 'w' => TryMove(p, m, dx, dy)
    case 's' => TryMove(p, m, -dx, -dy)
    case _ => p
  }

  /** Rotation changes the angle by `Speed * elapsed` and nothing else. */
  lemma RotationChangesOnlyAngle(p: Pose, key: char, m: Grid, sin: real -> real, cos: real -> real, elapsed: real)
    requires key == 'a' || key == 'd'
    ensures MoveDefined(p, key, sin, cos, elapsed)
    ensures var q := NextPose(p, key, m, sin, cos, elapsed);
      q.x == p.x && q.y == p.y &&
      q.a == (if key == 'a' then p.a - Speed * elapsed else p.a + Speed * elapsed)
  {
  }

  /** A forward move keeps the angle, and either lands exactly on the
      displaced position (open destination) or leaves the pose exactly as
      it was (wall destination): the rollback is complete on both axes. */
  lemma ForwardOutcome(p: Pose, m: Grid, sin: real -> real, cos: real -> real, elapsed: real)
    requires MoveDefined(p, 'w', sin, cos, elapsed)
    ensures var x', y' := p.x + StepX(sin, p.a, elapsed), p.y + StepY(cos, p.a, elapsed);
      var q := NextPose(p, 'w', m, sin, cos, elapsed);
      q.a == p.a &&
      (m[PositionIndex(x', y')] == '#' ==> q == p) &&
      (m[PositionIndex(x', y')] != '#' ==> q.x == x' && q.y == y')
  {
  }

  /** The same for a backward move, which displaces by the negated step. */
  lemma BackwardOutcome(p: Pose, m: Grid, sin: real -> real, cos: real -> real, elapsed: real)
    requires MoveDefined(p, 's', sin, cos, elapsed)
    ensures var x', y' := p.x - StepX(sin, p.a, elapsed), p.y - StepY(cos, p.a, elapsed);
      var q := NextPose(p, 's', m, sin, cos, elapsed);
      q.a == p.a &&
      (m[PositionIndex(x', y')] == '#' ==> q == p) &&
      (m[PositionIndex(x', y')] != '#' ==> q.x == x' && q.y == y')
  {
  }

  /** Keys other than the four movement keys leave the pose alone. */
  lemma OtherKeysKeepPose(p: Pose, key: char, m: Grid, sin: real -> real, cos: real -> real, elapsed: real)
    requires key !in {'a', 'd', 'w', 's'}
    ensures MoveDefined(p, key, sin, cos, elapsed)
    ensures NextPose(p, key, m, sin, cos, elapsed) == p
  {
  }

  /** A player standing in an open cell is never left inside a wall. */
  lemma NeverEntersWall(p: Pose, key: char, m: Grid, sin: real -> real, cos: real -> real, elapsed: real)
    requires MoveDefined(p, key, sin, cos, elapsed)
    requires 0 <= PositionIndex(p.x, p.y) < |m| && m[PositionIndex(p.x, p.y)] != '#'
    ensures var q := NextPose(p, key, m, sin, cos, elapsed);
      0 <= PositionIndex(q.x, q.y) < |m| && m[PositionIndex(q.x, q.y)] != '#'
  {
  }

  /** The player: the source's three global floats, updated in place. */
  class Player {
    var x: real
    var y: real
    var a: real

    function CurrentPose(): Pose
      reads this
    {
      Pose(x, y, a)
    }

    /** The start pose of main.cpp lines 15-17. */
    constructor ()
      ensures CurrentPose() == Pose(StartX, StartY, StartA)
    {
      x, y, a := StartX, StartY, StartA;
    }

    /** One pass of the key switch; the result is false exactly for `'q'`. */
    method HandleKey(key: char, m: Grid, sin: real -> real, cos: real -> real, elapsed: real) returns (running: bool)
      requires MoveDefined(CurrentPose(), key, sin, cos, elapsed)
      modifies this
      ensures running <==> key != 'q'
      ensures CurrentPose() == NextPose(old(CurrentPose()), key, m, sin, cos, elapsed)
    {
      running := true;
      match key
      case 'a' =>
        a := a - Speed * elapsed;
      case 'd' =>
        a := a + Speed * elapsed;
      case 'w' =>
        var dx, dy := StepX(sin, a, elapsed), StepY(cos, a, elapsed);
        x, y := x + dx, y + dy;
        if m[PositionIndex(x, y)] == '#' {
          x, y := x - dx, y - dy;
        }
      case 's' =>
        var dx, dy := StepX(sin, a, elapsed), StepY(cos, a, elapsed);
        x, y := x - dx, y - dy;
        if m[PositionIndex(x, y)] == '#' {
          x, y := x + dx, y + dy;
        }
      case 'q' =>
        running := false;
      case _ =>
    }
  }
}
