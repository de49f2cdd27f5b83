/** The spawner: one new enemy just outside a randomly chosen edge, moving
    with a speed that grows with the difficulty. The four random numbers the
    game draws, in the order it draws them, are parameters here. */
module Spawner {
  import opened Entities

  /** Base speed of an enemy spawned at the given difficulty. */
  function Speed(difficulty: real): real
  {
    1.0 + difficulty * 0.5
  }

  /** The edge chosen by the first draw: 0 top, 1 right, 2 bottom, 3 left. */
  function Side(sideDraw: real): (side: int)
    requires 0.0 <= sideDraw < 1.0
    ensures 0 <= side < 4
    ensures side as real <= sideDraw * 4.0 < side as real + 1.0
  {
    (sideDraw * 4.0).Floor
  }

  /** A draw in [0, 1) scaled by m: lands in [0, m) for m > 0. */
  function Scaled(draw: real, m: real): (v: real)
    ensures 0.0 <= draw < 1.0 && 0.0 <= m ==> 0.0 <= v <= m && (0.0 < m ==> v < m)
  {
    ScaleBelow(draw, m);
    draw * m
  }

  /** A draw in [0, 1) spread over [-m, m) for m > 0. */
  function Spread(draw: real, m: real): (v: real)
    ensures 0.0 <= draw < 1.0 && 0.0 < m ==> -m <= v < m
  {
    ScaleBelow(draw, m);
    draw * m * 2.0 - m
  }

  lemma ScaleBelow(r: real, m: real)
    ensures 0.0 <= r < 1.0 && 0.0 < m ==> 0.0 <= r * m < m
  {
  }

  /** The enemy spawned from the side draw, the position draw along the edge
      and the two velocity draws (first for the x component, then for y). */
  function SpawnedEnemy(width: real, height: real, difficulty: real,
                        sideDraw: real, posDraw: real, xDraw: real, yDraw: real): Enemy
    requires 0.0 <= sideDraw < 1.0
  {
    var size := EnemySize;
    var speed := Speed(difficulty);
    var side := Side(sideDraw);
    if side == 0 then
      Enemy(Scaled(posDraw, width), -size, size, Spread(xDraw, speed), Scaled(yDraw, speed))
    else if side == 1 then
      Enemy(width + size, Scaled(posDraw, height), size, -Scaled(xDraw, speed), Spread(yDraw, speed))
    else if side == 2 then
      Enemy(Scaled(posDraw, width), height + size, size, Spread(xDraw, speed), -Scaled(yDraw, speed))
    else
      Enemy(-size, Scaled(posDraw, height), size, Scaled(xDraw, speed), Spread(yDraw, speed))
  }

  /** The velocity component perpendicular to the spawn edge, signed so that
      positive points into the field. */
  function InwardSpeed(e: Enemy, side: int): real
  {
    if side == 0 then e.speedY
    else if side == 1 then -e.speedX
    else if side == 2 then -e.speedY
    else e.speedX
  }

  /** The velocity component parallel to the spawn edge. */
  function ParallelSpeed(e: Enemy, side: int): real
  {
    if side == 0 || side == 2 then e.speedX else e.speedY
  }

  /** Where the new enemy appears: it has the enemy size, it lies exactly its
      size outside the chosen edge and on no other edge line, its coordinate
      along the edge is the position draw scaled to the field, inside
      [0, extent) (a point when the extent is zero), and it lies in the widened
      field [-size, width + size] x [-size, height + size]. */
  lemma SpawnPosition(width: real, height: real, difficulty: real,
                      sideDraw: real, posDraw: real, xDraw: real, yDraw: real)
    requires 0.0 <= width && 0.0 <= height
    requires 0.0 <= sideDraw < 1.0 && 0.0 <= posDraw < 1.0
    ensures var e := SpawnedEnemy(width, height, difficulty, sideDraw, posDraw, xDraw, yDraw);
            var side := Side(sideDraw);
            && e.size == EnemySize
            && (e.y == -e.size <==> side == 0)
            && (e.x == width + e.size <==> side == 1)
            && (e.y == height + e.size <==> side == 2)
            && (e.x == -e.size <==> side == 3)
            && ((side == 0 || side == 2) ==> e.x == Scaled(posDraw, width) && 0.0 <= e.x && (0.0 < width ==> e.x < width))
            && ((side == 1 || side == 3) ==> e.y == Scaled(posDraw, height) && 0.0 <= e.y && (0.0 < height ==> e.y < height))
            && InBox(e, width, height)
  {
  }

  /** How the new enemy moves, with speed = 1 + difficulty * 0.5: the
      component perpendicular to its edge points into the field with magnitude
      in [0, speed), and the parallel component lies in [-speed, speed). */
  lemma SpawnVelocity(width: real, height: real, difficulty: real,
                      sideDraw: real, posDraw: real, xDraw: real, yDraw: real)
    requires 0.0 <= difficulty
    requires 0.0 <= sideDraw < 1.0 && 0.0 <= xDraw < 1.0 && 0.0 <= yDraw < 1.0
    ensures var e := SpawnedEnemy(width, height, difficulty, sideDraw, posDraw, xDraw, yDraw);
            var side := Side(sideDraw);
            var speed := Speed(difficulty);
            && 0.0 <= InwardSpeed(e, side) < speed
            && -speed <= ParallelSpeed(e, side) < speed
  {
  }
}
