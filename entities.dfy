/** Entity state of the dodge game: the enemy record and the fixed hitbox sizes. */
module Entities {

  /** Edge length of the player's square hitbox. */
  const PlayerSize: real := 20.0

  /** Edge length of every spawned enemy's square hitbox. */
  const EnemySize: real := 20.0

  /** An enemy square: its centre, its edge length and its velocity per tick.
      Its fill colour only matters for drawing and is not modelled. */
  datatype Enemy = Enemy(x: real, y: real, size: real, speedX: real, speedY: real)

  /** The survival test of the motion filter, in the form the game writes it:
      the enemy is NOT left of, right of, above or below the play field widened
      by its own size. */
  predicate InField(e: Enemy, width: real, height: real)
  {
    !(e.x < -e.size || e.x > width + e.size || e.y < -e.size || e.y > height + e.size)
  }

  /** The closed box [-size, width + size] x [-size, height + size] that every
      enemy alive after a tick lies in. */
  ghost predicate InBox(e: Enemy, width: real, height: real)
  {
    -e.size <= e.x <= width + e.size && -e.size <= e.y <= height + e.size
  }
}
