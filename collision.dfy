/** The collision detector: the player is hit when the distance between its
    centre and an enemy's centre is strictly less than the mean of the two
    edge lengths (a circle test over square sprites, not a box intersection). */
module Collision {
  import opened Entities

  /** The hit test against one enemy, on squared distances. A square root is
      never below a negative reach, so a negative reach never hits; for a
      non-negative one comparing squares coincides with comparing the square
      root (see DistanceTest). */
  predicate Overlaps(px: real, py: real, e: Enemy)
  {
    var dx := px - e.x;
    var dy := py - e.y;
    var reach := (PlayerSize + e.size) / 2.0;
    0.0 <= reach && dx * dx + dy * dy < reach * reach
  }

  /** Whether some enemy hits the player at (px, py), scanning the list from
      the front as the game's `some` does. */
  function CheckCollision(px: real, py: real, es: seq<Enemy>): (hit: bool)
    ensures hit <==> exists i :: 0 <= i < |es| && Overlaps(px, py, es[i])
  {
    if es == [] then false
    else
      assert forall i :: 0 < i < |es| ==> es[i] == es[1..][i - 1];
      Overlaps(px, py, es[0]) || CheckCollision(px, py, es[1..])
  }

  /** Comparing the Euclidean distance d (the square root of dx^2 + dy^2) with
      a reach r >= 0 by strict `<` gives the same answer as comparing the
      squares, which is what Overlaps does. */
  lemma DistanceTest(dx: real, dy: real, d: real, r: real)
    requires 0.0 <= d && d * d == dx * dx + dy * dy
    requires 0.0 <= r
    ensures d < r <==> dx * dx + dy * dy < r * r
  {
    var sq := dx * dx + dy * dy;
    if d < r {
      calc {
        sq;
      ==
        d * d;
      <= { assert 0.0 <= d; }
        d * r;
      < { assert 0.0 < r; }
        r * r;
      }
    } else {
      calc {
        r * r;
      <=
        r * d;
      <=
        d * d;
      ==
        sq;
      }
    }
  }

  /** An empty enemy list never hits. */
  lemma NoEnemiesNoHit(px: real, py: real)
    ensures !CheckCollision(px, py, [])
  {
  }

  /** The boundary is strict: with the player at the origin and an enemy of
      size 20 on the x axis, distance 10 hits, distance 20 (exactly the reach)
      and distance 21 do not. */
  lemma HitBoundary()
    ensures Overlaps(0.0, 0.0, Enemy(10.0, 0.0, EnemySize, 0.0, 0.0))
    ensures !Overlaps(0.0, 0.0, Enemy(20.0, 0.0, EnemySize, 0.0, 0.0))
    ensures !Overlaps(0.0, 0.0, Enemy(21.0, 0.0, EnemySize, 0.0, 0.0))
  {
  }

  /** The hitbox is round, not square: an enemy whose square overlaps the
      player's square diagonally (centres 15 apart on both axes) is no hit. */
  lemma DiagonalNearMiss()
    ensures !Overlaps(0.0, 0.0, Enemy(15.0, 15.0, EnemySize, 0.0, 0.0))
  {
  }
}
