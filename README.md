# Dodge-the-enemies game: a verified model of the simulation

The game is a browser arcade game: a white square follows the pointer while red
enemy squares spawn just outside the edges of the play field and drift across
it. Touching an enemy ends the game; the final score goes into a top-100
leaderboard and a new session starts at once. This project models, in Dafny,
the deterministic per-frame simulation of `script.js`, with drawing, storage
and scheduling taken out:

- `entities.dfy` (module `Entities`): the enemy record, the hitbox sizes (20)
  and the widened play field an enemy may occupy.
- `motion.dfy` (module `Motion`): `moveEnemies`, the step that advances every
  enemy by its velocity and filters out those outside the field widened by
  their own size.
- `spawner.dfy` (module `Spawner`): `spawnEnemy`, one enemy placed exactly its
  size outside the edge picked by `floor(draw * 4)`, with a speed of
  `1 + difficulty * 0.5`.
- `collision.dfy` (module `Collision`): `checkCollision`, the strict
  centre-distance test against the mean of the two sizes.
- `difficulty.dfy` (module `Difficulty`): the spawn interval
  `max(200, 1000 - difficulty * 100)`.
- `leaderboard.dfy` (module `Leaderboard`): `updateLeaderboard`'s list
  transformation: push, sort descending, keep the first 100.
- `game.dfy` (module `Game`): the class `GameState` holding the session's
  variables (player position, enemy list, score, high score, difficulty, spawn
  interval, last spawn time, field size) and the tick `update` with
  `updateScore`, `gameOver` and `resetGame`.

Positions, velocities, the difficulty and times are mathematical reals; scores
are integers. The random numbers a spawn draws are parameters of the tick, in
the order the game draws them (edge, position along the edge, x velocity, y
velocity), each in [0, 1).

The velocity draws give half-open ranges ([0, speed) inward, [-speed, speed)
along the edge) and the position along the edge lies in [0, extent), because
the random source never returns 1; the enemy list is ordered, and the filter
keeps the survivors in their order.

## Model

| member | source | states |
|---|---|---|
| Motion.Survivors | script.js:50-57 | after the motion step no enemy the list keeps lies outside [-size, W+size] x [-size, H+size], and the list never grows |
| Motion.SurvivorsAppend | script.js:51-57 | the filter works element by element: survivors of a concatenation are the survivors of each part, in order |
| Motion.SurvivorsSplit | script.js:51-57 | the enemy at any position is dropped exactly when its advanced position is outside the widened field, and otherwise sits advanced between the survivors before and after it (relative order kept) |
| Motion.SurvivorsMembership | script.js:51-56 | an enemy is in the new list iff it is some old enemy moved by exactly (speedX, speedY), with size and velocity unchanged, and it lies in the widened field |
| Spawner.Side | script.js:65 | the edge index floor(draw * 4) is in 0..3 |
| Spawner.Scaled | script.js:69-89 | a draw in [0, 1) times a non-negative extent or speed m lies in [0, m], and in [0, m) when m > 0 |
| Spawner.Spread | script.js:71-90 | `draw * m * 2 - m` for a draw in [0, 1) and m > 0 lies in [-m, m) |
| Spawner.SpawnPosition | script.js:60-94 | the new enemy has size 20, lies exactly its size outside the chosen edge (y = -size top, x = W+size right, y = H+size bottom, x = -size left) and on no other edge line, its coordinate along the edge is draw * extent in [0, extent), and it lies in the widened field [-size, W+size] x [-size, H+size] |
| Spawner.SpawnVelocity | script.js:62-91 | with speed = 1 + difficulty * 0.5, the velocity component perpendicular to the edge points into the field with magnitude in [0, speed) and the parallel component lies in [-speed, speed) |
| Collision.CheckCollision | script.js:97-103 | true iff some enemy's squared centre distance to the player is below the square of the mean of the two sizes (a mean that must be non-negative, as a square root is never below a negative bound) |
| Collision.DistanceTest | script.js:101-102 | comparing the square-rooted distance with strict `<` against a non-negative reach agrees with the squared comparison |
| Collision.NoEnemiesNoHit | script.js:98 | an empty enemy list never collides |
| Collision.HitBoundary | script.js:102 | player at the origin, enemy of size 20 at distance 10 hits; at exactly 20 and at 21 it does not |
| Collision.DiagonalNearMiss | script.js:99-102 | squares overlapping diagonally (centres 15 apart on both axes) are no hit: the test is round, not a box intersection |
| Difficulty.SpawnInterval | script.js:160 | the interval is the maximum of 200 and 1000 - difficulty * 100, so never below 200 |
| Difficulty.SpawnIntervalShrinks | script.js:159-160 | a larger difficulty never lengthens the interval and strictly shortens it above the floor |
| Difficulty.SpawnIntervalExamples | script.js:160 | 900 at difficulty 1; 200 at difficulties 8 and 9 |
| Leaderboard.SortDescending | script.js:185 | the sorted list is non-increasing and a permutation of the input |
| Leaderboard.SortedUnique | script.js:185 | two non-increasing lists with the same values are equal, so every descending sort gives the same list |
| Leaderboard.UpdatedLeaderboard | script.js:182-186 | the new list is non-increasing, has min(old length + 1, 100) entries, is a sub-multiset of the old list plus the score, and every dropped value is at most every kept one |
| Leaderboard.LeaderboardDetermined | script.js:184-186 | the four properties above determine the new list completely |
| Leaderboard.ScoreKept | script.js:184-186 | the score is on the new list whenever fewer than 100 old entries are strictly greater than it |
| Leaderboard.NewBestFirst | script.js:184-185 | a score above every old entry becomes the first entry |
| Leaderboard.TieExample | script.js:184-186 | pushing 50 onto [100, 80, 50] gives [100, 80, 50, 50] |
| Game.GameState.constructor | script.js:21-34 | the initial session: player at (W/2, H/2), no enemies, score 0, the stored high score, difficulty 1, interval 1000, last spawn time 0; every enemy in the widened field holds |
| Game.GameState.MoveEnemies | script.js:50-57 | the enemy list becomes its survivors after one motion step; nothing else changes |
| Game.GameState.SpawnEnemy | script.js:60-95 | exactly one spawned enemy is appended, the existing enemies unchanged; nothing else changes |
| Game.GameState.UpdateScore | script.js:106-114 | the score goes up by exactly 1 and the high score becomes the larger of the old high score and the new score |
| Game.GameState.ResetGame | script.js:122-131 | the player is centred, the enemies emptied, score 0, difficulty 1, interval 1000; high score and last spawn time untouched |
| Game.GameState.GameOver | script.js:116-120 | the leaderboard receives the score from before the reset, then the session is reset |
| Game.GameState.Update | script.js:139-163 | one tick: motion, then at most one spawn, exactly when currentTime - lastSpawnTime > interval (and then lastSpawnTime = currentTime, otherwise unchanged), then the collision test on the new list; a hit records the unincremented score and resets the session keeping the high score; a survived tick adds 1 to the score, raises the high score to the maximum, adds 0.001 to the difficulty and sets the interval to max(200, 1000 - difficulty * 100); every enemy stays in the widened field and the interval stays in [200, 1000] |
| Game.QuietOpening | script.js:139-163 | a new session run for any number n of frames, each at or before its spawn deadline (1000 for the first, max(200, 1000 - difficulty * 100) after k survived frames at difficulty 1 + 0.001 k), spawns nothing, never collides and ends with no enemies and score n |

## Left out

- Drawing (`drawPlayer`, `drawEnemies`, `drawBorder`, the frame clear) and the score texts in the page: rendering side effects with no logic.
- Persistent storage: the high score and leaderboard reads and writes, their JSON encoding and the `|| 0` / `|| []` defaults. The stored high score is a constructor parameter and `highScore` stands for the persisted value; the stored leaderboard is a parameter of `Update` and `GameOver` and its new value their result.
- The high score read back from storage as a string and compared with `>`: modelled as an integer.
- The game-over `alert` and `displayLeaderboard`'s table building: user interface.
- `requestAnimationFrame` rescheduling and `startGame` (listener registration and restarting the loop after a reset): one frame is one call of `Update`.
- `handlePlayerMove`: `playerX` and `playerY` are fields a caller sets; mapping pointer and touch coordinates into the field is not modelled.
- `resizeCanvas`: the field size is fixed per `GameState`.
- `Math.random`: its values are parameters; that they are uniformly distributed is not modelled.
- `Math.sqrt` and floating-point rounding, including the accumulated `difficulty += 0.001`: reals are exact, and the collision test compares squared distances (`DistanceTest` shows this agrees with the square-root comparison).
- The engine's sorting algorithm: modelled by an insertion sort; `SortedUnique` shows every descending sort of the same values gives the same list.
- Enemy colours, and enemies as shared mutable objects: the model treats each enemy as a value, which is what the game observes, since no other reference to an enemy exists.
