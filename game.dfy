/** The game loop: one session's state and the tick that advances it. */
module Game {
  import opened Entities
  import opened Motion
  import opened Spawner
  import opened Collision
  import opened Difficulty
  import opened Leaderboard

  /** The session state the game keeps in module-level variables, with the
      play field's dimensions. `highScore` is the best score, which the game
      also persists whenever it rises. */
  class GameState {
    const W: real
    const H: real
    var playerX: real
    var playerY: real
    var enemies: seq<Enemy>
    var score: int
    var highScore: int
    var difficulty: real
    var spawnInterval: real
    var lastSpawnTime: real

    /** What holds between ticks: the counters are in range, and every enemy
        has the enemy size and lies in the play field widened by its size. */
    ghost predicate Valid()
      reads this
    {
      && 0.0 <= W && 0.0 <= H
      && 0 <= score
      && InitialDifficulty <= difficulty
      && MinSpawnInterval <= spawnInterval <= InitialSpawnInterval
      && forall k :: 0 <= k < |enemies| ==> enemies[k].size == EnemySize && InBox(enemies[k], W, H)
    }

    /** The state at page load: player centred, no enemies, score 0, the high
        score read back from storage, difficulty 1, interval 1000. */
    constructor (width: real, height: real, storedHighScore: int)
      requires 0.0 <= width && 0.0 <= height
      ensures Valid()
      ensures W == width && H == height
      ensures playerX == width / 2.0 && playerY == height / 2.0
      ensures enemies == [] && score == 0 && highScore == storedHighScore
      ensures difficulty == InitialDifficulty && spawnInterval == InitialSpawnInterval
      ensures lastSpawnTime == 0.0
    {
      W, H := width, height;
      playerX, playerY := width / 2.0, height / 2.0;
      enemies := [];
      score := 0;
      highScore := storedHighScore;
      spawnInterval := InitialSpawnInterval;
      lastSpawnTime := 0.0;
      difficulty := InitialDifficulty;
    }

    /** Advances every enemy by its velocity and keeps those still in the
        widened field, in their order. */
    method MoveEnemies()
      requires Valid()
      modifies this`enemies
      ensures Valid()
      ensures enemies == Survivors(old(enemies), W, H)
    {
      var kept: seq<Enemy> := [];
      var i := 0;
      while i < |enemies|
        invariant 0 <= i <= |enemies|
        invariant kept == Survivors(enemies[..i], W, H)
      {
        assert enemies[..i + 1][..i] == enemies[..i];
        var moved := Advance(enemies[i]);
        if InField(moved, W, H) {
          kept := kept + [moved];
        }
        i := i + 1;
      }
      assert enemies[..i] == enemies;
      forall k | 0 <= k < |kept|
        ensures kept[k].size == EnemySize
      {
        SurvivorsMembership(enemies, kept[k], W, H);
      }
      enemies := kept;
    }

    /** Appends one enemy just outside the edge the side draw picks, moving
        at the current difficulty's speed. */
    method SpawnEnemy(sideDraw: real, posDraw: real, xDraw: real, yDraw: real)
      requires Valid()
      requires 0.0 <= sideDraw < 1.0 && 0.0 <= posDraw < 1.0
      requires 0.0 <= xDraw < 1.0 && 0.0 <= yDraw < 1.0
      modifies this`enemies
      ensures Valid()
      ensures enemies == old(enemies) + [SpawnedEnemy(W, H, difficulty, sideDraw, posDraw, xDraw, yDraw)]
    {
      SpawnPosition(W, H, difficulty, sideDraw, posDraw, xDraw, yDraw);
      enemies := enemies + [SpawnedEnemy(W, H, difficulty, sideDraw, posDraw, xDraw, yDraw)];
    }

    /** The player survived a tick: the score goes up by one and the high
        score becomes the larger of itself and the new score. */
    method UpdateScore()
      requires Valid()
      modifies this`score, this`highScore
      ensures Valid()
      ensures score == old(score) + 1
      ensures highScore >= score && highScore >= old(highScore)
      ensures highScore == score || highScore == old(highScore)
    {
      score := score + 1;
      if score > highScore {
        highScore := score;
      }
    }

    /** Starts a new session: player centred, no enemies, score 0, difficulty
        1, interval 1000. The high score and the last spawn time carry over. */
    method ResetGame()
      requires Valid()
      modifies this`playerX, this`playerY, this`enemies, this`score, this`difficulty, this`spawnInterval
      ensures Valid()
      ensures playerX == W / 2.0 && playerY == H / 2.0
      ensures enemies == [] && score == 0
      ensures difficulty == InitialDifficulty && spawnInterval == InitialSpawnInterval
    {
      playerX := W / 2.0;
      playerY := H / 2.0;
      enemies := [];
      score := 0;
      difficulty := InitialDifficulty;
      spawnInterval := InitialSpawnInterval;
    }

    /** Records the final score in the stored leaderboard, returning the new
        list, and resets the session. */
    method GameOver(stored: seq<int>) returns (board: seq<int>)
      requires Valid()
      modifies this`playerX, this`playerY, this`enemies, this`score, this`difficulty, this`spawnInterval
      ensures Valid()
      ensures board == UpdatedLeaderboard(stored, old(score))
      ensures playerX == W / 2.0 && playerY == H / 2.0
      ensures enemies == [] && score == 0
      ensures difficulty == InitialDifficulty && spawnInterval == InitialSpawnInterval
    {
      board := UpdatedLeaderboard(stored, score);
      ResetGame();
    }

    /** Whether a frame at `currentTime` spawns: more than the interval has
        passed since the last spawn. */
    ghost predicate SpawnDue(currentTime: real)
      reads this
    {
      currentTime - lastSpawnTime > spawnInterval
    }

    /** The enemy list a frame at `currentTime` hands to the collision test:
        the survivors of the motion step, then the spawned enemy if one is
        due. */
    ghost function FieldAfterSpawn(currentTime: real, sideDraw: real, posDraw: real,
                                   xDraw: real, yDraw: real): seq<Enemy>
      reads this
      requires 0.0 <= sideDraw < 1.0
    {
      var moved := Survivors(enemies, W, H);
      if SpawnDue(currentTime)
      then moved + [SpawnedEnemy(W, H, difficulty, sideDraw, posDraw, xDraw, yDraw)]
      else moved
    }

    /** One animation frame at `currentTime`: motion, then a spawn if more
        than the interval has passed since the last one, then the collision
        test. A hit ends the game (the final score goes to the leaderboard,
        `board` is the new list) and resets the session; otherwise the score,
        the high score, the difficulty and the interval advance and `board`
        is the stored list as it was. The four draws are only used when an
        enemy spawns. */
    method Update(currentTime: real, sideDraw: real, posDraw: real, xDraw: real, yDraw: real,
                  stored: seq<int>)
      returns (collided: bool, board: seq<int>)
      requires Valid()
      requires 0.0 <= sideDraw < 1.0 && 0.0 <= posDraw < 1.0
      requires 0.0 <= xDraw < 1.0 && 0.0 <= yDraw < 1.0
      modifies this
      ensures Valid()
      ensures lastSpawnTime == if old(SpawnDue(currentTime)) then currentTime else old(lastSpawnTime)
      ensures collided == CheckCollision(old(playerX), old(playerY),
                                         old(FieldAfterSpawn(currentTime, sideDraw, posDraw, xDraw, yDraw)))
      ensures highScore == if !collided && old(score) + 1 > old(highScore) then old(score) + 1 else old(highScore)
      ensures collided ==>
                && board == UpdatedLeaderboard(stored, old(score))
                && playerX == W / 2.0 && playerY == H / 2.0
                && enemies == [] && score == 0
                && difficulty == InitialDifficulty && spawnInterval == InitialSpawnInterval
      ensures !collided ==>
                && board == stored
                && playerX == old(playerX) && playerY == old(playerY)
                && enemies == old(FieldAfterSpawn(currentTime, sideDraw, posDraw, xDraw, yDraw))
                && score == old(score) + 1
                && difficulty == old(difficulty) + DifficultyStep
                && spawnInterval == SpawnInterval(difficulty)
    {
      ghost var field := FieldAfterSpawn(currentTime, sideDraw, posDraw, xDraw, yDraw);
      MoveEnemies();
      if currentTime - lastSpawnTime > spawnInterval {
        SpawnEnemy(sideDraw, posDraw, xDraw, yDraw);
        lastSpawnTime := currentTime;
      }
      assert enemies == field;
      if CheckCollision(playerX, playerY, enemies) {
        board := GameOver(stored);
        collided := true;
        return;
      }
      collided := false;
      board := stored;
      UpdateScore();
      difficulty := difficulty + DifficultyStep;
      spawnInterval := SpawnInterval(difficulty);
    }
  }

  /** The spawn deadline of a fresh session's frame after `k` survived
      frames: the initial interval, then the interval recomputed at
      difficulty 1 + 0.001 k. */
  function QuietDeadline(k: nat): real
  {
    if k == 0 then InitialSpawnInterval
    else SpawnInterval(InitialDifficulty + k as real * DifficultyStep)
  }

  /** A fresh session whose frames all come at or before their spawn
      deadlines (the session starts with last spawn time 0) spawns nothing and
      so can never end: after n frames it has no enemies and score n. */
  method QuietOpening(width: real, height: real, storedHighScore: int, times: seq<real>,
                      draw: real, stored: seq<int>)
    returns (enemyCount: nat, score: int, collided: bool)
    requires 0.0 <= width && 0.0 <= height
    requires forall k :: 0 <= k < |times| ==> times[k] <= QuietDeadline(k)
    requires 0.0 <= draw < 1.0
    ensures enemyCount == 0 && score == |times| && !collided
  {
    var game := new GameState(width, height, storedHighScore);
    var board := stored;
    collided := false;
    var k := 0;
    while k < |times|
      invariant 0 <= k <= |times|
      invariant game.Valid() && !collided
      invariant game.enemies == [] && game.score == k && game.lastSpawnTime == 0.0
      invariant game.difficulty == InitialDifficulty + k as real * DifficultyStep
      invariant game.spawnInterval == QuietDeadline(k)
    {
      var hit;
      hit, board := game.Update(times[k], draw, draw, draw, draw, board);
      collided := collided || hit;
      k := k + 1;
    }
    enemyCount, score := |game.enemies|, game.score;
  }
}
