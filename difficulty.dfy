/** The difficulty controller: the difficulty grows by a fixed step each
    surviving tick, and the spawn interval shrinks with it down to a floor. */
module Difficulty {

  const InitialDifficulty: real := 1.0
  const DifficultyStep: real := 0.001
  const InitialSpawnInterval: real := 1000.0
  const MinSpawnInterval: real := 200.0

  /** max(200, 1000 - difficulty * 100). */
  function SpawnInterval(difficulty: real): (interval: real)
    ensures interval >= MinSpawnInterval
    ensures interval >= 1000.0 - difficulty * 100.0
    ensures interval == MinSpawnInterval || interval == 1000.0 - difficulty * 100.0
  {
    var candidate := 1000.0 - difficulty * 100.0;
    if MinSpawnInterval >= candidate then MinSpawnInterval else candidate
  }

  /** A higher difficulty never lengthens the interval, and shortens it
      strictly while the floor has not been reached. */
  lemma SpawnIntervalShrinks(d1: real, d2: real)
    requires d1 < d2
    ensures SpawnInterval(d2) <= SpawnInterval(d1)
    ensures SpawnInterval(d1) > MinSpawnInterval ==> SpawnInterval(d2) < SpawnInterval(d1)
  {
  }

  /** At difficulty 1 the interval is 900; by difficulty 8 it has reached the
      floor of 200 and stays there. */
  lemma SpawnIntervalExamples()
    ensures SpawnInterval(1.0) == 900.0
    ensures SpawnInterval(8.0) == 200.0 && SpawnInterval(9.0) == 200.0
  {
  }
}
