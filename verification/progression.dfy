/**
 * The window-level progression counters of Moretini Invaders and how the
 * level screens move them: `main` sets them, ENTER on the game-over screen
 * resets them, and ENTER on the level-complete screen advances them.
 */
module Progression {

  const TimeLevel: int := 20
  const TimeAdd: int := 5
  const SpawnMeteor: real := 0.75
  const SpawnPlasma: real := 1.5
  const SpawnScale: real := 1.01
  const VelocityFactor: real := 0.6
  const LevelFactor: real := 1.1

  /**
   * `total_score`, `current_level`, `current_level_factor`,
   * `current_spawn_factor` and `level_duration`.
   */
  datatype Counters = Counters(totalScore: nat, level: int, levelFactor: real,
                               spawnFactor: real, levelDuration: int)

  /** The counters `main` sets, and that a restart after game over sets again. */
  const Initial: Counters := Counters(0, 1, 1.0, SpawnScale, TimeLevel)

  /** Continuing from the level-complete screen. */
  function Advanced(c: Counters): Counters
  {
    c.(level := c.level + 1,
       levelFactor := c.levelFactor * LevelFactor,
       spawnFactor := c.spawnFactor * SpawnScale,
       levelDuration := c.levelDuration + TimeAdd)
  }

  /** `b` to the power `n`. */
  function Power(b: real, n: nat): real
    decreases n
  {
    if n == 0 then 1.0 else b * Power(b, n - 1)
  }

  /**
   * The counters on reaching `level` from level 1: every level completed
   * added 5 seconds and scaled both factors once more.
   */
  function CountersAt(totalScore: nat, level: int): Counters
    requires level >= 1
  {
    Counters(totalScore, level, Power(LevelFactor, level - 1), Power(SpawnScale, level),
             TimeLevel + TimeAdd * (level - 1))
  }

  /** The counters are those of their level: reachable by restarts and level completions. */
  predicate Consistent(c: Counters)
  {
    c.level >= 1 && c == CountersAt(c.totalScore, c.level)
  }

  /** Whether counters are consistent does not depend on the total score. */
  lemma ConsistentAnyScore(c: Counters, totalScore: nat)
    requires Consistent(c)
    ensures Consistent(c.(totalScore := totalScore))
  {
  }

  /**
   * Completing a level takes the counters of any level to those of the
   * next, and only those: counters that are not those of their level do
   * not become so by completing it.
   */
  lemma AdvancedOneLevel(c: Counters)
    requires c.level >= 1
    ensures Consistent(Advanced(c)) <==> Consistent(c)
  {
  }

  /** `n` level completions in a row. */
  function AdvancedTimes(c: Counters, n: nat): Counters
    decreases n
  {
    if n == 0 then c else Advanced(AdvancedTimes(c, n - 1))
  }

  /** Spawn intervals of the level: the base intervals divided by the spawn factor. */
  function MeteorSpawnTime(c: Counters): real
    requires c.spawnFactor != 0.0
  {
    SpawnMeteor / c.spawnFactor
  }

  function PlasmaSpawnTime(c: Counters): real
    requires c.spawnFactor != 0.0
  {
    SpawnPlasma / c.spawnFactor
  }

  /** Powers of a base of at least 1 are at least 1. */
  lemma {:induction false} PowerAtLeastOne(b: real, n: nat)
    requires b >= 1.0
    ensures Power(b, n) >= 1.0
    decreases n
  {
    if n > 0 {
      PowerAtLeastOne(b, n - 1);
      assert b * Power(b, n - 1) >= 1.0 * Power(b, n - 1);
    }
  }

  /**
   * From the start of any game, `n` completed levels lead to level
   * `n + 1` with the counters of that level, and the total score is
   * untouched by level completions.
   */
  lemma {:induction false} LevelsFromStart(totalScore: nat, n: nat)
    ensures AdvancedTimes(Initial.(totalScore := totalScore), n) == CountersAt(totalScore, n + 1)
    decreases n
  {
    if n > 0 {
      LevelsFromStart(totalScore, n - 1);
    }
  }

  /**
   * Completing a level keeps the counters consistent and makes the game
   * harder: a higher level, 5 more seconds, strictly larger velocity and
   * spawn factors, and strictly shorter spawn intervals.
   */
  lemma DifficultyIncreases(c: Counters)
    requires Consistent(c)
    ensures Consistent(Advanced(c))
    ensures Advanced(c).totalScore == c.totalScore
    ensures Advanced(c).level == c.level + 1
    ensures Advanced(c).levelDuration == c.levelDuration + TimeAdd
    ensures 1.0 <= c.levelFactor < Advanced(c).levelFactor
    ensures 1.0 < c.spawnFactor < Advanced(c).spawnFactor
    ensures MeteorSpawnTime(Advanced(c)) < MeteorSpawnTime(c)
    ensures PlasmaSpawnTime(Advanced(c)) < PlasmaSpawnTime(c)
  {
    PowerAtLeastOne(LevelFactor, c.level - 1);
    PowerAtLeastOne(SpawnScale, c.level - 1);
    var f := c.spawnFactor;
    var f' := Advanced(c).spawnFactor;
    assert f' == f * SpawnScale;
    assert f > 1.0;
    assert f' > f;
    assert SpawnMeteor / f' < SpawnMeteor / f by {
      assert SpawnMeteor / f' * f' == SpawnMeteor == SpawnMeteor / f * f;
    }
    assert SpawnPlasma / f' < SpawnPlasma / f by {
      assert SpawnPlasma / f' * f' == SpawnPlasma == SpawnPlasma / f * f;
    }
  }
}
