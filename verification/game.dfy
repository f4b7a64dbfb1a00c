/**
 * The game session of Moretini Invaders: the screens the window shows,
 * the progression counters the window carries from level to level, and
 * the state of the game view that is being played (its timer, score,
 * player and sprite lists), with the key handlers and the per-tick update
 * that change them.
 */
module Game {
  import opened Seqs
  import opened Sprites
  import opened LaserScoring
  import opened Progression

  /** The view the window shows; the level screens remember the time the level took. */
  datatype Screen = Menu | Instruction | Playing | GameOver(timeTaken: real) | NextLevel(timeTaken: real)

  /** The keys the game tells apart; every other key is `Other`. */
  datatype Key = Enter | Up | Down | Left | Right | Space | P | Q | Other(symbol: int)

  const VelocityLaser: real := 5.0
  const ShipSpeed: real := 5.0
  /** The explosion spritesheet is cut into 60 frames. */
  const ExplosionTextureCount: nat := 60

  /**
   * A new laser: a copy of the reference laser sprite with its centre x at
   * the ship's centre x and its bottom at the ship's top.
   */
  function ShotFrom(template: Sprite, ship: Sprite): (l: Sprite)
    ensures l.centerX == ship.centerX && l.Bottom() == ship.Top()
    ensures l.width == template.width && l.height == template.height
    ensures l.changeX == template.changeX && l.changeY == template.changeY
  {
    template.(centerX := ship.centerX).WithBottom(ship.Top())
  }

  /**
   * The game window together with the game view it shows. The first
   * group of fields is the window's: its counters, set by `main` and by
   * the level screens, and the screen it shows. The second group is the
   * state of the current game view, which every new game view
   * re-initialises in `Setup`.
   */
  class MoretiniWindow {
    /** Extents of the ship and of the (rotated) laser image, fixed once the images are loaded. */
    const shipWidth: real
    const shipHeight: real
    const laserWidth: real
    const laserHeight: real

    var totalScore: nat
    var currentLevel: int
    var currentLevelFactor: real
    var currentSpawnFactor: real
    var levelDuration: int
    var screen: Screen

    var paused: bool
    var velFact: real
    var timeLevel: int
    var score: nat
    var timer: real
    var player: Sprite
    var laser: Sprite
    var meteors: seq<Sprite>
    var plasmas: seq<Sprite>
    var lasers: seq<Sprite>
    var explosions: seq<Explosion>
    var meteorSpawnTime: real
    var plasmaSpawnTime: real

    ghost function Progress(): Counters
      reads this
    {
      Counters(totalScore, currentLevel, currentLevelFactor, currentSpawnFactor, levelDuration)
    }

    /** A game view has been set up (the screens from Playing on). */
    predicate InGame()
      reads this
    {
      !screen.Menu? && !screen.Instruction?
    }

    /** The ship as `setup` places it: centre x at half the screen height, bottom at 10. */
    function InitialPlayer(): Sprite
    {
      Sprite(ScreenHeight / 2.0, 0.0, shipWidth, shipHeight, 0.0, 0.0).WithBottom(10.0)
    }

    /** The reference laser sprite, which flies up at 5 per tick. */
    function LaserTemplate(): Sprite
    {
      Sprite(0.0, 0.0, laserWidth, laserHeight, 0.0, VelocityLaser)
    }

    /** The view was set up from the current counters, and the ship and reference laser keep their images. */
    ghost predicate ViewValid()
      reads this
    {
      && timeLevel == levelDuration
      && velFact == VelocityFactor * currentLevelFactor
      && player.width == shipWidth && player.height == shipHeight
      && laser == LaserTemplate()
    }

    /**
     * The session invariant: the counters are those of the current level,
     * and once a game view exists it matches them and its score never
     * exceeds the total score.
     */
    ghost predicate Valid()
      reads this
    {
      && Consistent(Progress())
      && (InGame() ==> ViewValid() && score <= totalScore)
    }

    /** The state `setup` leaves a new game view in. */
    ghost predicate FreshView()
      reads this
    {
      && !paused
      && velFact == VelocityFactor * currentLevelFactor
      && timeLevel == levelDuration
      && score == 0 && timer == 0.0
      && player == InitialPlayer() && laser == LaserTemplate()
      && meteors == [] && plasmas == [] && lasers == [] && explosions == []
      && currentSpawnFactor != 0.0
      && meteorSpawnTime == SpawnMeteor / currentSpawnFactor
      && plasmaSpawnTime == SpawnPlasma / currentSpawnFactor
    }

    /** `main`: the window starts on the menu with the initial counters. */
    constructor (shipWidth: real, shipHeight: real, laserWidth: real, laserHeight: real)
      ensures Valid() && screen == Menu && Progress() == Initial
      ensures this.shipWidth == shipWidth && this.shipHeight == shipHeight
      ensures this.laserWidth == laserWidth && this.laserHeight == laserHeight
    {
      this.shipWidth := shipWidth;
      this.shipHeight := shipHeight;
      this.laserWidth := laserWidth;
      this.laserHeight := laserHeight;
      totalScore := 0;
      currentLevel := 1;
      currentLevelFactor := 1.0;
      currentSpawnFactor := SpawnScale;
      levelDuration := TimeLevel;
      screen := Menu;
    }

    /**
     * A new game view and its `setup`: empty sprite lists, not paused,
     * score and timer at 0, velocity factor and level time taken from the
     * window's counters, the ship at its start, and the spawn intervals of
     * the level. The window's counters and screen do not change.
     */
    method Setup()
      requires currentSpawnFactor != 0.0
      modifies this`paused, this`velFact, this`timeLevel, this`score, this`timer, this`player, this`laser,
               this`meteors, this`plasmas, this`lasers, this`explosions, this`meteorSpawnTime, this`plasmaSpawnTime
      ensures FreshView() && ViewValid()
    {
      var meteorTime, plasmaTime := SpawnMeteor / currentSpawnFactor, SpawnPlasma / currentSpawnFactor;
      meteors, plasmas, lasers, explosions := [], [], [], [];
      paused := false;
      velFact := VelocityFactor * currentLevelFactor;
      timeLevel := levelDuration;
      score := 0;
      timer := 0.0;
      player := InitialPlayer();
      laser := LaserTemplate();
      meteorSpawnTime, plasmaSpawnTime := meteorTime, plasmaTime;
    }

    /** `MenuView.on_key_press`: any key leads to the instructions. */
    method MenuOnKeyPress(key: Key)
      requires Valid() && screen == Menu
      modifies this`screen
      ensures Valid() && screen == Instruction
    {
      screen := Instruction;
    }

    /** `InstructionView.on_key_press`: any key starts a game view at the current counters. */
    method InstructionOnKeyPress(key: Key)
      requires Valid() && screen == Instruction
      modifies this
      ensures Valid() && screen == Playing && FreshView()
      ensures Progress() == old(Progress())
    {
      PowerAtLeastOne(SpawnScale, currentLevel);
      Setup();
      screen := Playing;
    }

    /**
     * `GameOverView.on_key_press`: ENTER resets the counters to their
     * initial values and starts a new game view, so the state reached does
     * not depend on the game that was lost; any other key changes nothing.
     */
    method GameOverOnKeyPress(key: Key)
      requires Valid() && screen.GameOver?
      modifies this
      ensures Valid()
      ensures key == Enter ==> Progress() == Initial && screen == Playing && FreshView()
      ensures key != Enter ==> unchanged(this)
    {
      if key == Enter {
        totalScore := 0;
        currentLevel := 1;
        currentLevelFactor := 1.0;
        levelDuration := TimeLevel;
        currentSpawnFactor := SpawnScale;
        Setup();
        screen := Playing;
      }
    }

    /**
     * `NextLevelView.on_key_press`: ENTER advances the counters (one level
     * up, five seconds more, both factors scaled, total score kept) and
     * starts a new game view; any other key changes nothing.
     */
    method NextLevelOnKeyPress(key: Key)
      requires Valid() && screen.NextLevel?
      modifies this
      ensures Valid()
      ensures key == Enter ==> Progress() == Advanced(old(Progress())) && screen == Playing && FreshView()
      ensures key == Enter ==> totalScore == old(totalScore) && currentLevel == old(currentLevel) + 1
      ensures key != Enter ==> unchanged(this)
    {
      if key == Enter {
        ghost var before := Progress();
        currentLevel := currentLevel + 1;
        currentLevelFactor := currentLevelFactor * LevelFactor;
        currentSpawnFactor := currentSpawnFactor * SpawnScale;
        levelDuration := levelDuration + TimeAdd;
        DifficultyIncreases(before);
        Setup();
        screen := Playing;
      }
    }

    /** `trigger_game_over`: the window switches to the game-over screen. */
    method TriggerGameOver()
      requires Valid() && InGame()
      modifies this`screen
      ensures Valid() && screen == GameOver(timer)
    {
      screen := GameOver(timer);
    }

    /** `trigger_next_level`: the window switches to the level-complete screen. */
    method TriggerNextLevel()
      requires Valid() && InGame()
      modifies this`screen
      ensures Valid() && screen == NextLevel(timer)
    {
      screen := NextLevel(timer);
    }

    /**
     * `trigger_laser_hits`: one pass over the lasers present at its start.
     * Its effect is that of `LaserHits`; in particular the score and the
     * total score both grow by exactly the number of meteors removed.
     */
    method TriggerLaserHits(collides: Collides)
      requires Valid()
      modifies this`meteors, this`lasers, this`explosions, this`score, this`totalScore
      ensures Valid()
      ensures var r := LaserHits(collides, ExplosionTextureCount, HitState(old(meteors), [], old(explosions), 0), old(lasers));
        && meteors == r.meteors && lasers == r.lasers && explosions == r.explosions
        && score == old(score) + r.hits && totalScore == old(totalScore) + r.hits
      ensures score - old(score) == totalScore - old(totalScore) == |old(meteors)| - |meteors|
    {
      var r := LaserPass(collides, meteors, explosions, lasers);
      RemovedMeteorsAreScored(collides, ExplosionTextureCount, HitState(meteors, [], explosions, 0), lasers);
      ApplyLaserPass(r);
    }

    /** The lists the laser pass leaves replace the view's, and every hit scores one point in both scores. */
    method ApplyLaserPass(r: HitState)
      requires Valid()
      modifies this`meteors, this`lasers, this`explosions, this`score, this`totalScore
      ensures Valid()
      ensures meteors == r.meteors && lasers == r.lasers && explosions == r.explosions
      ensures score == old(score) + r.hits && totalScore == old(totalScore) + r.hits
    {
      ConsistentAnyScore(Progress(), totalScore + r.hits);
      meteors, lasers, explosions := r.meteors, r.lasers, r.explosions;
      score, totalScore := score + r.hits, totalScore + r.hits;
    }

    /**
     * `on_update`: the timer always advances. A paused view changes
     * nothing else. Otherwise, in order: a ship touching a meteor or a
     * plasma cloud switches to game over, an expired level timer then
     * switches to level complete (so when both happen the level-complete
     * screen is the one shown), and the rest of the tick still runs on the
     * view: laser hits, every sprite list updated, and the ship kept on the
     * screen.
     */
    method OnUpdate(deltaTime: real, collides: Collides)
      requires Valid() && screen == Playing
      modifies this`timer, this`screen, this`player, this`meteors, this`plasmas, this`lasers,
               this`explosions, this`score, this`totalScore
      ensures Valid()
      ensures timer == old(timer) + deltaTime
      ensures old(paused) ==>
        && screen == old(screen) && player == old(player)
        && meteors == old(meteors) && plasmas == old(plasmas)
        && lasers == old(lasers) && explosions == old(explosions)
        && score == old(score) && totalScore == old(totalScore)
      ensures !old(paused) ==>
        screen == (if timer >= timeLevel as real then NextLevel(timer)
                   else if |CollidesWithList(collides, old(player), old(meteors))| > 0
                        || |CollidesWithList(collides, old(player), old(plasmas))| > 0 then GameOver(timer)
                   else Playing)
      ensures !old(paused) ==>
        var r := LaserHits(collides, ExplosionTextureCount, HitState(old(meteors), [], old(explosions), 0), old(lasers));
        && meteors == FlyingListUpdate(r.meteors)
        && plasmas == FlyingListUpdate(old(plasmas))
        && lasers == MovedAll(r.lasers)
        && explosions == ExplosionListUpdate(r.explosions)
        && score == old(score) + r.hits && totalScore == old(totalScore) + r.hits
        && player == Clamped(old(player).Moved())
      ensures !old(paused) ==>
        && player.Left() >= 0.0 && player.Bottom() >= 0.0
        && (shipHeight <= ScreenHeight ==> player.Top() <= ScreenHeight)
        && (shipWidth <= ScreenWidth ==> player.Right() <= ScreenWidth)
    {
      timer := timer + deltaTime;
      if paused {
        return;
      }
      CheckScreens(collides);
      AdvanceSprites(collides);
    }

    /**
     * The rest of an unpaused `on_update`, which runs whatever screen the
     * checks switched to: laser hits, every sprite list updated, and the
     * ship kept on the screen.
     */
    method AdvanceSprites(collides: Collides)
      requires Valid()
      modifies this`player, this`meteors, this`plasmas, this`lasers, this`explosions, this`score, this`totalScore
      ensures Valid()
      ensures var r := LaserHits(collides, ExplosionTextureCount, HitState(old(meteors), [], old(explosions), 0), old(lasers));
        && meteors == FlyingListUpdate(r.meteors)
        && plasmas == FlyingListUpdate(old(plasmas))
        && lasers == MovedAll(r.lasers)
        && explosions == ExplosionListUpdate(r.explosions)
        && score == old(score) + r.hits && totalScore == old(totalScore) + r.hits
        && player == Clamped(old(player).Moved())
    {
      TriggerLaserHits(collides);
      UpdateSprites();
      KeepPlayerOnScreen();
    }

    /**
     * The screen checks of `on_update`: the ship touching a meteor or a
     * plasma cloud switches to game over; then an expired level timer
     * switches to level complete.
     */
    method CheckScreens(collides: Collides)
      requires Valid() && InGame()
      modifies this`screen
      ensures Valid()
      ensures screen == (if timer >= timeLevel as real then NextLevel(timer)
                         else if |CollidesWithList(collides, player, meteors)| > 0
                              || |CollidesWithList(collides, player, plasmas)| > 0 then GameOver(timer)
                         else old(screen))
    {
      if |CollidesWithList(collides, player, meteors)| > 0 {
        TriggerGameOver();
      }
      if |CollidesWithList(collides, player, plasmas)| > 0 {
        TriggerGameOver();
      }
      if timer >= timeLevel as real {
        TriggerNextLevel();
      }
    }

    /**
     * The sprite updates of `on_update`: the ship and the lasers move, the
     * meteors and plasma clouds move and drop out below the screen, the
     * explosions advance one frame and drop out after the last.
     */
    method UpdateSprites()
      requires Valid()
      modifies this`player, this`meteors, this`plasmas, this`lasers, this`explosions
      ensures Valid()
      ensures player == old(player).Moved()
      ensures meteors == FlyingListUpdate(old(meteors)) && plasmas == FlyingListUpdate(old(plasmas))
      ensures lasers == MovedAll(old(lasers)) && explosions == ExplosionListUpdate(old(explosions))
    {
      player := player.Moved();
      meteors := FlyingListUpdate(meteors);
      plasmas := FlyingListUpdate(plasmas);
      lasers := MovedAll(lasers);
      explosions := ExplosionListUpdate(explosions);
    }

    /**
     * The end of `on_update`: the ship's top, right, bottom and left edges,
     * in that order, are moved back onto the screen where they left it.
     */
    method KeepPlayerOnScreen()
      requires Valid()
      modifies this`player
      ensures Valid()
      ensures player == Clamped(old(player))
    {
      if player.Top() > ScreenHeight {
        player := player.WithTop(ScreenHeight);
      }
      if player.Right() > ScreenWidth {
        player := player.WithRight(ScreenWidth);
      }
      if player.Bottom() < 0.0 {
        player := player.WithBottom(0.0);
      }
      if player.Left() < 0.0 {
        player := player.WithLeft(0.0);
      }
    }

    /**
     * `on_key_press` of the game view: P toggles pause, the arrow keys set
     * one component of the ship's velocity to plus or minus 5, SPACE fires
     * a laser, and nothing else changes.
     */
    method PlayingOnKeyPress(key: Key)
      requires Valid() && screen == Playing
      modifies this`paused, this`player, this`lasers
      ensures Valid()
      ensures paused == (if key == P then !old(paused) else old(paused))
      ensures player == match key
        case Up => old(player).(changeY := ShipSpeed)
        case Down => old(player).(changeY := -ShipSpeed)
        case Left => old(player).(changeX := -ShipSpeed)
        case Right => old(player).(changeX := ShipSpeed)
        case _ => old(player)
      ensures lasers == if key == Space then old(lasers) + [ShotFrom(LaserTemplate(), old(player))] else old(lasers)
    {
      if key == P {
        paused := !paused;
      }
      if key == Up {
        player := player.(changeY := ShipSpeed);
      }
      if key == Down {
        player := player.(changeY := -ShipSpeed);
      }
      if key == Left {
        player := player.(changeX := -ShipSpeed);
      }
      if key == Right {
        player := player.(changeX := ShipSpeed);
      }
      if key == Space {
        TriggerLaserShot();
      }
    }

    /**
     * `trigger_laser_shot`: a copy of the reference laser joins the laser
     * list, centred on the ship horizontally, resting on the ship's top,
     * and flying up at 5 per tick.
     */
    method TriggerLaserShot()
      requires Valid() && InGame()
      modifies this`lasers
      ensures Valid()
      ensures lasers == old(lasers) + [ShotFrom(laser, player)]
      ensures var l := lasers[|lasers| - 1];
        l.centerX == player.centerX && l.Bottom() == player.Top() && l.changeX == 0.0 && l.changeY == VelocityLaser
    {
      var shot := ShotFrom(laser, player);
      lasers := lasers + [shot];
    }

    /** `on_key_release`: releasing UP or DOWN stops vertical motion, LEFT or RIGHT horizontal motion. */
    method PlayingOnKeyRelease(key: Key)
      requires Valid() && screen == Playing
      modifies this`player
      ensures Valid()
      ensures player == if key == Up || key == Down then old(player).(changeY := 0.0)
                        else if key == Left || key == Right then old(player).(changeX := 0.0)
                        else old(player)
    {
      if key == Up || key == Down {
        player := player.(changeY := 0.0);
      }
      if key == Left || key == Right {
        player := player.(changeX := 0.0);
      }
    }

    /**
     * `add_meteor`, with its random draws as arguments within the ranges
     * drawn from: the meteor starts just above the screen and falls.
     */
    method AddMeteor(width: real, height: real, bottom: int, left: int, kx: int, ky: int)
      requires Valid() && InGame()
      requires ScreenHeight as int <= bottom <= ScreenHeight as int + 80
      requires 10 <= left <= ScreenWidth as int - 10
      requires -3 <= kx <= 3 && -10 <= ky <= -5
      modifies this`meteors
      ensures Valid()
      ensures |meteors| == |old(meteors)| + 1 && meteors[..|old(meteors)|] == old(meteors)
      ensures var m := meteors[|meteors| - 1];
        && m.width == width && m.height == height
        && m.Bottom() == bottom as real && m.Left() == left as real
        && m.changeX == velFact * kx as real && m.changeY == velFact * ky as real
        && m.Bottom() >= ScreenHeight && m.changeY < 0.0
    {
      var meteor := Sprite(0.0, 0.0, width, height, 0.0, 0.0).WithBottom(bottom as real).WithLeft(left as real);
      meteor := meteor.(changeX := velFact * kx as real, changeY := velFact * ky as real);
      PositiveVelocityFactor();
      meteors := meteors + [meteor];
    }

    /**
     * `add_plasma_cloud`, with its random draws as arguments: the cloud
     * starts just above the screen and falls straight down.
     */
    method AddPlasmaCloud(width: real, height: real, bottom: int, left: int, ky: int)
      requires Valid() && InGame()
      requires ScreenHeight as int <= bottom <= ScreenHeight as int + 80
      requires 10 <= left <= ScreenWidth as int - 10
      requires -12 <= ky <= -10
      modifies this`plasmas
      ensures Valid()
      ensures |plasmas| == |old(plasmas)| + 1 && plasmas[..|old(plasmas)|] == old(plasmas)
      ensures var p := plasmas[|plasmas| - 1];
        && p.width == width && p.height == height
        && p.Bottom() == bottom as real && p.Left() == left as real
        && p.changeX == 0.0 && p.changeY == velFact * ky as real
        && p.Bottom() >= ScreenHeight && p.changeY < 0.0
    {
      var plasma := Sprite(0.0, 0.0, width, height, 0.0, 0.0).WithBottom(bottom as real).WithLeft(left as real);
      plasma := plasma.(changeX := 0.0, changeY := velFact * ky as real);
      PositiveVelocityFactor();
      plasmas := plasmas + [plasma];
    }

    /** Sprites spawned in a game view move at a positive multiple of their drawn speed. */
    lemma PositiveVelocityFactor()
      requires Valid() && InGame()
      ensures velFact > 0.0
    {
      PowerAtLeastOne(LevelFactor, currentLevel - 1);
    }
  }

  /**
   * The loop of `trigger_laser_hits` over the lasers `shots` present at
   * its start, on the meteor and explosion lists it begins with: each
   * laser in turn asks which meteors it overlaps, places an explosion on
   * the first of them, removes them and counts one hit for each, and is
   * itself kept only when it hit nothing and is not above the screen.
   */
  method LaserPass(collides: Collides, meteors: seq<Sprite>, explosions: seq<Explosion>, shots: seq<Sprite>)
    returns (r: HitState)
    ensures r == LaserHits(collides, ExplosionTextureCount, HitState(meteors, [], explosions, 0), shots)
  {
    ghost var st := HitState(meteors, [], explosions, 0);
    var ms, kept, es, hits := meteors, [], explosions, 0;
    var i := 0;
    assert shots[..0] == [];
    while i < |shots|
      invariant 0 <= i <= |shots|
      invariant HitState(ms, kept, es, hits) == LaserHits(collides, ExplosionTextureCount, st, shots[..i])
    {
      var shot := shots[i];
      LaserHitsSnoc(collides, ExplosionTextureCount, st, shots[..i], shot);
      assert shots[..i + 1] == shots[..i] + [shot];
      ghost var next := ShotStep(collides, ExplosionTextureCount, HitState(ms, kept, es, hits), shot);
      var hitList := CollidesWithList(collides, shot, ms);
      if |hitList| > 0 {
        es := es + [ExplosionAt(hitList[0], ExplosionTextureCount)];
      }
      // Removing every meteor of hitList from the meteor list leaves the ones the laser misses.
      ms := Filter(ms, MissedBy(collides, shot));
      ghost var hitsBefore := hits;
      var j := 0;
      while j < |hitList|
        invariant 0 <= j <= |hitList|
        invariant hits == hitsBefore + j
      {
        hits := hits + 1;
        j := j + 1;
      }
      if |hitList| == 0 && shot.Bottom() <= ScreenHeight {
        kept := kept + [shot];
      }
      assert HitState(ms, kept, es, hits) == next;
      i := i + 1;
    }
    assert shots[..|shots|] == shots;
    r := HitState(ms, kept, es, hits);
  }

  /** Pressing P twice in a game view restores the pause flag and changes nothing else. */
  method PauseTwice(w: MoretiniWindow)
    requires w.Valid() && w.screen == Playing
    modifies w
    ensures w.Valid() && unchanged(w)
  {
    w.PlayingOnKeyPress(P);
    w.PlayingOnKeyPress(P);
  }
}
