# Moretini Invaders — game session model

Moretini Invaders is a small 2D space shooter built on the Python Arcade
library. The player's ship sits at the bottom of a 600 by 800 window. It
moves with the arrow keys and fires lasers with SPACE. Meteors and plasma
clouds drop from above the screen. A laser that touches a meteor destroys
it, leaves an explosion, and scores one point. The game is over when the
ship touches a meteor or a plasma cloud. Surviving the level's time limit
completes the level. The next level lasts five seconds longer, its sprites
are 10% faster, and they spawn 1% more often.

This project models the game logic of `game.py` and proves properties of it:

- `Sprites` (`sprites.dfy`) covers the per-tick rules of each kind of sprite:
  - the library's velocity step;
  - `FlyingSprite.update`, which leaves its list once below the screen;
  - `Explosion.update`, which counts through 60 frames and then leaves;
  - the clamp that keeps the ship on the screen.
- `LaserScoring` (`laser_hits.dfy`) covers one pass of `trigger_laser_hits`. It is a fold over the lasers present when the pass starts.
- `Progression` (`progression.dfy`) covers the window's counters:
  - total score;
  - level;
  - velocity and spawn factors;
  - level duration;

  and how `main` and the ENTER handlers of the game-over and level-complete screens set them. The handlers that apply these updates to the window are in `Game`.
- `Game` (`game.dfy`) covers the window and the game view it shows, as one class `MoretiniWindow`:
  - every key handler;
  - `setup`;
  - `on_update`;
  - the triggers;
  - the spawners.

  The laser loop is a method that is proved equal to the fold.
- `Seqs` (`seqs.dfy`) covers order-preserving selection from a sequence, which models removal from a sprite list. `Wrappers` (`wrappers.dfy`) holds an `Option` type.

The central invariant `MoretiniWindow.Valid` holds for the whole session:

- the counters are those of a level reachable from the start (`Progression.Consistent`);
- once a game view exists, its level time and velocity factor come from those counters;
- the view's score never exceeds the total score.

Every operation preserves the invariant. `setup` places the ship with its centre x at half the screen *height* (400, not the screen's centre 300). The model keeps that as written.

## Model

| member | source | states |
|---|---|---|
| Sprites.Sprite.Moved | game.py:532 | one update shifts all four edges of the hit box by the velocity; the size and the velocity do not change |
| Sprites.FlyingUpdate | game.py:526-536 | a flying sprite moves, then leaves its list exactly when its moved top is below 0; otherwise it stays as the moved sprite |
| Sprites.FlyingListUpdateKeepsVisible | game.py:526-536 | one update of a meteor or plasma list equals moving every sprite, then keeping in order exactly those whose top is not below the screen |
| Sprites.FlyingListUpdateMembers | game.py:532-536 | after an update no sprite in the list is below the screen; a moved sprite remains exactly when its top is at least 0; every remaining sprite is the moved form of a sprite that was there |
| Sprites.MovedAll | game.py:374 | the laser list update keeps every laser and its position in the list, each moved by its velocity |
| Sprites.Clamped | game.py:377-388 | after the four corrections the ship's left and bottom edges are on the screen; top and right are too whenever the ship fits on the screen; size and velocity are kept; a ship already on the screen is not moved |
| Sprites.ExplosionUpdate | game.py:554-567 | the frame counter rises by exactly one; the explosion leaves its list exactly when the counter reaches the number of frames |
| Sprites.ExplosionListUpdateKeepsShowing | game.py:554-567 | one update of the explosion list equals advancing every explosion one frame, then keeping in order exactly those whose frame exists |
| Sprites.ExplosionListUpdateMembers | game.py:560-567 | every surviving explosion shows an existing frame; an advanced explosion survives exactly when its new frame exists |
| Sprites.ExplosionLifetime | game.py:546-567 | after n updates an explosion is still listed exactly when its counter plus n is below the frame count, and it then shows that frame |
| LaserScoring.CollidesWithListMembers | game.py:417 | `collides_with_list` reports exactly the members of the list that the sprite overlaps |
| LaserScoring.CollidesWithListFirst | game.py:417-427 | a laser's hit list is non-empty exactly when it overlaps some meteor, and its first entry, on which the explosion is placed, is the first meteor in list order that it overlaps |
| LaserScoring.ExplosionAt | game.py:423-430 | the explosion of a hit is centred on the hit meteor and, after its first update, shows frame 1 of the sheet |
| LaserScoring.ShotStepFate | game.py:416-451 | the fate of one laser, exactly: the meteors it overlaps leave, each scoring a hit; a laser that overlaps any is removed and appends one explosion on the first of them; a laser that overlaps none adds no explosion and is kept exactly when it is not above the screen |
| LaserScoring.LaserHits | game.py:414 | over the lasers present at the start, in order: meteors only shrink; hits, kept lasers and explosions only grow, the last two by at most one per laser |
| LaserScoring.RemovedMeteorsAreScored | game.py:439-444 | destroyed plus remaining meteors always equal the meteors there were, so the score rises by exactly the number of meteors removed |
| LaserScoring.SurvivingMeteors | game.py:414-442 | the meteors left are exactly those that no laser of the pass overlaps, in their original order |
| LaserScoring.LaserFates | game.py:414-451 | lasers kept earlier stay in front; each laser the pass keeps is one of its lasers and is not above the screen; kept lasers plus new explosions lie between the number of lasers not above the screen and the number of lasers of the pass |
| LaserScoring.LaserKeptWhenMissing | game.py:449-451 | a laser of the pass that is not above the screen and overlaps none of the starting meteors is kept |
| LaserScoring.ExplosionsAppended | game.py:420-433 | explosions are only appended, at most one per destroyed meteor, and a pass that destroys any meteor appends at least one |
| LaserScoring.MeteorsOnlyLeave | game.py:439-442 | no meteor appears during the pass |
| LaserScoring.ExplosionsOnDestroyedMeteors | game.py:420-433 | each new explosion sits on the centre of a meteor that was there at the start and is gone at the end, showing frame 1 |
| LaserScoring.ExplosionsOnFirstHits | game.py:414-433 | each new explosion was placed by one laser of the pass, on the first meteor in list order that this laser overlapped among the meteors left when its turn came |
| LaserScoring.SingleHit | game.py:409-451 | one laser on the only meteor: both vanish, one explosion appears on the meteor, and the score is 1 |
| Progression.AdvancedOneLevel | game.py:215-218 | the ENTER update takes the counters of any level to those of the next level, and counters not matching their level never come to match by it |
| Progression.LevelsFromStart | game.py:212-222 | from the initial counters, n level completions reach level n + 1 with duration 20 + 5n, factors 1.1^n and 1.01^(n+1), and the total score unchanged |
| Progression.DifficultyIncreases | game.py:212-222 | completing a level keeps the counters consistent and the total score; it raises the level by one and the duration by 5; both factors strictly grow; both spawn intervals strictly shrink |
| Game.ShotFrom | game.py:493-508 | a new laser is a copy of the reference laser centred on the ship horizontally, with its bottom on the ship's top |
| Game.LaserPass | game.py:409-451 | the loop over the lasers, with its inner scoring loop, computes exactly the fold `LaserHits` |
| Game.PauseTwice | game.py:475-476 | pressing P twice leaves the whole window and game view exactly as they were |
| Game.MoretiniWindow.constructor | game.py:570-582 | the window starts on the menu with the initial counters (score 0, level 1, factor 1, spawn factor 1.01, 20 seconds) |
| Game.MoretiniWindow.Setup | game.py:246-297 | a new view is unpaused, with score 0, timer 0 and empty lists; its velocity factor and level time come from the counters; the ship is at its start; the spawn intervals are the base intervals divided by the spawn factor |
| Game.MoretiniWindow.MenuOnKeyPress | game.py:61-63 | any key shows the instructions |
| Game.MoretiniWindow.InstructionOnKeyPress | game.py:90-93 | any key starts a freshly set-up game view without touching the counters |
| Game.MoretiniWindow.GameOverOnKeyPress | game.py:145-157 | ENTER resets every counter to its initial value and starts a fresh view; any other key changes nothing |
| Game.MoretiniWindow.NextLevelOnKeyPress | game.py:212-222 | ENTER advances the counters one level, keeping the total score, and starts a fresh view; any other key changes nothing |
| Game.MoretiniWindow.TriggerGameOver | game.py:390-397 | the window shows the game-over screen with the view's elapsed time |
| Game.MoretiniWindow.TriggerNextLevel | game.py:399-406 | the window shows the level-complete screen with the view's elapsed time |
| Game.MoretiniWindow.TriggerLaserHits | game.py:409-451 | the lists and scores become those of the pass over the lasers present at its start; score and total score grow by the same amount, which is the number of meteors removed |
| Game.MoretiniWindow.ApplyLaserPass | game.py:439-444 | each hit adds one to both the view's score and the window's total score, and the invariant is kept |
| Game.MoretiniWindow.OnUpdate | game.py:344-388 | the timer always advances; when paused nothing else changes; otherwise the screen is level-complete if time is up, else game-over if the ship touched a meteor or plasma cloud, else unchanged; the rest of the tick still runs on the view; the ship ends on the screen |
| Game.MoretiniWindow.CheckScreens | game.py:355-365 | a ship touching a meteor or plasma cloud switches to game over, and an expired timer then switches to level complete, which wins |
| Game.MoretiniWindow.AdvanceSprites | game.py:367-388 | laser hits, then every sprite list update, then the clamp, composed in that order |
| Game.MoretiniWindow.UpdateSprites | game.py:370-375 | the ship and lasers move; meteors and plasma clouds move and drop out below the screen; explosions advance and drop out after their last frame |
| Game.MoretiniWindow.KeepPlayerOnScreen | game.py:377-388 | the four edge corrections, applied in order, give the clamped ship |
| Game.MoretiniWindow.PlayingOnKeyPress | game.py:468-491 | P toggles pause; each arrow sets one velocity component to plus or minus 5; SPACE appends one laser fired from the ship; nothing else changes |
| Game.MoretiniWindow.TriggerLaserShot | game.py:493-508 | exactly one laser is appended, centred on the ship, resting on its top, flying straight up at 5 |
| Game.MoretiniWindow.PlayingOnKeyRelease | game.py:510-518 | releasing UP or DOWN zeroes the vertical velocity; releasing LEFT or RIGHT zeroes the horizontal velocity; other keys change nothing |
| Game.MoretiniWindow.AddMeteor | game.py:299-319 | exactly one meteor is appended, placed by the drawn bottom and left, above the screen, moving at the velocity factor times the drawn speeds, and always downward |
| Game.MoretiniWindow.AddPlasmaCloud | game.py:321-342 | exactly one cloud is appended, above the screen, falling straight down at the velocity factor times the drawn speed |
| Game.MoretiniWindow.PositiveVelocityFactor | game.py:254 | in any game view the velocity factor is positive, so spawned sprites always fall |

## Left out

- Drawing, the background colour, sounds, the texts of the menu, instruction and level screens, and their time display are not modelled, because they do not affect game state.
- Images and the explosion spritesheet are not loaded. The ship and laser extents are constructor parameters, and the explosion has a fixed 60 frames.
- `ar.schedule` is not modelled. `Setup` stores the spawn intervals, and spawning is two methods that the environment calls. Spawns scheduled by an earlier game view, which go on after a new view starts, are not modelled.
- Random draws are not modelled. They become arguments of `AddMeteor` and `AddPlasmaCloud`, limited to the ranges drawn from. The meteor and cloud extents are free arguments, because the random scale only affects the image size.
- The collision geometry is an arbitrary test given as an argument. Hit boxes are boxes centred on the sprite, so the texture-derived hit boxes and the rotation of the laser image are not modelled.
- Removing lasers from `laser_list` while it is being iterated is not modelled. The pass iterates the lasers present at its start, and removal from all sprite lists is idempotent.
- `SpriteList.update` is not modelled as the library implements it. `FlyingListUpdate` and `ExplosionListUpdate` update every sprite in the list exactly once, in order. That holds even though `FlyingSprite.update` (game.py:536) and `Explosion.update` (game.py:567) remove their sprite from the list being iterated (game.py:372-375). The library's behaviour when a list changes during its own update is not part of this model.
- The order of `collides_with_list`'s result is not modelled from the library, which is not part of this model. `CollidesWithList` reports the overlapped sprites in list order, so the explosion's meteor `hit_lst[0]` (game.py:426) is taken to be the first overlapped meteor of the list.
- Sprite identity and aliasing are not modelled. Sprites are values, so a meteor is removed from the list by value, together with every equal copy of it.
- The Q key (`ar.close_window`) is not modelled, and neither are the window creation and `ar.run` in `main`. The working-directory change made at module level for packaged executables (game.py:32-34) is left out too. All of these are I/O.
- Floating point is not modelled. Positions, velocities, factors and the timer are reals.
- Integer widths are not modelled; scores and counters are unbounded.
- Sprites.FlyingListUpdate: its own contract states only a length bound. What it keeps is stated in `Sprites.FlyingListUpdateKeepsVisible` and `Sprites.FlyingListUpdateMembers`.
- Sprites.ExplosionListUpdate: its own contract states only a length bound. What it keeps is stated in `Sprites.ExplosionListUpdateKeepsShowing` and `Sprites.ExplosionListUpdateMembers`.
- LaserScoring.CollidesWithList: its own contract states only a length bound. Membership is stated in `LaserScoring.CollidesWithListMembers`.
