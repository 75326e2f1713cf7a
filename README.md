# Orbit dodge: the simulation core of the three `Game` versions

The game is a browser arcade game. An alien sits at the centre of the
screen and spins. Every cooldown it fires a volley of three fireballs, a
third of a turn apart. One hero, or in the current version two players,
walks round a fixed orbit and turns round on a click or a touch. In the
two single-hero versions, Space or Enter also turns the hero; in the
two-player version, keys only pause the game and toggle cheat mode.
The player survives by not touching a fireball. The code exists in three
versions, and each is a `Game` class whose `update` changes its fields
once per animation frame. This project models the simulation core of each
version as a Dafny `class Game` with the same fields and methods:

- `GameBackup1` (`game_backup1.dfy`) models `backup/1/game.js`. It has one
  hero. Fireballs die 50 units off screen or after 300 ticks. A volley
  scores its point once the sky is empty, and the first hit ends the game.
  The cooldown shrinks as the score grows.
- `GameBackup2` (`game_backup2.dfy`) models `backup/2/game.js`. It adds a
  saved configuration, a high score, pause and cheat mode. In cheat mode a
  hit raises a hit indicator for 500 ms and scoring stops. The point for a
  survived volley is awarded when the next volley is fired.
- `TwoPlayerGame` (`game.dfy`) models `game.js`. It has two players.
  Presses on the upper half of the screen steer player 2 and presses on the
  lower half steer player 1. Every living player earns the point for a
  survived volley, the high score follows the best player, and a hit on
  either player ends the game.

The shared pieces are in four more modules:

- `Geometry`: points, the orbit, angle wrapping and the overlap test.
- `Entities`: the alien, the hero, fireballs, volleys, and the pruning and
  collision scans.
- `Rules`: the timing constants and the difficulty rule.
- `Config`: the shallow per-section merge of a saved configuration over the
  defaults.

Each version keeps its mutable fields in one value, `State`. For every
state-changing method there is a function on `State`: `Fired`, `Pruned`,
`Collided`, `Expired`, `Tick` and so on. The method's `ensures` ties the new
state to that function of the old one. The lemmas then state what those
functions promise: the firing gate, scoring and the high score, what
pruning keeps, what a collision does, and the invariants a whole tick
preserves. These invariants differ by version:

- In every version, direction stays in {1, -1} and the cooldown stays in
  its band. In `TwoPlayerGame` the cooldown stays at exactly 2000 ms.
- In `GameBackup1`, the hero's angle and the alien's rotation stay in
  [0, 2π], no fireball is older than 300 ticks, and the score is at most
  one point per volley fired, plus one for the empty sky before the first.
- In `GameBackup2` and `TwoPlayerGame`, the wave flag is cleared between
  calls. The angles stay in [0, 2π] only when the configured speeds allow
  it: a hero speed within ±2π and an alien spin in [0, 2π]. `TickAngles`
  states this. A saved configuration is merged unchecked and can set
  larger speeds.

## Notes on the code

- The alien only spins. A volley fires on a plain cooldown.
- `game.js` awards the point for a survived volley when the next volley
  fires, whether or not fireballs are still in flight.
- `toggleCheatMode` flips cheat mode even after game over.
- Every touch in a touch-start event steers again. Touches are not
  deduplicated.
- The difficulty rule of `game.js` reads `this.score`, which that version
  never sets. The rule therefore never fires, and the cooldown stays at
  2000 ms.
- In the two later versions, the scoring guard `lastFireballTime > 0` is
  commented as "if there was one". It never blocks, because the start time
  is the clock plus 500 to 1000 ms and so always positive. The first volley
  therefore awards a point for a wave that was never fired.
  `FirstVolleyScores` states this.
- The difficulty rule is checked on every tick, not once per point. While
  the score stays at a positive multiple of 5, each frame takes another
  100 ms off the cooldown. A score of 5 therefore takes the cooldown from
  2000 ms to 1000 ms within ten frames. `TickCooldown` states this per
  tick.

## Model

| member | source | states |
|---|---|---|
| `Config.MergeSection` | game.js:19-25 | a saved section's property overrides the default, every other default is kept, and the keys are the union of both |
| `Config.Merge` | game.js:19-25 | each of the three sections is merged on its own; every property the game reads is present; a missing saved configuration, or one without sections, yields exactly the defaults |
| `Config.BlankSectionsGiveDefaults` | backup/2/game.js:19-25 | any saved configuration whose sections are each missing or an empty object, in any mix, yields exactly the defaults |
| `Geometry.StepAngle` | game.js:240-247 | the stepped angle names the same direction as angle + delta; it is left alone inside [0, 2π]; one step of at most a full turn keeps it in [0, 2π], the closed interval, since the tests are strict |
| `Geometry.Spin` | backup/2/game.js:212-218 | the alien's rotation only folds down from above 2π, and a spin in [0, 2π] keeps a rotation of [0, 2π] there |
| `Geometry.WithinIsDistanceTest` | backup/2/game.js:224-230 | the squared comparison without a square root agrees with `distance < r1 + r2` for every non-negative distance; its proof uses that squaring is strictly monotone on non-negative reals |
| `Entities.Stepped` | backup/2/game.js:200-210 | the hero keeps radius, speed and direction; its angle is the wrapped sum and stays in [0, 2π] for a speed of at most a full turn |
| `Entities.Spun` | game.js:252-258 | the alien keeps its place, size and spin; its rotation is the wrapped sum and stays in [0, 2π] for a spin in [0, 2π] |
| `Entities.Volley` | game.js:198-209 | exactly three fireballs at the alien's position with the configured speed and radius and age 0, at angles rotation, +2π/3 and +4π/3 |
| `Entities.Advance` | backup/1/game.js:99-115 | pruning never lengthens the list |
| `Entities.Kept` | game.js:215-234 | every survivor is an input fireball moved one tick, in the original order |
| `Entities.KeptExactlyTheLiving` | game.js:224-232 | a fireball is kept exactly when its moved position is within the margin, or for the first version when also not older than 300 ticks |
| `Entities.AdvanceSurvivors` | backup/2/game.js:179-198 | every survivor is some input fireball moved, and is not past its margin |
| `Entities.SurvivorsAreYoung` | backup/1/game.js:108-112 | under the first version's rule no survivor is older than 300 ticks |
| `Entities.FindHit` | backup/2/game.js:224-243 | the backward scan reports a hit exactly when some fireball overlaps the body, and returns the last such index |
| `Rules.Harden` | backup/2/game.js:264-266 | a score that is a positive multiple of 5 takes exactly 100 ms off the cooldown, clamped at 1000 ms; any other score leaves it unchanged; so from the floor or above it never rises, never passes 1000 ms, and drops exactly on such a score while above the floor |
| `GameBackup1.Game.constructor` | backup/1/game.js:2-50 | score 0, running, the cooldown 2000, the hero at angle 0 heading 1, the alien at the centre, no fireballs, and the invariant holds |
| `GameBackup1.Game.FireRule` | backup/1/game.js:79-97 | nothing before the cooldown has elapsed; after it exactly three fireballs of speed 3, radius 8 and age 0 are appended, the timer restarts and the volley is open; the score is never touched |
| `GameBackup1.Game.PruneRule` | backup/1/game.js:99-115 | the list never grows, every survivor is a fireball moved and aged, and none is older than 300 ticks |
| `GameBackup1.Game.CollisionRule` | backup/1/game.js:137-159 | a hit ends the game and returns before scoring; without a hit the score rises by one exactly when the sky is empty and the volley is unscored |
| `GameBackup1.Game.TickKeepsSound` | backup/1/game.js:161-174 | a tick keeps direction in {1, -1}, both angles in [0, 2π], the cooldown in [1000, 2000], every fireball at most 300 ticks old, and at most one point per volley |
| `GameBackup1.Game.TickMotion` | backup/1/game.js:161-168 | a stopped game does not change; a running tick turns the alien, steps the hero, fires when due and prunes, with at most three more fireballs |
| `GameBackup1.Game.TickScore` | backup/1/game.js:137-168 | after a tick the game runs exactly when the hero is not hit; a hit scores nothing; otherwise one point exactly when the sky is empty and the volley is unscored |
| `GameBackup1.Game.TickCooldown` | backup/1/game.js:170-173 | every running tick applies `Harden` at the score after the tick, so the cooldown loses 100 ms on each tick whose score is a positive multiple of 5; it never rises, never passes 1000 ms, and drops only at such a score |
| `GameBackup1.Game.OnPointer` | backup/1/game.js:53-65 | a click or touch turns the hero round exactly while the game runs |
| `GameBackup1.Game.OnKeyDown` | backup/1/game.js:68-76 | Space or Enter turns the hero round while the game runs; other keys change nothing |
| `GameBackup1.Game.CreateFireballs` | backup/1/game.js:79-97 | the new state is `Fired` of the old one |
| `GameBackup1.Game.PushVolley` | backup/1/game.js:83-93 | the push loop appends exactly the volley |
| `GameBackup1.Game.UpdateFireballs` | backup/1/game.js:99-115 | the backward splice loop leaves exactly `Advance` of the old list |
| `GameBackup1.Game.UpdateHero` | backup/1/game.js:117-127 | the hero is stepped and the invariant kept |
| `GameBackup1.Game.UpdateAlien` | backup/1/game.js:129-135 | the alien is spun and the invariant kept |
| `GameBackup1.Game.CheckCollisions` | backup/1/game.js:137-159 | the new state is `Collided` of the old one |
| `GameBackup1.Game.Update` | backup/1/game.js:161-174 | the new state is `Tick` of the old one, and the invariant is kept |
| `GameBackup1.Game.IncreaseDifficulty` | backup/1/game.js:170-173 | the cooldown becomes `Harden` of itself at the current score |
| `GameBackup1.Game.GameOver` | backup/1/game.js:312-316 | only `gameRunning` changes, to false |
| `GameBackup2.Game.constructor` | backup/2/game.js:2-112 | the merged configuration, the stored high score, running and not paused, the hero and the alien from the configuration, and the invariant holds |
| `GameBackup2.Game.FireRule` | backup/2/game.js:147-177 | nothing before the cooldown; after it one volley, the timer restarted, the wave open; one point unless in cheat mode, `lastFireballTime` is not positive, or the point was already given; the high score follows a beating score and never drops |
| `GameBackup2.Game.CollisionRule` | backup/2/game.js:220-244 | with no hit nothing changes; a hit raises the indicator stamped now in cheat mode and ends the game otherwise; score, fireballs and hero are untouched |
| `GameBackup2.Game.TickKeepsSound` | backup/2/game.js:246-267 | a tick keeps direction in {1, -1}, the configured speeds, the cooldown band and a cleared wave flag |
| `GameBackup2.Game.TickMotion` | backup/2/game.js:246-253 | a stopped or paused game does not change; a running tick turns, steps, fires when due and prunes, with at most three more fireballs |
| `GameBackup2.Game.TickScore` | backup/2/game.js:150-160 | over a tick the score rises by exactly one when a running game fires outside cheat mode with a positive `lastFireballTime`, and not otherwise; the high score follows and never drops |
| `GameBackup2.Game.FirstVolleyScores` | backup/2/game.js:149-153 | a fresh running game with no fireball fired and a positive start time scores one point when its first volley fires outside cheat mode |
| `GameBackup2.Game.TickCollision` | backup/2/game.js:220-262 | after a tick the game runs unless the hero is hit outside cheat mode; a hit in cheat mode leaves the indicator stamped now; an indicator still up is at most 500 ms old |
| `GameBackup2.Game.TickCooldown` | backup/2/game.js:264-266 | every running tick applies `Harden` at the score after the tick, so the cooldown loses 100 ms on each tick whose score is a positive multiple of 5; it never rises, never passes 1000 ms, and drops only at such a score |
| `GameBackup2.Game.TickAngles` | backup/2/game.js:200-218 | angles in [0, 2π] stay there for configured speeds of at most a full turn |
| `GameBackup2.Game.OnPointer` | backup/2/game.js:115-127 | a click or touch turns the hero round while the game runs, paused or not |
| `GameBackup2.Game.OnKeyDown` | backup/2/game.js:130-144 | Space or Enter turns the hero round only while running and not paused; P toggles pause; C toggles cheat mode |
| `GameBackup2.Game.CreateFireballs` | backup/2/game.js:147-177 | the new state is `Fired` of the old one |
| `GameBackup2.Game.AwardWave` | backup/2/game.js:150-160 | the scoring block leaves `Awarded` of the old state |
| `GameBackup2.Game.PushVolley` | backup/2/game.js:163-173 | the push loop appends exactly the configured volley |
| `GameBackup2.Game.UpdateFireballs` | backup/2/game.js:179-198 | the backward splice loop leaves exactly `Advance` of the old list under the radius-plus-10 margin |
| `GameBackup2.Game.UpdateHero` | backup/2/game.js:200-210 | the hero is stepped |
| `GameBackup2.Game.UpdateAlien` | backup/2/game.js:212-218 | the alien is spun |
| `GameBackup2.Game.CheckCollisions` | backup/2/game.js:220-244 | the new state is `Collided` of the old one |
| `GameBackup2.Game.Update` | backup/2/game.js:246-267 | the new state is `Tick` of the old one |
| `GameBackup2.Game.ExpireHitIndicator` | backup/2/game.js:255-261 | the indicator goes down exactly when it is up and more than 500 ms old |
| `GameBackup2.Game.IncreaseDifficulty` | backup/2/game.js:264-266 | the cooldown becomes `Harden` of itself at the current score |
| `GameBackup2.Game.TogglePause` | backup/2/game.js:510-513 | pause flips while the game runs and nothing changes after game over |
| `GameBackup2.Game.ToggleCheatMode` | backup/2/game.js:515-517 | cheat mode always flips |
| `GameBackup2.Game.GameOver` | backup/2/game.js:597-601 | only `gameRunning` changes, to false |
| `TwoPlayerGame.Walked` | game.js:236-250 | a living player's angle becomes angle + speed × direction, folded back once by 2π and left alone when the sum is already in [0, 2π]; a dead player does not move; nothing but the angle changes |
| `TwoPlayerGame.WalkedStaysInRange` | game.js:240-247 | a step of at most a full turn keeps a player's angle in [0, 2π] |
| `TwoPlayerGame.RewardedAll` | game.js:182-188 | every living player gains exactly one point, a dead one none, and nothing else changes |
| `TwoPlayerGame.BestScore` | game.js:191-192 | the best score bounds every player's score and is some player's score |
| `TwoPlayerGame.TapRule` | game.js:160-175 | a press at or above the middle turns only player 2, and only if alive; below it turns only player 1, and only if alive; the other player is untouched |
| `TwoPlayerGame.TapsFlipByParity` | game.js:138-146 | after any sequence of presses a living player faces the other way exactly when an odd number of presses fell on its half; a dead player is untouched |
| `TwoPlayerGame.Game.constructor` | game.js:2-125 | the merged configuration, the stored high score, player 1 at angle 0 and player 2 at π, both heading 1 with score 0 and alive, and the invariant holds |
| `TwoPlayerGame.Game.FireRule` | game.js:177-213 | nothing before the cooldown; after it one volley, the timer restarted and the wave open; on a scoring volley every living player gains a point and the high score becomes the larger of itself and the best score; otherwise no score changes; the high score never drops |
| `TwoPlayerGame.Game.CollisionRule` | game.js:260-286 | with no living player hit nothing changes; a hit raises the indicator stamped now in cheat mode and ends the game otherwise; players and fireballs are untouched |
| `TwoPlayerGame.Game.TickKeepsSound` | game.js:288-309 | a tick keeps two players with ids 1 and 2, directions in {1, -1}, the configured speeds, non-negative scores, a cleared wave flag and the cooldown at 2000; firing alone keeps this invariant too, and the steps after firing change only the fireballs, the running flag and the indicator |
| `TwoPlayerGame.Game.TickMotion` | game.js:288-296 | a stopped or paused game does not change; a running tick turns the alien, walks the players, fires when due and prunes, with at most three more fireballs and the cooldown at 2000 |
| `TwoPlayerGame.Game.TickScore` | game.js:180-195 | over a tick every living player gains exactly one point when a running game fires outside cheat mode with a positive `lastFireballTime`, and nobody else scores; the high score never drops and then bounds both scores |
| `TwoPlayerGame.Game.FirstVolleyScores` | game.js:179-188 | in a fresh running game with no fireball fired and a positive start time, every living player gains a point when the first volley fires outside cheat mode |
| `TwoPlayerGame.Game.TickCollision` | game.js:260-303 | after a tick the game runs unless a living player is hit outside cheat mode; a hit in cheat mode leaves the indicator stamped now; an indicator still up is at most 500 ms old |
| `TwoPlayerGame.Game.TickAngles` | game.js:236-258 | player angles and the alien's rotation in [0, 2π] stay there for configured speeds of at most a full turn |
| `TwoPlayerGame.Game.HandlePlayerInput` | game.js:160-175 | the players become `Tapped` of the old ones and nothing else changes |
| `TwoPlayerGame.Game.OnClick` | game.js:131-136 | a click is routed only while the game runs |
| `TwoPlayerGame.Game.OnTouchStart` | game.js:138-146 | while the game runs the loop routes every touch in order, leaving `Taps` of the old players |
| `TwoPlayerGame.Game.OnKeyDown` | game.js:149-157 | P toggles pause, C toggles cheat mode, other keys change nothing |
| `TwoPlayerGame.Game.RewardAlivePlayers` | game.js:184-189 | the `forEach` loop leaves exactly `RewardedAll` of the old players |
| `TwoPlayerGame.Game.PushVolley` | game.js:198-209 | the push loop appends exactly the configured volley |
| `TwoPlayerGame.Game.AwardWave` | game.js:180-196 | the scoring block leaves `Awarded` of the old state |
| `TwoPlayerGame.Game.CreateFireballs` | game.js:177-213 | the new state is `Fired` of the old one |
| `TwoPlayerGame.Game.UpdateFireballs` | game.js:215-234 | the backward splice loop leaves exactly `Advance` of the old list under the radius-plus-10 margin |
| `TwoPlayerGame.Game.UpdatePlayers` | game.js:236-250 | the `forEach` loop leaves exactly `WalkedAll` of the old players |
| `TwoPlayerGame.Game.UpdateAlien` | game.js:252-258 | the alien is spun |
| `TwoPlayerGame.Game.CheckCollisions` | game.js:260-286 | the loop over players leaves `Collided` of the old state; it goes on after a hit, as the `forEach` callback's `return` does, and after k players it has found a hit exactly when one of the first k living players is hit |
| `TwoPlayerGame.Game.Update` | game.js:288-309 | the new state is `Tick` of the old one |
| `TwoPlayerGame.Game.ExpireHitIndicator` | game.js:297-303 | the indicator goes down exactly when it is up and more than 500 ms old |
| `TwoPlayerGame.Game.TogglePause` | game.js:563-566 | pause flips while the game runs and nothing changes after game over |
| `TwoPlayerGame.Game.ToggleCheatMode` | game.js:568-570 | cheat mode always flips |
| `TwoPlayerGame.Game.GameOver` | game.js:650-655 | only `gameRunning` changes, to false |

## Left out

- Drawing, images and the DOM are left out. This covers every `draw*` method, image loading with its `*ImageLoaded` flags, `updateUI`, and the final-score display of `gameOver`. They only render.
- `localStorage`, `JSON.parse` and `parseInt` are left out. The constructors take the parsed saved configuration and the stored high score as parameters. `saveConfig` and `saveHighScore` write only to storage, so they have no state effect to model.
- The configuration is modelled with numeric values only. A saved non-numeric or `NaN` value, or a `NaN` high score, is not represented.
- `requestAnimationFrame`, `gameLoop` and listener registration are left out. The handlers are plain methods.
- `setupDebugControls` and its sliders are left out, since they are UI.
- `Date.now()` is a parameter `now`. The model reads the clock once per tick, whereas the source reads it separately in `createFireballs`, `checkCollisions` and the indicator timer.
- The initial `lastFireballTime` comes from `Date.now()` plus `Math.random()`. It is a constructor parameter, and an integer, where the source's value is fractional.
- `Math.cos` and `Math.sin` are a parameter `trig`. `Math.sqrt` is replaced by an exact comparison of squares.
- Numbers are exact reals, so floating-point rounding is not modelled. `Math.PI` and `Math.PI * 2` are the shortest decimals that round to those doubles, 3.141592653589793 and 6.283185307179586. They are not the doubles' exact values.
- `game.js` reads `window.innerHeight` and touch coordinates from the browser. These are method parameters.
- `TwoPlayerGame.Game.Update`: its difficulty step is not modelled, because it tests `this.score`, which `game.js` never sets. The comparison `undefined > 0` is false, so the step never changes the cooldown.
- Helper methods such as `PushVolley`, `AwardWave`, `ExpireHitIndicator` and `IncreaseDifficulty` are inline code of their callers. They are separate methods here only to keep each proof small, and they run in the same order and under the same conditions as the inline code.
- `GameBackup1.Game.UpdateFireballs` does not require or re-establish the game invariant itself. `Update` re-establishes it through `PruneRule`, as the source's loop works on any list.
