# Space gem collector: a verified model of the frame update

This project models the simulation core of `game.js`, a browser arcade game.
The player flies a spaceship with the arrow keys, collects falling gems for
points and dodges falling asteroids. Space triggers a speed booster that
lasts three seconds. Touching an asteroid resets the game: the score goes to
zero, every gem and asteroid disappears and the ship returns to its start
point.

The modules follow the structure of the script:

- `Geometry`: the rectangle collision test `isColliding`.
- `Entities`: the `Gem` and `Asteroid` objects. Each is a class whose `y`
  changes in place, and each has a `Body` value that describes it.
- `Ship`: the spaceship object (class `Spaceship`), its state as a value
  (`ShipState`), the guarded arrow-key movement and the booster.
- `Simulation`: the pure description of one call of `update()`. This module
  defines `Step`, one function per stage, and the lemmas about them.
- `Game`: class `World`, the script's global state. Its `Update` method does
  what the script does: it changes fields in place, pushes new entities and
  splices entities out inside index loops that behave like
  `Array.prototype.forEach`. `Update` is proved to leave exactly the state
  that `Simulation.Step` computes.

Both `forEach` loops are modelled the way JavaScript runs them:

- The loop visits each index below the length the array had when it started.
- An index that no longer exists at its turn gets no callback.
- Each callback sees whatever element sits at its index at that moment.

So the model keeps two behaviours of the source as they are:

- After a splice, the loop skips the removed entity's right-hand neighbour.
- A gem that falls below the playfield and also touches the ship is spliced
  twice at the same index. The second splice removes its neighbour, which is
  never collected.

The lemmas `SpliceSkipsNeighbour` and `OffscreenCollectionDropsNeighbour`
show both behaviours on concrete states.

The ship's moves are guarded, not clamped: the ship moves a full step
whenever it is strictly inside the border on that side. It can therefore end
up to one (boosted) step outside the playfield. `LeftMoveCanOvershoot` shows
this, and `NearPlayfield` is the bound the model proves instead.

## Model

| member | source | states |
|---|---|---|
| Arrays.Splice | game.js:147 | `splice(i, 1)` removes exactly the element at index i, keeping the elements before it and shifting those after it down by one; past the end it changes nothing, which the second splice at game.js:154 relies on |
| Geometry.IsColliding | game.js:95-102 | two rectangles collide exactly when they overlap on both axes as closed intervals, so touching edges count |
| Geometry.CollisionSymmetric | game.js:95-102 | the collision test gives the same answer with its arguments swapped |
| Geometry.TouchingVerticalEdgesCollide | game.js:95-102 | rectangles whose vertical edges coincide and whose rows overlap collide |
| Geometry.TouchingHorizontalEdgesCollide | game.js:95-102 | rectangles whose horizontal edges coincide and whose columns overlap collide |
| Geometry.SelfCollides | game.js:95-102 | a rectangle of non-negative size collides with itself |
| Geometry.GapSeparates | game.js:95-102 | a strict gap on either axis means no collision |
| Entities.NewGem | game.js:52-58 | a new gem is 30 by 30 and starts at y = -30; x lies in [0, width - 30) when its draw lies in [0, 1) and the canvas is wider than 30; speed lies in [2, 5) when its draw lies in [0, 1) |
| Entities.NewAsteroid | game.js:69-75 | a new asteroid is 40 by 40 and starts at y = -40; x lies in [0, width - 40) when its draw lies in [0, 1) and the canvas is wider than 40; speed lies in [3, 5) when its draw lies in [0, 1) |
| Entities.Fall | game.js:60-62 | one frame moves an entity down by exactly its speed and changes nothing else |
| Entities.Gem.constructor | game.js:52-58 | the constructed gem object has the value NewGem computes from the same draws |
| Entities.Gem.Update | game.js:60-62 | the gem's new value is its old value after one Fall |
| Entities.Asteroid.constructor | game.js:69-75 | the constructed asteroid object has the value NewAsteroid computes from the same draws |
| Entities.Asteroid.Update | game.js:77-79 | the asteroid's new value is its old value after one Fall |
| Ship.Movement | game.js:107-118 | each axis moves by the speed only for a pressed key and only while strictly inside that border; with no key the axis stays; with both keys of an axis held the second guard tests the already-moved coordinate, so the net move is 0, +speed or -speed case by case; speed and boost are untouched; one call moves at most one speed step per axis |
| Ship.OpposingKeysOnOneAxis | game.js:107-112 | holding Left and Right on an 800-wide canvas keeps x = 100, moves x = 0 to 5 and moves x = 755 to 750 |
| Ship.Activate | game.js:119-123 | Space with no running boost doubles the speed and sets the boost clock to now; otherwise nothing changes |
| Ship.Expire | game.js:125-129 | a boost older than 3000 ms ends and halves the speed; otherwise nothing changes |
| Ship.Boost | game.js:119-129 | the booster block never moves the ship; Space with no running boost starts one at double speed that survives the frame; otherwise a boost older than 3000 ms ends at half speed, and anything else is left as it was |
| Ship.BoostSurvivesItsOwnFrame | game.js:119-129 | a boost started in a frame is still on at the end of that frame, at twice the speed, with the clock at now |
| Ship.BoostRoundTrip | game.js:119-129 | activating a boost and expiring it later gives back exactly the original speed |
| Ship.BoostKeepsSpeedMatched | game.js:119-129 | if the speed is the base speed, doubled exactly while boosted, it stays so after the booster handling |
| Ship.MoveStaysNearPlayfield | game.js:107-118 | from within one boosted step of the playfield, a move at most the boosted speed stays within it |
| Ship.LeftMoveCanOvershoot | game.js:107-109 | a ship at x = 1 moving left ends at x = -4: the guard does not keep it on the playfield |
| Ship.Spaceship.constructor | game.js:31-39 | the ship starts at (width/2 - 25, height - 80) with speed 5 and no boost |
| Ship.Spaceship.Move | game.js:107-118 | the ship's new state is Movement of its old state |
| Ship.Spaceship.UpdateBooster | game.js:119-129 | the ship's new state is the activation, then the expiry, of its old state |
| Ship.Spaceship.ResetPosition | game.js:172-173 | the ship is back at the start point, with its speed and boost state kept |
| Simulation.Initial | game.js:6-49 | at load the score is 0, there are no gems or asteroids, the ship is at its start point at speed 5 without boost, both spawn clocks are the load time, and the game invariant holds |
| Simulation.SpawnGem | game.js:132-135 | a gem is appended exactly when more than 2000 ms passed since the last one; the new gem is NewGem and the clock becomes now; the existing gems and everything else stay |
| Simulation.SpawnAsteroid | game.js:138-141 | an asteroid is appended exactly when more than 1500 ms passed since the last one; the new asteroid is NewAsteroid and the clock becomes now; nothing else changes |
| Simulation.GemVisit | game.js:144-156 | one gem callback collects at most one gem, adds 10 per collected gem, never grows the array, and does nothing at an index past the end |
| Simulation.GemVisitCases | game.js:144-156 | a gem is collected exactly when its fallen box touches the ship; a gem that neither left nor touched just falls; one that did exactly one is removed; one that did both is removed together with its right-hand neighbour |
| Simulation.GemsAfter | game.js:144-156 | after k gem callbacks at most k gems are collected, the score has grown by 10 per gem, and the array has not grown; that no gem below the bottom edge survives is stated by GemsAfterKeepsNoneBelow |
| Simulation.GemLoop | game.js:144-156 | the whole gem loop collects at most as many gems as there were, and it adds 10 points for each; for pruning see GemsAfterKeepsNoneBelow |
| Simulation.Reset | game.js:165-174 | an asteroid collision zeroes the score, empties both arrays and puts the ship at its start point; speed, boost and spawn clocks are unchanged |
| Simulation.AsteroidVisit | game.js:159-175 | one asteroid callback either changes only the asteroid array (at most the same length) or handles one collision and leaves exactly the reset state; the spawn clocks and boost are never touched |
| Simulation.AsteroidVisitCases | game.js:159-175 | a collision is handled exactly when the fallen asteroid touches the ship, and then the game is reset even if the asteroid had left the playfield; otherwise the asteroid falls, and is removed if below the playfield |
| Simulation.AsteroidsAfter | game.js:159-175 | the asteroid callbacks never change the spawn clocks or the boost state, and change only the asteroid array when nothing collides; that no asteroid below the bottom edge survives is stated by AsteroidsAfterKeepsNoneBelow |
| Simulation.AsteroidLoopResetsAtMostOnce | game.js:159-175 | however many asteroids touch the ship, the loop resets at most once, because the reset empties the array; after a reset the state is the reset state |
| Simulation.Step | game.js:105-176 | a frame handles at most one asteroid collision and collects at most one gem more than there were before spawning |
| Simulation.StepKeepsInvariant | game.js:105-176 | a frame keeps the score a non-negative multiple of 10 and the speed equal to the base speed, doubled exactly while boosted |
| Simulation.StepResetsAtMostOnce | game.js:159-175 | a frame plays at most one collision; after one, the score is 0, both arrays are empty and the ship is at the start point with the boost state of this frame |
| Simulation.StepScoresCollectedGems | game.js:150-151 | in a frame without a collision, the score grows by exactly 10 per collected gem |
| Simulation.StepSpawnClocks | game.js:131-141 | after a frame each spawn clock is now exactly when its interval had passed, and is unchanged otherwise |
| Simulation.StepKeepsShipNearPlayfield | game.js:105-176 | over a whole frame, including a reset, the ship stays within one boosted step of the playfield |
| Simulation.SpliceKeepsNoneBelow | game.js:147 | splicing never introduces an entity below the playfield |
| Simulation.GemVisitKeepsNoneBelow | game.js:145-155 | a gem callback leaves no gem below the bottom edge if there was none before: a gem that fell past it is spliced |
| Simulation.GemsAfterKeepsNoneBelow | game.js:144-156 | the whole gem loop leaves no gem below the bottom edge; skipped gems keep their old position |
| Simulation.AsteroidVisitKeepsNoneBelow | game.js:160-174 | an asteroid callback leaves no asteroid or gem below the bottom edge: a fallen-past asteroid is spliced and a reset empties both arrays |
| Simulation.AsteroidsAfterKeepsNoneBelow | game.js:159-175 | the whole asteroid loop leaves no asteroid or gem below the bottom edge |
| Simulation.StepPrunes | game.js:105-176 | a frame that starts with no gem or asteroid below the bottom edge ends with none, for any canvas height of at least -30, since new entities start above the top |
| Simulation.SpliceSkipsNeighbour | game.js:144-148 | when a gem leaves the playfield and is spliced, the next gem is neither moved nor checked in that frame |
| Simulation.OffscreenCollectionDropsNeighbour | game.js:144-156 | a gem below the playfield that touches an overshooting ship is collected, and the second splice also drops its uncollected neighbour |
| Game.World.constructor | game.js:5-49 | the initial state: the ship at its start point, score 0, no entities, both spawn clocks at the load time |
| Game.World.Update | game.js:105-176 | one frame leaves exactly the state Simulation.Step describes, returns the gems collected and collisions handled (at most one), and keeps the game invariant |
| Game.World.MoveShip | game.js:107-129 | the ship moves, then its booster is handled; nothing else changes |
| Game.World.Spawn | game.js:131-141 | the state after both spawners is SpawnAsteroid of SpawnGem of the old state |
| Game.World.SpawnGemIfDue | game.js:132-135 | the state after the gem spawner is SpawnGem of the old state, with a fresh gem object when one is pushed |
| Game.World.SpawnAsteroidIfDue | game.js:138-141 | the state after the asteroid spawner is SpawnAsteroid of the old state |
| Game.World.UpdateGems | game.js:143-156 | the in-place gem loop leaves the gems and score that GemLoop computes, and it returns the number collected |
| Game.World.RunGemLoop | game.js:144-156 | the index loop with splices matches GemsAfter over the array's starting length |
| Game.World.VisitGem | game.js:145-155 | one callback: the gem object falls, is spliced if below the playfield, and on touching the ship scores 10 and is spliced again |
| Game.World.FallGem | game.js:145 | `gem.update()` on the gem at index i: that gem falls by one step and every other gem value is unchanged |
| Game.World.RemoveGem | game.js:147 | `gems.splice(i, 1)` on the gem objects and on their values alike, keeping the objects distinct |
| Game.World.GemLoopStep | game.js:144 | one forEach iteration: the callback runs only when index i still exists, and the gem state then equals GemsAfter for i + 1 callbacks |
| Game.World.UpdateAsteroids | game.js:158-175 | the in-place asteroid loop leaves the state AsteroidsAfter computes over the array's starting length, and it returns the collisions handled |
| Game.World.FallAsteroid | game.js:160 | `asteroid.update()` on the asteroid at index i: that asteroid falls by one step and every other asteroid value is unchanged |
| Game.World.RemoveAsteroid | game.js:162 | `asteroids.splice(i, 1)` on the asteroid objects and on their values alike, keeping the objects distinct |
| Game.World.AsteroidLoopStep | game.js:159 | one forEach iteration: the callback runs only when index i still exists, and the state then equals AsteroidsAfter for i + 1 callbacks |
| Game.World.VisitAsteroid | game.js:160-174 | one callback: the asteroid object falls, is spliced if below the playfield, and on touching the ship resets score, arrays and ship position |

## Left out

- Drawing (`draw`, the `draw` methods, the images) and the `gameLoop` / `requestAnimationFrame` scheduling: they only render, and the model treats each call of `update()` as one `Step`.
- Sound (`play()` calls): each collect or collision sound is counted instead, as `collected` and `collisions`.
- The score element on the page (`innerText`): it only mirrors `score`.
- The key listeners: the pressed keys come in as a set of key codes, namely the codes whose last event was a key-down.
- The clock and randomness: `Date.now()` is one parameter `now` per frame, and the `Math.random()` results are the four values of `Draws`. The source reads the clock several times in a frame, and the model assumes that all of those reads agree. The same holds at load time: game.js:44 and game.js:49 read the clock separately for the two spawn clocks, and the model gives both the one value `now`.
- The canvas and the HTML page are not part of this model. The canvas size is a pair of constructor parameters.
- Numbers are mathematical reals for positions and speeds, and integers for milliseconds. IEEE double rounding is not modelled.
- Ship.MoveStaysNearPlayfield: the source never clamps the ship. The model proves that the ship stays within one boosted step (10 pixels) of the playfield, not that it stays on the playfield.
- Simulation.StepKeepsShipNearPlayfield: this is stated only for a canvas wide and tall enough that the start point lies within that band (width > 30, height > 70).
