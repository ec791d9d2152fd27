/** One frame of the game, as a function of the state before it: movement,
    booster, spawning, the gem loop and the asteroid loop, in that order.
    The loops follow `Array.prototype.forEach` exactly: the number of
    callbacks is the array's length when the loop starts, a callback runs
    only for an index the array still has, and each callback sees the element
    that is at its index at that moment, so removing an element makes the
    loop skip its right-hand neighbour. */
module Simulation {
  import opened Geometry
  import opened Entities
  import opened Ship
  import opened Arrays

  /** Milliseconds between two gem spawns, and between two asteroid spawns. */
  const GemInterval: int := 2000
  const AsteroidInterval: int := 1500
  /** Points for one collected gem. */
  const GemReward: int := 10

  /** The game's mutable state: the spaceship, the score, the two entity
      arrays, and the two spawn clocks. */
  datatype WorldState = WorldState(
    ship: ShipState,
    score: int,
    gems: seq<Body>,
    asteroids: seq<Body>,
    lastGemTime: int,
    lastAsteroidTime: int)

  /** The values `Math.random()` returns in a frame: two for a new gem
      (position, speed) and two for a new asteroid. */
  datatype Draws = Draws(gemX: real, gemSpeed: real, asteroidX: real, asteroidSpeed: real)

  /** A state part-way through the asteroid loop, with the number of
      collisions it has handled so far (collision sounds). */
  datatype Progress = Progress(world: WorldState, events: nat)

  /** The state after a frame, with the number of gems collected and of
      asteroid collisions handled in it. */
  datatype Outcome = Outcome(world: WorldState, collected: nat, collisions: nat)

  /** The state when the script starts, at time `now`. */
  function Initial(gameWidth: real, gameHeight: real, now: int): (r: WorldState)
    ensures r.score == 0 && r.gems == [] && r.asteroids == []
    ensures r.ship.x == StartX(gameWidth) && r.ship.y == StartY(gameHeight)
    ensures r.ship.speed == BaseSpeed && !r.ship.booster
    ensures r.lastGemTime == now && r.lastAsteroidTime == now
    ensures Invariant(r)
  {
    WorldState(Start(gameWidth, gameHeight), 0, [], [], now, now)
  }

  /** What the game keeps true from frame to frame: the score is a
      non-negative multiple of the gem reward, and the speed is the base
      speed, doubled exactly while boosted. */
  ghost predicate Invariant(w: WorldState)
  {
    w.score >= 0 && w.score % GemReward == 0 && SpeedMatchesBoost(w.ship)
  }

  /** The gem spawner: a gem is appended exactly when more than
      GemInterval milliseconds have passed since the last one, and then the
      gem clock is set to now. Nothing else changes. */
  function SpawnGem(w: WorldState, now: int, gameWidth: real, rx: real, rs: real): (r: WorldState)
    ensures |r.gems| == |w.gems| || |r.gems| == |w.gems| + 1
    ensures (|r.gems| == |w.gems| + 1) <==> now - w.lastGemTime > GemInterval
    ensures r.gems[..|w.gems|] == w.gems
    ensures |r.gems| > |w.gems| ==> r.gems[|w.gems|] == NewGem(gameWidth, rx, rs) && r.lastGemTime == now
    ensures |r.gems| == |w.gems| ==> r.lastGemTime == w.lastGemTime
    ensures r.(gems := w.gems, lastGemTime := w.lastGemTime) == w
  {
    if now - w.lastGemTime > GemInterval then
      w.(gems := w.gems + [NewGem(gameWidth, rx, rs)], lastGemTime := now)
    else
      w
  }

  /** The asteroid spawner, with its own clock and AsteroidInterval. */
  function SpawnAsteroid(w: WorldState, now: int, gameWidth: real, rx: real, rs: real): (r: WorldState)
    ensures |r.asteroids| == |w.asteroids| || |r.asteroids| == |w.asteroids| + 1
    ensures (|r.asteroids| == |w.asteroids| + 1) <==> now - w.lastAsteroidTime > AsteroidInterval
    ensures r.asteroids[..|w.asteroids|] == w.asteroids
    ensures |r.asteroids| > |w.asteroids| ==>
              r.asteroids[|w.asteroids|] == NewAsteroid(gameWidth, rx, rs) && r.lastAsteroidTime == now
    ensures |r.asteroids| == |w.asteroids| ==> r.lastAsteroidTime == w.lastAsteroidTime
    ensures r.(asteroids := w.asteroids, lastAsteroidTime := w.lastAsteroidTime) == w
  {
    if now - w.lastAsteroidTime > AsteroidInterval then
      w.(asteroids := w.asteroids + [NewAsteroid(gameWidth, rx, rs)], lastAsteroidTime := now)
    else
      w
  }

  /** The part of the state the gem loop changes: the gem array and the
      score, with the number of gems collected so far (collect sounds). */
  datatype GemPass = GemPass(gems: seq<Body>, score: int, collected: nat)

  /** One callback of the gem loop, for index i: the gem there falls; if it
      is below the playfield it is spliced out; then, whether or not it was,
      if it touches the ship the score grows by the reward and index i is
      spliced once more. */
  function GemVisit(ship: Rect, p: GemPass, i: nat, gameHeight: real): (r: GemPass)
    ensures r.collected == p.collected || r.collected == p.collected + 1
    ensures r.score == p.score + GemReward * (r.collected - p.collected)
    ensures |r.gems| <= |p.gems|
    ensures i >= |p.gems| ==> r == p
  {
    if i >= |p.gems| then p
    else
      var g := Fall(p.gems[i]);
      var fallen := p.gems[i := g];
      var pruned := if g.y > gameHeight then Splice(fallen, i) else fallen;
      if IsColliding(ship, BoxOf(g)) then
        GemPass(Splice(pruned, i), p.score + GemReward, p.collected + 1)
      else
        GemPass(pruned, p.score, p.collected)
  }

  /** GemVisit at an index inside the array, in terms of what the callback
      produces: whether the gem touched the ship, the new array and score. */
  lemma GemVisitFrom(ship: Rect, p: GemPass, i: nat, gameHeight: real, hit: bool, gems: seq<Body>, score: int)
    requires i < |p.gems|
    requires var g := Fall(p.gems[i]);
             var pruned := if g.y > gameHeight then Splice(p.gems[i := g], i) else p.gems[i := g];
             hit == IsColliding(ship, BoxOf(g)) &&
             gems == (if hit then Splice(pruned, i) else pruned) &&
             score == p.score + (if hit then GemReward else 0)
    ensures GemVisit(ship, p, i, gameHeight) == GemPass(gems, score, if hit then p.collected + 1 else p.collected)
  {
  }

  /** The gem loop after its first k callbacks. */
  function GemsAfter(ship: Rect, p: GemPass, k: nat, gameHeight: real): (r: GemPass)
    ensures p.collected <= r.collected <= p.collected + k
    ensures r.score == p.score + GemReward * (r.collected - p.collected)
    ensures |r.gems| <= |p.gems|
  {
    if k == 0 then p else GemVisit(ship, GemsAfter(ship, p, k - 1, gameHeight), k - 1, gameHeight)
  }

  /** What one gem callback does to the array, case by case: a gem that
      neither left the playfield nor touched the ship just falls; one that did
      exactly one of the two is removed; one that did both is removed
      together with its right-hand neighbour, which is not collected. */
  lemma GemVisitCases(ship: Rect, p: GemPass, i: nat, gameHeight: real)
    requires i < |p.gems|
    ensures var s := p.gems;
            var g := Fall(s[i]);
            var hit := IsColliding(ship, BoxOf(g));
            var r := GemVisit(ship, p, i, gameHeight);
            && (r.collected == p.collected + 1 <==> hit)
            && (!hit && g.y <= gameHeight ==> r.gems == s[i := g])
            && (hit != (g.y > gameHeight) ==> r.gems == s[..i] + s[i + 1..])
            && (hit && g.y > gameHeight ==>
                  r.gems == s[..i] + (if i + 1 < |s| then s[i + 2..] else []))
  {
    var s := p.gems;
    var fallen := s[i := Fall(s[i])];
    assert Splice(fallen, i) == s[..i] + s[i + 1..];
    if i + 1 < |s| {
      assert Splice(Splice(fallen, i), i) == s[..i] + s[i + 2..];
    }
  }

  /** The gem loop of a frame, applied to the whole state: it runs over the
      gems present when it starts, against the ship where it stands. */
  function GemLoop(w: WorldState, gameHeight: real): (r: GemPass)
    ensures r.collected <= |w.gems|
    ensures r.score == w.score + GemReward * r.collected
  {
    GemsAfter(ShipBox(w.ship), GemPass(w.gems, w.score, 0), |w.gems|, gameHeight)
  }

  /** The effect of an asteroid collision: score zero, both arrays emptied,
      the ship back at its start point with its speed and boost kept. */
  function Reset(w: WorldState, gameWidth: real, gameHeight: real): (r: WorldState)
    ensures r.score == 0 && r.gems == [] && r.asteroids == []
    ensures r.ship == w.ship.(x := StartX(gameWidth), y := StartY(gameHeight))
    ensures r.lastGemTime == w.lastGemTime && r.lastAsteroidTime == w.lastAsteroidTime
  {
    w.(score := 0, gems := [], asteroids := [],
       ship := w.ship.(x := gameWidth / 2.0 - 25.0, y := gameHeight - 80.0))
  }

  /** One callback of the asteroid loop, for index i: the asteroid there
      falls; if it is below the playfield it is spliced out; then, whether or
      not it was, if it touches the ship the game is reset. */
  function AsteroidVisit(p: Progress, i: nat, gameWidth: real, gameHeight: real): (r: Progress)
    ensures r.events == p.events || r.events == p.events + 1
    ensures r.world.lastGemTime == p.world.lastGemTime
    ensures r.world.lastAsteroidTime == p.world.lastAsteroidTime
    ensures r.world.ship.(x := p.world.ship.x, y := p.world.ship.y) == p.world.ship
    ensures r.events == p.events ==>
              r.world.(asteroids := p.world.asteroids) == p.world &&
              |r.world.asteroids| <= |p.world.asteroids|
    ensures r.events == p.events + 1 ==> r.world == Reset(p.world, gameWidth, gameHeight)
    ensures i >= |p.world.asteroids| ==> r == p
  {
    var w := p.world;
    if i >= |w.asteroids| then p
    else
      var a := Fall(w.asteroids[i]);
      var fallen := w.asteroids[i := a];
      var pruned := if a.y > gameHeight then Splice(fallen, i) else fallen;
      if IsColliding(ShipBox(w.ship), BoxOf(a)) then
        Progress(Reset(w.(asteroids := pruned), gameWidth, gameHeight), p.events + 1)
      else
        Progress(w.(asteroids := pruned), p.events)
  }

  /** AsteroidVisit at an index inside the array, in terms of what the
      callback produces: whether the asteroid touched the ship, and the new
      state. */
  lemma AsteroidVisitFrom(p: Progress, i: nat, gameWidth: real, gameHeight: real, hit: bool, world: WorldState)
    requires i < |p.world.asteroids|
    requires var a := Fall(p.world.asteroids[i]);
             var fallen := p.world.asteroids[i := a];
             var pruned := p.world.(asteroids := if a.y > gameHeight then Splice(fallen, i) else fallen);
             hit == IsColliding(ShipBox(p.world.ship), BoxOf(a)) &&
             world == (if hit then Reset(pruned, gameWidth, gameHeight) else pruned)
    ensures AsteroidVisit(p, i, gameWidth, gameHeight) == Progress(world, if hit then p.events + 1 else p.events)
  {
  }

  /** The asteroid loop after its first k callbacks. */
  function AsteroidsAfter(p: Progress, k: nat, gameWidth: real, gameHeight: real): (r: Progress)
    ensures r.events >= p.events
    ensures r.world.lastGemTime == p.world.lastGemTime
    ensures r.world.lastAsteroidTime == p.world.lastAsteroidTime
    ensures r.world.ship.(x := p.world.ship.x, y := p.world.ship.y) == p.world.ship
    ensures r.events == p.events ==> r.world.(asteroids := p.world.asteroids) == p.world
  {
    if k == 0 then p else AsteroidVisit(AsteroidsAfter(p, k - 1, gameWidth, gameHeight), k - 1, gameWidth, gameHeight)
  }

  /** What one asteroid callback does, case by case: without a collision,
      the asteroid falls, and is removed if it left the playfield; with one,
      the game is reset, even when the asteroid had already left. */
  lemma AsteroidVisitCases(p: Progress, i: nat, gameWidth: real, gameHeight: real)
    requires i < |p.world.asteroids|
    ensures var s := p.world.asteroids;
            var a := Fall(s[i]);
            var hit := IsColliding(ShipBox(p.world.ship), BoxOf(a));
            var r := AsteroidVisit(p, i, gameWidth, gameHeight);
            && (r.events == p.events + 1 <==> hit)
            && (hit ==> r.world == Reset(p.world, gameWidth, gameHeight))
            && (!hit && a.y <= gameHeight ==> r.world.asteroids == s[i := a])
            && (!hit && a.y > gameHeight ==> r.world.asteroids == s[..i] + s[i + 1..])
  {
    var s := p.world.asteroids;
    assert Splice(s[i := Fall(s[i])], i) == s[..i] + s[i + 1..];
  }

  /** However many asteroids touch the ship, the asteroid loop resets the game
      at most once: the reset empties the array, which ends the loop. After a
      reset the state is exactly the reset state. */
  lemma {:induction false} AsteroidLoopResetsAtMostOnce(p: Progress, k: nat, gameWidth: real, gameHeight: real)
    requires p.events == 0
    ensures AsteroidsAfter(p, k, gameWidth, gameHeight).events <= 1
    ensures var r := AsteroidsAfter(p, k, gameWidth, gameHeight);
            r.events == 1 ==>
              r.world.score == 0 && r.world.gems == [] && r.world.asteroids == [] &&
              r.world.ship.x == StartX(gameWidth) && r.world.ship.y == StartY(gameHeight)
  {
    if k > 0 {
      AsteroidLoopResetsAtMostOnce(p, k - 1, gameWidth, gameHeight);
    }
  }

  /** One frame of the game. The ship moves with the speed it had at the
      start of the frame; the booster is handled next; then the spawners run;
      then the gem loop over the gems present after spawning; then the
      asteroid loop. */
  function Step(w: WorldState, keys: set<string>, now: int, d: Draws, gameWidth: real, gameHeight: real): (r: Outcome)
    ensures r.collisions <= 1
    ensures r.collected <= |w.gems| + 1
  {
    var ship := Boost(Movement(w.ship, keys, gameWidth, gameHeight), keys, now);
    var withGem := SpawnGem(w.(ship := ship), now, gameWidth, d.gemX, d.gemSpeed);
    var spawned := SpawnAsteroid(withGem, now, gameWidth, d.asteroidX, d.asteroidSpeed);
    var g := GemLoop(spawned, gameHeight);
    var afterGems := spawned.(gems := g.gems, score := g.score);
    AsteroidLoopResetsAtMostOnce(Progress(afterGems, 0), |afterGems.asteroids|, gameWidth, gameHeight);
    var afterAsteroids := AsteroidsAfter(Progress(afterGems, 0), |afterGems.asteroids|, gameWidth, gameHeight);
    Outcome(afterAsteroids.world, g.collected, afterAsteroids.events)
  }

  /** A frame keeps the score a non-negative multiple of the reward and the
      speed matched to the boost state. */
  lemma StepKeepsInvariant(w: WorldState, keys: set<string>, now: int, d: Draws, gameWidth: real, gameHeight: real)
    requires Invariant(w)
    ensures Invariant(Step(w, keys, now, d, gameWidth, gameHeight).world)
  {
    var ship := Boost(Movement(w.ship, keys, gameWidth, gameHeight), keys, now);
    BoostKeepsSpeedMatched(Movement(w.ship, keys, gameWidth, gameHeight), keys, now);
    var spawned := SpawnAsteroid(SpawnGem(w.(ship := ship), now, gameWidth, d.gemX, d.gemSpeed), now, gameWidth, d.asteroidX, d.asteroidSpeed);
    var g := GemLoop(spawned, gameHeight);
    var afterGems := spawned.(gems := g.gems, score := g.score);
    RewardsKeepMultiple(spawned.score, g.collected);
    assert Invariant(afterGems);
    AsteroidLoopResetsAtMostOnce(Progress(afterGems, 0), |afterGems.asteroids|, gameWidth, gameHeight);
  }

  /** Adding whole rewards to a non-negative multiple of the reward gives
      one again. */
  lemma RewardsKeepMultiple(score: int, collected: nat)
    requires score >= 0 && score % GemReward == 0
    ensures score + GemReward * collected >= 0 && (score + GemReward * collected) % GemReward == 0
  {
    var q := score / GemReward;
    assert score == GemReward * q;
    assert score + GemReward * collected == GemReward * (q + collected);
  }

  /** At most one collision sound and one reset per frame; a frame with a
      collision ends in the reset state, with the speed and boost the booster
      handling left. */
  lemma StepResetsAtMostOnce(w: WorldState, keys: set<string>, now: int, d: Draws, gameWidth: real, gameHeight: real)
    ensures var o := Step(w, keys, now, d, gameWidth, gameHeight);
            o.collisions <= 1 &&
            (o.collisions == 1 ==>
              o.world.score == 0 && o.world.gems == [] && o.world.asteroids == [] &&
              o.world.ship == Boost(Movement(w.ship, keys, gameWidth, gameHeight), keys, now)
                                .(x := StartX(gameWidth), y := StartY(gameHeight)))
  {
    var ship := Boost(Movement(w.ship, keys, gameWidth, gameHeight), keys, now);
    var spawned := SpawnAsteroid(SpawnGem(w.(ship := ship), now, gameWidth, d.gemX, d.gemSpeed), now, gameWidth, d.asteroidX, d.asteroidSpeed);
    var g := GemLoop(spawned, gameHeight);
    var afterGems := spawned.(gems := g.gems, score := g.score);
    AsteroidLoopResetsAtMostOnce(Progress(afterGems, 0), |afterGems.asteroids|, gameWidth, gameHeight);
  }

  /** A frame without an asteroid collision adds exactly the reward for each
      collected gem to the score. */
  lemma StepScoresCollectedGems(w: WorldState, keys: set<string>, now: int, d: Draws, gameWidth: real, gameHeight: real)
    ensures var o := Step(w, keys, now, d, gameWidth, gameHeight);
            o.collisions == 0 ==> o.world.score == w.score + GemReward * o.collected
  {
  }

  /** Each frame spawns at most one gem and one asteroid, and a spawn clock is
      set to now exactly when its spawner fires. */
  lemma StepSpawnClocks(w: WorldState, keys: set<string>, now: int, d: Draws, gameWidth: real, gameHeight: real)
    ensures var o := Step(w, keys, now, d, gameWidth, gameHeight);
            o.world.lastGemTime == (if now - w.lastGemTime > GemInterval then now else w.lastGemTime) &&
            o.world.lastAsteroidTime == (if now - w.lastAsteroidTime > AsteroidInterval then now else w.lastAsteroidTime)
  {
  }

  /** The ship never strays more than one boosted step outside the playfield,
      provided the playfield is large enough for the start point to lie in
      that band. */
  lemma StepKeepsShipNearPlayfield(w: WorldState, keys: set<string>, now: int, d: Draws, gameWidth: real, gameHeight: real)
    requires Invariant(w) && NearPlayfield(w.ship, gameWidth, gameHeight)
    requires gameWidth > 30.0 && gameHeight > 70.0
    ensures NearPlayfield(Step(w, keys, now, d, gameWidth, gameHeight).world.ship, gameWidth, gameHeight)
  {
    MoveStaysNearPlayfield(w.ship, keys, gameWidth, gameHeight);
    StepResetsAtMostOnce(w, keys, now, d, gameWidth, gameHeight);
  }

  /** No entity in the sequence lies below the bottom edge of the playfield. */
  ghost predicate NoneBelow(s: seq<Body>, gameHeight: real)
  {
    forall j :: 0 <= j < |s| ==> s[j].y <= gameHeight
  }

  lemma SpliceKeepsNoneBelow(s: seq<Body>, i: nat, gameHeight: real)
    requires NoneBelow(s, gameHeight)
    ensures NoneBelow(Splice(s, i), gameHeight)
  {
  }

  /** A gem callback never leaves a gem below the playfield: the visited gem
      is spliced out once it has fallen past the edge, and the other gems
      keep their places. */
  lemma GemVisitKeepsNoneBelow(ship: Rect, p: GemPass, i: nat, gameHeight: real)
    requires NoneBelow(p.gems, gameHeight)
    ensures NoneBelow(GemVisit(ship, p, i, gameHeight).gems, gameHeight)
  {
    if i < |p.gems| {
      var g := Fall(p.gems[i]);
      var fallen := p.gems[i := g];
      var pruned := if g.y > gameHeight then Splice(fallen, i) else fallen;
      if g.y > gameHeight {
        assert NoneBelow(Splice(fallen, i), gameHeight);
      }
      SpliceKeepsNoneBelow(pruned, i, gameHeight);
    }
  }

  lemma {:induction false} GemsAfterKeepsNoneBelow(ship: Rect, p: GemPass, k: nat, gameHeight: real)
    requires NoneBelow(p.gems, gameHeight)
    ensures NoneBelow(GemsAfter(ship, p, k, gameHeight).gems, gameHeight)
  {
    if k > 0 {
      GemsAfterKeepsNoneBelow(ship, p, k - 1, gameHeight);
      GemVisitKeepsNoneBelow(ship, GemsAfter(ship, p, k - 1, gameHeight), k - 1, gameHeight);
    }
  }

  /** An asteroid callback leaves no asteroid and no gem below the playfield:
      the visited asteroid is spliced out once past the edge, and a reset
      empties both arrays. */
  lemma AsteroidVisitKeepsNoneBelow(p: Progress, i: nat, gameWidth: real, gameHeight: real)
    requires NoneBelow(p.world.gems, gameHeight) && NoneBelow(p.world.asteroids, gameHeight)
    ensures var r := AsteroidVisit(p, i, gameWidth, gameHeight);
            NoneBelow(r.world.gems, gameHeight) && NoneBelow(r.world.asteroids, gameHeight)
  {
    var s := p.world.asteroids;
    if i < |s| {
      var a := Fall(s[i]);
      if a.y > gameHeight {
        assert NoneBelow(Splice(s[i := a], i), gameHeight);
      }
    }
  }

  lemma {:induction false} AsteroidsAfterKeepsNoneBelow(p: Progress, k: nat, gameWidth: real, gameHeight: real)
    requires NoneBelow(p.world.gems, gameHeight) && NoneBelow(p.world.asteroids, gameHeight)
    ensures var r := AsteroidsAfter(p, k, gameWidth, gameHeight);
            NoneBelow(r.world.gems, gameHeight) && NoneBelow(r.world.asteroids, gameHeight)
  {
    if k > 0 {
      AsteroidsAfterKeepsNoneBelow(p, k - 1, gameWidth, gameHeight);
      AsteroidVisitKeepsNoneBelow(AsteroidsAfter(p, k - 1, gameWidth, gameHeight), k - 1, gameWidth, gameHeight);
    }
  }

  /** Off-screen pruning over a whole frame: if no gem or asteroid was below
      the playfield before the frame, none is after it. New entities start
      above the top edge, at y = -30 or -40, so any canvas height of at least
      -30 will do. */
  lemma StepPrunes(w: WorldState, keys: set<string>, now: int, d: Draws, gameWidth: real, gameHeight: real)
    requires NoneBelow(w.gems, gameHeight) && NoneBelow(w.asteroids, gameHeight)
    requires gameHeight >= -GemSize
    ensures var o := Step(w, keys, now, d, gameWidth, gameHeight);
            NoneBelow(o.world.gems, gameHeight) && NoneBelow(o.world.asteroids, gameHeight)
  {
    var ship := Boost(Movement(w.ship, keys, gameWidth, gameHeight), keys, now);
    var withGem := SpawnGem(w.(ship := ship), now, gameWidth, d.gemX, d.gemSpeed);
    var spawned := SpawnAsteroid(withGem, now, gameWidth, d.asteroidX, d.asteroidSpeed);
    assert NoneBelow(spawned.gems, gameHeight);
    assert NoneBelow(spawned.asteroids, gameHeight);
    GemsAfterKeepsNoneBelow(ShipBox(spawned.ship), GemPass(spawned.gems, spawned.score, 0), |spawned.gems|, gameHeight);
    var g := GemLoop(spawned, gameHeight);
    var afterGems := spawned.(gems := g.gems, score := g.score);
    AsteroidsAfterKeepsNoneBelow(Progress(afterGems, 0), |afterGems.asteroids|, gameWidth, gameHeight);
  }

  /** Splicing out a gem makes the loop skip the next one: here the first gem
      leaves the playfield and the second is neither moved nor checked. */
  lemma SpliceSkipsNeighbour()
    ensures var ship := ShipState(375.0, 520.0, BaseSpeed, false, 0);
            var gems := [Body(700.0, 595.0, 30.0, 30.0, 10.0), Body(100.0, 100.0, 30.0, 30.0, 3.0)];
            GemsAfter(ShipBox(ship), GemPass(gems, 0, 0), 2, 600.0).gems == [Body(100.0, 100.0, 30.0, 30.0, 3.0)]
  {
  }

  /** A gem that has just left the playfield can still touch a ship that has
      overshot the bottom border; it is then collected, and the second splice
      removes its neighbour as well, which is never collected. */
  lemma OffscreenCollectionDropsNeighbour()
    ensures var ship := ShipState(100.0, 559.0, BaseSpeed, false, 0);
            var gems := [Body(110.0, 595.0, 30.0, 30.0, 10.0), Body(500.0, 100.0, 30.0, 30.0, 3.0)];
            var r := GemsAfter(ShipBox(ship), GemPass(gems, 0, 0), 2, 600.0);
            r.gems == [] && r.score == GemReward && r.collected == 1
  {
  }
}
