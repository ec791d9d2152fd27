/** The game's global state and its per-frame `update()`, written as the
    script writes it: fields changed in place, entities pushed and spliced
    inside index loops. Each method is proved to produce exactly the state
    the pure model in Simulation describes. */
module Game {
  import opened Geometry
  import opened Entities
  import opened Ship
  import opened Simulation
  import opened Arrays

  class World {
    /** The canvas size; fixed once the page is loaded. */
    const gameWidth: real
    const gameHeight: real

    const ship: Spaceship
    var score: int
    var gems: seq<Gem>
    var asteroids: seq<Asteroid>
    var lastGemTime: int
    var lastAsteroidTime: int

    /** The abstract value of the whole game state. */
    function View(): (r: WorldState)
      reads this, ship, gems, asteroids
    {
      WorldState(ship.State(), score, GemValues(gems), AsteroidValues(asteroids), lastGemTime, lastAsteroidTime)
    }

    ghost predicate Valid()
      reads this, ship, gems, asteroids
    {
      Distinct(gems) && Distinct(asteroids) && Invariant(View())
    }

    /** The script's start-up: the ship at its start point, score 0, no
        entities, both spawn clocks at the load time `now`. */
    constructor (gameWidth: real, gameHeight: real, now: int)
      ensures Valid()
      ensures this.gameWidth == gameWidth && this.gameHeight == gameHeight
      ensures View() == Initial(gameWidth, gameHeight, now)
      ensures fresh(ship)
    {
      this.gameWidth := gameWidth;
      this.gameHeight := gameHeight;
      ship := new Spaceship(gameWidth, gameHeight);
      score := 0;
      gems := [];
      asteroids := [];
      lastGemTime := now;
      lastAsteroidTime := now;
    }

    /** One frame: `keys` holds the codes currently pressed, `now` is the
        clock and `d` the random draws. Returns how many gems were collected
        (collect sounds) and how many asteroid collisions were handled
        (collision sounds). */
    method Update(keys: set<string>, now: int, d: Draws) returns (collected: nat, collisions: nat)
      requires Valid()
      modifies this, ship, gems, asteroids
      ensures Valid()
      ensures Outcome(View(), collected, collisions) == Step(old(View()), keys, now, d, gameWidth, gameHeight)
      ensures collisions <= 1
    {
      ghost var w0 := View();
      MoveShip(keys, now);
      ghost var w1 := View();
      Spawn(now, d);
      ghost var spawned := View();
      collected := UpdateGems();
      ghost var g := GemLoop(spawned, gameHeight);
      collisions := UpdateAsteroids();
      assert Outcome(View(), collected, collisions) == Step(w0, keys, now, d, gameWidth, gameHeight);
      assert Invariant(View()) by {
        StepKeepsInvariant(w0, keys, now, d, gameWidth, gameHeight);
      }
      assert collisions <= 1 by {
        StepResetsAtMostOnce(w0, keys, now, d, gameWidth, gameHeight);
      }
    }

    /** The ship's part of the frame: the arrow keys, then the booster. */
    method MoveShip(keys: set<string>, now: int)
      modifies ship
      ensures View() == old(View()).(ship := Boost(Movement(old(ship.State()), keys, gameWidth, gameHeight), keys, now))
    {
      ship.Move(keys, gameWidth, gameHeight);
      ship.UpdateBooster(keys, now);
    }

    /** The two spawners: at most one new gem and one new asteroid, each only
        when its interval has passed, with its clock then set to now. */
    method Spawn(now: int, d: Draws)
      requires Distinct(gems) && Distinct(asteroids)
      modifies this`gems, this`asteroids, this`lastGemTime, this`lastAsteroidTime
      ensures Distinct(gems) && Distinct(asteroids)
      ensures forall j :: 0 <= j < |gems| ==> gems[j] in old(gems) || fresh(gems[j])
      ensures forall j :: 0 <= j < |asteroids| ==> asteroids[j] in old(asteroids) || fresh(asteroids[j])
      ensures View() == SpawnAsteroid(SpawnGem(old(View()), now, gameWidth, d.gemX, d.gemSpeed),
                                      now, gameWidth, d.asteroidX, d.asteroidSpeed)
    {
      SpawnGemIfDue(now, d.gemX, d.gemSpeed);
      SpawnAsteroidIfDue(now, d.asteroidX, d.asteroidSpeed);
    }

    /** The gem spawner: a new gem when more than GemInterval milliseconds
        have passed since the last one. */
    method SpawnGemIfDue(now: int, rx: real, rs: real)
      requires Distinct(gems)
      modifies this`gems, this`lastGemTime
      ensures Distinct(gems)
      ensures forall j :: 0 <= j < |gems| ==> gems[j] in old(gems) || fresh(gems[j])
      ensures View() == SpawnGem(old(View()), now, gameWidth, rx, rs)
    {
      if now - lastGemTime > GemInterval {
        ghost var w := View();
        var g := new Gem(gameWidth, rx, rs);
        assert View() == w;
        GemValuesPush(gems, g);
        PushKeepsDistinct(gems, g);
        gems := gems + [g];
        lastGemTime := now;
        assert View() == w.(gems := w.gems + [g.Value()], lastGemTime := now);
      }
    }

    /** The asteroid spawner: a new asteroid when more than AsteroidInterval
        milliseconds have passed since the last one. */
    method SpawnAsteroidIfDue(now: int, rx: real, rs: real)
      requires Distinct(asteroids)
      modifies this`asteroids, this`lastAsteroidTime
      ensures Distinct(asteroids)
      ensures forall j :: 0 <= j < |asteroids| ==> asteroids[j] in old(asteroids) || fresh(asteroids[j])
      ensures View() == SpawnAsteroid(old(View()), now, gameWidth, rx, rs)
    {
      if now - lastAsteroidTime > AsteroidInterval {
        ghost var w := View();
        var a := new Asteroid(gameWidth, rx, rs);
        assert View() == w;
        AsteroidValuesPush(asteroids, a);
        PushKeepsDistinct(asteroids, a);
        asteroids := asteroids + [a];
        lastAsteroidTime := now;
        assert View() == w.(asteroids := w.asteroids + [a.Value()], lastAsteroidTime := now);
      }
    }

    /** The gem loop of a frame, on the state as a whole. */
    method UpdateGems() returns (collected: nat)
      requires Distinct(gems)
      modifies this`gems, this`score, gems
      ensures Distinct(gems)
      ensures var g := GemLoop(old(View()), gameHeight);
              View() == old(View()).(gems := g.gems, score := g.score) && collected == g.collected
    {
      collected := RunGemLoop();
    }

    /** The gem loop: `gems.forEach` over the length the array had when the
        loop began. */
    method RunGemLoop() returns (collected: nat)
      requires Distinct(gems)
      modifies this`gems, this`score, gems
      ensures Distinct(gems)
      ensures GemPass(GemValues(gems), score, collected) ==
              GemsAfter(ShipBox(ship.State()), GemPass(old(GemValues(gems)), old(score), 0), old(|gems|), gameHeight)
    {
      ghost var ship0 := ShipBox(ship.State());
      ghost var p0 := GemPass(GemValues(gems), score, 0);
      var n := |gems|;
      var i := 0;
      collected := 0;
      while i < n
        invariant 0 <= i <= n
        invariant Distinct(gems)
        invariant forall g :: g in gems ==> g in old(gems)
        invariant GemPass(GemValues(gems), score, collected) == GemsAfter(ship0, p0, i, gameHeight)
      {
        assert forall j :: 0 <= j < |gems| ==> gems[j] in old(gems);
        var hit := GemLoopStep(i, collected, ship0, p0);
        if hit {
          collected := collected + 1;
        }
        i := i + 1;
      }
    }

    /** One iteration of `gems.forEach`: the callback runs for index i only
        if the array still has that index. `ship0` and `start` are the ship
        and the gem state when the loop began. */
    method GemLoopStep(i: nat, ghost collected: nat, ghost ship0: Rect, ghost start: GemPass) returns (hit: bool)
      requires Distinct(gems)
      requires ShipBox(ship.State()) == ship0
      requires GemPass(GemValues(gems), score, collected) == GemsAfter(ship0, start, i, gameHeight)
      modifies this`gems, this`score, if i < |gems| then {gems[i]} else {}
      ensures Distinct(gems) && forall g :: g in gems ==> g in old(gems)
      ensures GemPass(GemValues(gems), score, if hit then collected + 1 else collected) ==
              GemsAfter(ship0, start, i + 1, gameHeight)
    {
      hit := false;
      if i < |gems| {
        ghost var before := GemPass(GemValues(gems), score, collected);
        hit := VisitGem(i);
        GemVisitFrom(ship0, before, i, gameHeight, hit, GemValues(gems), score);
      }
    }

    /** The gem loop's callback for index i: move the gem, prune it when it
        has left the playfield, and collect it when it touches the ship. */
    method VisitGem(i: nat) returns (hit: bool)
      requires Distinct(gems) && i < |gems|
      modifies this`gems, this`score, gems[i]
      ensures Distinct(gems) && forall g :: g in gems ==> g in old(gems)
      ensures var s := old(GemValues(gems));
              var g := Fall(s[i]);
              var pruned := if g.y > gameHeight then Splice(s[i := g], i) else s[i := g];
              hit == IsColliding(ShipBox(ship.State()), BoxOf(g)) &&
              GemValues(gems) == (if hit then Splice(pruned, i) else pruned) &&
              score == old(score) + (if hit then GemReward else 0)
    {
      ghost var shipBox := ShipBox(ship.State());
      ghost var s := GemValues(gems);
      ghost var g := Fall(s[i]);
      ghost var pruned := if g.y > gameHeight then Splice(s[i := g], i) else s[i := g];
      var gem := FallGem(i);
      assert gem.Value() == g;
      if gem.y > gameHeight {
        RemoveGem(i);
      }
      assert GemValues(gems) == pruned;
      hit := IsColliding(ShipBox(ship.State()), BoxOf(gem.Value()));
      assert hit == IsColliding(shipBox, BoxOf(g));
      if hit {
        score := score + GemReward;
        assert GemValues(gems) == pruned;
        RemoveGem(i);
      }
    }

    /** `gem.update()` on the gem at index i; no other gem changes. */
    method FallGem(i: nat) returns (gem: Gem)
      requires Distinct(gems) && i < |gems|
      modifies gems[i]
      ensures gem == gems[i]
      ensures gem.Value() == Fall(old(GemValues(gems))[i])
      ensures GemValues(gems) == old(GemValues(gems))[i := gem.Value()]
    {
      GemValuesAll(gems);
      gem := gems[i];
      gem.Update();
      GemValuesAll(gems);
    }

    /** `gems.splice(i, 1)`: removes the gem at index i, if there is one. */
    method RemoveGem(i: nat)
      requires Distinct(gems)
      modifies this`gems
      ensures Distinct(gems) && forall g :: g in gems ==> g in old(gems)
      ensures gems == Splice(old(gems), i)
      ensures GemValues(gems) == Splice(old(GemValues(gems)), i)
    {
      SpliceKeepsDistinct(gems, i);
      GemValuesSplice(gems, i);
      gems := Splice(gems, i);
    }

    /** The asteroid loop: `asteroids.forEach` over the length the array had
        when the loop began; a collision empties the array, which ends it. */
    method UpdateAsteroids() returns (collisions: nat)
      requires Distinct(asteroids) && Distinct(gems)
      modifies this`asteroids, this`gems, this`score, ship, asteroids
      ensures Distinct(asteroids) && Distinct(gems)
      ensures Progress(View(), collisions) ==
              AsteroidsAfter(Progress(old(View()), 0), old(|asteroids|), gameWidth, gameHeight)
    {
      ghost var p0 := Progress(View(), 0);
      var n := |asteroids|;
      var i := 0;
      collisions := 0;
      assert Progress(View(), collisions) == AsteroidsAfter(p0, 0, gameWidth, gameHeight);
      while i < n
        invariant 0 <= i <= n
        invariant Distinct(asteroids) && Distinct(gems)
        invariant forall a :: a in asteroids ==> a in old(asteroids)
        invariant Progress(View(), collisions) == AsteroidsAfter(p0, i, gameWidth, gameHeight)
      {
        assert forall j :: 0 <= j < |asteroids| ==> asteroids[j] in old(asteroids);
        var hit := AsteroidLoopStep(i, collisions, p0);
        if hit {
          collisions := collisions + 1;
        }
        i := i + 1;
      }
    }

    /** One iteration of `asteroids.forEach`: the callback runs for index i
        only if the array still has that index. `start` is the state when
        the loop began. */
    method AsteroidLoopStep(i: nat, ghost collisions: nat, ghost start: Progress) returns (hit: bool)
      requires Distinct(asteroids) && Distinct(gems)
      requires Progress(View(), collisions) == AsteroidsAfter(start, i, gameWidth, gameHeight)
      modifies this`asteroids, this`gems, this`score, ship, if i < |asteroids| then {asteroids[i]} else {}
      ensures Distinct(asteroids) && Distinct(gems)
      ensures forall a :: a in asteroids ==> a in old(asteroids)
      ensures Progress(View(), if hit then collisions + 1 else collisions) ==
              AsteroidsAfter(start, i + 1, gameWidth, gameHeight)
    {
      hit := false;
      if i < |asteroids| {
        ghost var before := Progress(View(), collisions);
        hit := VisitAsteroid(i);
        AsteroidVisitFrom(before, i, gameWidth, gameHeight, hit, View());
      }
    }

    /** The asteroid loop's callback for index i: move the asteroid, prune it
        when it has left the playfield, and reset the game when it touches
        the ship. */
    method VisitAsteroid(i: nat) returns (hit: bool)
      requires Distinct(asteroids) && Distinct(gems) && i < |asteroids|
      modifies this`asteroids, this`gems, this`score, ship, asteroids[i]
      ensures Distinct(asteroids) && Distinct(gems)
      ensures forall a :: a in asteroids ==> a in old(asteroids)
      ensures var w := old(View());
              var a := Fall(w.asteroids[i]);
              var fallen := w.asteroids[i := a];
              var pruned := w.(asteroids := if a.y > gameHeight then Splice(fallen, i) else fallen);
              hit == IsColliding(ShipBox(w.ship), BoxOf(a)) &&
              View() == (if hit then Reset(pruned, gameWidth, gameHeight) else pruned)
    {
      ghost var w := View();
      ghost var s := w.asteroids;
      ghost var a := Fall(s[i]);
      ghost var fallen := s[i := a];
      var asteroid := FallAsteroid(i);
      ghost var pruned := if a.y > gameHeight then Splice(fallen, i) else fallen;
      if asteroid.y > gameHeight {
        RemoveAsteroid(i);
      }
      assert View() == w.(asteroids := pruned);
      hit := IsColliding(ShipBox(ship.State()), BoxOf(asteroid.Value()));
      if hit {
        score := 0;
        gems := [];
        asteroids := [];
        ship.ResetPosition(gameWidth, gameHeight);
        assert View() == Reset(w.(asteroids := pruned), gameWidth, gameHeight);
      }
    }

    /** `asteroid.update()` on the asteroid at index i; no other asteroid
        changes. */
    method FallAsteroid(i: nat) returns (asteroid: Asteroid)
      requires Distinct(asteroids) && i < |asteroids|
      modifies asteroids[i]
      ensures asteroid == asteroids[i]
      ensures asteroid.Value() == Fall(old(AsteroidValues(asteroids))[i])
      ensures AsteroidValues(asteroids) == old(AsteroidValues(asteroids))[i := asteroid.Value()]
    {
      AsteroidValuesAll(asteroids);
      asteroid := asteroids[i];
      asteroid.Update();
      AsteroidValuesAll(asteroids);
    }

    /** `asteroids.splice(i, 1)`: removes the asteroid at index i, if there
        is one. */
    method RemoveAsteroid(i: nat)
      requires Distinct(asteroids)
      modifies this`asteroids
      ensures Distinct(asteroids) && forall a :: a in asteroids ==> a in old(asteroids)
      ensures asteroids == Splice(old(asteroids), i)
      ensures AsteroidValues(asteroids) == Splice(old(AsteroidValues(asteroids)), i)
    {
      SpliceKeepsDistinct(asteroids, i);
      AsteroidValuesSplice(asteroids, i);
      asteroids := Splice(asteroids, i);
    }
  }
}
