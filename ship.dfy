/** The player's spaceship: guarded arrow-key movement and the timed speed
    booster. */
module Ship {
  import opened Geometry

  /** The value of the spaceship's mutable fields. */
  datatype ShipState = ShipState(x: real, y: real, speed: real, booster: bool, boosterTimer: int)

  const Width: real := 50.0
  const Height: real := 50.0
  const BaseSpeed: real := 5.0
  /** How long a boost lasts, in milliseconds. */
  const BoostDuration: int := 3000

  const ArrowLeft: string := "ArrowLeft"
  const ArrowRight: string := "ArrowRight"
  const ArrowUp: string := "ArrowUp"
  const ArrowDown: string := "ArrowDown"
  const Space: string := "Space"

  /** Where the ship starts, and where an asteroid collision puts it back. */
  function StartX(gameWidth: real): (r: real) { gameWidth / 2.0 - 25.0 }
  function StartY(gameHeight: real): (r: real) { gameHeight - 80.0 }

  function Start(gameWidth: real, gameHeight: real): (r: ShipState)
  {
    ShipState(StartX(gameWidth), StartY(gameHeight), BaseSpeed, false, 0)
  }

  function ShipBox(s: ShipState): (r: Rect)
  {
    Rect(s.x, s.y, Width, Height)
  }

  /** The speed the boost state calls for: the base speed, doubled while
      boosted. */
  ghost predicate SpeedMatchesBoost(s: ShipState)
  {
    s.speed == if s.booster then 2.0 * BaseSpeed else BaseSpeed
  }

  /** The four arrow keys, applied in the order left, right, up, down. Each
      moves by the current speed, only while the ship is strictly inside the
      playfield on that side; a move is never cut short at the border. With
      both keys of an axis held, the second guard tests the coordinate the
      first move has already changed, so the two moves need not cancel. */
  function Movement(s: ShipState, keys: set<string>, gameWidth: real, gameHeight: real): (r: ShipState)
    ensures r.speed == s.speed && r.booster == s.booster && r.boosterTimer == s.boosterTimer
    ensures ArrowLeft !in keys && ArrowRight !in keys ==> r.x == s.x
    ensures ArrowLeft in keys && ArrowRight !in keys ==>
              r.x == if s.x > 0.0 then s.x - s.speed else s.x
    ensures ArrowLeft !in keys && ArrowRight in keys ==>
              r.x == if s.x < gameWidth - Width then s.x + s.speed else s.x
    ensures ArrowUp !in keys && ArrowDown !in keys ==> r.y == s.y
    ensures ArrowUp in keys && ArrowDown !in keys ==>
              r.y == if s.y > 0.0 then s.y - s.speed else s.y
    ensures ArrowUp !in keys && ArrowDown in keys ==>
              r.y == if s.y < gameHeight - Height then s.y + s.speed else s.y
    ensures ArrowLeft in keys && ArrowRight in keys ==>
              && (0.0 < s.x && s.x - s.speed < gameWidth - Width ==> r.x == s.x)
              && (0.0 < s.x && s.x - s.speed >= gameWidth - Width ==> r.x == s.x - s.speed)
              && (s.x <= 0.0 && s.x < gameWidth - Width ==> r.x == s.x + s.speed)
              && (s.x <= 0.0 && s.x >= gameWidth - Width ==> r.x == s.x)
    ensures ArrowUp in keys && ArrowDown in keys ==>
              && (0.0 < s.y && s.y - s.speed < gameHeight - Height ==> r.y == s.y)
              && (0.0 < s.y && s.y - s.speed >= gameHeight - Height ==> r.y == s.y - s.speed)
              && (s.y <= 0.0 && s.y < gameHeight - Height ==> r.y == s.y + s.speed)
              && (s.y <= 0.0 && s.y >= gameHeight - Height ==> r.y == s.y)
    ensures s.speed >= 0.0 ==> -s.speed <= r.x - s.x <= s.speed && -s.speed <= r.y - s.y <= s.speed
  {
    var x1 := if ArrowLeft in keys && s.x > 0.0 then s.x - s.speed else s.x;
    var x2 := if ArrowRight in keys && x1 < gameWidth - Width then x1 + s.speed else x1;
    var y1 := if ArrowUp in keys && s.y > 0.0 then s.y - s.speed else s.y;
    var y2 := if ArrowDown in keys && y1 < gameHeight - Height then y1 + s.speed else y1;
    s.(x := x2, y := y2)
  }

  /** Holding both horizontal keys: inside the playfield the two moves
      cancel, while at the left border only the right move happens. */
  lemma OpposingKeysOnOneAxis()
    ensures Movement(ShipState(100.0, 300.0, BaseSpeed, false, 0), {ArrowLeft, ArrowRight}, 800.0, 600.0).x == 100.0
    ensures Movement(ShipState(0.0, 300.0, BaseSpeed, false, 0), {ArrowLeft, ArrowRight}, 800.0, 600.0).x == 5.0
    ensures Movement(ShipState(755.0, 300.0, BaseSpeed, false, 0), {ArrowLeft, ArrowRight}, 800.0, 600.0).x == 750.0
  {
  }

  /** Space starts a boost when none is running: the speed doubles and the
      boost clock is set to now. While a boost runs, Space does nothing. */
  function Activate(s: ShipState, keys: set<string>, now: int): (r: ShipState)
    ensures r.x == s.x && r.y == s.y
    ensures Space in keys && !s.booster ==>
              r.booster && r.speed == 2.0 * s.speed && r.boosterTimer == now
    ensures Space !in keys || s.booster ==> r == s
  {
    if Space in keys && !s.booster then
      s.(booster := true, speed := s.speed * 2.0, boosterTimer := now)
    else
      s
  }

  /** A boost that has run for more than BoostDuration milliseconds ends and
      halves the speed; otherwise nothing changes. */
  function Expire(s: ShipState, now: int): (r: ShipState)
    ensures r.x == s.x && r.y == s.y && r.boosterTimer == s.boosterTimer
    ensures s.booster && now - s.boosterTimer > BoostDuration ==>
              !r.booster && 2.0 * r.speed == s.speed
    ensures !(s.booster && now - s.boosterTimer > BoostDuration) ==> r == s
  {
    if s.booster && now - s.boosterTimer > BoostDuration then
      s.(booster := false, speed := s.speed / 2.0)
    else
      s
  }

  /** The booster handling of one frame: activation, then the expiry check. */
  function Boost(s: ShipState, keys: set<string>, now: int): (r: ShipState)
    ensures r.x == s.x && r.y == s.y
    ensures Space in keys && !s.booster ==> r.booster && r.speed == 2.0 * s.speed && r.boosterTimer == now
    ensures (Space !in keys || s.booster) && !(s.booster && now - s.boosterTimer > BoostDuration) ==> r == s
    ensures (Space !in keys || s.booster) && s.booster && now - s.boosterTimer > BoostDuration ==>
              !r.booster && 2.0 * r.speed == s.speed && r.boosterTimer == s.boosterTimer
  {
    Expire(Activate(s, keys, now), now)
  }

  /** A boost started in a frame is still running at the end of that frame,
      with twice the speed the ship had. */
  lemma BoostSurvivesItsOwnFrame(s: ShipState, keys: set<string>, now: int)
    requires Space in keys && !s.booster
    ensures Boost(s, keys, now).booster
    ensures Boost(s, keys, now).speed == 2.0 * s.speed
    ensures Boost(s, keys, now).boosterTimer == now
  {
  }

  /** Activating and, in a later frame past the duration, expiring a boost
      gives back exactly the speed the ship had before. */
  lemma BoostRoundTrip(s: ShipState, keys: set<string>, start: int, later: int)
    requires Space in keys && !s.booster
    requires later - start > BoostDuration
    ensures Expire(Activate(s, keys, start), later).speed == s.speed
    ensures !Expire(Activate(s, keys, start), later).booster
  {
  }

  /** The speed always equals the base speed, doubled while boosted: the
      booster handling never lets the speed drift. */
  lemma BoostKeepsSpeedMatched(s: ShipState, keys: set<string>, now: int)
    requires SpeedMatchesBoost(s)
    ensures SpeedMatchesBoost(Boost(s, keys, now))
  {
  }

  /** The ship stays within one boosted step of the playfield: from inside the
      band (-2 * BaseSpeed, gameWidth - Width + 2 * BaseSpeed) on x, and the
      same on y, a move at any speed up to the boosted one stays inside it.
      The playfield border itself is not kept, because the moves are guarded,
      not clamped. */
  ghost predicate NearPlayfield(s: ShipState, gameWidth: real, gameHeight: real)
  {
    -2.0 * BaseSpeed < s.x < gameWidth - Width + 2.0 * BaseSpeed &&
    -2.0 * BaseSpeed < s.y < gameHeight - Height + 2.0 * BaseSpeed
  }

  lemma MoveStaysNearPlayfield(s: ShipState, keys: set<string>, gameWidth: real, gameHeight: real)
    requires NearPlayfield(s, gameWidth, gameHeight)
    requires 0.0 <= s.speed <= 2.0 * BaseSpeed
    ensures NearPlayfield(Movement(s, keys, gameWidth, gameHeight), gameWidth, gameHeight)
  {
  }

  /** A ship just inside the left border overshoots it: the movement guard
      does not keep the ship on the playfield. */
  lemma LeftMoveCanOvershoot()
    ensures Movement(ShipState(1.0, 100.0, BaseSpeed, false, 0), {ArrowLeft}, 800.0, 600.0).x < 0.0
  {
  }

  /** The spaceship object; its fields change in place every frame. */
  class Spaceship {
    var x: real
    var y: real
    const width: real := Width
    const height: real := Height
    var speed: real
    var booster: bool
    var boosterTimer: int

    constructor (gameWidth: real, gameHeight: real)
      ensures State() == Start(gameWidth, gameHeight)
    {
      x := gameWidth / 2.0 - 25.0;
      y := gameHeight - 80.0;
      speed := BaseSpeed;
      booster := false;
      boosterTimer := 0;
    }

    function State(): (r: ShipState)
      reads this
    {
      ShipState(x, y, speed, booster, boosterTimer)
    }

    /** Applies the pressed arrow keys. */
    method Move(keys: set<string>, gameWidth: real, gameHeight: real)
      modifies this
      ensures State() == Movement(old(State()), keys, gameWidth, gameHeight)
    {
      if ArrowLeft in keys && x > 0.0 {
        x := x - speed;
      }
      if ArrowRight in keys && x < gameWidth - width {
        x := x + speed;
      }
      if ArrowUp in keys && y > 0.0 {
        y := y - speed;
      }
      if ArrowDown in keys && y < gameHeight - height {
        y := y + speed;
      }
    }

    /** Starts a boost on Space and ends one that has run out. */
    method UpdateBooster(keys: set<string>, now: int)
      modifies this
      ensures State() == Boost(old(State()), keys, now)
    {
      if Space in keys && !booster {
        booster := true;
        speed := speed * 2.0;
        boosterTimer := now;
      }
      if booster && now - boosterTimer > BoostDuration {
        booster := false;
        speed := speed / 2.0;
      }
    }

    /** Puts the ship back at its start point; speed and boost are kept. */
    method ResetPosition(gameWidth: real, gameHeight: real)
      modifies this
      ensures State() == old(State()).(x := StartX(gameWidth), y := StartY(gameHeight))
    {
      x := gameWidth / 2.0 - 25.0;
      y := gameHeight - 80.0;
    }
  }
}
