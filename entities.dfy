/** The falling entities: gems (collected for points) and asteroids (which
    reset the game). Both are objects whose `y` changes in place each frame. */
module Entities {
  import opened Geometry
  import opened Arrays

  /** The value of a falling entity at one instant. */
  datatype Body = Body(x: real, y: real, width: real, height: real, speed: real)

  function BoxOf(b: Body): (r: Rect)
  {
    Rect(b.x, b.y, b.width, b.height)
  }

  const GemSize: real := 30.0
  const AsteroidSize: real := 40.0

  /** One frame of falling: the entity moves down by exactly its speed and
      nothing else about it changes. */
  function Fall(b: Body): (r: Body)
    ensures r.y - b.y == b.speed
    ensures r.(y := b.y) == b
  {
    b.(y := b.y + b.speed)
  }

  /** A freshly constructed gem, given the canvas width and the two random
      draws of its constructor (horizontal position, then speed). */
  function NewGem(gameWidth: real, rx: real, rs: real): (r: Body)
    ensures r.y == -GemSize && r.width == GemSize && r.height == GemSize
    ensures 0.0 <= rx < 1.0 && gameWidth > GemSize ==> 0.0 <= r.x < gameWidth - GemSize
    ensures 0.0 <= rs < 1.0 ==> 2.0 <= r.speed < 5.0
  {
    var span := gameWidth - GemSize;
    ScaleBelow(rx, span);
    Body(rx * span, -GemSize, GemSize, GemSize, 2.0 + rs * 3.0)
  }

  /** A freshly constructed asteroid, given the canvas width and the two
      random draws of its constructor. */
  function NewAsteroid(gameWidth: real, rx: real, rs: real): (r: Body)
    ensures r.y == -AsteroidSize && r.width == AsteroidSize && r.height == AsteroidSize
    ensures 0.0 <= rx < 1.0 && gameWidth > AsteroidSize ==> 0.0 <= r.x < gameWidth - AsteroidSize
    ensures 0.0 <= rs < 1.0 ==> 3.0 <= r.speed < 5.0
  {
    var span := gameWidth - AsteroidSize;
    ScaleBelow(rx, span);
    Body(rx * span, -AsteroidSize, AsteroidSize, AsteroidSize, 3.0 + rs * 2.0)
  }

  /** A fraction in [0, 1) of a positive span lies in [0, span). */
  lemma ScaleBelow(f: real, span: real)
    ensures 0.0 <= f < 1.0 && span > 0.0 ==> 0.0 <= f * span < span
  {
  }

  class Gem {
    const x: real
    var y: real
    const width: real
    const height: real
    const speed: real

    constructor (gameWidth: real, rx: real, rs: real)
      ensures Value() == NewGem(gameWidth, rx, rs)
    {
      x := rx * (gameWidth - GemSize);
      y := -GemSize;
      width := GemSize;
      height := GemSize;
      speed := 2.0 + rs * 3.0;
    }

    function Value(): (r: Body)
      reads this
    {
      Body(x, y, width, height, speed)
    }

    /** Advances the gem by one frame. */
    method Update()
      modifies this
      ensures Value() == Fall(old(Value()))
    {
      y := y + speed;
    }
  }

  class Asteroid {
    const x: real
    var y: real
    const width: real
    const height: real
    const speed: real

    constructor (gameWidth: real, rx: real, rs: real)
      ensures Value() == NewAsteroid(gameWidth, rx, rs)
    {
      x := rx * (gameWidth - AsteroidSize);
      y := -AsteroidSize;
      width := AsteroidSize;
      height := AsteroidSize;
      speed := 3.0 + rs * 2.0;
    }

    function Value(): (r: Body)
      reads this
    {
      Body(x, y, width, height, speed)
    }

    /** Advances the asteroid by one frame. */
    method Update()
      modifies this
      ensures Value() == Fall(old(Value()))
    {
      y := y + speed;
    }
  }

  // The gem and asteroid versions below are deliberately separate pairs: the
  // two entity kinds are distinct classes, as in the game.

  /** The values of a sequence of gems, element by element. */
  function GemValues(s: seq<Gem>): (r: seq<Body>)
    reads s
    ensures |r| == |s|
  {
    if s == [] then [] else [s[0].Value()] + GemValues(s[1..])
  }

  /** The values of a sequence of asteroids, element by element. */
  function AsteroidValues(s: seq<Asteroid>): (r: seq<Body>)
    reads s
    ensures |r| == |s|
  {
    if s == [] then [] else [s[0].Value()] + AsteroidValues(s[1..])
  }

  lemma {:induction false} GemValuesAt(s: seq<Gem>, i: nat)
    requires i < |s|
    ensures GemValues(s)[i] == s[i].Value()
    decreases i
  {
    if i > 0 {
      GemValuesAt(s[1..], i - 1);
    }
  }

  lemma {:induction false} AsteroidValuesAt(s: seq<Asteroid>, i: nat)
    requires i < |s|
    ensures AsteroidValues(s)[i] == s[i].Value()
    decreases i
  {
    if i > 0 {
      AsteroidValuesAt(s[1..], i - 1);
    }
  }

  lemma GemValuesAll(s: seq<Gem>)
    ensures forall j :: 0 <= j < |s| ==> GemValues(s)[j] == s[j].Value()
  {
    forall j | 0 <= j < |s|
      ensures GemValues(s)[j] == s[j].Value()
    {
      GemValuesAt(s, j);
    }
  }

  lemma AsteroidValuesAll(s: seq<Asteroid>)
    ensures forall j :: 0 <= j < |s| ==> AsteroidValues(s)[j] == s[j].Value()
  {
    forall j | 0 <= j < |s|
      ensures AsteroidValues(s)[j] == s[j].Value()
    {
      AsteroidValuesAt(s, j);
    }
  }

  lemma GemValuesSplice(s: seq<Gem>, i: nat)
    ensures GemValues(Splice(s, i)) == Splice(GemValues(s), i)
  {
    GemValuesAll(s);
    GemValuesAll(Splice(s, i));
  }

  lemma AsteroidValuesSplice(s: seq<Asteroid>, i: nat)
    ensures AsteroidValues(Splice(s, i)) == Splice(AsteroidValues(s), i)
  {
    AsteroidValuesAll(s);
    AsteroidValuesAll(Splice(s, i));
  }

  lemma GemValuesPush(s: seq<Gem>, g: Gem)
    ensures GemValues(s + [g]) == GemValues(s) + [g.Value()]
  {
    GemValuesAll(s);
    GemValuesAll(s + [g]);
  }

  lemma AsteroidValuesPush(s: seq<Asteroid>, a: Asteroid)
    ensures AsteroidValues(s + [a]) == AsteroidValues(s) + [a.Value()]
  {
    AsteroidValuesAll(s);
    AsteroidValuesAll(s + [a]);
  }
}
