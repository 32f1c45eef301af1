/** The asteroid-dodging mini game: the player's craft, the falling asteroids
    and power-ups, the particle bursts, the score and the high score, and
    the menu / playing / paused / game-over states.  Every frame moves the
    craft, counts the shield down and sweeps the three object lists; each
    sweep walks its list by index while removing from it, so the object
    that moves into a removed slot is not visited in that frame. */
module AsteroidDodger {
  import opened Common

  datatype GameState = Menu | Playing | Paused | GameOver

  datatype Difficulty = Inner | Outer

  const PlayerWidth: real := 30.0
  const PlayerHeight: real := 20.0
  const PlayerSpeed: real := 5.0
  /** Five seconds at sixty frames a second. */
  const ShieldFrames: int := 300
  const PowerUpSize: real := 20.0
  const PowerUpSpeed: real := 2.0
  const ParticleLife: int := 30
  const FactCount: nat := 6

  // ---------------------------------------------------------------------
  // Geometry
  // ---------------------------------------------------------------------

  datatype Rect = Rect(x: real, y: real, width: real, height: real)

  /** `checkCollision`: strict overlap on both axes. */
  predicate Collide(a: Rect, b: Rect)
  {
    a.x < b.x + b.width && a.x + a.width > b.x && a.y < b.y + b.height && a.y + a.height > b.y
  }

  /** The test is symmetric, and rectangles that only touch do not collide. */
  lemma CollisionSymmetricAndStrict(a: Rect, b: Rect)
    ensures Collide(a, b) <==> Collide(b, a)
    ensures a.x + a.width == b.x || b.x + b.width == a.x || a.y + a.height == b.y || b.y + b.height == a.y
            ==> !Collide(a, b)
  {
  }

  /** The size the resize handler computes from the container width and
      the window height, both whole pixels, before the canvas stores it: at
      most 2400 by 1600 at a 16:10 ratio, but never below 800 by 500. */
  function CanvasExtent(containerWidth: int, windowHeight: int): (size: (real, real))
    ensures size.0 >= 800.0 && size.1 >= 500.0
    ensures size.0 > 800.0 && size.1 > 500.0 ==> size.0 == size.1 * 1.6
    ensures size.0 <= RealMax(800.0, (containerWidth - 10) as real)
    ensures size.1 <= RealMax(500.0, (windowHeight - 80) as real)
    ensures size.0 <= 2400.0 && size.1 <= 1600.0
  {
    var baseWidth := RealMin(2400.0, (containerWidth - 10) as real);
    var baseHeight := RealMin(1600.0, (windowHeight - 80) as real);
    var width := baseWidth;
    var height := width / 1.6;
    var width', height' := if height > baseHeight then baseHeight * 1.6 else width,
                           if height > baseHeight then baseHeight else height;
    (RealMax(width', 800.0), RealMax(height', 500.0))
  }

  /** `canvas.width = width`: the canvas attributes are whole numbers, so
      the extent loses its fraction.  The canvas keeps the minimum and the
      bounds, and above the minimum its ratio is 16:10 up to that loss. */
  function CanvasSize(containerWidth: int, windowHeight: int): (size: (real, real))
    ensures size.0 == size.0.Floor as real && size.1 == size.1.Floor as real
    ensures size.0 >= 800.0 && size.1 >= 500.0
    ensures size.0 <= RealMax(800.0, (containerWidth - 10) as real)
    ensures size.1 <= RealMax(500.0, (windowHeight - 80) as real)
    ensures size.0 <= 2400.0 && size.1 <= 1600.0
    ensures size.0 > 800.0 && size.1 > 500.0 ==> size.1 * 1.6 - 1.0 < size.0 < size.1 * 1.6 + 1.6
  {
    var extent := CanvasExtent(containerWidth, windowHeight);
    (extent.0.Floor as real, extent.1.Floor as real)
  }

  /** A container 1021 pixels wide under a tall window gives an extent of
      1011 by 631.875, which the canvas stores as 1011 by 631. */
  lemma CanvasDropsFraction()
    ensures CanvasExtent(1021, 2000) == (1011.0, 631.875)
    ensures CanvasSize(1021, 2000) == (1011.0, 631.0)
  {
  }

  // ---------------------------------------------------------------------
  // Objects
  // ---------------------------------------------------------------------

  datatype Asteroid = Asteroid(x: real, y: real, size: real, speed: real, rotation: real, rotationSpeed: real)

  function AsteroidRect(a: Asteroid): Rect { Rect(a.x, a.y, a.size, a.size) }

  datatype PowerKind = Shield | SlowMotion

  datatype PowerUp = PowerUp(x: real, y: real, kind: PowerKind)

  function PowerUpRect(p: PowerUp): Rect { Rect(p.x, p.y, PowerUpSize, PowerUpSize) }

  /** A particle's position and remaining life; its random velocity only
      affects drawing and is not modelled. */
  datatype Particle = Particle(x: real, y: real, life: int)

  /** `createParticles`: eight fresh particles at a point. */
  function Burst(x: real, y: real): (ps: seq<Particle>)
    ensures |ps| == 8 && forall i :: 0 <= i < 8 ==> ps[i] == Particle(x, y, ParticleLife)
  {
    seq(8, _ => Particle(x, y, ParticleLife))
  }

  /** `splice(k, 1)`: remove the element at `k`; nothing past the end. */
  function RemoveAt<T>(s: seq<T>, k: nat): (r: seq<T>)
    ensures k < |s| ==> |r| == |s| - 1 && r == s[..k] + s[k + 1..]
    ensures k >= |s| ==> r == s
  {
    if k < |s| then s[..k] + s[k + 1..] else s
  }

  // ---------------------------------------------------------------------
  // The asteroid sweep
  // ---------------------------------------------------------------------

  /** What the asteroid sweep carries: the list, the particles, the points
      gained and whether an unshielded collision happened. */
  datatype Sweep = Sweep(asteroids: seq<Asteroid>, particles: seq<Particle>, gain: int, hit: bool)

  /** One visit of the `forEach` at index `k`: fall, drop off the bottom for
      ten points, then collide with the craft, which destroys the asteroid
      under a shield and ends the game without one.  An index past the
      shortened list is not visited. */
  function AsteroidStep(w: Sweep, k: nat, player: Rect, shielded: bool, height: real): Sweep
  {
    if k >= |w.asteroids| then w
    else
      var a := w.asteroids[k];
      var moved := a.(y := a.y + a.speed, rotation := a.rotation + a.rotationSpeed);
      var list := w.asteroids[k := moved];
      var offscreen := moved.y > height;
      var list' := if offscreen then RemoveAt(list, k) else list;
      var gain := if offscreen then w.gain + 10 else w.gain;
      if Collide(player, AsteroidRect(moved)) then
        if shielded then
          Sweep(RemoveAt(list', k), w.particles + Burst(moved.x + moved.size / 2.0, moved.y + moved.size / 2.0), gain, w.hit)
        else Sweep(list', w.particles, gain, true)
      else Sweep(list', w.particles, gain, w.hit)
  }

  /** The visits at indices `k` up to `len`, the length when the sweep began. */
  function AsteroidSweep(w: Sweep, k: nat, len: nat, player: Rect, shielded: bool, height: real): Sweep
    decreases len - k
  {
    if k >= len then w
    else AsteroidSweep(AsteroidStep(w, k, player, shielded, height), k + 1, len, player, shielded, height)
  }

  /** A collision needs the object's top above the craft's bottom. */
  lemma CollideNeedsOverlap(p: Rect, r: Rect)
    requires Collide(p, r)
    ensures r.y < p.y + p.height
  {
  }

  /** One visit never adds asteroids, gains points only by removing one,
      and records a hit only without a shield. */
  lemma AsteroidStepBounds(w: Sweep, k: nat, player: Rect, shielded: bool, height: real)
    ensures var r := AsteroidStep(w, k, player, shielded, height);
            && |r.asteroids| * 10 + r.gain <= |w.asteroids| * 10 + w.gain
            && w.gain <= r.gain && (r.gain - w.gain) % 10 == 0
            && (shielded ==> r.hit == w.hit)
            && (w.hit ==> r.hit)
  {
  }

  /** Over a whole sweep: the list never grows, every ten points gained
      took one asteroid off the list, and a shielded craft is never hit. */
  lemma {:induction false} AsteroidSweepBounds(w: Sweep, k: nat, len: nat, player: Rect, shielded: bool, height: real)
    ensures var r := AsteroidSweep(w, k, len, player, shielded, height);
            && |r.asteroids| * 10 + r.gain <= |w.asteroids| * 10 + w.gain
            && w.gain <= r.gain && (r.gain - w.gain) % 10 == 0
            && (shielded ==> r.hit == w.hit)
    decreases len - k
  {
    if k < len {
      var m := AsteroidStep(w, k, player, shielded, height);
      AsteroidStepBounds(w, k, player, shielded, height);
      AsteroidSweepBounds(m, k + 1, len, player, shielded, height);
      var r := AsteroidSweep(m, k + 1, len, player, shielded, height);
      assert AsteroidSweep(w, k, len, player, shielded, height) == r;
      assert r.gain - w.gain == (r.gain - m.gain) + (m.gain - w.gain);
    }
  }

  /** An asteroid that falls past the bottom edge is removed for ten points;
      with the craft on the canvas it cannot also collide. */
  lemma OffscreenAsteroidRemoved(w: Sweep, k: nat, player: Rect, shielded: bool, height: real)
    requires k < |w.asteroids|
    requires w.asteroids[k].y + w.asteroids[k].speed > height
    requires player.y + player.height <= height
    ensures var r := AsteroidStep(w, k, player, shielded, height);
            && r.asteroids == w.asteroids[..k] + w.asteroids[k + 1..]
            && r.gain == w.gain + 10 && r.hit == w.hit && r.particles == w.particles
  {
    var a := w.asteroids[k];
    var moved := a.(y := a.y + a.speed, rotation := a.rotation + a.rotationSpeed);
    if Collide(player, AsteroidRect(moved)) {
      CollideNeedsOverlap(player, AsteroidRect(moved));
    }
    assert w.asteroids[k := moved][..k] == w.asteroids[..k];
    assert w.asteroids[k := moved][k + 1..] == w.asteroids[k + 1..];
  }

  /** Removing while iterating skips the next asteroid: when the first of
      two asteroids drops off the bottom, the second moves into its slot
      and is neither moved nor checked in that frame, wherever it is. */
  lemma RemovalSkipsNext(a: Asteroid, b: Asteroid, player: Rect, shielded: bool, height: real, ps: seq<Particle>)
    requires a.y + a.speed > height
    requires player.y + player.height <= height
    ensures var r := AsteroidSweep(Sweep([a, b], ps, 0, false), 0, 2, player, shielded, height);
            r.asteroids == [b] && r.gain == 10 && !r.hit
  {
    var w := Sweep([a, b], ps, 0, false);
    OffscreenAsteroidRemoved(w, 0, player, shielded, height);
    var w1 := AsteroidStep(w, 0, player, shielded, height);
    assert w1.asteroids == [b];
    assert AsteroidStep(w1, 1, player, shielded, height) == w1;
  }

  // ---------------------------------------------------------------------
  // The power-up sweep
  // ---------------------------------------------------------------------

  /** What the power-up sweep carries: its list, the asteroids it may slow
      down, the particles, and whether a shield was collected. */
  datatype Pickup = Pickup(powerUps: seq<PowerUp>, asteroids: seq<Asteroid>, particles: seq<Particle>, shieldCollected: bool)

  /** Every asteroid at half speed. */
  function Halved(s: seq<Asteroid>): (r: seq<Asteroid>)
    ensures |r| == |s|
    ensures forall i :: 0 <= i < |s| ==> r[i] == s[i].(speed := s[i].speed * 0.5)
  {
    seq(|s|, i requires 0 <= i < |s| => s[i].(speed := s[i].speed * 0.5))
  }

  /** One visit at index `k`: fall two pixels, drop off the bottom, and on
      touching the craft be collected: a shield power-up turns the shield
      on, a slow-motion one halves every asteroid's speed. */
  function PowerUpStep(w: Pickup, k: nat, player: Rect, height: real): Pickup
  {
    if k >= |w.powerUps| then w
    else
      var p := w.powerUps[k];
      var moved := p.(y := p.y + PowerUpSpeed);
      var list := w.powerUps[k := moved];
      var list' := if moved.y > height then RemoveAt(list, k) else list;
      if Collide(player, PowerUpRect(moved)) then
        var collected := w.(powerUps := RemoveAt(list', k),
                            particles := w.particles + Burst(moved.x + PowerUpSize / 2.0, moved.y + PowerUpSize / 2.0));
        if moved.kind == Shield then collected.(shieldCollected := true)
        else collected.(asteroids := Halved(w.asteroids))
      else w.(powerUps := list')
  }

  function PowerUpSweep(w: Pickup, k: nat, len: nat, player: Rect, height: real): Pickup
    decreases len - k
  {
    if k >= len then w
    else PowerUpSweep(PowerUpStep(w, k, player, height), k + 1, len, player, height)
  }

  /** The power-up list never grows and the asteroid list keeps its length;
      a collected shield stays collected. */
  lemma {:induction false} PowerUpSweepBounds(w: Pickup, k: nat, len: nat, player: Rect, height: real)
    ensures var r := PowerUpSweep(w, k, len, player, height);
            && |r.powerUps| <= |w.powerUps|
            && |r.asteroids| == |w.asteroids|
            && (w.shieldCollected ==> r.shieldCollected)
    decreases len - k
  {
    if k < len {
      PowerUpSweepBounds(PowerUpStep(w, k, player, height), k + 1, len, player, height);
    }
  }

  /** Touching a shield power-up collects the shield. */
  lemma ShieldCollected(w: Pickup, k: nat, player: Rect, height: real)
    requires k < |w.powerUps| && w.powerUps[k].kind == Shield
    requires Collide(player, PowerUpRect(w.powerUps[k].(y := w.powerUps[k].y + PowerUpSpeed)))
    ensures PowerUpStep(w, k, player, height).shieldCollected
  {
  }

  // ---------------------------------------------------------------------
  // The particle sweep
  // ---------------------------------------------------------------------

  /** One visit: lose one life, and go when none is left. */
  function ParticleStep(ps: seq<Particle>, k: nat): seq<Particle>
  {
    if k >= |ps| then ps
    else
      var p := ps[k].(life := ps[k].life - 1);
      if p.life <= 0 then RemoveAt(ps[k := p], k) else ps[k := p]
  }

  function ParticleSweep(ps: seq<Particle>, k: nat, len: nat): seq<Particle>
    decreases len - k
  {
    if k >= len then ps else ParticleSweep(ParticleStep(ps, k), k + 1, len)
  }

  /** The particle list never grows, and a particle with life left that is
      visited keeps all but one of it. */
  lemma {:induction false} ParticleSweepShrinks(ps: seq<Particle>, k: nat, len: nat)
    ensures |ParticleSweep(ps, k, len)| <= |ps|
    decreases len - k
  {
    if k < len {
      ParticleSweepShrinks(ParticleStep(ps, k), k + 1, len);
    }
  }

  // ---------------------------------------------------------------------
  // One frame's sweeps
  // ---------------------------------------------------------------------

  /** What the three sweeps of a frame leave: the lists, the points gained,
      whether the craft was hit and whether a shield was collected. */
  datatype Frame = Frame(asteroids: seq<Asteroid>, powerUps: seq<PowerUp>, particles: seq<Particle>,
                         gain: int, hit: bool, shieldCollected: bool)

  /** The asteroid, power-up and particle sweeps in that order, each
      starting from what the one before left.  No list grows, points come
      ten per asteroid removed, and a shielded craft is never hit. */
  function SweepFrame(asteroids: seq<Asteroid>, powerUps: seq<PowerUp>, particles: seq<Particle>,
                      player: Rect, shielded: bool, height: real): (f: Frame)
    ensures |f.asteroids| * 10 + f.gain <= |asteroids| * 10
    ensures |f.powerUps| <= |powerUps|
    ensures f.gain >= 0 && f.gain % 10 == 0
    ensures shielded ==> !f.hit
  {
    var r := AsteroidSweep(Sweep(asteroids, particles, 0, false), 0, |asteroids|, player, shielded, height);
    AsteroidSweepBounds(Sweep(asteroids, particles, 0, false), 0, |asteroids|, player, shielded, height);
    var q := PowerUpSweep(Pickup(powerUps, r.asteroids, r.particles, false), 0, |powerUps|, player, height);
    PowerUpSweepBounds(Pickup(powerUps, r.asteroids, r.particles, false), 0, |powerUps|, player, height);
    Frame(q.asteroids, q.powerUps, ParticleSweep(q.particles, 0, |q.particles|), r.gain, r.hit, q.shieldCollected)
  }

  // ---------------------------------------------------------------------
  // The game
  // ---------------------------------------------------------------------

  /** The random numbers one frame draws, each in [0, 1). */
  datatype Dice = Dice(fact: real, asteroidChance: real, size: real, speed: real, x: real, spin: real,
                       powerChance: real, powerSpawn: real, powerKind: real, powerX: real)

  predicate DiceValid(d: Dice)
  {
    && 0.0 <= d.fact < 1.0 && 0.0 <= d.asteroidChance < 1.0 && 0.0 <= d.size < 1.0
    && 0.0 <= d.speed < 1.0 && 0.0 <= d.x < 1.0 && 0.0 <= d.spin < 1.0
    && 0.0 <= d.powerChance < 1.0 && 0.0 <= d.powerSpawn < 1.0 && 0.0 <= d.powerKind < 1.0 && 0.0 <= d.powerX < 1.0
  }

  /** A fraction in [0, 1) of a non-negative width lies within it. */
  lemma ScaledBelow(r: real, w: real)
    requires 0.0 <= r < 1.0
    ensures 0.0 <= w ==> 0.0 <= r * w <= w
  {
    if 0.0 <= w {
      assert r * w <= 1.0 * w;
    }
  }

  /** The power-up a spawn places: a shield or a slow-motion power-up with
      even odds, anywhere across the canvas, just above it. */
  function SpawnedPowerUp(xRoll: real, kindRoll: real, width: real): (p: PowerUp)
    requires 0.0 <= xRoll < 1.0 && width >= PowerUpSize
    ensures 0.0 <= p.x <= width - PowerUpSize
    ensures p.y == -PowerUpSize
    ensures p.kind == Shield <==> kindRoll < 0.5
  {
    var room := width - PowerUpSize;
    ScaledBelow(xRoll, room);
    var x := xRoll * room;
    assert x <= room;
    PowerUp(x, -PowerUpSize, if kindRoll < 0.5 then Shield else SlowMotion)
  }

  /** One axis of the craft's move: a step back clamped at 0, then a step
      forward clamped at `limit`. */
  function AxisStep(pos: real, back: bool, forward: bool, limit: real): (r: real)
  {
    var p := if back then RealMax(0.0, pos - PlayerSpeed) else pos;
    if forward then RealMin(limit, p + PlayerSpeed) else p
  }

  /** On a non-negative extent a position stays within it and moves by at
      most one step; with only one direction held it moves that way by a
      full step unless the edge stops it first, and with none it stays. */
  lemma AxisStepBounds(pos: real, back: bool, forward: bool, limit: real)
    requires 0.0 <= pos <= limit
    ensures var r := AxisStep(pos, back, forward, limit);
            && 0.0 <= r <= limit
            && pos - PlayerSpeed <= r <= pos + PlayerSpeed
            && (!back && !forward ==> r == pos)
            && (back && !forward ==> r == RealMax(0.0, pos - PlayerSpeed) && r <= pos)
            && (!back && forward ==> r == RealMin(limit, pos + PlayerSpeed) && r >= pos)
  {
  }

  /** The arrow keys a touch holds, by its offset from the craft's centre. */
  function TouchedArrows(dx: real, dy: real): (keys: set<string>)
    ensures "ArrowLeft" in keys <==> dx < 0.0
    ensures "ArrowRight" in keys <==> dx > 0.0
    ensures "ArrowUp" in keys <==> dy < 0.0
    ensures "ArrowDown" in keys <==> dy > 0.0
    ensures keys <= {"ArrowLeft", "ArrowRight", "ArrowUp", "ArrowDown"}
  {
    (if dx < 0.0 then {"ArrowLeft"} else {}) + (if dx > 0.0 then {"ArrowRight"} else {})
    + (if dy < 0.0 then {"ArrowUp"} else {}) + (if dy > 0.0 then {"ArrowDown"} else {})
  }

  /** `keys` with every key of `held` set to held. */
  function HoldAll(keys: map<string, bool>, held: set<string>): (r: map<string, bool>)
    ensures r.Keys == keys.Keys + held
    ensures forall k :: k in held ==> r[k]
    ensures forall k :: k in keys && k !in held ==> r[k] == keys[k]
  {
    map k | k in keys.Keys + held :: if k in held then true else keys[k]
  }

  /** Holding one key more is holding it on top of the others. */
  lemma HoldOneMore(keys: map<string, bool>, held: set<string>, key: string)
    ensures HoldAll(keys, held)[key := true] == HoldAll(keys, held + {key})
  {
  }

  /** The asteroid `spawnAsteroid` places: size in [20, 50), speed in
      [2, 5) for the inner system and [3, 8) for the outer one, just above
      the canvas. */
  function SpawnedAsteroid(d: Dice, difficulty: Difficulty, width: real): (a: Asteroid)
    requires DiceValid(d)
    ensures 20.0 <= a.size < 50.0 && a.y == -a.size && a.rotation == 0.0
    ensures difficulty == Inner ==> 2.0 <= a.speed < 5.0
    ensures difficulty == Outer ==> 3.0 <= a.speed < 8.0
    ensures -0.1 <= a.rotationSpeed < 0.1
  {
    var size := d.size * 30.0 + 20.0;
    var speed := if difficulty == Inner then d.speed * 3.0 + 2.0 else d.speed * 5.0 + 3.0;
    Asteroid(d.x * (width - size), -size, size, speed, 0.0, (d.spin - 0.5) * 0.2)
  }

  /** The asteroids a frame's roll adds: one, two times in a hundred in the
      inner system and four in the outer one. */
  function NewAsteroids(d: Dice, difficulty: Difficulty, width: real): (s: seq<Asteroid>)
    requires DiceValid(d)
    ensures |s| <= 1
    ensures s != [] <==> d.asteroidChance < (if difficulty == Inner then 0.02 else 0.04)
  {
    if d.asteroidChance < (if difficulty == Inner then 0.02 else 0.04) then [SpawnedAsteroid(d, difficulty, width)] else []
  }

  /** The power-ups a frame's rolls add: one, when the one-in-two-hundred
      roll and then the three-in-ten roll both pass. */
  function NewPowerUps(d: Dice, width: real): (s: seq<PowerUp>)
    requires DiceValid(d) && width >= PowerUpSize
    ensures |s| <= 1
    ensures s != [] <==> d.powerChance < 0.005 && d.powerSpawn < 0.3
  {
    if d.powerChance < 0.005 && d.powerSpawn < 0.3 then [SpawnedPowerUp(d.powerX, d.powerKind, width)] else []
  }

  class Game {
    var state: GameState
    var score: int
    var highScore: int
    var difficulty: Difficulty
    /** The index of the asteroid fact shown after a game over. */
    var fact: Option<nat>
    var width: real
    var height: real
    var px: real
    var py: real
    var shield: bool
    var shieldTime: int
    var asteroids: seq<Asteroid>
    var powerUps: seq<PowerUp>
    var particles: seq<Particle>
    /** Which keys are held, by `KeyboardEvent.key`. */
    var keys: map<string, bool>

    /** The canvas is at least 800 by 500, and a raised shield has time left. */
    ghost predicate Valid()
      reads this
    {
      width >= 800.0 && height >= 500.0 && (shield ==> 0 < shieldTime <= ShieldFrames)
    }

    /** The craft lies on the canvas. */
    predicate OnCanvas()
      reads this
    {
      0.0 <= px <= width - PlayerWidth && 0.0 <= py <= height - PlayerHeight
    }

    function PlayerRect(): Rect
      reads this
    {
      Rect(px, py, PlayerWidth, PlayerHeight)
    }

    /** The component's first render: the menu, the stored high score, the
        inner difficulty, the craft at the origin and nothing on screen. */
    constructor (storedHighScore: int, containerWidth: int, windowHeight: int)
      ensures Valid()
      ensures state == Menu && score == 0 && highScore == storedHighScore && difficulty == Inner && fact == None
      ensures (width, height) == CanvasSize(containerWidth, windowHeight)
      ensures px == 0.0 && py == 0.0 && !shield && shieldTime == 0
      ensures asteroids == [] && powerUps == [] && particles == [] && keys == map[]
    {
      state := Menu;
      score := 0;
      highScore := storedHighScore;
      difficulty := Inner;
      fact := None;
      var size := CanvasSize(containerWidth, windowHeight);
      width, height := size.0, size.1;
      px, py := 0.0, 0.0;
      shield, shieldTime := false, 0;
      asteroids, powerUps, particles := [], [], [];
      keys := map[];
    }

    /** The window was resized. */
    method Resize(containerWidth: int, windowHeight: int)
      requires Valid()
      modifies this`width, this`height
      ensures Valid()
      ensures (width, height) == CanvasSize(containerWidth, windowHeight)
    {
      var size := CanvasSize(containerWidth, windowHeight);
      width, height := size.0, size.1;
    }

    method SetDifficulty(d: Difficulty)
      modifies this`difficulty
      ensures difficulty == d
    {
      difficulty := d;
    }

    /** `initGame`: centre the craft near the bottom, drop the shield, empty
        the three lists, zero the score and hide the fact.  The craft is
        then on the canvas. */
    method InitGame()
      requires Valid()
      modifies this
      ensures Valid() && OnCanvas()
      ensures px == width / 2.0 - PlayerWidth / 2.0 && py == height - PlayerHeight - 20.0
      ensures !shield && shieldTime == 0
      ensures asteroids == [] && powerUps == [] && particles == []
      ensures score == 0 && fact == None
      ensures state == old(state) && highScore == old(highScore) && difficulty == old(difficulty)
      ensures width == old(width) && height == old(height) && keys == old(keys)
    {
      px := width / 2.0 - PlayerWidth / 2.0;
      py := height - PlayerHeight - 20.0;
      shield := false;
      shieldTime := 0;
      asteroids, powerUps, particles := [], [], [];
      score := 0;
      fact := None;
    }

    /** "Start": a fresh game, playing. */
    method StartGame()
      requires Valid()
      modifies this
      ensures Valid() && OnCanvas()
      ensures state == Playing && score == 0 && fact == None && !shield
      ensures asteroids == [] && powerUps == [] && particles == []
      ensures highScore == old(highScore)
    {
      InitGame();
      state := Playing;
    }

    /** "Play again", before its delayed start: back to the menu with
        everything cleared. */
    method RestartGame()
      requires Valid()
      modifies this
      ensures Valid() && OnCanvas()
      ensures state == Menu && score == 0 && fact == None && !shield
      ensures asteroids == [] && powerUps == [] && particles == []
      ensures highScore == old(highScore)
    {
      InitGame();
      state := Menu;
    }

    /** A key goes down; the space bar pauses a running game and resumes a
        paused one, and does nothing in the menu or after a game over. */
    method KeyDown(key: string)
      modifies this`keys, this`state
      ensures keys == old(keys)[key := true]
      ensures key == " " || key == "Spacebar" ==>
                state == (if old(state) == Playing then Paused else if old(state) == Paused then Playing else old(state))
      ensures !(key == " " || key == "Spacebar") ==> state == old(state)
    {
      keys := keys[key := true];
      if key == " " || key == "Spacebar" {
        if state == Playing {
          state := Paused;
        } else if state == Paused {
          state := Playing;
        }
      }
    }

    method KeyUp(key: string)
      modifies this`keys
      ensures keys == old(keys)[key := false]
    {
      keys := keys[key := false];
    }

    predicate Held(key: string)
      reads this`keys
    {
      key in keys && keys[key]
    }

    predicate MovingLeft() reads this`keys { Held("ArrowLeft") || Held("a") || Held("A") }
    predicate MovingRight() reads this`keys { Held("ArrowRight") || Held("d") || Held("D") }
    predicate MovingUp() reads this`keys { Held("ArrowUp") || Held("w") || Held("W") }
    predicate MovingDown() reads this`keys { Held("ArrowDown") || Held("s") || Held("S") }

    /** A touch while playing holds the arrow keys toward the touch point
        from the craft's centre and leaves every other key as it was. */
    method TouchStart(touchX: real, touchY: real)
      modifies this`keys
      ensures state != Playing ==> keys == old(keys)
      ensures state == Playing ==>
                keys == HoldAll(old(keys), TouchedArrows(touchX - (px + PlayerWidth / 2.0), touchY - (py + PlayerHeight / 2.0)))
    {
      if state != Playing {
        return;
      }
      var cx, cy := px + PlayerWidth / 2.0, py + PlayerHeight / 2.0;
      ghost var held: set<string> := {};
      assert keys == HoldAll(keys, held);
      if touchX < cx {
        HoldOneMore(old(keys), held, "ArrowLeft");
        keys, held := keys["ArrowLeft" := true], held + {"ArrowLeft"};
      }
      if touchX > cx {
        HoldOneMore(old(keys), held, "ArrowRight");
        keys, held := keys["ArrowRight" := true], held + {"ArrowRight"};
      }
      if touchY < cy {
        HoldOneMore(old(keys), held, "ArrowUp");
        keys, held := keys["ArrowUp" := true], held + {"ArrowUp"};
      }
      if touchY > cy {
        HoldOneMore(old(keys), held, "ArrowDown");
        keys, held := keys["ArrowDown" := true], held + {"ArrowDown"};
      }
      assert held == TouchedArrows(touchX - cx, touchY - cy);
    }

    /** The touch ended: release the four arrow keys. */
    method TouchEnd()
      modifies this`keys
      ensures keys == old(keys)["ArrowLeft" := false]["ArrowRight" := false]["ArrowUp" := false]["ArrowDown" := false]
      ensures !MovingLeft() || Held("a") || Held("A")
    {
      keys := keys["ArrowLeft" := false]["ArrowRight" := false]["ArrowUp" := false]["ArrowDown" := false];
    }

    /** Move the craft one step per held direction, clamped to the canvas,
        left before right and up before down: a craft on the canvas stays
        on it and moves at most one step on each axis. */
    method MovePlayer()
      modifies this`px, this`py
      ensures px == AxisStep(old(px), MovingLeft(), MovingRight(), width - PlayerWidth)
      ensures py == AxisStep(old(py), MovingUp(), MovingDown(), height - PlayerHeight)
      ensures old(OnCanvas()) ==> OnCanvas()
      ensures old(OnCanvas()) ==> old(px) - PlayerSpeed <= px <= old(px) + PlayerSpeed
      ensures old(OnCanvas()) ==> old(py) - PlayerSpeed <= py <= old(py) + PlayerSpeed
    {
      var left, right, up, down := MovingLeft(), MovingRight(), MovingUp(), MovingDown();
      var x, y := px, py;
      if left {
        x := RealMax(0.0, x - PlayerSpeed);
      }
      if right {
        x := RealMin(width - PlayerWidth, x + PlayerSpeed);
      }
      if up {
        y := RealMax(0.0, y - PlayerSpeed);
      }
      if down {
        y := RealMin(height - PlayerHeight, y + PlayerSpeed);
      }
      if OnCanvas() {
        AxisStepBounds(px, left, right, width - PlayerWidth);
        AxisStepBounds(py, up, down, height - PlayerHeight);
      }
      px, py := x, y;
    }

    /** A raised shield loses one frame and drops when none is left. */
    method UpdateShield()
      requires Valid()
      modifies this`shield, this`shieldTime
      ensures Valid()
      ensures old(shield) ==> shieldTime == old(shieldTime) - 1 && shield == (shieldTime > 0)
      ensures !old(shield) ==> !shield && shieldTime == old(shieldTime)
    {
      if shield {
        shieldTime := shieldTime - 1;
        if shieldTime <= 0 {
          shield := false;
        }
      }
    }

    /** The asteroid `forEach`.  An unshielded hit ends the game, shows the
        fact `pick`, and raises the high score to the score of the frame's
        render when that score is higher. */
    method UpdateAsteroids(pick: nat)
      modifies this`asteroids, this`particles, this`score, this`state, this`fact, this`highScore
      ensures var r := AsteroidSweep(Sweep(old(asteroids), old(particles), 0, false), 0, |old(asteroids)|,
                                     PlayerRect(), shield, height);
              && asteroids == r.asteroids && particles == r.particles && score == old(score) + r.gain
              && state == (if r.hit then GameOver else old(state))
              && fact == (if r.hit then Some(pick) else old(fact))
              && highScore == (if r.hit && old(score) > old(highScore) then old(score) else old(highScore))
      ensures score >= old(score) && |asteroids| <= |old(asteroids)|
      ensures shield ==> state == old(state) && highScore == old(highScore)
    {
      ghost var start := Sweep(asteroids, particles, 0, false);
      var player := PlayerRect();
      var w := Sweep(asteroids, particles, 0, false);
      var len := |asteroids|;
      var k := 0;
      while k < len
        invariant 0 <= k <= len
        invariant AsteroidSweep(w, k, len, player, shield, height) == AsteroidSweep(start, 0, len, player, shield, height)
        decreases len - k
      {
        w := AsteroidStep(w, k, player, shield, height);
        k := k + 1;
      }
      AsteroidSweepBounds(start, 0, len, player, shield, height);
      asteroids := w.asteroids;
      particles := w.particles;
      var seenScore := score;
      score := score + w.gain;
      if w.hit {
        state := GameOver;
        fact := Some(pick);
        if seenScore > highScore {
          highScore := seenScore;
        }
      }
    }

    /** The power-up `forEach`; a collected shield is raised for 300 frames. */
    method UpdatePowerUps()
      requires Valid()
      modifies this`powerUps, this`asteroids, this`particles, this`shield, this`shieldTime
      ensures Valid()
      ensures var r := PowerUpSweep(Pickup(old(powerUps), old(asteroids), old(particles), false), 0, |old(powerUps)|,
                                    PlayerRect(), height);
              && powerUps == r.powerUps && asteroids == r.asteroids && particles == r.particles
              && (r.shieldCollected ==> shield && shieldTime == ShieldFrames)
              && (!r.shieldCollected ==> shield == old(shield) && shieldTime == old(shieldTime))
      ensures |powerUps| <= |old(powerUps)| && |asteroids| == |old(asteroids)|
    {
      ghost var start := Pickup(powerUps, asteroids, particles, false);
      var player := PlayerRect();
      var w := Pickup(powerUps, asteroids, particles, false);
      var len := |powerUps|;
      var k := 0;
      while k < len
        invariant 0 <= k <= len
        invariant PowerUpSweep(w, k, len, player, height) == PowerUpSweep(start, 0, len, player, height)
        decreases len - k
      {
        w := PowerUpStep(w, k, player, height);
        k := k + 1;
      }
      PowerUpSweepBounds(start, 0, len, player, height);
      powerUps := w.powerUps;
      asteroids := w.asteroids;
      particles := w.particles;
      if w.shieldCollected {
        shield := true;
        shieldTime := ShieldFrames;
      }
    }

    /** The particle `forEach`. */
    method UpdateParticles()
      modifies this`particles
      ensures particles == ParticleSweep(old(particles), 0, |old(particles)|)
      ensures |particles| <= |old(particles)|
    {
      ghost var start := particles;
      var len := |particles|;
      var k := 0;
      while k < len
        invariant 0 <= k <= len
        invariant ParticleSweep(particles, k, len) == ParticleSweep(start, 0, len)
        decreases len - k
      {
        particles := ParticleStep(particles, k);
        k := k + 1;
      }
      ParticleSweepShrinks(start, 0, len);
    }

    /** `spawnAsteroid`: one asteroid pushed onto the list. */
    method SpawnAsteroid(d: Dice)
      requires DiceValid(d)
      modifies this`asteroids
      ensures asteroids == old(asteroids) + [SpawnedAsteroid(d, difficulty, width)]
    {
      asteroids := asteroids + [SpawnedAsteroid(d, difficulty, width)];
    }

    /** `spawnPowerUp`: three times in ten a shield or slow-motion power-up,
        even odds, just above the canvas. */
    method SpawnPowerUp(d: Dice)
      requires Valid() && DiceValid(d)
      modifies this`powerUps
      ensures d.powerSpawn < 0.3 ==> powerUps == old(powerUps) + [SpawnedPowerUp(d.powerX, d.powerKind, width)]
      ensures d.powerSpawn >= 0.3 ==> powerUps == old(powerUps)
    {
      if d.powerSpawn < 0.3 {
        powerUps := powerUps + [SpawnedPowerUp(d.powerX, d.powerKind, width)];
      }
    }

    /** `updateGame`: one frame, only while playing; otherwise nothing
        changes.  The score never drops, the high score never drops, and
        the game stays playing or ends. */
    method UpdateGame(d: Dice)
      requires Valid() && DiceValid(d)
      modifies this
      ensures Valid()
      ensures old(state) != Playing ==> unchanged(this)
      ensures old(state) == Playing ==>
                var f := SweepFrame(old(asteroids), old(powerUps), old(particles), PlayerRect(),
                                    old(shield) && old(shieldTime) > 1, height);
                && asteroids == f.asteroids + NewAsteroids(d, difficulty, width)
                && powerUps == f.powerUps + NewPowerUps(d, width)
                && particles == f.particles
                && score == old(score) + f.gain
                && state == (if f.hit then GameOver else Playing)
      ensures old(state) == Playing ==> state == Playing || state == GameOver
      ensures score >= old(score) && highScore >= old(highScore)
      ensures old(OnCanvas()) ==> OnCanvas()
    {
      if state != Playing {
        return;
      }
      PlayFrame(d);
    }

    /** The body of a frame while playing: move the craft, count the shield
        down, run the three sweeps with the moved craft and the counted-down
        shield, then maybe append one asteroid and one power-up. */
    method PlayFrame(d: Dice)
      requires Valid() && DiceValid(d) && state == Playing
      modifies this
      ensures Valid()
      ensures var f := SweepFrame(old(asteroids), old(powerUps), old(particles), PlayerRect(),
                                  old(shield) && old(shieldTime) > 1, height);
              && asteroids == f.asteroids + NewAsteroids(d, difficulty, width)
              && powerUps == f.powerUps + NewPowerUps(d, width)
              && particles == f.particles
              && score == old(score) + f.gain
              && state == (if f.hit then GameOver else Playing)
      ensures state == Playing || state == GameOver
      ensures score >= old(score) && highScore >= old(highScore)
      ensures old(OnCanvas()) ==> OnCanvas()
    {
      Advance();
      ghost var f := SweepFrame(asteroids, powerUps, particles, PlayerRect(), shield, height);
      var pick := (d.fact * (FactCount as real)).Floor;
      Sweeps(if pick < 0 then 0 else pick as nat);
      assert asteroids == f.asteroids && powerUps == f.powerUps && particles == f.particles
             && score == old(score) + f.gain && state == (if f.hit then GameOver else Playing);
      Spawns(d);
    }

    /** The start of a frame: move the craft, then count the shield down. */
    method Advance()
      requires Valid()
      modifies this`px, this`py, this`shield, this`shieldTime
      ensures Valid()
      ensures px == AxisStep(old(px), MovingLeft(), MovingRight(), width - PlayerWidth)
      ensures py == AxisStep(old(py), MovingUp(), MovingDown(), height - PlayerHeight)
      ensures shield == (old(shield) && old(shieldTime) > 1)
      ensures old(OnCanvas()) ==> OnCanvas()
    {
      MovePlayer();
      UpdateShield();
    }

    /** The three sweeps of a frame, as `SweepFrame` gives them: an
        unshielded hit ends the game, and a collected shield is raised for
        300 frames. */
    method Sweeps(pick: nat)
      requires Valid() && state == Playing
      modifies this`asteroids, this`powerUps, this`particles, this`score, this`state, this`fact,
               this`highScore, this`shield, this`shieldTime
      ensures Valid()
      ensures var f := SweepFrame(old(asteroids), old(powerUps), old(particles), PlayerRect(), old(shield), height);
              && asteroids == f.asteroids && powerUps == f.powerUps && particles == f.particles
              && score == old(score) + f.gain
              && state == (if f.hit then GameOver else Playing)
              && fact == (if f.hit then Some(pick) else old(fact))
              && highScore == (if f.hit && old(score) > old(highScore) then old(score) else old(highScore))
              && (f.shieldCollected ==> shield && shieldTime == ShieldFrames)
              && (!f.shieldCollected ==> shield == old(shield) && shieldTime == old(shieldTime))
      ensures state == Playing || state == GameOver
      ensures score >= old(score) && highScore >= old(highScore)
    {
      UpdateAsteroids(pick);
      UpdatePowerUps();
      UpdateParticles();
    }

    /** The two spawn rolls of a frame, each appending what it spawns. */
    method Spawns(d: Dice)
      requires Valid() && DiceValid(d)
      modifies this`asteroids, this`powerUps
      ensures asteroids == old(asteroids) + NewAsteroids(d, difficulty, width)
      ensures powerUps == old(powerUps) + NewPowerUps(d, width)
    {
      if d.asteroidChance < (if difficulty == Inner then 0.02 else 0.04) {
        SpawnAsteroid(d);
      } else {
        assert asteroids == asteroids + [];
      }
      if d.powerChance < 0.005 {
        SpawnPowerUp(d);
      }
      if !(d.powerChance < 0.005 && d.powerSpawn < 0.3) {
        assert powerUps == powerUps + [];
      }
    }
  }
}
