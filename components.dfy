/** The component records of the brick-breaker world, the names they are stored
    under, the factory functions that build them with their default values, the
    callback tags that stand for the closures the records carry, and the
    per-frame inputs (clock, mouse, keys and random draws) that the game reads
    from the outside. */
module Components {

  /** An entity is an opaque, strictly increasing number. */
  type EntityId = nat

  /** A JavaScript value that may be missing: None stands for `null` or
      `undefined` (and, for a component name, for any value that is not a string). */
  datatype Option<+T> = None | Some(value: T)

  /** The playfield constants (breakout.js:84-87). */
  const PLAYFIELD_WIDTH: real := 400.0
  const PLAYFIELD_HEIGHT: real := 400.0

  /** The names components are stored under: the string keys "name", "score",
      "lives", "level", "bricks", "state", "allBricksDestroyed", "shape",
      "velocity", "position", "boundedByRect", "mouseControl", "stats",
      "respawn", "brickHitTrigger" and "explosion", the only ones the program uses. */
  datatype Key =
    | NAME | SCORE | LIVES | LEVEL | BRICKS | STATE | ALL_BRICKS_DESTROYED
    | SHAPE | VELOCITY | POSITION | BOUNDED_BY_RECT | MOUSE_CONTROL | STATS
    | RESPAWN | BRICK_HIT_TRIGGER | EXPLOSION

  /** The four values the game's `state` string takes. */
  datatype Phase = Playing | Paused | GameOver | Respawning

  datatype Rect = Rect(x: real, y: real, width: real, height: real)

  /** The closures stored in components, as tags the world dispatches on.
      Each `No…` tag is a factory's default `() => {}`. */
  datatype TriggerAction = NoTriggerAction | WinCheck
  datatype BottomAction = NoBottomAction | BallBottom
  datatype HitAction = NoHitAction | BrickHit(brick: EntityId)
  /** RespawnInitBall: `() => initBall()` (life lost, new game);
      RespawnWinInitBall: `() => { initBall(); state.state = "playing" }` (level cleared);
      RespawnLaunchBall: the second-stage timer that initBall itself attaches. */
  datatype RespawnAction = NoRespawnAction | RespawnInitBall | RespawnWinInitBall | RespawnLaunchBall

  /** A positive duration; an explosion's lifetime divides a particle's age. */
  type Duration = d: real | d > 0.0 witness 1.0

  // The records, field for field as the factories build them.

  datatype Shape = Shape(fill: string, stroke: string, width: real, height: real, shape: string,
                         show: bool, showPosition: bool, showBoundingBox: bool)
  datatype Velocity = Velocity(dx: real, dy: real, speed: real)
  datatype Position = Position(x: real, y: real, show: bool)
  datatype Text = Text(text: string, show: bool, fontSize: int, font: string, color: string)
  datatype BoundedByRect = BoundedByRect(bounds: Rect, onBottomHit: BottomAction)
  datatype MouseControl = MouseControl(offsetY: real, active: bool)
  datatype Respawn = Respawn(deathTime: real, respawnDelayMS: real, doOnRespawn: RespawnAction)
  datatype Particle = Particle(x: real, y: real, dx: real, dy: real, alpha: real, size: real, createdAt: real)
  datatype Explosion = Explosion(x: real, y: real, color: string, numParticles: nat,
                                 particles: seq<Particle>, lifeTimeMS: Duration)

  /** A record as handed to addComponent. The one-field literals the game
      builds inline (`{ score: 0 }`, `{ hits: 0 }`, …) carry their field. */
  datatype Component =
    | NameData(name: string)
    | ScoreData(score: int)
    | LivesData(lives: int)
    | LevelData(level: int)
    | BricksData(bricks: seq<EntityId>)
    | StateData(state: Phase)
    | TriggerData(doOnTrigger: TriggerAction)
    | ShapeData(shape: Shape)
    | VelocityData(velocity: Velocity)
    | PositionData(position: Position)
    | BoundsData(bounded: BoundedByRect)
    | MouseData(mouse: MouseControl)
    | StatsData(hits: int)
    | RespawnData(respawn: Respawn)
    | HitData(doOnHit: HitAction)
    | ExplosionData(explosion: Explosion)

  /** A record fits a name when it is the kind of record the game stores and
      reads under that name. */
  predicate Fits(n: Key, c: Component) {
    match n
    case NAME => c.NameData?
    case SCORE => c.ScoreData?
    case LIVES => c.LivesData?
    case LEVEL => c.LevelData?
    case BRICKS => c.BricksData?
    case STATE => c.StateData?
    case ALL_BRICKS_DESTROYED => c.TriggerData?
    case SHAPE => c.ShapeData?
    case VELOCITY => c.VelocityData?
    case POSITION => c.PositionData?
    case BOUNDED_BY_RECT => c.BoundsData?
    case MOUSE_CONTROL => c.MouseData?
    case STATS => c.StatsData?
    case RESPAWN => c.RespawnData?
    case BRICK_HIT_TRIGGER => c.HitData?
    case EXPLOSION => c.ExplosionData?
  }

  /** The sin/cos of a random launch angle and a random speed, as drawn by initBall. */
  datatype Launch = Launch(dx: real, dy: real, speed: real)

  /** One particle's random draws in makeParticle: cos(angle)*speed, sin(angle)*speed, size. */
  datatype Spark = Spark(dx: real, dy: real, size: real)

  /** What one frame reads from outside the core: millis(), mouseX, whether P is
      held, mouseIsPressed, the random draws, and the speed-normalisation ratio
      `currentSpeed / newSpeed` of the paddle bounce (a square root, computed outside). */
  datatype Input = Input(
    now: real,
    mouseX: real,
    pauseHeld: bool,
    mouseDown: bool,
    launch: Launch,
    brickColor: EntityId -> string,
    spark: nat -> Spark,
    bounceScale: real)

  // Factories (breakout.js:187-263, 312-340): record constructors with the
  // source's default arguments.

  function MakeVelocity(dx: real := 0.0, dy: real := 0.0, speed: real := 1.0): (v: Velocity)
    ensures v.dx == dx && v.dy == dy && v.speed == speed
  {
    Velocity(dx, dy, speed)
  }

  function MakePosition(x: real := 0.0, y: real := 0.0, show: bool := false): (p: Position)
    ensures p.x == x && p.y == y && p.show == show
  {
    Position(x, y, show)
  }

  function MakeBoundedByRect(bounds: Rect := Rect(0.0, 0.0, PLAYFIELD_WIDTH, PLAYFIELD_HEIGHT),
                             onBottomHit: BottomAction := NoBottomAction): (b: BoundedByRect)
    ensures b.bounds == bounds && b.onBottomHit == onBottomHit
  {
    BoundedByRect(bounds, onBottomHit)
  }

  function MakeShape(fill: string := "white", stroke: string := "black",
                     width: real := 10.0, height: real := 10.0, shape: string := "rect",
                     show: bool := true, showPosition: bool := false,
                     showBoundingBox: bool := false): (s: Shape)
    ensures s.fill == fill && s.stroke == stroke && s.shape == shape
    ensures s.width == width && s.height == height && s.show == show
  {
    Shape(fill, stroke, width, height, shape, show, showPosition, showBoundingBox)
  }

  function MakeText(text: string := "<text>"): (t: Text)
    ensures t.text == text && t.show && t.fontSize == 12
  {
    Text(text, true, 12, "Arial", "black")
  }

  function MakeMouseControl(offsetY: real := 30.0): (m: MouseControl)
    ensures m.offsetY == offsetY && m.active
  {
    MouseControl(offsetY, true)
  }

  /** A respawn timer always starts with deathTime 0; callers stamp it afterwards. */
  function MakeRespawn(respawnDelayMS: real := 1500.0,
                       doOnRespawn: RespawnAction := NoRespawnAction): (r: Respawn)
    ensures r.deathTime == 0.0 && r.respawnDelayMS == respawnDelayMS && r.doOnRespawn == doOnRespawn
  {
    Respawn(0.0, respawnDelayMS, doOnRespawn)
  }

  /** makeParticle: a particle at (x, y), fully opaque, born now. */
  function MakeParticle(x: real, y: real, spark: Spark, now: real): (p: Particle)
    ensures p.x == x && p.y == y && p.alpha == 1.0 && p.createdAt == now
    ensures p.dx == spark.dx && p.dy == spark.dy && p.size == spark.size
  {
    Particle(x, y, spark.dx, spark.dy, 1.0, spark.size, now)
  }

  /** makeExplosion: numParticles particles born now at (x, y), living 500 ms.
      The random draws and the clock are inputs and come first; colour and
      particle count keep the source's defaults, black and 10. */
  function MakeExplosion(x: real, y: real, spark: nat -> Spark, now: real,
                         color: string := "black", numParticles: nat := 10): (c: Explosion)
    ensures |c.particles| == numParticles == c.numParticles
    ensures c.x == x && c.y == y && c.color == color && c.lifeTimeMS == 500.0
    ensures forall i | 0 <= i < |c.particles| :: c.particles[i] == MakeParticle(x, y, spark(i), now)
  {
    Explosion(x, y, color, numParticles,
              seq(numParticles, i requires 0 <= i < numParticles => MakeParticle(x, y, spark(i), now)),
              500.0)
  }
}
