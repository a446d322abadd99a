/** The game as the program runs it: one object holding the entity store,
    the id counter, the handles of the core entities and the two module-level
    flags, whose methods update them in place the way breakout.js does. Each
    method is proved to leave the object in the state the matching function
    of the model describes, and the fatal `error` of the source sets `fault`,
    after which nothing runs. */
module Breakout {
  import opened Components
  import opened Ecs
  import opened Core
  import opened Geometry
  import opened Triggers
  import opened Systems
  import opened Boundary
  import opened Respawning
  import opened Collision
  import opened Frame
  import Setup

  /** The uncaught error a dead run carries, if any. */
  function FaultOf(r: Run): (f: Option<Crash>)
    ensures f.None? <==> r.Live?
    ensures r.Dead? ==> f == Some(r.crash)
  {
    if r.Live? then None else Some(r.crash)
  }

  /** Move written with the new coordinates named. */
  lemma MoveTo(c: Entity, x: real, y: real)
    requires Moves(c)
    requires x == c.position.value.x + c.velocity.value.dx * c.velocity.value.speed
    requires y == c.position.value.y + c.velocity.value.dy * c.velocity.value.speed
    ensures Move(c) == c.(position := Some(c.position.value.(x := x, y := y)))
  {
    var m := Move(c).position.value;
    assert m.x == x && m.y == y && m.show == c.position.value.show;
    assert m == Position(x, y, c.position.value.show);
  }

  /** Bounce written with the new velocity named. */
  lemma BounceIs(ball: Entity, paddle: Entity, scale: real, dx: real, dy: real)
    requires ball.position.Some? && ball.shape.Some? && ball.velocity.Some?
    requires paddle.position.Some? && paddle.shape.Some? && paddle.shape.value.width > 0.0
    requires dy == -Abs(ball.velocity.value.dy) * scale
    requires dx == (HitPosition(ball, paddle) / (paddle.shape.value.width / 2.0)) * Abs(-Abs(ball.velocity.value.dy)) * scale
    ensures Bounce(ball, paddle, scale)
            == ball.(velocity := Some(ball.velocity.value.(dx := dx, dy := dy)),
                     position := Some(ball.position.value.(y := paddle.position.value.y - ball.shape.value.height)))
  {
    var v := Bounce(ball, paddle, scale).velocity.value;
    assert v.dx == dx && v.dy == dy && v.speed == ball.velocity.value.speed;
    assert v == ball.velocity.value.(dx := dx, dy := dy);
  }

  class World {
    var world: Store
    var nextEntityId: nat
    var handles: Handles
    var pauseKeyWasPressed: Option<bool>
    var mouseWasPressed: bool
    var fault: Option<Crash>

    /** Every id in use was handed out by the counter. */
    ghost predicate Ids()
      reads this
    {
      forall e | e in world :: e < nextEntityId
    }

    /** The core entities hold what the systems read, and the counter is
        ahead of every id. */
    ghost predicate Valid()
      reads this
    {
      Shaped(handles, world) && Ids()
    }

    /** The object as the frame model sees it. */
    function Snapshot(): Sim
      reads this
    {
      Sim(world, pauseKeyWasPressed, mouseWasPressed, fault)
    }

    /** Nothing but the store and the fault changed. */
    twostate predicate Rest()
      reads this
    {
      && nextEntityId == old(nextEntityId) && handles == old(handles)
      && pauseKeyWasPressed == old(pauseKeyWasPressed) && mouseWasPressed == old(mouseWasPressed)
    }

    /** setup without the canvas (breakout.js:880-887): createCoreEntities with
        the colour drawn for each brick, then initGame at time now. The pause
        flag is not yet a variable and the mouse flag is false. */
    constructor (brickColor: EntityId -> string, now: real)
      ensures handles == Setup.CORE && nextEntityId == 4 + Setup.NUM_ROWS * Setup.NUM_COLS
      ensures Shaped(Setup.CORE, Setup.CoreWorld(brickColor))
      ensures world == Frame.InitGame(Setup.CORE, Setup.CoreWorld(brickColor), now) && Valid()
      ensures fault.None? && pauseKeyWasPressed.None? && !mouseWasPressed
    {
      world := map[];
      nextEntityId := 0;
      handles := Handles(0, 0, 0, 0);
      pauseKeyWasPressed := None;
      mouseWasPressed := false;
      fault := None;
      new;
      CreateCoreEntities(brickColor);
      InitGame(now);
    }

    // The store (breakout.js:96-181).

    /** createEntity: a new id from the counter, holding only its name. */
    method CreateEntity(name: string := "<unnamed>") returns (eid: EntityId)
      requires Ids()
      modifies this
      ensures eid == old(nextEntityId) && nextEntityId == eid + 1
      ensures world == Create(old(world), eid, name) && Ids()
      ensures handles == old(handles) && fault == old(fault)
      ensures pauseKeyWasPressed == old(pauseKeyWasPressed) && mouseWasPressed == old(mouseWasPressed)
    {
      eid := nextEntityId;
      nextEntityId := nextEntityId + 1;
      world := world[eid := Named(name)];
    }

    /** addComponent: the checks in the source's order; a failed one is
        fatal and leaves the store as it was. */
    method AddComponent(eid: EntityId, name: Option<Key>, data: Option<Component>)
      requires name.Some? && data.Some? ==> Fits(name.value, data.value)
      modifies this
      ensures var r := Add(old(world), eid, name, data);
              && (r.Ok? ==> world == r.value && fault == old(fault))
              && (r.Err? ==> world == old(world) && fault == Some(StoreError(r.fault)))
      ensures Rest()
    {
      if name.None? {
        fault := Some(StoreError(BadComponentName));
        return;
      }
      if data.None? {
        fault := Some(StoreError(NullData));
        return;
      }
      if eid !in world {
        fault := Some(StoreError(UnknownEntity(eid)));
        return;
      }
      if Has(world[eid], name.value) {
        fault := Some(StoreError(DuplicateComponent(eid, name.value)));
        return;
      }
      world := world[eid := With(world[eid], name.value, data.value)];
    }

    /** removeComponent: fatal for an unknown entity or a missing entry. */
    method RemoveComponent(eid: EntityId, name: Key)
      modifies this
      ensures var r := Remove(old(world), eid, name);
              && (r.Ok? ==> world == r.value && fault == old(fault))
              && (r.Err? ==> world == old(world) && fault == Some(StoreError(r.fault)))
      ensures Rest()
    {
      if eid !in world {
        fault := Some(StoreError(UnknownEntity(eid)));
        return;
      }
      if !Has(world[eid], name) {
        fault := Some(StoreError(MissingComponent(eid, name)));
        return;
      }
      world := world[eid := Without(world[eid], name)];
    }

    /** getComponent: the stored record, or a fatal error; the store is
        never changed. */
    method GetComponent(eid: EntityId, name: Key) returns (c: Option<Component>)
      modifies this
      ensures var r := Get(world, eid, name);
              && (r.Ok? ==> c == Some(r.value) && fault == old(fault))
              && (r.Err? ==> c.None? && fault == Some(StoreError(r.fault)))
      ensures world == old(world) && Rest()
    {
      if eid !in world {
        fault := Some(StoreError(UnknownEntity(eid)));
        return None;
      }
      c := Slot(world[eid], name);
      if c.None? {
        fault := Some(StoreError(MissingComponent(eid, name)));
      }
    }

    // The per-entity systems (breakout.js:345-359, 449-479, 617-655).

    /** One entity's turn in movementSystem: a moving entity not waiting on
        a respawn timer advances by its velocity times its speed. */
    method MoveEntity(e: EntityId)
      requires e in world
      modifies this
      ensures Rest() && fault == old(fault)
      ensures world == old(world)[e := Move(old(world)[e])]
    {
      var c := world[e];
      if c.velocity.Some? && c.position.Some? && c.respawn.None? {
        var v := c.velocity.value;
        var p := c.position.value;
        var x := p.x + v.dx * v.speed;
        var y := p.y + v.dy * v.speed;
        MoveTo(c, x, y);
        world := world[e := c.(position := Some(p.(x := x, y := y)))];
      }
    }

    /** movementSystem. */
    method MovementSystem()
      requires Valid()
      modifies this
      ensures Rest() && fault == old(fault)
      ensures world == Systems.MovementSystem(handles, old(world), nextEntityId) && Valid()
    {
      ghost var w0 := world;
      var e := 0;
      while e < nextEntityId
        invariant e <= nextEntityId && world.Keys == w0.Keys
        invariant Sweep(world, e, nextEntityId, Move) == Sweep(w0, 0, nextEntityId, Move)
        invariant Rest() && fault == old(fault) && handles == old(handles)
      {
        if e in world {
          SweepStep(world, e, nextEntityId, Move, Move(world[e]));
          MoveEntity(e);
        } else {
          SweepSkip(world, e, nextEntityId, Move);
        }
        e := e + 1;
      }
    }

    /** One entity's turn in mouseControlSystem: an active control puts the
        entity's centre under the mouse, within the allowed overhang, at
        its fixed height above the bottom. */
    method SteerEntity(e: EntityId, mouseX: real)
      requires e in world
      modifies this
      ensures Rest() && fault == old(fault)
      ensures world == old(world)[e := Steer(old(world)[e], mouseX)]
    {
      var c := world[e];
      if c.mouseControl.Some? && c.position.Some? && c.shape.Some? && c.mouseControl.value.active {
        var wd := c.shape.value.width;
        var x := mouseX - wd / 2.0;
        x := Constrain(x, -PCT_PADDLE_OFF_SCREEN * wd, PLAYFIELD_WIDTH - wd + PCT_PADDLE_OFF_SCREEN * wd);
        var p := c.position.value.(x := x, y := PLAYFIELD_HEIGHT - c.mouseControl.value.offsetY);
        world := world[e := c.(position := Some(p))];
      }
    }

    /** mouseControlSystem. */
    method MouseControlSystem(mouseX: real)
      requires Valid()
      modifies this
      ensures Rest() && fault == old(fault)
      ensures world == Systems.MouseControlSystem(handles, old(world), nextEntityId, mouseX) && Valid()
    {
      ghost var w0 := world;
      ghost var f := SteerTo(mouseX);
      var e := 0;
      while e < nextEntityId
        invariant e <= nextEntityId && world.Keys == w0.Keys
        invariant Sweep(world, e, nextEntityId, f) == Sweep(w0, 0, nextEntityId, f)
        invariant Rest() && fault == old(fault) && handles == old(handles)
      {
        if e in world {
          SweepStep(world, e, nextEntityId, f, f(world[e]));
          SteerEntity(e, mouseX);
        } else {
          SweepSkip(world, e, nextEntityId, f);
        }
        e := e + 1;
      }
    }

    /** The particle update loop of one explosion: each particle moved and
        its alpha set from its age. */
    static method DriftParticles(ps: seq<Particle>, now: real, life: Duration) returns (qs: seq<Particle>)
      ensures qs == DriftAll(ps, now, life)
    {
      qs := [];
      var i := 0;
      while i < |ps|
        invariant i <= |ps| && |qs| == i
        invariant forall k | 0 <= k < i :: qs[k] == Drift(ps[k], now, life)
      {
        var p := ps[i];
        var age := now - p.createdAt;
        qs := qs + [p.(x := p.x + p.dx, y := p.y + p.dy, alpha := 1.0 - age / life)];
        i := i + 1;
      }
    }

    /** `particles.filter(p => millis() - p.createdAt < lifeTimeMS)`. */
    static method FilterYoung(ps: seq<Particle>, now: real, life: Duration) returns (qs: seq<Particle>)
      ensures qs == Survivors(ps, now, life)
    {
      qs := [];
      var i := 0;
      while i < |ps|
        invariant i <= |ps|
        invariant qs + Survivors(ps[i..], now, life) == Survivors(ps, now, life)
      {
        SurvivorsStep(ps, i, now, life);
        if now - ps[i].createdAt < life {
          assert qs + ([ps[i]] + Survivors(ps[i + 1..], now, life))
              == (qs + [ps[i]]) + Survivors(ps[i + 1..], now, life);
          qs := qs + [ps[i]];
        } else {
          assert [] + Survivors(ps[i + 1..], now, life) == Survivors(ps[i + 1..], now, life);
        }
        i := i + 1;
      }
    }

    /** The particles of one explosion updated, then the expired ones
        dropped. */
    static method TickParticles(x: Explosion, now: real) returns (kept: seq<Particle>)
      ensures Tick(x, now) == if |kept| == 0 then None else Some(x.(particles := kept))
    {
      var moved := DriftParticles(x.particles, now, x.lifeTimeMS);
      kept := FilterYoung(moved, now, x.lifeTimeMS);
    }

    /** The explosion record written back, and dropped once empty, is what
        Fade makes of the entity. */
    static lemma FadeParts(c: Entity, now: real, kept: seq<Particle>)
      requires c.explosion.Some?
      requires Tick(c.explosion.value, now) == if |kept| == 0 then None else Some(c.explosion.value.(particles := kept))
      ensures var d := c.(explosion := Some(c.explosion.value.(particles := kept)));
              Fade(c, now) == if |kept| == 0 then Without(d, EXPLOSION) else d
    {
    }

    /** One entity's turn in explosionSystem: its particles updated and
        filtered, and the explosion removed once none is left. */
    method FadeEntity(e: EntityId, now: real)
      requires e in world
      modifies this
      ensures Rest() && fault == old(fault)
      ensures world == old(world)[e := Fade(old(world)[e], now)]
    {
      var c := world[e];
      if c.explosion.Some? {
        var x := c.explosion.value;
        var kept := TickParticles(x, now);
        FadeParts(c, now, kept);
        var d := c.(explosion := Some(x.(particles := kept)));
        world := world[e := d];
        if |kept| == 0 {
          RemoveComponent(e, EXPLOSION);
        }
      }
    }

    /** explosionSystem without the drawing: the particles of every
        explosion updated and filtered, and an empty explosion removed. */
    method ExplosionSystem(now: real)
      requires Valid()
      modifies this
      ensures Rest() && fault == old(fault)
      ensures world == Systems.ExplosionSystem(handles, old(world), nextEntityId, now) && Valid()
    {
      ghost var w0 := world;
      ghost var f := FadeAt(now);
      var e := 0;
      while e < nextEntityId
        invariant e <= nextEntityId && world.Keys == w0.Keys
        invariant Sweep(world, e, nextEntityId, f) == Sweep(w0, 0, nextEntityId, f)
        invariant Rest() && fault == old(fault) && handles == old(handles)
      {
        if e in world {
          SweepStep(world, e, nextEntityId, f, f(world[e]));
          FadeEntity(e, now);
        } else {
          SweepSkip(world, e, nextEntityId, f);
        }
        e := e + 1;
      }
      assert world == Systems.ExplosionSystem(handles, w0, nextEntityId, now);
    }

    // The callbacks (breakout.js:265-301, 691-729, 744-762, 818-828).

    /** `getComponent(e, "shape").show = on`. */
    method ShowEntity(e: EntityId, on: bool)
      requires Valid() && e in world && world[e].shape.Some?
      modifies this
      ensures Rest() && fault == old(fault)
      ensures world == Show(handles, old(world), e, on) && Valid()
    {
      world := world[e := world[e].(shape := Some(world[e].shape.value.(show := on)))];
    }

    /** `getComponent(game, "state").state = p`. */
    method SetState(p: Phase)
      requires Valid()
      modifies this
      ensures Rest() && fault == old(fault)
      ensures world == Triggers.SetState(handles, old(world), p) && Valid()
    {
      var g := handles.game;
      world := world[g := world[g].(state := Some(p))];
    }

    /** initBall with this frame's launch draw. */
    method InitBall(launch: Launch)
      requires Valid()
      modifies this
      ensures Rest() && fault == old(fault)
      ensures world == Triggers.InitBall(handles, old(world), launch) && Valid()
    {
      var b := handles.ball;
      var c := world[b];
      var render := c.shape.value.(show := true);
      var pos := c.position.value.(x := PLAYFIELD_WIDTH / 2.0 - render.width / 2.0,
                                   y := PLAYFIELD_HEIGHT / 2.0 - render.height / 2.0);
      world := world[b := c.(velocity := Some(Velocity(launch.dx, launch.dy, launch.speed)),
                             shape := Some(render), position := Some(pos))];
      assert world == PlaceBall(handles, old(world), launch);
      ghost var w1 := world;
      if Has(world[b], RESPAWN) {
        RemoveComponent(b, RESPAWN);
      }
      AddComponent(b, Some(RESPAWN), Some(RespawnData(MakeRespawn(1000.0, RespawnLaunchBall))));
      assert world == ReplaceTimer(handles, w1, MakeRespawn(1000.0, RespawnLaunchBall));
    }

    /** The launch timer's callback: a new velocity, then back to playing. */
    method LaunchBall(launch: Launch)
      requires Valid()
      modifies this
      ensures Rest() && fault == old(fault)
      ensures world == Triggers.LaunchBall(handles, old(world), launch) && Valid()
    {
      var b := handles.ball;
      world := world[b := world[b].(velocity := Some(Velocity(launch.dx, launch.dy, launch.speed)))];
      var g := handles.game;
      world := world[g := world[g].(state := Some(Playing))];
    }

    /** `respawn.doOnRespawn()`. */
    method DoOnRespawn(a: RespawnAction, launch: Launch)
      requires Valid()
      modifies this
      ensures Rest() && fault == old(fault)
      ensures world == OnRespawn(handles, old(world), a, launch) && Valid()
    {
      match a {
        case NoRespawnAction =>
        case RespawnInitBall => InitBall(launch);
        case RespawnWinInitBall =>
          InitBall(launch);
          SetState(Playing);
        case RespawnLaunchBall => LaunchBall(launch);
      }
    }

    /** The second half of onBottomHit, with lives to spare: a 1500 ms timer
        that re-runs initBall is attached (fatal when one is there), the ball
        hidden and the timer stamped. */
    method ArmBall(now: real)
      requires Valid() && fault.None?
      modifies this
      ensures Rest()
      ensures var r := Arm(handles, old(world), 1500.0, RespawnInitBall, now);
              && (r.Dead? ==> world == r.w && fault == Some(r.crash))
              && (r.Live? ==> world == Show(handles, r.w, handles.ball, false) && fault.None?)
      ensures Valid()
    {
      var b := handles.ball;
      AttachBallTimer();
      if fault.Some? {
        return;
      }
      ghost var w0 := old(world);
      ghost var c3 := w0[b].(respawn := Some(Respawn(now, 1500.0, RespawnInitBall)),
                             shape := Some(w0[b].shape.value.(show := false)));
      ArmThenHide(handles, w0, 1500.0, RespawnInitBall, now);
      var c := world[b];
      c := c.(shape := Some(c.shape.value.(show := false)));
      c := c.(respawn := Some(c.respawn.value.(deathTime := now)));
      world := world[b := c];
      assert c == c3;
      Touch(handles, w0, b, c3);
    }

    /** addComponent(ball, "respawn", makeRespawn(1500, <initBall>)): the
        timer as Arm attaches it, with deathTime still 0. */
    method AttachBallTimer()
      requires Valid() && fault.None?
      modifies this
      ensures Rest() && Valid()
      ensures var r := Arm(handles, old(world), 1500.0, RespawnInitBall, 0.0);
              && world == r.w
              && (r.Dead? ==> fault == Some(r.crash))
              && (r.Live? ==> fault.None?)
    {
      var b := handles.ball;
      AddComponent(b, Some(RESPAWN), Some(RespawnData(MakeRespawn(1500.0, RespawnInitBall))));
      assert world == Arm(handles, old(world), 1500.0, RespawnInitBall, 0.0).w;
    }

    /** `getComponent(ball, "respawn").deathTime = now`. */
    method StampBall(now: real)
      requires Valid() && world[handles.ball].respawn.Some?
      modifies this
      ensures Rest() && fault == old(fault)
      ensures world == Stamped(old(world), handles.ball, now) && Valid()
    {
      var b := handles.ball;
      world := world[b := world[b].(respawn := Some(world[b].respawn.value.(deathTime := now)))];
      Touch(handles, old(world), b, world[b]);
    }

    /** The ball's onBottomHit. */
    method OnBottomHit(now: real)
      requires Valid() && fault.None?
      modifies this
      ensures Rest()
      ensures var r := BallBottomFn(handles, old(world), now); world == r.w && fault == FaultOf(r)
      ensures Valid()
    {
      var g := handles.game;
      world := world[g := world[g].(lives := Some(world[g].lives.value - 1))];
      ghost var w1 := LoseLife(handles, old(world));
      assert world == w1;
      if world[g].lives.value <= 0 {
        SetState(GameOver);
        ShowEntity(handles.ball, false);
        return;
      }
      ArmBall(now);
    }

    /** A brick's doOnHit. */
    method DoOnHit(brick: EntityId, now: real, spark: nat -> Spark)
      requires Valid() && fault.None? && BrickOk(handles, world, brick)
      modifies this
      ensures Rest()
      ensures var r := BrickHitFn(handles, old(world), brick, now, spark); world == r.w && fault == FaultOf(r)
      ensures Valid()
    {
      var g := handles.game;
      world := world[g := world[g].(score := Some(world[g].score.value + 10))];
      ghost var w1 := AddScore(handles, old(world), 10);
      assert world == w1;
      ShowEntity(brick, false);
      var pos := world[brick].position.value;
      var render := world[brick].shape.value;
      AddComponent(brick, Some(EXPLOSION), Some(ExplosionData(MakeExplosion(pos.x, pos.y, spark, now, render.fill, 10))));
    }

    /** One pass of the brick reset loop: `render.show = true`, and
        `render.fill = randBrickColor()` when recolouring. */
    method RevealBrick(b: EntityId, paint: Option<EntityId -> string>)
      requires b in world && world[b].shape.Some?
      modifies this
      ensures Rest() && fault == old(fault)
      ensures world == old(world)[b := Revealed(old(world)[b], paint, b)]
    {
      var render := world[b].shape.value;
      if paint.Some? {
        render := render.(show := true, fill := paint.value(b));
      } else {
        render := render.(show := true);
      }
      world := world[b := world[b].(shape := Some(render))];
    }

    /** The brick reset loop over a list of bricks. */
    method RevealList(bs: seq<EntityId>, paint: Option<EntityId -> string>)
      requires forall b | b in bs :: b in world && world[b].shape.Some?
      modifies this
      ensures Rest() && fault == old(fault)
      ensures world == RevealAll(old(world), bs, paint)
    {
      ghost var goal := RevealAll(world, bs, paint);
      var i := 0;
      while i < |bs|
        invariant i <= |bs| && world.Keys == old(world).Keys
        invariant forall b | b in bs :: b in world && world[b].shape.Some?
        invariant RevealAll(world, bs[i..], paint) == goal
        invariant Rest() && fault == old(fault)
      {
        var b := bs[i];
        assert b in bs;
        assert bs[i..][1..] == bs[i + 1..];
        RevealBrick(b, paint);
        i := i + 1;
      }
      assert bs[i..] == [];
    }

    /** The brick reset loop on the game's bricks: every one shown and, when
        a palette is given, recoloured. */
    method RevealBricks(paint: Option<EntityId -> string>)
      requires Valid()
      modifies this
      ensures Rest() && fault == old(fault)
      ensures world == Triggers.RevealBricks(handles, old(world), paint) && Valid()
    {
      var bs := world[handles.game].bricks.value;
      assert forall b | b in bs :: BrickOk(handles, world, b);
      RevealList(bs, paint);
    }

    /** `bricks.bricks.every(id => !getComponent(id, "shape").show)`. */
    method EveryBrickHidden() returns (all: bool)
      requires Valid()
      ensures all == AllHidden(handles, world)
    {
      var bs := world[handles.game].bricks.value;
      BricksPlaced(handles, world);
      var i := 0;
      while i < |bs|
        invariant i <= |bs|
        invariant forall k | 0 <= k < i :: !world[bs[k]].shape.value.show
      {
        if world[bs[i]].shape.value.show {
          assert bs[i] in bs;
          return false;
        }
        i := i + 1;
      }
      forall b | b in bs ensures !world[b].shape.value.show {
        var k :| 0 <= k < |bs| && bs[k] == b;
      }
      return true;
    }

    /** The game's doOnTrigger, the win check. */
    method DoOnTrigger(now: real, brickColor: EntityId -> string)
      requires Valid() && fault.None?
      modifies this
      ensures Rest()
      ensures var r := WinCheckFn(handles, old(world), now, brickColor); world == r.w && fault == FaultOf(r)
      ensures Valid()
    {
      var all := EveryBrickHidden();
      if !all {
        return;
      }
      var g := handles.game;
      var gc := world[g];
      world := world[g := gc.(state := Some(Respawning), level := Some(gc.level.value + 1),
                              score := Some(gc.score.value + 100))];
      assert world == Advance(handles, old(world));
      RevealBricks(Some(brickColor));
      ShowEntity(handles.ball, false);
      ArmAndStamp(1500.0, RespawnWinInitBall, now);
    }

    /** `addComponent(ball, "respawn", makeRespawn(delay, a))`, then the
        timer's deathTime set to now. */
    method ArmAndStamp(delay: real, a: RespawnAction, now: real)
      requires Valid() && fault.None?
      modifies this
      ensures Rest()
      ensures var r := Arm(handles, old(world), delay, a, now); world == r.w && fault == FaultOf(r)
      ensures Valid()
    {
      var b := handles.ball;
      AddComponent(b, Some(RESPAWN), Some(RespawnData(MakeRespawn(delay, a))));
      if fault.Some? {
        return;
      }
      world := world[b := world[b].(respawn := Some(world[b].respawn.value.(deathTime := now)))];
    }

    // boundarySystem (breakout.js:362-410).

    /** The edge tests and the bounce of one bounded entity, in the source's
        order; `bottom` is the else branch of the top test. */
    static method Bounce(c: Entity) returns (d: Entity, bottom: bool)
      requires Bounded(c)
      ensures d == Reflect(c) && bottom == AtBottom(c)
    {
      var b := c.boundedByRect.value.bounds;
      var pos := c.position.value;
      var vel := c.velocity.value;
      var render := c.shape.value;
      if pos.x <= b.x || pos.x + render.width >= b.x + b.width {
        vel := vel.(dx := -vel.dx);
        pos := pos.(x := Max(b.x, Min(pos.x, b.x + b.width - render.width)));
      }
      bottom := false;
      if pos.y <= b.y {
        vel := vel.(dy := -vel.dy);
        pos := pos.(y := b.y);
      } else if pos.y + render.height >= b.y + b.height {
        bottom := true;
      }
      d := c.(velocity := Some(vel), position := Some(pos));
    }

    /** One entity's turn in boundarySystem. */
    method BoundaryEntity(e: EntityId, now: real)
      requires Valid() && fault.None? && e in world
      modifies this
      ensures Rest()
      ensures var r := BoundaryStep(handles, old(world), e, now); world == r.w && fault == FaultOf(r)
      ensures Valid()
    {
      var c := world[e];
      if !(c.boundedByRect.Some? && c.position.Some? && c.velocity.Some? && c.shape.Some?) {
        return;
      }
      if c.respawn.Some? {
        return;
      }
      var d, bottom := Bounce(c);
      world := world[e := d];
      Touch(handles, old(world), e, d);
      if bottom {
        match c.boundedByRect.value.onBottomHit {
          case NoBottomAction =>
          case BallBottom => OnBottomHit(now);
        }
      }
    }

    /** boundarySystem: the entities in id order, stopping at a fatal error. */
    method BoundarySystem(now: real)
      requires Valid() && fault.None?
      modifies this
      ensures Rest()
      ensures var r := Boundary.BoundarySystem(handles, old(world), nextEntityId, now);
              world == r.w && fault == FaultOf(r)
      ensures Valid()
    {
      var e := 0;
      while e < nextEntityId
        invariant e <= nextEntityId && Valid() && fault.None? && Rest()
        invariant BoundaryFrom(handles, world, e, nextEntityId, now)
                  == BoundaryFrom(handles, old(world), 0, nextEntityId, now)
      {
        if e in world {
          BoundaryEntity(e, now);
          if fault.Some? {
            return;
          }
        }
        e := e + 1;
      }
    }

    // respawnSystem (breakout.js:565-582).

    /** One entity's turn in respawnSystem. */
    method RespawnEntity(e: EntityId, now: real, launch: Launch)
      requires Valid() && e in world
      modifies this
      ensures Rest() && fault == old(fault)
      ensures world == RespawnStep(handles, old(world), e, now, launch) && Valid()
    {
      var c := world[e];
      if c.respawn.Some? && c.shape.Some? {
        var respawn := c.respawn.value;
        if now - respawn.deathTime >= respawn.respawnDelayMS {
          DoOnRespawn(respawn.doOnRespawn, launch);
          ShowEntity(e, true);
          assert Has(world[e], RESPAWN);
          RemoveComponent(e, RESPAWN);
        }
      }
    }

    /** The loop body of respawnSystem at id e: the entity's turn when it
        exists; what is left of the scan is the scan from e + 1. */
    method RespawnTurn(e: nat, now: real, launch: Launch)
      requires Valid() && e < nextEntityId
      modifies this
      ensures Rest() && fault == old(fault) && Valid()
      ensures RespawnFrom(handles, old(world), e, nextEntityId, now, launch)
              == RespawnFrom(handles, world, e + 1, nextEntityId, now, launch)
    {
      if e in world {
        RespawnEntity(e, now, launch);
      }
    }

    /** respawnSystem: the entities in id order. */
    method RespawnSystem(now: real, launch: Launch)
      requires Valid()
      modifies this
      ensures Rest() && fault == old(fault)
      ensures world == Respawning.RespawnSystem(handles, old(world), nextEntityId, now, launch) && Valid()
    {
      var e := 0;
      while e < nextEntityId
        invariant Rest() && fault == old(fault) && e <= nextEntityId && Valid()
        invariant RespawnFrom(handles, world, e, nextEntityId, now, launch)
                  == RespawnFrom(handles, old(world), 0, nextEntityId, now, launch)
      {
        RespawnTurn(e, now, launch);
        e := e + 1;
      }
    }

    // collisionSystem (breakout.js:481-563).

    /** The search half of the brick loop: the index of the first visible
        brick on the list whose box the ball's box overlaps, found by
        scanning the list in order and stopping there. */
    method FindHit(ballC: Entity, bs: seq<EntityId>) returns (hit: Option<nat>)
      requires ballC.position.Some? && ballC.shape.Some? && Placed(world, bs)
      ensures hit == FirstHit(world, ballC, bs, 0)
    {
      var ballPos := ballC.position.value;
      var ballRender := ballC.shape.value;
      var i := 0;
      while i < |bs|
        invariant i <= |bs|
        invariant forall k | 0 <= k < i :: !Strikes(ballC, world[bs[k]])
      {
        var brickPos := world[bs[i]].position.value;
        var brickRender := world[bs[i]].shape.value;
        if brickRender.show
           && ballPos.y + ballRender.height >= brickPos.y
           && ballPos.y <= brickPos.y + brickRender.height
           && ballPos.x + ballRender.width >= brickPos.x
           && ballPos.x <= brickPos.x + brickRender.width
        {
          FirstHitIs(world, ballC, bs, 0, i);
          return Some(i);
        }
        i := i + 1;
      }
      return None;
    }

    /** `ballVel.dy *= -1`. */
    method FlipBallDy()
      requires Valid()
      modifies this
      ensures Rest() && fault == old(fault)
      ensures world == FlipDy(handles, old(world)) && Valid()
    {
      var v := world[handles.ball].velocity.value;
      world := world[handles.ball := world[handles.ball].(velocity := Some(v.(dy := -v.dy)))];
    }

    /** The brick loop: the first visible brick the ball's box overlaps has
        its doOnHit called and the ball's vertical direction flips. */
    method BrickLoop(now: real, spark: nat -> Spark)
      requires Valid() && fault.None?
      modifies this
      ensures Rest()
      ensures var r := BrickStage(handles, old(world), now, spark); world == r.w && fault == FaultOf(r)
      ensures Valid()
    {
      var bs := world[handles.game].bricks.value;
      BricksPlaced(handles, world);
      var hit := FindHit(world[handles.ball], bs);
      if hit.None? {
        return;
      }
      match world[bs[hit.value]].brickHitTrigger.value {
        case NoHitAction =>
        case BrickHit(b) => DoOnHit(b, now, spark);
      }
      if fault.Some? {
        return;
      }
      FlipBallDy();
    }

    /** The paddle check: on overlap the paddle counts a hit and the ball is
        sent back up; `scale` is the speed-normalisation ratio. */
    method PaddleCheck(scale: real)
      requires Valid()
      modifies this
      ensures Rest() && fault == old(fault)
      ensures world == PaddleStage(handles, old(world), scale) && Valid()
    {
      var ballC := world[handles.ball];
      var paddleC := world[handles.paddle];
      var ballPos := ballC.position.value;
      var ballRender := ballC.shape.value;
      var ballVel := ballC.velocity.value;
      var paddlePos := paddleC.position.value;
      var paddleRender := paddleC.shape.value;
      if ballPos.y + ballRender.height >= paddlePos.y
         && ballPos.y <= paddlePos.y + paddleRender.height
         && ballPos.x + ballRender.width >= paddlePos.x
         && ballPos.x <= paddlePos.x + paddleRender.width
      {
        world := world[handles.paddle := paddleC.(stats := Some(paddleC.stats.value + 1))];
        var dy := -Abs(ballVel.dy);
        var y := paddlePos.y - ballRender.height;
        var hitPosition := ballPos.x + ballRender.width / 2.0 - (paddlePos.x + paddleRender.width / 2.0);
        var dx := (hitPosition / (paddleRender.width / 2.0)) * Abs(dy);
        dx := dx * scale;
        dy := dy * scale;
        var bounced := ballC.(velocity := Some(ballVel.(dx := dx, dy := dy)), position := Some(ballPos.(y := y)));
        BounceIs(ballC, paddleC, scale, dx, dy);
        world := world[handles.ball := bounced];
        Touch(handles, CountHit(handles, old(world)), handles.ball, bounced);
      }
    }

    /** One collision pass. */
    method CollisionSystem(inp: Input)
      requires Valid() && fault.None?
      modifies this
      ensures Rest()
      ensures var r := Collision.CollisionSystem(handles, old(world), inp); world == r.w && fault == FaultOf(r)
      ensures Valid()
    {
      if !world[handles.ball].shape.value.show {
        return;
      }
      BrickLoop(inp.now, inp.spark);
      if fault.Some? {
        return;
      }
      match world[handles.game].allBricksDestroyed.value {
        case NoTriggerAction =>
        case WinCheck => DoOnTrigger(inp.now, inp.brickColor);
      }
      if fault.Some? {
        return;
      }
      PaddleCheck(inp.bounceScale);
    }

    // keyHandlingSystem (breakout.js:603-615).

    /** keyHandlingSystem, with `held` whether P is the key held down. */
    method KeyHandlingSystem(held: bool)
      requires Valid() && fault.None?
      modifies this
      ensures nextEntityId == old(nextEntityId) && handles == old(handles)
      ensures Snapshot() == KeyHandling(handles, old(Snapshot()), held) && Valid()
    {
      if held {
        if pauseKeyWasPressed.None? {
          fault := Some(ReferenceError("pauseKeyWasPressed"));
          return;
        }
        if !pauseKeyWasPressed.value {
          SetState(Toggled(world[handles.game].state.value));
          pauseKeyWasPressed := Some(true);
        }
      } else {
        pauseKeyWasPressed := Some(false);
      }
    }

    // createCoreEntities (breakout.js:668-832).

    /** A fresh entity: the next id, holding only its name. */
    twostate predicate Fresh(e: EntityId)
      reads this
    {
      && e == old(nextEntityId) && nextEntityId == e + 1 && Ids()
      && handles == old(handles) && fault == old(fault)
      && pauseKeyWasPressed == old(pauseKeyWasPressed) && mouseWasPressed == old(mouseWasPressed)
    }

    /** addComponent of a name the entity does not hold yet: it succeeds. */
    method Attach(eid: EntityId, name: Key, data: Component)
      requires Fits(name, data) && eid in world && !Has(world[eid], name)
      modifies this
      ensures world == old(world)[eid := With(old(world)[eid], name, data)]
      ensures Rest() && fault == old(fault)
    {
      AddComponent(eid, Some(name), Some(data));
    }

    /** The game: score, lives, level, an empty brick list, state and the win
        trigger. */
    method CreateGame() returns (g: EntityId)
      requires Ids()
      modifies this
      ensures Fresh(g) && world == old(world)[g := Setup.GameEntity([])]
    {
      g := CreateEntity("game");
      Attach(g, SCORE, ScoreData(0));
      Attach(g, LIVES, LivesData(3));
      Attach(g, LEVEL, LevelData(1));
      Attach(g, BRICKS, BricksData([]));
      Attach(g, STATE, StateData(Playing));
      Attach(g, ALL_BRICKS_DESTROYED, TriggerData(WinCheck));
    }

    /** The ball: shape, velocity, position and the playfield bounds with the
        bottom-edge handler. */
    method CreateBall() returns (b: EntityId)
      requires Ids()
      modifies this
      ensures Fresh(b) && world == old(world)[b := Setup.BallEntity()]
    {
      b := CreateEntity("ball");
      Attach(b, SHAPE, ShapeData(MakeShape("blue", "blue", 10.0, 10.0, "circle")));
      Attach(b, VELOCITY, VelocityData(MakeVelocity(1.0, 1.0, 1.0)));
      Attach(b, POSITION, PositionData(MakePosition(0.0, 0.0)));
      Attach(b, BOUNDED_BY_RECT,
             BoundsData(MakeBoundedByRect(Rect(0.0, 0.0, PLAYFIELD_WIDTH, PLAYFIELD_HEIGHT), BallBottom)));
    }

    /** The paddle: shape, velocity, position, mouse control and hit count. */
    method CreatePaddle() returns (p: EntityId)
      requires Ids()
      modifies this
      ensures Fresh(p) && world == old(world)[p := Setup.PaddleEntity()]
    {
      p := CreateEntity("paddle");
      Attach(p, SHAPE, ShapeData(MakeShape("brown", "brown", 60.0, 13.0, "rect")));
      Attach(p, VELOCITY, VelocityData(MakeVelocity(0.0, 0.0, 1.0)));
      Attach(p, POSITION, PositionData(MakePosition(100.0, 360.0)));
      Attach(p, MOUSE_CONTROL, MouseData(MakeMouseControl(30.0)));
      Attach(p, STATS, StatsData(0));
    }

    /** The score board: a position only. */
    method CreateScoreBoard() returns (s: EntityId)
      requires Ids()
      modifies this
      ensures Fresh(s) && world == old(world)[s := Setup.ScoreBoardEntity()]
    {
      s := CreateEntity("scoreBoard");
      Attach(s, POSITION, PositionData(MakePosition(10.0, 15.0)));
    }

    /** One brick: created, pushed onto the game's list, then given its shape
        in the colour drawn for it, its position and its hit trigger. */
    method CreateBrick(row: nat, col: nat, brickColor: EntityId -> string) returns (b: EntityId)
      requires Ids() && handles.game in world && world[handles.game].bricks.Some?
      modifies this
      ensures Fresh(b)
      ensures var g := handles.game;
              world == old(world)[g := old(world)[g].(bricks := Some(old(world)[g].bricks.value + [b]))]
                                 [b := Setup.BrickEntity(b, row, col, brickColor(b))]
    {
      b := CreateEntity(Setup.BrickName(row, col));
      var g := handles.game;
      world := world[g := world[g].(bricks := Some(world[g].bricks.value + [b]))];
      var fill := brickColor(b);
      Attach(b, SHAPE, ShapeData(MakeShape(fill, "black", Setup.BRICK_WIDTH, Setup.BRICK_HEIGHT, "rect")));
      Attach(b, POSITION,
             PositionData(MakePosition(Setup.TOP_LEFT_X + Setup.BRICK_WIDTH * col as real,
                                       Setup.TOP_LEFT_Y + Setup.BRICK_HEIGHT * row as real, false)));
      Attach(b, BRICK_HIT_TRIGGER, HitData(BrickHit(b)));
    }

    /** The bricks of one row, left to right: afterwards the store holds the
        singletons and the bricks of the rows up to and including this one. */
    method CreateRow(row: nat, brickColor: EntityId -> string)
      requires handles == Setup.CORE && nextEntityId == 4 + row * Setup.NUM_COLS
      requires world == Setup.Built(row * Setup.NUM_COLS, brickColor) && Ids()
      modifies this
      ensures world == Setup.Built((row + 1) * Setup.NUM_COLS, brickColor) && Ids()
      ensures nextEntityId == 4 + (row + 1) * Setup.NUM_COLS && handles == old(handles) && fault == old(fault)
      ensures pauseKeyWasPressed == old(pauseKeyWasPressed) && mouseWasPressed == old(mouseWasPressed)
    {
      var col := 0;
      while col < Setup.NUM_COLS
        invariant col <= Setup.NUM_COLS && handles == Setup.CORE
        invariant world == Setup.Built(row * Setup.NUM_COLS + col, brickColor)
        invariant nextEntityId == 4 + row * Setup.NUM_COLS + col && Ids()
        invariant fault == old(fault)
        invariant pauseKeyWasPressed == old(pauseKeyWasPressed) && mouseWasPressed == old(mouseWasPressed)
      {
        Setup.BuiltGame(row * Setup.NUM_COLS + col, brickColor);
        Setup.BuiltStep(row * Setup.NUM_COLS + col, row, col, brickColor);
        var e := CreateBrick(row, col, brickColor);
        col := col + 1;
      }
    }

    /** createCoreEntities: an empty store and counter, the four core entities,
        then the bricks row by row; the result is the start-up world, which
        satisfies the invariant. */
    method CreateCoreEntities(brickColor: EntityId -> string)
      modifies this
      ensures world == Setup.CoreWorld(brickColor) && handles == Setup.CORE
      ensures nextEntityId == 4 + Setup.NUM_ROWS * Setup.NUM_COLS && Valid()
      ensures fault == old(fault)
      ensures pauseKeyWasPressed == old(pauseKeyWasPressed) && mouseWasPressed == old(mouseWasPressed)
    {
      world := map[];
      nextEntityId := 0;
      var g := CreateGame();
      var b := CreateBall();
      var p := CreatePaddle();
      var s := CreateScoreBoard();
      handles := Handles(g, b, p, s);
      Setup.BuiltZero(brickColor);
      var row := 0;
      while row < Setup.NUM_ROWS
        invariant row <= Setup.NUM_ROWS && handles == Setup.CORE
        invariant world == Setup.Built(row * Setup.NUM_COLS, brickColor)
        invariant nextEntityId == 4 + row * Setup.NUM_COLS && Ids()
        invariant fault == old(fault)
        invariant pauseKeyWasPressed == old(pauseKeyWasPressed) && mouseWasPressed == old(mouseWasPressed)
      {
        CreateRow(row, brickColor);
        row := row + 1;
      }
      Setup.CoreWorldShaped(brickColor);
    }

    // initGame (breakout.js:834-876).

    /** initGame's game reset: score 0, 3 lives, playing. */
    method ResetGame()
      requires Valid()
      modifies this
      ensures Rest() && fault == old(fault)
      ensures world == NewGame(handles, old(world)) && Valid()
    {
      var g := handles.game;
      world := world[g := world[g].(score := Some(0))];
      world := world[g := world[g].(lives := Some(3))];
      world := world[g := world[g].(state := Some(Playing))];
      assert world[g] == NewGame(handles, old(world))[g];
    }

    /** initGame's ball reset: hidden, at the origin. */
    method ParkBall()
      requires Valid()
      modifies this
      ensures Rest() && fault == old(fault)
      ensures world == Park(handles, old(world)) && Valid()
    {
      var b := handles.ball;
      var c := world[b];
      world := world[b := c.(shape := Some(c.shape.value.(show := false)))];
      world := world[b := world[b].(position := Some(c.position.value.(x := 0.0, y := 0.0)))];
      assert world[b] == Park(handles, old(world))[b];
    }

    /** initGame, at time now. */
    method InitGame(now: real)
      requires Valid() && fault.None?
      modifies this
      ensures Rest() && fault == old(fault)
      ensures world == Frame.InitGame(handles, old(world), now) && Valid()
    {
      ResetGame();
      ParkBall();
      ghost var w2 := world;
      var b := handles.ball;
      if Has(world[b], RESPAWN) {
        RemoveComponent(b, RESPAWN);
      }
      assert world == Disarm(handles, w2);
      RevealBricks(None);
      ArmAndStamp(1500.0, RespawnInitBall, now);
    }

    // draw (breakout.js:889-961), without the drawing.

    /** One frame. */
    method Draw(inp: Input)
      requires Valid()
      modifies this
      ensures nextEntityId == old(nextEntityId) && handles == old(handles)
      ensures Snapshot() == Frame.Draw(handles, old(Snapshot()), nextEntityId, inp) && Valid()
    {
      if fault.Some? {
        return;
      }
      match world[handles.game].state.value {
        case GameOver =>
          if inp.mouseDown && !mouseWasPressed {
            InitGame(inp.now);
          } else if !inp.mouseDown {
            mouseWasPressed := false;
          }
        case Paused =>
          KeyHandlingSystem(inp.pauseHeld);
          if fault.None? {
            ExplosionSystem(inp.now);
          }
        case Respawning =>
          RespawnSystem(inp.now, inp.launch);
          ExplosionSystem(inp.now);
        case Playing =>
          PlayFrame(inp);
      }
    }

    /** The playing frame: every system in draw's order, ending at the first
        fatal error. */
    method PlayFrame(inp: Input)
      requires Valid() && fault.None?
      modifies this
      ensures nextEntityId == old(nextEntityId) && handles == old(handles)
      ensures Snapshot() == Frame.PlayFrame(handles, old(Snapshot()), nextEntityId, inp) && Valid()
    {
      MouseControlSystem(inp.mouseX);
      KeyHandlingSystem(inp.pauseHeld);
      if fault.Some? {
        return;
      }
      CollisionSystem(inp);
      if fault.Some? {
        return;
      }
      MovementSystem();
      BoundarySystem(inp.now);
      if fault.Some? {
        return;
      }
      RespawnSystem(inp.now, inp.launch);
      ExplosionSystem(inp.now);
    }
  }
}
