/** The callbacks the core entities carry: initBall and its second-stage launch
    timer (breakout.js:265-301), the win trigger on the game
    (breakout.js:691-729), the ball's bottom-edge handler (breakout.js:744-762)
    and each brick's hit handler (breakout.js:818-828). Every callback is a
    function from the store to the store (or to a dead run when an
    addComponent inside it is fatal), dispatched on the tag the component holds. */
module Triggers {
  import opened Components
  import opened Ecs
  import opened Core

  /** `getComponent(e, "shape").show = on`. */
  function Shown(w: Store, e: EntityId, on: bool): (r: Store)
    requires e in w && w[e].shape.Some?
    ensures r.Keys == w.Keys && r[e].shape.Some? && r[e].shape.value.show == on
    ensures r[e].shape.value.(show := w[e].shape.value.show) == w[e].shape.value
    ensures r[e].(shape := w[e].shape) == w[e]
    ensures forall x | x in w && x != e :: r[x] == w[x]
  {
    w[e := w[e].(shape := Some(w[e].shape.value.(show := on)))]
  }

  /** `getComponent(e, "respawn").deathTime = now`. */
  function Stamped(w: Store, e: EntityId, now: real): (r: Store)
    requires e in w && w[e].respawn.Some?
    ensures r.Keys == w.Keys && r[e].respawn.Some? && r[e].respawn.value.deathTime == now
    ensures r[e].respawn.value.(deathTime := w[e].respawn.value.deathTime) == w[e].respawn.value
    ensures r[e].(respawn := w[e].respawn) == w[e]
    ensures forall x | x in w && x != e :: r[x] == w[x]
  {
    w[e := w[e].(respawn := Some(w[e].respawn.value.(deathTime := now)))]
  }

  /** A position centred on the playfield for a shape of that size. */
  predicate Centred(p: Position, s: Shape) {
    p.x + s.width / 2.0 == PLAYFIELD_WIDTH / 2.0 && p.y + s.height / 2.0 == PLAYFIELD_HEIGHT / 2.0
  }

  /** `getComponent(e, "shape").show = on` on a core entity, which keeps the
      invariant. */
  function Show(h: Handles, w: Store, e: EntityId, on: bool): (r: Store)
    requires Shaped(h, w) && e in w && w[e].shape.Some?
    ensures r.Keys == w.Keys && Shaped(h, r) && BrickList(h, r) == BrickList(h, w)
    ensures r[e].shape == Some(w[e].shape.value.(show := on))
    ensures r[e] == w[e].(shape := r[e].shape)
    ensures forall x | x in w && x != e :: r[x] == w[x]
  {
    var r := Shown(w, e, on);
    Touch(h, w, e, r[e]);
    r
  }

  /** The record part of initBall: the launch velocity, the ball shown and
      centred on the playfield. */
  function PlaceBall(h: Handles, w: Store, launch: Launch): (r: Store)
    requires Shaped(h, w)
    ensures r.Keys == w.Keys && Shaped(h, r) && BrickList(h, r) == BrickList(h, w)
    ensures r[h.ball].velocity == Some(Velocity(launch.dx, launch.dy, launch.speed))
    ensures r[h.ball].shape == Some(w[h.ball].shape.value.(show := true))
    ensures r[h.ball].position.Some? && Centred(r[h.ball].position.value, r[h.ball].shape.value)
    ensures r[h.ball].position.value.show == w[h.ball].position.value.show
    ensures r[h.ball] == w[h.ball].(velocity := r[h.ball].velocity, shape := r[h.ball].shape,
                                    position := r[h.ball].position)
    ensures forall e | e in w && e != h.ball :: r[e] == w[e]
  {
    var b := h.ball;
    var ball := w[b];
    var render := ball.shape.value.(show := true);
    var pos := ball.position.value.(x := PLAYFIELD_WIDTH / 2.0 - render.width / 2.0,
                                    y := PLAYFIELD_HEIGHT / 2.0 - render.height / 2.0);
    var x := ball.(velocity := Some(Velocity(launch.dx, launch.dy, launch.speed)),
                   shape := Some(render), position := Some(pos));
    Touch(h, w, b, x);
    w[b := x]
  }

  /** The timer part of initBall: an existing timer is removed, so attaching
      the new one cannot fail. */
  function ReplaceTimer(h: Handles, w: Store, t: Respawn): (r: Store)
    requires Shaped(h, w)
    ensures r.Keys == w.Keys && Shaped(h, r) && BrickList(h, r) == BrickList(h, w)
    ensures r[h.ball] == w[h.ball].(respawn := Some(t))
    ensures forall e | e in w && e != h.ball :: r[e] == w[e]
  {
    var b := h.ball;
    var w1 := if Has(w[b], RESPAWN) then Remove(w, b, RESPAWN).value else w;
    var r := Add(w1, b, Some(RESPAWN), Some(RespawnData(t))).value;
    assert r == w[b := w[b].(respawn := Some(t))];
    Touch(h, w, b, r[b]);
    r
  }

  /** initBall: a fresh launch velocity, the ball shown and centred, any
      pending timer replaced by the 1000 ms launch timer. makeRespawn leaves
      that timer's deathTime at 0, and nothing stamps it. Only the ball's
      velocity, shape, position and respawn slots change. */
  function InitBall(h: Handles, w: Store, launch: Launch): (r: Store)
    requires Shaped(h, w)
    ensures r.Keys == w.Keys && Shaped(h, r) && BrickList(h, r) == BrickList(h, w)
    ensures r[h.ball].velocity == Some(Velocity(launch.dx, launch.dy, launch.speed))
    ensures r[h.ball].shape == Some(w[h.ball].shape.value.(show := true))
    ensures r[h.ball].position.Some? && Centred(r[h.ball].position.value, r[h.ball].shape.value)
    ensures r[h.ball].position.value.show == w[h.ball].position.value.show
    ensures r[h.ball].respawn == Some(Respawn(0.0, 1000.0, RespawnLaunchBall))
    ensures r[h.ball] == w[h.ball].(velocity := r[h.ball].velocity, shape := r[h.ball].shape,
                                    position := r[h.ball].position, respawn := r[h.ball].respawn)
    ensures forall e | e in w && e != h.ball :: r[e] == w[e]
  {
    var w1 := PlaceBall(h, w, launch);
    var r := ReplaceTimer(h, w1, MakeRespawn(1000.0, RespawnLaunchBall));
    r
  }

  /** `state.state = p` on the game. */
  function SetState(h: Handles, w: Store, p: Phase): (r: Store)
    requires Shaped(h, w)
    ensures r.Keys == w.Keys && Shaped(h, r) && BrickList(h, r) == BrickList(h, w)
    ensures r[h.game] == w[h.game].(state := Some(p))
    ensures forall e | e in w && e != h.game :: r[e] == w[e]
  {
    var x := w[h.game].(state := Some(p));
    Touch(h, w, h.game, x);
    w[h.game := x]
  }

  /** The second-stage timer's callback: a fresh launch velocity, then the game
      back to playing. Nothing else changes. */
  function LaunchBall(h: Handles, w: Store, launch: Launch): (r: Store)
    requires Shaped(h, w)
    ensures r.Keys == w.Keys && Shaped(h, r) && BrickList(h, r) == BrickList(h, w)
    ensures r[h.ball] == w[h.ball].(velocity := Some(Velocity(launch.dx, launch.dy, launch.speed)))
    ensures r[h.game] == w[h.game].(state := Some(Playing))
    ensures forall e | e in w && e != h.ball && e != h.game :: r[e] == w[e]
  {
    var x := w[h.ball].(velocity := Some(Velocity(launch.dx, launch.dy, launch.speed)));
    Touch(h, w, h.ball, x);
    var r := SetState(h, w[h.ball := x], Playing);
    r
  }

  /** What a respawn timer does when it fires. */
  function OnRespawn(h: Handles, w: Store, a: RespawnAction, launch: Launch): (r: Store)
    requires Shaped(h, w)
    ensures r.Keys == w.Keys && Shaped(h, r) && BrickList(h, r) == BrickList(h, w)
    ensures a.NoRespawnAction? ==> r == w
    ensures a.RespawnInitBall? ==> r == InitBall(h, w, launch)
    ensures a.RespawnWinInitBall? ==> r == SetState(h, InitBall(h, w, launch), Playing)
    ensures a.RespawnLaunchBall? ==> r == LaunchBall(h, w, launch)
    ensures r[h.game] == w[h.game].(state := r[h.game].state)
    ensures forall x | x in w && x != h.ball && x != h.game :: r[x] == w[x]
  {
    match a
    case NoRespawnAction => w
    case RespawnInitBall => InitBall(h, w, launch)
    case RespawnWinInitBall =>
      var i := InitBall(h, w, launch);
      var r := SetState(h, i, Playing);
      r
    case RespawnLaunchBall => LaunchBall(h, w, launch)
  }

  /** A brick's shape after a reset: shown, and recoloured with the colour drawn
      for that brick when `paint` is given. */
  function Reset(s: Shape, paint: Option<EntityId -> string>, b: EntityId): (c: Shape)
    ensures c.show && c.width == s.width && c.height == s.height
    ensures c.fill == (if paint.Some? then paint.value(b) else s.fill)
    ensures c.(show := s.show, fill := s.fill) == s
  {
    if paint.Some? then s.(show := true, fill := paint.value(b)) else s.(show := true)
  }

  /** One brick after the reset loop has passed over it. */
  function Revealed(c: Entity, paint: Option<EntityId -> string>, b: EntityId): Entity
    requires c.shape.Some?
  {
    c.(shape := Some(Reset(c.shape.value, paint, b)))
  }

  /** The brick reset loop over a list of bricks. RevealAllEffect states what
      it does. */
  function RevealAll(w: Store, bs: seq<EntityId>, paint: Option<EntityId -> string>): (r: Store)
    requires forall b | b in bs :: b in w && w[b].shape.Some?
    ensures r.Keys == w.Keys
    decreases |bs|
  {
    if bs == [] then
      w
    else
      var b := bs[0];
      assert b in bs;
      var w1 := w[b := Revealed(w[b], paint, b)];
      assert forall x | x in bs[1..] :: x in bs;
      RevealAll(w1, bs[1..], paint)
  }

  /** The reset loop shows (and, when asked, recolours) every brick on the list
      and leaves every other entity alone. Resetting a brick twice is resetting
      it once, so a brick listed twice ends up the same. */
  lemma {:induction false} RevealAllEffect(w: Store, bs: seq<EntityId>, paint: Option<EntityId -> string>)
    requires forall b | b in bs :: b in w && w[b].shape.Some?
    ensures forall e | e in w ::
              RevealAll(w, bs, paint)[e] == (if e in bs then Revealed(w[e], paint, e) else w[e])
    decreases |bs|
  {
    if bs != [] {
      var b := bs[0];
      assert b in bs;
      var w1 := w[b := Revealed(w[b], paint, b)];
      assert forall x | x in bs[1..] :: x in bs;
      RevealAllEffect(w1, bs[1..], paint);
      forall e | e in w
        ensures RevealAll(w, bs, paint)[e] == (if e in bs then Revealed(w[e], paint, e) else w[e])
      {
        if e == b {
          assert Revealed(w1[b], paint, b) == w1[b];
        } else {
          assert e in bs <==> e in bs[1..];
        }
      }
    }
  }

  /** Resetting the game's bricks keeps the core-entity invariant. */
  function RevealBricks(h: Handles, w: Store, paint: Option<EntityId -> string>): (r: Store)
    requires Shaped(h, w)
    ensures r.Keys == w.Keys && Shaped(h, r) && BrickList(h, r) == BrickList(h, w)
    ensures forall e | e in w ::
              r[e] == (if e in BrickList(h, w) then Revealed(w[e], paint, e) else w[e])
  {
    var bs := BrickList(h, w);
    assert forall b | b in bs :: BrickOk(h, w, b);
    var r := RevealAll(w, bs, paint);
    RevealAllEffect(w, bs, paint);
    forall e | e in w ensures Keeps(w[e], r[e]) {
      if e in bs { assert BrickOk(h, w, e); }
    }
    ShapedKept(h, w, r);
    r
  }

  /** addComponent(ball, "respawn", makeRespawn(delay, a)) followed by stamping
      the timer's deathTime with the current time: fatal, with the store as it
      was, when the ball already has a timer; otherwise the ball's only change
      is the new timer. */
  function Arm(h: Handles, w: Store, delay: real, a: RespawnAction, now: real): (r: Run)
    requires Shaped(h, w)
    ensures r.w.Keys == w.Keys && Shaped(h, r.w) && BrickList(h, r.w) == BrickList(h, w)
    ensures r.Live? <==> w[h.ball].respawn.None?
    ensures r.Dead? ==> r == Dead(w, StoreError(DuplicateComponent(h.ball, RESPAWN)))
    ensures r.Live? ==> r.w == w[h.ball := w[h.ball].(respawn := Some(Respawn(now, delay, a)))]
  {
    match Add(w, h.ball, Some(RESPAWN), Some(RespawnData(MakeRespawn(delay, a))))
    case Err(f) => Dead(w, StoreError(f))
    case Ok(w1) =>
      var r := Stamped(w1, h.ball, now);
      assert r == w[h.ball := w[h.ball].(respawn := Some(Respawn(now, delay, a)))];
      Touch(h, w, h.ball, r[h.ball]);
      Live(r)
  }

  /** Arming the ball and hiding it, as one record update of the ball. */
  lemma ArmThenHide(h: Handles, w: Store, delay: real, a: RespawnAction, now: real)
    requires Shaped(h, w) && w[h.ball].respawn.None?
    ensures Show(h, Arm(h, w, delay, a, now).w, h.ball, false)
              == w[h.ball := w[h.ball].(respawn := Some(Respawn(now, delay, a)),
                                        shape := Some(w[h.ball].shape.value.(show := false)))]
  {
  }

  /** The win trigger's test: every brick on the list is hidden. */
  predicate AllHidden(h: Handles, w: Store)
    requires Shaped(h, w)
  {
    forall b | b in BrickList(h, w) :: !w[b].shape.value.show
  }

  /** The win trigger's bookkeeping: state respawning, level + 1, score + 100. */
  function Advance(h: Handles, w: Store): (r: Store)
    requires Shaped(h, w)
    ensures r.Keys == w.Keys && Shaped(h, r) && BrickList(h, r) == BrickList(h, w)
    ensures r[h.game] == w[h.game].(state := Some(Respawning), level := Some(w[h.game].level.value + 1),
                                    score := Some(w[h.game].score.value + 100))
    ensures forall e | e in w && e != h.game :: r[e] == w[e]
  {
    var gc := w[h.game];
    var x := gc.(state := Some(Respawning), level := Some(gc.level.value + 1),
                 score := Some(gc.score.value + 100));
    Touch(h, w, h.game, x);
    w[h.game := x]
  }

  /** The win trigger's firing path: the bookkeeping of Advance, every brick
      shown in a fresh colour, the ball hidden, then the 1500 ms timer attached
      and stamped with the current time (fatal when the ball already has one). */
  function Win(h: Handles, w: Store, now: real, brickColor: EntityId -> string): (r: Run)
    requires Shaped(h, w)
    ensures r.w.Keys == w.Keys && Shaped(h, r.w) && BrickList(h, r.w) == BrickList(h, w)
    ensures r.Live? <==> w[h.ball].respawn.None?
    ensures r.Dead? ==> r.crash == StoreError(DuplicateComponent(h.ball, RESPAWN))
  {
    var w1 := Advance(h, w);
    var w2 := RevealBricks(h, w1, Some(brickColor));
    var w3 := Show(h, w2, h.ball, false);
    var r := Arm(h, w3, 1500.0, RespawnWinInitBall, now);
    r
  }

  /** The win trigger (breakout.js:691-729): it fires exactly when every
      brick is hidden, and otherwise does nothing. */
  function WinCheckFn(h: Handles, w: Store, now: real, brickColor: EntityId -> string): (r: Run)
    requires Shaped(h, w)
    ensures r.w.Keys == w.Keys && Shaped(h, r.w) && BrickList(h, r.w) == BrickList(h, w)
    ensures !AllHidden(h, w) ==> r == Live(w)
    ensures AllHidden(h, w) ==> r == Win(h, w, now, brickColor)
  {
    if AllHidden(h, w) then Win(h, w, now, brickColor) else Live(w)
  }

  /** The game's bookkeeping when the trigger fires: state respawning,
      level + 1, score + 100, lives unchanged. */
  lemma WinGame(h: Handles, w: Store, now: real, brickColor: EntityId -> string)
    requires Shaped(h, w)
    ensures var g := Win(h, w, now, brickColor).w[h.game];
            && g.state == Some(Respawning)
            && g.level == Some(w[h.game].level.value + 1)
            && g.score == Some(w[h.game].score.value + 100)
            && g.lives == w[h.game].lives
  {
    var w1 := Advance(h, w);
    var w2 := RevealBricks(h, w1, Some(brickColor));
    var w3 := Show(h, w2, h.ball, false);
    assert w3[h.game] == w1[h.game];
  }

  /** The ball when the trigger fires: hidden, and (when the attach succeeds)
      carrying a 1500 ms timer stamped now whose callback re-runs initBall and
      resumes play. */
  lemma WinBall(h: Handles, w: Store, now: real, brickColor: EntityId -> string)
    requires Shaped(h, w)
    ensures var r := Win(h, w, now, brickColor);
            && !r.w[h.ball].shape.value.show
            && (r.Live? ==> r.w[h.ball].respawn == Some(Respawn(now, 1500.0, RespawnWinInitBall)))
  {
    var w1 := Advance(h, w);
    var w2 := RevealBricks(h, w1, Some(brickColor));
    var w3 := Show(h, w2, h.ball, false);
    assert !w3[h.ball].shape.value.show;
  }

  /** The bricks when the trigger fires: every brick is shown, recoloured with
      the colour drawn for its index, and otherwise unchanged. */
  lemma WinBricks(h: Handles, w: Store, now: real, brickColor: EntityId -> string)
    requires Shaped(h, w)
    ensures var r := Win(h, w, now, brickColor).w;
            forall b | b in BrickList(h, w) ::
              r[b] == w[b].(shape := Some(w[b].shape.value.(show := true, fill := brickColor(b))))
  {
    var w1 := Advance(h, w);
    var w2 := RevealBricks(h, w1, Some(brickColor));
    var w3 := Show(h, w2, h.ball, false);
    var r := Win(h, w, now, brickColor).w;
    forall b | b in BrickList(h, w)
      ensures r[b] == w[b].(shape := Some(w[b].shape.value.(show := true, fill := brickColor(b))))
    {
      assert BrickOk(h, w, b);
      assert w1[b] == w[b];
      assert r[b] == w3[b] == w2[b];
    }
  }

  /** Once the win trigger has fired and the level has bricks, it does nothing
      until a brick is hidden again: calling it a second time straight away
      changes nothing. */
  lemma WinCheckIdempotent(h: Handles, w: Store, now: real, brickColor: EntityId -> string)
    requires Shaped(h, w) && |BrickList(h, w)| > 0
    requires WinCheckFn(h, w, now, brickColor).Live?
    ensures var r := WinCheckFn(h, w, now, brickColor).w;
            WinCheckFn(h, r, now, brickColor) == Live(r)
  {
    var r := WinCheckFn(h, w, now, brickColor).w;
    if AllHidden(h, w) {
      WinBricks(h, w, now, brickColor);
      assert BrickList(h, w)[0] in BrickList(h, w);
    }
  }

  /** The win check only ever shows bricks: a shown brick stays shown, and
      nothing outside the brick list, the ball and the game changes. */
  lemma WinCheckFrame(h: Handles, w: Store, now: real, brickColor: EntityId -> string)
    requires Shaped(h, w)
    ensures var r := WinCheckFn(h, w, now, brickColor).w;
            && (forall b | b in BrickList(h, w) && w[b].shape.value.show :: r[b].shape.value.show)
            && (forall x | x in w && x !in BrickList(h, w) && x != h.ball && x != h.game :: r[x] == w[x])
  {
    if AllHidden(h, w) {
      WinBricks(h, w, now, brickColor);
      WinElsewhere(h, w, now, brickColor);
    }
  }

  /** The win writes nothing outside the brick list, the ball and the game. */
  lemma WinElsewhere(h: Handles, w: Store, now: real, brickColor: EntityId -> string)
    requires Shaped(h, w)
    ensures var r := Win(h, w, now, brickColor).w;
            forall x | x in w && x !in BrickList(h, w) && x != h.ball && x != h.game :: r[x] == w[x]
  {
    var w1 := Advance(h, w);
    var w2 := RevealBricks(h, w1, Some(brickColor));
    var w3 := Show(h, w2, h.ball, false);
    forall x | x in w && x !in BrickList(h, w) && x != h.ball && x != h.game
      ensures Win(h, w, now, brickColor).w[x] == w[x]
    {
      assert w3[x] == w2[x] == w1[x] == w[x];
    }
  }

  /** The same for the game's doOnTrigger, whichever callback it holds. */
  lemma TriggerFrame(h: Handles, w: Store, a: TriggerAction, now: real, brickColor: EntityId -> string)
    requires Shaped(h, w)
    ensures var r := OnTrigger(h, w, a, now, brickColor).w;
            && (forall b | b in BrickList(h, w) && w[b].shape.value.show :: r[b].shape.value.show)
            && (forall x | x in w && x !in BrickList(h, w) && x != h.ball && x != h.game :: r[x] == w[x])
  {
    if a.WinCheck? {
      WinCheckFrame(h, w, now, brickColor);
    }
  }

  /** `state.lives--`. */
  function LoseLife(h: Handles, w: Store): (r: Store)
    requires Shaped(h, w)
    ensures r.Keys == w.Keys && Shaped(h, r) && BrickList(h, r) == BrickList(h, w)
    ensures r[h.game] == w[h.game].(lives := Some(w[h.game].lives.value - 1))
    ensures forall e | e in w && e != h.game :: r[e] == w[e]
  {
    var x := w[h.game].(lives := Some(w[h.game].lives.value - 1));
    Touch(h, w, h.game, x);
    w[h.game := x]
  }

  /** The ball's bottom-edge handler (breakout.js:744-762). One life is lost;
      with none left the game is over and the ball hidden, with no timer.
      Otherwise a 1500 ms timer that re-runs initBall is attached (fatal when
      one is already there), then the ball is hidden and the timer stamped. */
  function BallBottomFn(h: Handles, w: Store, now: real): (r: Run)
    requires Shaped(h, w)
    ensures r.w.Keys == w.Keys && Shaped(h, r.w) && BrickList(h, r.w) == BrickList(h, w)
    ensures w[h.game].lives.value <= 1 ==> r.Live?
    ensures w[h.game].lives.value > 1 ==> (r.Live? <==> w[h.ball].respawn.None?)
    ensures r.Dead? ==> r.crash == StoreError(DuplicateComponent(h.ball, RESPAWN))
  {
    var w1 := LoseLife(h, w);
    if w1[h.game].lives.value <= 0 then
      var w2 := SetState(h, w1, GameOver);
      var r := Show(h, w2, h.ball, false);
      Live(r)
    else
      match Arm(h, w1, 1500.0, RespawnInitBall, now)
      case Dead(d, c) => Dead(d, c)
      case Live(w2) =>
        var r := Show(h, w2, h.ball, false);
        Live(r)
  }

  /** On the last life: one life fewer, the game over, the ball hidden and its
      timer left as it was. */
  lemma BallBottomLastLife(h: Handles, w: Store, now: real)
    requires Shaped(h, w) && w[h.game].lives.value <= 1
    ensures var r := BallBottomFn(h, w, now);
            && r.Live?
            && r.w[h.game].lives == Some(w[h.game].lives.value - 1)
            && r.w[h.game].state == Some(GameOver)
            && !r.w[h.ball].shape.value.show
            && r.w[h.ball].respawn == w[h.ball].respawn
  {
    var w1 := LoseLife(h, w);
    var w2 := SetState(h, w1, GameOver);
    assert BallBottomFn(h, w, now) == Live(Show(h, w2, h.ball, false));
  }

  /** With lives to spare: one life fewer, the state unchanged, and (when the
      attach succeeds) the ball hidden with a 1500 ms timer stamped now whose
      callback re-runs initBall. */
  lemma BallBottomNextLife(h: Handles, w: Store, now: real)
    requires Shaped(h, w) && w[h.game].lives.value > 1
    ensures var r := BallBottomFn(h, w, now);
            && r.w[h.game].lives == Some(w[h.game].lives.value - 1)
            && r.w[h.game].state == w[h.game].state
            && (r.Live? ==> !r.w[h.ball].shape.value.show
                            && r.w[h.ball].respawn == Some(Respawn(now, 1500.0, RespawnInitBall)))
  {
    var w1 := LoseLife(h, w);
    var a := Arm(h, w1, 1500.0, RespawnInitBall, now);
    if a.Live? {
      assert BallBottomFn(h, w, now) == Live(Show(h, a.w, h.ball, false));
    } else {
      assert BallBottomFn(h, w, now) == a;
    }
  }

  /** The bottom handler writes nothing but the game's lives and state and the
      ball (its shape and its timer). */
  lemma BallBottomFrame(h: Handles, w: Store, now: real)
    requires Shaped(h, w)
    ensures var r := BallBottomFn(h, w, now).w;
            && r[h.game] == w[h.game].(lives := r[h.game].lives, state := r[h.game].state)
            && forall x | x in w && x != h.ball && x != h.game :: r[x] == w[x]
  {
    var w1 := LoseLife(h, w);
    if w1[h.game].lives.value <= 0 {
      var w2 := SetState(h, w1, GameOver);
      assert BallBottomFn(h, w, now) == Live(Show(h, w2, h.ball, false));
    } else {
      var a := Arm(h, w1, 1500.0, RespawnInitBall, now);
      if a.Live? {
        assert BallBottomFn(h, w, now) == Live(Show(h, a.w, h.ball, false));
      } else {
        assert BallBottomFn(h, w, now) == a;
      }
    }
  }

  /** `state.score += k`. */
  function AddScore(h: Handles, w: Store, k: int): (r: Store)
    requires Shaped(h, w)
    ensures r.Keys == w.Keys && Shaped(h, r) && BrickList(h, r) == BrickList(h, w)
    ensures r[h.game] == w[h.game].(score := Some(w[h.game].score.value + k))
    ensures forall e | e in w && e != h.game :: r[e] == w[e]
  {
    var x := w[h.game].(score := Some(w[h.game].score.value + k));
    Touch(h, w, h.game, x);
    w[h.game := x]
  }

  /** addComponent(b, "explosion", boom): fatal, with the store as it was,
      while the brick's previous explosion is still running. */
  function Explode(h: Handles, w: Store, b: EntityId, boom: Explosion): (r: Run)
    requires Shaped(h, w) && BrickOk(h, w, b)
    ensures r.w.Keys == w.Keys && Shaped(h, r.w) && BrickList(h, r.w) == BrickList(h, w)
    ensures r.Live? <==> w[b].explosion.None?
    ensures r.Dead? ==> r == Dead(w, StoreError(DuplicateComponent(b, EXPLOSION)))
    ensures r.Live? ==> r.w == w[b := w[b].(explosion := Some(boom))]
  {
    match Add(w, b, Some(EXPLOSION), Some(ExplosionData(boom)))
    case Err(f) => Dead(w, StoreError(f))
    case Ok(r) =>
      assert r == w[b := w[b].(explosion := Some(boom))];
      Touch(h, w, b, r[b]);
      Live(r)
  }

  /** A brick's hit handler (breakout.js:818-828): score + 10, the brick
      hidden and a ten-particle explosion attached at its position in its
      colour. */
  function BrickHitFn(h: Handles, w: Store, b: EntityId, now: real, spark: nat -> Spark): (r: Run)
    requires Shaped(h, w) && BrickOk(h, w, b)
    ensures r.w.Keys == w.Keys && Shaped(h, r.w) && BrickList(h, r.w) == BrickList(h, w)
    ensures r.Live? <==> w[b].explosion.None?
    ensures r.Dead? ==> r.crash == StoreError(DuplicateComponent(b, EXPLOSION))
  {
    var w1 := AddScore(h, w, 10);
    var w2 := Show(h, w1, b, false);
    var pos := w2[b].position.value;
    var r := Explode(h, w2, b, MakeExplosion(pos.x, pos.y, spark, now, w2[b].shape.value.fill, 10));
    r
  }

  /** The hit handler's effect: score + 10 and the brick hidden, whether or not
      the attach succeeds; on success the explosion sits at the brick's
      position in its fill colour; no other entity changes. */
  lemma BrickHitEffect(h: Handles, w: Store, b: EntityId, now: real, spark: nat -> Spark)
    requires Shaped(h, w) && BrickOk(h, w, b)
    ensures var r := BrickHitFn(h, w, b, now, spark);
            && r.w[h.game] == w[h.game].(score := Some(w[h.game].score.value + 10))
            && r.w[b].shape == Some(w[b].shape.value.(show := false))
            && (r.Live? ==>
                  r.w[b].explosion == Some(MakeExplosion(w[b].position.value.x, w[b].position.value.y,
                                                         spark, now, w[b].shape.value.fill, 10)))
            && (forall e | e in w && e != h.game && e != b :: r.w[e] == w[e])
  {
    var w1 := AddScore(h, w, 10);
    var w2 := Show(h, w1, b, false);
    assert w2[b].position == w[b].position && w2[b].shape.value.fill == w[b].shape.value.fill;
  }

  /** Calling a brick's doOnHit. */
  function OnHit(h: Handles, w: Store, a: HitAction, now: real, spark: nat -> Spark): (r: Run)
    requires Shaped(h, w) && (a.BrickHit? ==> BrickOk(h, w, a.brick))
    ensures r.w.Keys == w.Keys && Shaped(h, r.w) && BrickList(h, r.w) == BrickList(h, w)
    ensures a.NoHitAction? ==> r == Live(w)
    ensures a.BrickHit? ==> r == BrickHitFn(h, w, a.brick, now, spark)
  {
    match a
    case NoHitAction => Live(w)
    case BrickHit(b) => BrickHitFn(h, w, b, now, spark)
  }

  /** Calling the game's doOnTrigger. */
  function OnTrigger(h: Handles, w: Store, a: TriggerAction, now: real, brickColor: EntityId -> string): (r: Run)
    requires Shaped(h, w)
    ensures r.w.Keys == w.Keys && Shaped(h, r.w) && BrickList(h, r.w) == BrickList(h, w)
    ensures a.NoTriggerAction? ==> r == Live(w)
    ensures a.WinCheck? ==> r == WinCheckFn(h, w, now, brickColor)
  {
    match a
    case NoTriggerAction => Live(w)
    case WinCheck => WinCheckFn(h, w, now, brickColor)
  }

  /** Calling a bounded entity's onBottomHit. */
  function OnBottom(h: Handles, w: Store, a: BottomAction, now: real): (r: Run)
    requires Shaped(h, w)
    ensures r.w.Keys == w.Keys && Shaped(h, r.w) && BrickList(h, r.w) == BrickList(h, w)
    ensures a.NoBottomAction? ==> r == Live(w)
    ensures a.BallBottom? ==> r == BallBottomFn(h, w, now)
  {
    match a
    case NoBottomAction => Live(w)
    case BallBottom => BallBottomFn(h, w, now)
  }
}
