/** One call of p5's draw (breakout.js:889-961), without the drawing: the
    game state picks which systems run, in the order draw calls them; the
    pause key handler (breakout.js:603-615) and initGame (breakout.js:834-876)
    are modelled here with it. The program's state between frames is the
    store together with the two module-level flags draw and the key handler
    read, and the error that stopped it, if any. */
module Frame {
  import opened Components
  import opened Ecs
  import opened Core
  import opened Triggers
  import opened Systems
  import opened Boundary
  import opened Respawning
  import opened Collision

  /** The program between two frames. `pause` is the global the key handler
      reads: it is assigned only in that handler and declared nowhere (the
      declared flag is spelled differently), so None stands for a variable
      that does not exist yet, whose read throws. `fault` is the uncaught
      error that ended the animation loop. */
  datatype Sim = Sim(w: Store, pause: Option<bool>, mouseWasPressed: bool, fault: Option<Crash>)

  /** `state.state = state.state === "paused" ? "playing" : "paused"`. */
  function Toggled(p: Phase): (r: Phase)
    ensures r == Playing <==> p == Paused
    ensures r == Paused <==> p != Paused
  {
    if p == Paused then Playing else Paused
  }

  /** keyHandlingSystem: while P is held the state toggles once, on the first
      frame of the press; releasing the key clears the flag. Reading the flag
      before any release has assigned it is a ReferenceError. */
  function KeyHandling(h: Handles, s: Sim, held: bool): (r: Sim)
    requires Shaped(h, s.w)
    ensures r.w.Keys == s.w.Keys && Shaped(h, r.w) && BrickList(h, r.w) == BrickList(h, s.w)
    ensures r.mouseWasPressed == s.mouseWasPressed
    ensures !held ==> r == s.(pause := Some(false))
    ensures held && s.pause.None? ==> r == s.(fault := Some(ReferenceError("pauseKeyWasPressed")))
    ensures held && s.pause == Some(true) ==> r == s
    ensures held && s.pause == Some(false) ==>
              r == s.(w := SetState(h, s.w, Toggled(s.w[h.game].state.value)), pause := Some(true))
  {
    if held then
      if s.pause.None? then s.(fault := Some(ReferenceError("pauseKeyWasPressed")))
      else if !s.pause.value then
        s.(w := SetState(h, s.w, Toggled(s.w[h.game].state.value)), pause := Some(true))
      else s
    else s.(pause := Some(false))
  }

  /** Holding P toggles the game exactly once: a frame with the key held
      after a toggling frame changes nothing, and playing and paused swap. */
  lemma KeyHandlingOnce(h: Handles, s: Sim)
    requires Shaped(h, s.w) && s.pause == Some(false)
    ensures var r := KeyHandling(h, s, true);
            && r.pause == Some(true) && r.fault.None? == s.fault.None?
            && (s.w[h.game].state == Some(Playing) ==> r.w[h.game].state == Some(Paused))
            && (s.w[h.game].state == Some(Paused) ==> r.w[h.game].state == Some(Playing))
            && KeyHandling(h, r, true) == r
  {
  }

  /** The score, the lives and the state of a new game. */
  function NewGame(h: Handles, w: Store): (r: Store)
    requires Shaped(h, w)
    ensures r.Keys == w.Keys && Shaped(h, r) && BrickList(h, r) == BrickList(h, w)
    ensures r[h.game] == w[h.game].(score := Some(0), lives := Some(3), state := Some(Playing))
    ensures forall x | x in w && x != h.game :: r[x] == w[x]
  {
    var x := w[h.game].(score := Some(0), lives := Some(3), state := Some(Playing));
    Touch(h, w, h.game, x);
    w[h.game := x]
  }

  /** The ball hidden and put at the origin. */
  function Park(h: Handles, w: Store): (r: Store)
    requires Shaped(h, w)
    ensures r.Keys == w.Keys && Shaped(h, r) && BrickList(h, r) == BrickList(h, w)
    ensures r[h.ball] == w[h.ball].(shape := Some(w[h.ball].shape.value.(show := false)),
                                    position := Some(w[h.ball].position.value.(x := 0.0, y := 0.0)))
    ensures forall x | x in w && x != h.ball :: r[x] == w[x]
  {
    var b := w[h.ball];
    var x := b.(shape := Some(b.shape.value.(show := false)), position := Some(b.position.value.(x := 0.0, y := 0.0)));
    Touch(h, w, h.ball, x);
    w[h.ball := x]
  }

  /** `if (world.get(ball).has("respawn")) removeComponent(ball, "respawn")`. */
  function Disarm(h: Handles, w: Store): (r: Store)
    requires Shaped(h, w)
    ensures r.Keys == w.Keys && Shaped(h, r) && BrickList(h, r) == BrickList(h, w)
    ensures r[h.ball] == w[h.ball].(respawn := None)
    ensures forall x | x in w && x != h.ball :: r[x] == w[x]
  {
    var b := h.ball;
    var r := if Has(w[b], RESPAWN) then Remove(w, b, RESPAWN).value else w;
    assert r[b] == w[b].(respawn := None);
    Touch(h, w, b, r[b]);
    r
  }

  /** initGame, step by step: score 0, 3 lives, playing; the ball hidden at
      the origin; any ball timer removed; every brick shown (keeping its
      colour); then a 1500 ms timer that re-runs initBall attached, which
      cannot fail once the old one is gone, and stamped now. The level is not
      reset. */
  function InitGame(h: Handles, w: Store, now: real): (r: Store)
    requires Shaped(h, w)
    ensures r.Keys == w.Keys && Shaped(h, r) && BrickList(h, r) == BrickList(h, w)
  {
    var w1 := NewGame(h, w);
    var w2 := Park(h, w1);
    var w3 := Disarm(h, w2);
    var w4 := RevealBricks(h, w3, None);
    Arm(h, w4, 1500.0, RespawnInitBall, now).w
  }

  /** What a new game looks like, whatever state it starts from. */
  lemma InitGameEffect(h: Handles, w: Store, now: real)
    requires Shaped(h, w)
    ensures var r := InitGame(h, w, now);
            && r[h.game] == w[h.game].(score := Some(0), lives := Some(3), state := Some(Playing))
            && r[h.ball].shape == Some(w[h.ball].shape.value.(show := false))
            && r[h.ball].position.value.x == 0.0 && r[h.ball].position.value.y == 0.0
            && r[h.ball].respawn == Some(Respawn(now, 1500.0, RespawnInitBall))
            && r[h.ball].velocity == w[h.ball].velocity
            && (forall b | b in BrickList(h, w) ::
                  r[b] == w[b].(shape := Some(w[b].shape.value.(show := true))))
            && (forall x | x in w && x != h.game && x != h.ball && x !in BrickList(h, w) :: r[x] == w[x])
  {
    var w1 := NewGame(h, w);
    var w2 := Park(h, w1);
    var w3 := Disarm(h, w2);
    var w4 := RevealBricks(h, w3, None);
    assert Arm(h, w4, 1500.0, RespawnInitBall, now).Live?;
    forall b | b in BrickList(h, w) ensures w3[b] == w[b] {
      assert BrickOk(h, w, b);
    }
  }

  /** Playing, first half: the paddle follows the mouse, then the pause
      key is handled. */
  function SteerAndKeys(h: Handles, s: Sim, n: nat, inp: Input): (r: Sim)
    requires Shaped(h, s.w)
    ensures r.w.Keys == s.w.Keys && Shaped(h, r.w) && BrickList(h, r.w) == BrickList(h, s.w)
    ensures r.mouseWasPressed == s.mouseWasPressed
  {
    KeyHandling(h, s.(w := MouseControlSystem(h, s.w, n, inp.mouseX)), inp.pauseHeld)
  }

  /** Playing, second half: collision, movement, boundary, respawn and
      explosions, ending at the first fatal error. */
  function Physics(h: Handles, w: Store, n: nat, inp: Input): (r: Run)
    requires Shaped(h, w)
    ensures r.w.Keys == w.Keys && Shaped(h, r.w) && BrickList(h, r.w) == BrickList(h, w)
  {
    match CollisionSystem(h, w, inp)
    case Dead(d, c) => Dead(d, c)
    case Live(w1) =>
      match BoundarySystem(h, MovementSystem(h, w1, n), n, inp.now)
      case Dead(d, c) => Dead(d, c)
      case Live(w2) => Live(ExplosionSystem(h, RespawnSystem(h, w2, n, inp.now, inp.launch), n, inp.now))
  }

  /** A frame in the playing (or any unnamed) state. */
  function PlayFrame(h: Handles, s: Sim, n: nat, inp: Input): (r: Sim)
    requires Shaped(h, s.w)
    ensures r.w.Keys == s.w.Keys && Shaped(h, r.w) && BrickList(h, r.w) == BrickList(h, s.w)
    ensures r.mouseWasPressed == s.mouseWasPressed
  {
    var s1 := SteerAndKeys(h, s, n, inp);
    if s1.fault.Some? then s1
    else match Physics(h, s1.w, n, inp)
      case Dead(d, c) => s1.(w := d, fault := Some(c))
      case Live(w2) => s1.(w := w2)
  }

  /** The game-over screen: a fresh press restarts the game and a release
      clears the flag. */
  function GameOverScreen(h: Handles, s: Sim, inp: Input): (r: Sim)
    requires Shaped(h, s.w)
    ensures r.w.Keys == s.w.Keys && Shaped(h, r.w) && BrickList(h, r.w) == BrickList(h, s.w)
  {
    if inp.mouseDown && !s.mouseWasPressed then s.(w := InitGame(h, s.w, inp.now))
    else if !inp.mouseDown then s.(mouseWasPressed := false)
    else s
  }

  /** draw: nothing once an error has stopped the loop; on the game-over
      screen a fresh press restarts the game (and a release clears the
      flag); paused, only the key handler and the explosions run; respawning,
      only the timers and the explosions; otherwise every system in order. */
  function Draw(h: Handles, s: Sim, n: nat, inp: Input): (r: Sim)
    requires Shaped(h, s.w)
    ensures r.w.Keys == s.w.Keys && Shaped(h, r.w) && BrickList(h, r.w) == BrickList(h, s.w)
    ensures s.fault.Some? ==> r == s
  {
    if s.fault.Some? then s
    else match s.w[h.game].state.value
      case GameOver => GameOverScreen(h, s, inp)
      case Paused =>
        var s1 := KeyHandling(h, s, inp.pauseHeld);
        if s1.fault.Some? then s1 else s1.(w := ExplosionSystem(h, s1.w, n, inp.now))
      case Respawning =>
        s.(w := ExplosionSystem(h, RespawnSystem(h, s.w, n, inp.now, inp.launch), n, inp.now))
      case Playing => PlayFrame(h, s, n, inp)
  }

  /** The flag that should debounce the restart click is never set, so it
      stays false in every frame. */
  lemma MouseFlagStaysFalse(h: Handles, s: Sim, n: nat, inp: Input)
    requires Shaped(h, s.w) && !s.mouseWasPressed
    ensures !Draw(h, s, n, inp).mouseWasPressed
  {
  }

  /** On the game-over screen a press of the mouse always starts a new game
      (InitGameEffect says what that game is), and without one nothing
      changes. */
  lemma GameOverFrame(h: Handles, s: Sim, n: nat, inp: Input)
    requires Shaped(h, s.w) && s.fault.None? && s.w[h.game].state == Some(GameOver) && !s.mouseWasPressed
    ensures var r := Draw(h, s, n, inp);
            && (inp.mouseDown ==> r == s.(w := InitGame(h, s.w, inp.now)))
            && (!inp.mouseDown ==> r == s)
  {
    assert Draw(h, s, n, inp) == GameOverScreen(h, s, inp);
  }

  /** While paused nothing moves: the paddle, the ball and the timers are
      left alone, only explosions play out, and the game stays paused unless
      the key is newly pressed. */
  lemma PausedFrame(h: Handles, s: Sim, n: nat, inp: Input)
    requires Shaped(h, s.w) && s.fault.None? && s.w[h.game].state == Some(Paused)
    requires !inp.pauseHeld || s.pause == Some(true)
    ensures var r := Draw(h, s, n, inp);
            && r.fault.None?
            && r.w == ExplosionSystem(h, s.w, n, inp.now)
            && r.w[h.game].state == Some(Paused)
  {
    PausedGame(h, s.w, n, inp.now);
  }

  lemma PausedGame(h: Handles, w: Store, n: nat, now: real)
    requires Shaped(h, w) && w[h.game].state == Some(Paused)
    ensures ExplosionSystem(h, w, n, now)[h.game].state == Some(Paused)
  {
    SweepEffect(w, 0, n, FadeAt(now));
  }

  /** Pressing P on the first frame that reads the flag, before any frame
      with the key released has created it, stops the program. */
  lemma PauseBeforeReleaseCrashes(h: Handles, s: Sim, n: nat, inp: Input)
    requires Shaped(h, s.w) && s.fault.None? && s.pause.None? && inp.pauseHeld
    requires s.w[h.game].state == Some(Playing) || s.w[h.game].state == Some(Paused)
    ensures Draw(h, s, n, inp).fault == Some(ReferenceError("pauseKeyWasPressed"))
  {
  }
}
