/** The respawn system (breakout.js:565-582): every entity with a respawn
    timer and a shape whose delay has run out gets the timer's callback run,
    is shown again and loses the timer. The scan is in entity-id order. */
module Respawning {
  import opened Components
  import opened Ecs
  import opened Core
  import opened Triggers

  /** `millis() - deathTime >= respawnDelayMS`. */
  predicate Due(t: Respawn, now: real) {
    now - t.deathTime >= t.respawnDelayMS
  }

  /** An entity whose timer fires now. */
  predicate Fires(c: Entity, now: real) {
    c.respawn.Some? && c.shape.Some? && Due(c.respawn.value, now)
  }

  /** One entity's turn: when its timer fires, the callback runs (with this
      frame's launch draw), `render.show = true`, and the timer is removed.
      The callback adds a timer to the ball or keeps the one there, so the
      removal always finds one. */
  function RespawnStep(h: Handles, w: Store, e: EntityId, now: real, launch: Launch): (r: Store)
    requires Shaped(h, w) && e in w
    ensures r.Keys == w.Keys && Shaped(h, r) && BrickList(h, r) == BrickList(h, w)
    ensures !Fires(w[e], now) ==> r == w
  {
    if !Fires(w[e], now) then w
    else
      var w1 := OnRespawn(h, w, w[e].respawn.value.doOnRespawn, launch);
      var w2 := Show(h, w1, e, true);
      var r := Remove(w2, e, RESPAWN).value;
      Touch(h, w2, e, r[e]);
      r
  }

  /** A timer that fires is gone afterwards, whatever its callback attached
      meanwhile: the entity ends shown, without a timer, and is otherwise as
      the callback left it. In particular the launch timer that initBall
      attaches from inside a respawn callback is removed in the same turn. */
  lemma RespawnFired(h: Handles, w: Store, e: EntityId, now: real, launch: Launch)
    requires Shaped(h, w) && e in w && Fires(w[e], now)
    ensures var w1 := OnRespawn(h, w, w[e].respawn.value.doOnRespawn, launch);
            var r := RespawnStep(h, w, e, now, launch);
            && r[e].respawn.None?
            && r[e].shape == Some(w1[e].shape.value.(show := true))
            && r[e] == w1[e].(shape := r[e].shape, respawn := None)
            && forall x | x in w && x != e :: r[x] == w1[x]
  {
  }

  /** The ball's own life timer (what the bottom handler and initGame attach)
      re-runs initBall: the ball comes back shown, centred, with this frame's
      launch velocity, and without any timer, so it moves at once. */
  lemma RespawnBallRelaunched(h: Handles, w: Store, now: real, launch: Launch)
    requires Shaped(h, w) && Fires(w[h.ball], now)
    requires w[h.ball].respawn.value.doOnRespawn == RespawnInitBall
    ensures var r := RespawnStep(h, w, h.ball, now, launch);
            && r[h.ball].respawn.None?
            && r[h.ball].shape == Some(w[h.ball].shape.value.(show := true))
            && r[h.ball].velocity == Some(Velocity(launch.dx, launch.dy, launch.speed))
            && Centred(r[h.ball].position.value, r[h.ball].shape.value)
            && r[h.game] == w[h.game]
  {
    RespawnFired(h, w, h.ball, now, launch);
  }

  /** The scan over the ids e … n−1. */
  function RespawnFrom(h: Handles, w: Store, e: nat, n: nat, now: real, launch: Launch): (r: Store)
    requires Shaped(h, w)
    ensures r.Keys == w.Keys && Shaped(h, r) && BrickList(h, r) == BrickList(h, w)
    decreases n - e
  {
    if e >= n then w
    else RespawnFrom(h, if e in w then RespawnStep(h, w, e, now, launch) else w, e + 1, n, now, launch)
  }

  function RespawnSystem(h: Handles, w: Store, n: nat, now: real, launch: Launch): (r: Store)
    requires Shaped(h, w)
    ensures r.Keys == w.Keys && Shaped(h, r) && BrickList(h, r) == BrickList(h, w)
  {
    RespawnFrom(h, w, 0, n, now, launch)
  }

  /** A scan over entities none of whose timers fire changes nothing. */
  lemma {:induction false} RespawnIdle(h: Handles, w: Store, e: nat, n: nat, now: real, launch: Launch)
    requires Shaped(h, w)
    requires forall x | x in w && e <= x < n :: !Fires(w[x], now)
    ensures RespawnFrom(h, w, e, n, now, launch) == w
    decreases n - e
  {
    if e < n {
      RespawnIdle(h, w, e + 1, n, now, launch);
    }
  }
}
