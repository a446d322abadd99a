/** The per-frame systems that update every entity on its own
    (breakout.js:345-359, 449-479, 617-655): movement, mouse control and the
    explosion particles. Each scans the world in entity-id order, which is
    the insertion order a JavaScript Map iterates in, and updates one entity
    at a time from that entity's own components. */
module Systems {
  import opened Components
  import opened Ecs
  import opened Core
  import opened Geometry

  /** One pass over the ids e, e+1, …, n-1 applying f to each entity present. */
  function Sweep(w: Store, e: nat, n: nat, f: Entity -> Entity): (r: Store)
    ensures r.Keys == w.Keys
    decreases n - e
  {
    if e >= n then w
    else Sweep(if e in w then w[e := f(w[e])] else w, e + 1, n, f)
  }

  /** A sweep updates each entity in the range exactly once, from its own
      components, and leaves the others alone. */
  lemma {:induction false} SweepEffect(w: Store, e: nat, n: nat, f: Entity -> Entity)
    ensures forall x | x in w :: Sweep(w, e, n, f)[x] == (if e <= x < n then f(w[x]) else w[x])
    decreases n - e
  {
    if e < n {
      var w1 := if e in w then w[e := f(w[e])] else w;
      SweepEffect(w1, e + 1, n, f);
    }
  }

  /** One step of a sweep, at an id that is present and at one that is not. */
  lemma SweepStep(w: Store, e: nat, n: nat, f: Entity -> Entity, x: Entity)
    requires e < n && e in w && x == f(w[e])
    ensures Sweep(w, e, n, f) == Sweep(w[e := x], e + 1, n, f)
  {
  }

  lemma SweepSkip(w: Store, e: nat, n: nat, f: Entity -> Entity)
    requires e < n && e !in w
    ensures Sweep(w, e, n, f) == Sweep(w, e + 1, n, f)
  {
  }

  /** A sweep whose update Keeps every entity keeps the core-entity invariant. */
  lemma SweepShaped(h: Handles, w: Store, n: nat, f: Entity -> Entity)
    requires Shaped(h, w)
    requires forall c: Entity :: Keeps(c, f(c))
    ensures Shaped(h, Sweep(w, 0, n, f)) && BrickList(h, Sweep(w, 0, n, f)) == BrickList(h, w)
  {
    SweepEffect(w, 0, n, f);
    var r := Sweep(w, 0, n, f);
    forall x | x in w ensures Keeps(w[x], r[x]) {
      assert Keeps(w[x], f(w[x]));
    }
    ShapedKept(h, w, r);
  }

  // movementSystem (breakout.js:345-359)

  /** An entity the movement system moves: it has a velocity and a position
      and is not waiting on a respawn timer. */
  predicate Moves(c: Entity) {
    c.respawn.None? && c.velocity.Some? && c.position.Some?
  }

  /** One entity's step: displaced by (dx·speed, dy·speed) when it Moves. */
  function Move(c: Entity): (r: Entity)
    ensures Keeps(c, r)
  {
    if Moves(c) then
      var v := c.velocity.value;
      var p := c.position.value;
      c.(position := Some(p.(x := p.x + v.dx * v.speed, y := p.y + v.dy * v.speed)))
    else c
  }

  function MovementSystem(h: Handles, w: Store, n: nat): (r: Store)
    requires Shaped(h, w)
    ensures r.Keys == w.Keys && Shaped(h, r) && BrickList(h, r) == BrickList(h, w)
  {
    SweepShaped(h, w, n, Move);
    Sweep(w, 0, n, Move)
  }

  /** Every entity with a velocity and a position and no respawn timer is
      displaced by its velocity times its speed, and nothing else about it
      changes; every other entity is left exactly as it was. */
  lemma MovementEffect(h: Handles, w: Store, n: nat)
    requires Shaped(h, w) && forall e | e in w :: e < n
    ensures forall e | e in w ::
              var c := w[e];
              var r := MovementSystem(h, w, n)[e];
              if c.respawn.None? && c.velocity.Some? && c.position.Some? then
                && r.position.Some?
                && r.position.value.x == c.position.value.x + c.velocity.value.dx * c.velocity.value.speed
                && r.position.value.y == c.position.value.y + c.velocity.value.dy * c.velocity.value.speed
                && r.position.value.show == c.position.value.show
                && r.(position := c.position) == c
              else
                r == c
  {
    SweepEffect(w, 0, n, Move);
  }

  // mouseControlSystem (breakout.js:449-479)

  /** How far past either edge the paddle may go, as a fraction of its width. */
  const PCT_PADDLE_OFF_SCREEN: real := 0.75

  /** An entity the mouse control system steers. */
  predicate Steered(c: Entity) {
    c.mouseControl.Some? && c.position.Some? && c.shape.Some? && c.mouseControl.value.active
  }

  /** One entity's step: centred under the mouse, held to the playfield
      with the overhang allowance, and placed offsetY above the bottom. */
  function Steer(c: Entity, mouseX: real): (r: Entity)
    ensures Keeps(c, r)
  {
    if Steered(c) then
      var wd := c.shape.value.width;
      var x := Constrain(mouseX - wd / 2.0, -PCT_PADDLE_OFF_SCREEN * wd,
                         PLAYFIELD_WIDTH - wd + PCT_PADDLE_OFF_SCREEN * wd);
      c.(position := Some(c.position.value.(x := x, y := PLAYFIELD_HEIGHT - c.mouseControl.value.offsetY)))
    else c
  }

  /** Steer with the mouse at mouseX, as a per-entity update. */
  function SteerTo(mouseX: real): Entity -> Entity {
    c => Steer(c, mouseX)
  }

  function MouseControlSystem(h: Handles, w: Store, n: nat, mouseX: real): (r: Store)
    requires Shaped(h, w)
    ensures r.Keys == w.Keys && Shaped(h, r) && BrickList(h, r) == BrickList(h, w)
  {
    SweepShaped(h, w, n, SteerTo(mouseX));
    Sweep(w, 0, n, SteerTo(mouseX))
  }

  /** An entity with an active mouse control, a position and a shape of
      non-negative width gets x = mouseX − width/2 clamped into
      [−0.75·width, W − width + 0.75·width] (exactly mouseX − width/2 when that
      is inside, the nearer end of the range when it is not), and y = H − offsetY; nothing else about it changes. Every
      other entity, an inactive control included, is left as it was. */
  lemma MouseControlEffect(h: Handles, w: Store, n: nat, mouseX: real)
    requires Shaped(h, w) && forall e | e in w :: e < n
    ensures forall e | e in w ::
              var c := w[e];
              var r := MouseControlSystem(h, w, n, mouseX)[e];
              if c.mouseControl.Some? && c.position.Some? && c.shape.Some? && c.mouseControl.value.active then
                var wd := c.shape.value.width;
                var lo := -PCT_PADDLE_OFF_SCREEN * wd;
                var hi := PLAYFIELD_WIDTH - wd + PCT_PADDLE_OFF_SCREEN * wd;
                && r.position.Some?
                && (wd >= 0.0 ==> lo <= r.position.value.x <= hi)
                && (lo <= mouseX - wd / 2.0 <= hi ==> r.position.value.x == mouseX - wd / 2.0)
                && (mouseX - wd / 2.0 <= lo ==> r.position.value.x == lo)
                && (wd >= 0.0 && hi <= mouseX - wd / 2.0 ==> r.position.value.x == hi)
                && r.position.value.y == PLAYFIELD_HEIGHT - c.mouseControl.value.offsetY
                && r.(position := c.position) == c
              else
                r == c
  {
    SweepEffect(w, 0, n, SteerTo(mouseX));
  }

  // explosionSystem, without the drawing (breakout.js:617-637, 651-655)

  /** One particle's update: moved by its own velocity, its alpha the share of
      the explosion's lifetime still to run. */
  function Drift(p: Particle, now: real, life: Duration): Particle {
    p.(x := p.x + p.dx, y := p.y + p.dy, alpha := 1.0 - (now - p.createdAt) / life)
  }

  /** The particle update loop over a whole list. */
  function DriftAll(ps: seq<Particle>, now: real, life: Duration): (qs: seq<Particle>)
    ensures |qs| == |ps|
    ensures forall i | 0 <= i < |ps| :: qs[i] == Drift(ps[i], now, life)
  {
    if ps == [] then [] else [Drift(ps[0], now, life)] + DriftAll(ps[1..], now, life)
  }

  /** A particle is still alive while its age is below the lifetime. */
  predicate Young(p: Particle, now: real, life: Duration) {
    now - p.createdAt < life
  }

  /** `particles.filter(p => millis() - p.createdAt < lifeTimeMS)`. */
  function Survivors(ps: seq<Particle>, now: real, life: Duration): (qs: seq<Particle>)
    ensures |qs| <= |ps|
    ensures forall q | q in qs :: q in ps && Young(q, now, life)
    ensures forall p | p in ps && Young(p, now, life) :: p in qs
  {
    if ps == [] then []
    else if Young(ps[0], now, life) then [ps[0]] + Survivors(ps[1..], now, life)
    else Survivors(ps[1..], now, life)
  }

  /** The filter's step at position i. */
  lemma SurvivorsStep(ps: seq<Particle>, i: nat, now: real, life: Duration)
    requires i < |ps|
    ensures Survivors(ps[i..], now, life)
              == (if Young(ps[i], now, life) then [ps[i]] else []) + Survivors(ps[i + 1..], now, life)
  {
    assert ps[i..][1..] == ps[i + 1..];
  }

  /** One explosion's step: the particles updated and the expired ones
      dropped; None when none is left (the component is then removed). */
  function Tick(x: Explosion, now: real): (r: Option<Explosion>)
    ensures r.Some? ==> r.value.lifeTimeMS == x.lifeTimeMS && 0 < |r.value.particles| <= |x.particles|
  {
    var ps := Survivors(DriftAll(x.particles, now, x.lifeTimeMS), now, x.lifeTimeMS);
    if |ps| == 0 then None else Some(x.(particles := ps))
  }

  /** One entity's step: its explosion ticked, and detached once empty. */
  function Fade(c: Entity, now: real): (r: Entity)
    ensures Keeps(c, r)
  {
    if c.explosion.Some? then c.(explosion := Tick(c.explosion.value, now)) else c
  }

  /** Fade at time now, as a per-entity update. */
  function FadeAt(now: real): Entity -> Entity {
    c => Fade(c, now)
  }

  function ExplosionSystem(h: Handles, w: Store, n: nat, now: real): (r: Store)
    requires Shaped(h, w)
    ensures r.Keys == w.Keys && Shaped(h, r) && BrickList(h, r) == BrickList(h, w)
  {
    SweepShaped(h, w, n, FadeAt(now));
    Sweep(w, 0, n, FadeAt(now))
  }

  /** The update loop keeps each particle's birth time, so it keeps whether
      the particle is young; every updated particle comes from one of the
      originals and every original is updated. */
  lemma DriftAllMembers(ps: seq<Particle>, now: real, life: Duration)
    ensures forall p | p in ps :: Drift(p, now, life) in DriftAll(ps, now, life)
    ensures forall q | q in DriftAll(ps, now, life) :: exists p | p in ps :: q == Drift(p, now, life)
  {
    var ds := DriftAll(ps, now, life);
    forall p | p in ps ensures Drift(p, now, life) in ds {
      var i :| 0 <= i < |ps| && ps[i] == p;
      assert ds[i] == Drift(p, now, life);
    }
    forall q | q in ds ensures exists p | p in ps :: q == Drift(p, now, life) {
      var i :| 0 <= i < |ds| && ds[i] == q;
      assert ps[i] in ps;
    }
  }

  /** The filter leaves nothing exactly when nothing in the list is young. */
  lemma SurvivorsEmpty(ps: seq<Particle>, now: real, life: Duration)
    ensures |Survivors(ps, now, life)| == 0 <==> forall p | p in ps :: !Young(p, now, life)
  {
    var qs := Survivors(ps, now, life);
    if |qs| > 0 {
      assert qs[0] in qs;
    }
  }

  /** An explosion is removed exactly when none of its particles is young. */
  lemma TickExpires(x: Explosion, now: real)
    ensures Tick(x, now).None? <==> forall p | p in x.particles :: !Young(p, now, x.lifeTimeMS)
  {
    var life := x.lifeTimeMS;
    var ds := DriftAll(x.particles, now, life);
    DriftAllMembers(x.particles, now, life);
    assert (forall q | q in ds :: !Young(q, now, life)) <==> (forall p | p in x.particles :: !Young(p, now, life)) by {
      forall p | p in x.particles ensures Young(Drift(p, now, life), now, life) == Young(p, now, life) {}
    }
    SurvivorsEmpty(ds, now, life);
  }

  /** A kept explosion changes only its particle list, which does not grow. */
  lemma TickShape(x: Explosion, now: real)
    requires Tick(x, now).Some?
    ensures var y := Tick(x, now).value;
            && y == x.(particles := y.particles)
            && |y.particles| <= |x.particles|
  {
  }

  /** After a tick every particle left is young and is one of the originals
      moved by its own velocity. */
  lemma TickSurvivors(x: Explosion, now: real)
    requires Tick(x, now).Some?
    ensures forall q | q in Tick(x, now).value.particles ::
              && Young(q, now, x.lifeTimeMS)
              && exists p | p in x.particles :: q == Drift(p, now, x.lifeTimeMS)
  {
    DriftAllMembers(x.particles, now, x.lifeTimeMS);
  }

  /** After a tick a particle left that was born no later than now carries an
      alpha in (0, 1]. */
  lemma TickAlpha(x: Explosion, now: real, q: Particle)
    requires Tick(x, now).Some? && q in Tick(x, now).value.particles && now >= q.createdAt
    ensures 0.0 < q.alpha <= 1.0
  {
    var life := x.lifeTimeMS;
    TickSurvivors(x, now);
    var p :| p in x.particles && q == Drift(p, now, life);
    AgeShare(now - q.createdAt, life);
  }

  /** Every young particle survives a tick, updated. */
  lemma TickKeepsYoung(x: Explosion, now: real, p: Particle)
    requires p in x.particles && Young(p, now, x.lifeTimeMS)
    ensures Tick(x, now).Some? && Drift(p, now, x.lifeTimeMS) in Tick(x, now).value.particles
  {
    DriftAllMembers(x.particles, now, x.lifeTimeMS);
  }

  /** An age in [0, life) leaves a share 1 − age/life in (0, 1]. */
  lemma AgeShare(age: real, life: Duration)
    requires 0.0 <= age < life
    ensures 0.0 < 1.0 - age / life <= 1.0
  {
    var l: real := life;
    var s := age / l;
    assert s * l == age;
    assert 0.0 <= s by { if s < 0.0 { MulNeg(s, l); } }
    assert s < 1.0 by { if s >= 1.0 { MulAtLeast(s, l); } }
  }

  lemma MulNeg(s: real, l: real)
    requires s < 0.0 && l > 0.0
    ensures s * l < 0.0
  {
  }

  lemma MulAtLeast(s: real, l: real)
    requires s >= 1.0 && l > 0.0
    ensures s * l >= l
  {
    assert s * l == (s - 1.0) * l + l;
    MulNonneg(s - 1.0, l);
  }

  lemma MulNonneg(a: real, b: real)
    requires a >= 0.0 && b > 0.0
    ensures a * b >= 0.0
  {
  }

  /** Every entity with an explosion has it ticked (or removed when no
      particle is left) and nothing else about it changes; the others are
      left as they were. */
  lemma ExplosionEffect(h: Handles, w: Store, n: nat, now: real)
    requires Shaped(h, w) && forall e | e in w :: e < n
    ensures forall e | e in w ::
              var c := w[e];
              var r := ExplosionSystem(h, w, n, now)[e];
              if c.explosion.Some? then r == c.(explosion := Tick(c.explosion.value, now)) else r == c
  {
    SweepEffect(w, 0, n, FadeAt(now));
  }
}
