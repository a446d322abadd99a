/** The boundary system (breakout.js:362-410): every entity held inside a
    rectangle bounces off its left, right and top edges and calls its
    bottom-edge callback when it reaches the bottom. The scan is in entity-id
    order and stops at the first fatal error a callback raises. */
module Boundary {
  import opened Components
  import opened Ecs
  import opened Core
  import opened Geometry
  import opened Triggers

  /** An entity the boundary system handles: bounded, placed, moving, drawn
      and not waiting on a respawn timer. */
  predicate Bounded(c: Entity) {
    && c.boundedByRect.Some? && c.position.Some? && c.velocity.Some? && c.shape.Some?
    && c.respawn.None?
  }

  /** It touches the left or the right edge. */
  predicate AtSide(c: Entity)
    requires Bounded(c)
  {
    var b := c.boundedByRect.value.bounds;
    var p := c.position.value;
    p.x <= b.x || p.x + c.shape.value.width >= b.x + b.width
  }

  /** It touches the top edge. */
  predicate AtTop(c: Entity)
    requires Bounded(c)
  {
    c.position.value.y <= c.boundedByRect.value.bounds.y
  }

  /** It reaches the bottom edge without touching the top one (the bottom test
      is the else branch of the top test). */
  predicate AtBottom(c: Entity)
    requires Bounded(c)
  {
    var b := c.boundedByRect.value.bounds;
    !AtTop(c) && c.position.value.y + c.shape.value.height >= b.y + b.height
  }

  /** The bounce: at a side the horizontal velocity is negated and x is pulled
      back into [left, right − width]; at the top the vertical velocity is
      negated and y set to the top. */
  function Reflect(c: Entity): (r: Entity)
    requires Bounded(c)
    ensures Bounded(r) && Keeps(c, r)
    ensures r == c.(velocity := r.velocity, position := r.position)
  {
    var b := c.boundedByRect.value.bounds;
    var v := c.velocity.value;
    var p := c.position.value;
    var wd := c.shape.value.width;
    var side := AtSide(c);
    var top := AtTop(c);
    var dx := if side then -v.dx else v.dx;
    var x := if side then Max(b.x, Min(p.x, b.x + b.width - wd)) else p.x;
    var dy := if top then -v.dy else v.dy;
    var y := if top then b.y else p.y;
    c.(velocity := Some(v.(dx := dx, dy := dy)), position := Some(p.(x := x, y := y)))
  }

  /** The bounce laws: the horizontal direction flips exactly at a side and
      the vertical one exactly at the top; after a side bounce x lies inside
      the rectangle whenever the entity fits in it, on the left edge when it
      was past the left edge and on the right edge (less its width) when it
      was past the right one; after a top bounce y is
      the top; the speed, the other coordinate and the flag of a position are
      unchanged; an entity strictly inside is left alone. */
  lemma ReflectLaws(c: Entity)
    requires Bounded(c)
    ensures var r := Reflect(c);
            var b := c.boundedByRect.value.bounds;
            var wd := c.shape.value.width;
            && r.velocity.value.dx == (if AtSide(c) then -c.velocity.value.dx else c.velocity.value.dx)
            && r.velocity.value.dy == (if AtTop(c) then -c.velocity.value.dy else c.velocity.value.dy)
            && r.velocity.value.speed == c.velocity.value.speed
            && (AtSide(c) && wd <= b.width ==> b.x <= r.position.value.x <= b.x + b.width - wd)
            && (c.position.value.x <= b.x && wd <= b.width ==> r.position.value.x == b.x)
            && (c.position.value.x + wd >= b.x + b.width && wd <= b.width ==>
                  r.position.value.x == b.x + b.width - wd)
            && (!AtSide(c) ==> r.position.value.x == c.position.value.x)
            && r.position.value.y == (if AtTop(c) then b.y else c.position.value.y)
            && r.position.value.show == c.position.value.show
            && (!AtSide(c) && !AtTop(c) ==> r == c)
  {
  }

  /** One entity's turn: skipped unless Bounded; else bounced, and at the
      bottom its onBottomHit callback runs on the bounced store. */
  function BoundaryStep(h: Handles, w: Store, e: EntityId, now: real): (r: Run)
    requires Shaped(h, w) && e in w
    ensures r.w.Keys == w.Keys && Shaped(h, r.w) && BrickList(h, r.w) == BrickList(h, w)
    ensures !Bounded(w[e]) ==> r == Live(w)
    ensures Bounded(w[e]) ==> Shaped(h, w[e := Reflect(w[e])])
    ensures Bounded(w[e]) && !AtBottom(w[e]) ==> r == Live(w[e := Reflect(w[e])])
    ensures Bounded(w[e]) && AtBottom(w[e]) ==>
              r == OnBottom(h, w[e := Reflect(w[e])], w[e].boundedByRect.value.onBottomHit, now)
  {
    if !Bounded(w[e]) then Live(w)
    else
      var c := Reflect(w[e]);
      Touch(h, w, e, c);
      var w1 := w[e := c];
      if AtBottom(w[e]) then OnBottom(h, w1, w[e].boundedByRect.value.onBottomHit, now) else Live(w1)
  }

  /** The scan over the ids e … n−1; a fatal error ends it with the store as
      the throw left it. */
  function BoundaryFrom(h: Handles, w: Store, e: nat, n: nat, now: real): (r: Run)
    requires Shaped(h, w)
    ensures r.w.Keys == w.Keys && Shaped(h, r.w) && BrickList(h, r.w) == BrickList(h, w)
    decreases n - e
  {
    if e >= n then Live(w)
    else if e !in w then BoundaryFrom(h, w, e + 1, n, now)
    else match BoundaryStep(h, w, e, now)
      case Dead(w1, crash) => Dead(w1, crash)
      case Live(w1) => BoundaryFrom(h, w1, e + 1, n, now)
  }

  function BoundarySystem(h: Handles, w: Store, n: nat, now: real): (r: Run)
    requires Shaped(h, w)
    ensures r.w.Keys == w.Keys && Shaped(h, r.w) && BrickList(h, r.w) == BrickList(h, w)
  {
    BoundaryFrom(h, w, 0, n, now)
  }

  /** A scan over ids none of whose entities is Bounded changes nothing. */
  lemma {:induction false} BoundaryIdle(h: Handles, w: Store, e: nat, n: nat, now: real)
    requires Shaped(h, w)
    requires forall x | x in w && e <= x < n :: !Bounded(w[x])
    ensures BoundaryFrom(h, w, e, n, now) == Live(w)
    decreases n - e
  {
    if e < n {
      BoundaryIdle(h, w, e + 1, n, now);
    }
  }

  /** The ball is the only entity held inside a rectangle (Shaped says so),
      so a scan from id e on that reaches the ball is the ball's own turn: its
      bounce, and its bottom callback at the bottom. */
  lemma {:induction false} BoundaryBallOnly(h: Handles, w: Store, e: nat, n: nat, now: real)
    requires Shaped(h, w) && e <= h.ball < n
    ensures BoundaryFrom(h, w, e, n, now) == BoundaryStep(h, w, h.ball, now)
    decreases n - e
  {
    if e < h.ball {
      assert !BoundedIn(w, e);
      BoundaryBallOnly(h, w, e + 1, n, now);
    } else {
      BallTurnLast(h, w, n, now);
    }
  }

  /** The scan from the ball's own id: its turn, and nothing after it. */
  lemma BallTurnLast(h: Handles, w: Store, n: nat, now: real)
    requires Shaped(h, w) && h.ball < n
    ensures BoundaryFrom(h, w, h.ball, n, now) == BoundaryStep(h, w, h.ball, now)
  {
    var s := BoundaryStep(h, w, h.ball, now);
    if s.Live? {
      forall x | x in s.w && h.ball + 1 <= x < n ensures !Bounded(s.w[x]) {
        assert !BoundedIn(s.w, x);
      }
      BoundaryIdle(h, s.w, h.ball + 1, n, now);
    }
  }

  /** The whole boundary system, in any world every frame keeps, is the
      ball's turn. */
  lemma BoundarySystemIsBallTurn(h: Handles, w: Store, n: nat, now: real)
    requires Shaped(h, w) && h.ball < n
    ensures BoundarySystem(h, w, n, now) == BoundaryStep(h, w, h.ball, now)
  {
    BoundaryBallOnly(h, w, 0, n, now);
  }

  /** The ball's turn only touches the ball and the game, and leaves the game
      without bounds. */
  lemma BallTurnFrame(h: Handles, w: Store, now: real)
    requires Shaped(h, w)
    ensures var r := BoundaryStep(h, w, h.ball, now).w;
            && (forall x | x in w && x != h.ball && x != h.game :: r[x] == w[x])
            && r[h.game].boundedByRect.None?
  {
    assert !BoundedIn(w, h.game);
    var c := w[h.ball];
    if Bounded(c) && AtBottom(c) {
      var w1 := w[h.ball := Reflect(c)];
      Touch(h, w, h.ball, Reflect(c));
      BottomFrame(h, w1, c.boundedByRect.value.onBottomHit, now);
    }
  }

  /** The bottom callback writes only the game's lives and state and the
      ball's shape and timer. */
  lemma BottomFrame(h: Handles, w: Store, a: BottomAction, now: real)
    requires Shaped(h, w)
    ensures var r := OnBottom(h, w, a, now).w;
            && (forall x | x in w && x != h.ball && x != h.game :: r[x] == w[x])
            && r[h.game].boundedByRect == w[h.game].boundedByRect
  {
    if a.BallBottom? {
      BallBottomFrame(h, w, now);
    }
  }
}
