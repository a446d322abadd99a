/** The collision system (breakout.js:481-563): nothing while the ball is
    hidden; otherwise the first visible brick in the game's list that the
    ball's box overlaps is hit (its callback runs and the ball's vertical
    direction flips), the win trigger runs, and a ball overlapping the paddle
    is sent back up with a horizontal speed that follows where it struck. */
module Collision {
  import opened Components
  import opened Ecs
  import opened Core
  import opened Geometry
  import opened Triggers

  /** Two placed, drawn entities whose boxes overlap (edges included). */
  predicate Touching(a: Entity, b: Entity)
    requires a.position.Some? && a.shape.Some? && b.position.Some? && b.shape.Some?
  {
    var p := a.position.value;
    var q := b.position.value;
    Overlap(p.x, p.y, a.shape.value.width, a.shape.value.height,
            q.x, q.y, b.shape.value.width, b.shape.value.height)
  }

  /** The ball hits a brick when the brick is visible and the boxes overlap. */
  predicate Strikes(ball: Entity, brick: Entity)
    requires ball.position.Some? && ball.shape.Some? && brick.position.Some? && brick.shape.Some?
  {
    brick.shape.value.show && Touching(ball, brick)
  }

  /** Every id of the list names a placed, drawn entity. */
  predicate Placed(w: Store, bs: seq<EntityId>) {
    forall k | 0 <= k < |bs| :: bs[k] in w && w[bs[k]].shape.Some? && w[bs[k]].position.Some?
  }

  /** The brick loop with its `break`: the index of the first brick from i on
      that the ball strikes. */
  function FirstHit(w: Store, ball: Entity, bs: seq<EntityId>, i: nat): (r: Option<nat>)
    requires ball.position.Some? && ball.shape.Some? && Placed(w, bs) && i <= |bs|
    ensures r.Some? ==> i <= r.value < |bs| && Strikes(ball, w[bs[r.value]])
    ensures r.Some? ==> forall k | i <= k < r.value :: !Strikes(ball, w[bs[k]])
    ensures r.None? <==> forall k | i <= k < |bs| :: !Strikes(ball, w[bs[k]])
    decreases |bs| - i
  {
    if i == |bs| then None
    else if Strikes(ball, w[bs[i]]) then Some(i)
    else FirstHit(w, ball, bs, i + 1)
  }

  lemma BricksPlaced(h: Handles, w: Store)
    requires Shaped(h, w)
    ensures Placed(w, BrickList(h, w))
    ensures forall k | 0 <= k < |BrickList(h, w)| :: BrickOk(h, w, BrickList(h, w)[k])
  {
    var bs := BrickList(h, w);
    forall k | 0 <= k < |bs| ensures BrickOk(h, w, bs[k]) {
      assert bs[k] in bs;
    }
  }

  /** `ballVel.dy *= -1`. */
  function FlipDy(h: Handles, w: Store): (r: Store)
    requires Shaped(h, w)
    ensures r.Keys == w.Keys && Shaped(h, r) && BrickList(h, r) == BrickList(h, w)
    ensures r[h.ball] == w[h.ball].(velocity := Some(w[h.ball].velocity.value.(dy := -w[h.ball].velocity.value.dy)))
    ensures forall x | x in w && x != h.ball :: r[x] == w[x]
  {
    var v := w[h.ball].velocity.value;
    var x := w[h.ball].(velocity := Some(v.(dy := -v.dy)));
    Touch(h, w, h.ball, x);
    w[h.ball := x]
  }

  /** The brick loop: the first struck brick's doOnHit runs, then the ball's
      vertical direction flips; with no brick struck nothing changes. */
  function BrickStage(h: Handles, w: Store, now: real, spark: nat -> Spark): (r: Run)
    requires Shaped(h, w)
    ensures r.w.Keys == w.Keys && Shaped(h, r.w) && BrickList(h, r.w) == BrickList(h, w)
  {
    BricksPlaced(h, w);
    var bs := BrickList(h, w);
    match FirstHit(w, w[h.ball], bs, 0)
    case None => Live(w)
    case Some(i) =>
      var b := bs[i];
      match OnHit(h, w, w[b].brickHitTrigger.value, now, spark)
      case Dead(d, c) => Dead(d, c)
      case Live(w1) => Live(FlipDy(h, w1))
  }

  /** With no visible brick under the ball the brick loop changes nothing. */
  lemma BrickStageMiss(h: Handles, w: Store, now: real, spark: nat -> Spark)
    requires Shaped(h, w) && Placed(w, BrickList(h, w))
    requires forall k | 0 <= k < |BrickList(h, w)| :: !Strikes(w[h.ball], w[BrickList(h, w)[k]])
    ensures BrickStage(h, w, now, spark) == Live(w)
  {
  }

  /** The brick loop touches only the first brick the ball strikes: that
      brick is hidden and (when the explosion can be attached) explodes where
      it stands in its own colour, the score grows by 10 and the ball's
      vertical direction flips; every other brick, struck or not, and
      everything else, is as it was. */
  lemma BrickStageHit(h: Handles, w: Store, now: real, spark: nat -> Spark, i: nat)
    requires Shaped(h, w) && Placed(w, BrickList(h, w)) && i < |BrickList(h, w)|
    requires Strikes(w[h.ball], w[BrickList(h, w)[i]])
    requires forall k | 0 <= k < i :: !Strikes(w[h.ball], w[BrickList(h, w)[k]])
    ensures var b := BrickList(h, w)[i];
            var r := BrickStage(h, w, now, spark);
            && (r.Live? <==> w[b].explosion.None?)
            && r.w[h.game] == w[h.game].(score := Some(w[h.game].score.value + 10))
            && r.w[b].shape == Some(w[b].shape.value.(show := false))
            && (r.Live? ==> r.w[h.ball].velocity.value.dy == -w[h.ball].velocity.value.dy)
            && (r.Live? ==>
                  r.w[b].explosion == Some(MakeExplosion(w[b].position.value.x, w[b].position.value.y,
                                                         spark, now, w[b].shape.value.fill, 10)))
            && (forall x | x in w && x != b && x != h.game && x != h.ball :: r.w[x] == w[x])
  {
    BricksPlaced(h, w);
    var bs := BrickList(h, w);
    var b := bs[i];
    FirstHitIs(w, w[h.ball], bs, 0, i);
    BrickHitEffect(h, w, b, now, spark);
  }

  /** FirstHit finds exactly the least struck index. */
  lemma {:induction false} FirstHitIs(w: Store, ball: Entity, bs: seq<EntityId>, i: nat, j: nat)
    requires ball.position.Some? && ball.shape.Some? && Placed(w, bs) && i <= j < |bs|
    requires Strikes(ball, w[bs[j]])
    requires forall k | i <= k < j :: !Strikes(ball, w[bs[k]])
    ensures FirstHit(w, ball, bs, i) == Some(j)
    decreases j - i
  {
    if i < j {
      FirstHitIs(w, ball, bs, i + 1, j);
    }
  }

  /** `stats.hits++` on the paddle. */
  function CountHit(h: Handles, w: Store): (r: Store)
    requires Shaped(h, w)
    ensures r.Keys == w.Keys && Shaped(h, r) && BrickList(h, r) == BrickList(h, w)
    ensures r[h.paddle] == w[h.paddle].(stats := Some(w[h.paddle].stats.value + 1))
    ensures forall x | x in w && x != h.paddle :: r[x] == w[x]
  {
    var x := w[h.paddle].(stats := Some(w[h.paddle].stats.value + 1));
    Touch(h, w, h.paddle, x);
    w[h.paddle := x]
  }

  /** Where the ball's centre is, relative to the paddle's centre. */
  function HitPosition(ball: Entity, paddle: Entity): real
    requires ball.position.Some? && ball.shape.Some? && paddle.position.Some? && paddle.shape.Some?
  {
    ball.position.value.x + ball.shape.value.width / 2.0
      - (paddle.position.value.x + paddle.shape.value.width / 2.0)
  }

  /** The paddle bounce on the ball: upward at the same vertical speed,
      resting on the paddle's top, horizontal speed the hit position over the
      paddle's half-width times the vertical speed, and both scaled by the
      speed-normalisation ratio. */
  function Bounce(ball: Entity, paddle: Entity, scale: real): (r: Entity)
    requires ball.position.Some? && ball.shape.Some? && ball.velocity.Some?
    requires paddle.position.Some? && paddle.shape.Some? && paddle.shape.value.width > 0.0
    ensures Keeps(ball, r)
  {
    var v := ball.velocity.value;
    var dy := -Abs(v.dy);
    var dx := (HitPosition(ball, paddle) / (paddle.shape.value.width / 2.0)) * Abs(dy);
    ball.(velocity := Some(v.(dx := dx * scale, dy := dy * scale)),
          position := Some(ball.position.value.(y := paddle.position.value.y - ball.shape.value.height)))
  }

  /** The paddle check: when the ball's box overlaps the paddle's, the paddle
      counts a hit and the ball bounces. */
  function PaddleStage(h: Handles, w: Store, scale: real): (r: Store)
    requires Shaped(h, w)
    ensures r.Keys == w.Keys && Shaped(h, r) && BrickList(h, r) == BrickList(h, w)
    ensures !Touching(w[h.ball], w[h.paddle]) ==> r == w
    ensures Touching(w[h.ball], w[h.paddle]) ==>
              && r[h.paddle] == w[h.paddle].(stats := Some(w[h.paddle].stats.value + 1))
              && r[h.ball] == Bounce(w[h.ball], w[h.paddle], scale)
              && forall x | x in w && x != h.paddle && x != h.ball :: r[x] == w[x]
  {
    if !Touching(w[h.ball], w[h.paddle]) then w
    else
      var w1 := CountHit(h, w);
      var x := Bounce(w[h.ball], w[h.paddle], scale);
      Touch(h, w1, h.ball, x);
      w1[h.ball := x]
  }

  /** The paddle bounce laws, for a positive normalisation ratio: the ball
      ends resting on the paddle's top edge moving up (or level, when it had
      no vertical speed) with its old vertical speed scaled; its horizontal
      velocity has the sign of the hit position (zero at the centre, to the
      left of centre); and since the boxes overlap the hit position is
      within half the two widths of the centre, so the horizontal speed is at
      most (1 + ball width / paddle width) times the vertical one. */
  lemma BounceLaws(ball: Entity, paddle: Entity, scale: real)
    requires ball.position.Some? && ball.shape.Some? && ball.velocity.Some?
    requires paddle.position.Some? && paddle.shape.Some? && paddle.shape.value.width > 0.0
    requires Touching(ball, paddle) && scale > 0.0
    ensures var r := Bounce(ball, paddle, scale);
            var hit := HitPosition(ball, paddle);
            var pw := paddle.shape.value.width;
            var bw := ball.shape.value.width;
            && r.position.value.y + ball.shape.value.height == paddle.position.value.y
            && r.position.value.x == ball.position.value.x
            && r.velocity.value.dy == -Abs(ball.velocity.value.dy) * scale
            && r.velocity.value.dy <= 0.0
            && (r.velocity.value.dx < 0.0 <==> hit < 0.0 && ball.velocity.value.dy != 0.0)
            && (r.velocity.value.dx > 0.0 <==> hit > 0.0 && ball.velocity.value.dy != 0.0)
            && -(pw + bw) / 2.0 <= hit <= (pw + bw) / 2.0
            && Abs(r.velocity.value.dx) <= (1.0 + bw / pw) * Abs(r.velocity.value.dy)
  {
    var pw := paddle.shape.value.width;
    var hit := HitPosition(ball, paddle);
    var a := Abs(ball.velocity.value.dy);
    var q := hit / (pw / 2.0);
    assert q * (pw / 2.0) == hit;
    SignOfProduct(q, pw / 2.0);
    SignOfProduct(a, scale);
    if a > 0.0 {
      SignOfProduct(q, a);
    } else {
      assert q * a == 0.0;
    }
    SignOfProduct(q * a, scale);
    var bw := ball.shape.value.width;
    QuotientBound(hit, (pw + bw) / 2.0, pw / 2.0);
    HalfRatio(pw, bw);
    SlopeBound(q, a, scale, 1.0 + bw / pw);
  }

  /** Half the combined widths over half the paddle width is 1 + bw / pw. */
  lemma HalfRatio(pw: real, bw: real)
    requires pw > 0.0
    ensures ((pw + bw) / 2.0) / (pw / 2.0) == 1.0 + bw / pw
  {
    var k := 1.0 + bw / pw;
    assert bw / pw * pw == bw;
    var p := pw / 2.0;
    assert (pw + bw) / 2.0 == p * k;
    assert (p * k) / p == k;
  }

  /** The speed normalisation: when the ratio scale satisfies
      scale² · (dx'² + dy'²) = dx² + dy² for the unnormalised new velocity
      (dx', dy'), as currentSpeed / newSpeed does, the bounce keeps the
      ball's squared speed. */
  lemma BounceSpeed(ball: Entity, paddle: Entity, scale: real)
    requires ball.position.Some? && ball.shape.Some? && ball.velocity.Some?
    requires paddle.position.Some? && paddle.shape.Some? && paddle.shape.value.width > 0.0
    requires var v := ball.velocity.value;
             var dy0 := -Abs(v.dy);
             var dx0 := (HitPosition(ball, paddle) / (paddle.shape.value.width / 2.0)) * Abs(dy0);
             scale * scale * (dx0 * dx0 + dy0 * dy0) == v.dx * v.dx + v.dy * v.dy
    ensures var v := ball.velocity.value;
            var u := Bounce(ball, paddle, scale).velocity.value;
            u.dx * u.dx + u.dy * u.dy == v.dx * v.dx + v.dy * v.dy
  {
    var v := ball.velocity.value;
    var dy0 := -Abs(v.dy);
    var dx0 := (HitPosition(ball, paddle) / (paddle.shape.value.width / 2.0)) * Abs(dy0);
    ScaledSquares(dx0, dy0, scale);
  }

  /** Scaling both components by s scales the squared length by s². */
  lemma ScaledSquares(x: real, y: real, s: real)
    ensures (x * s) * (x * s) + (y * s) * (y * s) == s * s * (x * x + y * y)
  {
  }

  /** A value within ±c, divided by a positive p, is within ±c/p. */
  lemma QuotientBound(x: real, c: real, p: real)
    requires p > 0.0 && -c <= x <= c
    ensures -(c / p) <= x / p <= c / p
  {
    assert x / p - c / p == (x - c) / p;
    assert x / p + c / p == (x + c) / p;
  }

  /** A slope within ±m times a non-negative speed, scaled, is at most m times
      the scaled speed. */
  lemma SlopeBound(q: real, a: real, s: real, m: real)
    requires a >= 0.0 && s > 0.0 && -m <= q <= m
    ensures Abs(q * a * s) <= m * Abs(-a * s)
  {
    assert Abs(-a * s) == a * s;
    assert m * (a * s) - q * a * s == (m - q) * (a * s);
    assert m * (a * s) + q * a * s == (m + q) * (a * s);
  }

  /** The sign of a product with a positive factor is the sign of the other. */
  lemma SignOfProduct(a: real, b: real)
    requires b > 0.0
    ensures a * b > 0.0 <==> a > 0.0
    ensures a * b < 0.0 <==> a < 0.0
    ensures a * b == 0.0 <==> a == 0.0
  {
    if a > 0.0 { MulPositive(a, b); }
    if a < 0.0 { MulPositive(-a, b); }
  }

  lemma MulPositive(a: real, b: real)
    requires a > 0.0 && b > 0.0
    ensures a * b > 0.0
  {
  }

  /** One collision pass. */
  function CollisionSystem(h: Handles, w: Store, inp: Input): (r: Run)
    requires Shaped(h, w)
    ensures r.w.Keys == w.Keys && Shaped(h, r.w) && BrickList(h, r.w) == BrickList(h, w)
    ensures !w[h.ball].shape.value.show ==> r == Live(w)
  {
    if !w[h.ball].shape.value.show then Live(w)
    else match BrickStage(h, w, inp.now, inp.spark)
      case Dead(d, c) => Dead(d, c)
      case Live(w1) =>
        match OnTrigger(h, w1, w1[h.game].allBricksDestroyed.value, inp.now, inp.brickColor)
        case Dead(d, c) => Dead(d, c)
        case Live(w2) => Live(PaddleStage(h, w2, inp.bounceScale))
  }

  /** What the brick loop may change: the game, the ball and the first
      brick the ball strikes; every other brick, the paddle and every other
      entity are as they were. */
  lemma BrickStageFrame(h: Handles, w: Store, now: real, spark: nat -> Spark)
    requires Shaped(h, w)
    ensures var bs := BrickList(h, w);
            var s := BrickStage(h, w, now, spark).w;
            && Placed(w, bs)
            && var hit := FirstHit(w, w[h.ball], bs, 0);
            && s[h.paddle] == w[h.paddle]
            && (forall x | x in w && x !in bs && x != h.game && x != h.ball :: s[x] == w[x])
            && (forall x | x in bs && (hit.None? || x != bs[hit.value]) :: s[x] == w[x])
  {
    BricksPlaced(h, w);
    var bs := BrickList(h, w);
    var hit := FirstHit(w, w[h.ball], bs, 0);
    if hit.Some? {
      BrickStageHit(h, w, now, spark, hit.value);
      assert BrickOk(h, w, bs[hit.value]);
      forall x | x in bs && x != bs[hit.value] ensures BrickStage(h, w, now, spark).w[x] == w[x] {
        assert BrickOk(h, w, x);
      }
    } else {
      BrickStageMiss(h, w, now, spark);
    }
  }

  /** What follows the brick loop, the win check and then (when that did not
      throw) the paddle check, only ever shows bricks, changes the paddle only
      in its hit count and writes nothing outside the game, the ball, the
      paddle and the bricks. */
  lemma AfterBricksFrame(h: Handles, w: Store, inp: Input)
    requires Shaped(h, w)
    ensures var t := OnTrigger(h, w, w[h.game].allBricksDestroyed.value, inp.now, inp.brickColor);
            var r := if t.Live? then PaddleStage(h, t.w, inp.bounceScale) else t.w;
            var bs := BrickList(h, w);
            && (forall b | b in bs && w[b].shape.value.show :: r[b].shape.value.show)
            && r[h.paddle].(stats := w[h.paddle].stats) == w[h.paddle]
            && (forall x | x in w && x !in bs && x != h.game && x != h.ball && x != h.paddle :: r[x] == w[x])
  {
    var bs := BrickList(h, w);
    forall x | x in bs ensures x != h.paddle && x != h.ball && x != h.game {
      assert BrickOk(h, w, x);
    }
    var a := w[h.game].allBricksDestroyed.value;
    TriggerFrame(h, w, a, inp.now, inp.brickColor);
  }

  /** One hit per frame: a pass that starts with the ball shown hides at
      most one brick, the first one the ball strikes (the win check can only
      show bricks, the paddle check writes only the paddle and the ball); the
      paddle changes only in its hit count, and every entity besides the
      singletons and the bricks is left as it was. */
  lemma CollisionOneHit(h: Handles, w: Store, inp: Input)
    requires Shaped(h, w) && w[h.ball].shape.value.show
    ensures var r := CollisionSystem(h, w, inp).w;
            var bs := BrickList(h, w);
            && Placed(w, bs)
            && (forall x | x in bs && w[x].shape.value.show && !r[x].shape.value.show ::
                  FirstHit(w, w[h.ball], bs, 0).Some? && x == bs[FirstHit(w, w[h.ball], bs, 0).value])
            && r[h.paddle].(stats := w[h.paddle].stats) == w[h.paddle]
            && (forall x | x in w && x !in bs && x != h.game && x != h.ball && x != h.paddle :: r[x] == w[x])
  {
    BrickStageFrame(h, w, inp.now, inp.spark);
    var s := BrickStage(h, w, inp.now, inp.spark);
    if s.Live? {
      var w1 := s.w;
      AfterBricksFrame(h, w1, inp);
      var t := OnTrigger(h, w1, w1[h.game].allBricksDestroyed.value, inp.now, inp.brickColor);
      assert CollisionSystem(h, w, inp).w == if t.Live? then PaddleStage(h, t.w, inp.bounceScale) else t.w;
    }
  }
}
