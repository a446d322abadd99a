/** The core entities (game, ball, paddle, scoreBoard and the bricks) that
    createCoreEntities builds once (breakout.js:660-832), the invariant every
    frame keeps about them, and the outcome of an operation that may hit a fatal
    error part way. */
module Core {
  import opened Components
  import opened Ecs

  /** The module-level handles `game`, `ball`, `paddle`, `scoreBoard`. */
  datatype Handles = Handles(game: EntityId, ball: EntityId, paddle: EntityId, scoreBoard: EntityId)

  /** Why the program stopped: a store contract violation (`error` throws) or a
      read of a global that was never created (a JavaScript ReferenceError). */
  datatype Crash = StoreError(fault: Fault) | ReferenceError(variable: string)

  /** The store after an operation. A throw leaves the mutations made before it
      in place, so a dead run keeps the store as it was at the throw. */
  datatype Run = Live(w: Store) | Dead(w: Store, crash: Crash)

  /** One entity's components after any operation of the game: the debugging
      name, the brick list, the win trigger, the bounds, the mouse control and
      the hit trigger are never written; no component other than a respawn
      timer or an explosion is attached or detached; shapes keep their size. */
  predicate Keeps(a: Entity, b: Entity) {
    && b.name == a.name && b.bricks == a.bricks && b.allBricksDestroyed == a.allBricksDestroyed
    && b.boundedByRect == a.boundedByRect && b.mouseControl == a.mouseControl
    && b.brickHitTrigger == a.brickHitTrigger
    && b.score.Some? == a.score.Some? && b.lives.Some? == a.lives.Some?
    && b.level.Some? == a.level.Some? && b.state.Some? == a.state.Some?
    && b.velocity.Some? == a.velocity.Some? && b.position.Some? == a.position.Some?
    && b.stats.Some? == a.stats.Some? && b.shape.Some? == a.shape.Some?
    && (a.shape.Some? ==> b.shape.value.width == a.shape.value.width && b.shape.value.height == a.shape.value.height)
  }

  /** What every operation of the game keeps: no entity is created or removed
      and every entity keeps its components as Keeps says. */
  predicate Preserves(w: Store, r: Store) {
    && r.Keys == w.Keys
    && (forall e | e in w :: Keeps(w[e], r[e]))
  }

  /** A brick: visible or not, it has a shape, a position and a hit trigger that
      names itself, and it is none of the singletons. */
  predicate BrickOk(h: Handles, w: Store, b: EntityId) {
    && b in w && w[b].shape.Some? && w[b].position.Some?
    && w[b].brickHitTrigger == Some(BrickHit(b))
    && b != h.game && b != h.ball && b != h.paddle
  }

  /** Entity x exists and is held inside a rectangle. */
  predicate BoundedIn(w: Store, x: EntityId) {
    x in w && w[x].boundedByRect.Some?
  }

  /** The world as createCoreEntities leaves it and as every frame keeps it:
      the singletons exist, are distinct and hold the components the systems and
      callbacks read with getComponent, the paddle has a positive width (the
      bounce divides by half of it), the game's brick list holds bricks, and
      the ball is the only entity held inside a rectangle. */
  predicate Shaped(h: Handles, w: Store) {
    && h.game != h.ball && h.game != h.paddle && h.ball != h.paddle
    && h.game in w && h.ball in w && h.paddle in w && h.scoreBoard in w
    && var g := w[h.game];
    && var b := w[h.ball];
    && var p := w[h.paddle];
    && g.score.Some? && g.lives.Some? && g.level.Some? && g.bricks.Some? && g.state.Some?
    && g.allBricksDestroyed.Some?
    && b.shape.Some? && b.velocity.Some? && b.position.Some?
    && p.shape.Some? && p.position.Some? && p.stats.Some? && p.shape.value.width > 0.0
    && (forall b | b in g.bricks.value :: BrickOk(h, w, b))
    && (forall x {:trigger BoundedIn(w, x)} | x in w && BoundedIn(w, x) :: x == h.ball)
  }

  /** The game's ordered brick list. */
  function BrickList(h: Handles, w: Store): seq<EntityId>
    requires Shaped(h, w)
  {
    w[h.game].bricks.value
  }

  lemma PreservesRefl(w: Store)
    ensures Preserves(w, w)
  {
  }

  lemma PreservesTrans(w1: Store, w2: Store, w3: Store)
    requires Preserves(w1, w2) && Preserves(w2, w3)
    ensures Preserves(w1, w3)
  {
    forall e | e in w1 ensures Keeps(w1[e], w3[e]) {
      assert Keeps(w1[e], w2[e]) && Keeps(w2[e], w3[e]);
    }
  }

  /** Replacing one entity by a record that Keeps it preserves the store and
      the core-entity invariant. */
  lemma Touch(h: Handles, w: Store, e: EntityId, x: Entity)
    requires Shaped(h, w) && e in w && Keeps(w[e], x)
    ensures w[e := x].Keys == w.Keys && Shaped(h, w[e := x])
    ensures BrickList(h, w[e := x]) == BrickList(h, w)
  {
    ShapedKept(h, w, w[e := x]);
  }

  /** The core-entity invariant survives every change that Preserves allows:
      the brick list, the hit triggers and the paddle's width cannot change. */
  lemma ShapedKept(h: Handles, w: Store, r: Store)
    requires Shaped(h, w) && Preserves(w, r)
    ensures Shaped(h, r)
    ensures BrickList(h, r) == BrickList(h, w)
  {
    assert Keeps(w[h.game], r[h.game]) && Keeps(w[h.ball], r[h.ball]) && Keeps(w[h.paddle], r[h.paddle]);
    forall x | BoundedIn(r, x) ensures x == h.ball {
      assert Keeps(w[x], r[x]) && BoundedIn(w, x);
    }
    forall b | b in BrickList(h, w) ensures BrickOk(h, r, b) {
      assert BrickOk(h, w, b) && Keeps(w[b], r[b]);
    }
  }
}
