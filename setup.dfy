/** The world createCoreEntities builds once at start-up (breakout.js:667-832):
    the game, the ball, the paddle and the score board take the ids 0 to 3,
    and the 5 × 13 bricks the ids 4 to 68, row by row. Each brick's colour is
    the random draw made for it, passed in as a function of its id. */
module Setup {
  import opened Components
  import opened Ecs
  import opened Core

  const NUM_ROWS: nat := 5
  const NUM_COLS: nat := 13
  const BRICK_WIDTH: real := 30.0
  const BRICK_HEIGHT: real := 10.0
  const TOP_LEFT_X: real := 5.0
  const TOP_LEFT_Y: real := 100.0

  /** createEntity hands out 0, 1, 2, 3 to the four singletons, in this order. */
  const CORE: Handles := Handles(0, 1, 2, 3)

  /** The decimal digits of n, as a template literal prints a number. */
  function Decimal(n: nat): (s: string)
    ensures |s| >= 1
    ensures forall i | 0 <= i < |s| :: '0' <= s[i] <= '9'
    decreases n
  {
    var d := ['0' + (n % 10) as char];
    if n < 10 then d else Decimal(n / 10) + d
  }

  /** `brick-${row}-${col}`. */
  function BrickName(row: nat, col: nat): string {
    "brick-" + Decimal(row) + "-" + Decimal(col)
  }

  /** The id of the brick in that row and column. */
  function BrickId(row: nat, col: nat): EntityId
    requires col < NUM_COLS
  {
    4 + row * NUM_COLS + col
  }

  /** The ids of the first k bricks, in the order the loop pushes them. */
  function BrickIds(k: nat): (bs: seq<EntityId>)
    ensures |bs| == k && forall i | 0 <= i < k :: bs[i] == 4 + i
  {
    seq(k, i requires 0 <= i < k => 4 + i)
  }

  /** The game: score 0, 3 lives, level 1, the given brick list, playing, and
      the win trigger. */
  function GameEntity(bricks: seq<EntityId>): Entity {
    Named("game").(score := Some(0), lives := Some(3), level := Some(1), bricks := Some(bricks),
                   state := Some(Playing), allBricksDestroyed := Some(WinCheck))
  }

  /** The ball: a blue 10 × 10 circle at the origin, velocity (1, 1) at speed
      1, kept inside the playfield, with the bottom-edge handler. */
  function BallEntity(): Entity {
    Named("ball").(shape := Some(MakeShape("blue", "blue", 10.0, 10.0, "circle")),
                   velocity := Some(MakeVelocity(1.0, 1.0, 1.0)),
                   position := Some(MakePosition(0.0, 0.0)),
                   boundedByRect := Some(MakeBoundedByRect(Rect(0.0, 0.0, PLAYFIELD_WIDTH, PLAYFIELD_HEIGHT),
                                                           BallBottom)))
  }

  /** The paddle: a brown 60 × 13 rectangle at (100, 360), at rest, steered by
      the mouse 30 above the bottom, with no hits yet. */
  function PaddleEntity(): Entity {
    Named("paddle").(shape := Some(MakeShape("brown", "brown", 60.0, 13.0, "rect")),
                     velocity := Some(MakeVelocity(0.0, 0.0, 1.0)),
                     position := Some(MakePosition(100.0, 360.0)),
                     mouseControl := Some(MakeMouseControl(30.0)),
                     stats := Some(0))
  }

  /** The score board: only a position, at (10, 15). */
  function ScoreBoardEntity(): Entity {
    Named("scoreBoard").(position := Some(MakePosition(10.0, 15.0)))
  }

  /** Brick b: a 30 × 10 rectangle in its colour with a black outline, at
      (5 + 30·col, 100 + 10·row), whose hit trigger names b itself. */
  function BrickEntity(b: EntityId, row: nat, col: nat, fill: string): Entity {
    Named(BrickName(row, col)).(
      shape := Some(MakeShape(fill, "black", BRICK_WIDTH, BRICK_HEIGHT, "rect")),
      position := Some(MakePosition(TOP_LEFT_X + BRICK_WIDTH * col as real,
                                    TOP_LEFT_Y + BRICK_HEIGHT * row as real, false)),
      brickHitTrigger := Some(BrickHit(b)))
  }

  /** The brick with id e, whose colour is the draw made for e. */
  function BrickAt(e: EntityId, brickColor: EntityId -> string): Entity
    requires e >= 4
  {
    BrickEntity(e, (e - 4) / NUM_COLS, (e - 4) % NUM_COLS, brickColor(e))
  }

  /** The store once the singletons and the first k bricks exist. */
  function Built(k: nat, brickColor: EntityId -> string): (w: Store)
    ensures forall e: EntityId :: e in w <==> e < 4 + k
  {
    map e: EntityId | e < 4 + k ::
      if e == 0 then GameEntity(BrickIds(k))
      else if e == 1 then BallEntity()
      else if e == 2 then PaddleEntity()
      else if e == 3 then ScoreBoardEntity()
      else BrickAt(e, brickColor)
  }

  /** The store createCoreEntities leaves: the four singletons and the 65
      bricks, ids 0 to 68. */
  function CoreWorld(brickColor: EntityId -> string): (w: Store)
    ensures forall e: EntityId :: e in w <==> e < 69
  {
    Built(NUM_ROWS * NUM_COLS, brickColor)
  }

  /** Row and column are recovered from a brick's id. */
  lemma BrickIdInverse(row: nat, col: nat)
    requires col < NUM_COLS
    ensures (BrickId(row, col) - 4) / NUM_COLS == row && (BrickId(row, col) - 4) % NUM_COLS == col
  {
    var k := row * NUM_COLS + col;
    assert k == NUM_COLS * row + col;
  }

  /** The brick built for an id is the one for its row and column. */
  lemma BrickAtId(row: nat, col: nat, brickColor: EntityId -> string)
    requires col < NUM_COLS
    ensures BrickAt(BrickId(row, col), brickColor)
              == BrickEntity(BrickId(row, col), row, col, brickColor(BrickId(row, col)))
  {
    BrickIdInverse(row, col);
  }

  /** Before the bricks: the four singletons, the brick list empty. */
  lemma BuiltZero(brickColor: EntityId -> string)
    ensures Built(0, brickColor)
              == map[0 := GameEntity([]), 1 := BallEntity(), 2 := PaddleEntity(), 3 := ScoreBoardEntity()]
  {
    assert BrickIds(0) == [];
  }

  /** Part way through the brick loop the game lists the bricks made so far. */
  lemma BuiltGame(k: nat, brickColor: EntityId -> string)
    ensures Built(k, brickColor)[0] == GameEntity(BrickIds(k))
  {
  }

  /** The brick loop's step: creating the next brick, in row `row` and column
      `col`, and pushing its id onto the game's list. */
  lemma BuiltStep(k: nat, row: nat, col: nat, brickColor: EntityId -> string)
    requires col < NUM_COLS && k == row * NUM_COLS + col
    ensures Built(k + 1, brickColor)
              == Built(k, brickColor)[0 := GameEntity(BrickIds(k) + [4 + k])]
                                     [4 + k := BrickEntity(4 + k, row, col, brickColor(4 + k))]
  {
    var w := Built(k, brickColor);
    var m := w[0 := GameEntity(BrickIds(k) + [4 + k])][4 + k := BrickEntity(4 + k, row, col, brickColor(4 + k))];
    var w' := Built(k + 1, brickColor);
    BrickAtId(row, col, brickColor);
    assert BrickIds(k) + [4 + k] == BrickIds(k + 1);
    assert w'.Keys == m.Keys;
    forall e | e in w' ensures w'[e] == m[e] {
    }
  }

  /** The world createCoreEntities builds satisfies the invariant every frame
      keeps: the singletons are distinct and carry what the systems read, the
      paddle has width 60, and the game lists the 65 bricks, each placed,
      drawn and hit-triggered on itself. */
  lemma CoreWorldShaped(brickColor: EntityId -> string)
    ensures Shaped(CORE, CoreWorld(brickColor))
    ensures BrickList(CORE, CoreWorld(brickColor)) == BrickIds(NUM_ROWS * NUM_COLS)
  {
    var w := CoreWorld(brickColor);
    assert w[0] == GameEntity(BrickIds(NUM_ROWS * NUM_COLS));
    assert w[1] == BallEntity();
    assert w[2] == PaddleEntity();
    assert w[3] == ScoreBoardEntity();
    forall x | BoundedIn(w, x) ensures x == CORE.ball {
    }
    forall b | b in BrickIds(NUM_ROWS * NUM_COLS) ensures BrickOk(CORE, w, b) {
      assert w[b] == BrickAt(b, brickColor);
    }
  }

  /** The bricks tile the band 5 ≤ x ≤ 395, 100 ≤ y ≤ 150 of the playfield
      row by row, every one visible. */
  lemma CoreBricksLayout(brickColor: EntityId -> string, row: nat, col: nat)
    requires row < NUM_ROWS && col < NUM_COLS
    ensures var c := CoreWorld(brickColor)[BrickId(row, col)];
            && c.position.value.x == 5.0 + 30.0 * col as real
            && c.position.value.y == 100.0 + 10.0 * row as real
            && 5.0 <= c.position.value.x && c.position.value.x + c.shape.value.width <= 395.0
            && 100.0 <= c.position.value.y && c.position.value.y + c.shape.value.height <= 150.0
            && c.shape.value.show && c.shape.value.fill == brickColor(BrickId(row, col))
  {
    BrickIdInverse(row, col);
  }
}
