# Breakout ECS world in Dafny

This project models the game logic of `breakout.js`, a p5.js brick breaker built on a small
entity-component-system (ECS) world. The store maps each entity id to that entity's named
component records. Per-frame systems scan the store in id order and update components in
place. The game reacts through callbacks that the components carry:

- the win trigger on the game entity;
- the ball's bottom-edge handler;
- each brick's hit handler;
- the respawn timers.

`draw` dispatches on the game's state string. It runs only the restart check in `gameOver`,
keys and explosions in `paused`, and respawn and explosions in `respawning`. In any other
state it runs the full ordered battery of systems.

## Layout

The model has two layers.

**Specification layer.** Every operation is a function from the old store, and the frame's
inputs, to the new store. The lemmas about these functions state what the program promises.

| Module | File | Contents |
|---|---|---|
| `Components` | `components.dfy` | component records and the factories |
| `Ecs` | `ecs.dfy` | the store: `Add`, `Remove`, `Get`, `Create` |
| `Core` | `core.dfy` | the core-entity invariant `Shaped` and the `Run` outcome |
| `Triggers` | `triggers.dfy` | the callbacks |
| `Systems` | `systems.dfy` | movement, mouse control, explosions |
| `Boundary` | `boundary.dfy` | the boundary system |
| `Respawning` | `respawn.dfy` | the respawn system |
| `Collision` | `collision.dfy` | the collision system |
| `Frame` | `frame.dfy` | key handling, initGame and draw |
| `Geometry` | `geometry.dfy` | wrapCoordinate, clamping, box overlap |
| `Setup` | `setup.dfy` | the world createCoreEntities builds |

**Imperative layer.** The `Breakout.World` class in `world.dfy` has the program's globals as
fields:

- the store `world`;
- the counter `nextEntityId`;
- the core-entity `handles`;
- the two edge-detection flags;
- a `fault` recording the uncaught exception that stops the p5 loop.

Its methods follow the JavaScript: the loops, the `break`s, the `addComponent` and
`removeComponent` calls and the field writes. Reads of components the invariant guarantees
are direct field reads, not calls of `GetComponent` (see "## Left out"). Each method's
`ensures` says its new state is the matching function of the model applied to the old
state. The system, callback and frame methods also require and keep `Valid()`: the
invariant createCoreEntities sets up and every frame preserves. The store primitives
(CreateEntity, AddComponent, RemoveComponent, GetComponent), the per-entity helpers
(MoveEntity, SteerEntity, FadeEntity, RevealBrick, RevealList, FindHit, Bounce, Attach) and the
Create* methods that build the world state their effect without it; CreateCoreEntities
establishes it.

The invariant (`Core.Shaped`) says the core entities exist with the components the program
reads from them, the game's brick list holds bricks, and the ball is the only entity that
carries a bounding rectangle. That last part is what lets the boundary system be read as the
ball's turn alone.

**How the model stands in for JavaScript constructs.**

- **Fatal errors.** `error` throws. A throw part way through a frame keeps the writes made
  before it. Operations that can throw therefore return `Run = Live(store) | Dead(store,
  crash)`, and the class stores the crash in `fault`. Once `fault` is set, `Draw` does nothing.
- **Closures.** Each component's callback is a tag: `WinCheck`, `BallBottom`, `BrickHit(b)`,
  `RespawnInitBall`, `RespawnWinInitBall` or `RespawnLaunchBall`. The world dispatches on the
  tag.
- **The pause flag.** `keyHandlingSystem` uses `pauseKeyWasPressed`, but the program declares
  `pauseKeyPressed` (breakout.js:603). The flag is therefore an implicit global that exists
  only after its first assignment, and it is modelled as an `Option<bool>`. Reading it while
  it is `None` is a fatal `ReferenceError`.
- **The mouse flag.** `mouseWasPressed` is never set to true, so a restart fires on any
  game-over frame with the mouse down.
- **Inputs.** The time `millis()`, `mouseX`, the key and mouse state, and the random draws are
  all inputs. They are the fields of `Input`, plus `Launch` and `Spark`. A brick's random colour
  is a function of its entity id.
- **Numbers.** Coordinates are `real`, so the arithmetic is exact (JavaScript doubles are not;
  see "## Left out"). The one ratio of square roots in the paddle bounce is an input
  `bounceScale`; `Collision.BounceSpeed` shows that a ratio meeting the squared-speed equation
  preserves the ball's speed.

## Model

| member | source | states |
|---|---|---|
| Components.MakeVelocity | breakout.js:187-189 | makeVelocity builds a velocity from its arguments; the defaults are 0, 0 and 1 |
| Components.MakePosition | breakout.js:191-193 | makePosition builds a position from its arguments; the defaults are 0, 0 and not shown |
| Components.MakeBoundedByRect | breakout.js:195-203 | makeBoundedByRect stores the given bounds and bottom callback; the default bounds are the 400 × 400 playfield |
| Components.MakeShape | breakout.js:205-225 | makeShape keeps fill, stroke, shape kind, width, height and the show flag it is given; by default a shape is shown |
| Components.MakeText | breakout.js:227-235 | makeText is shown, in 12-point type |
| Components.MakeMouseControl | breakout.js:237-242 | makeMouseControl is active and keeps its vertical offset |
| Components.MakeRespawn | breakout.js:245-251 | makeRespawn keeps the delay and the callback; deathTime starts at 0 |
| Components.MakeParticle | breakout.js:312-324 | a particle starts at (x, y), fully opaque, born now, with the drawn velocity and size |
| Components.MakeExplosion | breakout.js:326-340 | an explosion holds exactly numParticles particles (10 by default, colour black by default), all born now at (x, y), and lives 500 ms |
| Ecs.Named | breakout.js:103-110 | a new entity's only component is `name`, holding the given name |
| Ecs.Create | breakout.js:96-110 | createEntity's id is not yet in use and is added; no other entity changes; the new entity holds only its name |
| Ecs.Add | breakout.js:120-143 | addComponent fails on a missing name, null data, an unknown entity or a name already present, checked in that order and each with its own error; otherwise it adds exactly that entry and changes nothing else |
| Ecs.Remove | breakout.js:145-164 | removeComponent fails on an unknown entity or a missing component; otherwise it deletes exactly that entry |
| Ecs.Get | breakout.js:166-181 | getComponent fails on an unknown entity or a missing component; otherwise it returns the stored record |
| Ecs.With | breakout.js:141 | after `set`, the slot holds the record |
| Ecs.Without | breakout.js:162 | after `delete`, the slot is empty |
| Ecs.WithoutWith | breakout.js:141 | setting a slot changes no other slot |
| Ecs.WithWithout | breakout.js:141-162 | deleting then setting a slot is the same as setting it |
| Ecs.WithoutAbsent | breakout.js:162 | deleting an absent slot changes nothing |
| Ecs.AddTwiceFails | breakout.js:134-139 | a second addComponent of the same name is the duplicate-component error (a name is unique on an entity) |
| Ecs.RemoveThenAddSucceeds | breakout.js:120-164 | removing and then re-adding a name succeeds and leaves just the new record in that slot |
| Ecs.AddGetRemove | breakout.js:120-181 | after a successful addComponent, getComponent returns the record and removeComponent restores the store; after that, getComponent fails |
| Ecs.FreshEntityAccepts | breakout.js:103-143 | a new entity accepts every component name except `name` |
| Core.PreservesTrans | breakout.js:345-961 | keeping every entity and its fixed components composes over successive operations |
| Core.Touch | breakout.js:345-961 | rewriting one entity while keeping its fixed components and shape sizes keeps the core-entity invariant |
| Core.ShapedKept | breakout.js:345-961 | a store that keeps the singletons' and the bricks' fixed components keeps the core-entity invariant |
| Geometry.WrapCoordinate | breakout.js:71-75 | below 0 gives max − 1; at or above max gives 0; otherwise the value is kept |
| Geometry.WrapCoordinateInRange | breakout.js:71-75 | for max ≥ 1 the result lies in [0, max), and wrapping twice equals wrapping once |
| Geometry.Constrain | breakout.js:466-472 | p5 `constrain` lies in [lo, hi] when lo ≤ hi, and leaves an in-range value unchanged |
| Geometry.OverlapSymmetric | breakout.js:502-507 | the box-overlap test is symmetric |
| Systems.SweepEffect | breakout.js:346 | a scan in id order applies the per-entity update to exactly the ids it visits |
| Systems.SweepShaped | breakout.js:346 | a scan whose update keeps each entity's fixed components keeps the core-entity invariant |
| Systems.Move | breakout.js:348-357 | one entity's movement keeps its fixed components |
| Systems.MovementEffect | breakout.js:345-359 | every entity with velocity and position and no respawn moves by (dx·speed, dy·speed) and nothing else of it changes; every other entity is unchanged |
| Systems.MovementSystem | breakout.js:345-359 | the movement scan keeps the ids, the core-entity invariant and the game's brick list (its effect is MovementEffect) |
| Systems.Steer | breakout.js:451-476 | steering keeps the entity's fixed components |
| Systems.MouseControlEffect | breakout.js:449-479 | with an active mouse control, x is mouseX − w/2 clamped into [−0.75w, 400 − w + 0.75w] (mouseX − w/2 inside the range, the left end at or past it, the right end at or past that one) and y is 400 − offsetY; inactive or uncontrolled entities are unchanged |
| Systems.MouseControlSystem | breakout.js:449-479 | the mouse-control scan keeps the ids, the core-entity invariant and the game's brick list (its effect is MouseControlEffect) |
| Systems.DriftAll | breakout.js:624-632 | each particle moves by its velocity, and its alpha is the share of the lifetime left |
| Systems.Survivors | breakout.js:635-637 | the filter keeps exactly the particles younger than the lifetime |
| Systems.DriftAllMembers | breakout.js:624-632 | every updated particle comes from an original, and every original is updated |
| Systems.SurvivorsEmpty | breakout.js:635-637 | nothing survives exactly when every particle has reached the lifetime |
| Systems.TickExpires | breakout.js:617-655 | an explosion is dropped exactly when all its particles are expired |
| Systems.TickShape | breakout.js:623-637 | a kept explosion changes only its particle list, which does not grow |
| Systems.Tick | breakout.js:623-637 | a kept explosion has its lifetime and at least one particle, and no more particles than before; None when every particle has expired |
| Systems.TickSurvivors | breakout.js:623-637 | every particle a kept explosion holds is young and is an original moved by its own velocity |
| Systems.TickAlpha | breakout.js:623-637 | a particle left after the tick that was born no later than now has alpha in (0, 1] |
| Systems.TickKeepsYoung | breakout.js:623-637 | a young particle survives the tick, updated |
| Systems.ExplosionEffect | breakout.js:617-655 | every entity with an explosion gets it ticked, and removed when no particle is left; others are unchanged |
| Systems.Fade | breakout.js:619-655 | one entity's explosion step keeps its fixed components |
| Systems.ExplosionSystem | breakout.js:617-658 | the explosion scan keeps the ids, the core-entity invariant and the game's brick list (its effect is ExplosionEffect) |
| Boundary.Reflect | breakout.js:380-400 | the bounce keeps the entity's fixed components and changes only velocity and position |
| Boundary.ReflectLaws | breakout.js:380-400 | dx flips exactly at a side and dy exactly at the top; after a side bounce x is inside [left, right − width], exactly the left edge when it was at or past it and exactly right − width when it was at or past the right edge; after a top bounce y is the top; an entity strictly inside is unchanged |
| Boundary.BoundaryStep | breakout.js:363-408 | an entity that is not bounded, or that waits on a respawn, is skipped; otherwise it bounces, and at the bottom (never at the top as well) its onBottomHit runs on the bounced store |
| Boundary.BoundaryFrom | breakout.js:362-410 | the scan keeps the core-entity invariant and the brick list |
| Boundary.BoundaryIdle | breakout.js:362-410 | a scan over ids with no bounded entity changes nothing |
| Boundary.BoundarySystem | breakout.js:362-410 | the boundary system, stopping at a throw, keeps the ids, the core-entity invariant and the game's brick list |
| Boundary.BoundaryBallOnly | breakout.js:362-410 | in every world the invariant allows (the ball is the only bounded entity) a scan that reaches the ball is the ball's own turn |
| Boundary.BallTurnLast | breakout.js:362-410 | once the scan reaches the ball, the rest of the scan changes nothing: only the ball is bounded |
| Boundary.BoundarySystemIsBallTurn | breakout.js:362-410 | the whole boundary system, in every world the invariant allows, is the ball's turn |
| Boundary.BallTurnFrame | breakout.js:362-410 | the ball's turn writes only the ball and the game |
| Boundary.BottomFrame | breakout.js:744-762 | the bottom handler writes only the ball and the game |
| Respawning.RespawnStep | breakout.js:566-580 | an entity whose timer has not run out, or that has no shape, is unchanged |
| Respawning.RespawnFrom | breakout.js:565-582 | the scan over ids e … n−1 keeps the ids, the core-entity invariant and the game's brick list |
| Respawning.RespawnSystem | breakout.js:565-582 | the respawn system keeps the ids, the core-entity invariant and the game's brick list |
| Respawning.RespawnFired | breakout.js:574-578 | after a timer fires, the entity is shown and has no respawn, even one that its own callback attached; otherwise it is as the callback left it |
| Respawning.RespawnBallRelaunched | breakout.js:565-582 | the ball's life timer relaunches it shown, centred, with the launch velocity and no timer; initBall's 1000 ms launch timer is removed in the same turn and never fires |
| Respawning.RespawnIdle | breakout.js:565-582 | a scan over ids with no due timer changes nothing |
| Triggers.Shown | breakout.js:274 | `shape.show = on` on one entity: the flag is on, nothing else of the shape or the entity changes, and every other entity is unchanged |
| Triggers.Show | breakout.js:274 | `render.show = on` changes only that flag |
| Triggers.Stamped | breakout.js:761 | `respawn.deathTime = millis()`: the stamp is now, nothing else of the timer or the entity changes, and every other entity is unchanged |
| Triggers.PlaceBall | breakout.js:265-278 | initBall sets the launch velocity and shows the ball centred on the playfield; nothing else changes |
| Triggers.ReplaceTimer | breakout.js:280-300 | the ball's respawn becomes the given timer, whether or not one was there |
| Triggers.InitBall | breakout.js:265-301 | initBall places the ball as PlaceBall does and leaves it a 1000 ms launch timer with deathTime 0 |
| Triggers.SetState | breakout.js:297-298 | the state is set and nothing else changes |
| Triggers.LaunchBall | breakout.js:289-299 | the launch timer's callback redraws the velocity and sets the state to playing |
| Triggers.OnRespawn | breakout.js:576 | dispatch on the respawn tag; callbacks touch only the ball and the game's state |
| Triggers.Reset | breakout.js:707-713 | a revealed brick's shape is shown, keeps its size, and is repainted only on a level win |
| Triggers.RevealAll | breakout.js:707-713 | the reveal loop over a list of bricks keeps the store's ids (its effect is RevealAllEffect) |
| Triggers.RevealAllEffect | breakout.js:707-713 | the reveal loop rewrites exactly the listed bricks |
| Triggers.RevealBricks | breakout.js:858-862 | every brick of the game's list is revealed; every other entity is unchanged |
| Triggers.Arm | breakout.js:753-761 | attaching a respawn fails exactly when the ball already has one; otherwise the timer is attached and stamped now |
| Triggers.Advance | breakout.js:697-705 | level won: state respawning, level + 1, score + 100 |
| Triggers.Win | breakout.js:696-728 | the win fails exactly when the ball already has a respawn timer |
| Triggers.AllHidden | breakout.js:694-696 | the win test: every brick on the game's list is hidden (a definition; EveryBrickHidden computes it and WinCheckFn branches on it) |
| Triggers.WinCheckFn | breakout.js:691-729 | the win trigger does nothing unless every brick is hidden, and then wins |
| Triggers.WinGame | breakout.js:697-705 | after a win: state respawning, level + 1, score + 100, lives unchanged |
| Triggers.WinBall | breakout.js:715-727 | after a win, the ball is hidden, with a 1500 ms timer stamped now when attaching succeeded |
| Triggers.WinBricks | breakout.js:707-713 | after a win, every brick is shown in its newly drawn colour |
| Triggers.WinCheckIdempotent | breakout.js:691-729 | with at least one brick, a second call right after a win does nothing |
| Triggers.ArmThenHide | breakout.js:753-761 | attaching the timer to a ball without one and then hiding it writes the ball's respawn and its hidden shape and nothing else |
| Triggers.WinCheckFrame | breakout.js:691-729 | the win check never hides a shown brick, and writes nothing but the bricks, the ball and the game |
| Triggers.WinElsewhere | breakout.js:691-729 | the win writes nothing outside the brick list, the ball and the game |
| Triggers.TriggerFrame | breakout.js:520-521 | the game's doOnTrigger, whichever it is, never hides a shown brick and writes nothing but the bricks, the ball and the game |
| Triggers.LoseLife | breakout.js:746-747 | lives − 1 |
| Triggers.BallBottomFn | breakout.js:744-762 | the bottom handler cannot fail on the last life; otherwise it fails exactly when the ball already has a timer |
| Triggers.BallBottomLastLife | breakout.js:746-751 | on the last life: lives − 1, game over, ball hidden, no timer attached |
| Triggers.BallBottomNextLife | breakout.js:753-761 | otherwise: lives − 1, state unchanged, ball hidden with a 1500 ms timer stamped now |
| Triggers.BallBottomFrame | breakout.js:744-762 | the bottom handler writes only lives and state on the game, and the ball |
| Triggers.AddScore | breakout.js:820-821 | the score increases by k and nothing else changes |
| Triggers.Explode | breakout.js:823-827 | attaching the explosion fails exactly when the brick still has one |
| Triggers.BrickHitFn | breakout.js:818-828 | the brick hit fails exactly when the brick's earlier explosion is still attached |
| Triggers.BrickHitEffect | breakout.js:818-828 | a brick hit adds 10 to the score and hides the brick; on success it attaches a 10-particle explosion at the brick's position in its colour; no other entity changes |
| Triggers.OnHit | breakout.js:510 | dispatch on the hit tag |
| Triggers.OnTrigger | breakout.js:521 | dispatch on the trigger tag |
| Triggers.OnBottom | breakout.js:406 | dispatch on the bottom tag |
| Collision.FirstHit | breakout.js:497-517 | the first brick in list order that is visible and overlaps the ball; none exactly when no brick qualifies |
| Collision.BricksPlaced | breakout.js:496-499 | every brick on the list has a position and a shape, so the scan's getComponent calls succeed |
| Collision.BrickStage | breakout.js:495-518 | the brick loop, stopping at a throw, keeps the ids, the core-entity invariant and the game's brick list (its effect is BrickStageHit and BrickStageMiss) |
| Collision.FlipDy | breakout.js:513 | the ball's dy is negated and nothing else changes |
| Collision.BrickStageMiss | breakout.js:497-518 | with no brick hit, the brick stage changes nothing |
| Collision.BrickStageHit | breakout.js:497-518 | only the first hit brick is resolved: score + 10, that brick hidden, ball dy negated and (on success) the ten-particle explosion at the brick's position in its fill colour; no other brick changes |
| Collision.BrickStageFrame | breakout.js:497-518 | the brick loop writes only the game, the ball and the first struck brick |
| Collision.FirstHitIs | breakout.js:497-517 | the scan's result is the first qualifying index |
| Collision.CountHit | breakout.js:530-531 | the paddle's hit count increases by 1 |
| Collision.Bounce | breakout.js:533-561 | the paddle bounce keeps the ball's fixed components |
| Collision.PaddleStage | breakout.js:523-562 | without paddle overlap nothing changes; with overlap, hits + 1 and the ball bounces, and nothing else changes |
| Collision.BounceLaws | breakout.js:533-561 | after the bounce the ball sits on the paddle and moves up; dx has the sign of the hit offset from the paddle centre; the offset is bounded by half the combined widths, so abs(dx) is at most (1 + ball width / paddle width) times abs(dy) |
| Collision.BounceSpeed | breakout.js:533-561 | with a ratio that solves scale² · (new dx² + new dy²) = old dx² + old dy², as currentSpeed / newSpeed does, the bounced ball keeps its squared speed |
| Collision.CollisionSystem | breakout.js:481-563 | a hidden ball skips the system |
| Collision.AfterBricksFrame | breakout.js:520-563 | the win check and paddle check after the brick loop never hide a shown brick, change the paddle only in its hit count, and write nothing but the singletons and the bricks |
| Collision.CollisionOneHit | breakout.js:481-563 | one hit per frame: with the ball shown, at most one brick goes from shown to hidden, the first the ball strikes; the paddle changes only in its hit count; nothing outside the singletons and the bricks changes |
| Frame.Toggled | breakout.js:609 | paused becomes playing; anything else becomes paused |
| Frame.KeyHandling | breakout.js:604-615 | releasing P clears the flag; holding P toggles the state once, on the first frame; a flag not yet created is a ReferenceError |
| Frame.KeyHandlingOnce | breakout.js:604-615 | the toggle is edge-triggered: a second held frame changes nothing |
| Frame.NewGame | breakout.js:837-844 | score 0, lives 3, playing; the level is kept |
| Frame.Park | breakout.js:845-850 | the ball hidden at the origin |
| Frame.Disarm | breakout.js:852-855 | the ball's timer removed when present |
| Frame.InitGame | breakout.js:834-876 | initGame keeps the ids, the core-entity invariant and the game's brick list (its effect is InitGameEffect) |
| Frame.InitGameEffect | breakout.js:834-876 | initGame: score 0, lives 3, playing; ball hidden at the origin with a 1500 ms timer stamped now; every brick shown; nothing else changes |
| Frame.SteerAndKeys | breakout.js:952-953 | mouse control and key handling keep the invariant and the mouse flag |
| Frame.Physics | breakout.js:954-960 | the rest of the battery keeps the invariant |
| Frame.PlayFrame | breakout.js:952-960 | the full battery keeps the invariant and the mouse flag |
| Frame.GameOverScreen | breakout.js:896-917 | the game-over branch keeps the invariant |
| Frame.Draw | breakout.js:891-961 | a stopped program stays stopped; every frame keeps the invariant |
| Frame.MouseFlagStaysFalse | breakout.js:889-915 | mouseWasPressed is never set to true |
| Frame.GameOverFrame | breakout.js:896-917 | in game over, a frame with the mouse down runs initGame, and any other frame changes nothing |
| Frame.PausedFrame | breakout.js:919-942 | while paused with P released (or still held), a frame only ticks the explosions and stays paused |
| Frame.PausedGame | breakout.js:940 | the explosion system never touches the game's state |
| Frame.PauseBeforeReleaseCrashes | breakout.js:603-615 | holding P before the flag ever existed stops the program with a ReferenceError |
| Setup.Decimal | breakout.js:798 | digits only, at least one |
| Setup.BrickIds | breakout.js:796-799 | the k-th pushed brick has id 4 + k |
| Setup.GameEntity | breakout.js:680-730 | the game as createCoreEntities builds it: score 0, lives 3, level 1, the given brick list, playing, the win trigger (a definition; CoreWorldShaped states what frames rely on) |
| Setup.BallEntity | breakout.js:735-764 | the ball: a blue 10 × 10 circle at the origin, velocity (1, 1) at speed 1, bounded by the playfield with the bottom handler (a definition) |
| Setup.PaddleEntity | breakout.js:769-774 | the paddle: a brown 60 × 13 rectangle at (100, 360), at rest, steered 30 above the bottom, no hits (a definition) |
| Setup.ScoreBoardEntity | breakout.js:779-780 | the score board: only a position, at (10, 15) (a definition) |
| Setup.BrickEntity | breakout.js:797-829 | brick b: a 30 × 10 rectangle in its fill with a black outline at (5 + 30·col, 100 + 10·row), hidden position, hit trigger on b itself (a definition; CoreBricksLayout states the layout) |
| Setup.Built | breakout.js:668-832 | the store holds exactly the ids below 4 + k |
| Setup.CoreWorld | breakout.js:668-832 | the start-up store holds exactly the ids 0 … 68: the four singletons and the 65 bricks |
| Setup.BrickIdInverse | breakout.js:796-799 | row and column are recovered from a brick's id |
| Setup.BuiltZero | breakout.js:668-785 | before the bricks the store holds the four singletons, the brick list empty |
| Setup.BuiltGame | breakout.js:797-830 | part way through the loop the game lists the bricks made so far |
| Setup.BrickAtId | breakout.js:797-830 | the brick stored under an id is the one for its row and column |
| Setup.BuiltStep | breakout.js:797-830 | each brick iteration adds that brick and pushes its id |
| Setup.CoreWorldShaped | breakout.js:668-832 | the start-up world satisfies the invariant every frame keeps, and lists the 65 bricks in creation order |
| Setup.CoreBricksLayout | breakout.js:787-815 | the bricks tile rows of 30 × 10 from (5, 100), all shown, each in its own colour |
| Breakout.FaultOf | breakout.js:77-79 | a dead run carries its crash; a live one none |
| Breakout.MoveTo | breakout.js:355-356 | the field writes of the movement loop are the Move update |
| Breakout.BounceIs | breakout.js:538-561 | the paddle bounce's field writes are the Bounce update |
| Breakout.World.constructor | breakout.js:881-887 | setup: the start-up world after initGame at that time; no fault, the pause flag not yet created, the mouse flag false |
| Breakout.World.CreateEntity | breakout.js:96-110 | the counter's value is the new id, larger than every id in use, and the counter advances |
| Breakout.World.AddComponent | breakout.js:120-143 | the store becomes Add's result, or the fault is set and the store is unchanged |
| Breakout.World.RemoveComponent | breakout.js:145-164 | the store becomes Remove's result, or the fault is set and the store is unchanged |
| Breakout.World.GetComponent | breakout.js:166-181 | returns Get's record or sets the fault; the store never changes |
| Breakout.World.Attach | breakout.js:120-143 | addComponent of a name the entity does not hold succeeds: exactly that slot is set and nothing else changes |
| Breakout.World.MoveEntity | breakout.js:348-357 | one entity's turn is Move |
| Breakout.World.MovementSystem | breakout.js:345-359 | the loop's store is MovementSystem's |
| Breakout.World.SteerEntity | breakout.js:451-476 | one entity's turn is Steer |
| Breakout.World.MouseControlSystem | breakout.js:449-479 | the loop's store is MouseControlSystem's |
| Breakout.World.DriftParticles | breakout.js:624-632 | the particle loop computes DriftAll |
| Breakout.World.FilterYoung | breakout.js:635-637 | the filter loop computes Survivors |
| Breakout.World.TickParticles | breakout.js:623-637 | the kept particles are Tick's |
| Breakout.World.FadeEntity | breakout.js:619-655 | one entity's turn is Fade: particles updated, and the explosion removed when none is left |
| Breakout.World.ExplosionSystem | breakout.js:617-658 | the loop's store is ExplosionSystem's |
| Breakout.World.ShowEntity | breakout.js:274 | `getComponent(e, "shape").show = on` is Show, and keeps the invariant |
| Breakout.World.SetState | breakout.js:297-298 | `state.state = p` is SetState, and keeps the invariant |
| Breakout.World.InitBall | breakout.js:265-301 | initBall's writes are InitBall |
| Breakout.World.LaunchBall | breakout.js:289-299 | the launch callback is LaunchBall |
| Breakout.World.DoOnRespawn | breakout.js:576 | the callback dispatch is OnRespawn |
| Breakout.World.AttachBallTimer | breakout.js:753-759 | the addComponent of the 1500 ms respawn is Arm, fault included |
| Breakout.World.ArmBall | breakout.js:753-761 | the bottom handler's timer: Arm, then the ball hidden |
| Breakout.World.StampBall | breakout.js:761 | `getComponent(ball, "respawn").deathTime = millis()` is Stamped, and keeps the invariant |
| Breakout.World.OnBottomHit | breakout.js:744-762 | the bottom handler is BallBottomFn, fault included |
| Breakout.World.DoOnHit | breakout.js:818-828 | the brick hit is BrickHitFn, fault included |
| Breakout.World.RevealBrick | breakout.js:707-713 | one pass of the reveal loop rewrites exactly that brick to its revealed form |
| Breakout.World.RevealList | breakout.js:707-713 | the reveal loop computes RevealAll |
| Breakout.World.RevealBricks | breakout.js:858-862 | the reveal loop over the game's list is RevealBricks |
| Breakout.World.EveryBrickHidden | breakout.js:694-696 | `every` over the brick list is AllHidden |
| Breakout.World.DoOnTrigger | breakout.js:691-729 | the win trigger is WinCheckFn, fault included |
| Breakout.World.ArmAndStamp | breakout.js:864-873 | addComponent of a respawn, then the stamp, is Arm |
| Breakout.World.Bounce | breakout.js:380-407 | the edge tests compute Reflect and the bottom test |
| Breakout.World.BoundaryEntity | breakout.js:363-408 | one entity's turn is BoundaryStep, fault included |
| Breakout.World.BoundarySystem | breakout.js:362-410 | the loop, stopping at a fault, is BoundarySystem |
| Breakout.World.RespawnEntity | breakout.js:566-580 | one entity's turn is RespawnStep |
| Breakout.World.RespawnTurn | breakout.js:566-580 | one iteration of the loop advances the scan by one id |
| Breakout.World.RespawnSystem | breakout.js:565-582 | the loop's store is RespawnSystem's |
| Breakout.World.FindHit | breakout.js:497-517 | the scan with `break` finds FirstHit |
| Breakout.World.BrickLoop | breakout.js:495-518 | the brick stage is BrickStage, fault included |
| Breakout.World.FlipBallDy | breakout.js:513 | `ballVel.dy *= -1` is FlipDy, and keeps the invariant |
| Breakout.World.PaddleCheck | breakout.js:523-562 | the paddle stage is PaddleStage |
| Breakout.World.CollisionSystem | breakout.js:481-563 | the system is CollisionSystem, fault included |
| Breakout.World.KeyHandlingSystem | breakout.js:604-615 | the key handling is KeyHandling |
| Breakout.World.CreateGame | breakout.js:680-730 | the game entity with its six components |
| Breakout.World.CreateBall | breakout.js:735-764 | the ball with its four components |
| Breakout.World.CreatePaddle | breakout.js:769-774 | the paddle with its five components |
| Breakout.World.CreateScoreBoard | breakout.js:779-780 | the score board with its position |
| Breakout.World.CreateBrick | breakout.js:798-829 | one brick created, pushed, and given shape, position and hit trigger |
| Breakout.World.CreateRow | breakout.js:797-830 | one row of 13 bricks |
| Breakout.World.CreateCoreEntities | breakout.js:668-832 | the store becomes the start-up world with the core handles, which satisfies the invariant |
| Breakout.World.ResetGame | breakout.js:837-844 | the game reset is NewGame |
| Breakout.World.ParkBall | breakout.js:845-850 | the ball reset is Park |
| Breakout.World.InitGame | breakout.js:834-876 | initGame is InitGame and cannot fail |
| Breakout.World.Draw | breakout.js:891-961 | one frame is Draw |
| Breakout.World.PlayFrame | breakout.js:952-960 | the battery is PlayFrame, stopping at the first fault |

## Left out

- Drawing and text: renderSystem, scoreDisplaySystem, the debug dots, particle drawing and the messages in `draw`. They only produce p5 output.
- `setup`'s `createCanvas` and all `console.log` and `console.assert` calls.
- `sin`, `cos`, `radians` and `random` in initBall and makeParticle. The launch velocity and the particle sparks are inputs (`Launch`, `Spark`).
- randBrickColor's palette. A brick's colour is an input function of its id. Each brick is repainted with its own value, so a list naming a brick twice repaints it the same way twice.
- Collision.PaddleStage: the speed normalisation by `Math.sqrt` is the input ratio `bounceScale`, because square roots are floating point. Collision.BounceSpeed states the speed preservation for a ratio that meets the squared-speed equation. The division by zero when the new speed is 0 is not modelled.
- `millis()` is read several times per frame in the source. The model uses one time per frame.
- The explosion's `doOnExpire` callback is always the empty default, so it is not modelled.
- `maxDeflection` (breakout.js:549) is never used, so it is not modelled.
- Component names. They are the closed set of 16 names the program uses. A record always goes under the name of its kind, so the type-mismatch case of a dynamically typed map cannot arise.
- Error message text. Each error is a constructor naming the entity and the component.
- JavaScript number range, rounding and NaN. Arithmetic is on exact reals.
- Iteration order. `for … of world` visits entities in insertion order, which is increasing id order because ids come from the counter and no entity is deleted. The scans run over ids below the counter.
- `getComponent` inside the systems and callbacks reads the core entities. It always succeeds because the invariant `Valid()` guarantees those components. The model reads them directly, and its fault paths are the `addComponent` and `removeComponent` failures that can happen.
