/** The entity/component store (breakout.js:93-181): each entity id maps to
    that entity's components, and the checked operations createEntity,
    addComponent, removeComponent and getComponent read and write them.
    An entity's component map holds at most one record per name; it is kept
    here as one optional slot per name. Every contract violation is fatal in
    the source (`error` throws); here it is an `Err` naming the violation. */
module Ecs {
  import opened Components

  /** One entity's components: a slot per component name, None when absent. */
  datatype Entity = Entity(
    name: Option<string>,
    score: Option<int>,
    lives: Option<int>,
    level: Option<int>,
    bricks: Option<seq<EntityId>>,
    state: Option<Phase>,
    allBricksDestroyed: Option<TriggerAction>,
    shape: Option<Shape>,
    velocity: Option<Velocity>,
    position: Option<Position>,
    boundedByRect: Option<BoundedByRect>,
    mouseControl: Option<MouseControl>,
    stats: Option<int>,
    respawn: Option<Respawn>,
    brickHitTrigger: Option<HitAction>,
    explosion: Option<Explosion>)

  /** The world: entity id to components. */
  type Store = map<EntityId, Entity>

  /** The fatal contract violations of the store. */
  datatype Fault =
    | BadComponentName
    | NullData
    | UnknownEntity(eid: EntityId)
    | DuplicateComponent(eid: EntityId, component: Key)
    | MissingComponent(eid: EntityId, component: Key)

  datatype Result<+T> = Ok(value: T) | Err(fault: Fault)

  /** `allComponents.get(name)`: the record stored under a name, if any. */
  function Slot(c: Entity, n: Key): (r: Option<Component>)
    ensures r.Some? ==> Fits(n, r.value)
  {
    match n
    case NAME => if c.name.Some? then Some(NameData(c.name.value)) else None
    case SCORE => if c.score.Some? then Some(ScoreData(c.score.value)) else None
    case LIVES => if c.lives.Some? then Some(LivesData(c.lives.value)) else None
    case LEVEL => if c.level.Some? then Some(LevelData(c.level.value)) else None
    case BRICKS => if c.bricks.Some? then Some(BricksData(c.bricks.value)) else None
    case STATE => if c.state.Some? then Some(StateData(c.state.value)) else None
    case ALL_BRICKS_DESTROYED =>
      if c.allBricksDestroyed.Some? then Some(TriggerData(c.allBricksDestroyed.value)) else None
    case SHAPE => if c.shape.Some? then Some(ShapeData(c.shape.value)) else None
    case VELOCITY => if c.velocity.Some? then Some(VelocityData(c.velocity.value)) else None
    case POSITION => if c.position.Some? then Some(PositionData(c.position.value)) else None
    case BOUNDED_BY_RECT => if c.boundedByRect.Some? then Some(BoundsData(c.boundedByRect.value)) else None
    case MOUSE_CONTROL => if c.mouseControl.Some? then Some(MouseData(c.mouseControl.value)) else None
    case STATS => if c.stats.Some? then Some(StatsData(c.stats.value)) else None
    case RESPAWN => if c.respawn.Some? then Some(RespawnData(c.respawn.value)) else None
    case BRICK_HIT_TRIGGER => if c.brickHitTrigger.Some? then Some(HitData(c.brickHitTrigger.value)) else None
    case EXPLOSION => if c.explosion.Some? then Some(ExplosionData(c.explosion.value)) else None
  }

  /** `allComponents.has(name)`. */
  predicate Has(c: Entity, n: Key) {
    Slot(c, n).Some?
  }

  /** `allComponents.set(name, data)`: that slot holds the record. */
  function With(c: Entity, n: Key, d: Component): (r: Entity)
    requires Fits(n, d)
    ensures Slot(r, n) == Some(d)
  {
    match n
    case NAME => c.(name := Some(d.name))
    case SCORE => c.(score := Some(d.score))
    case LIVES => c.(lives := Some(d.lives))
    case LEVEL => c.(level := Some(d.level))
    case BRICKS => c.(bricks := Some(d.bricks))
    case STATE => c.(state := Some(d.state))
    case ALL_BRICKS_DESTROYED => c.(allBricksDestroyed := Some(d.doOnTrigger))
    case SHAPE => c.(shape := Some(d.shape))
    case VELOCITY => c.(velocity := Some(d.velocity))
    case POSITION => c.(position := Some(d.position))
    case BOUNDED_BY_RECT => c.(boundedByRect := Some(d.bounded))
    case MOUSE_CONTROL => c.(mouseControl := Some(d.mouse))
    case STATS => c.(stats := Some(d.hits))
    case RESPAWN => c.(respawn := Some(d.respawn))
    case BRICK_HIT_TRIGGER => c.(brickHitTrigger := Some(d.doOnHit))
    case EXPLOSION => c.(explosion := Some(d.explosion))
  }

  /** `allComponents.delete(name)`: that slot is empty. Two entities that agree
      after `Without(_, n)` differ at most in slot n. */
  function Without(c: Entity, n: Key): (r: Entity)
    ensures Slot(r, n) == None
  {
    match n
    case NAME => c.(name := None)
    case SCORE => c.(score := None)
    case LIVES => c.(lives := None)
    case LEVEL => c.(level := None)
    case BRICKS => c.(bricks := None)
    case STATE => c.(state := None)
    case ALL_BRICKS_DESTROYED => c.(allBricksDestroyed := None)
    case SHAPE => c.(shape := None)
    case VELOCITY => c.(velocity := None)
    case POSITION => c.(position := None)
    case BOUNDED_BY_RECT => c.(boundedByRect := None)
    case MOUSE_CONTROL => c.(mouseControl := None)
    case STATS => c.(stats := None)
    case RESPAWN => c.(respawn := None)
    case BRICK_HIT_TRIGGER => c.(brickHitTrigger := None)
    case EXPLOSION => c.(explosion := None)
  }

  /** Setting a slot changes no other slot. */
  lemma WithoutWith(c: Entity, n: Key, d: Component)
    requires Fits(n, d)
    ensures Without(With(c, n, d), n) == Without(c, n)
  {
  }

  /** Deleting an empty slot changes nothing. */
  lemma WithoutAbsent(c: Entity, n: Key)
    requires !Has(c, n)
    ensures Without(c, n) == c
  {
  }

  /** Setting a slot after deleting it is the same as setting it. */
  lemma WithWithout(c: Entity, n: Key, d: Component)
    requires Fits(n, d)
    ensures With(Without(c, n), n, d) == With(c, n, d)
  {
  }

  /** A new entity's component map: only `name`. */
  function Named(name: string): (c: Entity)
    ensures forall n: Key :: Has(c, n) <==> n == NAME
    ensures Slot(c, NAME) == Some(NameData(name))
  {
    Entity(Some(name), None, None, None, None, None, None, None, None, None, None, None, None, None, None, None)
  }

  /** createEntity: the next id, holding only its `name` record. The caller
      supplies the counter, which is larger than every id in use. */
  function Create(w: Store, next: EntityId, name: string := "<unnamed>"): (r: Store)
    requires forall e | e in w :: e < next
    ensures next !in w
    ensures r.Keys == w.Keys + {next}
    ensures forall n: Key :: Has(r[next], n) <==> n == NAME
    ensures Slot(r[next], NAME) == Some(NameData(name))
    ensures forall e | e in w :: r[e] == w[e]
  {
    w[next := Named(name)]
  }

  /** addComponent: the name must be present (None stands for a null or
      non-string name), the data not null, the entity known and the name not
      yet present, checked in that order (breakout.js:120-143). A record is
      always stored under the name of its kind. */
  function Add(w: Store, eid: EntityId, name: Option<Key>, data: Option<Component>): (r: Result<Store>)
    requires name.Some? && data.Some? ==> Fits(name.value, data.value)
    ensures r.Ok? <==> name.Some? && data.Some? && eid in w && !Has(w[eid], name.value)
    ensures name.None? ==> r == Err(BadComponentName)
    ensures name.Some? && data.None? ==> r == Err(NullData)
    ensures name.Some? && data.Some? && eid !in w ==> r == Err(UnknownEntity(eid))
    ensures name.Some? && data.Some? && eid in w && Has(w[eid], name.value) ==>
              r == Err(DuplicateComponent(eid, name.value))
    ensures r.Ok? ==>
              && r.value.Keys == w.Keys
              && (forall e | e in w && e != eid :: r.value[e] == w[e])
              && r.value[eid] == With(w[eid], name.value, data.value)
              && Slot(r.value[eid], name.value) == data
  {
    if name.None? then Err(BadComponentName)
    else if data.None? then Err(NullData)
    else if eid !in w then Err(UnknownEntity(eid))
    else if Has(w[eid], name.value) then Err(DuplicateComponent(eid, name.value))
    else Ok(w[eid := With(w[eid], name.value, data.value)])
  }

  /** removeComponent: fatal for an unknown entity or a missing component;
      otherwise deletes exactly that entry (breakout.js:145-164). */
  function Remove(w: Store, eid: EntityId, name: Key): (r: Result<Store>)
    ensures r.Ok? <==> eid in w && Has(w[eid], name)
    ensures eid !in w ==> r == Err(UnknownEntity(eid))
    ensures eid in w && !Has(w[eid], name) ==> r == Err(MissingComponent(eid, name))
    ensures r.Ok? ==>
              && r.value.Keys == w.Keys
              && (forall e | e in w && e != eid :: r.value[e] == w[e])
              && r.value[eid] == Without(w[eid], name)
              && !Has(r.value[eid], name)
  {
    if eid !in w then Err(UnknownEntity(eid))
    else if !Has(w[eid], name) then Err(MissingComponent(eid, name))
    else Ok(w[eid := Without(w[eid], name)])
  }

  /** getComponent: fatal for an unknown entity or a missing component;
      otherwise the stored record (breakout.js:166-181). */
  function Get(w: Store, eid: EntityId, name: Key): (r: Result<Component>)
    ensures r.Ok? <==> eid in w && Has(w[eid], name)
    ensures eid !in w ==> r == Err(UnknownEntity(eid))
    ensures eid in w && !Has(w[eid], name) ==> r == Err(MissingComponent(eid, name))
    ensures r.Ok? ==> Some(r.value) == Slot(w[eid], name) && Fits(name, r.value)
  {
    if eid !in w then Err(UnknownEntity(eid))
    else if !Has(w[eid], name) then Err(MissingComponent(eid, name))
    else Ok(Slot(w[eid], name).value)
  }

  /** Component names are unique per entity: once an add succeeds, adding the
      same name again is fatal, whatever the data. */
  lemma AddTwiceFails(w: Store, eid: EntityId, name: Key, d1: Component, d2: Component)
    requires Fits(name, d1) && Fits(name, d2)
    requires Add(w, eid, Some(name), Some(d1)).Ok?
    ensures Add(Add(w, eid, Some(name), Some(d1)).value, eid, Some(name), Some(d2))
            == Err(DuplicateComponent(eid, name))
  {
  }

  /** Removing a component and adding the same name again succeeds, and the
      entity then holds the new record in place of the old one. */
  lemma RemoveThenAddSucceeds(w: Store, eid: EntityId, name: Key, d: Component)
    requires Fits(name, d) && eid in w && Has(w[eid], name)
    ensures Remove(w, eid, name).Ok?
    ensures Add(Remove(w, eid, name).value, eid, Some(name), Some(d)).Ok?
    ensures Add(Remove(w, eid, name).value, eid, Some(name), Some(d)).value
            == w[eid := With(w[eid], name, d)]
  {
    WithWithout(w[eid], name, d);
  }

  /** A successful add is visible to getComponent, and removal restores the
      store exactly, making the same lookup fatal again. */
  lemma AddGetRemove(w: Store, eid: EntityId, name: Key, d: Component)
    requires Fits(name, d) && Add(w, eid, Some(name), Some(d)).Ok?
    ensures Get(Add(w, eid, Some(name), Some(d)).value, eid, name) == Ok(d)
    ensures Remove(Add(w, eid, Some(name), Some(d)).value, eid, name) == Ok(w)
    ensures Get(Remove(Add(w, eid, Some(name), Some(d)).value, eid, name).value, eid, name)
            == Err(MissingComponent(eid, name))
  {
    var w1 := Add(w, eid, Some(name), Some(d)).value;
    WithoutWith(w[eid], name, d);
    WithoutAbsent(w[eid], name);
    assert Remove(w1, eid, name).value == w;
  }

  /** A fresh entity accepts every component except a second `name`. */
  lemma FreshEntityAccepts(w: Store, next: EntityId, debugName: string, name: Key, d: Component)
    requires forall e | e in w :: e < next
    requires Fits(name, d)
    ensures Add(Create(w, next, debugName), next, Some(name), Some(d)).Ok? <==> name != NAME
  {
  }
}
