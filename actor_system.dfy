/**
 * `ActorSystem` (src/entities/actor.rs): every actor is tested for ground
 * under it, pulled down by gravity and then takes one vertical step; a step
 * the chunk refuses leaves it at rest, snapped to the floor if it was falling.
 */
module ActorSystem {
  import opened Wrappers
  import opened Vector
  import opened Chunks
  import opened Actors
  import opened Ecs
  import opened World

  /** `Vector3::unit_y()`. */
  const UnitY: Vec3 := Vec3(0.0, 1.0, 0.0)

  /** The centre of the box the ground test probes: `GROUNDED_DISTANCE` below the actor. */
  function Probe(a: Actor): Vec3 {
    a.position.Sub(Vec3(0.0, GroundedDistance, 0.0))
  }

  /** The actor once the ground test has set `grounded` and gravity has been applied. */
  function Pulled(a: Actor, deltaTime: real, collides: (Vec3, Vec3) -> bool): Actor {
    ApplyGravity(a.(grounded := collides(Probe(a), a.size)), deltaTime)
  }

  /** Where the vertical step of the pulled actor `p` would take it. */
  function Target(p: Actor, deltaTime: real): Vec3 {
    p.position.Add(UnitY.Scale(p.yVelocity * deltaTime))
  }

  /**
   * One actor's tick, on the actor alone: it moves to its target when the
   * chunk lets it, and otherwise stays where `Blocked` leaves it.
   */
  function Fallen(a: Actor, deltaTime: real, collides: (Vec3, Vec3) -> bool): (r: Actor)
    ensures r.grounded == collides(Probe(a), a.size)
    ensures r.size == a.size && r.speed == a.speed && r.lookX == a.lookX && r.lookY == a.lookY
    ensures r.position.x == a.position.x && r.position.z == a.position.z
    ensures var p := Pulled(a, deltaTime, collides);
            !collides(Target(p, deltaTime), a.size) ==>
              r.yVelocity == a.yVelocity - Gravity * deltaTime && r.position == Target(p, deltaTime)
    ensures var p := Pulled(a, deltaTime, collides);
            collides(Target(p, deltaTime), a.size) ==>
              && r.yVelocity == 0.0
              && (p.yVelocity >= 0.0 ==> r.position == a.position)
              && (p.yVelocity < 0.0 ==> r.position.y == a.position.y.Floor as real + a.size.y * 0.5)
  {
    var p := Pulled(a, deltaTime, collides);
    var target := Target(p, deltaTime);
    if collides(target, p.size) then Blocked(p) else p.(position := target)
  }

  /** One actor's tick: the actor it becomes, and the occupancy after its step. */
  function FallStep(a: Actor, columns: Columns, blockSize: int, entity: nat, deltaTime: real,
                    collides: (Vec3, Vec3) -> bool): (Actor, Columns)
    requires blockSize > 0
  {
    var p := Pulled(a, deltaTime, collides);
    var target := Target(p, deltaTime);
    (Fallen(a, deltaTime, collides),
     if collides(target, p.size) then columns
     else Relocated(columns, entity, Corners(p.size, p.position, blockSize), Some(Corners(p.size, target, blockSize))))
  }

  /** The actors and the occupancy after each of `cache`, in order, has had its tick. */
  function Falls(actors: map<nat, Component>, columns: Columns, blockSize: int, cache: seq<nat>, deltaTime: real,
                 collides: (Vec3, Vec3) -> bool): (map<nat, Component>, Columns)
    requires blockSize > 0
    decreases |cache|
  {
    if cache == [] then (actors, columns)
    else
      var prev := Falls(actors, columns, blockSize, cache[..|cache| - 1], deltaTime, collides);
      var e := cache[|cache| - 1];
      if e in prev.0 && prev.0[e].ActorC? then
        var s := FallStep(prev.0[e].actor, prev.1, blockSize, e, deltaTime, collides);
        (prev.0[e := ActorC(s.0)], s.1)
      else prev
  }

  /** Every component of `actors` is an `Actor`. */
  predicate AllActors(actors: map<nat, Component>) {
    forall e | e in actors :: actors[e].ActorC?
  }

  /** A tick keeps the ids and leaves only actors behind. */
  lemma {:induction false} FallsKeep(actors: map<nat, Component>, columns: Columns, blockSize: int, cache: seq<nat>,
                                     deltaTime: real, collides: (Vec3, Vec3) -> bool)
    requires blockSize > 0 && AllActors(actors)
    ensures var r := Falls(actors, columns, blockSize, cache, deltaTime, collides);
            r.0.Keys == actors.Keys && AllActors(r.0)
    decreases |cache|
  {
    if cache != [] {
      FallsKeep(actors, columns, blockSize, cache[..|cache| - 1], deltaTime, collides);
    }
  }

  /**
   * Each listed actor has exactly one tick: with distinct ids, a listed
   * actor ends as `Fallen` of its old self and an unlisted one is untouched.
   */
  lemma {:induction false} FallsOnce(actors: map<nat, Component>, columns: Columns, blockSize: int, cache: seq<nat>,
                                     deltaTime: real, collides: (Vec3, Vec3) -> bool, e: nat)
    requires blockSize > 0 && e in actors && actors[e].ActorC?
    requires forall i, j | 0 <= i < j < |cache| :: cache[i] != cache[j]
    ensures var r := Falls(actors, columns, blockSize, cache, deltaTime, collides);
            && e in r.0
            && (e in cache ==> r.0[e] == ActorC(Fallen(actors[e].actor, deltaTime, collides)))
            && (e !in cache ==> r.0[e] == actors[e])
    decreases |cache|
  {
    if cache != [] {
      var init := cache[..|cache| - 1];
      var last := cache[|cache| - 1];
      FallsOnce(actors, columns, blockSize, init, deltaTime, collides, e);
      assert cache == init + [last];
      if last == e {
        assert e !in init by {
          forall i | 0 <= i < |init| ensures init[i] != e {
            assert init[i] == cache[i];
          }
        }
      }
    }
  }

  /** The occupancy of an id that has no tick is left exactly as it was. */
  lemma {:induction false} FallsSpareColumns(actors: map<nat, Component>, columns: Columns, blockSize: int, cache: seq<nat>,
                                             deltaTime: real, collides: (Vec3, Vec3) -> bool, d: nat, x: int, z: int)
    requires blockSize > 0 && d !in cache
    ensures d in Occupants(Falls(actors, columns, blockSize, cache, deltaTime, collides).1, x, z) <==> d in Occupants(columns, x, z)
    decreases |cache|
  {
    if cache != [] {
      var init := cache[..|cache| - 1];
      var e := cache[|cache| - 1];
      assert cache == init + [e];
      FallsSpareColumns(actors, columns, blockSize, init, deltaTime, collides, d, x, z);
      var prev := Falls(actors, columns, blockSize, init, deltaTime, collides);
      if e in prev.0 && prev.0[e].ActorC? {
        var p := Pulled(prev.0[e].actor, deltaTime, collides);
        RelocatedExact(prev.1, e, Corners(p.size, p.position, blockSize), Some(Corners(p.size, Target(p, deltaTime), blockSize)), x, z, d);
      }
    }
  }

  /**
   * An actor whose step goes through is over every in-range corner column
   * of its new box afterwards; one whose step is refused leaves the
   * occupancy as it was.
   */
  lemma FallStepOccupies(a: Actor, columns: Columns, blockSize: int, entity: nat, deltaTime: real,
                         collides: (Vec3, Vec3) -> bool, i: nat)
    requires blockSize > 0 && i < 4
    ensures var r := FallStep(a, columns, blockSize, entity, deltaTime, collides);
            var c := Corners(r.0.size, r.0.position, blockSize)[i];
            var p := Pulled(a, deltaTime, collides);
            && (!collides(Target(p, deltaTime), a.size) && ColumnInBounds(c.0, c.1) ==> entity in Occupants(r.1, c.0, c.1))
            && (collides(Target(p, deltaTime), a.size) ==> r.1 == columns)
  {
    var r := FallStep(a, columns, blockSize, entity, deltaTime, collides);
    var p := Pulled(a, deltaTime, collides);
    var news := Corners(p.size, Target(p, deltaTime), blockSize);
    if !collides(Target(p, deltaTime), a.size) {
      RelocatedExact(columns, entity, Corners(p.size, p.position, blockSize), Some(news), news[i].0, news[i].1, entity + 1);
    }
  }

  /** A fall moves along y only, and the corner columns depend on x and z alone: they stay the same. */
  lemma FallKeepsCorners(p: Actor, deltaTime: real, blockSize: int)
    requires blockSize > 0
    ensures Corners(p.size, Target(p, deltaTime), blockSize) == Corners(p.size, p.position, blockSize)
  {
  }

  /**
   * The occupancy `FallStep` gives a fall that goes through is the one the
   * source's interleaved `update_occupied_blocks` leaves: on a vertical
   * step the bug of the interleaving cannot show.
   */
  lemma FallStepAsWritten(a: Actor, columns: Columns, blockSize: int, entity: nat, deltaTime: real,
                          collides: (Vec3, Vec3) -> bool, x: int, z: int)
    requires blockSize > 0
    ensures var p := Pulled(a, deltaTime, collides);
            !collides(Target(p, deltaTime), p.size) ==>
              Occupants(FallStep(a, columns, blockSize, entity, deltaTime, collides).1, x, z)
              == Occupants(Interleaved(columns, entity, Corners(p.size, p.position, blockSize),
                                       Corners(p.size, Target(p, deltaTime), blockSize)), x, z)
  {
    var p := Pulled(a, deltaTime, collides);
    FallKeepsCorners(p, deltaTime, blockSize);
    InterleavedInPlace(columns, entity, Corners(p.size, p.position, blockSize), x, z);
  }

  /** `FallStep` with its two outcomes written out on the pulled actor `p`. */
  lemma FallStepCases(a: Actor, columns: Columns, blockSize: int, entity: nat, deltaTime: real,
                      collides: (Vec3, Vec3) -> bool, p: Actor)
    requires blockSize > 0 && p == Pulled(a, deltaTime, collides)
    ensures FallStep(a, columns, blockSize, entity, deltaTime, collides)
            == if collides(Target(p, deltaTime), p.size) then (Blocked(p), columns)
               else (p.(position := Target(p, deltaTime)),
                     Relocated(columns, entity, Corners(p.size, p.position, blockSize), Some(Corners(p.size, Target(p, deltaTime), blockSize))))
  {
  }

  /**
   * The vertical step of `ActorSystem::update` for the pulled actor `p`:
   * a step without no-clip and, when it is refused, the snap and the reset
   * of the vertical speed.
   */
  method Drop(p: Actor, entity: nat, chunk: Chunk, deltaTime: real, collides: (Vec3, Vec3) -> bool) returns (r: Actor)
    requires chunk.Valid()
    modifies chunk`columns
    ensures chunk.Valid()
    ensures var target := Target(p, deltaTime);
            (r, chunk.columns)
            == if collides(target, p.size) then (Blocked(p), old(chunk.columns))
               else (p.(position := target),
                     Relocated(old(chunk.columns), entity, Corners(p.size, p.position, chunk.blockSize), Some(Corners(p.size, target, chunk.blockSize))))
  {
    var moved;
    r, moved := Step(p, entity, UnitY, p.yVelocity * deltaTime, chunk, false, collides);
    assert Target(p, deltaTime) == p.position.Add(UnitY.Scale(p.yVelocity * deltaTime));
    if !moved {
      r := Blocked(p);
    }
  }

  /**
   * The body of the loop of `ActorSystem::update` for one actor `a`: the
   * ground test and gravity, then the vertical step.
   */
  method FallOne(a: Actor, entity: nat, chunk: Chunk, deltaTime: real, collides: (Vec3, Vec3) -> bool) returns (r: Actor)
    requires chunk.Valid()
    modifies chunk`columns
    ensures chunk.Valid()
    ensures (r, chunk.columns) == FallStep(a, old(chunk.columns), chunk.blockSize, entity, deltaTime, collides)
  {
    var grounded := collides(a.position.Sub(Vec3(0.0, GroundedDistance, 0.0)), a.size);
    var p := ApplyGravity(a.(grounded := grounded), deltaTime);
    FallStepCases(a, chunk.columns, chunk.blockSize, entity, deltaTime, collides, p);
    r := Drop(p, entity, chunk, deltaTime, collides);
  }

  /**
   * The state of the loop after the ticks of `done`: the store valid with
   * its ids kept and only actors in it, and the actors and the occupancy
   * those of the fold.
   */
  ghost predicate Ticked(actors: ComponentStore<Component>, chunk: Chunk, a0: map<nat, Component>, c0: Columns, e0: seq<nat>,
                         done: seq<nat>, deltaTime: real, collides: (Vec3, Vec3) -> bool)
    reads actors, chunk
  {
    && actors.Valid() && chunk.Valid()
    && actors.entities == e0
    && (forall c | c in actors.components :: c.ActorC?)
    && (actors.contents, chunk.columns) == Falls(a0, c0, chunk.blockSize, done, deltaTime, collides)
  }

  /** One more tick extends the fold by one step. */
  lemma FallsAppend(actors: map<nat, Component>, columns: Columns, blockSize: int, cache: seq<nat>, e: nat,
                    deltaTime: real, collides: (Vec3, Vec3) -> bool)
    requires blockSize > 0
    ensures var prev := Falls(actors, columns, blockSize, cache, deltaTime, collides);
            Falls(actors, columns, blockSize, cache + [e], deltaTime, collides)
            == if e in prev.0 && prev.0[e].ActorC? then
                 var s := FallStep(prev.0[e].actor, prev.1, blockSize, e, deltaTime, collides);
                 (prev.0[e := ActorC(s.0)], s.1)
               else prev
  {
    assert (cache + [e])[..|cache|] == cache;
  }

  /** One turn of the loop of `ActorSystem::update`: read the actor, tick it, write it back. */
  method FallTurn(actors: ComponentStore<Component>, chunk: Chunk, entity: nat, deltaTime: real, collides: (Vec3, Vec3) -> bool,
                  ghost a0: map<nat, Component>, ghost c0: Columns, ghost e0: seq<nat>, ghost done: seq<nat>)
    requires Ticked(actors, chunk, a0, c0, e0, done, deltaTime, collides)
    modifies actors, chunk`columns
    ensures Ticked(actors, chunk, a0, c0, e0, done + [entity], deltaTime, collides)
  {
    FallsAppend(a0, c0, chunk.blockSize, done, entity, deltaTime, collides);
    match actors.Get(entity) {
      case Some(ActorC(a)) =>
        var r := FallOne(a, entity, chunk, deltaTime, collides);
        actors.Replace(entity, ActorC(r));
      case _ =>
    }
  }

  /** The loop of `ActorSystem::update` over the ids `cache`, on the Actor store. */
  method FallAll(actors: ComponentStore<Component>, chunk: Chunk, cache: seq<nat>, deltaTime: real, collides: (Vec3, Vec3) -> bool)
    requires actors.Valid() && chunk.Valid()
    requires forall c | c in actors.components :: c.ActorC?
    modifies actors, chunk`columns
    ensures Ticked(actors, chunk, old(actors.contents), old(chunk.columns), old(actors.entities), cache, deltaTime, collides)
  {
    for i := 0 to |cache|
      invariant Ticked(actors, chunk, old(actors.contents), old(chunk.columns), old(actors.entities), cache[..i], deltaTime, collides)
    {
      assert cache[..i + 1] == cache[..i] + [cache[i]];
      FallTurn(actors, chunk, cache[i], deltaTime, collides, old(actors.contents), old(chunk.columns), old(actors.entities), cache[..i]);
    }
    assert cache[..|cache|] == cache;
  }

  /** The loop of `ActorSystem::update` once the Actor store exists, leaving the manager valid. */
  method FallIn(m: EntityManager, chunk: Chunk, cache: seq<nat>, deltaTime: real, collides: (Vec3, Vec3) -> bool)
    requires m.Valid() && chunk.Valid() && ActorTag in m.stores
    modifies m.stores[ActorTag], chunk`columns
    ensures m.Valid() && chunk.Valid()
    ensures forall t | t in m.stores && t != ActorTag :: m.stores[t].contents == old(m.stores[t].contents)
    ensures (m.stores[ActorTag].contents, chunk.columns)
            == Falls(old(m.stores[ActorTag].contents), old(chunk.columns), chunk.blockSize, cache, deltaTime, collides)
  {
    var actors := m.stores[ActorTag];
    label Before:
    FallAll(actors, chunk, cache, deltaTime, collides);
    forall t | t in m.stores
      ensures m.StoreOk(m.stores[t], t)
      ensures t != ActorTag ==> m.stores[t].contents == old(m.stores[t].contents)
    {
      if t != ActorTag {
        assert m.stores[t].tag != ActorTag;
        assert old@Before(m.StoreOk(m.stores[t], t));
      }
    }
  }

  /**
   * `ActorSystem::update`: the id buffer is refilled with the ids holding
   * an Actor, and each of them, in order, has its tick; the other stores
   * and the queue stay as they were.
   */
  method Update(w: EcsState, chunk: Chunk, deltaTime: real, collides: (Vec3, Vec3) -> bool)
    requires w.Valid() && chunk.Valid()
    modifies w`entityCache, w.manager.Repr, chunk`columns
    ensures w.Valid() && chunk.Valid()
    ensures forall t | t in w.manager.stores && t != ActorTag :: w.manager.stores[t].contents == old(w.manager.stores[t].contents)
    ensures ActorTag !in w.manager.stores ==> w.entityCache == [] && chunk.columns == old(chunk.columns)
    ensures ActorTag in w.manager.stores ==>
              && w.entityCache == old(w.manager.stores[ActorTag].entities)
              && (w.manager.stores[ActorTag].contents, chunk.columns)
                 == Falls(old(w.manager.stores[ActorTag].contents), old(chunk.columns), chunk.blockSize,
                          w.entityCache, deltaTime, collides)
  {
    var cache, found := w.manager.GetEntitiesWith(ActorTag);
    if found {
      FallIn(w.manager, chunk, cache, deltaTime, collides);
    }
    w.entityCache := cache;
  }
}
