/**
 * The `Ecs` value that ties the entity manager to the removal queue
 * (src/entities/ecs.rs, `Ecs` and `flush_queue`).
 */
module World {
  import opened Wrappers
  import opened Chunks
  import opened Actors
  import opened Ecs

  /**
   * The occupancy after the first pass of `flush_queue`: each queued id,
   * in order, has left the corner columns of its actor (an id without an
   * actor, which `flush_queue` does not allow, changes nothing here).
   */
  function Vacated(columns: Columns, queued: seq<nat>, actors: map<nat, Component>, blockSize: int): Columns
    requires blockSize > 0
    decreases |queued|
  {
    if queued == [] then columns
    else
      var e := queued[|queued| - 1];
      var rest := Vacated(columns, queued[..|queued| - 1], actors, blockSize);
      if e in actors && actors[e].ActorC? then
        RemoveAll(rest, e, Corners(actors[e].actor.size, actors[e].actor.position, blockSize))
      else rest
  }

  /**
   * After that pass a queued id is over none of its actor's in-range corner
   * columns, and every other membership is as it was.
   */
  lemma {:induction false} VacatedExact(columns: Columns, queued: seq<nat>, actors: map<nat, Component>, blockSize: int, d: nat, x: int, z: int)
    requires blockSize > 0
    requires forall e | e in queued :: e in actors && actors[e].ActorC?
    ensures d in Occupants(Vacated(columns, queued, actors, blockSize), x, z) <==>
            d in Occupants(columns, x, z)
            && !(d in queued && ColumnInBounds(x, z) && (x, z) in Corners(actors[d].actor.size, actors[d].actor.position, blockSize))
    decreases |queued|
  {
    if queued != [] {
      var init := queued[..|queued| - 1];
      var e := queued[|queued| - 1];
      VacatedExact(columns, init, actors, blockSize, d, x, z);
      var a := actors[e].actor;
      RemoveAllExact(Vacated(columns, init, actors, blockSize), e, Corners(a.size, a.position, blockSize), x, z);
      assert queued == init + [e];
    }
  }

  /** The entity manager, the removal queue and the reusable id buffer the systems share. */
  class EcsState {
    const manager: EntityManager
    const queue: CommandQueue
    var entityCache: seq<nat>

    ghost predicate Valid() reads manager, manager.Repr {
      manager.Valid()
    }

    /** `Ecs { manager: EntityManager::new(), queue: CommandQueue::new(), entity_cache: Vec::new() }`. */
    constructor ()
      ensures Valid() && fresh(manager) && fresh(queue)
      ensures manager.entitiesCount == 0 && manager.stores == map[] && queue.entitiesToRemove == [] && entityCache == []
    {
      manager := new EntityManager();
      queue := new CommandQueue();
      entityCache := [];
    }

    /**
     * `flush_queue`: without an Actor store it returns at once, leaving the
     * queue as it is. Otherwise every queued id first leaves the corner
     * columns of its actor, then is removed from every store, and the
     * queue is emptied. A queued id without an Actor panics at the
     * `unwrap`, so the caller must not queue one.
     */
    method FlushQueue(chunk: Chunk)
      requires Valid() && chunk.Valid()
      requires ActorTag in manager.stores ==> forall e | e in queue.entitiesToRemove :: manager.stores[ActorTag].Has(e)
      modifies manager.Repr, queue, chunk`columns
      ensures Valid()
      ensures ActorTag !in manager.stores ==>
                && queue.entitiesToRemove == old(queue.entitiesToRemove) && chunk.columns == old(chunk.columns)
                && forall t | t in manager.stores :: manager.stores[t].contents == old(manager.stores[t].contents)
      ensures ActorTag in manager.stores ==>
                && chunk.columns == Vacated(old(chunk.columns), old(queue.entitiesToRemove),
                                            old(manager.stores[ActorTag].contents), chunk.blockSize)
                && (forall t | t in manager.stores ::
                      manager.stores[t].contents == Without(old(manager.stores[t].contents), old(queue.entitiesToRemove)))
                && queue.entitiesToRemove == []
    {
      if ActorTag !in manager.stores {
        return;
      }
      var actors := manager.stores[ActorTag];
      var queued := queue.entitiesToRemove;
      VacateColumns(queued, actors, chunk);
      manager.RemoveEntities(queued);
      queue.Clear();
    }
  }

  /**
   * The first pass of `flush_queue`: each queued id, in order, leaves the
   * corner columns of its actor (`update_occupied_blocks` with no new position).
   */
  method VacateColumns(queued: seq<nat>, actors: ComponentStore<Component>, chunk: Chunk)
    requires actors.Valid() && chunk.Valid()
    modifies chunk`columns
    ensures chunk.columns == Vacated(old(chunk.columns), queued, actors.contents, chunk.blockSize)
  {
    for i := 0 to |queued|
      invariant chunk.columns == Vacated(old(chunk.columns), queued[..i], actors.contents, chunk.blockSize)
    {
      assert queued[..i + 1][..i] == queued[..i];
      var component := actors.Get(queued[i]);
      match component
      case Some(ActorC(actor)) => UpdateOccupiedBlocks(actor, queued[i], chunk, None);
      case _ => // `unwrap` panics here; `flush_queue`'s callers never queue such an id

    }
    assert queued[..|queued|] == queued;
  }
}
