/** The `Inventory` component (src/entities/inventory.rs): a list of item characters. */
module InventoryComponent {

  /** The character `add_item` appends when the inventory holds `n` items: 'a' on even counts, 'b' on odd. */
  function NextItem(n: nat): char {
    if n % 2 == 0 then 'a' else 'b'
  }

  datatype Inventory = Inventory(items: seq<char>) {

    /** `add_item`: appends one item, chosen by the parity of the current length. */
    function AddItem(): (r: Inventory)
      ensures |r.items| == |items| + 1 && r.items[..|items|] == items
      ensures r.items[|items|] == NextItem(|items|)
    {
      Inventory(items + [NextItem(|items|)])
    }

    /** `remove_item`: removes the item at `index` when there is one, and otherwise changes nothing. */
    function RemoveItem(index: nat): (r: Inventory)
      ensures index < |items| ==> |r.items| == |items| - 1
      ensures index >= |items| ==> r == this
    {
      if index < |items| then Inventory(items[..index] + items[index + 1..]) else this
    }
  }

  /** `Inventory::new`: no items. */
  const Empty: Inventory := Inventory([])

  /** The inventory after `n` calls of `add_item`. */
  function AddItems(inv: Inventory, n: nat): (r: Inventory)
  {
    if n == 0 then inv else AddItems(inv, n - 1).AddItem()
  }

  /** Each call of `add_item` lengthens the inventory by one and keeps what was there. */
  lemma {:induction false} AddItemsGrows(inv: Inventory, n: nat)
    ensures |AddItems(inv, n).items| == |inv.items| + n
    ensures AddItems(inv, n).items[..|inv.items|] == inv.items
  {
    if n > 0 {
      AddItemsGrows(inv, n - 1);
      var prev := AddItems(inv, n - 1).items;
      assert AddItems(inv, n).items[..|prev|] == prev;
      assert prev[..|inv.items|] == inv.items;
    }
  }

  /** Starting empty and only adding, the items alternate: item i is 'a' exactly when i is even. */
  lemma {:induction false} AddedItemsAlternate(n: nat, i: nat)
    requires i < n
    ensures |AddItems(Empty, n).items| == n
    ensures AddItems(Empty, n).items[i] == 'a' <==> i % 2 == 0
  {
    AddItemsGrows(Empty, n);
    if i < n - 1 {
      AddedItemsAlternate(n - 1, i);
    }
  }

  /** Removing keeps the other items in order: those before `index` stay put, those after move down by one. */
  lemma RemoveItemShifts(inv: Inventory, index: nat, k: nat)
    requires index < |inv.items| && k < |inv.items| - 1
    ensures inv.RemoveItem(index).items[k] == if k < index then inv.items[k] else inv.items[k + 1]
  {
  }
}

/** `InventorySystem` (src/entities/inventory.rs): holders pick up the items whose boxes touch theirs. */
module InventorySystem {
  import opened Wrappers
  import opened Chunks
  import opened Actors
  import opened InventoryComponent
  import opened Ecs
  import opened World

  /**
   * What the holder `entity`, with actor `holder`, picks up among the ids
   * `nearby` (those over its corner columns): the ones other than itself
   * that are items, have an actor, and whose box meets the holder's.
   */
  ghost function Pickups(nearby: set<nat>, actors: map<nat, Component>, items: map<nat, Component>,
                         holder: Actor, entity: nat): set<nat>
  {
    set n | n in nearby && Picks(actors, items, holder, entity, n)
  }

  /** Whether a nearby id `n` is picked up by `entity`: not itself, an item, and an actor whose box meets the holder's. */
  ghost predicate Picks(actors: map<nat, Component>, items: map<nat, Component>, holder: Actor, entity: nat, n: nat) {
    n != entity && n in items && n in actors && actors[n].ActorC? && Intersects(actors[n].actor, holder.position, holder.size)
  }

  /**
   * The inventories after each of `cache`, in order, has picked up, and
   * the ids queued on the way (as a multiset: within one holder the order
   * is that of a hash set).
   */
  ghost function Collect(inventories: map<nat, Component>, actors: map<nat, Component>, items: map<nat, Component>,
                         columns: Columns, blockSize: int, cache: seq<nat>): (map<nat, Component>, multiset<nat>)
    requires blockSize > 0
    decreases |cache|
  {
    if cache == [] then (inventories, multiset{})
    else
      CollectStep(Collect(inventories, actors, items, columns, blockSize, cache[..|cache| - 1]),
                  actors, items, columns, blockSize, cache[|cache| - 1])
  }

  /** One holder `e` picks up: its inventory grows by what it picks, and those ids join the queued ones. */
  ghost function CollectStep(prev: (map<nat, Component>, multiset<nat>), actors: map<nat, Component>, items: map<nat, Component>,
                             columns: Columns, blockSize: int, e: nat): (map<nat, Component>, multiset<nat>)
    requires blockSize > 0
  {
    if e in prev.0 && prev.0[e].InventoryC? && e in actors && actors[e].ActorC? then
      var picked := PickedBy(actors, items, columns, blockSize, e);
      (prev.0[e := InventoryC(AddItems(prev.0[e].inventory, |picked|))], prev.1 + multiset(picked))
    else prev
  }

  /** What the holder `e` picks up among the ids over the corner columns of its actor. */
  ghost function PickedBy(actors: map<nat, Component>, items: map<nat, Component>, columns: Columns, blockSize: int, e: nat): set<nat>
    requires blockSize > 0 && e in actors && actors[e].ActorC?
  {
    var a := actors[e].actor;
    Pickups(NearbyOf(columns, Corners(a.size, a.position, blockSize)), actors, items, a, e)
  }

  /** The number of items the listed ids hold. */
  function TotalItems(inventories: map<nat, Component>, cache: seq<nat>): nat
    decreases |cache|
  {
    if cache == [] then 0
    else
      var e := cache[|cache| - 1];
      TotalItems(inventories, cache[..|cache| - 1])
      + (if e in inventories && inventories[e].InventoryC? then |inventories[e].inventory.items| else 0)
  }

  /** Changing an entry that is not listed leaves the total as it was. */
  lemma {:induction false} TotalItemsFrame(inventories: map<nat, Component>, cache: seq<nat>, e: nat, c: Component)
    requires e !in cache
    ensures TotalItems(inventories[e := c], cache) == TotalItems(inventories, cache)
    decreases |cache|
  {
    if cache != [] {
      TotalItemsFrame(inventories, cache[..|cache| - 1], e, c);
    }
  }

  /** Pickups only change the entries of listed holders, and keep which ids hold an inventory. */
  lemma {:induction false} CollectFrame(inventories: map<nat, Component>, actors: map<nat, Component>, items: map<nat, Component>,
                                        columns: Columns, blockSize: int, cache: seq<nat>, e: nat)
    requires blockSize > 0
    ensures var r := Collect(inventories, actors, items, columns, blockSize, cache).0;
            && r.Keys == inventories.Keys
            && (e in inventories ==> (r[e].InventoryC? <==> inventories[e].InventoryC?))
            && (e in inventories && e !in cache ==> r[e] == inventories[e])
    decreases |cache|
  {
    if cache != [] {
      var init := cache[..|cache| - 1];
      CollectFrame(inventories, actors, items, columns, blockSize, init, e);
      CollectStepFrame(Collect(inventories, actors, items, columns, blockSize, init), actors, items, columns, blockSize, cache[|cache| - 1], e);
      assert e !in cache ==> e !in init && e != cache[|cache| - 1] by {
        assert cache == init + [cache[|cache| - 1]];
      }
    }
  }

  /** One holder's pickup changes its own entry only, and keeps the ids and which of them hold an inventory. */
  lemma CollectStepFrame(prev: (map<nat, Component>, multiset<nat>), actors: map<nat, Component>, items: map<nat, Component>,
                         columns: Columns, blockSize: int, d: nat, e: nat)
    requires blockSize > 0
    ensures var r := CollectStep(prev, actors, items, columns, blockSize, d).0;
            && r.Keys == prev.0.Keys
            && (e in prev.0 ==> (r[e].InventoryC? <==> prev.0[e].InventoryC?))
            && (e in prev.0 && e != d ==> r[e] == prev.0[e])
  {
    var r := CollectStep(prev, actors, items, columns, blockSize, d).0;
    if d in prev.0 && prev.0[d].InventoryC? && d in actors && actors[d].ActorC? {
      var c := InventoryC(AddItems(prev.0[d].inventory, |PickedBy(actors, items, columns, blockSize, d)|));
      assert r == prev.0[d := c];
    } else {
      assert r == prev.0;
    }
  }

  /**
   * Nothing is created or lost: when no holder is listed twice, the items
   * the holders gain add up to the number of ids queued for removal.
   */
  lemma {:induction false} ItemsConserved(inventories: map<nat, Component>, actors: map<nat, Component>, items: map<nat, Component>,
                                          columns: Columns, blockSize: int, cache: seq<nat>)
    requires blockSize > 0
    requires forall i, j | 0 <= i < j < |cache| :: cache[i] != cache[j]
    ensures var r := Collect(inventories, actors, items, columns, blockSize, cache);
            TotalItems(r.0, cache) == TotalItems(inventories, cache) + |r.1|
    decreases |cache|
  {
    if cache != [] {
      var init := cache[..|cache| - 1];
      var e := cache[|cache| - 1];
      ItemsConserved(inventories, actors, items, columns, blockSize, init);
      var prev := Collect(inventories, actors, items, columns, blockSize, init);
      CollectFrame(inventories, actors, items, columns, blockSize, init, e);
      assert e !in init by {
        forall i | 0 <= i < |init| ensures init[i] != e {
          assert init[i] == cache[i];
        }
      }
      if e in prev.0 && prev.0[e].InventoryC? && e in actors && actors[e].ActorC? {
        var picked := PickedBy(actors, items, columns, blockSize, e);
        var c := InventoryC(AddItems(prev.0[e].inventory, |picked|));
        AddItemsGrows(prev.0[e].inventory, |picked|);
        TotalItemsFrame(prev.0, init, e, c);
      }
    }
  }

  /** Only items with an actor, and never the picker itself, are queued. */
  lemma {:induction false} CollectQueuesItems(inventories: map<nat, Component>, actors: map<nat, Component>, items: map<nat, Component>,
                                              columns: Columns, blockSize: int, cache: seq<nat>, n: nat)
    requires blockSize > 0
    ensures n in Collect(inventories, actors, items, columns, blockSize, cache).1 ==>
            n in items && n in actors && actors[n].ActorC? && exists e :: e in cache && e != n
    decreases |cache|
  {
    if cache != [] {
      var init := cache[..|cache| - 1];
      CollectQueuesItems(inventories, actors, items, columns, blockSize, init, n);
      var prev := Collect(inventories, actors, items, columns, blockSize, init);
      var e := cache[|cache| - 1];
      if n in prev.1 {
        var d :| d in init && d != n;
        assert d in cache;
      } else if n in CollectStep(prev, actors, items, columns, blockSize, e).1 {
        assert Picks(actors, items, actors[e].actor, e, n);
        assert e in cache;
      }
    }
  }

  /** `added` lists each element of `picked` exactly once. */
  ghost predicate Enumerates(added: seq<nat>, picked: set<nat>) {
    |added| == |picked| && multiset(added) == multiset(picked)
  }

  /** Listing one more, new, element keeps the listing exact. */
  lemma EnumeratesAppend(added: seq<nat>, picked: set<nat>, n: nat)
    requires Enumerates(added, picked) && n !in picked
    ensures Enumerates(added + [n], picked + {n})
  {
    assert multiset(picked + {n}) == multiset(picked) + multiset{n};
  }

  /** The checks of the inner loop for one nearby id: the `continue`s of `InventorySystem::update`. */
  method Qualifies(actors: ComponentStore<Component>, items: ComponentStore<Component>, holder: Actor, entity: nat, n: nat)
    returns (b: bool)
    requires actors.Valid() && items.Valid()
    ensures b == Picks(actors.contents, items.contents, holder, entity, n)
  {
    if n == entity || !items.Has(n) {
      return false;
    }
    match actors.Get(n) {
      case Some(ActorC(nearbyActor)) =>
        b := Intersects(nearbyActor, holder.position, holder.size);
      case _ =>
        b := false;
    }
  }

  /**
   * The inner loop of `InventorySystem::update` for one holder: every
   * nearby id is looked at once, in the order of the hash set, and each
   * that qualifies adds one item and is queued.
   */
  method PickUp(actors: ComponentStore<Component>, items: ComponentStore<Component>, queue: CommandQueue,
                nearby: set<nat>, entity: nat, holder: Actor, inventory: Inventory) returns (r: Inventory, ghost picked: set<nat>)
    requires actors.Valid() && items.Valid()
    modifies queue
    ensures picked == Pickups(nearby, actors.contents, items.contents, holder, entity)
    ensures r == AddItems(inventory, |picked|)
    ensures old(queue.entitiesToRemove) <= queue.entitiesToRemove
    ensures multiset(queue.entitiesToRemove) == multiset(old(queue.entitiesToRemove)) + multiset(picked)
  {
    var todo := nearby;
    r := inventory;
    picked := {};
    ghost var added: seq<nat> := [];
    while todo != {}
      invariant todo <= nearby && picked <= nearby
      invariant forall n | n in nearby :: n in picked <==> n !in todo && Picks(actors.contents, items.contents, holder, entity, n)
      invariant r == AddItems(inventory, |added|)
      invariant queue.entitiesToRemove == old(queue.entitiesToRemove) + added
      invariant Enumerates(added, picked)
      decreases todo
    {
      var n :| n in todo;
      todo := todo - {n};
      var take := Qualifies(actors, items, holder, entity, n);
      if take {
        EnumeratesAppend(added, picked, n);
        r := r.AddItem();
        queue.RemoveEntity(n);
        picked := picked + {n};
        added := added + [n];
      }
    }
    assert picked == Pickups(nearby, actors.contents, items.contents, holder, entity);
  }

  /**
   * The body of the outer loop of `InventorySystem::update` for the holder
   * `entity`: the inventory to write back, if it holds one and an actor.
   */
  method CollectOne(actors: ComponentStore<Component>, inventories: ComponentStore<Component>, items: ComponentStore<Component>,
                    queue: CommandQueue, chunk: Chunk, entity: nat,
                    ghost prev: (map<nat, Component>, multiset<nat>), ghost base: multiset<nat>)
    returns (write: Option<Component>)
    requires actors.Valid() && inventories.Valid() && items.Valid() && chunk.Valid()
    requires inventories.contents == prev.0 && multiset(queue.entitiesToRemove) == base + prev.1
    modifies queue
    ensures var r := CollectStep(prev, actors.contents, items.contents, chunk.columns, chunk.blockSize, entity);
            && (write.Some? ==> inventories.Has(entity) && write.value.InventoryC? && r.0 == prev.0[entity := write.value])
            && (write.None? ==> r.0 == prev.0)
            && old(queue.entitiesToRemove) <= queue.entitiesToRemove
            && multiset(queue.entitiesToRemove) == base + r.1
  {
    var a := actors.Get(entity);
    var c := inventories.Get(entity);
    write := None;
    if a.Some? && a.value.ActorC? && c.Some? && c.value.InventoryC? {
      var nearby := GetNearbyEntities(a.value.actor, chunk);
      var r, picked := PickUp(actors, items, queue, nearby, entity, a.value.actor, c.value.inventory);
      write := Some(InventoryC(r));
    }
  }

  /**
   * `InventorySystem::update`: the id buffer is refilled with the ids
   * holding both an Inventory and an Actor. With an Item store, each of
   * them picks up (see `PickUp`) and its inventory is written back; the
   * other stores, the ids and the occupancy stay as they were.
   */
  method Update(w: EcsState, chunk: Chunk)
    requires w.Valid() && chunk.Valid()
    modifies w`entityCache, w.queue, w.manager.Repr
    ensures w.Valid()
    ensures forall t | t in w.manager.stores && t != InventoryTag :: w.manager.stores[t].contents == old(w.manager.stores[t].contents)
    ensures !(InventoryTag in w.manager.stores && ActorTag in w.manager.stores) ==> w.entityCache == []
    ensures InventoryTag in w.manager.stores && ActorTag in w.manager.stores ==>
              w.entityCache == Both(old(w.manager.stores[InventoryTag].entities), old(w.manager.stores[ActorTag].entityMap.Keys))
    ensures !(InventoryTag in w.manager.stores && ActorTag in w.manager.stores && ItemTag in w.manager.stores) ==>
              && w.queue.entitiesToRemove == old(w.queue.entitiesToRemove)
              && (InventoryTag in w.manager.stores ==>
                    w.manager.stores[InventoryTag].contents == old(w.manager.stores[InventoryTag].contents))
    ensures InventoryTag in w.manager.stores && ActorTag in w.manager.stores && ItemTag in w.manager.stores ==>
              var r := Collect(old(w.manager.stores[InventoryTag].contents), w.manager.stores[ActorTag].contents,
                               w.manager.stores[ItemTag].contents, chunk.columns, chunk.blockSize, w.entityCache);
              && w.manager.stores[InventoryTag].contents == r.0
              && old(w.queue.entitiesToRemove) <= w.queue.entitiesToRemove
              && multiset(w.queue.entitiesToRemove) == multiset(old(w.queue.entitiesToRemove)) + r.1
  {
    var found;
    w.entityCache, found := w.manager.GetEntitiesWithBoth(InventoryTag, ActorTag);
    if !found || ItemTag !in w.manager.stores {
      return;
    }
    CollectIn(w.manager, w.queue, chunk, w.entityCache);
  }

  /** The loop of `InventorySystem::update` once all three stores exist, leaving the manager valid. */
  method CollectIn(m: EntityManager, queue: CommandQueue, chunk: Chunk, cache: seq<nat>)
    requires m.Valid() && chunk.Valid()
    requires InventoryTag in m.stores && ActorTag in m.stores && ItemTag in m.stores
    modifies queue, m.stores[InventoryTag]
    ensures m.Valid()
    ensures forall t | t in m.stores && t != InventoryTag :: m.stores[t].contents == old(m.stores[t].contents)
    ensures var r := Collect(old(m.stores[InventoryTag].contents), m.stores[ActorTag].contents,
                             m.stores[ItemTag].contents, chunk.columns, chunk.blockSize, cache);
            && m.stores[InventoryTag].contents == r.0
            && old(queue.entitiesToRemove) <= queue.entitiesToRemove
            && multiset(queue.entitiesToRemove) == multiset(old(queue.entitiesToRemove)) + r.1
  {
    var actors, inventories, items := m.stores[ActorTag], m.stores[InventoryTag], m.stores[ItemTag];
    label Before:
    CollectAll(actors, inventories, items, queue, chunk, cache);
    forall t | t in m.stores
      ensures m.StoreOk(m.stores[t], t)
      ensures t != InventoryTag ==> m.stores[t].contents == old(m.stores[t].contents)
    {
      if t != InventoryTag {
        assert m.stores[t].tag != InventoryTag;
        assert old@Before(m.StoreOk(m.stores[t], t));
      }
    }
  }

  /** The loop of `InventorySystem::update` over the ids `cache`, on the three stores it borrows. */
  method CollectAll(actors: ComponentStore<Component>, inventories: ComponentStore<Component>, items: ComponentStore<Component>,
                    queue: CommandQueue, chunk: Chunk, cache: seq<nat>)
    requires actors.Valid() && inventories.Valid() && items.Valid() && chunk.Valid()
    requires inventories != actors && inventories != items
    requires forall c | c in inventories.components :: c.InventoryC?
    modifies queue, inventories
    ensures inventories.Valid() && inventories.entities == old(inventories.entities)
    ensures forall c | c in inventories.components :: c.InventoryC?
    ensures var r := Collect(old(inventories.contents), actors.contents, items.contents, chunk.columns, chunk.blockSize, cache);
            && inventories.contents == r.0
            && old(queue.entitiesToRemove) <= queue.entitiesToRemove
            && multiset(queue.entitiesToRemove) == multiset(old(queue.entitiesToRemove)) + r.1
  {
    for i := 0 to |cache|
      invariant inventories.Valid() && inventories.entities == old(inventories.entities)
      invariant forall c | c in inventories.components :: c.InventoryC?
      invariant var r := Collect(old(inventories.contents), actors.contents, items.contents, chunk.columns, chunk.blockSize, cache[..i]);
                && inventories.contents == r.0
                && old(queue.entitiesToRemove) <= queue.entitiesToRemove
                && multiset(queue.entitiesToRemove) == multiset(old(queue.entitiesToRemove)) + r.1
    {
      assert cache[..i + 1][..i] == cache[..i];
      var entity := cache[i];
      var write := CollectOne(actors, inventories, items, queue, chunk, entity,
                              Collect(old(inventories.contents), actors.contents, items.contents, chunk.columns, chunk.blockSize, cache[..i]),
                              multiset(old(queue.entitiesToRemove)));
      if write.Some? {
        inventories.Replace(entity, write.value);
      }
    }
    assert cache[..|cache|] == cache;
  }
}
