/**
 * The sparse-set entity/component store (src/entities/ecs.rs): one dense
 * store per component type, an entity manager that hands out ids and
 * keeps a store per type, the deferred-removal queue and the system list.
 *
 * Rust's type erasure (a `Vec` of boxed stores found by downcasting) is
 * modelled as a fixed set of component tags, each naming at most one
 * store, and a `Component` sum of the component types.
 */
module Ecs {
  import opened Wrappers
  import opened Vector
  import opened Chunks
  import opened Actors
  import opened HealthComponent
  import opened FighterComponent
  import opened InventoryComponent
  import opened ChaseAiComponent

  /** The component types of the game, as the keys the stores are found by. */
  datatype Tag = ActorTag | HealthTag | FighterTag | InventoryTag | ItemTag | PlayerTag | ChaseAiTag

  /** A component of any type; `Item` and `Player` are markers without data. */
  datatype Component =
    | ActorC(actor: Actor)
    | HealthC(health: Health)
    | FighterC(fighter: Fighter)
    | InventoryC(inventory: Inventory)
    | ItemC
    | PlayerC
    | ChaseAiC(ai: ChaseAi)

  /** Whether `c` is a component of type `t`. */
  predicate OfTag(c: Component, t: Tag) {
    match t
    case ActorTag => c.ActorC?
    case HealthTag => c.HealthC?
    case FighterTag => c.FighterC?
    case InventoryTag => c.InventoryC?
    case ItemTag => c.ItemC?
    case PlayerTag => c.PlayerC?
    case ChaseAiTag => c.ChaseAiC?
  }

  /** The type of a component (its `TypeId`), the one tag it is of. */
  function TagOf(c: Component): (t: Tag)
    ensures OfTag(c, t)
    ensures forall u :: OfTag(c, u) <==> u == t
  {
    match c
    case ActorC(_) => ActorTag
    case HealthC(_) => HealthTag
    case FighterC(_) => FighterTag
    case InventoryC(_) => InventoryTag
    case ItemC => ItemTag
    case PlayerC => PlayerTag
    case ChaseAiC(_) => ChaseAiTag
  }

  /** `Vec::swap_remove`: the last element moves into slot `i` and the length drops by one. */
  function SwapRemove<T>(s: seq<T>, i: nat): (r: seq<T>)
    requires i < |s|
    ensures |r| == |s| - 1
    ensures forall j | 0 <= j < |r| :: r[j] == if j == i then s[|s| - 1] else s[j]
  {
    s[i := s[|s| - 1]][..|s| - 1]
  }

  /** Swap-removing drops exactly the one element: the rest are kept, in some order. */
  lemma SwapRemovePermutes<T>(s: seq<T>, i: nat)
    requires i < |s|
    ensures multiset(SwapRemove(s, i)) == multiset(s) - multiset{s[i]}
  {
    var n := |s| - 1;
    assert s == s[..n] + [s[n]];
    if i < n {
      assert s[..n] == s[..i] + [s[i]] + s[i + 1..n];
      assert SwapRemove(s, i) == s[..i] + [s[n]] + s[i + 1..n];
    } else {
      assert SwapRemove(s, i) == s[..n];
    }
  }

  /**
   * The sparse-set invariant: the dense vectors have one slot per stored
   * id, the map sends each id to its slot, and each slot names the id
   * that maps to it.
   */
  ghost predicate SparseSet<T>(components: seq<T>, entities: seq<nat>, entityMap: map<nat, nat>) {
    && |components| == |entities| == |entityMap|
    && (forall e | e in entityMap :: entityMap[e] < |entities| && entities[entityMap[e]] == e)
    && (forall i | 0 <= i < |entities| :: entities[i] in entityMap && entityMap[entities[i]] == i)
  }

  /** What the store holds: each id with the component in its slot. */
  function ContentsOf<T>(components: seq<T>, entityMap: map<nat, nat>): map<nat, T> {
    map e | e in entityMap && entityMap[e] < |components| :: components[entityMap[e]]
  }

  /** `add` of a new id keeps the invariant, and the id now holds the new component. */
  lemma PushKeepsSparseSet<T>(components: seq<T>, entities: seq<nat>, entityMap: map<nat, nat>, e: nat, c: T)
    requires SparseSet(components, entities, entityMap) && e !in entityMap
    ensures SparseSet(components + [c], entities + [e], entityMap[e := |components|])
    ensures ContentsOf(components + [c], entityMap[e := |components|]) == ContentsOf(components, entityMap)[e := c]
  {
  }

  /**
   * `remove` of a stored id keeps the invariant: the last slot moves into
   * the removed one, the moved id is re-pointed at it, and the removed id
   * is dropped.
   */
  lemma SwapRemoveKeepsSparseSet<T>(components: seq<T>, entities: seq<nat>, entityMap: map<nat, nat>, e: nat)
    requires SparseSet(components, entities, entityMap) && e in entityMap
    ensures var i, last := entityMap[e], entities[|entities| - 1];
            SparseSet(SwapRemove(components, i), SwapRemove(entities, i), entityMap[last := i] - {e})
  {
    SwapRemoveIndexes(entities, entityMap, e);
  }

  /** After that `remove`, every other id keeps its component, including the one that moved. */
  lemma SwapRemoveKeepsContents<T>(components: seq<T>, entities: seq<nat>, entityMap: map<nat, nat>, e: nat)
    requires SparseSet(components, entities, entityMap) && e in entityMap
    ensures var i, last := entityMap[e], entities[|entities| - 1];
            ContentsOf(SwapRemove(components, i), entityMap[last := i] - {e}) == ContentsOf(components, entityMap) - {e}
  {
    var i, last := entityMap[e], entities[|entities| - 1];
    var m := entityMap[last := i] - {e};
    var after := ContentsOf(SwapRemove(components, i), m);
    assert after.Keys == entityMap.Keys - {e};
    forall d | d in after
      ensures after[d] == ContentsOf(components, entityMap)[d]
    {
      if d == last {
        assert m[d] == i;
      } else {
        assert m[d] == entityMap[d] && m[d] != |entities| - 1;
      }
    }
  }

  /** The index half of `SwapRemoveKeepsSparseSet`. */
  lemma SwapRemoveIndexes(entities: seq<nat>, entityMap: map<nat, nat>, e: nat)
    requires |entities| == |entityMap| && e in entityMap
    requires forall d | d in entityMap :: entityMap[d] < |entities| && entities[entityMap[d]] == d
    requires forall i | 0 <= i < |entities| :: entities[i] in entityMap && entityMap[entities[i]] == i
    ensures var i, last := entityMap[e], entities[|entities| - 1];
            var m := entityMap[last := i] - {e};
            && |SwapRemove(entities, i)| == |m|
            && (forall d | d in m :: m[d] < |entities| - 1 && SwapRemove(entities, i)[m[d]] == d)
            && (forall j | 0 <= j < |entities| - 1 :: SwapRemove(entities, i)[j] in m && m[SwapRemove(entities, i)[j]] == j)
  {
    var i, last := entityMap[e], entities[|entities| - 1];
    var m := entityMap[last := i] - {e};
    assert m.Keys == entityMap.Keys - {e};
    assert |m.Keys| == |entityMap.Keys| - 1;
  }

  /** A dense store of one component type, as `ComponentStore<T>`. */
  class ComponentStore<T> {
    var components: seq<T>
    var entities: seq<nat>
    var entityMap: map<nat, nat>
    /** The stored ids with their components. */
    ghost var contents: map<nat, T>
    /** The component type the store was created for. */
    ghost const tag: Tag

    ghost predicate Valid() reads this {
      SparseSet(components, entities, entityMap) && contents == ContentsOf(components, entityMap)
    }

    /** `ComponentStore::new`: empty. */
    constructor (ghost tag: Tag)
      ensures Valid() && components == [] && entities == [] && entityMap == map[] && contents == map[]
      ensures this.tag == tag
    {
      this.tag := tag;
      components := [];
      entities := [];
      entityMap := map[];
      contents := map[];
    }

    /** `has`: whether the id is stored. */
    predicate Has(e: nat) reads this {
      e in entityMap
    }

    /** `get`: the component stored for `e`, and nothing for an id that is not stored. */
    function Get(e: nat): (r: Option<T>)
      reads this
      ensures r.Some? <==> e in ContentsOf(components, entityMap)
      ensures r.Some? ==> r.value == ContentsOf(components, entityMap)[e]
      ensures Valid() ==> (r.Some? <==> Has(e)) && (r.Some? ==> r.value == contents[e])
    {
      if e in entityMap && entityMap[e] < |components| then Some(components[entityMap[e]]) else None
    }

    /** `add`: a no-op for a stored id, otherwise pushes the component and records its slot. */
    method Add(e: nat, c: T)
      requires Valid()
      modifies this
      ensures Valid()
      ensures old(Has(e)) ==> components == old(components) && entities == old(entities) && entityMap == old(entityMap)
      ensures !old(Has(e)) ==>
                && components == old(components) + [c] && entities == old(entities) + [e]
                && entityMap == old(entityMap)[e := |old(components)|]
      ensures contents == if old(Has(e)) then old(contents) else old(contents)[e := c]
    {
      if Has(e) {
        return;
      }
      PushKeepsSparseSet(components, entities, entityMap, e, c);
      components := components + [c];
      entities := entities + [e];
      entityMap := entityMap[e := |components| - 1];
      contents := contents[e := c];
    }

    /** `remove`: a no-op for an absent id, otherwise a swap-remove that re-points the moved id. */
    method Remove(e: nat)
      requires Valid()
      modifies this
      ensures Valid() && !Has(e)
      ensures !old(Has(e)) ==> components == old(components) && entities == old(entities) && entityMap == old(entityMap)
      ensures old(Has(e)) ==>
                var i := old(entityMap[e]);
                && components == SwapRemove(old(components), i) && entities == SwapRemove(old(entities), i)
                && entityMap == old(entityMap)[old(entities[|entities| - 1]) := i] - {e}
      ensures contents == old(contents) - {e}
      ensures forall c | c in components :: c in old(components)
    {
      if !Has(e) {
        return;
      }
      SwapRemoveKeepsSparseSet(components, entities, entityMap, e);
      SwapRemoveKeepsContents(components, entities, entityMap, e);
      var index, last := entityMap[e], entities[|entities| - 1];
      SwapRemovePermutes(components, index);
      components, entities, entityMap, contents :=
        SwapRemove(components, index), SwapRemove(entities, index), entityMap[last := index] - {e}, contents - {e};
    }

    /** Writing through `get_mut`: the stored id's slot gets the new component; the ids stay put. */
    method Replace(e: nat, c: T)
      requires Valid() && Has(e)
      modifies this`components, this`contents
      ensures Valid()
      ensures components == old(components)[old(entityMap[e]) := c]
      ensures contents == old(contents)[e := c]
    {
      components := components[entityMap[e] := c];
      contents := contents[e := c];
    }
  }

  /** The ids of `first`, in order, that are in `second`. */
  function Both(first: seq<nat>, second: set<nat>): seq<nat>
    decreases |first|
  {
    if first == [] then []
    else Both(first[..|first| - 1], second) + (if first[|first| - 1] in second then [first[|first| - 1]] else [])
  }

  /** An id is listed exactly when it is in both; order is that of `first`, so no id is listed twice if `first` has none twice. */
  lemma {:induction false} BothExact(first: seq<nat>, second: set<nat>, e: nat)
    ensures e in Both(first, second) <==> e in first && e in second
    decreases |first|
  {
    if first != [] {
      BothExact(first[..|first| - 1], second, e);
      assert first == first[..|first| - 1] + [first[|first| - 1]];
    }
  }

  /** Listing keeps the relative order of `first`: it is a subsequence, so distinct ids stay distinct. */
  lemma {:induction false} BothDistinct(first: seq<nat>, second: set<nat>)
    requires forall i, j | 0 <= i < j < |first| :: first[i] != first[j]
    ensures forall i, j | 0 <= i < j < |Both(first, second)| :: Both(first, second)[i] != Both(first, second)[j]
    decreases |first|
  {
    if first != [] {
      var init := first[..|first| - 1];
      BothDistinct(init, second);
      BothExact(init, second, first[|first| - 1]);
    }
  }

  /** `ComponentStore::new` followed by `add`: a store of the component's type holding just `e`. */
  method NewStoreWith(e: nat, c: Component) returns (store: ComponentStore<Component>)
    ensures fresh(store) && store.Valid() && store.tag == TagOf(c)
    ensures store.components == [c] && store.contents == map[e := c]
  {
    store := new ComponentStore<Component>(TagOf(c));
    store.Add(e, c);
  }

  /** `m` after removing each id of `queued` in turn. */
  function Without(m: map<nat, Component>, queued: seq<nat>): map<nat, Component>
    decreases |queued|
  {
    if queued == [] then m else Without(m, queued[..|queued| - 1]) - {queued[|queued| - 1]}
  }

  /** Removing a list of ids keeps exactly the entries whose id is not listed, with their components. */
  lemma {:induction false} WithoutExact(m: map<nat, Component>, queued: seq<nat>, k: nat)
    ensures k in Without(m, queued) <==> k in m && k !in queued
    ensures k in Without(m, queued) ==> Without(m, queued)[k] == m[k]
    decreases |queued|
  {
    if queued != [] {
      WithoutExact(m, queued[..|queued| - 1], k);
      assert queued == queued[..|queued| - 1] + [queued[|queued| - 1]];
    }
  }

  /** `EntityManager`: the next id to hand out, and the store of each component type created so far. */
  class EntityManager {
    var entitiesCount: nat
    var stores: map<Tag, ComponentStore<Component>>
    /** The stores, as the objects the manager's methods may change. */
    ghost var Repr: set<ComponentStore<Component>>

    /**
     * Every store keeps the sparse-set invariant and holds only components
     * of its own type, and no two types share a store.
     */
    ghost predicate Valid() reads this, Repr {
      && (forall t | t in stores :: stores[t] in Repr)
      && (forall t | t in stores :: StoreOk(stores[t], t))
    }

    /** The store was created for type `t`, keeps the sparse-set invariant and holds components of type `t` only. */
    ghost predicate StoreOk(store: ComponentStore<Component>, t: Tag) reads store {
      store.tag == t && store.Valid() && forall c | c in store.components :: OfTag(c, t)
    }

    /** Whether `e` has a component of type `t`. */
    predicate HasComponent(t: Tag, e: nat) reads this, stores.Values {
      t in stores && stores[t].Has(e)
    }

    /** `EntityManager::new`: no ids handed out, no stores. */
    constructor ()
      ensures Valid() && entitiesCount == 0 && stores == map[] && Repr == {}
    {
      entitiesCount := 0;
      stores := map[];
      Repr := {};
    }

    /** `add_entity`: hands out the counter and bumps it, so ids come out 0, 1, 2, ... and never twice. */
    method AddEntity() returns (entity: nat)
      modifies this`entitiesCount
      ensures entity == old(entitiesCount) && entitiesCount == entity + 1
    {
      entity := entitiesCount;
      entitiesCount := entitiesCount + 1;
    }

    /** `remove_entity`: removes `e` from every store; every other id keeps its components. */
    method RemoveEntity(e: nat)
      requires Valid()
      modifies Repr
      ensures Valid()
      ensures forall t | t in stores :: stores[t].contents == old(stores[t].contents) - {e}
    {
      var todo := stores.Keys;
      while todo != {}
        invariant todo <= stores.Keys
        invariant Valid()
        invariant forall u | u in todo :: stores[u].contents == old(stores[u].contents)
        invariant forall u | u in stores && u !in todo :: stores[u].contents == old(stores[u].contents) - {e}
        decreases todo
      {
        var t :| t in todo;
        label Before:
        RemoveFromStore(t, e);
        forall u | u in stores && u !in todo - {t}
          ensures stores[u].contents == old(stores[u].contents) - {e}
        {
          if u != t {
            assert stores[u].contents == old@Before(stores[u].contents);
          }
        }
        todo := todo - {t};
      }
    }

    /** `remove_entity` for each of `queued` in turn, as the second pass of `flush_queue` does. */
    method RemoveEntities(queued: seq<nat>)
      requires Valid()
      modifies Repr
      ensures Valid()
      ensures forall t | t in stores :: stores[t].contents == Without(old(stores[t].contents), queued)
    {
      for i := 0 to |queued|
        invariant Valid()
        invariant forall t | t in stores :: stores[t].contents == Without(old(stores[t].contents), queued[..i])
      {
        assert queued[..i + 1][..i] == queued[..i];
        RemoveEntity(queued[i]);
      }
      assert queued[..|queued|] == queued;
    }

    /** `remove` on the store of type `t`, which leaves the manager valid. */
    method RemoveFromStore(t: Tag, e: nat)
      requires Valid() && t in stores
      modifies stores[t]
      ensures Valid()
      ensures stores[t].contents == old(stores[t].contents) - {e}
      ensures forall u | u in stores && u != t :: stores[u].contents == old(stores[u].contents)
    {
      stores[t].Remove(e);
    }

    /**
     * `add_component_to_entity`: adds to the store of the component's type,
     * creating that store first when there is none; an id that already has
     * a component of that type keeps the one it had.
     */
    method AddComponent(e: nat, c: Component)
      requires Valid()
      modifies this`stores, this`Repr, Repr
      ensures Valid() && old(Repr) <= Repr && fresh(Repr - old(Repr))
      ensures stores.Keys == old(stores.Keys) + {TagOf(c)}
      ensures forall t | t in old(stores) :: stores[t] == old(stores[t])
      ensures TagOf(c) !in old(stores) ==> fresh(stores[TagOf(c)]) && stores[TagOf(c)].contents == map[e := c]
      ensures TagOf(c) in old(stores) ==>
                stores[TagOf(c)].contents == if e in old(stores[TagOf(c)].contents) then old(stores[TagOf(c)].contents)
                                             else old(stores[TagOf(c)].contents)[e := c]
      ensures forall t | t in old(stores) && t != TagOf(c) :: stores[t].contents == old(stores[t].contents)
    {
      var t := TagOf(c);
      if t in stores {
        AddToStore(t, e, c);
        return;
      }
      CreateStore(e, c);
    }

    /** The creating branch of `add_component_to_entity`: a new store holding just `e`. */
    method CreateStore(e: nat, c: Component)
      requires Valid() && TagOf(c) !in stores
      modifies this`stores, this`Repr
      ensures Valid()
      ensures TagOf(c) in stores && stores == old(stores)[TagOf(c) := stores[TagOf(c)]]
      ensures Repr == old(Repr) + {stores[TagOf(c)]}
      ensures fresh(stores[TagOf(c)]) && stores[TagOf(c)].contents == map[e := c]
    {
      var store := NewStoreWith(e, c);
      stores := stores[TagOf(c) := store];
      Repr := Repr + {store};
    }

    /** `add` on the store of the component's type, which leaves the manager valid. */
    method AddToStore(t: Tag, e: nat, c: Component)
      requires Valid() && t in stores && OfTag(c, t)
      modifies stores[t]
      ensures Valid()
      ensures stores[t].contents == if e in old(stores[t].contents) then old(stores[t].contents) else old(stores[t].contents)[e := c]
      ensures forall u | u in stores && u != t :: stores[u].contents == old(stores[u].contents)
    {
      stores[t].Add(e, c);
    }

    /** Writing through `get_mut` on the store of type `t`, which leaves the manager valid. */
    method ReplaceComponent(t: Tag, e: nat, c: Component)
      requires Valid() && t in stores && stores[t].Has(e) && OfTag(c, t)
      modifies stores[t]
      ensures Valid()
      ensures stores[t].entities == old(stores[t].entities) && stores[t].entityMap == old(stores[t].entityMap)
      ensures stores[t].contents == old(stores[t].contents)[e := c]
      ensures forall u | u in stores && u != t :: stores[u].contents == old(stores[u].contents)
    {
      stores[t].Replace(e, c);
    }

    /** `remove_component_from_entity`: removes `e` from the store of type `t`, if there is one. */
    method RemoveComponent(e: nat, t: Tag)
      requires Valid()
      modifies Repr
      ensures Valid()
      ensures t in stores ==> stores[t].contents == old(stores[t].contents) - {e}
      ensures forall u | u in stores && u != t :: stores[u].contents == old(stores[u].contents)
    {
      if t in stores {
        RemoveFromStore(t, e);
      }
    }

    /** `borrow_components`: the store of type `t`, if one was created. */
    function BorrowComponents(t: Tag): (r: Option<ComponentStore<Component>>)
      reads this
      ensures r.Some? <==> t in stores
      ensures r.Some? ==> r.value == stores[t]
    {
      if t in stores then Some(stores[t]) else None
    }

    /**
     * `get_entities_with`: the ids of the store of type `t`, in store order
     * (none without a store), and whether there are any.
     */
    method GetEntitiesWith(t: Tag) returns (entities: seq<nat>, found: bool)
      requires Valid()
      ensures t in stores ==> entities == stores[t].entities
      ensures t !in stores ==> entities == []
      ensures forall e :: e in entities <==> HasComponent(t, e)
      ensures found <==> |entities| > 0
    {
      entities := [];
      if t in stores {
        entities := entities + stores[t].entities;
      }
      found := |entities| > 0;
    }

    /**
     * `get_entities_with_both`: empty without both stores; otherwise the
     * ids of the first store, in its order, that the second store has.
     * Both types are borrowed at once, so they must differ.
     */
    method GetEntitiesWithBoth(t1: Tag, t2: Tag) returns (entities: seq<nat>, found: bool)
      requires Valid() && t1 != t2
      ensures t1 !in stores || t2 !in stores ==> entities == []
      ensures t1 in stores && t2 in stores ==> entities == Both(stores[t1].entities, stores[t2].entityMap.Keys)
      ensures found <==> |entities| > 0
    {
      entities := [];
      if t1 !in stores || t2 !in stores {
        return [], false;
      }
      var first, second := stores[t1], stores[t2];
      for i := 0 to |first.entities|
        invariant entities == Both(first.entities[..i], second.entityMap.Keys)
      {
        assert first.entities[..i + 1][..i] == first.entities[..i];
        if second.Has(first.entities[i]) {
          entities := entities + [first.entities[i]];
        }
      }
      assert first.entities[..|first.entities|] == first.entities;
      found := |entities| > 0;
    }
  }

  /** The ids `get_entities_with_both` lists are exactly those with both components, each once. */
  lemma BothListsHolders(m: EntityManager, t1: Tag, t2: Tag, e: nat)
    requires m.Valid() && t1 in m.stores && t2 in m.stores
    ensures e in Both(m.stores[t1].entities, m.stores[t2].entityMap.Keys) <==> m.HasComponent(t1, e) && m.HasComponent(t2, e)
    ensures var l := Both(m.stores[t1].entities, m.stores[t2].entityMap.Keys);
            forall i, j | 0 <= i < j < |l| :: l[i] != l[j]
  {
    BothExact(m.stores[t1].entities, m.stores[t2].entityMap.Keys, e);
    BothDistinct(m.stores[t1].entities, m.stores[t2].entityMap.Keys);
  }

  /** `CommandQueue`: the ids to remove at the next flush, in the order they were queued. */
  class CommandQueue {
    var entitiesToRemove: seq<nat>

    /** `CommandQueue::new`: nothing queued. */
    constructor ()
      ensures entitiesToRemove == []
    {
      entitiesToRemove := [];
    }

    /** `remove_entity`: queues the id; the same id may be queued more than once. */
    method RemoveEntity(e: nat)
      modifies this
      ensures entitiesToRemove == old(entitiesToRemove) + [e]
    {
      entitiesToRemove := entitiesToRemove + [e];
    }

    /** `clear`. */
    method Clear()
      modifies this
      ensures entitiesToRemove == []
    {
      entitiesToRemove := [];
    }
  }
}
