/** The `Health` component (src/entities/health.rs): hit points that damage lowers without a floor. */
module HealthComponent {

  /** `Health`: `Health::new(a)` stores `a`, and `amount()` reads it back. */
  datatype Health = Health(amount: int) {

    /** `take_damage`: lowers the amount by exactly `damage`; nothing keeps it from going negative. */
    function TakeDamage(damage: int): (r: Health)
      ensures r.amount < amount <==> damage > 0
    {
      Health(amount - damage)
    }

    /** Whether the health system removes the entity: no hit points left. */
    predicate Depleted() {
      amount <= 0
    }
  }

  /** Damage accumulates: two hits lower the amount by their sum. */
  lemma {:induction false} DamageAccumulates(h: Health, hits: seq<int>)
    ensures ApplyHits(h, hits).amount == h.amount - SumOf(hits)
    decreases |hits|
  {
    if hits != [] {
      DamageAccumulates(h.TakeDamage(hits[0]), hits[1..]);
    }
  }

  /** The health after taking each hit of `hits` in order. */
  function ApplyHits(h: Health, hits: seq<int>): Health
    decreases |hits|
  {
    if hits == [] then h else ApplyHits(h.TakeDamage(hits[0]), hits[1..])
  }

  function SumOf(hits: seq<int>): int
    decreases |hits|
  {
    if hits == [] then 0 else hits[0] + SumOf(hits[1..])
  }

  /** Enough damage depletes any health, since the amount is not clamped. */
  lemma OverkillDepletes(h: Health, damage: int)
    requires damage >= h.amount
    ensures h.TakeDamage(damage).Depleted()
    ensures h.TakeDamage(damage).amount == h.amount - damage
  {
  }
}

/** `HealthSystem` (src/entities/health.rs): queues every entity whose health is used up. */
module HealthSystem {
  import opened HealthComponent
  import opened Ecs
  import opened World

  /** The ids of `entities`, in order, whose stored Health is used up. */
  function DepletedOf(entities: seq<nat>, healths: map<nat, Component>): seq<nat>
    decreases |entities|
  {
    if entities == [] then []
    else
      var e := entities[|entities| - 1];
      DepletedOf(entities[..|entities| - 1], healths)
      + (if e in healths && healths[e].HealthC? && healths[e].health.Depleted() then [e] else [])
  }

  /** An id is queued exactly when it is listed and its health is at or below zero. */
  lemma {:induction false} DepletedOfExact(entities: seq<nat>, healths: map<nat, Component>, e: nat)
    ensures e in DepletedOf(entities, healths) <==>
            e in entities && e in healths && healths[e].HealthC? && healths[e].health.amount <= 0
    decreases |entities|
  {
    if entities != [] {
      var init := entities[..|entities| - 1];
      DepletedOfExact(init, healths, e);
      assert entities == init + [entities[|entities| - 1]];
    }
  }

  /** Ids come out in the order they are listed: the result is a subsequence of `entities`, so never longer. */
  lemma {:induction false} DepletedOfShorter(entities: seq<nat>, healths: map<nat, Component>)
    ensures |DepletedOf(entities, healths)| <= |entities|
    decreases |entities|
  {
    if entities != [] {
      DepletedOfShorter(entities[..|entities| - 1], healths);
    }
  }

  /**
   * `HealthSystem::update`: the id buffer is refilled with the Health
   * holders in store order, and each whose amount is at or below zero is
   * queued for removal, in that order. Nothing else changes.
   */
  method Update(w: EcsState)
    requires w.Valid()
    modifies w`entityCache, w.queue
    ensures w.entityCache == if HealthTag in w.manager.stores then w.manager.stores[HealthTag].entities else []
    ensures HealthTag !in w.manager.stores ==> w.queue.entitiesToRemove == old(w.queue.entitiesToRemove)
    ensures HealthTag in w.manager.stores ==>
              w.queue.entitiesToRemove == old(w.queue.entitiesToRemove)
                                          + DepletedOf(w.manager.stores[HealthTag].entities, w.manager.stores[HealthTag].contents)
  {
    var found;
    w.entityCache, found := w.manager.GetEntitiesWith(HealthTag);
    if !found {
      return;
    }
    QueueDepleted(w.manager.stores[HealthTag], w.queue, w.entityCache);
  }

  /** The loop of `HealthSystem::update`: each listed id whose health is used up is queued, in list order. */
  method QueueDepleted(healths: ComponentStore<Component>, queue: CommandQueue, cache: seq<nat>)
    requires healths.Valid()
    modifies queue
    ensures queue.entitiesToRemove == old(queue.entitiesToRemove) + DepletedOf(cache, healths.contents)
  {
    for i := 0 to |cache|
      invariant queue.entitiesToRemove == old(queue.entitiesToRemove) + DepletedOf(cache[..i], healths.contents)
    {
      assert cache[..i + 1][..i] == cache[..i];
      var entity := cache[i];
      match healths.Get(entity)
      case Some(HealthC(health)) =>
        if health.amount <= 0 {
          queue.RemoveEntity(entity);
        }
      case _ =>
    }
    assert cache[..|cache|] == cache;
  }
}
