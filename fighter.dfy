/** The `Fighter` component (src/entities/fighter.rs): attack damage, cooldown and the running timer. */
module FighterComponent {

  datatype Fighter = Fighter(attackDamage: int, attackCooldown: real, attackTimer: real) {

    /** `update`: the timer runs down by the elapsed time. */
    function Update(deltaTime: real): (r: Fighter)
      ensures r.attackTimer == attackTimer - deltaTime
      ensures r.attackDamage == attackDamage && r.attackCooldown == attackCooldown
    {
      this.(attackTimer := attackTimer - deltaTime)
    }

    /**
     * `get_attack`: while the timer is positive it deals 0 and changes
     * nothing; otherwise it restarts the timer at the cooldown and deals
     * the attack damage.
     */
    function GetAttack(): (r: Attack)
      ensures attackTimer > 0.0 ==> r.damage == 0 && r.fighter == this
      ensures attackTimer <= 0.0 ==> r.damage == attackDamage && r.fighter == this.(attackTimer := attackCooldown)
    {
      if attackTimer > 0.0 then Attack(this, 0)
      else Attack(this.(attackTimer := attackCooldown), attackDamage)
    }
  }

  /** What `get_attack` leaves behind: the fighter with its new timer, and the damage dealt. */
  datatype Attack = Attack(fighter: Fighter, damage: int)

  /** `Fighter::new`: the damage and cooldown as given, and the timer at zero. */
  function NewFighter(attackDamage: int, attackCooldown: real): (r: Fighter)
    ensures r.attackDamage == attackDamage && r.attackCooldown == attackCooldown
    ensures r.attackTimer == 0.0
  {
    Fighter(attackDamage, attackCooldown, 0.0)
  }

  /** A new fighter's first attack lands. */
  lemma FirstAttackLands(attackDamage: int, attackCooldown: real)
    ensures NewFighter(attackDamage, attackCooldown).GetAttack().damage == attackDamage
  {
  }

  /** With a positive cooldown, a second attack with no `update` in between deals nothing. */
  lemma CooldownBlocksSecondAttack(f: Fighter)
    requires f.attackCooldown > 0.0
    ensures f.GetAttack().fighter.GetAttack().damage == 0
  {
  }

  /** After a landed attack, updates totalling at least the cooldown make the next attack land again. */
  lemma CooldownElapses(f: Fighter, dt1: real, dt2: real)
    requires f.attackTimer <= 0.0 && dt1 + dt2 >= f.attackCooldown
    ensures f.GetAttack().fighter.Update(dt1).Update(dt2).GetAttack().damage == f.attackDamage
  {
  }
}

/**
 * `FighterSystem` (src/entities/fighter.rs): every Fighter with an Actor
 * runs its cooldown down, looks for a target and, when it finds one, hits
 * it with what `get_attack` deals.
 */
module FighterSystem {
  import opened Wrappers
  import opened Chunks
  import opened Actors
  import opened HealthComponent
  import opened FighterComponent
  import opened Ecs
  import opened World
  import In = Input

  /**
   * Whether `entity`, whose actor is `a`, can hit `n`: another id with a
   * Health and an Actor, whose box meets `a`'s, or, for a player
   * (`aiming`), that the aim ray from `a` meets.
   */
  predicate CanHit(actors: map<nat, Component>, healthIds: set<nat>, entity: nat, a: Actor,
                   aiming: bool, rayMeets: (Actor, Actor) -> bool, n: nat)
  {
    && n != entity && n in healthIds && n in actors && actors[n].ActorC?
    && if aiming then rayMeets(a, actors[n].actor) else Intersects(actors[n].actor, a.position, a.size)
  }

  /**
   * The ids a fighter looks at: for a player, what the chunk's ray cast
   * hits when the left button was pressed this tick (nothing otherwise);
   * for anyone else, the ids over its actor's corner columns.
   */
  function Candidates(columns: Columns, blockSize: int, a: Actor, aiming: bool, clicked: bool,
                      rayHits: Actor -> set<nat>): set<nat>
    requires blockSize > 0
  {
    if aiming then (if clicked then rayHits(a) else {})
    else NearbyOf(columns, Corners(a.size, a.position, blockSize))
  }

  /** `target` is what the scan may return: a candidate it can hit, or nothing when no candidate qualifies. */
  predicate TargetOk(candidates: set<nat>, actors: map<nat, Component>, healthIds: set<nat>, entity: nat, a: Actor,
                     aiming: bool, rayMeets: (Actor, Actor) -> bool, target: Option<nat>)
  {
    match target
    case Some(n) => n in candidates && CanHit(actors, healthIds, entity, a, aiming, rayMeets, n)
    case None => forall n | n in candidates :: !CanHit(actors, healthIds, entity, a, aiming, rayMeets, n)
  }

  /**
   * `t` is a target `e` may pick: a target the scan may return, or
   * nothing for an id without an actor, where the source panics.
   */
  predicate Picked(actors: map<nat, Component>, healthIds: set<nat>, columns: Columns, blockSize: int, players: set<nat>,
                   clicked: bool, rayHits: Actor -> set<nat>, rayMeets: (Actor, Actor) -> bool, e: nat, t: Option<nat>)
    requires blockSize > 0
  {
    if e in actors && actors[e].ActorC? then
      var a := actors[e].actor;
      TargetOk(Candidates(columns, blockSize, a, e in players, clicked, rayHits), actors, healthIds, e, a, e in players, rayMeets, t)
    else t.None?
  }

  /** The targets of a whole tick: entry i is a target `cache[i]` may pick. */
  predicate Aimed(actors: map<nat, Component>, healthIds: set<nat>, columns: Columns, blockSize: int, players: set<nat>,
                  clicked: bool, rayHits: Actor -> set<nat>, rayMeets: (Actor, Actor) -> bool,
                  cache: seq<nat>, targets: seq<Option<nat>>)
    requires blockSize > 0
  {
    && |targets| == |cache|
    && forall i | 0 <= i < |cache| ::
         Picked(actors, healthIds, columns, blockSize, players, clicked, rayHits, rayMeets, cache[i], targets[i])
  }

  /**
   * One fighter's turn: its timer runs down by `deltaTime`; when it has a
   * target with a Health, it attacks and the target takes the damage.
   */
  function FightStep(fighters: map<nat, Component>, healths: map<nat, Component>, e: nat, target: Option<nat>,
                     deltaTime: real): (map<nat, Component>, map<nat, Component>)
  {
    if e in fighters && fighters[e].FighterC? then
      var f := fighters[e].fighter.Update(deltaTime);
      if target.Some? && target.value in healths && healths[target.value].HealthC? then
        var attack := f.GetAttack();
        (fighters[e := FighterC(attack.fighter)],
         healths[target.value := HealthC(healths[target.value].health.TakeDamage(attack.damage))])
      else (fighters[e := FighterC(f)], healths)
    else (fighters, healths)
  }

  /** The fighters and healths after each of `cache`, in order, has had its turn against `targets`. */
  function Fight(fighters: map<nat, Component>, healths: map<nat, Component>, cache: seq<nat>, targets: seq<Option<nat>>,
                 deltaTime: real): (map<nat, Component>, map<nat, Component>)
    requires |targets| == |cache|
    decreases |cache|
  {
    if cache == [] then (fighters, healths)
    else
      var prev := Fight(fighters, healths, cache[..|cache| - 1], targets[..|cache| - 1], deltaTime);
      FightStep(prev.0, prev.1, cache[|cache| - 1], targets[|cache| - 1], deltaTime)
  }

  /** Every fighter holds `FighterC`, every health `HealthC`. */
  predicate Typed(fighters: map<nat, Component>, healths: map<nat, Component>) {
    && (forall e | e in fighters :: fighters[e].FighterC?)
    && (forall h | h in healths :: healths[h].HealthC?)
  }

  /** A tick keeps the ids and the component types of both stores. */
  lemma {:induction false} FightKeeps(fighters: map<nat, Component>, healths: map<nat, Component>, cache: seq<nat>,
                                      targets: seq<Option<nat>>, deltaTime: real)
    requires |targets| == |cache| && Typed(fighters, healths)
    ensures var r := Fight(fighters, healths, cache, targets, deltaTime);
            r.0.Keys == fighters.Keys && r.1.Keys == healths.Keys && Typed(r.0, r.1)
    decreases |cache|
  {
    if cache != [] {
      FightKeeps(fighters, healths, cache[..|cache| - 1], targets[..|cache| - 1], deltaTime);
    }
  }

  /** Only targets are hurt: a health no entry of `targets` names is left as it was. */
  lemma {:induction false} FightSpares(fighters: map<nat, Component>, healths: map<nat, Component>, cache: seq<nat>,
                                       targets: seq<Option<nat>>, deltaTime: real, h: nat)
    requires |targets| == |cache| && h in healths
    requires forall i | 0 <= i < |targets| :: targets[i] != Some(h)
    ensures var r := Fight(fighters, healths, cache, targets, deltaTime);
            h in r.1 && r.1[h] == healths[h]
    decreases |cache|
  {
    if cache != [] {
      FightSpares(fighters, healths, cache[..|cache| - 1], targets[..|cache| - 1], deltaTime, h);
      assert targets[|cache| - 1] != Some(h);
    }
  }

  /** Every fighter deals non-negative damage. */
  predicate Harmless(fighters: map<nat, Component>) {
    forall e | e in fighters && fighters[e].FighterC? :: fighters[e].fighter.attackDamage >= 0
  }

  /** With non-negative damage, no health goes up in a tick. */
  lemma {:induction false} FightNeverHeals(fighters: map<nat, Component>, healths: map<nat, Component>, cache: seq<nat>,
                                           targets: seq<Option<nat>>, deltaTime: real, h: nat)
    requires |targets| == |cache| && Harmless(fighters) && h in healths && healths[h].HealthC?
    ensures var r := Fight(fighters, healths, cache, targets, deltaTime);
            && Harmless(r.0)
            && h in r.1 && r.1[h].HealthC? && r.1[h].health.amount <= healths[h].health.amount
    decreases |cache|
  {
    if cache != [] {
      var prev := Fight(fighters, healths, cache[..|cache| - 1], targets[..|cache| - 1], deltaTime);
      FightNeverHeals(fighters, healths, cache[..|cache| - 1], targets[..|cache| - 1], deltaTime, h);
      var e := cache[|cache| - 1];
      if e in prev.0 && prev.0[e].FighterC? {
        var f := prev.0[e].fighter.Update(deltaTime);
        assert f.GetAttack().damage >= 0;
      }
    }
  }

  /**
   * Each listed fighter's timer is run down exactly once: a fighter listed
   * once ends as its old self after one `update`, followed by one
   * `get_attack` when it hit; one not listed is left as it was.
   */
  lemma {:induction false} FightTimers(fighters: map<nat, Component>, healths: map<nat, Component>, cache: seq<nat>,
                                       targets: seq<Option<nat>>, deltaTime: real, e: nat)
    requires |targets| == |cache| && e in fighters && fighters[e].FighterC?
    requires forall i, j | 0 <= i < j < |cache| :: cache[i] != cache[j]
    ensures var r := Fight(fighters, healths, cache, targets, deltaTime);
            var once := fighters[e].fighter.Update(deltaTime);
            && e in r.0
            && (e in cache ==> r.0[e] == FighterC(once) || r.0[e] == FighterC(once.GetAttack().fighter))
            && (e !in cache ==> r.0[e] == fighters[e])
    decreases |cache|
  {
    if cache != [] {
      var init := cache[..|cache| - 1];
      var last := cache[|cache| - 1];
      FightTimers(fighters, healths, init, targets[..|cache| - 1], deltaTime, e);
      assert cache == init + [last];
      if last == e {
        assert e !in init by {
          forall i | 0 <= i < |init| ensures init[i] != e {
            assert init[i] == cache[i];
          }
        }
      }
    }
  }

  /** The `continue`s of the scan for one candidate `n`. */
  method Hits(actors: ComponentStore<Component>, healths: ComponentStore<Component>, entity: nat, a: Actor,
              aiming: bool, rayMeets: (Actor, Actor) -> bool, n: nat) returns (b: bool)
    requires actors.Valid() && healths.Valid()
    ensures b == CanHit(actors.contents, healths.contents.Keys, entity, a, aiming, rayMeets, n)
  {
    if n == entity || !healths.Has(n) {
      return false;
    }
    match actors.Get(n) {
      case Some(ActorC(other)) =>
        b := if aiming then rayMeets(a, other) else Intersects(other, a.position, a.size);
      case _ =>
        b := false;
    }
  }

  /**
   * The loops of `get_target_proximity` and `get_target_raycast`: the
   * candidates are looked at in hash-set order and the first one that can
   * be hit is the target.
   */
  method FindTarget(actors: ComponentStore<Component>, healths: ComponentStore<Component>, candidates: set<nat>,
                    entity: nat, a: Actor, aiming: bool, rayMeets: (Actor, Actor) -> bool) returns (target: Option<nat>)
    requires actors.Valid() && healths.Valid()
    ensures TargetOk(candidates, actors.contents, healths.contents.Keys, entity, a, aiming, rayMeets, target)
  {
    var todo := candidates;
    while todo != {}
      invariant todo <= candidates
      invariant forall n | n in candidates && n !in todo :: !CanHit(actors.contents, healths.contents.Keys, entity, a, aiming, rayMeets, n)
      decreases todo
    {
      var n :| n in todo;
      var hit := Hits(actors, healths, entity, a, aiming, rayMeets, n);
      if hit {
        return Some(n);
      }
      todo := todo - {n};
    }
    return None;
  }

  /**
   * `get_target`: a player scans what its aim ray hits, anyone else the
   * ids over its corner columns; an id without an actor has no target.
   */
  method Aim(actors: ComponentStore<Component>, healths: ComponentStore<Component>,
             players: Option<ComponentStore<Component>>, chunk: Chunk, clicked: bool,
             rayHits: Actor -> set<nat>, rayMeets: (Actor, Actor) -> bool, entity: nat, ghost playerIds: set<nat>)
    returns (target: Option<nat>)
    requires actors.Valid() && healths.Valid() && chunk.Valid()
    requires players.Some? ==> players.value.Valid()
    requires playerIds == if players.Some? then players.value.contents.Keys else {}
    ensures Picked(actors.contents, healths.contents.Keys, chunk.columns, chunk.blockSize, playerIds, clicked, rayHits, rayMeets, entity, target)
  {
    var aiming := players.Some? && players.value.Has(entity);
    assert aiming <==> entity in playerIds;
    match actors.Get(entity) {
      case Some(ActorC(a)) =>
        var candidates: set<nat>;
        if aiming {
          candidates := if clicked then rayHits(a) else {};
        } else {
          candidates := GetNearbyEntities(a, chunk);
        }
        target := FindTarget(actors, healths, candidates, entity, a, aiming, rayMeets);
      case _ =>
        target := None;
    }
  }

  /**
   * A fighter's turn once its target is known, computed without writing:
   * the fighter to store back, and the hit target with its new health, if any.
   */
  method Swing(fighters: ComponentStore<Component>, healths: ComponentStore<Component>, entity: nat, target: Option<nat>,
               deltaTime: real)
    returns (fighterWrite: Option<Component>, hit: Option<(nat, Component)>)
    requires fighters.Valid() && healths.Valid()
    ensures var r := FightStep(fighters.contents, healths.contents, entity, target, deltaTime);
            && (fighterWrite.Some? ==> fighters.Has(entity) && fighterWrite.value.FighterC? && r.0 == fighters.contents[entity := fighterWrite.value])
            && (fighterWrite.None? ==> r.0 == fighters.contents)
            && (hit.Some? ==> healths.Has(hit.value.0) && hit.value.1.HealthC? && r.1 == healths.contents[hit.value.0 := hit.value.1])
            && (hit.None? ==> r.1 == healths.contents)
  {
    fighterWrite, hit := None, None;
    match fighters.Get(entity) {
      case Some(FighterC(fighter)) =>
        var f := fighter.Update(deltaTime);
        if target.Some? {
          match healths.Get(target.value) {
            case Some(HealthC(health)) =>
              var attack := f.GetAttack();
              f := attack.fighter;
              hit := Some((target.value, HealthC(health.TakeDamage(attack.damage))));
            case _ =>
          }
        }
        fighterWrite := Some(FighterC(f));
      case _ =>
    }
  }

  /** Writing back one turn's fighter and hit target. */
  method Store(fighters: ComponentStore<Component>, healths: ComponentStore<Component>, entity: nat,
               fighterWrite: Option<Component>, hit: Option<(nat, Component)>)
    requires fighters.Valid() && healths.Valid() && fighters != healths
    requires fighterWrite.Some? ==> fighters.Has(entity) && fighterWrite.value.FighterC?
    requires hit.Some? ==> healths.Has(hit.value.0) && hit.value.1.HealthC?
    requires forall c | c in fighters.components :: c.FighterC?
    requires forall c | c in healths.components :: c.HealthC?
    modifies fighters, healths
    ensures fighters.Valid() && healths.Valid()
    ensures fighters.entities == old(fighters.entities) && healths.entities == old(healths.entities)
    ensures forall c | c in fighters.components :: c.FighterC?
    ensures forall c | c in healths.components :: c.HealthC?
    ensures fighters.contents == if fighterWrite.Some? then old(fighters.contents)[entity := fighterWrite.value] else old(fighters.contents)
    ensures healths.contents == if hit.Some? then old(healths.contents)[hit.value.0 := hit.value.1] else old(healths.contents)
  {
    if fighterWrite.Some? {
      fighters.Replace(entity, fighterWrite.value);
    }
    if hit.Some? {
      healths.Replace(hit.value.0, hit.value.1);
    }
  }

  /** A fighter's turn against a known target, written back: the stores step as `FightStep` says. */
  method Strike(fighters: ComponentStore<Component>, healths: ComponentStore<Component>, entity: nat, target: Option<nat>,
                deltaTime: real)
    requires fighters.Valid() && healths.Valid() && fighters != healths
    requires forall c | c in fighters.components :: c.FighterC?
    requires forall c | c in healths.components :: c.HealthC?
    modifies fighters, healths
    ensures fighters.Valid() && healths.Valid()
    ensures fighters.entities == old(fighters.entities) && healths.entities == old(healths.entities)
    ensures forall c | c in fighters.components :: c.FighterC?
    ensures forall c | c in healths.components :: c.HealthC?
    ensures healths.contents.Keys == old(healths.contents.Keys)
    ensures (fighters.contents, healths.contents) == FightStep(old(fighters.contents), old(healths.contents), entity, target, deltaTime)
  {
    var fighterWrite, hit := Swing(fighters, healths, entity, target, deltaTime);
    Store(fighters, healths, entity, fighterWrite, hit);
  }

  /** One more turn extends the fold by one step. */
  lemma FightAppend(fighters: map<nat, Component>, healths: map<nat, Component>, cache: seq<nat>, targets: seq<Option<nat>>,
                    e: nat, t: Option<nat>, deltaTime: real)
    requires |targets| == |cache|
    ensures var prev := Fight(fighters, healths, cache, targets, deltaTime);
            Fight(fighters, healths, cache + [e], targets + [t], deltaTime) == FightStep(prev.0, prev.1, e, t, deltaTime)
  {
    assert (cache + [e])[..|cache|] == cache;
    assert (targets + [t])[..|cache|] == targets;
  }

  /** One more target the scan may return extends the tick's targets. */
  lemma AimedAppend(actors: map<nat, Component>, healthIds: set<nat>, columns: Columns, blockSize: int, players: set<nat>,
                    clicked: bool, rayHits: Actor -> set<nat>, rayMeets: (Actor, Actor) -> bool,
                    cache: seq<nat>, targets: seq<Option<nat>>, e: nat, t: Option<nat>)
    requires blockSize > 0
    requires Aimed(actors, healthIds, columns, blockSize, players, clicked, rayHits, rayMeets, cache, targets)
    requires Picked(actors, healthIds, columns, blockSize, players, clicked, rayHits, rayMeets, e, t)
    ensures Aimed(actors, healthIds, columns, blockSize, players, clicked, rayHits, rayMeets, cache + [e], targets + [t])
  {
    var c, ts := cache + [e], targets + [t];
    forall i | 0 <= i < |c|
      ensures Picked(actors, healthIds, columns, blockSize, players, clicked, rayHits, rayMeets, c[i], ts[i])
    {
      if i < |cache| {
        assert c[i] == cache[i] && ts[i] == targets[i];
      }
    }
  }

  /**
   * The state of the loop after the turns of `done` against `targets`:
   * both stores valid, with their ids and component types kept, the
   * targets ones the scans may return, and the components those of the fold.
   */
  ghost predicate Turns(actors: map<nat, Component>, fighters: ComponentStore<Component>, healths: ComponentStore<Component>,
                        columns: Columns, blockSize: int, playerIds: set<nat>, clicked: bool,
                        rayHits: Actor -> set<nat>, rayMeets: (Actor, Actor) -> bool,
                        f0: map<nat, Component>, h0: map<nat, Component>, fe0: seq<nat>, he0: seq<nat>,
                        done: seq<nat>, targets: seq<Option<nat>>, deltaTime: real)
    reads fighters, healths
    requires blockSize > 0
  {
    && fighters.Valid() && healths.Valid()
    && fighters.entities == fe0 && healths.entities == he0
    && healths.contents.Keys == h0.Keys
    && (forall c | c in fighters.components :: c.FighterC?)
    && (forall c | c in healths.components :: c.HealthC?)
    && Aimed(actors, h0.Keys, columns, blockSize, playerIds, clicked, rayHits, rayMeets, done, targets)
    && (fighters.contents, healths.contents) == Fight(f0, h0, done, targets, deltaTime)
  }

  /** One turn of the loop of `FighterSystem::update`: compute, then write back. */
  method FightTurn(actors: ComponentStore<Component>, fighters: ComponentStore<Component>, healths: ComponentStore<Component>,
                   players: Option<ComponentStore<Component>>, chunk: Chunk, clicked: bool,
                   rayHits: Actor -> set<nat>, rayMeets: (Actor, Actor) -> bool, entity: nat, deltaTime: real,
                   ghost playerIds: set<nat>, ghost f0: map<nat, Component>, ghost h0: map<nat, Component>,
                   ghost fe0: seq<nat>, ghost he0: seq<nat>, ghost done: seq<nat>, ghost targets: seq<Option<nat>>)
    returns (target: Option<nat>)
    requires actors.Valid() && chunk.Valid()
    requires players.Some? ==> players.value.Valid()
    requires playerIds == if players.Some? then players.value.contents.Keys else {}
    requires fighters != healths && fighters != actors && healths != actors
    requires Turns(actors.contents, fighters, healths, chunk.columns, chunk.blockSize, playerIds, clicked, rayHits, rayMeets,
                   f0, h0, fe0, he0, done, targets, deltaTime)
    modifies fighters, healths
    ensures Turns(actors.contents, fighters, healths, chunk.columns, chunk.blockSize, playerIds, clicked, rayHits, rayMeets,
                  f0, h0, fe0, he0, done + [entity], targets + [target], deltaTime)
  {
    target := Aim(actors, healths, players, chunk, clicked, rayHits, rayMeets, entity, playerIds);
    AimedAppend(actors.contents, h0.Keys, chunk.columns, chunk.blockSize, playerIds, clicked, rayHits, rayMeets, done, targets, entity, target);
    FightAppend(f0, h0, done, targets, entity, target, deltaTime);
    Strike(fighters, healths, entity, target, deltaTime);
  }

  /** The loop of `FighterSystem::update` over the ids `cache`, on the stores it borrows. */
  method FightAll(actors: ComponentStore<Component>, fighters: ComponentStore<Component>, healths: ComponentStore<Component>,
                  players: Option<ComponentStore<Component>>, chunk: Chunk, clicked: bool,
                  rayHits: Actor -> set<nat>, rayMeets: (Actor, Actor) -> bool, cache: seq<nat>, deltaTime: real,
                  ghost playerIds: set<nat>)
    returns (ghost targets: seq<Option<nat>>)
    requires actors.Valid() && fighters.Valid() && healths.Valid() && chunk.Valid()
    requires players.Some? ==> players.value.Valid() && players.value != fighters && players.value != healths
    requires playerIds == if players.Some? then players.value.contents.Keys else {}
    requires fighters != healths && fighters != actors && healths != actors
    requires forall c | c in fighters.components :: c.FighterC?
    requires forall c | c in healths.components :: c.HealthC?
    modifies fighters, healths
    ensures Turns(actors.contents, fighters, healths, chunk.columns, chunk.blockSize, playerIds, clicked, rayHits, rayMeets,
                  old(fighters.contents), old(healths.contents), old(fighters.entities), old(healths.entities), cache, targets, deltaTime)
  {
    targets := [];
    for i := 0 to |cache|
      invariant Turns(actors.contents, fighters, healths, chunk.columns, chunk.blockSize, playerIds, clicked, rayHits, rayMeets,
                      old(fighters.contents), old(healths.contents), old(fighters.entities), old(healths.entities), cache[..i], targets, deltaTime)
    {
      var entity := cache[i];
      assert cache[..i + 1] == cache[..i] + [entity];
      var target := FightTurn(actors, fighters, healths, players, chunk, clicked, rayHits, rayMeets, entity, deltaTime,
                              playerIds, old(fighters.contents), old(healths.contents), old(fighters.entities), old(healths.entities),
                              cache[..i], targets);
      targets := targets + [target];
    }
    assert cache[..|cache|] == cache;
  }

  /** The ids of the players, when there is a Player store. */
  ghost function PlayerIds(m: EntityManager): set<nat>
    reads m, m.Repr
    requires m.Valid()
  {
    if PlayerTag in m.stores then m.stores[PlayerTag].contents.Keys else {}
  }

  /**
   * The manager after a tick of the fighters `cache` against `targets`,
   * from fighters `f0` and healths `h0`: the targets are ones the scans may
   * return, and the Fighter and Health stores hold what the fold computes.
   */
  ghost predicate Fought(m: EntityManager, columns: Columns, blockSize: int, playerIds: set<nat>, clicked: bool,
                         rayHits: Actor -> set<nat>, rayMeets: (Actor, Actor) -> bool,
                         f0: map<nat, Component>, h0: map<nat, Component>, cache: seq<nat>, targets: seq<Option<nat>>, deltaTime: real)
    reads m, m.Repr
    requires m.Valid() && blockSize > 0
  {
    && FighterTag in m.stores && ActorTag in m.stores && HealthTag in m.stores
    && Aimed(m.stores[ActorTag].contents, h0.Keys, columns, blockSize, playerIds, clicked, rayHits, rayMeets, cache, targets)
    && |targets| == |cache|
    && (m.stores[FighterTag].contents, m.stores[HealthTag].contents) == Fight(f0, h0, cache, targets, deltaTime)
  }

  /**
   * `FighterSystem::update`: the id buffer is refilled with the ids holding
   * both a Fighter and an Actor. With a Health store, each of them, in
   * order, runs its timer down and hits a target it may pick (see
   * `Picked`); the other stores, the queue and the occupancy stay as they were.
   */
  method Update(w: EcsState, chunk: Chunk, input: In.Input, deltaTime: real,
                rayHits: Actor -> set<nat>, rayMeets: (Actor, Actor) -> bool)
    returns (ghost targets: seq<Option<nat>>)
    requires w.Valid() && chunk.Valid()
    modifies w`entityCache, w.manager.Repr
    ensures w.Valid()
    ensures forall t | t in w.manager.stores && t != FighterTag && t != HealthTag ::
              w.manager.stores[t].contents == old(w.manager.stores[t].contents)
    ensures !(FighterTag in w.manager.stores && ActorTag in w.manager.stores) ==> w.entityCache == []
    ensures FighterTag in w.manager.stores && ActorTag in w.manager.stores ==>
              w.entityCache == Both(old(w.manager.stores[FighterTag].entities), old(w.manager.stores[ActorTag].entityMap.Keys))
    ensures !(FighterTag in w.manager.stores && ActorTag in w.manager.stores && HealthTag in w.manager.stores) ==>
              && (FighterTag in w.manager.stores ==> w.manager.stores[FighterTag].contents == old(w.manager.stores[FighterTag].contents))
              && (HealthTag in w.manager.stores ==> w.manager.stores[HealthTag].contents == old(w.manager.stores[HealthTag].contents))
    ensures FighterTag in w.manager.stores && ActorTag in w.manager.stores && HealthTag in w.manager.stores ==>
              Fought(w.manager, chunk.columns, chunk.blockSize, old(PlayerIds(w.manager)), old(input.WasMouseButtonPressed(In.Left)),
                     rayHits, rayMeets, old(w.manager.stores[FighterTag].contents), old(w.manager.stores[HealthTag].contents),
                     w.entityCache, targets, deltaTime)
  {
    var clicked := input.WasMouseButtonPressed(In.Left);
    var cache;
    cache, targets := Tick(w.manager, chunk, clicked, rayHits, rayMeets, deltaTime, PlayerIds(w.manager));
    w.entityCache := cache;
  }

  /** The body of `FighterSystem::update` on the manager, returning the refilled id buffer. */
  method Tick(m: EntityManager, chunk: Chunk, clicked: bool, rayHits: Actor -> set<nat>, rayMeets: (Actor, Actor) -> bool,
              deltaTime: real, ghost playerIds: set<nat>)
    returns (cache: seq<nat>, ghost targets: seq<Option<nat>>)
    requires m.Valid() && chunk.Valid()
    requires playerIds == PlayerIds(m)
    modifies m.Repr
    ensures m.Valid()
    ensures forall t | t in m.stores && t != FighterTag && t != HealthTag :: m.stores[t].contents == old(m.stores[t].contents)
    ensures !(FighterTag in m.stores && ActorTag in m.stores) ==> cache == []
    ensures FighterTag in m.stores && ActorTag in m.stores ==>
              cache == Both(old(m.stores[FighterTag].entities), old(m.stores[ActorTag].entityMap.Keys))
    ensures !(FighterTag in m.stores && ActorTag in m.stores && HealthTag in m.stores) ==>
              && (FighterTag in m.stores ==> m.stores[FighterTag].contents == old(m.stores[FighterTag].contents))
              && (HealthTag in m.stores ==> m.stores[HealthTag].contents == old(m.stores[HealthTag].contents))
    ensures FighterTag in m.stores && ActorTag in m.stores && HealthTag in m.stores ==>
              Fought(m, chunk.columns, chunk.blockSize, playerIds, clicked, rayHits, rayMeets,
                     old(m.stores[FighterTag].contents), old(m.stores[HealthTag].contents), cache, targets, deltaTime)
  {
    targets := [];
    var found;
    cache, found := m.GetEntitiesWithBoth(FighterTag, ActorTag);
    if found && HealthTag in m.stores {
      targets := FightIn(m, chunk, clicked, rayHits, rayMeets, cache, deltaTime, playerIds);
    }
  }

  /** The loop of `FighterSystem::update` once the Fighter, Actor and Health stores exist, leaving the manager valid. */
  method FightIn(m: EntityManager, chunk: Chunk, clicked: bool, rayHits: Actor -> set<nat>, rayMeets: (Actor, Actor) -> bool,
                 cache: seq<nat>, deltaTime: real, ghost playerIds: set<nat>)
    returns (ghost targets: seq<Option<nat>>)
    requires m.Valid() && chunk.Valid()
    requires playerIds == PlayerIds(m)
    requires FighterTag in m.stores && ActorTag in m.stores && HealthTag in m.stores
    modifies m.stores[FighterTag], m.stores[HealthTag]
    ensures m.Valid()
    ensures forall t | t in m.stores && t != FighterTag && t != HealthTag :: m.stores[t].contents == old(m.stores[t].contents)
    ensures Fought(m, chunk.columns, chunk.blockSize, playerIds, clicked, rayHits, rayMeets,
                   old(m.stores[FighterTag].contents), old(m.stores[HealthTag].contents), cache, targets, deltaTime)
  {
    var actors, fighters, healths := m.stores[ActorTag], m.stores[FighterTag], m.stores[HealthTag];
    var players := if PlayerTag in m.stores then Some(m.stores[PlayerTag]) else None;
    assert actors.tag == ActorTag && fighters.tag == FighterTag && healths.tag == HealthTag;
    targets := FightAll(actors, fighters, healths, players, chunk, clicked, rayHits, rayMeets, cache, deltaTime, playerIds);
    forall t | t in m.stores
      ensures m.StoreOk(m.stores[t], t)
      ensures t != FighterTag && t != HealthTag ==> m.stores[t].contents == old(m.stores[t].contents)
    {
      if t != FighterTag && t != HealthTag {
        assert m.stores[t].tag != FighterTag && m.stores[t].tag != HealthTag;
        assert old(m.StoreOk(m.stores[t], t));
      }
    }
  }
}
