/**
 * `ChaseAiSystem` (src/entities/chase_ai.rs): every chasing actor runs its
 * repath timer; when the timer passes `REPATH_TIME` the AI plans a fresh
 * path to the first player and pops its first waypoint. An AI with a
 * waypoint walks straight at it, through walls, and one without pops the
 * next. An AI that arrives within half a unit of its waypoint drops it and
 * ends the whole update: the AIs after it do nothing this tick.
 */
module ChaseAiSystem {
  import opened Wrappers
  import opened Vector
  import opened Chunks
  import opened Actors
  import opened AStar
  import opened ChaseAiComponent
  import opened Ecs
  import opened World

  /** The speed of a chasing actor, in units per second. */
  const ChaseSpeed: real := 4.0

  /** Whether the timer passes `REPATH_TIME` once `deltaTime` is added. */
  predicate Repaths(ai: ChaseAi, deltaTime: real) {
    ai.repathTimer + deltaTime > RepathTime
  }

  /**
   * The AI after its timer has run on: past `REPATH_TIME` the timer
   * restarts and the AI takes `plan`, its last waypoint popped as the next.
   */
  function Timed(ai: ChaseAi, plan: seq<Vec3>, deltaTime: real): (r: ChaseAi)
    ensures Repaths(ai, deltaTime) ==> r.repathTimer == 0.0
    ensures Repaths(ai, deltaTime) && plan == [] ==> r.next.None? && r.path == []
    ensures Repaths(ai, deltaTime) && plan != [] ==> r.next == Some(plan[|plan| - 1]) && r.path + [plan[|plan| - 1]] == plan
    ensures !Repaths(ai, deltaTime) ==> r == ai.(repathTimer := ai.repathTimer + deltaTime)
  {
    if Repaths(ai, deltaTime) then
      var p := Pop(plan);
      ChaseAi(0.0, p.1, p.0)
    else ai.(repathTimer := ai.repathTimer + deltaTime)
  }

  /**
   * Whether `p` is within half a unit of `q` on the ground plane: the
   * source compares the square root of the squared distance with 0.5,
   * here the squared distance is compared with 0.25.
   */
  predicate Near(p: Vec3, q: Vec3) {
    (q.x - p.x) * (q.x - p.x) + (q.z - p.z) * (q.z - p.z) < 0.25
  }

  /** The horizontal offset from `p` to `q`, before `normalize`. */
  function Heading(p: Vec3, q: Vec3): Vec3 {
    Vec3(q.x - p.x, 0.0, q.z - p.z)
  }

  /** Where an actor at `p` heading for `q` ends up after one step. */
  function Stepped(p: Vec3, q: Vec3, deltaTime: real, normalize: Vec3 -> Vec3): Vec3 {
    p.Add(normalize(Heading(p, q)).Scale(ChaseSpeed * deltaTime))
  }

  /** One AI's turn: the AI, its actor, the occupancy, and whether the update stops there. */
  datatype Outcome = Outcome(ai: ChaseAi, actor: Actor, columns: Columns, stop: bool)

  /**
   * The body of the loop of `ChaseAiSystem::update` for the AI `ai` of the
   * actor `a`, with `plan` the path a repath would produce.
   */
  function ChaseStep(ai: ChaseAi, a: Actor, columns: Columns, blockSize: int, entity: nat, plan: seq<Vec3>,
                     deltaTime: real, normalize: Vec3 -> Vec3): Outcome
    requires blockSize > 0
  {
    var t := Timed(ai, plan, deltaTime);
    match t.next
    case Some(next) =>
      if Near(a.position, next) then Outcome(t.(next := None), a, columns, true)
      else
        var target := Stepped(a.position, next, deltaTime, normalize);
        Outcome(t, a.(position := target),
                Relocated(columns, entity, Corners(a.size, a.position, blockSize), Some(Corners(a.size, target, blockSize))), false)
    case None =>
      var p := Pop(t.path);
      Outcome(t.(next := p.0, path := p.1), a, columns, false)
  }

  /**
   * A turn restarts the timer exactly when it passes `REPATH_TIME`, and
   * otherwise advances it by `deltaTime`; it stops the update exactly when
   * the waypoint after the timer is near; only a turn that walks moves the
   * actor, by `ChaseSpeed * deltaTime` along the normalized heading, and
   * it changes nothing of the actor but its position.
   */
  lemma ChaseStepCases(ai: ChaseAi, a: Actor, columns: Columns, blockSize: int, entity: nat, plan: seq<Vec3>,
                       deltaTime: real, normalize: Vec3 -> Vec3)
    requires blockSize > 0
    ensures var r := ChaseStep(ai, a, columns, blockSize, entity, plan, deltaTime, normalize);
            var t := Timed(ai, plan, deltaTime);
            && r.ai.repathTimer == (if ai.repathTimer + deltaTime > RepathTime then 0.0 else ai.repathTimer + deltaTime)
            && (r.stop <==> t.next.Some? && Near(a.position, t.next.value))
            && (r.stop ==> r.ai.next.None? && r.ai.path == t.path && r.actor == a && r.columns == columns)
            && (t.next.Some? && !r.stop ==>
                  r.ai == t && r.actor == a.(position := Stepped(a.position, t.next.value, deltaTime, normalize)))
            && (t.next.None? ==> r.actor == a && r.columns == columns && (r.ai.next, r.ai.path) == Pop(t.path))
            && r.actor == a.(position := r.actor.position)
  {
    var t := Timed(ai, plan, deltaTime);
    if Repaths(ai, deltaTime) {
      assert t.repathTimer == 0.0;
    }
  }

  /**
   * Waypoints are walked start-side first: after a repath that found a
   * path, the waypoint the AI heads for is the centre of an open cell one
   * step from its own cell, and the path left ends at the centre of the
   * goal's cell.
   */
  lemma RepathFirstStep(grid: seq<bool>, oob: bool, blockSize: int, ai: ChaseAi, position: Vec3, goal: Vec3,
                        plan: seq<Vec3>, deltaTime: real)
    requires |grid| == ChunkLen && blockSize > 0 && Repaths(ai, deltaTime)
    requires Planned(grid, oob, blockSize, Trunc3(position), Trunc3(goal), plan) && plan != []
    ensures var t := Timed(ai, plan, deltaTime);
            && t.next.Some?
            && (exists c :: Adjacent(TruncDiv3(Trunc3(position), blockSize), c) && !BlockAt(grid, oob, c)
                            && t.next.value == Center(c, blockSize))
            && (t.path != [] ==> t.path[0] == Center(TruncDiv3(Trunc3(goal), blockSize), blockSize))
  {
    PlanEnds(grid, oob, blockSize, Trunc3(position), Trunc3(goal), plan);
    var t := Timed(ai, plan, deltaTime);
    if t.path != [] {
      assert t.path[0] == (t.path + [plan[|plan| - 1]])[0];
    }
  }

  /** The AIs, the actors and the occupancy after a run of turns, whether a turn stopped it, and where each repath started. */
  datatype Chased = Chased(ais: map<nat, Component>, actors: map<nat, Component>, columns: Columns, stopped: bool,
                           starts: seq<Option<Vec3>>)

  /** Whether `e` holds an AI in `ais` and an actor in `actors`. */
  predicate Holds(ais: map<nat, Component>, actors: map<nat, Component>, e: nat) {
    e in ais && ais[e].ChaseAiC? && e in actors && actors[e].ActorC?
  }

  /**
   * The loop of `ChaseAiSystem::update` over `cache`, each id's repath
   * taking the plan at the same index of `plans`: after a turn that stops,
   * the turns left do nothing. `starts` records, per id, the position a
   * repath planned from.
   */
  function Chases(ais: map<nat, Component>, actors: map<nat, Component>, columns: Columns, blockSize: int,
                  cache: seq<nat>, plans: seq<seq<Vec3>>, deltaTime: real, normalize: Vec3 -> Vec3): Chased
    requires blockSize > 0 && |plans| == |cache|
    decreases |cache|
  {
    if cache == [] then Chased(ais, actors, columns, false, [])
    else
      var n := |cache| - 1;
      var prev := Chases(ais, actors, columns, blockSize, cache[..n], plans[..n], deltaTime, normalize);
      var e := cache[n];
      if prev.stopped || !Holds(prev.ais, prev.actors, e) then prev.(starts := prev.starts + [None])
      else
        var ai, a := prev.ais[e].ai, prev.actors[e].actor;
        var s := ChaseStep(ai, a, prev.columns, blockSize, e, plans[n], deltaTime, normalize);
        Chased(prev.ais[e := ChaseAiC(s.ai)], prev.actors[e := ActorC(s.actor)], s.columns, s.stop,
               prev.starts + [if Repaths(ai, deltaTime) then Some(a.position) else None])
  }

  /** One more turn extends the fold by one step. */
  lemma ChasesAppend(ais: map<nat, Component>, actors: map<nat, Component>, columns: Columns, blockSize: int,
                     cache: seq<nat>, plans: seq<seq<Vec3>>, e: nat, plan: seq<Vec3>, deltaTime: real, normalize: Vec3 -> Vec3)
    requires blockSize > 0 && |plans| == |cache|
    ensures var prev := Chases(ais, actors, columns, blockSize, cache, plans, deltaTime, normalize);
            Chases(ais, actors, columns, blockSize, cache + [e], plans + [plan], deltaTime, normalize)
            == if prev.stopped || !Holds(prev.ais, prev.actors, e) then prev.(starts := prev.starts + [None])
               else
                 var ai, a := prev.ais[e].ai, prev.actors[e].actor;
                 var s := ChaseStep(ai, a, prev.columns, blockSize, e, plan, deltaTime, normalize);
                 Chased(prev.ais[e := ChaseAiC(s.ai)], prev.actors[e := ActorC(s.actor)], s.columns, s.stop,
                        prev.starts + [if Repaths(ai, deltaTime) then Some(a.position) else None])
  {
    assert (cache + [e])[..|cache|] == cache;
    assert (plans + [plan])[..|plans|] == plans;
  }

  /** The fold records one start per id, keeps the ids of both maps, and leaves AIs and actors in them. */
  lemma {:induction false} ChasesKeep(ais: map<nat, Component>, actors: map<nat, Component>, columns: Columns, blockSize: int,
                                      cache: seq<nat>, plans: seq<seq<Vec3>>, deltaTime: real, normalize: Vec3 -> Vec3)
    requires blockSize > 0 && |plans| == |cache|
    requires forall e | e in ais :: ais[e].ChaseAiC?
    requires forall e | e in actors :: actors[e].ActorC?
    ensures var r := Chases(ais, actors, columns, blockSize, cache, plans, deltaTime, normalize);
            && |r.starts| == |cache| && r.ais.Keys == ais.Keys && r.actors.Keys == actors.Keys
            && (forall e | e in r.ais :: r.ais[e].ChaseAiC?)
            && (forall e | e in r.actors :: r.actors[e].ActorC?)
    decreases |cache|
  {
    if cache != [] {
      var n := |cache| - 1;
      ChasesKeep(ais, actors, columns, blockSize, cache[..n], plans[..n], deltaTime, normalize);
    }
  }

  /** `k` copies of `x`. */
  function Blank<T>(k: nat, x: T): (r: seq<T>)
    ensures |r| == k && forall i | 0 <= i < k :: r[i] == x
  {
    if k == 0 then [] else Blank(k - 1, x) + [x]
  }

  /** A turn after the run has stopped only records that it planned nothing. */
  lemma ChasesIdle(ais: map<nat, Component>, actors: map<nat, Component>, columns: Columns, blockSize: int,
                   cache: seq<nat>, plans: seq<seq<Vec3>>, deltaTime: real, normalize: Vec3 -> Vec3)
    requires blockSize > 0 && |plans| == |cache| && cache != []
    requires Chases(ais, actors, columns, blockSize, cache[..|cache| - 1], plans[..|cache| - 1], deltaTime, normalize).stopped
    ensures var prev := Chases(ais, actors, columns, blockSize, cache[..|cache| - 1], plans[..|cache| - 1], deltaTime, normalize);
            Chases(ais, actors, columns, blockSize, cache, plans, deltaTime, normalize) == prev.(starts := prev.starts + [None])
  {
  }

  /**
   * Once a turn has stopped the update, the turns after it change nothing:
   * the AIs, the actors and the occupancy stay, and no repath starts.
   */
  lemma {:induction false} ChasesStopped(ais: map<nat, Component>, actors: map<nat, Component>, columns: Columns, blockSize: int,
                                         cache: seq<nat>, plans: seq<seq<Vec3>>, more: seq<nat>, morePlans: seq<seq<Vec3>>,
                                         deltaTime: real, normalize: Vec3 -> Vec3)
    requires blockSize > 0 && |plans| == |cache| && |morePlans| == |more|
    requires Chases(ais, actors, columns, blockSize, cache, plans, deltaTime, normalize).stopped
    ensures var r := Chases(ais, actors, columns, blockSize, cache, plans, deltaTime, normalize);
            Chases(ais, actors, columns, blockSize, cache + more, plans + morePlans, deltaTime, normalize)
            == r.(starts := r.starts + Blank(|more|, None))
    decreases |more|
  {
    var r := Chases(ais, actors, columns, blockSize, cache, plans, deltaTime, normalize);
    if more == [] {
      assert cache + more == cache && plans + morePlans == plans;
      assert r.starts + Blank(0, None) == r.starts;
    } else {
      var n := |more| - 1;
      ChasesStopped(ais, actors, columns, blockSize, cache, plans, more[..n], morePlans[..n], deltaTime, normalize);
      var all, allPlans := cache + more, plans + morePlans;
      assert all[..|all| - 1] == cache + more[..n];
      assert allPlans[..|all| - 1] == plans + morePlans[..n];
      ChasesIdle(ais, actors, columns, blockSize, all, allPlans, deltaTime, normalize);
    }
  }

  /**
   * An id that has no turn keeps its AI and its actor, and the occupancy
   * of its columns is left as it was.
   */
  lemma {:induction false} ChasesSpare(ais: map<nat, Component>, actors: map<nat, Component>, columns: Columns, blockSize: int,
                                       cache: seq<nat>, plans: seq<seq<Vec3>>, deltaTime: real, normalize: Vec3 -> Vec3,
                                       d: nat, x: int, z: int)
    requires blockSize > 0 && |plans| == |cache| && d !in cache
    ensures var r := Chases(ais, actors, columns, blockSize, cache, plans, deltaTime, normalize);
            && (d in ais ==> d in r.ais && r.ais[d] == ais[d])
            && (d in actors ==> d in r.actors && r.actors[d] == actors[d])
            && (d in Occupants(r.columns, x, z) <==> d in Occupants(columns, x, z))
    decreases |cache|
  {
    if cache != [] {
      var n := |cache| - 1;
      var e := cache[n];
      assert cache == cache[..n] + [e];
      ChasesSpare(ais, actors, columns, blockSize, cache[..n], plans[..n], deltaTime, normalize, d, x, z);
      var prev := Chases(ais, actors, columns, blockSize, cache[..n], plans[..n], deltaTime, normalize);
      if !prev.stopped && Holds(prev.ais, prev.actors, e) {
        var ai, a := prev.ais[e].ai, prev.actors[e].actor;
        var t := Timed(ai, plans[n], deltaTime);
        if t.next.Some? && !Near(a.position, t.next.value) {
          var target := Stepped(a.position, t.next.value, deltaTime, normalize);
          RelocatedExact(prev.columns, e, Corners(a.size, a.position, blockSize), Some(Corners(a.size, target, blockSize)), x, z, d);
        }
      }
    }
  }

  /** Every repath of the run planned from its start to the player's position `goal` as `Planned` states. */
  ghost predicate PlansOk(grid: seq<bool>, oob: bool, blockSize: int, goal: Vec3, starts: seq<Option<Vec3>>, plans: seq<seq<Vec3>>)
    requires |grid| == ChunkLen && blockSize > 0 && |starts| == |plans|
  {
    forall i | 0 <= i < |starts| && starts[i].Some? :: Planned(grid, oob, blockSize, Trunc3(starts[i].value), Trunc3(goal), plans[i])
  }

  /**
   * The planning step of `ChaseAiSystem::update`: a search from the
   * actor's cell to the player's, and the walk back from the goal.
   */
  method Replan(chunk: Chunk, position: Vec3, goal: Vec3) returns (path: seq<Vec3>)
    requires chunk.Valid() && chunk.oobSolid
    ensures Planned(chunk.blocks[..], chunk.oobSolid, chunk.blockSize, Trunc3(position), Trunc3(goal), path)
  {
    var start, end := Trunc3(position), Trunc3(goal);
    var cameFrom, depth := Search(chunk, start, end);
    path := ReconstructPath(start, end, cameFrom, depth, chunk.blockSize);
    SearchPlanned(chunk.blocks[..], chunk.oobSolid, chunk.blockSize, start, end, cameFrom, depth, path);
  }

  /**
   * One AI's turn in place: the timer, a repath when it is due (`plan` is
   * the path it produced, or nothing), then the walk or the pop.
   */
  method ChaseOne(ai: ChaseAi, a: Actor, entity: nat, chunk: Chunk, goal: Vec3, deltaTime: real, normalize: Vec3 -> Vec3)
    returns (r: ChaseAi, actor: Actor, stop: bool, ghost plan: seq<Vec3>)
    requires chunk.Valid() && chunk.oobSolid
    modifies chunk`columns
    ensures chunk.Valid()
    ensures Outcome(r, actor, chunk.columns, stop)
            == ChaseStep(ai, a, old(chunk.columns), chunk.blockSize, entity, plan, deltaTime, normalize)
    ensures Repaths(ai, deltaTime) ==>
              Planned(chunk.blocks[..], chunk.oobSolid, chunk.blockSize, Trunc3(a.position), Trunc3(goal), plan)
  {
    r := ai.(repathTimer := ai.repathTimer + deltaTime);
    var position := a.position;
    plan := [];
    if r.repathTimer > RepathTime {
      var path := Replan(chunk, position, goal);
      plan := path;
      var p := Pop(path);
      r := ChaseAi(0.0, p.1, p.0);
    }
    actor, stop := a, false;
    match r.next {
      case Some(next) =>
        if Near(position, next) {
          r := r.(next := None);
          stop := true;
          return;
        }
        var dir := normalize(Heading(position, next));
        var moved;
        // `step` with no-clip set never asks the chunk whether the target collides.
        actor, moved := Step(a, entity, dir, ChaseSpeed * deltaTime, chunk, true, (_, _) => true);
      case None =>
        var p := Pop(r.path);
        r := r.(next := p.0, path := p.1);
    }
  }

  /**
   * The state of the loop after the turns of `done`, the repaths among
   * them having produced `plans`: the stores valid with their ids kept and
   * only AIs and actors in them, the AIs, the actors and the occupancy those
   * of the fold, and every repath a plan towards `goal`.
   */
  ghost predicate Chasing(ais: ComponentStore<Component>, actors: ComponentStore<Component>, chunk: Chunk, goal: Vec3,
                          i0: map<nat, Component>, a0: map<nat, Component>, c0: Columns, ie0: seq<nat>, ae0: seq<nat>,
                          done: seq<nat>, plans: seq<seq<Vec3>>, deltaTime: real, normalize: Vec3 -> Vec3)
    reads ais, actors, chunk, chunk.blocks
  {
    && ais.Valid() && actors.Valid() && chunk.Valid()
    && ais.entities == ie0 && actors.entities == ae0
    && (forall c | c in ais.components :: c.ChaseAiC?)
    && (forall c | c in actors.components :: c.ActorC?)
    && |plans| == |done|
    && var r := Chases(i0, a0, c0, chunk.blockSize, done, plans, deltaTime, normalize);
       && ais.contents == r.ais && actors.contents == r.actors && chunk.columns == r.columns
       && |r.starts| == |done|
       && PlansOk(chunk.blocks[..], chunk.oobSolid, chunk.blockSize, goal, r.starts, plans)
  }

  /** One more repath that planned as `Planned` states keeps every repath of the run planned. */
  lemma PlansAppend(grid: seq<bool>, oob: bool, blockSize: int, goal: Vec3, starts: seq<Option<Vec3>>, plans: seq<seq<Vec3>>,
                    start: Option<Vec3>, plan: seq<Vec3>)
    requires |grid| == ChunkLen && blockSize > 0 && |starts| == |plans|
    requires PlansOk(grid, oob, blockSize, goal, starts, plans)
    requires start.Some? ==> Planned(grid, oob, blockSize, Trunc3(start.value), Trunc3(goal), plan)
    ensures PlansOk(grid, oob, blockSize, goal, starts + [start], plans + [plan])
  {
    var s', p' := starts + [start], plans + [plan];
    forall i | 0 <= i < |s'| && s'[i].Some?
      ensures Planned(grid, oob, blockSize, Trunc3(s'[i].value), Trunc3(goal), p'[i])
    {
      if i < |starts| {
        assert s'[i] == starts[i] && p'[i] == plans[i];
      }
    }
  }

  /**
   * The body of the loop of `ChaseAiSystem::update` on the two stores: an
   * id holding both has its turn and both components written back; any
   * other id is left alone.
   */
  method Run(ais: ComponentStore<Component>, actors: ComponentStore<Component>, chunk: Chunk, goal: Vec3, entity: nat,
             deltaTime: real, normalize: Vec3 -> Vec3)
    returns (stop: bool, ghost plan: seq<Vec3>)
    requires ais.Valid() && actors.Valid() && chunk.Valid() && chunk.oobSolid && ais != actors
    requires forall c | c in ais.components :: c.ChaseAiC?
    requires forall c | c in actors.components :: c.ActorC?
    modifies ais, actors, chunk`columns
    ensures ais.Valid() && actors.Valid() && chunk.Valid()
    ensures ais.entities == old(ais.entities) && actors.entities == old(actors.entities)
    ensures forall c | c in ais.components :: c.ChaseAiC?
    ensures forall c | c in actors.components :: c.ActorC?
    ensures !Holds(old(ais.contents), old(actors.contents), entity) ==>
              && ais.contents == old(ais.contents) && actors.contents == old(actors.contents)
              && chunk.columns == old(chunk.columns) && !stop
    ensures Holds(old(ais.contents), old(actors.contents), entity) ==>
              var ai, a := old(ais.contents)[entity].ai, old(actors.contents)[entity].actor;
              var s := ChaseStep(ai, a, old(chunk.columns), chunk.blockSize, entity, plan, deltaTime, normalize);
              && ais.contents == old(ais.contents)[entity := ChaseAiC(s.ai)]
              && actors.contents == old(actors.contents)[entity := ActorC(s.actor)]
              && chunk.columns == s.columns && stop == s.stop
              && (Repaths(ai, deltaTime) ==>
                    Planned(chunk.blocks[..], chunk.oobSolid, chunk.blockSize, Trunc3(a.position), Trunc3(goal), plan))
  {
    var ai, actor := ais.Get(entity), actors.Get(entity);
    if ai.Some? && ai.value.ChaseAiC? && actor.Some? && actor.value.ActorC? {
      var r, a;
      r, a, stop, plan := ChaseOne(ai.value.ai, actor.value.actor, entity, chunk, goal, deltaTime, normalize);
      ais.Replace(entity, ChaseAiC(r));
      actors.Replace(entity, ActorC(a));
    } else {
      stop, plan := false, [];
    }
  }

  /** One turn of the loop of `ChaseAiSystem::update`, extending the fold by that turn. */
  method ChaseTurn(ais: ComponentStore<Component>, actors: ComponentStore<Component>, chunk: Chunk, goal: Vec3, entity: nat,
                   deltaTime: real, normalize: Vec3 -> Vec3,
                   ghost i0: map<nat, Component>, ghost a0: map<nat, Component>, ghost c0: Columns, ghost ie0: seq<nat>,
                   ghost ae0: seq<nat>, ghost done: seq<nat>, ghost plans: seq<seq<Vec3>>)
    returns (stop: bool, ghost plan: seq<Vec3>)
    requires chunk.oobSolid && ais != actors
    requires Chasing(ais, actors, chunk, goal, i0, a0, c0, ie0, ae0, done, plans, deltaTime, normalize)
    requires !Chases(i0, a0, c0, chunk.blockSize, done, plans, deltaTime, normalize).stopped
    modifies ais, actors, chunk`columns
    ensures Chasing(ais, actors, chunk, goal, i0, a0, c0, ie0, ae0, done + [entity], plans + [plan], deltaTime, normalize)
    ensures stop == Chases(i0, a0, c0, chunk.blockSize, done + [entity], plans + [plan], deltaTime, normalize).stopped
  {
    ghost var prev := Chases(i0, a0, c0, chunk.blockSize, done, plans, deltaTime, normalize);
    stop, plan := Run(ais, actors, chunk, goal, entity, deltaTime, normalize);
    ChasesAppend(i0, a0, c0, chunk.blockSize, done, plans, entity, plan, deltaTime, normalize);
    ghost var start := if Holds(prev.ais, prev.actors, entity) && Repaths(prev.ais[entity].ai, deltaTime)
                       then Some(prev.actors[entity].actor.position) else None;
    PlansAppend(chunk.blocks[..], chunk.oobSolid, chunk.blockSize, goal, prev.starts, plans, start, plan);
  }

  /** A stopped run padded with turns that do nothing still has every repath planned. */
  lemma PlansPadded(grid: seq<bool>, oob: bool, blockSize: int, goal: Vec3, starts: seq<Option<Vec3>>, plans: seq<seq<Vec3>>, k: nat)
    requires |grid| == ChunkLen && blockSize > 0 && |starts| == |plans|
    requires PlansOk(grid, oob, blockSize, goal, starts, plans)
    ensures PlansOk(grid, oob, blockSize, goal, starts + Blank(k, None), plans + Blank(k, []))
  {
    var s', p' := starts + Blank(k, None), plans + Blank(k, []);
    forall i | 0 <= i < |s'| && s'[i].Some?
      ensures Planned(grid, oob, blockSize, Trunc3(s'[i].value), Trunc3(goal), p'[i])
    {
      assert i < |starts| && s'[i] == starts[i] && p'[i] == plans[i];
    }
  }

  /** The prefix of `cache` one longer than `cache[..i]`. */
  lemma PrefixStep(cache: seq<nat>, i: nat)
    requires i < |cache|
    ensures cache[..i + 1] == cache[..i] + [cache[i]]
  {
  }

  /** A run stopped after the first `k` ids of `cache` ends in the state of the whole run, the ids left having no plan. */
  lemma StopPadded(ais: ComponentStore<Component>, actors: ComponentStore<Component>, chunk: Chunk, goal: Vec3,
                   i0: map<nat, Component>, a0: map<nat, Component>, c0: Columns, ie0: seq<nat>, ae0: seq<nat>,
                   cache: seq<nat>, k: nat, plans: seq<seq<Vec3>>, deltaTime: real, normalize: Vec3 -> Vec3)
    requires k <= |cache| && chunk.Valid() && |plans| == k
    requires Chasing(ais, actors, chunk, goal, i0, a0, c0, ie0, ae0, cache[..k], plans, deltaTime, normalize)
    requires Chases(i0, a0, c0, chunk.blockSize, cache[..k], plans, deltaTime, normalize).stopped
    ensures Chasing(ais, actors, chunk, goal, i0, a0, c0, ie0, ae0, cache, plans + Blank(|cache| - k, []),
                    deltaTime, normalize)
  {
    var more := cache[k..];
    var r := Chases(i0, a0, c0, chunk.blockSize, cache[..k], plans, deltaTime, normalize);
    ChasesStopped(i0, a0, c0, chunk.blockSize, cache[..k], plans, more, Blank(|more|, []), deltaTime, normalize);
    PlansPadded(chunk.blocks[..], chunk.oobSolid, chunk.blockSize, goal, r.starts, plans, |more|);
    assert cache[..k] + more == cache;
  }

  /**
   * The loop of `ChaseAiSystem::update` over the ids `cache`, on the two
   * stores it borrows; a turn that stops returns from it.
   */
  method ChaseAll(ais: ComponentStore<Component>, actors: ComponentStore<Component>, chunk: Chunk, goal: Vec3, cache: seq<nat>,
                  deltaTime: real, normalize: Vec3 -> Vec3)
    returns (ghost plans: seq<seq<Vec3>>)
    requires ais.Valid() && actors.Valid() && chunk.Valid() && chunk.oobSolid && ais != actors
    requires forall c | c in ais.components :: c.ChaseAiC?
    requires forall c | c in actors.components :: c.ActorC?
    modifies ais, actors, chunk`columns
    ensures Chasing(ais, actors, chunk, goal, old(ais.contents), old(actors.contents), old(chunk.columns),
                    old(ais.entities), old(actors.entities), cache, plans, deltaTime, normalize)
  {
    plans := [];
    for i := 0 to |cache|
      invariant Chasing(ais, actors, chunk, goal, old(ais.contents), old(actors.contents), old(chunk.columns),
                        old(ais.entities), old(actors.entities), cache[..i], plans, deltaTime, normalize)
      invariant !Chases(old(ais.contents), old(actors.contents), old(chunk.columns), chunk.blockSize, cache[..i], plans,
                        deltaTime, normalize).stopped
    {
      var entity := cache[i];
      PrefixStep(cache, i);
      var stop, plan := ChaseTurn(ais, actors, chunk, goal, entity, deltaTime, normalize, old(ais.contents), old(actors.contents),
                                  old(chunk.columns), old(ais.entities), old(actors.entities), cache[..i], plans);
      plans := plans + [plan];
      if stop {
        ghost var more := cache[i + 1..];
        StopPadded(ais, actors, chunk, goal, old(ais.contents), old(actors.contents), old(chunk.columns),
                   old(ais.entities), old(actors.entities), cache, i + 1, plans, deltaTime, normalize);
        plans := plans + Blank(|more|, []);
        return;
      }
    }
    assert cache[..|cache|] == cache;
  }

  /**
   * The manager after the chase of `cache` towards `goal` from AIs `i0`,
   * actors `a0` and occupancy `c0`: the ChaseAi and Actor stores and the
   * occupancy hold what the fold computes, and every repath is a plan.
   */
  ghost predicate Ran(m: EntityManager, chunk: Chunk, goal: Vec3, i0: map<nat, Component>, a0: map<nat, Component>, c0: Columns,
                      cache: seq<nat>, plans: seq<seq<Vec3>>, deltaTime: real, normalize: Vec3 -> Vec3)
    reads m, m.Repr, chunk, chunk.blocks
    requires m.Valid() && chunk.Valid()
  {
    && ChaseAiTag in m.stores && ActorTag in m.stores && |plans| == |cache|
    && var r := Chases(i0, a0, c0, chunk.blockSize, cache, plans, deltaTime, normalize);
       && m.stores[ChaseAiTag].contents == r.ais && m.stores[ActorTag].contents == r.actors && chunk.columns == r.columns
       && |r.starts| == |cache|
       && PlansOk(chunk.blocks[..], chunk.oobSolid, chunk.blockSize, goal, r.starts, plans)
  }

  /** The loop of `ChaseAiSystem::update` once the ChaseAi and Actor stores exist, leaving the manager valid. */
  method ChaseIn(m: EntityManager, chunk: Chunk, goal: Vec3, cache: seq<nat>, deltaTime: real, normalize: Vec3 -> Vec3)
    returns (ghost plans: seq<seq<Vec3>>)
    requires m.Valid() && chunk.Valid() && chunk.oobSolid && ChaseAiTag in m.stores && ActorTag in m.stores
    modifies m.stores[ChaseAiTag], m.stores[ActorTag], chunk`columns
    ensures m.Valid() && chunk.Valid()
    ensures forall t | t in m.stores && t != ChaseAiTag && t != ActorTag :: m.stores[t].contents == old(m.stores[t].contents)
    ensures Ran(m, chunk, goal, old(m.stores[ChaseAiTag].contents), old(m.stores[ActorTag].contents), old(chunk.columns),
                cache, plans, deltaTime, normalize)
  {
    var ais, actors := m.stores[ChaseAiTag], m.stores[ActorTag];
    assert ais.tag == ChaseAiTag && actors.tag == ActorTag;
    plans := ChaseAll(ais, actors, chunk, goal, cache, deltaTime, normalize);
    forall t | t in m.stores
      ensures m.StoreOk(m.stores[t], t)
      ensures t != ChaseAiTag && t != ActorTag ==> m.stores[t].contents == old(m.stores[t].contents)
    {
      if t != ChaseAiTag && t != ActorTag {
        assert m.stores[t].tag != ChaseAiTag && m.stores[t].tag != ActorTag;
        assert old(m.StoreOk(m.stores[t], t));
      }
    }
  }

  /** The position of the first id holding both a Player and an Actor, when there is one. */
  ghost function Goal(m: EntityManager): Option<Vec3>
    reads m, m.Repr
    requires m.Valid()
  {
    if PlayerTag in m.stores && ActorTag in m.stores then
      var l := Both(m.stores[PlayerTag].entities, m.stores[ActorTag].entityMap.Keys);
      var actors := m.stores[ActorTag].contents;
      if l != [] && l[0] in actors && actors[l[0]].ActorC? then Some(actors[l[0]].actor.position) else None
    else None
  }

  /** In a valid manager the first player always has an actor: there is a goal exactly when some id has both. */
  lemma GoalFound(m: EntityManager)
    requires m.Valid()
    ensures Goal(m).Some? <==>
              PlayerTag in m.stores && ActorTag in m.stores && Both(m.stores[PlayerTag].entities, m.stores[ActorTag].entityMap.Keys) != []
  {
    if PlayerTag in m.stores && ActorTag in m.stores {
      var l := Both(m.stores[PlayerTag].entities, m.stores[ActorTag].entityMap.Keys);
      if l != [] {
        var actors := m.stores[ActorTag];
        BothListsHolders(m, PlayerTag, ActorTag, l[0]);
        assert l[0] in actors.contents;
        assert actors.contents[l[0]] in actors.components;
      }
    }
  }

  /** The chase once the goal is known: the id buffer refilled with the ids holding both a ChaseAi and an Actor, then the loop. */
  method Hunt(m: EntityManager, chunk: Chunk, goal: Vec3, deltaTime: real, normalize: Vec3 -> Vec3)
    returns (cache: seq<nat>, ghost plans: seq<seq<Vec3>>)
    requires m.Valid() && chunk.Valid() && chunk.oobSolid && ActorTag in m.stores
    modifies m.Repr, chunk`columns
    ensures m.Valid() && chunk.Valid()
    ensures forall t | t in m.stores && t != ChaseAiTag && t != ActorTag :: m.stores[t].contents == old(m.stores[t].contents)
    ensures ChaseAiTag !in m.stores ==>
              && cache == [] && chunk.columns == old(chunk.columns)
              && forall t | t in m.stores :: m.stores[t].contents == old(m.stores[t].contents)
    ensures ChaseAiTag in m.stores ==>
              && cache == Both(old(m.stores[ChaseAiTag].entities), old(m.stores[ActorTag].entityMap.Keys))
              && Ran(m, chunk, goal, old(m.stores[ChaseAiTag].contents), old(m.stores[ActorTag].contents), old(chunk.columns),
                     cache, plans, deltaTime, normalize)
  {
    plans := [];
    var found;
    cache, found := m.GetEntitiesWithBoth(ChaseAiTag, ActorTag);
    if found {
      plans := ChaseIn(m, chunk, goal, cache, deltaTime, normalize);
    }
  }

  /**
   * `ChaseAiSystem::update`: the id buffer is first filled with the ids
   * holding both a Player and an Actor; without one the update ends there.
   * Otherwise the first one's position is the goal, the buffer is refilled
   * with the ids holding both a ChaseAi and an Actor, and each of them, in
   * order, has its turn (see `Chases`) until one stops the update. The
   * other stores and the queue stay as they were.
   */
  method Update(w: EcsState, chunk: Chunk, deltaTime: real, normalize: Vec3 -> Vec3)
    returns (ghost plans: seq<seq<Vec3>>)
    requires w.Valid() && chunk.Valid() && chunk.oobSolid
    modifies w`entityCache, w.manager.Repr, chunk`columns
    ensures w.Valid() && chunk.Valid()
    ensures forall t | t in w.manager.stores && t != ChaseAiTag && t != ActorTag ::
              w.manager.stores[t].contents == old(w.manager.stores[t].contents)
    ensures old(Goal(w.manager)).None? || ChaseAiTag !in w.manager.stores ==>
              && w.entityCache == [] && chunk.columns == old(chunk.columns)
              && forall t | t in w.manager.stores :: w.manager.stores[t].contents == old(w.manager.stores[t].contents)
    ensures old(Goal(w.manager)).Some? && ChaseAiTag in w.manager.stores ==>
              && w.entityCache == Both(old(w.manager.stores[ChaseAiTag].entities), old(w.manager.stores[ActorTag].entityMap.Keys))
              && Ran(w.manager, chunk, old(Goal(w.manager)).value, old(w.manager.stores[ChaseAiTag].contents),
                     old(w.manager.stores[ActorTag].contents), old(chunk.columns), w.entityCache, plans, deltaTime, normalize)
  {
    var cache;
    cache, plans := Chase(w.manager, chunk, deltaTime, normalize);
    w.entityCache := cache;
  }

  /** The body of `ChaseAiSystem::update` on the manager, returning the id buffer as it is left. */
  method Chase(m: EntityManager, chunk: Chunk, deltaTime: real, normalize: Vec3 -> Vec3)
    returns (cache: seq<nat>, ghost plans: seq<seq<Vec3>>)
    requires m.Valid() && chunk.Valid() && chunk.oobSolid
    modifies m.Repr, chunk`columns
    ensures m.Valid() && chunk.Valid()
    ensures forall t | t in m.stores && t != ChaseAiTag && t != ActorTag :: m.stores[t].contents == old(m.stores[t].contents)
    ensures old(Goal(m)).None? || ChaseAiTag !in m.stores ==>
              && cache == [] && chunk.columns == old(chunk.columns)
              && forall t | t in m.stores :: m.stores[t].contents == old(m.stores[t].contents)
    ensures old(Goal(m)).Some? && ChaseAiTag in m.stores ==>
              && cache == Both(old(m.stores[ChaseAiTag].entities), old(m.stores[ActorTag].entityMap.Keys))
              && Ran(m, chunk, old(Goal(m)).value, old(m.stores[ChaseAiTag].contents), old(m.stores[ActorTag].contents),
                     old(chunk.columns), cache, plans, deltaTime, normalize)
  {
    plans := [];
    var players, goal := FindGoal(m);
    if goal.None? {
      return players, [];
    }
    cache, plans := Hunt(m, chunk, goal.value, deltaTime, normalize);
  }

  /**
   * The first query of `ChaseAiSystem::update`: the ids holding both a
   * Player and an Actor, and the first one's position.
   */
  method FindGoal(m: EntityManager) returns (players: seq<nat>, goal: Option<Vec3>)
    requires m.Valid()
    ensures goal == Goal(m)
    ensures goal.None? ==> players == []
  {
    GoalFound(m);
    var found;
    players, found := m.GetEntitiesWithBoth(PlayerTag, ActorTag);
    if !found {
      return players, None;
    }
    goal := Some(m.stores[ActorTag].Get(players[0]).value.actor.position);
  }
}
