/**
 * The chase AI (src/entities/chase_ai.rs): a component that periodically
 * plans a path to the player and walks it one waypoint at a time.
 */
module ChaseAiComponent {
  import opened Wrappers
  import opened Vector

  /** `REPATH_TIME`: seconds between two path plans. */
  const RepathTime: real := 1.0

  /** `ChaseAi`: time since the last plan, the remaining waypoints (next one last) and the waypoint being walked to. */
  datatype ChaseAi = ChaseAi(repathTimer: real, path: seq<Vec3>, next: Option<Vec3>)

  /** `ChaseAi::new`: no plan yet. */
  function NewChaseAi(): (r: ChaseAi)
    ensures r.repathTimer == 0.0 && r.path == [] && r.next.None?
  {
    ChaseAi(0.0, [], None)
  }

  /** `Vec::pop` on the path: its last waypoint, and the path without it. */
  function Pop(path: seq<Vec3>): (r: (Option<Vec3>, seq<Vec3>))
    ensures path == [] ==> r.0.None? && r.1 == []
    ensures path != [] ==> r.0 == Some(path[|path| - 1]) && r.1 + [path[|path| - 1]] == path
  {
    if path == [] then (None, []) else (Some(path[|path| - 1]), path[..|path| - 1])
  }
}
