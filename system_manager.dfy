/**
 * `SystemManager` (src/entities/ecs.rs): the systems of the game, in the
 * order they were added, which is the order they run in. A system is
 * known by its type: `get` and `remove` look for the first one of a type.
 */
module SystemManagers {
  import opened Wrappers

  /** The type of a system, which `get` and `remove` compare by downcasting. */
  datatype SystemKind =
    | ActorSystem | ChaseAiSystem | PlayerMovementSystem | EntityInstancesSystem | FighterSystem
    | HealthDisplaySystem | HealthSystem | InventorySystem | InventoryDisplaySystem

  /** The index of the first system of kind `k`, if there is one. */
  function FirstOf(systems: seq<SystemKind>, k: SystemKind): (r: Option<nat>)
    ensures r.None? <==> k !in systems
    ensures r.Some? ==> r.value < |systems| && systems[r.value] == k && forall j | 0 <= j < r.value :: systems[j] != k
    decreases |systems|
  {
    if systems == [] then None
    else if systems[0] == k then Some(0)
    else
      var rest := FirstOf(systems[1..], k);
      if rest.Some? then Some(rest.value + 1) else None
  }

  /** `systems` with its first system of kind `k` taken out, the others in order. */
  function Removed(systems: seq<SystemKind>, k: SystemKind): seq<SystemKind> {
    match FirstOf(systems, k)
    case None => systems
    case Some(i) => systems[..i] + systems[i + 1..]
  }

  /** Removing takes out exactly one system of kind `k` when there is one, and nothing else. */
  lemma RemovedCounts(systems: seq<SystemKind>, k: SystemKind)
    ensures multiset(Removed(systems, k)) == multiset(systems) - multiset{k}
  {
    match FirstOf(systems, k)
    case None =>
    case Some(i) =>
      assert systems == systems[..i] + [systems[i]] + systems[i + 1..];
  }

  /** Adding a system of a kind not yet present and then removing that kind gives back the list. */
  lemma RemoveUndoesAdd(systems: seq<SystemKind>, k: SystemKind)
    requires k !in systems
    ensures Removed(systems + [k], k) == systems
  {
    var s := systems + [k];
    assert forall j | 0 <= j < |systems| :: s[j] == systems[j];
    assert s[|systems|] == k;
    assert s[..|systems|] == systems;
  }

  /** Removing a kind leaves the relative order of the systems of other kinds as it was. */
  lemma RemovedKeepsOthers(systems: seq<SystemKind>, k: SystemKind, u: SystemKind)
    requires u != k
    ensures Only(Removed(systems, k), u) == Only(systems, u)
  {
    match FirstOf(systems, k)
    case None =>
    case Some(i) =>
      var pre, rest := systems[..i], [systems[i]] + systems[i + 1..];
      assert systems == pre + rest;
      OnlySplit(pre, rest, u);
      OnlySplit(pre, systems[i + 1..], u);
      assert rest[0] == k && rest[1..] == systems[i + 1..];
      assert Only(rest, u) == Only(systems[i + 1..], u);
  }

  /** The systems of kind `u`, in order. */
  function Only(systems: seq<SystemKind>, u: SystemKind): seq<SystemKind>
    decreases |systems|
  {
    if systems == [] then []
    else (if systems[0] == u then [u] else []) + Only(systems[1..], u)
  }

  lemma {:induction false} OnlySplit(a: seq<SystemKind>, b: seq<SystemKind>, u: SystemKind)
    ensures Only(a + b, u) == Only(a, u) + Only(b, u)
    decreases |a|
  {
    if a == [] {
      assert a + b == b;
    } else {
      OnlySplit(a[1..], b, u);
      assert (a + b)[0] == a[0] && (a + b)[1..] == a[1..] + b;
      var head := if a[0] == u then [u] else [];
      assert Only(a + b, u) == head + Only(a[1..] + b, u);
      assert Only(a, u) == head + Only(a[1..], u);
    }
  }

  /** `SystemManager`: the boxed system stores, in order. */
  class SystemManager {
    var systems: seq<SystemKind>

    /** `SystemManager::new`: no systems. */
    constructor ()
      ensures systems == []
    {
      systems := [];
    }

    /** `add_system`: the system goes last, so it runs after every system added before it. */
    method AddSystem(k: SystemKind)
      modifies this
      ensures systems == old(systems) + [k]
    {
      systems := systems + [k];
    }

    /**
     * `get`: the first system of kind `k`, given here by its index, and
     * nothing when no system has that kind.
     */
    method Get(k: SystemKind) returns (r: Option<nat>)
      ensures r.None? <==> k !in systems
      ensures r.Some? ==> r.value < |systems| && systems[r.value] == k && forall j | 0 <= j < r.value :: systems[j] != k
    {
      for i := 0 to |systems|
        invariant forall j | 0 <= j < i :: systems[j] != k
      {
        if systems[i] == k {
          return Some(i);
        }
      }
      return None;
    }

    /** `remove`: the first system of kind `k` is taken out and the rest keep their order; without one nothing changes. */
    method Remove(k: SystemKind)
      modifies this
      ensures systems == Removed(old(systems), k)
    {
      for i := 0 to |systems|
        invariant forall j | 0 <= j < i :: systems[j] != k
      {
        if systems[i] == k {
          FirstAt(systems, k, i);
          systems := systems[..i] + systems[i + 1..];
          return;
        }
      }
      FirstAt(systems, k, |systems|);
    }
  }

  /** A kind absent before index `i` and present at `i` (or absent everywhere when `i` is the length) is first found at `i`. */
  lemma FirstAt(systems: seq<SystemKind>, k: SystemKind, i: nat)
    requires i <= |systems| && forall j | 0 <= j < i :: systems[j] != k
    requires i < |systems| ==> systems[i] == k
    ensures i < |systems| ==> FirstOf(systems, k) == Some(i)
    ensures i == |systems| ==> FirstOf(systems, k) == None
  {
    var r := FirstOf(systems, k);
    if r.Some? {
      assert r.value >= i;
      assert systems[r.value] == k;
    }
  }
}
