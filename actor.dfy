/**
 * The `Actor` component (src/entities/actor.rs): a box with a position and
 * a size that moves through the chunk, registered in the chunk's column
 * sets under each of its four horizontal corners.
 */
module Actors {
  import opened Wrappers
  import opened Vector
  import opened Chunks

  /** `GRAVITY`, in units per second squared. */
  const Gravity: real := 30.0
  /** `JUMP_FORCE`, the upward speed a jump sets. */
  const JumpForce: real := 9.0
  /** `GROUNDED_DISTANCE`, how far below the actor the ground test probes. */
  const GroundedDistance: real := 0.1
  /** The bound on the vertical look angle, in degrees. */
  const LookLimit: real := 89.0

  datatype Actor = Actor(
    speed: real,
    size: Vec3,
    position: Vec3,
    lookX: real,
    lookY: real,
    yVelocity: real,
    grounded: bool)

  /** `Actor::new`: looking straight ahead, at rest and not grounded. */
  function NewActor(position: Vec3, size: Vec3, speed: real): (r: Actor)
    ensures r.position == position && r.size == size && r.speed == speed
    ensures r.lookX == 0.0 && r.lookY == 0.0 && r.yVelocity == 0.0 && !r.grounded
  {
    Actor(speed, size, position, 0.0, 0.0, 0.0, false)
  }

  /** `f32::clamp`. */
  function Clamp(v: real, lo: real, hi: real): (r: real)
    requires lo <= hi
    ensures lo <= r <= hi
    ensures lo <= v <= hi ==> r == v
    ensures v < lo ==> r == lo
    ensures v > hi ==> r == hi
  {
    if v < lo then lo else if v > hi then hi else v
  }

  /**
   * `rotate`: both angles move by their deltas, then only `lookX` is
   * clamped to [-89, 89]; `lookY` is left unbounded.
   */
  function Rotate(a: Actor, deltaX: real, deltaY: real): (r: Actor)
    ensures -LookLimit <= r.lookX <= LookLimit
    ensures -LookLimit <= a.lookX + deltaX <= LookLimit ==> r.lookX == a.lookX + deltaX
    ensures a.lookX + deltaX > LookLimit ==> r.lookX == LookLimit
    ensures a.lookX + deltaX < -LookLimit ==> r.lookX == -LookLimit
    ensures r.lookY == a.lookY + deltaY
    ensures r.(lookX := a.lookX, lookY := a.lookY) == a
  {
    a.(lookX := Clamp(a.lookX + deltaX, -LookLimit, LookLimit), lookY := a.lookY + deltaY)
  }

  /** Clamping is idempotent: rotating by nothing leaves an in-range actor as it is. */
  lemma RotateByNothing(a: Actor)
    requires -LookLimit <= a.lookX <= LookLimit
    ensures Rotate(a, 0.0, 0.0) == a
  {
  }

  /** Closed-interval overlap of the extents `[c1 - s1/2, c1 + s1/2]` and `[c2 - s2/2, c2 + s2/2]`. */
  predicate Overlap(c1: real, s1: real, c2: real, s2: real) {
    c1 - s1 * 0.5 <= c2 + s2 * 0.5 && c1 + s1 * 0.5 >= c2 - s2 * 0.5
  }

  /** `intersects`: the actor's box and the box at `position` with `size` overlap on all three axes. */
  predicate Intersects(a: Actor, position: Vec3, size: Vec3) {
    Overlap(a.position.x, a.size.x, position.x, size.x)
    && Overlap(a.position.y, a.size.y, position.y, size.y)
    && Overlap(a.position.z, a.size.z, position.z, size.z)
  }

  /** The test does not depend on which box asks: swapping the two gives the same answer. */
  lemma IntersectsSymmetric(a: Actor, b: Actor)
    ensures Intersects(a, b.position, b.size) <==> Intersects(b, a.position, a.size)
  {
  }

  /** A box with a non-negative size intersects itself. */
  lemma IntersectsItself(a: Actor)
    requires a.size.x >= 0.0 && a.size.y >= 0.0 && a.size.z >= 0.0
    ensures Intersects(a, a.position, a.size)
  {
  }

  /** Boxes separated along x by a gap do not intersect, however they sit along y and z. */
  lemma SeparatedDoNotIntersect(a: Actor, position: Vec3, size: Vec3)
    requires a.position.x + a.size.x * 0.5 < position.x - size.x * 0.5
    ensures !Intersects(a, position, size)
  {
  }

  /** The horizontal corner directions, in the order `update_occupied_blocks` visits them. */
  function CornerOffset(i: nat): (r: (int, int))
    requires i < 4
    ensures r == [(-1, -1), (1, -1), (-1, 1), (1, 1)][i]
  {
    ((i % 2) * 2 - 1, (i / 2) * 2 - 1)
  }

  /**
   * The horizontal coordinates of corner `i` before `get_corner_pos` casts
   * them: the corner lies a whole `size` away from `position` on each axis.
   */
  function CornerPoint(size: Vec3, position: Vec3, i: nat): (real, real)
    requires i < 4
  {
    var offset := CornerOffset(i);
    (position.x + size.x * offset.0 as real, position.z + size.z * offset.1 as real)
  }

  /**
   * `get_corner_pos(position, ..) / BLOCK_SIZE`, x and z only: the corner
   * point truncated to integers and then divided by the block size, both
   * rounding toward zero.
   */
  function CornerColumn(size: Vec3, position: Vec3, i: nat, blockSize: int): (int, int)
    requires i < 4 && blockSize > 0
  {
    var p := CornerPoint(size, position, i);
    ColumnAt(p.0, p.1, blockSize)
  }

  /** The column of the point at horizontal coordinates (`x`, `z`): truncated, then divided by the block size. */
  function ColumnAt(x: real, z: real, blockSize: int): (int, int)
    requires blockSize > 0
  {
    (TruncDiv(Trunc(x), blockSize), TruncDiv(Trunc(z), blockSize))
  }

  /** The four corner columns of a box of `size` at `position`, in visiting order. */
  function Corners(size: Vec3, position: Vec3, blockSize: int): (r: seq<(int, int)>)
    requires blockSize > 0
    ensures |r| == 4
  {
    [CornerColumn(size, position, 0, blockSize), CornerColumn(size, position, 1, blockSize),
     CornerColumn(size, position, 2, blockSize), CornerColumn(size, position, 3, blockSize)]
  }

  /** `entity` removed from each column of `cs`, first to last. */
  function RemoveAll(columns: Columns, entity: nat, cs: seq<(int, int)>): Columns
    decreases |cs|
  {
    if cs == [] then columns
    else RemoveOccupant(RemoveAll(columns, entity, cs[..|cs| - 1]), entity, cs[|cs| - 1].0, cs[|cs| - 1].1)
  }

  /** `entity` added to each column of `cs`, first to last. */
  function AddAll(columns: Columns, entity: nat, cs: seq<(int, int)>): Columns
    decreases |cs|
  {
    if cs == [] then columns
    else AddOccupant(AddAll(columns, entity, cs[..|cs| - 1]), entity, cs[|cs| - 1].0, cs[|cs| - 1].1)
  }

  /** After removing, the entity is in none of the in-range columns of `cs`; every other set is as before. */
  lemma {:induction false} RemoveAllExact(columns: Columns, entity: nat, cs: seq<(int, int)>, x: int, z: int)
    ensures Occupants(RemoveAll(columns, entity, cs), x, z) ==
            if ColumnInBounds(x, z) && (x, z) in cs then Occupants(columns, x, z) - {entity} else Occupants(columns, x, z)
    decreases |cs|
  {
    if cs != [] {
      RemoveAllExact(columns, entity, cs[..|cs| - 1], x, z);
      assert cs == cs[..|cs| - 1] + [cs[|cs| - 1]];
    }
  }

  /** After adding, the entity is in every in-range column of `cs`; every other set is as before. */
  lemma {:induction false} AddAllExact(columns: Columns, entity: nat, cs: seq<(int, int)>, x: int, z: int)
    ensures Occupants(AddAll(columns, entity, cs), x, z) ==
            if ColumnInBounds(x, z) && (x, z) in cs then Occupants(columns, x, z) + {entity} else Occupants(columns, x, z)
    decreases |cs|
  {
    if cs != [] {
      AddAllExact(columns, entity, cs[..|cs| - 1], x, z);
      assert cs == cs[..|cs| - 1] + [cs[|cs| - 1]];
    }
  }

  /**
   * The intended effect of `update_occupied_blocks`: leave every old corner
   * column, then, when there is a new position, join every new one.
   */
  function Relocated(columns: Columns, entity: nat, olds: seq<(int, int)>, news: Option<seq<(int, int)>>): Columns {
    var cleared := RemoveAll(columns, entity, olds);
    if news.Some? then AddAll(cleared, entity, news.value) else cleared
  }

  /**
   * After relocating, the entity is over exactly the in-range new corner
   * columns, and over any other column only if it was there before and
   * that column was not one of its old corners; other entities are untouched.
   */
  lemma RelocatedExact(columns: Columns, entity: nat, olds: seq<(int, int)>, news: Option<seq<(int, int)>>, x: int, z: int, other: nat)
    requires other != entity
    ensures news.Some? && ColumnInBounds(x, z) && (x, z) in news.value ==> entity in Occupants(Relocated(columns, entity, olds, news), x, z)
    ensures !(news.Some? && (x, z) in news.value) ==>
              (entity in Occupants(Relocated(columns, entity, olds, news), x, z) <==>
                 entity in Occupants(columns, x, z) && !(ColumnInBounds(x, z) && (x, z) in olds))
    ensures other in Occupants(Relocated(columns, entity, olds, news), x, z) <==> other in Occupants(columns, x, z)
  {
    RemoveAllExact(columns, entity, olds, x, z);
    if news.Some? {
      AddAllExact(RemoveAll(columns, entity, olds), entity, news.value, x, z);
    }
  }

  /**
   * What `update_occupied_blocks` does as written: for each corner in turn
   * it leaves that corner's old column and at once joins its new column.
   */
  function Interleaved(columns: Columns, entity: nat, olds: seq<(int, int)>, news: seq<(int, int)>): Columns
    requires |olds| == |news|
    decreases |olds|
  {
    if olds == [] then columns
    else
      var n := |olds| - 1;
      AddOccupant(RemoveOccupant(Interleaved(columns, entity, olds[..n], news[..n]), entity, olds[n].0, olds[n].1),
                  entity, news[n].0, news[n].1)
  }

  /**
   * When no corner changes column, the interleaved loop gains the entity in
   * exactly the in-range listed columns: each removal is at once undone by
   * the addition to the same column.
   */
  lemma {:induction false} InterleavedInPlaceExact(columns: Columns, entity: nat, cs: seq<(int, int)>, x: int, z: int)
    ensures Occupants(Interleaved(columns, entity, cs, cs), x, z) ==
            if ColumnInBounds(x, z) && (x, z) in cs then Occupants(columns, x, z) + {entity} else Occupants(columns, x, z)
    decreases |cs|
  {
    if cs != [] {
      var n := |cs| - 1;
      InterleavedInPlaceExact(columns, entity, cs[..n], x, z);
      assert cs == cs[..n] + [cs[n]];
    }
  }

  /** So for a move that keeps every corner column, the loop as written and the corrected update agree. */
  lemma InterleavedInPlace(columns: Columns, entity: nat, cs: seq<(int, int)>, x: int, z: int)
    ensures Occupants(Interleaved(columns, entity, cs, cs), x, z) == Occupants(Relocated(columns, entity, cs, Some(cs)), x, z)
  {
    InterleavedInPlaceExact(columns, entity, cs, x, z);
    RemoveAllExact(columns, entity, cs, x, z);
    AddAllExact(RemoveAll(columns, entity, cs), entity, cs, x, z);
  }

  /** With unit blocks a corner column is just the truncated corner. */
  lemma CornerColumnUnitBlock(size: Vec3, position: Vec3, i: nat)
    requires i < 4
    ensures CornerColumn(size, position, i, 1) == (Trunc(CornerPoint(size, position, i).0), Trunc(CornerPoint(size, position, i).1))
  {
    var p := CornerPoint(size, position, i);
    UnitColumn(p.0, p.1);
  }

  lemma UnitColumn(x: real, z: real)
    ensures ColumnAt(x, z, 1) == (Trunc(x), Trunc(z))
  {
    TruncDivByOne(Trunc(x));
    TruncDivByOne(Trunc(z));
  }

  lemma TruncDivByOne(a: int)
    ensures TruncDiv(a, 1) == a
  {
  }

  /** The corner columns of a box of size (0.5, 1, 0.5) at x = z = 1, block size 1. */
  lemma CornersBefore(size: Vec3, position: Vec3)
    requires size == Vec3(0.5, 1.0, 0.5) && position == Vec3(1.0, 0.0, 1.0)
    ensures Corners(size, position, 1) == [(0, 0), (1, 0), (0, 1), (1, 1)]
  {
    CornerColumnUnitBlock(size, position, 0);
    CornerColumnUnitBlock(size, position, 1);
    CornerColumnUnitBlock(size, position, 2);
    CornerColumnUnitBlock(size, position, 3);
    assert Trunc(0.5) == 0 && Trunc(1.5) == 1;
  }

  /** The same box after moving to x = 1.5. */
  lemma CornersAfter(size: Vec3, position: Vec3)
    requires size == Vec3(0.5, 1.0, 0.5) && position == Vec3(1.5, 0.0, 1.0)
    ensures Corners(size, position, 1) == [(1, 0), (2, 0), (1, 1), (2, 1)]
  {
    assert CornerOffset(0) == (-1, -1) && CornerOffset(1) == (1, -1);
    assert CornerOffset(2) == (-1, 1) && CornerOffset(3) == (1, 1);
    assert Trunc(1.0) == 1 && Trunc(2.0) == 2 && Trunc(0.5) == 0 && Trunc(1.5) == 1;
    CornerColumnUnitBlock(size, position, 0);
    assert CornerColumn(size, position, 0, 1) == (Trunc(1.0), Trunc(0.5));
    CornerColumnUnitBlock(size, position, 1);
    assert CornerColumn(size, position, 1, 1) == (Trunc(2.0), Trunc(0.5));
    CornerColumnUnitBlock(size, position, 2);
    assert CornerColumn(size, position, 2, 1) == (Trunc(1.0), Trunc(1.5));
    CornerColumnUnitBlock(size, position, 3);
    assert CornerColumn(size, position, 3, 1) == (Trunc(2.0), Trunc(1.5));
  }

  /**
   * Under interleaving, the old column of corner `k` ends up without the
   * entity, even if an earlier corner joined it, unless corner `k` or a
   * later one joins it again.
   */
  lemma {:induction false} InterleavedErases(columns: Columns, entity: nat, olds: seq<(int, int)>, news: seq<(int, int)>, k: nat, n: nat)
    requires |olds| == |news| && k < n <= |olds|
    requires ColumnInBounds(olds[k].0, olds[k].1)
    requires forall m | k <= m < n :: news[m] != olds[k]
    ensures entity !in Occupants(Interleaved(columns, entity, olds[..n], news[..n]), olds[k].0, olds[k].1)
    decreases n
  {
    assert olds[..n][..n - 1] == olds[..n - 1] && news[..n][..n - 1] == news[..n - 1];
    assert olds[..n][n - 1] == olds[n - 1] && news[..n][n - 1] == news[n - 1];
    if k < n - 1 {
      InterleavedErases(columns, entity, olds, news, k, n - 1);
    }
  }

  /**
   * The interleaving loses columns: an actor of size 0.5 moving from x = 1
   * to x = 1.5 (block size 1, z = 1; see `CornersBefore` and
   * `CornersAfter`) has (1, 0) among its new corner columns, but the
   * second corner's removal of its old column (1, 0) undoes the first
   * corner's addition, so the actor ends up missing from a column it
   * overlaps; relocating leaves it there.
   */
  lemma InterleavedLosesColumn(olds: seq<(int, int)>, news: seq<(int, int)>)
    requires olds == [(0, 0), (1, 0), (0, 1), (1, 1)] && news == [(1, 0), (2, 0), (1, 1), (2, 1)]
    ensures ColumnInBounds(1, 0) && (1, 0) in news
    ensures 0 !in Occupants(Interleaved(map[], 0, olds, news), 1, 0)
    ensures 0 in Occupants(Relocated(map[], 0, olds, Some(news)), 1, 0)
  {
    InterleavedErases(map[], 0, olds, news, 1, 4);
    assert olds[..4] == olds && news[..4] == news;
    RelocatedExact(map[], 0, olds, Some(news), 1, 0, 1);
  }

  /** Removes `entity` from each column of `cs` in turn. */
  method LeaveColumns(chunk: Chunk, entity: nat, cs: seq<(int, int)>)
    modifies chunk`columns
    ensures chunk.columns == RemoveAll(old(chunk.columns), entity, cs)
  {
    for i := 0 to |cs|
      invariant chunk.columns == RemoveAll(old(chunk.columns), entity, cs[..i])
    {
      assert cs[..i + 1][..i] == cs[..i];
      chunk.RemoveEntityFromBlock(entity, cs[i].0, cs[i].1);
    }
    assert cs[..|cs|] == cs;
  }

  /** Adds `entity` to each column of `cs` in turn. */
  method JoinColumns(chunk: Chunk, entity: nat, cs: seq<(int, int)>)
    modifies chunk`columns
    ensures chunk.columns == AddAll(old(chunk.columns), entity, cs)
  {
    for i := 0 to |cs|
      invariant chunk.columns == AddAll(old(chunk.columns), entity, cs[..i])
    {
      assert cs[..i + 1][..i] == cs[..i];
      chunk.AddEntityToBlock(entity, cs[i].0, cs[i].1);
    }
    assert cs[..|cs|] == cs;
  }

  /** For each index in turn, removes `entity` from `olds[i]` and then adds it to `news[i]`. */
  method SwapColumns(chunk: Chunk, entity: nat, olds: seq<(int, int)>, news: seq<(int, int)>)
    requires |olds| == |news|
    modifies chunk`columns
    ensures chunk.columns == Interleaved(old(chunk.columns), entity, olds, news)
  {
    for i := 0 to |olds|
      invariant chunk.columns == Interleaved(old(chunk.columns), entity, olds[..i], news[..i])
    {
      assert olds[..i + 1][..i] == olds[..i] && news[..i + 1][..i] == news[..i];
      chunk.RemoveEntityFromBlock(entity, olds[i].0, olds[i].1);
      chunk.AddEntityToBlock(entity, news[i].0, news[i].1);
    }
    assert olds[..|olds|] == olds && news[..|news|] == news;
  }

  /**
   * `update_occupied_blocks` as written: the four corners in turn, each
   * leaving its old column and then, given a new position, joining its new one.
   */
  method UpdateOccupiedBlocksAsWritten(a: Actor, entity: nat, chunk: Chunk, newPosition: Option<Vec3>)
    requires chunk.Valid()
    modifies chunk`columns
    ensures newPosition.Some? ==>
              chunk.columns == Interleaved(old(chunk.columns), entity, Corners(a.size, a.position, chunk.blockSize),
                                           Corners(a.size, newPosition.value, chunk.blockSize))
    ensures newPosition.None? ==> chunk.columns == RemoveAll(old(chunk.columns), entity, Corners(a.size, a.position, chunk.blockSize))
  {
    var olds := Corners(a.size, a.position, chunk.blockSize);
    if newPosition.Some? {
      SwapColumns(chunk, entity, olds, Corners(a.size, newPosition.value, chunk.blockSize));
    } else {
      LeaveColumns(chunk, entity, olds);
    }
  }

  /**
   * `update_occupied_blocks`, corrected: leave all four old corner columns
   * first, then join the new ones, so the entity ends up over every new
   * corner column (see `RelocatedExact`).
   */
  method UpdateOccupiedBlocks(a: Actor, entity: nat, chunk: Chunk, newPosition: Option<Vec3>)
    requires chunk.Valid()
    modifies chunk`columns
    ensures chunk.columns == Relocated(old(chunk.columns), entity, Corners(a.size, a.position, chunk.blockSize),
                                       if newPosition.Some? then Some(Corners(a.size, newPosition.value, chunk.blockSize)) else None)
  {
    LeaveColumns(chunk, entity, Corners(a.size, a.position, chunk.blockSize));
    if newPosition.Some? {
      JoinColumns(chunk, entity, Corners(a.size, newPosition.value, chunk.blockSize));
    }
  }

  /**
   * `step`: unless `noClip`, a move whose target box `collides` is refused
   * and nothing changes; otherwise the occupancy follows the box to
   * `position + dir * speed` and the actor moves there.
   */
  method Step(a: Actor, entity: nat, dir: Vec3, speed: real, chunk: Chunk, noClip: bool,
              collides: (Vec3, Vec3) -> bool)
    returns (r: Actor, moved: bool)
    requires chunk.Valid()
    modifies chunk`columns
    ensures var target := a.position.Add(dir.Scale(speed));
            && (moved <==> noClip || !collides(target, a.size))
            && (moved ==> r == a.(position := target)
                          && chunk.columns == Relocated(old(chunk.columns), entity, Corners(a.size, a.position, chunk.blockSize),
                                                        Some(Corners(a.size, target, chunk.blockSize))))
            && (!moved ==> r == a && chunk.columns == old(chunk.columns))
  {
    var velocity := dir.Scale(speed);
    var newPosition := a.position.Add(velocity);
    if !noClip && collides(newPosition, a.size) {
      return a, false;
    }
    UpdateOccupiedBlocks(a, entity, chunk, Some(newPosition));
    r := a.(position := newPosition);
    moved := true;
  }

  /** The entities recorded over the in-range columns of `cs`. */
  function NearbyOf(columns: Columns, cs: seq<(int, int)>): set<nat>
    decreases |cs|
  {
    if cs == [] then {}
    else
      var c := cs[|cs| - 1];
      NearbyOf(columns, cs[..|cs| - 1]) + (if ColumnInBounds(c.0, c.1) then Occupants(columns, c.0, c.1) else {})
  }

  /** An entity is nearby exactly when it is recorded over one of the in-range columns. */
  lemma {:induction false} NearbyOfExact(columns: Columns, cs: seq<(int, int)>, e: nat)
    ensures e in NearbyOf(columns, cs) <==>
            exists i :: 0 <= i < |cs| && ColumnInBounds(cs[i].0, cs[i].1) && e in Occupants(columns, cs[i].0, cs[i].1)
    decreases |cs|
  {
    if cs != [] {
      NearbyOfExact(columns, cs[..|cs| - 1], e);
      if e in NearbyOf(columns, cs[..|cs| - 1]) {
        var i :| 0 <= i < |cs| - 1 && ColumnInBounds(cs[..|cs| - 1][i].0, cs[..|cs| - 1][i].1)
                 && e in Occupants(columns, cs[..|cs| - 1][i].0, cs[..|cs| - 1][i].1);
        assert cs[i] == cs[..|cs| - 1][i];
      }
    }
  }

  /**
   * `get_nearby_entities`: starts from an empty set and adds the entity set
   * of each corner column that lies in the chunk.
   */
  method GetNearbyEntities(a: Actor, chunk: Chunk) returns (nearby: set<nat>)
    requires chunk.Valid()
    ensures nearby == NearbyOf(chunk.columns, Corners(a.size, a.position, chunk.blockSize))
  {
    var cs := Corners(a.size, a.position, chunk.blockSize);
    nearby := {};
    for i := 0 to 4
      invariant nearby == NearbyOf(chunk.columns, cs[..i])
    {
      assert cs[..i + 1][..i] == cs[..i];
      var corner := cs[i];
      var entities := chunk.EntitiesAtBlock(corner.0, corner.1);
      if entities.Some? {
        nearby := nearby + entities.value;
      }
    }
    assert cs[..4] == cs;
  }

  /**
   * An actor that has just been relocated finds itself among its nearby
   * entities whenever one of its corner columns lies in the chunk.
   */
  lemma RelocatedSeesItself(columns: Columns, entity: nat, olds: seq<(int, int)>, news: seq<(int, int)>, i: nat)
    requires i < |news| && ColumnInBounds(news[i].0, news[i].1)
    ensures entity in NearbyOf(Relocated(columns, entity, olds, Some(news)), news)
  {
    RelocatedExact(columns, entity, olds, Some(news), news[i].0, news[i].1, entity + 1);
    NearbyOfExact(Relocated(columns, entity, olds, Some(news)), news, entity);
  }

  /** `apply_gravity`: the vertical speed drops by `GRAVITY * delta_time`. */
  function ApplyGravity(a: Actor, deltaTime: real): (r: Actor)
    ensures r.yVelocity == a.yVelocity - Gravity * deltaTime
    ensures deltaTime > 0.0 ==> r.yVelocity < a.yVelocity
    ensures r.(yVelocity := a.yVelocity) == a
  {
    a.(yVelocity := a.yVelocity - Gravity * deltaTime)
  }

  /** `snap_to_floor`: at rest, with the centre half the height above the floor of its cell's row. */
  function SnapToFloor(a: Actor): (r: Actor)
    ensures r.yVelocity == 0.0
    ensures r.position.y - a.size.y * 0.5 == (a.position.y.Floor) as real
    ensures r.position.x == a.position.x && r.position.z == a.position.z
    ensures r.(position := a.position, yVelocity := a.yVelocity) == a
  {
    a.(yVelocity := 0.0, position := a.position.(y := a.position.y.Floor as real + a.size.y * 0.5))
  }

  /**
   * The outcome of a refused vertical step in `ActorSystem`: it snaps to
   * the floor only when it was falling, and always ends at rest.
   */
  function Blocked(a: Actor): (r: Actor)
    ensures r.yVelocity == 0.0
    ensures a.yVelocity >= 0.0 ==> r == a.(yVelocity := 0.0)
    ensures a.yVelocity < 0.0 ==> r.position.y == a.position.y.Floor as real + a.size.y * 0.5
    ensures a.yVelocity < 0.0 ==> r.position.x == a.position.x && r.position.z == a.position.z
    ensures r.(position := a.position, yVelocity := a.yVelocity) == a
  {
    var snapped := if a.yVelocity < 0.0 then SnapToFloor(a) else a;
    snapped.(yVelocity := 0.0)
  }
}
