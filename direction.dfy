/**
 * The six axis directions of a voxel face (src/direction.rs), their
 * discriminants and their unit offsets.
 */
module Direction {
  import opened Wrappers
  import opened Vector

  /** The enum, in discriminant order: Forward = 0 … Down = 5. */
  datatype Direction = Forward | Backward | Right | Left | Up | Down

  /** The enum's discriminant (`dir as usize`). */
  function Index(d: Direction): (i: nat)
    ensures i < 6
  {
    match d
    case Forward => 0
    case Backward => 1
    case Right => 2
    case Left => 3
    case Up => 4
    case Down => 5
  }

  /**
   * `index_to_dir`: defined on 0..5; any other index panics, which is
   * `None` here.
   */
  function IndexToDir(i: int): (r: Option<Direction>)
    ensures r.Some? <==> 0 <= i < 6
    ensures r.Some? ==> Index(r.value) == i
  {
    match i
    case 0 => Some(Forward)
    case 1 => Some(Backward)
    case 2 => Some(Right)
    case 3 => Some(Left)
    case 4 => Some(Up)
    case 5 => Some(Down)
    case _ => None
  }

  /** `index_to_dir` for an index the callers' loops keep below 6. */
  function DirAt(i: nat): (d: Direction)
    requires i < 6
    ensures Index(d) == i
  {
    IndexToDir(i).value
  }

  /** Exactly one component is non-zero, and it is 1 or -1. */
  predicate UnitStep(o: Int3) {
    || (o.y == 0 && o.z == 0 && (o.x == 1 || o.x == -1))
    || (o.x == 0 && o.z == 0 && (o.y == 1 || o.y == -1))
    || (o.x == 0 && o.y == 0 && (o.z == 1 || o.z == -1))
  }

  /** `dir_to_offset`: the unit step towards the face (see `OffsetUnit`). */
  function Offset(d: Direction): (o: Int3) {
    match d
    case Up => Int3(0, 1, 0)
    case Down => Int3(0, -1, 0)
    case Forward => Int3(0, 0, -1)
    case Backward => Int3(0, 0, 1)
    case Left => Int3(-1, 0, 0)
    case Right => Int3(1, 0, 0)
  }

  /** The direction whose offset is the negation of `d`'s. */
  function Opposite(d: Direction): Direction {
    match d
    case Forward => Backward
    case Backward => Forward
    case Right => Left
    case Left => Right
    case Up => Down
    case Down => Up
  }

  /** Discriminant and variant round-trip in both directions. */
  lemma IndexRoundTrip(d: Direction, i: nat)
    requires i < 6
    ensures IndexToDir(Index(d)) == Some(d)
    ensures Index(DirAt(i)) == i && DirAt(Index(d)) == d
  {
  }

  /** Every offset is a unit step; the first four directions are horizontal. */
  lemma OffsetUnit(d: Direction)
    ensures UnitStep(Offset(d))
    ensures Offset(d).y == 0 <==> Index(d) < 4
  {
  }

  /** The six offsets are pairwise distinct. */
  lemma OffsetInjective(a: Direction, b: Direction)
    ensures Offset(a) == Offset(b) ==> a == b
  {
  }

  /** Forward/Backward, Right/Left and Up/Down are negations of each other. */
  lemma OppositeNegates(d: Direction)
    ensures Offset(Opposite(d)) == Offset(d).Neg()
  {
    match d
    case Forward =>
    case Backward =>
    case Right =>
    case Left =>
    case Up =>
    case Down =>
  }

  /** Taking the opposite twice gives the direction back; no direction is its own opposite. */
  lemma OppositeInvolution(d: Direction)
    ensures Opposite(Opposite(d)) == d && Opposite(d) != d
  {
  }
}
