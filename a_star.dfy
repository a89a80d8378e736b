/**
 * The grid pathfinder (src/a_star.rs): a best-first search over the
 * horizontal neighbours of a cell that records each reached cell's parent,
 * and the walk back along those parents from the goal.
 *
 * `Search` is modelled for chunks whose out-of-range cells read solid;
 * only then is the set of reachable cells finite, so only then does the
 * search end when the goal cannot be reached. `OpenSearchNeverEnds` states
 * what the loop does as the game runs it, with out-of-range cells open: for
 * a goal it cannot reach, it never ends.
 */
module AStar {
  import opened Vector
  import opened Direction
  import opened Chunks

  /** A frontier entry: the cell and its priority (the heuristic distance to the goal). */
  datatype Node = Node(priority: int, position: Int3)

  datatype Ordering = Less | Equal | Greater

  /**
   * `Node::cmp`: priorities compared the other way round, so the max-heap
   * `BinaryHeap` pops the entry with the smallest priority first.
   */
  function Cmp(a: Node, b: Node): (r: Ordering)
    ensures r == Greater <==> a.priority < b.priority
    ensures r == Less <==> b.priority < a.priority
    ensures r == Equal <==> a.priority == b.priority
  {
    if b.priority < a.priority then Less
    else if b.priority == a.priority then Equal
    else Greater
  }

  /** `heuristic`: the Manhattan distance in the horizontal plane; y is ignored. */
  function Heuristic(a: Int3, b: Int3): (r: nat)
    ensures r == 0 <==> a.x == b.x && a.z == b.z
  {
    Abs(a.x - b.x) + Abs(a.z - b.z)
  }

  /** The heuristic is symmetric. */
  lemma HeuristicSymmetric(a: Int3, b: Int3)
    ensures Heuristic(a, b) == Heuristic(b, a)
  {
  }

  /** One step to a neighbour changes the heuristic by exactly one: it never overestimates the number of steps left. */
  lemma HeuristicStep(a: Int3, n: Int3, goal: Int3)
    requires Adjacent(a, n)
    ensures Heuristic(n, goal) == Heuristic(a, goal) + 1 || Heuristic(n, goal) == Heuristic(a, goal) - 1
  {
  }

  /** One horizontal step apart on the same level. */
  predicate Adjacent(a: Int3, b: Int3) {
    a.y == b.y && Abs(a.x - b.x) + Abs(a.z - b.z) == 1
  }

  /** The candidate neighbours `get_neighbors` looks at: the offsets of directions 0..k-1, the horizontal four for k = 4. */
  function NeighboursUpTo(grid: seq<bool>, oob: bool, p: Int3, k: nat): seq<Int3>
    requires |grid| == ChunkLen && k <= 4
  {
    if k == 0 then []
    else
      var n := p.Add(Offset(DirAt(k - 1)));
      NeighboursUpTo(grid, oob, p, k - 1) + if BlockAt(grid, oob, n) then [] else [n]
  }

  /** The directions `get_neighbors` tries: indices 0..3, the horizontal ones. */
  const Horizontal: nat := 4

  /** The neighbours of `p` the search may step to. */
  function Neighbours(grid: seq<bool>, oob: bool, p: Int3): seq<Int3>
    requires |grid| == ChunkLen
  {
    NeighboursUpTo(grid, oob, p, Horizontal)
  }

  /** The neighbours found among directions 0..k-1 are the non-solid cells at those directions' offsets. */
  lemma {:induction false} NeighboursUpToExact(grid: seq<bool>, oob: bool, p: Int3, k: nat, n: Int3)
    requires |grid| == ChunkLen && k <= 4
    ensures n in NeighboursUpTo(grid, oob, p, k) <==>
            !BlockAt(grid, oob, n) && exists i :: 0 <= i < k && n == p.Add(Offset(DirAt(i)))
  {
    if k > 0 {
      NeighboursUpToExact(grid, oob, p, k - 1, n);
      if n == p.Add(Offset(DirAt(k - 1))) {
        assert 0 <= k - 1 < k && n == p.Add(Offset(DirAt(k - 1)));
      }
      if exists i :: 0 <= i < k && n == p.Add(Offset(DirAt(i))) {
        var i :| 0 <= i < k && n == p.Add(Offset(DirAt(i)));
        if i < k - 1 {
          assert 0 <= i < k - 1 && n == p.Add(Offset(DirAt(i)));
        }
      }
    }
  }

  /** The neighbours of `p` are exactly the adjacent cells that are not solid. */
  lemma NeighboursExact(grid: seq<bool>, oob: bool, p: Int3, n: Int3)
    requires |grid| == ChunkLen
    ensures n in Neighbours(grid, oob, p) <==> Adjacent(p, n) && !BlockAt(grid, oob, n)
  {
    NeighboursUpToExact(grid, oob, p, Horizontal, n);
    if Adjacent(p, n) {
      if n.z < p.z {
        assert n == p.Add(Offset(DirAt(0)));
      } else if n.z > p.z {
        assert n == p.Add(Offset(DirAt(1)));
      } else if n.x > p.x {
        assert n == p.Add(Offset(DirAt(2)));
      } else {
        assert n == p.Add(Offset(DirAt(3)));
      }
    }
    if exists i :: 0 <= i < Horizontal && n == p.Add(Offset(DirAt(i))) {
      var i :| 0 <= i < Horizontal && n == p.Add(Offset(DirAt(i)));
      assert i == 0 || i == 1 || i == 2 || i == 3;
    }
  }

  /** `get_neighbors`: the non-solid cells one horizontal step from `position`, in direction order. */
  method GetNeighbours(position: Int3, chunk: Chunk) returns (neighbours: seq<Int3>)
    requires chunk.Valid()
    ensures neighbours == Neighbours(chunk.blocks[..], chunk.oobSolid, position)
  {
    neighbours := [];
    for i := 0 to Horizontal
      invariant neighbours == NeighboursUpTo(chunk.blocks[..], chunk.oobSolid, position, i)
    {
      var n := position.Add(Offset(DirAt(i)));
      if chunk.GetBlock(n.x, n.y, n.z) {
        continue;
      }
      neighbours := neighbours + [n];
    }
  }

  /**
   * The parents recorded so far lead back to `start`: `start` is its own
   * parent at depth 0, and every other cell's parent is recorded one level
   * less deep.
   */
  ghost predicate Rooted(cameFrom: map<Int3, Int3>, start: Int3, depth: map<Int3, nat>) {
    && (forall p | p in cameFrom :: p in depth)
    && (start in cameFrom ==> cameFrom[start] == start && depth[start] == 0)
    && (forall p {:trigger cameFrom[p]} | p in cameFrom && p != start ::
          cameFrom[p] in cameFrom && depth[p] == depth[cameFrom[p]] + 1)
  }

  /** Every recorded step goes from a cell to an adjacent cell that is not solid. */
  ghost predicate Passable(cameFrom: map<Int3, Int3>, start: Int3, grid: seq<bool>, oob: bool)
    requires |grid| == ChunkLen
  {
    forall p | p in cameFrom && p != start :: Adjacent(cameFrom[p], p) && !BlockAt(grid, oob, p)
  }

  /** Every neighbour of a reached cell has been reached: the search has nowhere left to go. */
  ghost predicate Closed(cameFrom: map<Int3, Int3>, grid: seq<bool>, oob: bool)
    requires |grid| == ChunkLen
  {
    forall p, n | p in cameFrom && n in Neighbours(grid, oob, p) :: n in cameFrom
  }

  /** The cells inside the chunk. */
  ghost function Box(): set<Int3> {
    set x: int, y: int, z: int | 0 <= x < ChunkSize && 0 <= y < ChunkSize && 0 <= z < ChunkSize :: Int3(x, y, z)
  }

  lemma InBox(p: Int3)
    requires InBounds(p)
    ensures p in Box()
  {
    assert p == Int3(p.x, p.y, p.z);
  }

  /** Reaching more cells of a finite set leaves fewer of it unreached. */
  lemma FewerUnreached(all: set<Int3>, reached0: set<Int3>, reached: set<Int3>)
    requires reached0 <= reached <= all && reached0 != reached
    ensures |all - reached| < |all - reached0|
  {
    var p :| p in reached && p !in reached0;
    assert all - reached0 == (all - reached) + (reached - reached0);
    assert (all - reached) !! (reached - reached0);
    assert p in reached - reached0;
  }

  /** The cells the frontier holds. */
  ghost function Cells(frontier: seq<Node>): set<Int3> {
    set n | n in frontier :: n.position
  }

  /** A frontier that is not empty has an entry no other entry is greater than under `Cmp`. */
  lemma TopExists(frontier: seq<Node>) returns (i: nat)
    requires frontier != []
    ensures i < |frontier| && forall j | 0 <= j < |frontier| :: Cmp(frontier[i], frontier[j]) != Less
  {
    if |frontier| == 1 {
      return 0;
    }
    var k := TopExists(frontier[1..]);
    if frontier[0].priority <= frontier[k + 1].priority {
      i := 0;
    } else {
      i := k + 1;
    }
    forall j | 0 <= j < |frontier| ensures Cmp(frontier[i], frontier[j]) != Less {
      if j > 0 {
        assert frontier[j] == frontier[1..][j - 1];
      }
    }
  }

  /**
   * `a_star_search`: `start` and `goal` are world cells, divided by the
   * block size first. On different levels nothing is recorded. Otherwise the
   * start is recorded as its own parent, and until the frontier is empty or
   * the goal is popped, the lowest-priority entry is popped and each of its
   * neighbours not yet recorded gets it as parent and joins the frontier.
   * So every recorded cell leads back to the start over passable steps, and
   * when the goal was not reached, no neighbour of a reached cell is left
   * unreached (see `ClosedUnreachable`).
   */
  method Search(chunk: Chunk, start: Int3, goal: Int3) returns (cameFrom: map<Int3, Int3>, ghost depth: map<Int3, nat>)
    requires chunk.Valid() && chunk.oobSolid
    ensures var s, g := TruncDiv3(start, chunk.blockSize), TruncDiv3(goal, chunk.blockSize);
            && (s.y != g.y ==> cameFrom == map[])
            && (s.y == g.y ==> s in cameFrom && g.y == s.y
                               && Rooted(cameFrom, s, depth)
                               && Passable(cameFrom, s, chunk.blocks[..], chunk.oobSolid)
                               && (g !in cameFrom ==> Closed(cameFrom, chunk.blocks[..], chunk.oobSolid)))
  {
    var s, g := TruncDiv3(start, chunk.blockSize), TruncDiv3(goal, chunk.blockSize);
    cameFrom, depth := map[], map[];
    if s.y != g.y {
      return;
    }
    ghost var grid, oob := chunk.blocks[..], chunk.oobSolid;
    var frontier := [Node(0, s)];
    cameFrom, depth := cameFrom[s := s], depth[s := 0];
    while frontier != []
      invariant SearchInvariant(grid, oob, s, frontier, cameFrom, depth)
      decreases |Box() + {s} - cameFrom.Keys|, |frontier|
    {
      ghost var top := TopExists(frontier);
      var i :| 0 <= i < |frontier| && forall j | 0 <= j < |frontier| :: Cmp(frontier[i], frontier[j]) != Less;
      var current := frontier[i].position;
      ghost var was, before := frontier, cameFrom;
      assert current in Cells(was);
      frontier := frontier[..i] + frontier[i + 1..];
      if current == g {
        break;
      }
      var neighbours := GetNeighbours(current, chunk);
      frontier, cameFrom := Expand(current, neighbours, g, frontier, cameFrom);
      ExpandSettled(grid, oob, s, g, was, i, before, depth);
      depth := ExpandRooted(grid, oob, s, g, was, i, before, depth);
    }
  }

  /** What holds of the search between two pops. */
  ghost predicate SearchInvariant(grid: seq<bool>, oob: bool, s: Int3, frontier: seq<Node>, cameFrom: map<Int3, Int3>, depth: map<Int3, nat>)
    requires |grid| == ChunkLen
  {
    && s in cameFrom && Rooted(cameFrom, s, depth) && Passable(cameFrom, s, grid, oob)
    && Cells(frontier) <= cameFrom.Keys <= Box() + {s}
    && Settled(cameFrom, frontier, grid, oob)
  }

  /** Every reached cell that has left the frontier has had all its neighbours reached. */
  ghost predicate Settled(cameFrom: map<Int3, Int3>, frontier: seq<Node>, grid: seq<bool>, oob: bool)
    requires |grid| == ChunkLen
  {
    forall p {:trigger Neighbours(grid, oob, p)} | p in cameFrom && p !in Cells(frontier) ::
      forall n | n in Neighbours(grid, oob, p) :: n in cameFrom
  }

  /** Removing one entry of the frontier removes its cell and no other. */
  lemma CellsRemove(frontier: seq<Node>, i: nat)
    requires i < |frontier|
    ensures Cells(frontier) == Cells(frontier[..i] + frontier[i + 1..]) + {frontier[i].position}
  {
    assert frontier == frontier[..i] + [frontier[i]] + frontier[i + 1..];
  }

  /** The cells a round reaches hang off the popped cell, one level deeper, inside the chunk. */
  lemma ExpandRooted(grid: seq<bool>, oob: bool, s: Int3, g: Int3, was: seq<Node>, i: nat, cameFrom: map<Int3, Int3>,
                     depth: map<Int3, nat>) returns (depth': map<Int3, nat>)
    requires |grid| == ChunkLen && oob && i < |was|
    requires SearchInvariant(grid, oob, s, was, cameFrom, depth)
    ensures var r := Expanded(was[i].position, Neighbours(grid, oob, was[i].position), g, was[..i] + was[i + 1..], cameFrom);
            && s in r.1 && Rooted(r.1, s, depth') && Passable(r.1, s, grid, oob) && r.1.Keys <= Box() + {s}
  {
    var current := was[i].position;
    var neighbours := Neighbours(grid, oob, current);
    var r := Expanded(current, neighbours, g, was[..i] + was[i + 1..], cameFrom);
    ExpandedParents(current, neighbours, g, was[..i] + was[i + 1..], cameFrom);
    assert current in Cells(was);
    depth' := map p | p in r.1 :: if p in cameFrom then depth[p] else depth[current] + 1;
    forall p | p in r.1 && p !in cameFrom
      ensures Adjacent(current, p) && !BlockAt(grid, oob, p) && p in Box()
    {
      NeighboursExact(grid, oob, current, p);
      InBox(p);
    }
  }

  /**
   * After a round the frontier still holds only reached cells, every other
   * reached cell has all its neighbours reached, and the round either
   * reached a new cell or shortened the frontier.
   */
  lemma ExpandSettled(grid: seq<bool>, oob: bool, s: Int3, g: Int3, was: seq<Node>, i: nat, cameFrom: map<Int3, Int3>, depth: map<Int3, nat>)
    requires |grid| == ChunkLen && oob && i < |was|
    requires SearchInvariant(grid, oob, s, was, cameFrom, depth)
    ensures var popped := was[..i] + was[i + 1..];
            var r := Expanded(was[i].position, Neighbours(grid, oob, was[i].position), g, popped, cameFrom);
            && Cells(r.0) <= r.1.Keys && Settled(r.1, r.0, grid, oob)
            && (r.1.Keys == cameFrom.Keys ==> r.0 == popped)
            && (r.1.Keys != cameFrom.Keys ==> |Box() + {s} - r.1.Keys| < |Box() + {s} - cameFrom.Keys|)
  {
    var current := was[i].position;
    var popped := was[..i] + was[i + 1..];
    var neighbours := Neighbours(grid, oob, current);
    var r := Expanded(current, neighbours, g, popped, cameFrom);
    ExpandKeepsSettled(grid, oob, g, was, i, cameFrom);
    if r.1.Keys != cameFrom.Keys {
      ExpandedParents(current, neighbours, g, popped, cameFrom);
      forall p | p in r.1 && p !in cameFrom ensures p in Box() {
        NeighboursExact(grid, oob, current, p);
        InBox(p);
      }
      FewerUnreached(Box() + {s}, cameFrom.Keys, r.1.Keys);
    }
  }

  /**
   * Whatever out-of-range cells read, a round keeps the frontier within
   * the reached cells and every reached cell off the frontier settled, and
   * a round that reaches nothing new only shortens the frontier.
   */
  lemma ExpandKeepsSettled(grid: seq<bool>, oob: bool, g: Int3, was: seq<Node>, i: nat, cameFrom: map<Int3, Int3>)
    requires |grid| == ChunkLen && i < |was|
    requires Cells(was) <= cameFrom.Keys && Settled(cameFrom, was, grid, oob)
    ensures var popped := was[..i] + was[i + 1..];
            var r := Expanded(was[i].position, Neighbours(grid, oob, was[i].position), g, popped, cameFrom);
            && Cells(r.0) <= r.1.Keys && Settled(r.1, r.0, grid, oob)
            && (r.1.Keys == cameFrom.Keys ==> r.0 == popped)
  {
    var current := was[i].position;
    var popped := was[..i] + was[i + 1..];
    var neighbours := Neighbours(grid, oob, current);
    var r := Expanded(current, neighbours, g, popped, cameFrom);
    CellsRemove(was, i);
    ExpandedParents(current, neighbours, g, popped, cameFrom);
    ExpandedFrontier(current, neighbours, g, popped, cameFrom);
    forall p | p in r.1 && p !in Cells(r.0)
      ensures forall n | n in Neighbours(grid, oob, p) :: n in r.1
    {
      assert p in cameFrom && p !in Cells(popped);
    }
  }

  /**
   * The `for next in &neighbors` loop of the search as a function: each
   * neighbour not yet recorded gets `current` as parent and joins the
   * frontier with the heuristic as priority.
   */
  function Expanded(current: Int3, neighbours: seq<Int3>, goal: Int3, frontier: seq<Node>, cameFrom: map<Int3, Int3>)
    : (seq<Node>, map<Int3, Int3>)
    decreases |neighbours|
  {
    if neighbours == [] then (frontier, cameFrom)
    else
      var prev := Expanded(current, neighbours[..|neighbours| - 1], goal, frontier, cameFrom);
      var next := neighbours[|neighbours| - 1];
      if next in prev.1 then prev
      else (prev.0 + [Node(Heuristic(next, goal), next)], prev.1[next := current])
  }

  /** Expanding records every neighbour, keeps the parents already recorded, and gives the new cells `current` as parent. */
  lemma {:induction false} ExpandedParents(current: Int3, neighbours: seq<Int3>, goal: Int3, frontier: seq<Node>, cameFrom: map<Int3, Int3>)
    ensures var r := Expanded(current, neighbours, goal, frontier, cameFrom).1;
            && cameFrom.Keys <= r.Keys && (forall p | p in cameFrom :: r[p] == cameFrom[p])
            && (forall p | p in r && p !in cameFrom :: r[p] == current && p in neighbours)
            && (forall n | n in neighbours :: n in r)
    decreases |neighbours|
  {
    if neighbours != [] {
      var init := neighbours[..|neighbours| - 1];
      ExpandedParents(current, init, goal, frontier, cameFrom);
      assert neighbours == init + [neighbours[|neighbours| - 1]];
    }
  }

  /** The frontier gains exactly the newly recorded cells, and nothing when no cell is new. */
  lemma {:induction false} ExpandedFrontier(current: Int3, neighbours: seq<Int3>, goal: Int3, frontier: seq<Node>, cameFrom: map<Int3, Int3>)
    ensures var r := Expanded(current, neighbours, goal, frontier, cameFrom);
            && Cells(r.0) == Cells(frontier) + (r.1.Keys - cameFrom.Keys)
            && (r.1.Keys == cameFrom.Keys ==> r.0 == frontier)
            && cameFrom.Keys <= r.1.Keys
    decreases |neighbours|
  {
    if neighbours != [] {
      var init := neighbours[..|neighbours| - 1];
      ExpandedFrontier(current, init, goal, frontier, cameFrom);
      var prev := Expanded(current, init, goal, frontier, cameFrom);
      var next := neighbours[|neighbours| - 1];
      if next !in prev.1 {
        CellsAppend(prev.0, Node(Heuristic(next, goal), next));
      }
    }
  }

  lemma CellsAppend(frontier: seq<Node>, n: Node)
    ensures Cells(frontier + [n]) == Cells(frontier) + {n.position}
  {
    assert n in frontier + [n];
    forall m | m in frontier ensures m in frontier + [n] {
    }
  }

  /** The `for next in &neighbors` loop of the search. */
  method Expand(current: Int3, neighbours: seq<Int3>, goal: Int3, frontier0: seq<Node>, cameFrom0: map<Int3, Int3>)
    returns (frontier: seq<Node>, cameFrom: map<Int3, Int3>)
    ensures (frontier, cameFrom) == Expanded(current, neighbours, goal, frontier0, cameFrom0)
  {
    frontier, cameFrom := frontier0, cameFrom0;
    for k := 0 to |neighbours|
      invariant (frontier, cameFrom) == Expanded(current, neighbours[..k], goal, frontier0, cameFrom0)
    {
      assert neighbours[..k + 1][..k] == neighbours[..k];
      var next := neighbours[k];
      if next in cameFrom {
        continue;
      }
      frontier := frontier + [Node(Heuristic(next, goal), next)];
      cameFrom := cameFrom[next := current];
    }
    assert neighbours[..|neighbours|] == neighbours;
  }

  /** Consecutive cells are neighbours the search may step between. */
  ghost predicate Walk(grid: seq<bool>, oob: bool, cells: seq<Int3>)
    requires |grid| == ChunkLen
  {
    forall i | 0 <= i < |cells| - 1 :: cells[i + 1] in Neighbours(grid, oob, cells[i])
  }

  /**
   * A closed set of reached cells contains every walk that starts in it:
   * so when the search stops without reaching the goal, no walk from the
   * start reaches it.
   */
  lemma {:induction false} ClosedUnreachable(grid: seq<bool>, oob: bool, cameFrom: map<Int3, Int3>, cells: seq<Int3>)
    requires |grid| == ChunkLen && Closed(cameFrom, grid, oob)
    requires cells != [] && cells[0] in cameFrom && Walk(grid, oob, cells)
    ensures cells[|cells| - 1] in cameFrom
    decreases |cells|
  {
    if |cells| > 1 {
      var init := cells[..|cells| - 1];
      assert Walk(grid, oob, init) by {
        forall i | 0 <= i < |init| - 1 ensures init[i + 1] in Neighbours(grid, oob, init[i]) {
          assert init[i] == cells[i] && init[i + 1] == cells[i + 1];
        }
      }
      ClosedUnreachable(grid, oob, cameFrom, init);
      assert cells[|cells| - 1] in Neighbours(grid, oob, cells[|cells| - 2]);
    }
  }

  /**
   * The search as the game runs it: `get_block` answers false outside the
   * grid, so every out-of-range cell is open. Between two pops the start
   * is recorded, the frontier holds only recorded cells, every recorded
   * parent is recorded, every recorded step is passable, and every
   * recorded cell off the frontier is settled.
   */
  ghost predicate OpenRound(grid: seq<bool>, s: Int3, frontier: seq<Node>, cameFrom: map<Int3, Int3>)
    requires |grid| == ChunkLen
  {
    && s in cameFrom && Cells(frontier) <= cameFrom.Keys
    && (forall p | p in cameFrom :: cameFrom[p] in cameFrom)
    && Passable(cameFrom, s, grid, false)
    && Settled(cameFrom, frontier, grid, false)
  }

  /** A goal no search from `s` can record: its four horizontal neighbours are solid, and `s` is neither the goal nor one of them. */
  ghost predicate WalledIn(grid: seq<bool>, g: Int3, s: Int3)
    requires |grid| == ChunkLen
  {
    && (forall n | Adjacent(g, n) :: BlockAt(grid, false, n))
    && s != g && !Adjacent(g, s)
  }

  /** The grid with only the four cells around (5, 0, 5) solid. */
  function WalledGrid(): (grid: seq<bool>)
    ensures |grid| == ChunkLen
  {
    seq(ChunkLen, i => i == 4 + 5 * 256 || i == 6 + 5 * 256 || i == 5 + 4 * 256 || i == 5 + 6 * 256)
  }

  /** A search from (0, 0, 0) for the goal (5, 0, 5) on that grid meets the hypotheses of `OpenSearchNeverEnds`. */
  lemma WalledGoalExample()
    ensures WalledIn(WalledGrid(), Int3(5, 0, 5), Int3(0, 0, 0))
  {
    var g := Int3(5, 0, 5);
    forall n | Adjacent(g, n) ensures BlockAt(WalledGrid(), false, n) {
      assert n == Int3(4, 0, 5) || n == Int3(6, 0, 5) || n == Int3(5, 0, 4) || n == Int3(5, 0, 6);
    }
  }

  /** The search loop starts in `OpenRound`: the start alone is recorded and on the frontier. */
  lemma OpenSearchStarts(grid: seq<bool>, s: Int3)
    requires |grid| == ChunkLen
    ensures OpenRound(grid, s, [Node(0, s)], map[s := s])
  {
    assert Cells([Node(0, s)]) == {s} by {
      assert Node(0, s) in [Node(0, s)];
    }
  }

  /**
   * With out-of-range cells open, a goal walled in as `WalledIn` says and a
   * start on or beyond the grid's west face, the loop `while
   * !frontier.is_empty()` of `a_star_search` never stops: in every state
   * the loop reaches the frontier is not empty and holds no entry at the
   * goal, so neither the loop test nor the `break` ends it, and any pop
   * followed by the round of expansion leads to such a state again.
   */
  lemma OpenSearchNeverEnds(grid: seq<bool>, s: Int3, g: Int3, frontier: seq<Node>, cameFrom: map<Int3, Int3>, i: nat)
    requires |grid| == ChunkLen && WalledIn(grid, g, s) && s.x <= 0
    requires OpenRound(grid, s, frontier, cameFrom)
    ensures frontier != [] && forall j | 0 <= j < |frontier| :: frontier[j].position != g
    ensures i < |frontier| ==>
              var r := Expanded(frontier[i].position, Neighbours(grid, false, frontier[i].position), g,
                                frontier[..i] + frontier[i + 1..], cameFrom);
              OpenRound(grid, s, r.0, r.1)
  {
    OpenGoalUnrecorded(grid, s, g, cameFrom);
    forall j | 0 <= j < |frontier| ensures frontier[j].position != g {
      assert frontier[j].position in Cells(frontier);
    }
    OpenNotClosed(grid, s, cameFrom);
    assert Cells([]) == {};
    if i < |frontier| {
      OpenRoundStep(grid, s, g, frontier, cameFrom, i);
    }
  }

  /** A walled-in goal is never recorded: its recorded parent would be a solid neighbour, and only the start may be solid. */
  lemma OpenGoalUnrecorded(grid: seq<bool>, s: Int3, g: Int3, cameFrom: map<Int3, Int3>)
    requires |grid| == ChunkLen && WalledIn(grid, g, s)
    requires (forall p | p in cameFrom :: cameFrom[p] in cameFrom) && Passable(cameFrom, s, grid, false)
    ensures g !in cameFrom
  {
    forall p | p in cameFrom && p != s
      ensures cameFrom[p] in cameFrom && Adjacent(p, cameFrom[p])
    {
      assert Adjacent(cameFrom[p], p);
    }
  }

  /** With out-of-range cells open, recorded cells that include a start on or beyond the west face are never closed. */
  lemma OpenNotClosed(grid: seq<bool>, s: Int3, cameFrom: map<Int3, Int3>)
    requires |grid| == ChunkLen && s in cameFrom && s.x <= 0
    ensures !Closed(cameFrom, grid, false)
  {
    var w := Int3(s.x - 1, s.y, s.z);
    NeighboursExact(grid, false, s, w);
    OpenNeverCloses(grid, cameFrom, w);
  }

  /** One round of the loop keeps `OpenRound`, whatever out-of-range cells read. */
  lemma OpenRoundStep(grid: seq<bool>, s: Int3, g: Int3, frontier: seq<Node>, cameFrom: map<Int3, Int3>, i: nat)
    requires |grid| == ChunkLen && i < |frontier| && OpenRound(grid, s, frontier, cameFrom)
    ensures var r := Expanded(frontier[i].position, Neighbours(grid, false, frontier[i].position), g,
                              frontier[..i] + frontier[i + 1..], cameFrom);
            OpenRound(grid, s, r.0, r.1)
  {
    var current := frontier[i].position;
    var popped := frontier[..i] + frontier[i + 1..];
    var neighbours := Neighbours(grid, false, current);
    var r := Expanded(current, neighbours, g, popped, cameFrom);
    ExpandKeepsSettled(grid, false, g, frontier, i, cameFrom);
    ExpandedParents(current, neighbours, g, popped, cameFrom);
    assert current in Cells(frontier);
    forall p | p in r.1 && p !in cameFrom
      ensures r.1[p] in r.1 && Adjacent(r.1[p], p) && !BlockAt(grid, false, p)
    {
      NeighboursExact(grid, false, current, p);
    }
  }

  /** The cells `p` and the `n` cells west of it. */
  ghost function West(p: Int3, n: nat): set<Int3>
    decreases n
  {
    if n == 0 then {p} else West(p, n - 1) + {Int3(p.x - n, p.y, p.z)}
  }

  lemma {:induction false} WestSize(p: Int3, n: nat)
    ensures |West(p, n)| == n + 1
    ensures forall q | q in West(p, n) :: p.x - n <= q.x
    decreases n
  {
    if n > 0 {
      WestSize(p, n - 1);
      assert Int3(p.x - n, p.y, p.z) !in West(p, n - 1);
    }
  }

  /** A closed set of recorded cells holding an out-of-range cell west of the grid holds every cell further west. */
  lemma {:induction false} WestRecorded(grid: seq<bool>, cameFrom: map<Int3, Int3>, p: Int3, n: nat)
    requires |grid| == ChunkLen && Closed(cameFrom, grid, false) && p in cameFrom && p.x < 0
    ensures West(p, n) <= cameFrom.Keys
    decreases n
  {
    if n > 0 {
      WestRecorded(grid, cameFrom, p, n - 1);
      var q, w := Int3(p.x - (n - 1), p.y, p.z), Int3(p.x - n, p.y, p.z);
      if n == 1 {
        assert q == p;
      } else {
        assert q in West(p, n - 1);
      }
      NeighboursExact(grid, false, q, w);
    }
  }

  /** With out-of-range cells open, no finite closed set of recorded cells reaches past the grid's west face. */
  lemma OpenNeverCloses(grid: seq<bool>, cameFrom: map<Int3, Int3>, p: Int3)
    requires |grid| == ChunkLen
    ensures p in cameFrom && p.x < 0 ==> !Closed(cameFrom, grid, false)
  {
    var n := |cameFrom.Keys|;
    if p in cameFrom && p.x < 0 && Closed(cameFrom, grid, false) {
      WestRecorded(grid, cameFrom, p, n);
    }
    WestSize(p, n);
    SubsetSize(West(p, n), cameFrom.Keys);
  }

  lemma SubsetSize(a: set<Int3>, b: set<Int3>)
    ensures a <= b ==> |a| <= |b|
  {
    if a <= b {
      assert b == a + (b - a);
    }
  }

  /** The cells from `p` back along the recorded parents, up to but not including `start`. */
  ghost function Chain(cameFrom: map<Int3, Int3>, start: Int3, p: Int3, depth: map<Int3, nat>): seq<Int3>
    requires Rooted(cameFrom, start, depth) && p in cameFrom
    decreases depth[p]
  {
    if p == start then [] else [p] + Chain(cameFrom, start, cameFrom[p], depth)
  }

  /** The chain from a reached cell starts at that cell, has one cell per level of depth, and never visits `start`. */
  lemma {:induction false} ChainShape(cameFrom: map<Int3, Int3>, start: Int3, p: Int3, depth: map<Int3, nat>)
    requires Rooted(cameFrom, start, depth) && p in cameFrom
    ensures var c := Chain(cameFrom, start, p, depth);
            |c| == depth[p] && start !in c && (c != [] ==> c[0] == p)
    decreases depth[p]
  {
    if p != start {
      ChainShape(cameFrom, start, cameFrom[p], depth);
    }
  }

  /**
   * Along the chain each cell is reached and passable, one step from its
   * parent, and that parent is the next cell of the chain (the last one's
   * is `start`).
   */
  lemma {:induction false} ChainSteps(grid: seq<bool>, oob: bool, cameFrom: map<Int3, Int3>, start: Int3, p: Int3, depth: map<Int3, nat>)
    requires |grid| == ChunkLen && Rooted(cameFrom, start, depth) && Passable(cameFrom, start, grid, oob) && p in cameFrom
    ensures var c := Chain(cameFrom, start, p, depth);
            && (forall i | 0 <= i < |c| ::
                  c[i] in cameFrom && c[i] != start && Adjacent(cameFrom[c[i]], c[i]) && !BlockAt(grid, oob, c[i]))
            && (forall i, j | 0 <= i && j == i + 1 && j < |c| :: cameFrom[c[i]] == c[j])
            && (c != [] ==> cameFrom[c[|c| - 1]] == start)
    decreases depth[p]
  {
    var c := Chain(cameFrom, start, p, depth);
    if p == start {
      assert c == [];
    } else {
      var q := cameFrom[p];
      ChainSteps(grid, oob, cameFrom, start, q, depth);
      ChainShape(cameFrom, start, q, depth);
      var rest := Chain(cameFrom, start, q, depth);
      assert c == [p] + rest;
      forall i | 0 <= i < |c|
        ensures c[i] in cameFrom && c[i] != start && Adjacent(cameFrom[c[i]], c[i]) && !BlockAt(grid, oob, c[i])
      {
        if i > 0 {
          assert c[i] == rest[i - 1];
        }
      }
      forall i, j | 0 <= i && j == i + 1 && j < |c|
        ensures cameFrom[c[i]] == c[j]
      {
        if i > 0 {
          assert c[i] == rest[i - 1] && c[j] == rest[j - 1];
        }
      }
      if rest != [] {
        assert c[|c| - 1] == rest[|rest| - 1];
      }
    }
  }

  /** `(cell.cast::<f32>() + (0.5, 0.5, 0.5)) * BLOCK_SIZE_F`: the world position of a cell's centre. */
  function Center(c: Int3, blockSize: int): Vec3 {
    Vec3((c.x as real + 0.5) * blockSize as real, (c.y as real + 0.5) * blockSize as real, (c.z as real + 0.5) * blockSize as real)
  }

  /** The centres of `cells`, in order. */
  function Centers(cells: seq<Int3>, blockSize: int): (r: seq<Vec3>)
    ensures |r| == |cells| && forall i | 0 <= i < |cells| :: r[i] == Center(cells[i], blockSize)
  {
    if cells == [] then [] else [Center(cells[0], blockSize)] + Centers(cells[1..], blockSize)
  }

  /** A chain from a cell other than `start` is that cell followed by its parent's chain, one level less deep. */
  lemma ChainCons(cameFrom: map<Int3, Int3>, start: Int3, p: Int3, depth: map<Int3, nat>)
    requires Rooted(cameFrom, start, depth) && p in cameFrom && p != start
    ensures cameFrom[p] in cameFrom && depth[cameFrom[p]] < depth[p]
    ensures Chain(cameFrom, start, p, depth) == [p] + Chain(cameFrom, start, cameFrom[p], depth)
  {
    assert cameFrom[p] in cameFrom;
  }

  /** Emitting the centre of the first cell of a chain moves it from the chain's centres to the path. */
  lemma CentersStep(path: seq<Vec3>, c: Int3, rest: seq<Int3>, blockSize: int)
    ensures path + Centers([c] + rest, blockSize) == (path + [Center(c, blockSize)]) + Centers(rest, blockSize)
  {
    assert ([c] + rest)[1..] == rest;
  }

  /**
   * `reconstruct_path`: empty when `start` and `goal` (divided by the
   * block size) are on different levels or the goal was not reached;
   * otherwise the centres of the cells from the goal back along the
   * recorded parents, the start's own cell left out, so the walker pops
   * the first step last-in first-out.
   */
  method ReconstructPath(start: Int3, goal: Int3, cameFrom: map<Int3, Int3>, ghost depth: map<Int3, nat>, blockSize: int)
    returns (path: seq<Vec3>)
    requires blockSize > 0 && Rooted(cameFrom, TruncDiv3(start, blockSize), depth)
    ensures var s, g := TruncDiv3(start, blockSize), TruncDiv3(goal, blockSize);
            path == if s.y == g.y && g in cameFrom then Centers(Chain(cameFrom, s, g, depth), blockSize) else []
  {
    path := WalkBack(TruncDiv3(start, blockSize), TruncDiv3(goal, blockSize), cameFrom, depth, blockSize);
  }

  /** `reconstruct_path` once the start and goal cells `s` and `g` are known. */
  method WalkBack(s: Int3, g: Int3, cameFrom: map<Int3, Int3>, ghost depth: map<Int3, nat>, blockSize: int)
    returns (path: seq<Vec3>)
    requires Rooted(cameFrom, s, depth)
    ensures path == if s.y == g.y && g in cameFrom then Centers(Chain(cameFrom, s, g, depth), blockSize) else []
  {
    path := [];
    if s.y != g.y {
      return;
    }
    var current := g;
    if g !in cameFrom {
      return;
    }
    while current != s
      invariant current in cameFrom
      invariant path + Centers(Chain(cameFrom, s, current, depth), blockSize) == Centers(Chain(cameFrom, s, g, depth), blockSize)
      decreases depth[current]
    {
      ChainCons(cameFrom, s, current, depth);
      CentersStep(path, current, Chain(cameFrom, s, cameFrom[current], depth), blockSize);
      path := path + [Center(current, blockSize)];
      current := cameFrom[current];
    }
  }

  /**
   * A route from the cell `s` as `reconstruct_path` lists it: it begins at
   * the goal, every cell on it is open and is not `s`, each cell is one
   * horizontal step from the one after it, and the last is one step from `s`.
   */
  ghost predicate Route(grid: seq<bool>, oob: bool, s: Int3, cells: seq<Int3>)
    requires |grid| == ChunkLen
  {
    && cells != []
    && (forall i | 0 <= i < |cells| :: !BlockAt(grid, oob, cells[i]) && cells[i] != s)
    && (forall i | 0 <= i < |cells| - 1 :: Adjacent(cells[i + 1], cells[i]))
    && Adjacent(s, cells[|cells| - 1])
  }

  /**
   * What a search followed by `reconstruct_path` yields for the world cells
   * `start` and `goal`: nothing across levels; a non-empty path is the
   * centres of a route from the start's cell to the goal's; and an empty
   * path between distinct cells on one level means no walk from the
   * start's cell reaches the goal's.
   */
  ghost predicate Planned(grid: seq<bool>, oob: bool, blockSize: int, start: Int3, goal: Int3, path: seq<Vec3>)
    requires |grid| == ChunkLen && blockSize > 0
  {
    var s, g := TruncDiv3(start, blockSize), TruncDiv3(goal, blockSize);
    && (s.y != g.y ==> path == [])
    && (path != [] ==> exists cells :: Route(grid, oob, s, cells) && cells[0] == g && path == Centers(cells, blockSize))
    && (path == [] && s.y == g.y && s != g ==>
          forall cells | Walk(grid, oob, cells) && cells != [] && cells[0] == s :: cells[|cells| - 1] != g)
  }

  /**
   * The outcome of `a_star_search` and then `reconstruct_path`, as their
   * contracts state it, is a plan: the walk back from a reached goal is a
   * route, and a goal the closed search did not reach cannot be reached.
   */
  lemma SearchPlanned(grid: seq<bool>, oob: bool, blockSize: int, start: Int3, goal: Int3,
                      cameFrom: map<Int3, Int3>, depth: map<Int3, nat>, path: seq<Vec3>)
    requires |grid| == ChunkLen && blockSize > 0
    requires var s, g := TruncDiv3(start, blockSize), TruncDiv3(goal, blockSize);
             && (s.y != g.y ==> cameFrom == map[])
             && (s.y == g.y ==> s in cameFrom && Rooted(cameFrom, s, depth) && Passable(cameFrom, s, grid, oob)
                                && (g !in cameFrom ==> Closed(cameFrom, grid, oob)))
    requires var s, g := TruncDiv3(start, blockSize), TruncDiv3(goal, blockSize);
             path == if s.y == g.y && g in cameFrom then Centers(Chain(cameFrom, s, g, depth), blockSize) else []
    ensures Planned(grid, oob, blockSize, start, goal, path)
  {
    var s, g := TruncDiv3(start, blockSize), TruncDiv3(goal, blockSize);
    if s.y != g.y {
      return;
    }
    if g in cameFrom {
      var c := Chain(cameFrom, s, g, depth);
      ChainShape(cameFrom, s, g, depth);
      ChainSteps(grid, oob, cameFrom, s, g, depth);
      if c != [] {
        forall i | 0 <= i < |c| - 1 ensures Adjacent(c[i + 1], c[i]) {
          assert cameFrom[c[i]] == c[i + 1];
        }
        assert Route(grid, oob, s, c);
      } else {
        assert g == s;
      }
    } else {
      forall cells | Walk(grid, oob, cells) && cells != [] && cells[0] == s
        ensures cells[|cells| - 1] != g
      {
        ClosedUnreachable(grid, oob, cameFrom, cells);
      }
    }
  }

  /**
   * The ends of a plan: its first entry is the centre of the goal's cell,
   * and its last entry, the waypoint popped first, is the centre of an
   * open cell one step from the start's.
   */
  lemma PlanEnds(grid: seq<bool>, oob: bool, blockSize: int, start: Int3, goal: Int3, path: seq<Vec3>)
    requires |grid| == ChunkLen && blockSize > 0
    requires Planned(grid, oob, blockSize, start, goal, path) && path != []
    ensures path[0] == Center(TruncDiv3(goal, blockSize), blockSize)
    ensures exists c :: Adjacent(TruncDiv3(start, blockSize), c) && !BlockAt(grid, oob, c) && path[|path| - 1] == Center(c, blockSize)
  {
    var s, g := TruncDiv3(start, blockSize), TruncDiv3(goal, blockSize);
    var cells :| Route(grid, oob, s, cells) && cells[0] == g && path == Centers(cells, blockSize);
    var c := cells[|cells| - 1];
    assert Adjacent(s, c) && !BlockAt(grid, oob, c) && path[|path| - 1] == Center(c, blockSize);
  }
}
