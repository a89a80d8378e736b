# stalac core in Dafny

A verified model of the game core of stalac, a small voxel dungeon game written in Rust. It covers:

- the entity-component system: component stores, the entity manager, the removal queue and its flush, and the system list;
- the 16×16×16 block chunk with its mesh generation and per-column entity occupancy;
- the cube mesh tables and the six directions;
- the grid path search and its path reconstruction;
- the xor-shift random number generator;
- the keyboard and mouse input state;
- the glyph writer of the GUI;
- the Actor, Health, Inventory, Fighter and ChaseAi components and their systems.

Each system's `update` is a method on the ECS state, in the form the source has. It is a loop over the id buffer that reads a component from its store, changes it and writes it back. Each loop is proved against a fold over the ids, a function of the stores before the update, and the lemmas beside the fold state what the system promises. Those promises include:

- every id is handled once and ids that are not handled are untouched;
- items picked up equal the removals queued;
- with non-negative damage, no health ever rises;
- a chase that returns early leaves later AIs alone;
- every repath is a real route, or proof that none exists.

Values the source keeps in Rust structs (components, button sets, paths) are Dafny datatypes. The objects the source updates in place are classes with `modifies` frames:

- `ComponentStore`, `EntityManager`, `CommandQueue`, the ECS state, `SystemManager`;
- `Chunk`, `Rng`, `Input` and its button sets, `Gui`.

| file | module | models |
|---|---|---|
| wrappers.dfy | Wrappers | `Option` |
| vector.dfy | Vector | 3-vectors of reals and integers, truncating casts and division |
| direction.dfy | Direction | src/direction.rs |
| cube_mesh.dfy | CubeMesh | src/gfx/cube_mesh.rs |
| chunk.dfy | Chunks | src/chunk.rs and the chunk's column occupancy |
| rng.dfy | Random | src/rng.rs |
| input.dfy | Input | src/input.rs |
| gui.dfy | Gui | src/gfx/gui.rs |
| ecs.dfy | Ecs | `ComponentStore`, `EntityManager`, `CommandQueue` of src/entities/ecs.rs |
| world.dfy | World | `Ecs` and `flush_queue` of src/entities/ecs.rs |
| system_manager.dfy | SystemManagers | `SystemManager` of src/entities/ecs.rs |
| a_star.dfy | AStar | src/a_star.rs |
| actor.dfy, actor_system.dfy | Actors, ActorSystem | src/entities/actor.rs |
| health.dfy | HealthComponent, HealthSystem | src/entities/health.rs |
| inventory.dfy | InventoryComponent, InventorySystem | src/entities/inventory.rs |
| fighter.dfy | FighterComponent, FighterSystem | src/entities/fighter.rs |
| chase_ai.dfy, chase_ai_system.dfy | ChaseAiComponent, ChaseAiSystem | src/entities/chase_ai.rs |

## Model

The rows below are stated in terms of reference definitions, which have no row of their own. Each models a source table or function directly:

- `Vector.TruncDiv` and `Vector.Trunc` (their values are stated by `Vector.TruncDivValue` and `Vector.TruncValue`), and the vector operations `Vector.Vec3.Add`, `Vector.Vec3.Sub`, `Vector.Vec3.Scale` and `Vector.Int3.Add`;
- `Direction.Offset` (`dir_to_offset`);
- `CubeMesh.CubeVertices`, `CubeMesh.CubeIndices` and `CubeMesh.CubeVertex` (`CUBE_VERTICES` and `CUBE_INDICES`);
- `Chunks.BlockAt`, `Chunks.Neighbour`, `Chunks.Visible`, `Chunks.Faces`, `Chunks.SolidCellFaces`, `Chunks.RowFaces`, `Chunks.PlaneFaces`, `Chunks.GridFaces`, `Chunks.Translate`, `Chunks.FaceVertices`, `Chunks.FaceIndexList` and `Chunks.Occupants`;
- `Random.XorShift` and `Random.StateAfter`;
- `Input.Changed`, `Input.EndTick`, `Input.ButtonSet.State`, `Input.MouseIn` and `Input.Input.IsMouseIn` (stated by `Input.MouseInEdges`);
- `Gui.IndexMap` and `Gui.GlyphAt`;
- `Ecs.ComponentStore.Has`, `Ecs.EntityManager.HasComponent`, `Ecs.ContentsOf`, `Ecs.Both` and `Ecs.Without`;
- `World.Vacated`;
- `SystemManagers.Removed`;
- `AStar.Adjacent`, `AStar.Neighbours`, `AStar.Expanded`, `AStar.Closed`, `AStar.Walk`, `AStar.Chain`, `AStar.Center` and `AStar.Route`;
- `Actors.CornerPoint`, `Actors.ColumnAt`, `Actors.CornerColumn`, `Actors.Intersects`, `Actors.RemoveAll`, `Actors.AddAll`, `Actors.Relocated`, `Actors.Interleaved` and `Actors.NearbyOf`;
- `ActorSystem.Probe`, `ActorSystem.Pulled` and `ActorSystem.Target`;
- `ChaseAiSystem.Heading`, `ChaseAiSystem.Stepped` and `ChaseAiSystem.Goal`;
- `HealthComponent.Health.Depleted`, `HealthComponent.ApplyHits` and `HealthSystem.DepletedOf`;
- `InventoryComponent.NextItem`, `InventorySystem.Pickups`, `InventorySystem.PickedBy` and `InventorySystem.TotalItems`;
- `FighterSystem.CanHit`, `FighterSystem.Candidates` and `FighterSystem.PlayerIds`;
- the folds that the system loops are proved against: `ActorSystem.FallStep` and `ActorSystem.Falls`, `ChaseAiSystem.ChaseStep` and `ChaseAiSystem.Chases`, `FighterSystem.FightStep` and `FighterSystem.Fight`, `InventorySystem.CollectStep` and `InventorySystem.Collect`.

The class invariants (`Valid`), the loop-state predicates and the small lemmas that only carry proof steps have no row either.

| member | source | states |
|---|---|---|
| Vector.TruncDivValue | src/a_star.rs:66-67 | integer division by the block size rounds toward zero: for a non-negative dividend the quotient is the largest `q` with `q * b <= a`, for a negative one the smallest `q` with `a <= q * b`, so it keeps the sign of the dividend |
| Vector.TruncValue | src/entities/chase_ai.rs:88-89 | the float-to-integer cast truncates toward zero: a non-negative value lies in `[n, n + 1)`, a negative one in `(n - 1, n]` |
| Direction.Index | src/direction.rs:1-9 | each direction has its discriminant, below 6 |
| Direction.IndexToDir | src/direction.rs:11-21 | an index gives a direction exactly when it is below 6 (the source panics otherwise), and that direction's discriminant is the index |
| Direction.DirAt | src/direction.rs:11-21 | for an index below 6 the direction whose discriminant is that index |
| Direction.IndexRoundTrip | src/direction.rs:1-21 | index and direction convert into each other and back without loss |
| Direction.OffsetUnit | src/direction.rs:23-32 | every offset is one unit step along one axis, and it is horizontal exactly for the first four directions |
| Direction.OffsetInjective | src/direction.rs:23-32 | distinct directions have distinct offsets |
| Direction.OppositeNegates | src/direction.rs:23-32 | the directions pair up (Forward/Backward, Right/Left, Up/Down) with opposite offsets |
| Direction.OppositeInvolution | src/direction.rs:23-32 | the pairing is its own inverse and has no fixed point |
| CubeMesh.CubeVertexOnSide | src/gfx/cube_mesh.rs:3-136 | every vertex of face `i` has 0/1 coordinates and texture coordinates, and lies on the side of the unit cube that direction `i` points to |
| CubeMesh.FaceIndices | src/gfx/cube_mesh.rs:138-145 | each face has six indices |
| CubeMesh.FaceIndicesBelow | src/gfx/cube_mesh.rs:138-145 | every index names one of the face's four vertices, and both triangles start at vertex 0 |
| CubeMesh.FaceCoversCorners | src/gfx/cube_mesh.rs:138-145 | the two triangles of a face together use all four of its vertices |
| CubeMesh.FirstTriangleOutward | src/gfx/cube_mesh.rs:3-145 | the first triangle of each face is wound so that its normal is the face's direction offset |
| CubeMesh.SecondTriangleOutward | src/gfx/cube_mesh.rs:3-145 | so is the second triangle |
| CubeMesh.WindingOutward | src/gfx/cube_mesh.rs:3-145 | both triangles of every face face outward, along the face's direction |
| Chunks.BlockIndex | src/chunk.rs:87-91 | the index `x + y * 16 + z * 256` of an in-range cell lies inside the block array |
| Chunks.BlockIndexInjective | src/chunk.rs:87-91 | distinct in-range cells have distinct indices |
| Chunks.SetThenGet | src/chunk.rs:81-105 | after setting an in-range cell, reading it gives the value written and every other cell reads as before |
| Chunks.Chunk.constructor | src/chunk.rs:14-18 | a new chunk has every cell empty and no entity in any column |
| Chunks.Chunk.GetBlock | src/chunk.rs:94-105 | outside the 16×16×16 grid the answer is the out-of-range policy, inside it the stored cell |
| Chunks.Chunk.SetBlock | src/chunk.rs:81-92 | an in-range cell is overwritten and nothing else changes; out of range nothing changes |
| Chunks.CellFaces | src/chunk.rs:53-73 | a cell emits at most one face per direction tried |
| Chunks.CellFacesExact | src/chunk.rs:53-58 | among the first `k` directions, a cell's faces are those whose neighbouring cell is not solid |
| Chunks.RowFacesExact | src/chunk.rs:44-73 | the faces of a row are the visible faces of its solid cells with x below `k` |
| Chunks.PlaneFacesExact | src/chunk.rs:42-75 | the faces of a plane are the visible faces of its cells with y below `k` |
| Chunks.GridFacesExact | src/chunk.rs:40-76 | the faces of the grid are the visible faces of its cells with z below `k` |
| Chunks.FacesExact | src/chunk.rs:40-76 | the mesh has a face exactly when the cell is solid and its neighbour in that direction is not |
| Chunks.CellFacesOrdered | src/chunk.rs:53-73 | one cell's faces come in direction order |
| Chunks.RowFacesOrdered | src/chunk.rs:44-74 | a row's faces come in x, then direction order |
| Chunks.PlaneFacesOrdered | src/chunk.rs:42-75 | a plane's faces come in y, x, direction order |
| Chunks.GridFacesOrdered | src/chunk.rs:40-76 | the grid's faces come in z, y, x, direction order |
| Chunks.FacesDistinct | src/chunk.rs:40-76 | no face is emitted twice |
| Chunks.MeshVertices | src/chunk.rs:62-68 | four vertices per face |
| Chunks.MeshIndices | src/chunk.rs:70-72 | six indices per face |
| Chunks.MeshVertexAt | src/chunk.rs:62-68 | vertex `k` of face `i` is the cube vertex `k` of the face's direction moved to the cell |
| Chunks.MeshIndexAt | src/chunk.rs:60-72 | index `j` of face `i` is the cube index `j` of its direction plus the number of vertices emitted before the face |
| Chunks.MeshIndicesBelow | src/chunk.rs:60-72 | every index names an emitted vertex |
| Chunks.RowFacesCount | src/chunk.rs:44-74 | a row of `k` cells has at most `6k` faces |
| Chunks.PlaneFacesCount | src/chunk.rs:42-75 | a plane of `k` rows has at most `96k` faces |
| Chunks.GridFacesCount | src/chunk.rs:40-76 | a grid of `k` planes has at most `1536k` faces |
| Chunks.MeshFitsU32 | src/chunk.rs:60 | the vertex count always fits the `u32` the source casts it to |
| Chunks.EmptyGridNoFaces | src/chunk.rs:49-51 | an empty chunk yields no faces |
| Chunks.BuildMesh | src/chunk.rs:36-79 | the three loops emit the mesh of every visible face, in order |
| Chunks.EmitPlane | src/chunk.rs:42-75 | the `y` loop appends the mesh of one plane's faces |
| Chunks.EmitRow | src/chunk.rs:44-74 | the `x` loop appends the mesh of one row's faces |
| Chunks.EmitSolidCell | src/chunk.rs:47-73 | an empty cell adds nothing, a solid one the mesh of its visible faces |
| Chunks.EmitCell | src/chunk.rs:53-73 | the `dir_i` loop appends the mesh of a cell's visible faces |
| Chunks.EmitSide | src/chunk.rs:54-72 | a face is appended exactly when the neighbour in its direction is not solid |
| Chunks.EmitFace | src/chunk.rs:60-72 | four moved cube vertices and six offset cube indices extend the mesh by one face |
| Chunks.Chunk.GenerateMesh | src/chunk.rs:36-79 | the vertices and indices are those of every visible face, in z, y, x, direction order |
| Chunks.AddOccupant | src/entities/actor.rs:77 | adding an entity to a column changes only that column's set, and only when the column is in the chunk |
| Chunks.RemoveOccupant | src/entities/actor.rs:72 | removing an entity from a column changes only that column's set, and only when the column is in the chunk |
| Chunks.OccupantUpdatesIsolated | src/entities/actor.rs:72-77 | adding or removing one entity never changes whether another entity is over any column |
| Chunks.Chunk.AddEntityToBlock | src/entities/actor.rs:77 | the chunk's columns become `AddOccupant` of the old ones |
| Chunks.Chunk.RemoveEntityFromBlock | src/entities/actor.rs:72 | the chunk's columns become `RemoveOccupant` of the old ones |
| Chunks.Chunk.EntitiesAtBlock | src/entities/actor.rs:92-96 | a column in the chunk gives its set of entities, one outside it gives nothing |
| Random.UndoLeft13 | src/rng.rs:15 | the xor with the state shifted left by 13 can be undone |
| Random.UndoRight7 | src/rng.rs:16 | the xor with the state shifted right by 7 can be undone |
| Random.UndoLeft5 | src/rng.rs:17 | the xor with the state shifted left by 5 can be undone |
| Random.XorShiftInvertible | src/rng.rs:15-17 | the three xor-shifts together are a bijection on 32-bit states |
| Random.XorShiftNonZero | src/rng.rs:15-17 | a non-zero state never becomes zero |
| Random.StateAfterNonZero | src/rng.rs:14-19 | after any number of draws a non-zero seed's state is still non-zero |
| Random.Reduce | src/rng.rs:18 | a draw is below `max` |
| Random.Draws | src/rng.rs:14-19 | one draw per requested bound |
| Random.DrawsBelow | src/rng.rs:14-19 | each draw of a sequence is below its own bound |
| Random.DrawsAppend | src/rng.rs:14-19 | draws compose: two runs of draws are the draws of the joined run, the second starting from the state the first leaves |
| Random.Rng.constructor | src/rng.rs:6-12 | a generator starts at its non-zero seed |
| Random.Rng.Range | src/rng.rs:14-19 | the state advances by one xor-shift round and the result is the new state modulo `max` |
| Ecs.TagOf | src/entities/ecs.rs:90-106 | every component has exactly one store type, which is the one its store is looked up by |
| Ecs.SwapRemove | src/entities/ecs.rs:196-208 | `Vec::swap_remove`: one shorter, the last element moved into the vacated slot, every other slot kept |
| Ecs.SwapRemovePermutes | src/entities/ecs.rs:196-208 | a swap-remove takes out exactly the removed element and keeps all others |
| Ecs.PushKeepsSparseSet | src/entities/ecs.rs:186-194 | pushing a new id and component keeps the dense arrays and the id-to-slot map consistent, and adds exactly that id's component |
| Ecs.SwapRemoveKeepsSparseSet | src/entities/ecs.rs:196-208 | swap-removing an id and re-pointing the moved id keeps the arrays and the map consistent |
| Ecs.SwapRemoveKeepsContents | src/entities/ecs.rs:196-208 | after the swap-remove every other id still maps to its own component |
| Ecs.SwapRemoveIndexes | src/entities/ecs.rs:196-208 | after the swap-remove every id left maps to its new slot and every slot names its id |
| Ecs.ComponentStore.constructor | src/entities/ecs.rs:178-184 | a new store is empty |
| Ecs.ComponentStore.Get | src/entities/ecs.rs:214-220 | there is a component exactly when the id is in the store, and it is that id's component |
| Ecs.ComponentStore.Add | src/entities/ecs.rs:186-194 | an id already present leaves the store unchanged; otherwise the component and the id are pushed and the map records the new slot |
| Ecs.ComponentStore.Remove | src/entities/ecs.rs:196-208 | the id is gone afterwards; when present, both arrays are swap-removed at its slot and the moved id re-pointed; when absent nothing changes; every other id keeps its component |
| Ecs.ComponentStore.Replace | src/entities/ecs.rs:226-232 | writing through `get_mut` replaces that id's component in its slot and nothing else |
| Ecs.BothExact | src/entities/ecs.rs:145-168 | an id is listed exactly when it is in the first store and in the second |
| Ecs.BothDistinct | src/entities/ecs.rs:145-168 | the list has no id twice |
| Ecs.WithoutExact | src/entities/ecs.rs:33-35 | after removing the queued ids, an id has a component exactly when it had one and was not queued, and keeps it unchanged |
| Ecs.NewStoreWith | src/entities/ecs.rs:102-103 | a store created on first use holds exactly the one component |
| Ecs.EntityManager.constructor | src/entities/ecs.rs:71-76 | a new manager has no stores and has handed out no id |
| Ecs.EntityManager.AddEntity | src/entities/ecs.rs:78-82 | the id handed out is the count so far, and the count goes up by one |
| Ecs.EntityManager.RemoveEntity | src/entities/ecs.rs:84-88 | the id loses its component in every store and nothing else changes |
| Ecs.EntityManager.RemoveEntities | src/entities/ecs.rs:33-35 | each store loses exactly the queued ids |
| Ecs.EntityManager.RemoveFromStore | src/entities/ecs.rs:84-88 | one store loses the id, the others are unchanged |
| Ecs.EntityManager.AddComponent | src/entities/ecs.rs:90-106 | the component goes into the store of its type, which is created when missing; an id that already has one keeps it; every other store is unchanged |
| Ecs.EntityManager.CreateStore | src/entities/ecs.rs:101-105 | a fresh store holding only the component is registered under its type, the other stores kept |
| Ecs.EntityManager.AddToStore | src/entities/ecs.rs:91-98 | the existing store of the type gains the component unless the id already has one |
| Ecs.EntityManager.ReplaceComponent | src/entities/ecs.rs:226-232 | an id's component in one store is replaced, the ids and the other stores are unchanged |
| Ecs.EntityManager.RemoveComponent | src/entities/ecs.rs:108-118 | the store of the type, when there is one, loses the id; the others are unchanged |
| Ecs.EntityManager.BorrowComponents | src/entities/ecs.rs:120-131 | there is a store exactly when one of that type was created, and it is that store |
| Ecs.EntityManager.GetEntitiesWith | src/entities/ecs.rs:133-143 | the buffer holds the store's ids in store order (empty without a store), exactly the ids holding that type; the flag says whether it is non-empty |
| Ecs.EntityManager.GetEntitiesWithBoth | src/entities/ecs.rs:145-168 | the buffer holds the first store's ids, in its order, that the second store also holds (empty when a store is missing); the flag says whether it is non-empty |
| Ecs.BothListsHolders | src/entities/ecs.rs:145-168 | in a valid manager the two-store query lists exactly the ids holding both types, each once |
| Ecs.CommandQueue.constructor | src/entities/ecs.rs:46-50 | a new queue is empty |
| Ecs.CommandQueue.RemoveEntity | src/entities/ecs.rs:52-54 | the id is appended to the queue |
| Ecs.CommandQueue.Clear | src/entities/ecs.rs:56-58 | the queue is emptied |
| World.EcsState.constructor | src/entities/ecs.rs:10-14 | a new ECS has an empty manager, an empty queue and an empty id buffer |
| World.VacatedExact | src/entities/ecs.rs:23-29 | after the first pass an id is over a column exactly when it was before and it is not a queued id whose actor had that column as an in-range corner |
| World.VacateColumns | src/entities/ecs.rs:23-29 | the first pass removes each queued actor from its corner columns, in order |
| World.EcsState.FlushQueue | src/entities/ecs.rs:17-38 | without an Actor store nothing changes, not even the queue; otherwise the queued actors leave their columns, every store loses the queued ids and the queue is emptied |
| Actors.NewActor | src/entities/actor.rs:26-36 | a new actor sits at the given position with the given size and speed, looks straight ahead, is at rest and is not grounded |
| Actors.Clamp | src/entities/actor.rs:103 | the result lies in `[lo, hi]`: it is the value itself inside the range, `lo` below it and `hi` above it |
| Actors.Rotate | src/entities/actor.rs:100-104 | the vertical look angle (pitch, `look_x`) is the sum clamped to ±89 degrees: the plain sum when in range, 89 above it and -89 below it; the horizontal angle (yaw, `look_y`) is the plain sum, unbounded; nothing else changes |
| Actors.RotateByNothing | src/entities/actor.rs:100-104 | rotating by zero leaves an actor whose look angle is in range exactly as it was |
| Actors.IntersectsSymmetric | src/entities/actor.rs:139-151 | the box test gives the same answer whichever of the two boxes asks |
| Actors.IntersectsItself | src/entities/actor.rs:139-151 | a box with a non-negative size intersects itself |
| Actors.SeparatedDoNotIntersect | src/entities/actor.rs:139-151 | boxes with a gap between them along x do not intersect |
| Actors.CornerOffset | src/entities/actor.rs:65-67 | corner `i` has offsets `((i % 2) * 2 - 1, (i / 2) * 2 - 1)`: (-1,-1), (1,-1), (-1,1), (1,1) in that order |
| Actors.Corners | src/entities/actor.rs:65-77 | an actor's box has exactly four corner columns, visited in the order of the loop over `i` |
| Actors.CornerColumnUnitBlock | src/entities/actor.rs:69-70 | with a block size of 1 a corner column is the truncated corner itself |
| Actors.CornersBefore | src/entities/actor.rs:65-70 | the four corner columns of a 0.5-wide box at x = z = 1 are (0,0), (1,0), (0,1), (1,1) |
| Actors.CornersAfter | src/entities/actor.rs:65-70 | after the box moves to x = 1.5 its corner columns are (1,0), (2,0), (1,1), (2,1) |
| Actors.RemoveAllExact | src/entities/actor.rs:72 | removing an entity from a list of columns takes it out of exactly the in-range listed columns and changes no other set |
| Actors.AddAllExact | src/entities/actor.rs:77 | adding an entity to a list of columns puts it into exactly the in-range listed columns and changes no other set |
| Actors.LeaveColumns | src/entities/actor.rs:72 | the chunk's occupancy becomes the one with the entity removed from each listed column in turn |
| Actors.JoinColumns | src/entities/actor.rs:77 | the chunk's occupancy becomes the one with the entity added to each listed column in turn |
| Actors.SwapColumns | src/entities/actor.rs:65-79 | the chunk's occupancy becomes the one where, corner by corner, the entity leaves the old column and at once joins the new one |
| Actors.UpdateOccupiedBlocksAsWritten | src/entities/actor.rs:59-80 | the occupancy update as written: the interleaved per-corner leave and join with a new position, and only the four leaves without one |
| Actors.InterleavedErases | src/entities/actor.rs:65-79 | under the interleaving, a corner's old column ends without the entity unless that corner or a later one joins it again, even when an earlier corner joined it |
| Actors.InterleavedLosesColumn | src/entities/actor.rs:65-79 | a concrete move after which the interleaved update leaves the actor out of one of its new in-range corner columns, while the intended update keeps it there |
| Actors.UpdateOccupiedBlocks | src/entities/actor.rs:59-80 | the corrected occupancy update: the entity leaves all old corner columns and then, given a new position, joins all new ones |
| Actors.RelocatedExact | src/entities/actor.rs:59-80 | after the corrected update the entity is over every in-range new corner column, is over another column only if it was there before and that column was not an old corner, and every other entity's occupancy is unchanged |
| Actors.InterleavedInPlaceExact | src/entities/actor.rs:65-79 | when every corner keeps its column, the loop as written leaves the entity over exactly the in-range listed columns, and every column's other occupants as they were |
| Actors.InterleavedInPlace | src/entities/actor.rs:65-79 | for a move that keeps every corner column, the loop as written and the corrected update leave the same occupancy |
| Actors.Step | src/entities/actor.rs:38-57 | the step goes through exactly when no-clip is set or the target box does not collide; then the actor is at `position + dir * speed` and the occupancy records it over exactly the corner columns of its new box; otherwise nothing changes (the occupancy moved by the corrected update `Actors.UpdateOccupiedBlocks`; see Findings) |
| Actors.NearbyOfExact | src/entities/actor.rs:82-98 | an entity is nearby exactly when it is recorded over one of the in-range corner columns |
| Actors.GetNearbyEntities | src/entities/actor.rs:82-98 | the set found is the union of the occupant sets of the corner columns that lie in the chunk |
| Actors.RelocatedSeesItself | src/entities/actor.rs:82-98 | after the corrected update an actor finds itself among its nearby entities whenever one of its new corner columns is in the chunk |
| Actors.ApplyGravity | src/entities/actor.rs:119-121 | the vertical speed becomes `y_velocity - GRAVITY * delta_time`, so it strictly drops over a positive time step, and nothing else changes |
| Actors.SnapToFloor | src/entities/actor.rs:110-113 | the actor is at rest with the bottom of its box on the floor of its row; its x and z, size, speed, look angles and grounded flag are kept |
| Actors.Blocked | src/entities/actor.rs:232-238 | a refused vertical step ends at rest; a falling actor is snapped to the floor with its x and z kept, any other keeps its position; every other field is kept |
| ActorSystem.Fallen | src/entities/actor.rs:216-239 | one actor's tick: `grounded` is the ground probe's answer; a step that goes through lowers the vertical speed by `GRAVITY * delta_time` and moves the actor to its target; a refused step ends at rest, snapped to the floor only when falling; x, z, size, speed and look are kept |
| ActorSystem.FallStepOccupies | src/entities/actor.rs:225-231 | after a tick whose step goes through the actor is over every in-range corner column of its new box; a refused step leaves the occupancy as it was (a fall keeps its corner columns, so this is also the occupancy the source's interleaved update leaves: `ActorSystem.FallStepAsWritten`) |
| ActorSystem.FallKeepsCorners | src/entities/actor.rs:225-231 | the fall's step along `unit_y` leaves x and z alone, so the box's four corner columns are the same before and after |
| ActorSystem.FallStepAsWritten | src/entities/actor.rs:225-231 | a fall that goes through leaves the same occupancy under the source's interleaved `update_occupied_blocks` as under the corrected update the model uses |
| ActorSystem.FallsKeep | src/entities/actor.rs:213-240 | the loop keeps the set of ids in the Actor store and leaves only actors in it |
| ActorSystem.FallsOnce | src/entities/actor.rs:213-240 | with distinct ids, each listed actor ends as one tick of its old self and every unlisted actor is untouched |
| ActorSystem.FallsSpareColumns | src/entities/actor.rs:213-240 | an id that has no tick keeps its occupancy exactly |
| ActorSystem.Drop | src/entities/actor.rs:225-239 | the vertical step and, when it is refused, the snap and the reset, agree with `Blocked` and the relocation (a fall keeps its corner columns, so this is also the occupancy the source's interleaved update leaves: `ActorSystem.FallStepAsWritten`) |
| ActorSystem.FallOne | src/entities/actor.rs:216-239 | the loop body gives the actor and the occupancy of one tick |
| ActorSystem.FallTurn | src/entities/actor.rs:214-239 | one turn reads the actor, ticks it and writes it back, extending the loop's state by that tick |
| ActorSystem.FallAll | src/entities/actor.rs:213-240 | the loop leaves the Actor store and the occupancy as the fold of the ticks over the ids, in order |
| ActorSystem.FallIn | src/entities/actor.rs:211-240 | the loop on the manager keeps it valid, changes no other store, and leaves the Actor store and the occupancy as the fold computes |
| ActorSystem.Update | src/entities/actor.rs:193-241 | the id buffer holds the ids of the Actor store in store order, each has its tick, the other stores are unchanged; without an Actor store the buffer is empty and nothing changes |
| ChaseAiComponent.NewChaseAi | src/entities/chase_ai.rs:26-32 | a new AI has a zero timer, no path and no waypoint |
| ChaseAiComponent.Pop | src/entities/chase_ai.rs:108-110 | popping an empty path gives nothing and an empty path; otherwise it gives the last waypoint and the path without it, which with that waypoint appended is the old path |
| ChaseAiSystem.Timed | src/entities/chase_ai.rs:80-93 | when the timer passes `REPATH_TIME` it restarts at zero and the AI takes the new plan with its last waypoint popped as the next one (nothing when the plan is empty); otherwise the timer only advances by `delta_time` |
| ChaseAiSystem.ChaseStepCases | src/entities/chase_ai.rs:77-110 | one turn restarts the timer exactly when it passes `REPATH_TIME`; it stops the update exactly when the waypoint after the timer is within half a unit, clearing the waypoint; a turn with a far waypoint moves the actor by `4 * delta_time` along the normalized horizontal heading; a turn without one pops the next waypoint; only the position of the actor ever changes |
| ChaseAiSystem.RepathFirstStep | src/entities/chase_ai.rs:87-92 | after a repath that found a path, the waypoint walked to first is the centre of an open cell one step from the AI's own cell, and the last one left is the centre of the player's cell |
| ChaseAiSystem.ChasesKeep | src/entities/chase_ai.rs:76-111 | the loop keeps the ids of the ChaseAi and Actor stores, leaves only AIs and actors in them, and records one repath start per id |
| ChaseAiSystem.ChasesStopped | src/entities/chase_ai.rs:95-103 | once a turn has returned from the update, the ids after it change nothing: AIs, actors and occupancy stay and no repath starts |
| ChaseAiSystem.ChasesSpare | src/entities/chase_ai.rs:76-111 | an id that has no turn keeps its AI, its actor and its occupancy |
| ChaseAiSystem.Replan | src/entities/chase_ai.rs:87-91 | the path produced from the truncated actor and player positions is a plan as `AStar.Planned` states it |
| ChaseAiSystem.ChaseOne | src/entities/chase_ai.rs:77-110 | one turn in place gives the AI, actor, occupancy and stop flag of the turn function, and a repath's path is a plan from the actor's position to the player's (the occupancy moved by the corrected update `Actors.UpdateOccupiedBlocks`; see Findings) |
| ChaseAiSystem.Run | src/entities/chase_ai.rs:76-111 | an id with both components has its turn and both written back, every repath planning to the player; any other id changes nothing and does not stop the update (the occupancy moved by the corrected update `Actors.UpdateOccupiedBlocks`; see Findings) |
| ChaseAiSystem.ChaseTurn | src/entities/chase_ai.rs:76-111 | one turn extends the loop's state by that turn, and it stops exactly when the fold stops (the occupancy moved by the corrected update `Actors.UpdateOccupiedBlocks`; see Findings) |
| ChaseAiSystem.ChaseAll | src/entities/chase_ai.rs:76-111 | the loop, returning at the first stop, leaves the stores and the occupancy as the fold computes, every repath a plan to the player (the occupancy moved by the corrected update `Actors.UpdateOccupiedBlocks`; see Findings) |
| ChaseAiSystem.ChaseIn | src/entities/chase_ai.rs:73-111 | the loop on the manager keeps it valid, changes no store but ChaseAi and Actor, and leaves those and the occupancy as the fold computes (the occupancy moved by the corrected update `Actors.UpdateOccupiedBlocks`; see Findings) |
| ChaseAiSystem.GoalFound | src/entities/chase_ai.rs:54-67 | there is a player to chase exactly when some id holds both a Player and an Actor |
| ChaseAiSystem.FindGoal | src/entities/chase_ai.rs:54-67 | the goal is the position of the first id holding both a Player and an Actor; without one the id buffer is empty |
| ChaseAiSystem.Hunt | src/entities/chase_ai.rs:69-111 | the id buffer holds the ids with both a ChaseAi and an Actor, in ChaseAi store order, and the chase runs over them; without a ChaseAi store the buffer is empty and nothing changes (the occupancy moved by the corrected update `Actors.UpdateOccupiedBlocks`; see Findings) |
| ChaseAiSystem.Chase | src/entities/chase_ai.rs:54-111 | without a player, or without a ChaseAi store, the buffer is empty and nothing changes; otherwise the buffer holds the chasing ids and the chase runs towards the first player's position; stores other than ChaseAi and Actor never change (the occupancy moved by the corrected update `Actors.UpdateOccupiedBlocks`; see Findings) |
| ChaseAiSystem.Update | src/entities/chase_ai.rs:40-112 | the update as a whole, with the same outcomes as `Chase`, on the ECS state (the occupancy moved by the corrected update `Actors.UpdateOccupiedBlocks`; see Findings) |
| AStar.Cmp | src/a_star.rs:17-21 | a node compares greater exactly when its priority is smaller, so the max-heap pops the lowest priority first |
| AStar.Heuristic | src/a_star.rs:29-31 | the distance is zero exactly when the two cells agree on x and z |
| AStar.HeuristicSymmetric | src/a_star.rs:29-31 | the heuristic is symmetric |
| AStar.HeuristicStep | src/a_star.rs:29-31 | one horizontal step changes the heuristic by exactly one, so it never overestimates the steps left |
| AStar.NeighboursUpToExact | src/a_star.rs:40-57 | the neighbours found among the first `k` directions are the non-solid cells at those directions' offsets |
| AStar.NeighboursExact | src/a_star.rs:33-58 | a cell is a neighbour exactly when it is one horizontal step away and not solid |
| AStar.GetNeighbours | src/a_star.rs:33-58 | the loop yields the non-solid horizontal neighbours in direction order |
| AStar.TopExists | src/a_star.rs:85-86 | a non-empty frontier has an entry no other entry is greater than, which the heap pops |
| AStar.Search | src/a_star.rs:60-106 | across levels nothing is recorded; otherwise the start is recorded, every recorded parent chain leads back to the start through open adjacent cells, and when the goal is not reached every neighbour of a reached cell has been reached |
| AStar.ExpandRooted | src/a_star.rs:92-104 | the cells a round reaches hang off the popped cell one level deeper, stay inside the chunk and are open |
| AStar.ExpandSettled | src/a_star.rs:85-104 | after a round the frontier holds only reached cells, every reached cell off the frontier has all its neighbours reached, and the round either reaches a new cell or shortens the frontier |
| AStar.ExpandedParents | src/a_star.rs:93-104 | expanding records every neighbour, keeps the parents already recorded, and gives the new cells the popped cell as parent |
| AStar.ExpandedFrontier | src/a_star.rs:93-104 | the frontier gains exactly the newly recorded cells |
| AStar.Expand | src/a_star.rs:93-104 | the neighbour loop computes what `Expanded` states |
| AStar.ClosedUnreachable | src/a_star.rs:85-105 | when every neighbour of a reached cell is reached, every walk from a reached cell stays among reached cells |
| AStar.ExpandKeepsSettled | src/a_star.rs:85-104 | whatever out-of-range cells read, a round keeps the frontier within the recorded cells and every recorded cell off the frontier with all its neighbours recorded; a round that records nothing new only shortens the frontier |
| AStar.WalledGoalExample | src/a_star.rs:85-105 | on that grid the goal (5, 0, 5) is walled in for a search from (0, 0, 0): the hypotheses of `OpenSearchNeverEnds` can be met |
| AStar.OpenSearchStarts | src/a_star.rs:78-83 | the loop starts with the start alone recorded and on the frontier, a state of `OpenRound` |
| AStar.OpenSearchNeverEnds | src/a_star.rs:85-105 | with out-of-range cells open (as `get_block` answers), a walled-in goal and a start on the west face, every state the loop reaches has a non-empty frontier with no entry at the goal, and every pop and expansion leads to such a state: the loop never stops |
| AStar.OpenGoalUnrecorded | src/a_star.rs:94-103 | a walled-in goal is never recorded, since its parent would be a solid neighbour |
| AStar.OpenRoundStep | src/a_star.rs:86-104 | one round keeps `OpenRound`: start recorded, frontier recorded, parents recorded, steps passable, cells off the frontier settled |
| AStar.OpenNotClosed | src/chunk.rs:93-97 | with out-of-range cells open, recorded cells that include a start on or past the west face are never closed under neighbours |
| AStar.OpenNeverCloses | src/chunk.rs:93-97 | with out-of-range cells open, no finite set of recorded cells holding a cell west of the grid is closed under neighbours |
| AStar.WestRecorded | src/a_star.rs:94-103 | a closed set holding a cell west of the grid holds every cell further west along its row |
| AStar.ChainShape | src/a_star.rs:131-134 | the chain back from a reached cell starts at that cell, has one cell per level of depth and never visits the start |
| AStar.ChainSteps | src/a_star.rs:131-134 | along the chain each cell is reached, open and one step from its parent, which is the next cell of the chain; the last cell's parent is the start |
| AStar.ChainCons | src/a_star.rs:131-134 | the chain from a cell other than the start is that cell followed by its parent's chain |
| AStar.Centers | src/a_star.rs:132 | each path entry is the centre of its cell, `(cell + 0.5) * BLOCK_SIZE` |
| AStar.CentersStep | src/a_star.rs:132 | pushing the centre of the chain's first cell moves it from the chain's centres to the path |
| AStar.ReconstructPath | src/a_star.rs:108-135 | the path is empty across levels or when the goal was not reached; otherwise it is the centres of the cells from the goal back along the recorded parents, the start's cell left out |
| AStar.WalkBack | src/a_star.rs:124-134 | the walk back from the goal cell yields the same path |
| AStar.SearchPlanned | src/a_star.rs:60-135 | a search followed by the walk back yields a plan: nothing across levels; a non-empty path is the centres of a route of open adjacent cells from the start's cell to the goal's; an empty path between distinct cells on one level means no walk from the start reaches the goal |
| AStar.PlanEnds | src/a_star.rs:124-134 | a non-empty plan begins at the centre of the goal's cell and ends at the centre of an open cell one step from the start's |
| SystemManagers.FirstOf | src/entities/ecs.rs:291-299 | there is an index exactly when a system of the kind is present, and it is the first such index |
| SystemManagers.RemovedCounts | src/entities/ecs.rs:301-313 | removing takes out exactly one system of the kind when there is one, and nothing else |
| SystemManagers.RemoveUndoesAdd | src/entities/ecs.rs:287-313 | adding a system of a kind not yet present and then removing that kind gives back the original list |
| SystemManagers.RemovedKeepsOthers | src/entities/ecs.rs:301-313 | removing one kind keeps the order of the systems of every other kind |
| SystemManagers.SystemManager.constructor | src/entities/ecs.rs:267-272 | a new manager has no systems |
| SystemManagers.SystemManager.AddSystem | src/entities/ecs.rs:287-289 | the system goes last, so it runs after every system added before it |
| SystemManagers.SystemManager.Get | src/entities/ecs.rs:291-299 | the loop finds the first system of the kind, or reports that there is none |
| SystemManagers.SystemManager.Remove | src/entities/ecs.rs:301-313 | the loop takes out the first system of the kind and keeps the others in order; without one nothing changes |
| HealthComponent.Health.TakeDamage | src/entities/health.rs:14-16 | health strictly drops exactly when the damage is positive |
| HealthComponent.DamageAccumulates | src/entities/health.rs:14-16 | a run of hits lowers health by exactly their sum |
| HealthComponent.OverkillDepletes | src/entities/health.rs:14-16 | damage of at least the current amount leaves the health at or below zero |
| HealthSystem.DepletedOfExact | src/entities/health.rs:46-52 | an id is queued exactly when it is listed and its health is at most zero |
| HealthSystem.DepletedOfShorter | src/entities/health.rs:46-52 | no more ids are queued than are listed |
| HealthSystem.QueueDepleted | src/entities/health.rs:46-52 | the loop appends to the queue the listed ids whose health is at most zero, in list order |
| HealthSystem.Update | src/entities/health.rs:26-53 | the id buffer holds the Health store's ids (empty without one); the queue gains exactly the depleted ids in store order, and nothing without a Health store |
| InventoryComponent.Inventory.AddItem | src/entities/inventory.rs:22-25 | adding an item appends exactly `NextItem(len)` ('a' on an even count, 'b' on an odd one) and keeps the earlier items |
| InventoryComponent.AddedItemsAlternate | src/entities/inventory.rs:22-25 | starting empty, the items added alternate 'a', 'b', 'a', … by position |
| InventoryComponent.AddItemsGrows | src/entities/inventory.rs:22-25 | adding `n` items grows the list by `n` and keeps its prefix |
| InventoryComponent.Inventory.RemoveItem | src/entities/inventory.rs:27-31 | an index in range shortens the list by one; one out of range changes nothing |
| InventoryComponent.RemoveItemShifts | src/entities/inventory.rs:27-31 | removal keeps the entries before the index and shifts the later ones down by one |
| InventorySystem.Qualifies | src/entities/inventory.rs:83-98 | a nearby id is picked up exactly when it is not the collector, holds an Item and an Actor, and its actor intersects the collector's box |
| InventorySystem.EnumeratesAppend | src/entities/inventory.rs:82-102 | visiting one more unvisited id extends the list of ids picked so far by that id |
| InventorySystem.PickUp | src/entities/inventory.rs:80-102 | over the nearby ids, the inventory gains one item per id picked up and the queue gains exactly those ids, the old queue kept as a prefix |
| InventorySystem.CollectStepFrame | src/entities/inventory.rs:77-102 | one collector's turn changes no inventory but its own and keeps the store's ids and types |
| InventorySystem.CollectOne | src/entities/inventory.rs:77-102 | one collector's turn writes back the inventory its turn computes and queues the ids it picked up |
| InventorySystem.CollectFrame | src/entities/inventory.rs:76-103 | the loop keeps the store's ids and types and changes no inventory of an id it does not visit |
| InventorySystem.TotalItemsFrame | src/entities/inventory.rs:76-103 | the item count of the visited inventories does not depend on inventories that are not visited |
| InventorySystem.ItemsConserved | src/entities/inventory.rs:100-101 | with distinct collectors, the items the collectors gain equal the number of removals queued |
| InventorySystem.CollectQueuesItems | src/entities/inventory.rs:82-102 | only ids holding both an Item and an Actor are ever queued, and only by a collector other than themselves |
| InventorySystem.CollectAll | src/entities/inventory.rs:76-103 | the loop leaves the inventories and the queue as the fold of the turns computes |
| InventorySystem.CollectIn | src/entities/inventory.rs:69-103 | the loop on the manager keeps it valid, changes no store but Inventory, and leaves it and the queue as the fold computes |
| InventorySystem.Update | src/entities/inventory.rs:51-104 | the buffer holds the ids with both an Inventory and an Actor, and is empty when either store is missing; without the Item store (or the others) the inventories and the queue are unchanged; otherwise they are what the fold computes; no other store changes |
| FighterComponent.NewFighter | src/entities/fighter.rs:30-36 | a new fighter stores the damage and cooldown it is given and its timer is zero, so it can attack at once |
| FighterComponent.Fighter.Update | src/entities/fighter.rs:38-40 | the timer counts down by `delta_time`; damage and cooldown are kept |
| FighterComponent.Fighter.GetAttack | src/entities/fighter.rs:42-49 | while the timer is positive the attack does no damage and nothing changes; otherwise it deals the fighter's damage and the timer restarts at the cooldown |
| FighterComponent.FirstAttackLands | src/entities/fighter.rs:30-49 | a new fighter's first attack deals its full damage |
| FighterComponent.CooldownBlocksSecondAttack | src/entities/fighter.rs:42-49 | with a positive cooldown, an attack straight after one that landed does no damage |
| FighterComponent.CooldownElapses | src/entities/fighter.rs:38-49 | once updates totalling the cooldown have passed, the next attack lands again |
| FighterSystem.Hits | src/entities/fighter.rs:97-154 | a candidate is a target exactly when it is not the attacker, holds Health and an Actor, and (for the proximity search) overlaps the attacker or (for the ray) the ray meets it |
| FighterSystem.FindTarget | src/entities/fighter.rs:83-158 | the target found is a candidate that qualifies, and there is none only when no candidate qualifies |
| FighterSystem.Aim | src/entities/fighter.rs:63-81 | a player aims with the ray only on a left click, and finds nothing without one; every other fighter, or every fighter when there is no Player store, searches its nearby entities |
| FighterSystem.Swing | src/entities/fighter.rs:189-204 | the fighter's timer is updated, and a target that holds Health takes the damage of the fighter's attack |
| FighterSystem.Store | src/entities/fighter.rs:189-204 | the fighter and the target's health are written back into their stores and nothing else changes |
| FighterSystem.Strike | src/entities/fighter.rs:189-204 | one fighter's turn leaves the two stores as the turn function computes |
| FighterSystem.FightKeeps | src/entities/fighter.rs:188-205 | the loop keeps the ids and types of the Fighter and Health stores |
| FighterSystem.FightSpares | src/entities/fighter.rs:188-205 | a health that is never a target is untouched |
| FighterSystem.FightNeverHeals | src/entities/fighter.rs:188-205 | with non-negative damages no health ever rises |
| FighterSystem.FightTimers | src/entities/fighter.rs:188-205 | with distinct ids each listed fighter ends updated once, and attacked at most once; unlisted fighters are untouched |
| FighterSystem.FightTurn | src/entities/fighter.rs:189-204 | one turn extends the loop's state by that turn, with the target it aimed at |
| FighterSystem.FightAll | src/entities/fighter.rs:188-205 | the loop leaves the Fighter and Health stores as the fold of the turns computes, each target aimed as `Aim` states |
| FighterSystem.FightIn | src/entities/fighter.rs:180-205 | the loop on the manager keeps it valid and changes no store but Fighter and Health |
| FighterSystem.Tick | src/entities/fighter.rs:170-206 | the update on the manager: the buffer holds the ids with both a Fighter and an Actor, and is empty when either store is missing; without a Health store nothing changes |
| FighterSystem.Update | src/entities/fighter.rs:162-206 | the update as a whole on the ECS state, the click read from the input: the buffer holds the ids with both a Fighter and an Actor, and is empty when either store is missing; without a Health store nothing changes |
| Gui.IndexMapExact | src/gfx/gui.rs:16-20 | the character table holds exactly the characters of `CHARACTERS`, each mapped to its last position in the string |
| Gui.IndexMapInjective | src/gfx/gui.rs:16-20 | distinct characters have distinct atlas indices |
| Gui.Gui.constructor | src/gfx/gui.rs:16-27 | a new writer has the character table, no glyphs and its line at zero |
| Gui.Gui.Clear | src/gfx/gui.rs:29-32 | clearing drops every glyph and resets the line, keeping the table |
| Gui.Gui.Write | src/gfx/gui.rs:34-49 | the line returned is the one before the call, the line counter goes up by one, and the glyphs of the text are appended |
| Gui.Glyphs | src/gfx/gui.rs:38-46 | at most one glyph per character |
| Gui.GlyphsExact | src/gfx/gui.rs:38-46 | there is a glyph exactly for each character position whose character is in the table, at `i * UI_SPRITE_WIDTH` with that character's index |
| Gui.GlyphsOrdered | src/gfx/gui.rs:38-46 | glyphs run strictly left to right |
| Gui.GlyphBefore | src/gfx/gui.rs:38-46 | every glyph lies before the end of the text |
| Gui.GlyphIndexInAtlas | src/gfx/gui.rs:34-46 | every glyph written has an atlas index inside `CHARACTERS`, names a character of the text, and sits on the line returned |
| Input.ButtonSet.constructor | src/input.rs:16-22 | a new button set has nothing pressed, released or held |
| Input.ButtonSet.WasButtonPressed | src/input.rs:24-26 | a press is reported only while focused |
| Input.ButtonSet.WasButtonReleased | src/input.rs:28-30 | a release is reported only while focused |
| Input.ButtonSet.IsButtonHeld | src/input.rs:32-34 | a held button is reported only while focused |
| Input.ButtonSet.ButtonStateChanged | src/input.rs:36-48 | the sets become those of `Changed`: a press marks the button held, and pressed only if it was not held; a release marks it released and not held |
| Input.ButtonSet.Update | src/input.rs:50-53 | the end of a tick forgets presses and releases and keeps held buttons |
| Input.PressReportedOnce | src/input.rs:36-42 | a press leaves the button held, reports it as pressed exactly when it was not already held (or already reported), and touches no other button |
| Input.ReleaseReported | src/input.rs:43-46 | a release reports the button as released and not held, keeps the presses, and touches no other button |
| Input.PressThenRelease | src/input.rs:36-48 | a press and a release within one tick are both reported, and the button ends up not held |
| Input.EndTickKeepsHeld | src/input.rs:50-53 | the end of a tick empties the pressed and released sets, keeps the held set, and doing it twice is the same as once |
| Input.MouseInEdges | src/input.rs:166-171 | the rectangle test includes both corners, and a point left of or above the rectangle is outside |
| Input.Input.constructor | src/input.rs:67-77 | a new input has empty button sets, zero deltas and position, and is not focused |
| Input.Input.WasKeyPressed | src/input.rs:109-111 | true exactly when focused and the key was pressed this tick |
| Input.Input.WasKeyReleased | src/input.rs:113-115 | true exactly when focused and the key was released this tick |
| Input.Input.IsKeyHeld | src/input.rs:117-119 | true exactly when focused and the key is held |
| Input.Input.WasMouseButtonPressed | src/input.rs:121-124 | true exactly when focused and the button was pressed this tick |
| Input.Input.WasMouseButtonPressedIgnoreFocus | src/input.rs:126-128 | true exactly when the button was pressed this tick, focused or not |
| Input.Input.WasMouseButtonReleased | src/input.rs:130-133 | true exactly when focused and the button was released this tick |
| Input.Input.IsMouseButtonHeld | src/input.rs:135-137 | true exactly when focused and the button is held |
| Input.Input.MouseDeltaX | src/input.rs:173-179 | the accumulated horizontal motion while focused, zero otherwise |
| Input.Input.MouseDeltaY | src/input.rs:181-187 | the accumulated vertical motion while focused, zero otherwise |
| Input.UnfocusedQueriesFalse | src/input.rs:109-187 | while unfocused every query answers false or zero, except the press query that ignores focus |
| Input.Input.KeyStateChanged | src/input.rs:139-141 | the key set changes as `Changed` states |
| Input.Input.MouseButtonStateChanged | src/input.rs:143-145 | the mouse button set changes as `Changed` states |
| Input.Input.ProcessButton | src/input.rs:79-103 | a key event with a key code updates the keys, a mouse event the buttons, a cursor event the position; any other event, or a key event without a key code, is not handled and changes nothing |
| Input.Input.MouseMoved | src/input.rs:147-150 | motion accumulates into the deltas; nothing else changes |
| Input.Input.SetFocused | src/input.rs:189-192 | the focus flag is set; deltas and position are kept |
| Input.Input.Update | src/input.rs:208-213 | both button sets end their tick and the deltas reset to zero; position and focus are kept |

## Left out

- Floating point: `f32` positions, speeds and timers are Dafny reals. Rounding, NaN and infinities are not modelled.
- Integer widths: `i32` health, damage and cell coordinates and `usize` ids are unbounded integers. Overflow and the panics it would cause in debug builds are not modelled. `u32` appears only where the source computes with it (the generator's state, `MeshFitsU32`).
- `Vector.Trunc`: the float-to-`i32` casts (`cast::<i32>().unwrap()`) truncate toward zero as the source does. The `None` that `cast` returns for an out-of-range value, and the panic of its `unwrap`, are not modelled.
- Chunk collision (`get_block_collision`), the chunk's ray cast and `Ray::intersects` are not part of this model. The systems take them as given functions: `collides`, `rayHits` and `rayMeets`. `Camera::get_direction_vec` is folded into `rayHits`. `normalize` is a given function too.
- `ChaseAiSystem.Near`: the distance test `sqrt(dx² + dz²) < 0.5` is stated as `dx² + dz² < 0.25`, which is the same test on reals.
- `Chunks.Chunk`: `BLOCK_SIZE` is a constructor parameter (any positive integer), and so is the policy for reads outside the grid. The source's `get_block` answers false out of range; the flag `oobSolid` lets the model state the path search. With `oobSolid` true, `Chunks.Chunk.GetBlock` and `Chunks.Chunk.GenerateMesh` also differ from the source: faces on the chunk border are culled (`Chunks.FacesExact` with `oob` true), where the source draws them.
- `AStar.Search`: modelled only for chunks whose out-of-range cells read solid (`requires chunk.oobSolid`), and so are `ChaseAiSystem.Replan`, `ChaseAiSystem.Update` and the methods between them. The source's `get_block` answers false outside the grid, so the walkable plane is unbounded. The model then differs in two ways. A goal the search cannot reach keeps the source's loop running forever; this is the second row under Findings, proved as written by `AStar.OpenSearchNeverEnds`. A reachable goal whose only route leaves the grid is found by the source and not by the model: with a full wall across x = 1, the source walks round it through z = -1 and the model stops at the wall.
- `ChaseAiSystem.Replan`: plans only for chunks whose out-of-range cells read solid (`requires chunk.oobSolid`), because it calls `AStar.Search`; with the source's open outside plane its search can run forever, as the line above says.
- `AStar.Search`: `BinaryHeap` breaks priority ties in an unspecified order. The model pops any entry of least priority. The path found is not proved shortest, because the source does not promise that (it orders the frontier by the heuristic alone).
- `Actors.Step`: steps with the corrected occupancy update `Actors.UpdateOccupiedBlocks` (leave every old corner column, then join every new one). The source's `step` calls the interleaved update that the first Findings row describes, so on the input given there the source leaves the actor out of a column that the model records. Only horizontal steps can differ: a fall moves along y alone, keeps every corner column, and then the two updates agree (`ActorSystem.FallStepAsWritten`). The chase's steps are horizontal.
- `ChaseAiSystem.ChaseOne`: walks through `Actors.Step`, so its occupancy is the corrected update's.
- `ChaseAiSystem.Run`: inherits the corrected occupancy update of `ChaseAiSystem.ChaseStep`.
- `ChaseAiSystem.ChaseTurn`: inherits the corrected occupancy update of `ChaseAiSystem.ChaseStep`.
- `ChaseAiSystem.ChaseAll`: folds the corrected occupancy update over the ids.
- `ChaseAiSystem.ChaseIn`: folds the corrected occupancy update over the ids.
- `ChaseAiSystem.Hunt`: states the occupancy the corrected update computes.
- `ChaseAiSystem.Chase`: states the occupancy the corrected update computes.
- `ChaseAiSystem.Update`: states the occupancy the corrected update computes, besides the out-of-range restriction of `AStar.Search`.
- `HashMap`/`HashSet` iteration order is unspecified. The inventory pickup, the fighter's target search and the manager's store removal visit the elements of a set in an arbitrary order, chosen with `:|`. So `FighterSystem.FindTarget` promises some qualifying target, not a particular one.
- Type erasure: the `Vec<Box<dyn AnyComponentStore>>` searched by downcast is a `map` from a component tag to the store. No operation depends on the order of the stores. `RefCell` runtime borrow checks are not modelled; the frames of the methods keep the stores they borrow apart.
- `Ecs.ComponentStore`: components are values, so `get_mut` followed by a write is `Replace`.
- `unwrap` on a component the query guarantees: the update methods skip an id that lacks it, where the source would panic. The queries never produce such an id.
- `World.VacateColumns`: an id without an actor is skipped, where the source would panic. `World.EcsState.FlushQueue` requires that every queued id holds an actor whenever the Actor store exists.
- `Random.Rng.Range` requires `max != 0`, where `% 0` panics in the source. The generator's constructor requires a non-zero seed, as `assert_ne!` does.
- `Direction.IndexToDir` returns `None` where the source panics on an index of 6 or more.
- `SystemManager::update` runs each system's `update` in order. The model states the list and the order (`AddSystem`), and each system's update is modelled on its own. Their composition over one frame, with its boxed dynamic dispatch, is not modelled.
- Randomness: `Chunk::generate_blocks` draws from an external random source and is not modelled.
- Rendering, the window and the event loop are not part of this model. Neither are the HUD systems (`HealthDisplaySystem`, `InventoryDisplaySystem`), the instance copying (`EntityInstancesSystem`), player movement (`PlayerMovementSystem`) or the `println!` of a hit.
- `Input`: `update_gui_mouse_position` and `gui_mouse_position`, which divide by the window scale, are not modelled. `set_focused` sets the flag; the cursor grab on the window is left out.
- `Actors`: `teleport`, `jump`, `head_position` and the getters are single field writes and reads of the `Actor` datatype; their callers (player movement, the camera) are not part of this model.
- `Chunks.AddOccupant`, `Chunks.RemoveOccupant` and `Chunks.Chunk.EntitiesAtBlock`: the chunk's column occupancy (`add_entity_to_block`, `remove_entity_from_block`, `entities_at_block`) is not defined in src/chunk.rs. It is modelled from its callers in src/entities/actor.rs, as a map from in-range columns to sets of ids whose updates out of range do nothing.
- The older copies under src/ecs/, src/actor.rs, src/chase_ai.rs, src/player.rs and the like are not compiled into the game and are not modelled.

## Findings

| source | as written | input that shows it | evidently intended | confidence | as-written member | corrected member |
|---|---|---|---|---|---|---|
| src/entities/actor.rs:65-79 | `update_occupied_blocks` handles the four corners in turn. Each corner removes the entity from its old column and at once adds it to its new one, so a later corner's removal can undo an earlier corner's addition | an actor of size (0.5, 1, 0.5) moving from (1, 0, 1) to (1.5, 0, 1) with a block size of 1: corner 0 adds it to column (1, 0), corner 1 then removes it from (1, 0), its old column; the actor is over (1, 0) but not recorded there. This assumes each column holds a set of ids, as the model of the occupancy does (see `Chunks.AddOccupant` under Left out); the column store's own code is not part of this model, and if a column kept a list with one entry per addition the removal would leave corner 0's entry in place. Only a step that changes a corner's column shows it, so the chase's horizontal steps are affected and the fall of `ActorSystem` is not (`ActorSystem.FallStepAsWritten`) | leave every old corner column first, then join every new one, so the entity is recorded over all its new corner columns | not executed; rests on set-valued columns | Actors.UpdateOccupiedBlocksAsWritten, Actors.InterleavedLosesColumn | Actors.UpdateOccupiedBlocks, Actors.RelocatedExact |
| src/a_star.rs:85-105 | `get_block` (src/chunk.rs:93-97) answers false outside the grid, so every out-of-range cell is open and the walkable plane around the chunk is unbounded. The search loop ends only when the frontier empties or the goal is popped, so for a goal it cannot reach it runs forever, its frontier and map growing without end | `WalledGrid()`: only the four cells around (5, 0, 5) solid; a search from (0, 0, 0) for the goal (5, 0, 5) | the search should stop once it has exhausted the cells of the world, treating out-of-range cells as solid, so an unreachable goal yields an empty path | not executed | AStar.OpenSearchNeverEnds, AStar.WalledGoalExample | AStar.Search, AStar.ClosedUnreachable |
