# Collision bookkeeping of Simple-Physics-Engine, in Dafny

Simple-Physics-Engine is a family of 2-D Verlet particle solvers. A solver
keeps its particles in `verlets`. Each `update` runs `subdivision` substeps.
Each substep adds gravity, pushes particles back inside the circular
container, asks a broad phase for candidate pairs, resolves each pair in
`solve_collisions` and integrates every particle.

The broad phases are:

- the naive O(n²) loop over all pairs `i < j`;
- sort-and-sweep over a persistent list of interval events, refreshed,
  extended and insertion-sorted in place every substep;
- a uniform grid scanned with four forward neighbour offsets;
- the same grid cut into rectangular regions whose results are merged in
  region order (the parallel variant);
- a flat-index variant of the grid scan in the parallel engine.

This project models the integer and index bookkeeping around these phases
and proves what it guarantees:

- every reported pair `(i, j)` has `i < j < len`, which `split_at_mut(j)`
  and `left[i]` need;
- which pairs each phase reports, and that none is reported twice;
- the tiling covers the grid exactly once;
- the insertion sort permutes the events, leaves `events[0]` in place and
  sorts the rest;
- `new`'s stable sort puts the events in key order with equal keys in push
  order, and every stable sort gives the same list;
- the sweep's reverse index `active_positions` stays consistent through
  `push` and `swap_remove`;
- the colour-frame counter hands out frames in order and never passes
  their end;
- the ball engine's particle keeps its velocity and its sleep state as its
  methods promise.

The float physics (wall response, elastic collision, integration) enters
only as parameters of type `Motions` and `Response`. The model fixes the
order in which the solvers apply them and which particles they may touch.
It does not fix what they compute.

Files and modules:

- `wrappers.dfy` (`Wrappers`): `Option` and `Result`.
- `pairs.dfy` (`Pairs`): index pairs, the `i < j < len` condition, the
  lexicographic order and the sort of `simple-engine`.
- `particles.dfy` (`Particles`): particles and the exact overlap test.
- `naive.dfy` (`NaiveBroadPhase`): `find_collisions_loop`.
- `events.dfy` (`SweepEvents`): the event list, its refresh and its
  extension.
- `insertion.dfy` (`InsertionSort`): the adjacent-swap insertion sort.
- `stablesort.dfy` (`StableSort`): the stable sort of `new`.
- `sweep.dfy` (`SweepAndPrune`): the sweep with `active` and
  `active_positions`, and the whole `find_collisions_sort_sweep`.
- `grid.dfy` (`UniformGrid`): cell mapping, bucketing and the 2-D offset
  scan.
- `gridcount.dfy` (`GridCount`, `GridAdjacency`): how often the scan
  reports a pair.
- `gridindex.dfy` (`GridBounds`): index bounds and soundness of the grid
  output.
- `tiling.dfy` (`Tiling`): region bounds, the tiled scan and the merge.
- `flatgrid.dfy` (`FlatGrid`): the flat-offset scan, its two defects and
  the corrected test.
- `narrow.dfy` (`NarrowPhase`): the per-particle stages and pair resolution
  over the index precondition.
- `stamping.dfy` (`ColorFrames`): the colour-frame counter.
- `substeps.dfy` (`Substeps`): one substep for each broad phase, and
  `subdivision` of them in a row.
- `verlet.dfy` (`BallVerlet`): the ball engine's particle.
- `engine_*.dfy`: one `Solver` class per engine:
  - `RootEngine` (`src/physics/solver.rs`);
  - `SimplePhysicsEngine` (`simple-engine/src/physics/solver.rs`);
  - `SimpleEngine` (`simple-engine/src/solver.rs`);
  - `BallEngine` (`ball-engine/src/physics/solver.rs`);
  - `MainEngine` (`main-engine/src/physics/solver.rs`);
  - `ParallelEngine` (`parallel-engine/src/solver.rs`).

## Model

| member | source | states |
|---|---|---|
| Pairs.Ordered | main-engine/src/physics/solver.rs:194 | `(a.min(b), a.max(b))` is the two ids, smaller first |
| Pairs.PairsWith | main-engine/src/physics/solver.rs:193-195 | one pair per listed partner, in list order, each the ordered pair of the particle and that partner |
| Pairs.PushPairsWith | main-engine/src/physics/solver.rs:193-195 | pushing the pairs of a particle with every listed partner appends exactly `PairsWith` to the collisions |
| Pairs.StrictlySortedHasNoRepeat | src/physics/solver.rs:91-103 | strictly increasing pairs of the form `i < j` repeat no unordered pair |
| Pairs.ConcatStrictlySorted | src/physics/solver.rs:91-103 | two strictly increasing runs, the first below the second, concatenate to a strictly increasing run |
| Pairs.SortedPermutationUnique | simple-engine/src/physics/solver.rs:95-101 | two sorted arrangements of the same multiset of pairs are equal, so the sort's result does not depend on its algorithm |
| Pairs.LexTotal | simple-engine/src/physics/solver.rs:95-101 | the comparator of `sort_by` is total and antisymmetric on pairs |
| Pairs.InsertPair | simple-engine/src/physics/solver.rs:95-101 | inserting into a sorted list keeps it sorted and adds exactly that pair to its multiset |
| Pairs.SortPairs | simple-engine/src/physics/solver.rs:95-101 | the result is sorted by first index, then second, and is a permutation of the input |
| Pairs.SortedSortIsIdentity | simple-engine/src/physics/solver.rs:95-101 | sorting a list that is already sorted gives it back unchanged |
| Pairs.PermutedIndexable | simple-engine/src/physics/solver.rs:95-112 | a reordering of pairs that all satisfy `i < j < len` still satisfies it, so the sort keeps `split_at_mut` safe |
| Pairs.PairsWithCount | main-engine/src/physics/solver.rs:268-270 | the multiplicity of `(a, b)` among a particle's pairs is the number of copies of the other end in the partner list |
| Particles.OverlapMeetsOnX | main-engine/src/physics/solver.rs:136-140 | two particles closer than the sum of their radii have overlapping x-intervals `[x - r, x + r]` |
| Particles.OverlapsSymmetric | main-engine/src/physics/solver.rs:136-140 | the overlap test does not depend on the order of the two particles |
| NaiveBroadPhase.RowPairsExact | main-engine/src/physics/solver.rs:133-143 | the inner loop for row `i` pushes `(i, j)` exactly for the later `j` that overlap `i`, in increasing order |
| NaiveBroadPhase.PairsUpToBounds | main-engine/src/physics/solver.rs:132-144 | every pair pushed by the first rows starts below the row count and has `i < j < len` |
| NaiveBroadPhase.PairsUpToSorted | src/physics/solver.rs:91-103 | the pairs of the first rows come out in strictly increasing lexicographic order |
| NaiveBroadPhase.PairsUpToMembers | src/physics/solver.rs:95-101 | after the first rows, `(i, j)` has been pushed exactly when `i` is one of those rows and the two overlap |
| NaiveBroadPhase.NaivePairsExact | src/physics/solver.rs:87-106 | the output is exactly the overlapping pairs `i < j < len`, strictly increasing, with no unordered pair repeated |
| NaiveBroadPhase.ScanPartners | ball-engine/src/physics/solver.rs:119-129 | the inner loop appends exactly the pairs of row `i` |
| NaiveBroadPhase.FindCollisionsLoop | main-engine/src/physics/solver.rs:128-147 | the two nested loops return the naive pairs: all `i < j < len`, strictly increasing, and `(i, j)` is present exactly when the two overlap |
| SweepEvents.Refreshed | main-engine/src/physics/solver.rs:156-167 | recomputing the keys keeps every event's id and end flag and gives each the key `x - r` or `x + r` of its particle |
| SweepEvents.NewEvents | main-engine/src/physics/solver.rs:169-177 | the appended block holds, for each new particle in index order, its start event `x - r` and then its end event `x + r` |
| SweepEvents.RefreshKeepsWellFormed | ball-engine/src/physics/solver.rs:142-153 | a list with one start and one end per particle still has that shape after the keys are refreshed |
| SweepEvents.AppendKeepsWellFormed | main-engine/src/physics/solver.rs:169-177 | appending the events of particles `len/2 .. n` to a list for the first `len/2` gives exactly one start and one end per particle `0 .. n`, with matching keys |
| SweepEvents.InitialEventsWellFormed | ball-engine/src/physics/solver.rs:22-27 | the list `new` builds has one start and one end event per initial particle, each with its particle's key |
| SweepEvents.PermutationKeepsWellFormed | main-engine/src/physics/solver.rs:38-39 | any rearrangement of that list is still well formed and key matched |
| SweepEvents.RefreshKeys | main-engine/src/physics/solver.rs:156-167 | the refresh loop computes `Refreshed` |
| SweepEvents.AppendNewEvents | main-engine/src/physics/solver.rs:169-177 | the append loop extends the list by exactly the events of particles `len/2 .. n` |
| InsertionSort.Swap | main-engine/src/physics/solver.rs:183 | `swap(j, j + 1)` exchanges the two entries, leaves the others and keeps the multiset |
| InsertionSort.InsertDownPermutes | main-engine/src/physics/solver.rs:181-184 | one inner loop permutes the events and never touches the entries below its lower end |
| InsertionSort.InsertDownSorted | main-engine/src/physics/solver.rs:181-184 | one inner loop inserts entry `i` into the sorted run above the lower end |
| InsertionSort.PassesSorted | main-engine/src/physics/solver.rs:180-185 | after the first `m` passes the entries from the lower end up to `m` are sorted by key |
| InsertionSort.SortedFromCorrect | main-engine/src/physics/solver.rs:180-185 | the whole sort is a permutation that keeps the entries below the lower end (`events[0]` for the refresh sort) in place and sorts the rest by key |
| InsertionSort.InsertRun | main-engine/src/physics/solver.rs:181-184 | the inner loop computes `InsertDown` |
| InsertionSort.SortEvents | ball-engine/src/physics/solver.rs:166-171 | the sort loop returns a permutation that keeps the entries below the lower end and is sorted above it |
| SweepAndPrune.PushKeepsIndex | main-engine/src/physics/solver.rs:196-197 | after `active_positions[id] = active.len()` and `active.push(id)` every active id still records its index and every other id records -1 |
| SweepAndPrune.RemoveKeepsIndex | main-engine/src/physics/solver.rs:199-206 | after `swap_remove` and the repair of the moved id's position the reverse index is consistent again, and exactly `id` has left |
| SweepAndPrune.FirstStart | main-engine/src/physics/solver.rs:191-197 | a particle's start event is the first of its events, so it is not active when its start is reached |
| SweepAndPrune.StartPairsIndexable | main-engine/src/physics/solver.rs:193-195 | the pairs a start event emits against the active ids all satisfy `i < j < n` |
| SweepAndPrune.StartPairsMembers | main-engine/src/physics/solver.rs:192-197 | after a start event the pairs pushed so far are exactly those of particles whose intervals met up to that event |
| SweepAndPrune.StartPairsFresh | main-engine/src/physics/solver.rs:192-195 | a start event emits no pair already pushed, and none twice |
| SweepAndPrune.StartStep | main-engine/src/physics/solver.rs:192-197 | a start event keeps the sweep invariant: reverse index, active set and pairs so far |
| SweepAndPrune.Sweep | main-engine/src/physics/solver.rs:187-210 | the sweep reports `(a, b)`, `a < b < n`, exactly when their intervals met in event order, never the same pair twice |
| SweepAndPrune.OpenBetween | main-engine/src/physics/solver.rs:191-207 | a particle is active at an event exactly when its start lies before the event and its end does not lie between them |
| SweepAndPrune.SweepMeetsOverlappingIntervals | main-engine/src/physics/solver.rs:180-208 | when `events[1..]` is sorted, two particles with overlapping x-intervals meet in the sweep, whatever `events[0]` is |
| SweepAndPrune.SweepMeetsOverlapping | main-engine/src/physics/solver.rs:180-208 | two particles that truly overlap meet in the sweep |
| SweepAndPrune.SortSweep | main-engine/src/physics/solver.rs:151-211 | `find_collisions_sort_sweep` leaves the list well formed and key matched for every particle, sorted from index 1, with `events[0]` unmoved. Its pairs satisfy `i < j < len`, none is repeated, they are exactly the pairs that meet, and they include every truly overlapping pair |
| SweepAndPrune.InitialEvents | ball-engine/src/physics/solver.rs:20-30 | `new`'s list is a permutation of the start and end events of all initial particles, in key order, with equal keys in push order |
| StableSort.PushRankIsPosition | ball-engine/src/physics/solver.rs:22-27 | entry `k` of the pushed list has push rank `k`: start of particle `i` at `2 * i`, its end at `2 * i + 1` |
| StableSort.StableTotal | ball-engine/src/physics/solver.rs:30 | ordering by key and then push rank is total, and antisymmetric on events |
| StableSort.StablySortedUnique | ball-engine/src/physics/solver.rs:30 | two arrangements of the same events in key order with ties in push order are equal, so the stable sort's result is fixed |
| StableSort.InsertEvent | ball-engine/src/physics/solver.rs:30 | inserting after every event at or below keeps the list stably sorted, adds exactly that event and repeats no end |
| StableSort.SortStably | ball-engine/src/physics/solver.rs:30 | the result is stably sorted, a permutation of the input, and repeats no end when the input repeats none |
| StableSort.StablySortedKeys | ball-engine/src/physics/solver.rs:30 | a stably sorted list is in key order, and of two equal keys the one pushed first comes first |
| StableSort.TouchingIntervalsKeepPushOrder | main-engine/src/physics/solver.rs:29-39 | for particles at x = 0 and x = 2 of radius 1, the end of 0 stays before the start of 1, which share the key 1 |
| UniformGrid.CellCoordOf | main-engine/src/physics/solver.rs:224-225 | `floor((v + radius) / cell_size)` saturated at zero: the cell's lower edge is at most the shifted coordinate, unless it saturated, and its upper edge is above it |
| UniformGrid.GridSize | main-engine/src/physics/solver.rs:41 | `(2 * radius / cell_size) as usize`: the grid never spans more than the container's diameter |
| UniformGrid.Bucket | main-engine/src/physics/solver.rs:217-231 | the cleared grid has `count` cells |
| UniformGrid.BucketCorrect | main-engine/src/physics/solver.rs:217-231 | every cell lists, in increasing order, exactly the particles whose cell index is that cell; particles whose index is past the grid are dropped |
| UniformGrid.Fill | main-engine/src/physics/solver.rs:217-231 | clearing the cells in place and pushing each particle index gives the bucketed grid |
| UniformGrid.Neighbour | main-engine/src/physics/solver.rs:233-265 | the four forward offsets, guarded by the bounds test, name a cell of the grid |
| UniformGrid.CellScans | main-engine/src/physics/solver.rs:241-275 | the scan of every cell, one row of results per grid row |
| UniformGrid.ScanNeighbour | main-engine/src/physics/solver.rs:258-271 | one offset appends the pairs of a particle with every particle of that neighbour cell |
| UniformGrid.ScanNeighbours | main-engine/src/physics/solver.rs:258-272 | the offset loop appends the particle's pairs with all four neighbour cells, in offset order |
| UniformGrid.ScanParticles | main-engine/src/physics/solver.rs:247-273 | the loop over a cell's particles appends its pairs within the cell and with the neighbours |
| UniformGrid.ScanCell | main-engine/src/physics/solver.rs:243-273 | one cell appends exactly `CellPairs` |
| UniformGrid.ScanRow | main-engine/src/physics/solver.rs:242-274 | one row of cells appends the scans of those cells in column order |
| UniformGrid.ScanRegion | main-engine/src/physics/solver.rs:241-277 | the nested row and column loops return the scans of the region's cells in row-major order |
| GridAdjacency.TouchCount | main-engine/src/physics/solver.rs:241-275 | over the whole scan, `(a, b)` is counted once if the two are bucketed into touching cells and zero times otherwise |
| GridAdjacency.GridTouch | main-engine/src/physics/solver.rs:214-278 | the sequential grid output holds `(a, b)`, `a < b`, exactly once when their cells touch, and not at all otherwise |
| GridBounds.NeighbourNotSelf | main-engine/src/physics/solver.rs:233-238 | no forward offset leads back to the same cell |
| GridBounds.CellIndexable | main-engine/src/physics/solver.rs:247-272 | every pair a cell emits has `i < j < len` |
| GridBounds.RegionPairsIndexable | main-engine/src/physics/solver.rs:330-366 | every pair a rectangular region emits has `i < j < len` |
| GridBounds.TouchCountsSound | main-engine/src/physics/solver.rs:392-394 | pairs that all satisfy `i < j < len`, each touching pair counted once, repeat nothing and are exactly the touching pairs |
| GridBounds.GridPairsSound | main-engine/src/physics/solver.rs:214-278 | the grid output satisfies `i < j < len`, repeats no unordered pair, and holds `(a, b)` exactly when `a < b` and the two sit in touching cells |
| Tiling.Bounds | main-engine/src/physics/solver.rs:315-324 | the region boundaries `(k * grid_size) / regions` for `k = 0 .. regions` |
| Tiling.BoundsCut | main-engine/src/physics/solver.rs:315-324 | the boundaries start at 0, end at `grid_size` and never decrease, so the regions cover every row and column once |
| Tiling.BoundFacts | main-engine/src/physics/solver.rs:315-324 | the first boundary is 0, the last is `grid_size`, and they are monotone |
| Tiling.RegionSplitY | main-engine/src/physics/solver.rs:330 | scanning rows `y0 .. y1` is scanning `y0 .. ym`, then `ym .. y1` |
| Tiling.RegionSplitX | main-engine/src/physics/solver.rs:331 | scanning columns `x0 .. x1` yields the pairs of `x0 .. xm` and `xm .. x1` together, as multisets |
| Tiling.TileRowCovers | main-engine/src/physics/solver.rs:318-366 | the tiles of one band, merged in region order, hold the same pairs as the whole band |
| Tiling.TiledCovers | main-engine/src/physics/solver.rs:314-385 | the tiles of the first bands hold the same pairs as the rows above the last band boundary |
| Tiling.ParallelPermutesGrid | main-engine/src/physics/solver.rs:311-385 | with at least one region per axis, the merged parallel output is a permutation of the sequential grid output; with none on an axis it is empty |
| Tiling.ScanTileRow | main-engine/src/physics/solver.rs:318-375 | one band's tiles, scanned and appended in region order |
| Tiling.ScanParallel | main-engine/src/physics/solver.rs:309-385 | the region loops and the merge produce `ParallelPairs` |
| Tiling.ParallelPairsSound | main-engine/src/physics/solver.rs:280-386 | the parallel output satisfies `i < j < len`, repeats no unordered pair, and holds exactly the pairs in touching cells |
| FlatGrid.FlatOffsets | parallel-engine/src/solver.rs:98-103 | the offsets exist exactly when `grid_size > 0` |
| FlatGrid.FlatOffsetsRowMajor | parallel-engine/src/solver.rs:98-103 | each flat offset is the row-major distance of the matching 2-D offset |
| FlatGrid.FlatNeighbour | parallel-engine/src/solver.rs:121-132 | a neighbour the flat scan visits lies after the cell and inside the grid |
| FlatGrid.FlatNeighbourMatches | parallel-engine/src/solver.rs:121-132 | with the position-based edge test, or any grid size other than 2, the flat neighbour is the 2-D neighbour |
| FlatGrid.FlatNeighbourMissesAtTwo | parallel-engine/src/solver.rs:127-132 | at `grid_size == 2` the value-based test drops the right neighbour of column 0 and the bottom-left neighbour of column 1 |
| FlatGrid.ScanFlatOffset | parallel-engine/src/solver.rs:121-138 | one offset appends the particle's pairs with that neighbour cell |
| FlatGrid.ScanFlatCell | parallel-engine/src/solver.rs:108-140 | one cell appends exactly `FlatCellPairs` under the value-based test |
| FlatGrid.ScanFlat | parallel-engine/src/solver.rs:98-143 | the flat scan fails exactly when `grid_size == 0`; otherwise it returns the flat pairs under the value-based test |
| FlatGrid.FlatCellMatches | parallel-engine/src/solver.rs:105-141 | the flat scan of cell `y * grid_size + x` equals the 2-D scan of cell `(x, y)` whenever the edge test is sound |
| FlatGrid.FlatPairsMatchGrid | parallel-engine/src/solver.rs:105-141 | whenever the edge test is sound, the flat scan emits the same pair sequence as the 2-D offset scan |
| FlatGrid.FlatPairsSound | parallel-engine/src/solver.rs:78-144 | with a sound edge test, the flat output satisfies `i < j < len`, repeats nothing and holds exactly the touching pairs |
| FlatGrid.FlatPairsMissAtTwo | parallel-engine/src/solver.rs:98-132 | two particles in adjacent cells of a 2 × 2 grid: the value-based scan reports nothing, the position-based one reports the pair |
| NarrowPhase.SplitNeedsIndexable | main-engine/src/physics/solver.rs:392-394 | `split_at_mut(j)` then `left[i]` and `right[0]` stay in bounds exactly when `i < j < len` |
| NarrowPhase.Moved | main-engine/src/physics/solver.rs:415-420 | moving a particle keeps its radius, colour and acceleration |
| NarrowPhase.ResolvePair | main-engine/src/physics/solver.rs:391-421 | resolving one pair keeps the number of particles |
| NarrowPhase.ResolvedFrame | main-engine/src/physics/solver.rs:388-423 | every particle keeps radius, colour and acceleration, and a particle named by no pair is unchanged |
| NarrowPhase.ResolveApart | main-engine/src/physics/solver.rs:400 | a pair that does not overlap changes nothing |
| NarrowPhase.ResolvedSplit | main-engine/src/physics/solver.rs:391-422 | resolving `a + b` is resolving `a` and then `b` |
| NarrowPhase.SolveCollisions | main-engine/src/physics/solver.rs:388-423 | the loop over the pairs computes `Resolved`, given `i < j < len` for every pair |
| NarrowPhase.Gravitated | main-engine/src/physics/solver.rs:76-80 | gravity keeps every position and previous position, and every radius and colour |
| NarrowPhase.GravityAdds | main-engine/src/physics/solver.rs:76-80 | adding `g` and then `h` is adding `g + h` |
| NarrowPhase.ApplyGravity | main-engine/src/physics/solver.rs:76-80 | the loop computes `Gravitated` |
| NarrowPhase.Walled | main-engine/src/physics/solver.rs:106-124 | the wall stage keeps every acceleration, radius and colour |
| NarrowPhase.ApplyWalls | parallel-engine/src/solver.rs:57-75 | the loop computes `Walled` |
| NarrowPhase.Advanced | main-engine/src/physics/solver.rs:70-74 | integration keeps radius, density and colour, records the used acceleration as the last one and `dt` as `last_dt`, and leaves every acceleration zero |
| NarrowPhase.UpdatePositions | main-engine/src/physics/solver.rs:70-74 | the loop computes `Advanced` |
| NarrowPhase.Prepared | main-engine/src/physics/solver.rs:62-63 | gravity then walls keeps the particles' number, radii, densities and colours |
| NarrowPhase.Finished | main-engine/src/physics/solver.rs:65-66 | resolution then integration keeps the particles' number, radii, densities and colours |
| ColorFrames.FrameAfterClosed | main-engine/src/physics/solver.rs:446-461 | the counter moves on by one per particle until it reaches the number of frames, and never moves when it starts at or past it |
| ColorFrames.FrameAfterBound | main-engine/src/physics/solver.rs:447-449 | `current_frame <= color_frames.len()` is kept |
| ColorFrames.StampedClosed | main-engine/src/physics/solver.rs:453-461 | particle `k` of a batch takes frame `current + k` while there is one and is otherwise unchanged |
| ColorFrames.StampedSplit | main-engine/src/physics/solver.rs:446-461 | stamping two batches one after the other is stamping them together: `add_position` per particle equals `add_positions` |
| ColorFrames.StampAll | parallel-engine/src/solver.rs:407-413 | the in-place loop recolours the particles in order and returns the advanced counter |
| ColorFrames.StampFromStart | parallel-engine/src/solver.rs:406-413 | from counter 0, particle `k` takes frame `k` while frames remain, and the counter ends at `min(len, frames)` |
| Substeps.BucketedGrid | main-engine/src/physics/solver.rs:281-295 | the freshly bucketed grid has `grid_size * grid_size` cells |
| Substeps.CandidatePairs | main-engine/src/physics/solver.rs:128-386 | every broad phase's pairs satisfy `i < j < len` and repeat no unordered pair |
| Substeps.CandidatePairsMeet | main-engine/src/physics/solver.rs:128-386 | the naive loop reports exactly the overlapping pairs. Both grid scans, with at least one region per axis, report exactly the pairs in touching cells. With no region on an axis the parallel scan reports nothing |
| Substeps.Substepped | main-engine/src/physics/solver.rs:62-66 | a substep keeps the particles' number, radii, densities and colours |
| Substeps.IterateSplit | main-engine/src/physics/solver.rs:61-67 | running `m` steps and then `n` more is running `m + n` |
| Substeps.RunStep | main-engine/src/physics/solver.rs:61-67 | one more substep after `n` is substep `n + 1` |
| Substeps.RunSplit | main-engine/src/physics/solver.rs:59-68 | `m` substeps followed by `n` substeps are `m + n` substeps |
| Substeps.RunKeepsLooks | main-engine/src/physics/solver.rs:59-68 | however many substeps run, the particles keep their number, radii, densities and colours |
| BallVerlet.VelocityOf | ball-engine/src/physics/verlet.rs:104-110 | zero when `last_dt == 0`, otherwise the velocity times `last_dt` is the last displacement |
| BallVerlet.SetVelocityReadsBack | ball-engine/src/physics/verlet.rs:112-114 | after `set_velocity(v, dt)` the velocity read with step `dt` is `v` |
| BallVerlet.AddVelocityReadsBack | ball-engine/src/physics/verlet.rs:116-118 | after `add_velocity(v, dt)` the velocity read with step `dt` has grown by `v` |
| BallVerlet.StepVelocity | ball-engine/src/physics/verlet.rs:166-170 | a Verlet step with step `dt` adds `acceleration * dt` to the velocity |
| BallVerlet.Interpolated | ball-engine/src/physics/verlet.rs:128-130 | the interpolated position is the previous position at 0 and the current one at 1 |
| BallVerlet.Verlet.constructor | ball-engine/src/physics/verlet.rs:22-37 | a new particle is at rest, awake, with timer 0, radius 9 and density 1 |
| BallVerlet.Verlet.WithRadius | ball-engine/src/physics/verlet.rs:38-54 | as `new`, with the given radius |
| BallVerlet.Verlet.WithVelocity | ball-engine/src/physics/verlet.rs:55-70 | the previous position is `position - velocity * dt`, so the velocity reads back as given |
| BallVerlet.Verlet.AddAcceleration | ball-engine/src/physics/verlet.rs:96-98 | adds to the acceleration and changes nothing else |
| BallVerlet.Verlet.SetColor | ball-engine/src/physics/verlet.rs:76-78 | sets the colour and changes nothing else |
| BallVerlet.Verlet.SetVelocity | ball-engine/src/physics/verlet.rs:112-114 | rewrites only the previous position; the velocity then reads back as given |
| BallVerlet.Verlet.AddVelocity | ball-engine/src/physics/verlet.rs:116-118 | moves only the previous position; the velocity then grows by the given amount |
| BallVerlet.Verlet.WakeUp | ball-engine/src/physics/verlet.rs:136-139 | the particle is awake with timer 0, all else unchanged |
| BallVerlet.Verlet.TrySleep | ball-engine/src/physics/verlet.rs:141-156 | a sleeping particle is unchanged. A slow one adds `dt` to its timer and sleeps exactly when the timer reaches the threshold. A fast one resets its timer and stays awake |
| BallVerlet.Verlet.UpdatePosition | ball-engine/src/physics/verlet.rs:158-176 | a sleeping particle keeps both positions. An awake one takes a Verlet step, with the old position becoming the previous one. Both record the acceleration and `dt` and clear the acceleration |
| RootEngine.Solver.constructor | src/physics/solver.rs:14-21 | the solver holds the given particles and parameters |
| RootEngine.Solver.Update | src/physics/solver.rs:23-29 | one substep with the naive broad phase: gravity, constraints, overlapping pairs, resolution, integration |
| RootEngine.Solver.AddPosition | src/physics/solver.rs:209-211 | appends the particle unchanged |
| RootEngine.Solver.AddPositions | src/physics/solver.rs:212-214 | appends the particles unchanged and in order |
| SimplePhysicsEngine.SortingNaivePairsIsIdentity | simple-engine/src/physics/solver.rs:95-101 | on the naive loop's output the lexicographic pre-sort changes nothing |
| SimplePhysicsEngine.Solver.constructor | simple-engine/src/physics/solver.rs:12-18 | the solver holds the given particles and parameters |
| SimplePhysicsEngine.Solver.SolveCollisions | simple-engine/src/physics/solver.rs:94-141 | the pairs are resolved in lexicographically sorted order, a permutation of the given pairs that still satisfies `i < j < len` |
| SimplePhysicsEngine.Solver.Update | simple-engine/src/physics/solver.rs:20-26 | one substep with the naive broad phase; the sort inside it does not reorder the naive pairs |
| SimplePhysicsEngine.Solver.AddPosition | simple-engine/src/physics/solver.rs:164-166 | appends the particle unchanged |
| SimplePhysicsEngine.Solver.AddPositions | simple-engine/src/physics/solver.rs:167-169 | appends the particles unchanged and in order |
| SimpleEngine.Solver.constructor | simple-engine/src/solver.rs:16-27 | the grid is `grid_size * grid_size` empty cells, with `grid_size` from the radius and cell size |
| SimpleEngine.Solver.FindCollisionsSpacePartitioning | simple-engine/src/solver.rs:68-132 | the grid is cleared and refilled in place, and the result is the grid broad phase's pairs |
| SimpleEngine.Solver.Substep | simple-engine/src/solver.rs:31-44 | one substep over the grid's pairs |
| SimpleEngine.Solver.Update | simple-engine/src/solver.rs:29-45 | `subdivision` substeps of `dt / subdivision` |
| SimpleEngine.Solver.AddPosition | simple-engine/src/solver.rs:192-194 | appends the particle unchanged |
| SimpleEngine.Solver.AddPositions | simple-engine/src/solver.rs:195-197 | appends the particles unchanged and in order |
| BallEngine.Solver.constructor | ball-engine/src/physics/solver.rs:19-41 | the event list is the start and end events of the initial particles in key order, equal keys in push order; no colour frames |
| BallEngine.Solver.FindCollisionsSortSweep | ball-engine/src/physics/solver.rs:137-197 | the list is refreshed, extended to `2 * len` events, sorted from index 1 with `events[0]` unmoved. Every pair satisfies `i < j < len`, none repeats, all overlapping pairs are included, and a pair is present exactly when the intervals meet |
| BallEngine.Solver.Substep | ball-engine/src/physics/solver.rs:45-51 | the particles after a substep are resolution and integration over some swept pair list of the particles after gravity and the walls |
| BallEngine.Solver.Update | ball-engine/src/physics/solver.rs:43-52 | the event list stays well formed, the frame state is kept, and the particles keep their number, radii, densities and colours |
| BallEngine.Solver.AddPosition | ball-engine/src/physics/solver.rs:257-263 | the particle takes the next frame if one remains and is appended; the counter advances only then |
| BallEngine.Solver.AddPositions | ball-engine/src/physics/solver.rs:264-272 | the batch is stamped with consecutive frames and appended; the counter stays within the frames |
| BallEngine.Solver.LoadColors | ball-engine/src/physics/solver.rs:432-438 | particle `k` takes frame `k` while frames remain; the counter ends at `min(len, frames)` |
| MainEngine.Solver.constructor | main-engine/src/physics/solver.rs:28-57 | the initial particles' events in key order, equal keys in push order, and an empty `grid_size * grid_size` grid |
| MainEngine.Solver.FindCollisionsSortSweep | main-engine/src/physics/solver.rs:151-211 | as in the ball engine: refreshed, extended, sorted from index 1, and the pairs of intervals that meet |
| MainEngine.Solver.FindCollisionsSpacePartitioning | main-engine/src/physics/solver.rs:214-278 | the grid is refilled in place and the result is the sequential grid scan |
| MainEngine.Solver.FindCollisionsSpacePartitioningParallel | main-engine/src/physics/solver.rs:280-386 | a fresh grid is bucketed and the tiled scan's merged result is the parallel broad phase's pairs |
| MainEngine.Solver.Substep | main-engine/src/physics/solver.rs:62-66 | one substep over the parallel grid's pairs |
| MainEngine.Solver.Update | main-engine/src/physics/solver.rs:59-68 | `subdivision` substeps of `dt / subdivision`; events and frames unchanged |
| MainEngine.Solver.AddPosition | main-engine/src/physics/solver.rs:446-452 | the particle takes the next frame if one remains and is appended |
| MainEngine.Solver.AddPositions | main-engine/src/physics/solver.rs:453-461 | the batch is stamped with consecutive frames and appended |
| MainEngine.Solver.LoadColors | main-engine/src/physics/solver.rs:621-627 | particle `k` takes frame `k` while frames remain; the counter ends at `min(len, frames)` |
| ParallelEngine.Solver.constructor | parallel-engine/src/solver.rs:22-37 | an empty `grid_size * grid_size` grid, with `grid_size` from the radius and cell size |
| ParallelEngine.Solver.FindCollisionsSpacePartitioning | parallel-engine/src/solver.rs:78-144 | the grid is refilled; the scan fails exactly when `grid_size == 0` and otherwise returns the flat pairs under the value-based test |
| ParallelEngine.Solver.FindCollisionsSpacePartitioningParallel | parallel-engine/src/solver.rs:146-254 | `self.grid` is cleared and refilled, so no stale index survives, and the result is the parallel broad phase's pairs |
| ParallelEngine.Solver.Substep | parallel-engine/src/solver.rs:41-54 | one substep over the parallel grid's pairs |
| ParallelEngine.Solver.Update | parallel-engine/src/solver.rs:39-55 | `subdivision` substeps of `dt / subdivision` |
| ParallelEngine.Solver.LoadColors | parallel-engine/src/solver.rs:404-415 | particle `k` takes frame `k` while frames remain; the counter ends at `min(len, frames)` |
| ParallelEngine.Solver.AddPosition | parallel-engine/src/solver.rs:433-439 | the particle takes the next frame if one remains and is appended |
| ParallelEngine.Solver.AddPositions | parallel-engine/src/solver.rs:440-448 | the batch is stamped with consecutive frames and appended |

## Left out

- Float physics. The wall response, the elastic collision inside
  `solve_collisions` and the Verlet integration of the solvers are the
  parameters `walls`, `response` and `integrate` of the `Stages` value. The
  model fixes their order, which particles they see, and that they keep
  radius, density and colour. Each stage is given the whole particle,
  including `last_dt`, `last_acceleration` and `density`, which
  `get_velocity` and `get_mass` read. It does not fix their arithmetic. `f32` and `f64` are
  modelled as exact reals, so rounding is not modelled.
- `ThreadPool` in `parallel-engine/src/lib.rs`. The regions are scanned
  one after the other and merged in region order. That is the order in which
  the source receives the per-region results.
- File and image I/O: `save_state`, `load_state`, `save_colors`,
  `color_from_image`, and the read and deserialisation at the start of
  `load_colors`. `LoadColors` takes the decoded frames as a parameter.
- `is_container_full`, `apply_rainbow_gradient`, `create_gaussian_kernel`,
  `deterministic_normalize`, `get_positions`, `get_verlets` and `get_mass`.
  These are float computations or plain accessors.
- The `dt` round trip through a string in `simple-engine`'s
  `solve_collisions`. The step reaches the `response` parameter unchanged.
- `usize` wrap-around. Indices and counters are unbounded naturals. The
  one subtraction that can go below zero (`grid_size - 1`) is modelled as
  an error.
- UniformGrid.CellCoordOf: `floor(...) as usize` is modelled as saturating
  at zero. A NaN position and values past `usize::MAX` are not modelled. A
  positive cell size is required, because the source divides by it.
- StableSort.SortStably: `new`'s `sort_by` is the library's stable sort. The
  model stands for it with an insertion sort under the key-then-push-rank
  order. `StablySortedUnique` shows that every stable sort gives the same
  list, so only the running time differs.
- MainEngine.Solver.constructor: a positive `cell_size` is required. The
  source also accepts zero or a negative cell size, which saturates
  `grid_size` to 0 or `usize::MAX`; that float edge case is not modelled.
  A zero `grid_size` is still reachable with a positive cell size.
- ParallelEngine.Solver.constructor: a positive `cell_size` is required,
  as for the main engine.
- SimpleEngine.Solver.constructor: a positive `cell_size` is required, as
  for the main engine.
- BallEngine.Solver.Update: states only that the event list stays valid and
  that the particles keep their number, radii, densities and colours. Each `Substep`
  states its new particles in terms of the swept pairs. Those pairs are
  pinned down only up to membership, not order, so the model does not
  compose the substeps into one function of the input.
- BallEngine.Solver.Substep: the pair order of the sweep is left open. The
  contract says the particles are the narrow phase over some pair list that
  satisfies `i < j < len`, repeats nothing and includes every overlapping
  pair.
- SimplePhysicsEngine.Solver.SolveCollisions: the sorted order is stated as
  a sorted permutation of the input. For the naive pairs that `update`
  passes, `SortingNaivePairsIsIdentity` shows the sort is the identity.
- Substeps.SubDt: `dt / subdivision` with `subdivision == 0` is a float
  division by zero in the source, but no substep then runs. The model
  returns 0 and never uses it.
- `find_collisions_loop` in `ball-engine` and `main-engine`, and the
  sequential grid scan of `main-engine`, are modelled but not called by
  `update`. The same holds in the source.
- The flat-offset `find_collisions_space_partitioning` of the parallel
  engine is likewise not used by its `update`.
- The plain float integrators in `simple-engine/src/verlet.rs`,
  `simple-engine/src/physics/verlet.rs`, `src/physics/verlet.rs`,
  `soft-body-engine/src/verlet.rs` and `src/verlet_object.rs`, and every
  `main.rs`, are not part of this model.
- BallVerlet: `get_mass` (`PI * r * r * density`) is not modelled. `id` and
  `density` are kept as plain fields.

## Findings

| source | as written | input that shows it | evidently intended | confidence | as-written member | corrected member |
|---|---|---|---|---|---|---|
| parallel-engine/src/solver.rs:98-103, 127-132 | The edge test compares an offset's value with `1`, `grid_size + 1` and `grid_size - 1`. At `grid_size == 2`, `1 == grid_size - 1`, so the right neighbour of column 0 is skipped as a "bottom-left at the left edge", and the bottom-left neighbour of column 1 as a "right at the right edge" | `grid_size = 2`, particle 0 in cell (0, 0) and particle 1 in cell (1, 0): the two cells touch, but the flat scan reports no pair | the edge test asks which of the four offsets is being tried, so the scan agrees with the 2-D offset scan | not executed | FlatGrid.FlatPairsMissAtTwo | FlatGrid.FlatPairsMatchGrid |
| parallel-engine/src/solver.rs:102 | `self.grid_size - 1` is computed even when `grid_size == 0`. That happens when `cell_size > 2 * constraint_radius`. On `usize` this underflows: a panic in debug builds, a huge offset in release builds | `constraint_radius = 1.0`, `cell_size = 3.0`, so `grid_size = 0` | an empty grid reports no pairs | not executed | FlatGrid.ScanFlat | FlatGrid.FlatPairsSound |
