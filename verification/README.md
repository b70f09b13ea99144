# Bucket-graph labeling, verified

This project models the labeling engine of bgspprc (`include/bgspprc/bucket_graph.h`) and the resources it is
parameterised by, and proves that its speed-ups agree with their simple meaning: the set of feasible walks and the
cheapest one. The engine solves a resource constrained shortest path. It cuts the resource window of each vertex into
a grid of buckets, processes the strongly connected components of the bucket graph in topological order, extends
labels to a fixpoint under dominance, joins forward and backward labels across an arc, and prunes with completion
bounds, bucket fixing, arc elimination and jump arcs.

The layers, from the bottom:

| layer | files |
|---|---|
| values, resources and their laws | `Types`, `Resource`, `StandardResource`, `PickupDelivery`, `PickupDeliveryPaths`, `CumulativeCost`, `Bits`, `Bits64`, `NgPath`, `NgLaws`, `NgWalks`, `R1C` |
| problem, labels, dominance, joins | `Problem`, `Joins`, `Schedules`, `StandardPaths`, `WalkTimes` |
| bucket grid, bucket arcs, components | `Grid`, `BucketArcs`, `Scc`, `BucketOrder`, `Build` |
| label store and labeling loop | `Sorting`, `LabelStore`, `LabelingSpec`, `LabelingSteps`, `LabelCounts`, `CBest`, `Clearances`, `Labeling` |
| exactness of the solves | `Exactness`, `Threads`, `Caps`, `Paths`, `Solving`, `ParallelSort`, `Concat`, `Pruning`, `Bidirectional`, `BidirectionalSolve`, `EnumerationSpec`, `EnumerationCounts`, `Enumeration` |
| bounds and elimination | `Completion`, `Elimination`, `JumpArcs`, `LabelElimination`, `Resolving`, `LabelWalks`, `BidirectionalFixing` |
| inputs on which a speed-up loses a path | `Instances`, `SecondRound` |

How to read it:

- A resource is a record of functions (`Resources.Resource`), as the C++ concept is a set of member functions. The
  engine is proved for every resource that meets named laws: `Disposable` (dominance is a free, transitive simulation
  in both directions, and the bit filters respect it) and `Joinable` (joins are monotone and do not depend on the split
  arc). The laws are proved for the empty pack, the standard, ng-path and pickup-delivery resources, and for any pack
  of resources that meet them.
- Costs and resources are reals and EPS is zero; an infinite double is the separate value `Inf`. There are always two
  main resources: an instance with one has a second that is zero everywhere, which gives one cell in that dimension.
- `Beyond(P, G, dir, b, c)` says that bucket c is at the same vertex as b and no earlier in either dimension, seen in
  direction dir; `Covered(C, s, n)` that a stored undominated label dominates n; `Finished` that every open bucket is
  closed and every extension covered; `Threaded(C, t, z)` that the bucket graph, by bucket arcs and jump arcs, lets a
  label follow the arcs t to z, whether or not one does.
- The state of a run is a class (`Labeling.LabelingRun`, `Enumeration.EnumerationRun`, `Sccs.Tarjan`) whose methods
  change its fields as the C++ ones do; what they do is stated on the value of that state, and the lemmas about whole
  runs speak of these values.
- Every loop and recursion terminates. In the labeling loop the measure is the label count against its cap, since a
  pass that reports a change has raised it.

Where the code and its comments differ, the code is followed. `extend_label` reads copies of the problem data that are
inlined in the arc; here they are read from the problem.

Some speed-ups do lose paths. For each the project states when, proves it for all inputs, and gives an input:

- The bidirectional join skips arcs at the source or the sink (line 3479), and without a pack it skips a forward label
  whose cost with the arc reaches theta (line 3522), although reduced costs may become negative behind it. Exactly the
  `Bidirectional.Visible` walks are found (`BidirectionalSolve.MatchedIff`); the walks that are not are those of two
  arcs that cross the midpoint on the first, and without a pack some that are paid for late. `Instances.SolveTwoArcs`
  and `Instances.SolveLatePaid` are inputs for which nothing is returned.
- Completion bounds are not relaxed over jump arcs. A round of elimination and fixing is safe exactly if stored labels
  and bucket walks span every step of the walks within theta (`Elimination.RoundSafeIff`). They do as long as no bucket
  lacks an arc that a later one has, which is so on the bucket graph as built and shows as having no jump arcs
  afterwards (`JumpArcSearch.NoJumpsIffNested`). Otherwise a second round, or an enumeration after a first one, can lose
  walks: `SecondRound.LoseOnSecondRound`, which ends in a solve that returns nothing, and
  `SecondRound.MissInEnumeration`. Jump arcs may make up for what is missing: when the next solve is optimal all the
  same is decided by the ways to the sink that the bucket graph allows (`Threads.Threaded`,
  `Resolving.SolveReduceSolve`).
- Label-based elimination keeps an arc only where labels of both directions meet (`LabelWalks.JustifiedIffWalk`), so
  arcs far from the midpoint are lost to the next solve, which in `Instances.LoseByElimination` returns nothing.
- Fixing after a bidirectional solve keeps a bucket exactly if labels of the solve lead through it within theta
  (`BidirectionalFixing.KeptIff`). Buckets that a walk passes up to the head of its joining arc stay; behind that a
  backward label has to have survived the pruning (`BehindIff`), which is out of the question where no forward label
  has come near (`FarIsFixed`). In `Instances.LoseByFixing` the next solve returns nothing.
- The domination cost of rank-1 cuts counts the cuts on which the dominated label has progressed, where it should count
  those of the dominating one. A claim made with it survives the step over an arc to a vertex, for all states, exactly
  if the cuts that both keep their bit over the arc and toggle it at the vertex have multiplier 0, and those that lose
  it have no positive one (`R1Cs.DominationSoundIff`); `R1Cs.ClaimBroken` has two paths on which it does not.

Dominance inside a batch compares each label with later ones only, in the order of cost. Labels of one bucket that cost
the same may so dominate each other and both be left (`Clearances.TieIsKept`); `Clearances.FinishedTight` says that
nothing else is left dominated by its bucket or by a component processed earlier.

The ng-path constructor stops at 32 shift pairs per arc:
`NgPaths.MovedIff` says exactly when that forgets nothing, which includes all lists without repeated entries.

## Model

| member | source | states |
|---|---|---|
| Resources.PackDisposable | include/bgspprc/resource.h:55-129 | The pack composition keeps the laws dominance rests on: if both parts have a dominance order that is transitive, costs nothing and survives every extension, so has their pack, and the bit filters on its first ng part and first cut part never contradict it. |
| Resources.PackJoinable | include/bgspprc/resource.h:147-182 | The pack composition keeps the join laws: joins are monotone under dominance, and moving an arc from the forward to the backward side of a join changes nothing. |
| Resources.PackDominates | include/bgspprc/resource.h:119-182 | One pack state dominates another, or joins it, iff each part does. |
| Resources.EmptyJoinable | include/bgspprc/resource.h:38-47 | A pack without resources satisfies the join laws. |
| StandardResource.StandardDisposable | include/bgspprc/resources/standard.h:57-101 | The standard resource has a dominance order that is a simulation in both directions. |
| StandardResource.StandardJoinable | include/bgspprc/resources/standard.h:103-114 | With the source and sink it was given, its asymmetric concatenation test is exact: it gives the same answer wherever the path is split. |
| StandardPaths.ReachedMeaning | include/bgspprc/resources/standard.h:48-85 | What a state means, in both directions: it exists iff values can be chosen along the path, each in the window of its vertex and each at least the one before and what the arc consumes; it is then the least possible last one, in a backward search the greatest possible first one. |
| StandardPaths.StandardSplit | include/bgspprc/resources/standard.h:48-114 | Split law for every path and every split arc: the states of both halves exist and pass the concatenation test over the arc iff values can be chosen along the whole path. |
| StandardPaths.StandardDominates | include/bgspprc/resources/standard.h:87-114 | Dominance is exact: the cost is finite iff the state is no worse, which is iff it joins wherever the dominated one does. |
| PickupDelivery.PickupDeliveryDisposable | include/bgspprc/resources/pickup_delivery.h:52-99 | Pickup-delivery states have a dominance order that is a simulation in both directions. |
| PickupDelivery.PickupDeliveryJoinable | include/bgspprc/resources/pickup_delivery.h:105-113 | For demands that are not negative, joining is monotone under dominance and independent of the split arc. |
| PickupDeliveryPaths.AfterMeaning | include/bgspprc/resources/pickup_delivery.h:52-65 | A forward state exists iff the load fits at every point of the path; it holds the amount picked up and the room left everywhere. |
| PickupDeliveryPaths.AheadMeaning | include/bgspprc/resources/pickup_delivery.h:66-77 | The same for backward states: the amount delivered and the room left. |
| PickupDeliveryPaths.LoadSplit | include/bgspprc/resources/pickup_delivery.h:35-113 | Split law: prefix and suffix states exist and satisfy the two concatenation tests iff the load of the whole path fits at every point. |
| PickupDeliveryPaths.PickupDeliveryDominates | include/bgspprc/resources/pickup_delivery.h:81-113 | Dominance is exact: less load and more room, which is to join wherever the dominated state does. |
| CumulativeCosts.ForwardMeaning | include/bgspprc/resources/cumulative_cost.h:45-50 | The forward accumulator holds the arrival time and the sum of weight times arrival time, and that sum is the cost charged. |
| CumulativeCosts.BackwardMeaning | include/bgspprc/resources/cumulative_cost.h:50-57 | The backward accumulator, which collects weights instead of times, charges the same weighted arrival cost. |
| CumulativeCosts.CumulativeSplit | include/bgspprc/resources/cumulative_cost.h:45-82 | Split law for every path and every split arc: prefix, joining arc, time at the join times weight behind it, and suffix add up to the weighted arrival cost of the whole. |
| CumulativeCosts.CumulativeNotDisposable | include/bgspprc/resources/cumulative_cost.h:65-78 | The declared lower bound of 0 on the domination cost is wrong, so this resource never meets the dominance laws. |
| R1Cs.SetCuts | include/bgspprc/r1c.h:40-71 | Cuts are accepted iff there are at most 64, each with one multiplier of one half per base vertex; the masks then say which arcs keep and which vertices toggle which cut. |
| R1Cs.BuildMasks | include/bgspprc/r1c.h:144-166 | Bit c of an arc or vertex mask is set iff the arc is in the memory, or the vertex in the base set, of cut c; entries out of range are ignored. |
| R1Cs.ComputeOverflowCost | include/bgspprc/r1c.h:175-185 | The lowest-bit-first loop computes minus the sum of the betas of exactly the active cuts whose bit is set. |
| R1Cs.SplitLaw | include/bgspprc/r1c.h:75-136 | Split law for every path, every split arc and up to 64 packed cuts: prefix cost, join cost and suffix cost add up to the forward cost of the whole path. |
| R1Cs.CostMeaning | include/bgspprc/r1c.h:75-97 | The forward cost of a path is, for each cut, minus beta times the sum of floor(visits / 2) over the maximal segments its arc memory connects; the final bits are the parities of the last segments. |
| R1Cs.DominationSoundIff | include/bgspprc/r1c.h:75-110 | The claims that states make with the domination cost survive a step, over arc a to vertex v, for all states and costs, iff every active cut with a in its memory and v in its base set has beta 0 and every one without a in its memory has no positive beta. |
| R1Cs.ClaimsLast | include/bgspprc/r1c.h:75-110 | Where no step of a path breaks claims, a claim made before it still holds at its end. |
| R1Cs.ClaimBroken | include/bgspprc/r1c.h:40-110 | An accepted cut and two paths to the same vertex that break it: the claim of one on the other holds with both at cost 0, and over the same next arc the first pays 1, the second nothing, and the claim is gone. |
| NgPaths.Construct | include/bgspprc/resources/ng_path.h:71-147 | The constructor fills positions, self bits and the shift pairs of every arc in both directions as the scans say; missing neighbour lists are empty and lists beyond the last vertex change nothing. |
| NgPaths.ShiftPairs | include/bgspprc/resources/ng_path.h:167-173 | The loop over shift pairs moves exactly the bits the pairs name. |
| NgPaths.FirstTracked | include/bgspprc/resources/ng_path.h:82-91 | A vertex of a list without repeats gets a local bit iff fewer than 31 named vertices come before it. |
| NgPaths.PairsMeaning | include/bgspprc/resources/ng_path.h:104-146 | The shift pairs of a move are exactly those of the common neighbours, and one for the vertex left, provided the limit of 32 pairs cuts off nothing. |
| NgPaths.MovedIff | include/bgspprc/resources/ng_path.h:104-194 | A move keeps exactly the remembered vertices the new neighbourhood tracks, for every state, iff the limit of 32 pairs cuts off nothing. |
| NgPaths.CleanRoomy | include/bgspprc/resources/ng_path.h:82-146 | The limit never cuts off anything when no neighbour list repeats an entry. |
| NgPaths.RepeatsForget | include/bgspprc/resources/ng_path.h:104-146 | A list with 40 equal entries makes the resource forget the vertex just left although it is tracked. |
| NgPaths.Stepped | include/bgspprc/resources/ng_path.h:156-203 | One step is refused iff the next vertex is remembered, costs nothing, and remembers what it should. |
| NgPaths.JoinedNg | include/bgspprc/resources/ng_path.h:156-227 | A join is allowed iff the head of the arc is not remembered and no vertex is remembered on both sides. |
| NgLaws.NgDisposable | include/bgspprc/resources/ng_path.h:156-234 | Remembering less is a transitive simulation in both directions, and the bit test on states without the self bit never contradicts it, for any neighbour lists. |
| NgLaws.NgJoinable | include/bgspprc/resources/ng_path.h:156-227 | Joining is monotone under dominance and independent of the split arc. |
| NgWalks.ForwardRefines | include/bgspprc/resources/ng_path.h:156-203 | A forward label exists iff its path is ng-feasible, and the bit of w at its end is set iff w was visited and has stayed in every later ng-set. |
| NgWalks.BackwardRefines | include/bgspprc/resources/ng_path.h:174-203 | The mirror statement for backward labels. |
| NgWalks.NgSplit | include/bgspprc/resources/ng_path.h:156-227 | Prefix, arc and backward suffix join iff the whole path is ng-feasible, for every path and every split arc. |
| Problems.DominatesOrder | include/bgspprc/bucket_graph.h:1186-1232 | Dominance is reflexive and transitive. |
| Problems.DominatesExtend | include/bgspprc/bucket_graph.h:1061-1182 | A dominating label can take every arc the dominated one can, also from boosted resources, and the results still dominate. |
| Problems.DominatesRun | include/bgspprc/bucket_graph.h:1061-1118 | Every arc sequence feasible from a dominated label is feasible from the dominating one, at no greater cost. |
| WalkTimes.WalkedMeaning | include/bgspprc/bucket_graph.h:1061-1118 | What a label means, in both directions: along a connected walk it exists iff values within the windows can be chosen for both main resources, each at least the one before and what the arc consumes, and the pack refuses no step; it holds the least last values, backward the greatest, and the cost of the arcs and of the pack. |
| WalkTimes.FeasibleIff | include/bgspprc/bucket_graph.h:1061-1118 | So the feasible walks of all results below are the connected source-to-sink walks that can be timed so and that the pack allows, at that cost. |
| Joins.JoinIffFeasible | include/bgspprc/bucket_graph.h:3538-3572 | The join tests on a forward and a backward label hold iff the joining arc followed by the whole suffix is feasible from the forward label: windows and resources agree with the path at every split. |
| Joins.SplitAt | include/bgspprc/bucket_graph.h:3538-3572 | At every arc of a feasible walk both halves exist as labels, pass the join tests, and their costs add up. |
| Joins.JoinIsWalk | include/bgspprc/bucket_graph.h:3538-3572 | A joined pair is a feasible source-to-sink walk of exactly the joined cost. |
| Joins.JoinDominates | include/bgspprc/bucket_graph.h:3538-3572 | Replacing both halves by dominating labels keeps them joinable. |
| Grids.BuildBuckets | include/bgspprc/bucket_graph.h:621-670 | Buckets are laid out vertex by vertex, each vertex window cut into a full grid with the bounds the steps give. |
| Grids.BucketsTile | include/bgspprc/bucket_graph.h:632-652 | The buckets of a vertex tile its window: the outermost ones begin and end with it, and the upper bound of each is the lower bound of the next in its row or column. |
| Grids.BucketIndexFacts | include/bgspprc/bucket_graph.h:672-685 | The index arithmetic finds the bucket of the right vertex whose row and column are the cells of the resource vector. |
| Grids.BucketIsUnique | include/bgspprc/bucket_graph.h:672-685 | For a vector inside the window the bucket found is the one and only bucket of the vertex whose bounds hold it. |
| Grids.BucketHolds | include/bgspprc/bucket_graph.h:672-685 | The corner labels come from is never past the resource vector, also for vectors outside the window on the far side. |
| Grids.BucketMonotone | include/bgspprc/bucket_graph.h:672-685 | More consumed resources never give an earlier bucket in either dimension. |
| BucketArcs.BuildBucketArcs | include/bgspprc/bucket_graph.h:695-777 | Every bucket gets, in arc order, exactly the bucket arcs that BucketArcMeaning describes. |
| BucketArcs.BucketArcMeaning | include/bgspprc/bucket_graph.h:695-777 | A bucket has an arc iff some label in it, with resources not before its corner, can arrive at the head within the window in both resources; and the bucket arc leads to the bucket that holds the first arrival possible from the corner. |
| BucketArcs.ArrivalIsFirst | include/bgspprc/bucket_graph.h:738-773 | The window test on the clamped arrival decides whether any arrival within the window is possible, and the arrival is the first such one. |
| BucketArcs.LandsBeyond | include/bgspprc/bucket_graph.h:738-773 | A label extended from a bucket lands in the target of the bucket arc or behind it. |
| BucketArcs.TargetMonotone | include/bgspprc/bucket_graph.h:738-773 | If a later bucket can take an arc, so can an earlier one, and its target is no later. |
| Sccs.Tarjan.StrongConnect | include/bgspprc/bucket_graph.h:834-856 | One call numbers, links and closes what it must: afterwards the invariant of the search holds and lowlink is bounded and witnessed. |
| Sccs.StrongComponents | include/bgspprc/bucket_graph.h:827-864 | Two vertices get the same id iff each reaches the other, and no edge goes to a higher id. |
| BucketOrder.ComputeSccs | include/bgspprc/bucket_graph.h:779-898 | On bucket arcs and same-vertex neighbours, ids are the mutual-reachability classes and the groups list each class in order. |
| BucketOrder.ComponentsAreTopological | include/bgspprc/bucket_graph.h:779-874 | Processing ids downwards is a topological order for bucket arcs and for every move to a bucket behind at the same vertex. |
| BucketOrder.LandsLater | include/bgspprc/bucket_graph.h:1121-1182 | No extension, ordinary or over a jump arc, lands in a component processed earlier. |
| LabelStores.InsertSorted | include/bgspprc/bucket_graph.h:1254-1268 | The parallel arrays stay consistent and sorted by cost, and hold exactly one label more. |
| LabelStores.FilterSound | include/bgspprc/bucket_graph.h:1271-1464 | Nothing the sorted break, the resource tests, the ng bits or the cut bits rule out can dominate. |
| LabelStores.DominatedInBucketFrom | include/bgspprc/bucket_graph.h:1408-1464 | The scalar loop returns true iff some undominated label of the bucket dominates the new one. |
| LabelStores.DominatedInBucketLanes | include/bgspprc/bucket_graph.h:1271-1405 | The lane-chunked loop with its scalar tail returns the same answer, for every lane width. |
| LabelStores.RemoveDominated | include/bgspprc/bucket_graph.h:1575-1621 | Exactly the labels of the bucket that the new label dominates are marked, despite the lower-bound start. |
| LabelStores.ThinBatch | include/bgspprc/bucket_graph.h:1719-1738 | The batch thins itself: a label is killed iff one before it in the order of cost is left and dominates it, and every kill is by something left. |
| LabelStores.FusedPass | include/bgspprc/bucket_graph.h:1782-2016 | After the two-way pass no stored and no new label that is left dominates the other, and every kill is covered by something left, although killers may be killed later in the pass. |
| LabelStores.BatchInsert | include/bgspprc/bucket_graph.h:1709-2044 | The whole batch insertion: every marked label is dominated by one that is kept, the row gets exactly the survivors, of which no old and no new one dominate each other, nor a new one a later one in the order of cost. |
| LabelStores.CompactRow | include/bgspprc/bucket_graph.h:2939-2967 | Compaction keeps exactly the undominated labels, in order, in all arrays. |
| Labeling.LabelingRun.TryInsert | include/bgspprc/bucket_graph.h:1627-1704 | A label is stored iff its bucket is open and no label there dominates it; exactly the labels it beats are marked; whatever was covered stays covered, and the label itself is covered. |
| Labeling.LabelingRun.InsertGroup | include/bgspprc/bucket_graph.h:1709-2044 | A group offered to an open bucket: the bucket gains exactly its undominated members, no old and no new label left dominates the other, every member is covered, and nothing that was covered is lost. |
| Labeling.LabelingRun.ProcessBatch | include/bgspprc/bucket_graph.h:2049-2082 | Grouping by bucket loses no label: each is covered or its bucket is closed. |
| Labeling.LabelingRun.ExtendLabel | include/bgspprc/bucket_graph.h:1061-1182 | A label is allocated iff the extension is feasible; it has the parent, arc, bucket and values it should, and earlier labels are untouched. |
| Labeling.LabelingRun.PreFilter | include/bgspprc/bucket_graph.h:2175-2217 | Forward labels past the midpoint are dropped iff no backward minimum across an outgoing arc leaves them below theta. |
| Labeling.LabelingRun.HasCompatibleOpposite | include/bgspprc/bucket_graph.h:2578-2593 | The loop over outgoing arcs decides exactly that. |
| Labeling.LabelingRun.Expand | include/bgspprc/bucket_graph.h:2182-2272 | A label is extended along every bucket arc and every jump arc of its bucket, and each kept child is covered. |
| Labeling.LabelingRun.DominatedInAdjacent | include/bgspprc/bucket_graph.h:1466-1573 | True iff a bucket that comes before, whose bounds do not exclude it, holds an undominated dominating label. |
| Labeling.LabelingRun.ProcessLabel | include/bgspprc/bucket_graph.h:2137-2275 | A label that is dominated, extended or past the midpoint is left alone; one that a bucket before it, not excluded by its bound, dominates is marked and not extended; every other one is extended. No label is lost. |
| Labeling.LabelingRun.ProcessBucket | include/bgspprc/bucket_graph.h:2135-2275 | If a pass over a bucket stores nothing, every label of the bucket is settled. |
| Labeling.LabelingRun.Pass | include/bgspprc/bucket_graph.h:2124-2280 | A pass over a component reports a change iff it raised the label count; without one, and below the cap, every bucket of the component is settled. The count is the termination measure. |
| Labeling.LabelingRun.CompactAll | include/bgspprc/bucket_graph.h:2970-2979 | Compacting a component loses no covered label and closes settled buckets. |
| Labeling.LabelingRun.ProcessScc | include/bgspprc/bucket_graph.h:2084-2286 | Terminates; without a cap hit every open bucket of the component is closed: all its labels are undominated and extended or past the midpoint. Earlier components are untouched and the bounds are exact. |
| Labeling.LabelingRun.Solve | include/bgspprc/bucket_graph.h:3055-3124 | After all components in order, without a cap hit, the store is finished, all open buckets closed and every extension covered, and tight: see FinishedTight. |
| Clearances.NoHitIsClear | include/bgspprc/bucket_graph.h:1466-1573 | The check of adjacent buckets misses nothing by their bounds: if it finds no dominating label, there is none in any earlier bucket of a component processed before. |
| Clearances.FinishedTight | include/bgspprc/bucket_graph.h:2137-2275 | What is left of a finished run: of two labels of one bucket neither dominates the other unless they cost the same; an open label not past the midpoint is dominated by none from a component processed earlier; and every label but the first has passed the filter past the midpoint. |
| Clearances.TieIsKept | include/bgspprc/bucket_graph.h:1719-1738 | The exception happens: of two labels of a batch that cost the same, the later dominates the earlier, and both are left, because each is compared with later ones only. |
| Caps.TracesDiffer | include/bgspprc/bucket_graph.h:2137-2275 | Each label is extended once: without jump arcs no two labels of a run, stored or not, stand for the same arc sequence. |
| Caps.FewLabels | include/bgspprc/bucket_graph.h:2091-2116 | So a run builds no more labels than there are feasible partial paths, and a component whose cap is 500000 cannot hit it when there are fewer. |
| LabelCounts.StoredWithinPool | include/bgspprc/bucket_graph.h:2091-2116 | No label is stored twice in any bucket, so the count compared with the cap, which is exactly the number of labels stored, never exceeds the number of labels built. |
| CBests.UpdateCBest | include/bgspprc/bucket_graph.h:2290-2386 | After each component, c_best of its buckets is the exact 2-D prefix minimum of the stored costs, although it is built component by component, and the vertex minima are exact. |
| CBests.BoundsKept | include/bgspprc/bucket_graph.h:2290-2386 | Labeling and compacting a later component leaves the bounds of earlier ones exact. |
| Exactness.Sound | include/bgspprc/bucket_graph.h:1061-1182 | Every stored label stands for a feasible partial path with its cost and vertex; jump arcs only ever delay resources. |
| Exactness.CoverStep | include/bgspprc/bucket_graph.h:2084-2286 | One step of a path worth finishing from a covered label is covered again, or was rejected by the midpoint filter, also across eliminated arcs and jump arcs. |
| Exactness.FullPreserves | include/bgspprc/bucket_graph.h:695-777 | The bucket graph as built has everything any path needs. |
| Exactness.MonoCovers | include/bgspprc/bucket_graph.h:2084-2286 | Every feasible source-to-sink walk within the bound is dominated by a stored undominated sink label. |
| Threads.StoredThreaded | include/bgspprc/bucket_graph.h:1061-1182 | On any bucket graph a stored label has followed its arcs through it, over bucket arcs and jump arcs of open buckets, and ended in an open bucket. |
| Threads.ThreadIsTrue | include/bgspprc/bucket_graph.h:1121-1182 | Whatever the bucket graph lets a label follow, jumps included, is a feasible partial path of the same cost. |
| Threads.ArcOrFront | include/bgspprc/bucket_graph.h:900-1056 | With the jump arcs of obtain_jump_arcs, an open bucket has an arc that a bucket behind it has, or a jump arc for it to a bucket no later than that one. |
| Threads.CoverThread | include/bgspprc/bucket_graph.h:2084-2286 | The converse, on reduced graphs as well: after a finished run with complete jump arcs, whatever the bucket graph lets a label follow without landing behind a fixed bucket is dominated by a stored label. |
| Solving.CollectSink | include/bgspprc/bucket_graph.h:3446-3458 | The candidates are exactly the undominated sink labels below theta, each once. |
| Solving.Select | include/bgspprc/bucket_graph.h:3732-3756 | The result holds maxPaths candidates when that is positive and less than there are, else all; different ones, sorted by cost, and none left out is cheaper than one returned. |
| Solving.RealiseSink | include/bgspprc/bucket_graph.h:3710-3730 | A sink candidate is rebuilt as a connected feasible source-to-sink walk of exactly its reduced and original cost. |
| Solving.SolveMono | include/bgspprc/bucket_graph.h:3055-3146 | Mono exactness, on any bucket graph: the paths are the cheapest undominated sink labels below theta, one path for each, as many as maxPaths asks for and all if it is 0; each is a feasible walk of its stated cost that the bucket graph lets labels follow. Without a cap hit the first is optimal whenever nothing a walk within the bound needs was removed, and, with complete jump arcs, whenever the bucket graph allows a way to the sink as cheap as each of these walks and not behind a fixed bucket; it never is unless the graph allows such ways. Without jump arcs no path comes twice, and with fewer feasible partial paths than the cap no cap is hit; a cap is reported only with as many labels in the pool. |
| Solving.OptimalReaches | include/bgspprc/bucket_graph.h:3055-3146 | The first path is optimal among walks within a bound only if for each of them the bucket graph allows a way to the sink that costs no more: a condition on arcs, jump arcs and windows in which no label and no dominance occurs. |
| Solving.ReachedIsOptimal | include/bgspprc/bucket_graph.h:3055-3146 | And it is optimal, after a finished run with complete jump arcs, if the bucket graph allows such ways that never land behind a fixed bucket. |
| Threads.ClosedIsFree | include/bgspprc/bucket_graph.h:1627-1704 | When nothing behind a fixed bucket is open, every way to an open bucket is one that never lands behind a fixed bucket, so the two conditions are the same. |
| Building.BuildDirection | include/bgspprc/bucket_graph.h:161-174 | What is built meets every precondition of the solves: arcs, components, groups and order fit the problem, nothing is fixed. |
| Building.BuildAndSolve | include/bgspprc/bucket_graph.h:161-225 | From any well-formed instance of disposable resources: build, then a mono solve, is optimal when no cap is hit, and none is with fewer than 500000 feasible partial paths; the paths are the cheapest sink labels of the run, as many as wanted. |
| Building.BuildAndSolveBothWays | include/bgspprc/bucket_graph.h:161-225 | The same for a bidirectional solve around any midpoint, for any arc costs: only visible walks are returned, and without a cap hit the first is the cheapest visible one, so optimal but for overlooked walks and, without a pack, walks paid for late; which candidates are returned is as for SolveBidirectional. |
| Paths.GetPath | include/bgspprc/label.h:42-53 | Walking the parent chain and reversing gives the vertices and arcs of the label, from its root. |
| Paths.GetBackwardSubpath | include/bgspprc/label.h:58-66 | Without reversing, the chain of a backward label leads forward to the sink. |
| Paths.ChainConnects | include/bgspprc/label.h:42-66 | The chain of every stored label is a connected walk between the start vertex and the label. |
| Concat.CollectConcat | include/bgspprc/bucket_graph.h:3460-3690 | The nested loops with their minima, sorted breaks and bucket skips emit exactly the joinable pairs below theta across inner arcs, each once and with its cost. |
| Pruning.PruneIncompatible | include/bgspprc/bucket_graph.h:2550-2568 | Exactly the stored backward labels that the cheapest forward arrival leaves at theta or above are marked. |
| Pruning.MinArrivals | include/bgspprc/bucket_graph.h:3391-3400 | The arrival of a vertex is the least forward minimum plus arc cost into it. |
| Pruning.RecomputeBounds | include/bgspprc/bucket_graph.h:3794-3828 | The bounds after pruning are again the exact prefix and vertex minima. |
| Bidirectional.CoverForward | include/bgspprc/bucket_graph.h:2084-2286 | Forward labels cover a walk up to its last position not past the midpoint. |
| Bidirectional.CoverBackward | include/bgspprc/bucket_graph.h:2084-2286 | Backward labels cover a walk from the sink back to any position behind which everything is in reach of the backward search. |
| Bidirectional.BidirectionalMatches | include/bgspprc/bucket_graph.h:3183-3432 | Every visible walk below theta is matched by a pair or a sink label of no greater cost, despite the past-midpoint filter and the backward pruning. |
| Bidirectional.VisibleIfPaid | include/bgspprc/bucket_graph.h:3473-3530 | Every feasible walk is visible that is not overlooked (two arcs, the midpoint crossed on the first) and, without a pack, costs less than theta up to and with the arc it joins on. |
| Bidirectional.VisibleIff | include/bgspprc/bucket_graph.h:3473-3530 | With a pack a feasible walk is visible iff it is not overlooked. |
| Bidirectional.OverlookedInvisible | include/bgspprc/bucket_graph.h:3473-3484 | Overlooked walks are never visible: both their arcs touch the source or the sink. |
| BidirectionalSolve.RealiseJoin | include/bgspprc/bucket_graph.h:3710-3860 | An emitted pair is rebuilt as a connected feasible source-to-sink walk of exactly its cost. |
| BidirectionalSolve.CandidateVisible | include/bgspprc/bucket_graph.h:3460-3690 | Without jump arcs every candidate, pair or sink label, stands for a visible walk. |
| BidirectionalSolve.GenuineFollows | include/bgspprc/bucket_graph.h:3460-3690 | On any bucket graphs, reduced or with jump arcs, a candidate is made of arcs the forward graph lets labels follow, and for a pair an inner arc and arcs the backward graph lets them follow. |
| BidirectionalSolve.MatchedIff | include/bgspprc/bucket_graph.h:3183-3432 | Bidirectional exactness, both ways: a walk of cost below theta is matched iff some visible walk costs no more, with or without a pack. |
| BidirectionalSolve.MatchedUnlessOverlooked | include/bgspprc/bucket_graph.h:3183-3432 | With a pack: matched iff some feasible walk that is not overlooked costs no more. |
| BidirectionalSolve.SolveBidirectional | include/bgspprc/bucket_graph.h:3183-3432 | On any bucket graphs the paths are the cheapest of all sink labels and joinable pairs below theta of the two runs after pruning, one path for each, as many as maxPaths asks for and all if it is 0; each is a feasible walk of its cost and follows the forward graph to the sink or the two graphs to an inner arc; without jump arcs it is visible. As built and without a cap hit the first is the cheapest visible walk below theta, so optimal but for overlooked and, without a pack, late-paid walks. |
| BidirectionalSolve.KeptIffPartner | include/bgspprc/bucket_graph.h:2578-2593 | The filter on forward labels past the midpoint keeps one iff over some arc a stored backward label completes it below theta, at the source or sink always; of the labels left each but the first has passed it. |
| BidirectionalSolve.OverlookedIsMissed | include/bgspprc/bucket_graph.h:3460-3484 | An overlooked walk is matched by nothing when it is cheaper than all walks that are not overlooked. |
| Instances.TwoArcsMissed | include/bgspprc/bucket_graph.h:3473-3484 | An instance with three vertices whose only walk, of cost -2, is overlooked: no visible walk exists, so no list of visible paths is anything but empty. |
| Instances.LatePaidMissed | include/bgspprc/bucket_graph.h:3518-3526 | An instance without a pack whose only walk, of cost -4, is not overlooked but invisible, because its forward part with the joining arc is not below theta. |
| Instances.SolveTwoArcs | include/bgspprc/bucket_graph.h:3183-3432 | Build and bidirectional solve on the first of these return nothing. |
| Instances.SolveLatePaid | include/bgspprc/bucket_graph.h:3183-3432 | Build and bidirectional solve on the second return nothing. |
| Completion.ShortWalk | include/bgspprc/bucket_graph.h:2412-2441 | Without negative cycles every bucket walk can be shortened to one with at most as many steps inside a component as it has buckets. |
| Completion.RelaxScc | include/bgspprc/bucket_graph.h:2412-2441 | As many passes as the component has buckets, and one more, make the bounds of a component the exact shortest walk costs. |
| Completion.Sweep | include/bgspprc/bucket_graph.h:2443-2500 | The sweep gives each bucket the minimum over the buckets behind it in both dimensions. |
| Completion.ComputeCompletion | include/bgspprc/bucket_graph.h:2396-2500 | Without a negative cycle the result is the exact shortest walk to the terminal, then the suffix minimum. |
| Elimination.CompletionAdmissible | include/bgspprc/bucket_graph.h:2396-2500 | The bound of a bucket is at most the cost of every feasible continuation of every label in it. |
| Elimination.CompletionExact | include/bgspprc/bucket_graph.h:2443-2500 | On the full bucket graph the suffix minimum changes nothing. |
| Elimination.EliminateArcs | include/bgspprc/bucket_graph.h:379-390 | Exactly the bucket arcs whose two bounds and cost exceed theta are erased; order is kept. |
| Elimination.FixBuckets | include/bgspprc/bucket_graph.h:439-508 | Exactly the buckets whose two bounds exceed theta, and in a bidirectional solve those of the other direction and the two label bounds together as well, are added, and the count is right. |
| Elimination.KeptBounds | include/bgspprc/bucket_graph.h:2396-2500 | On a bucket graph reduced before, in which no bucket lacks an arc that a bucket behind it has, the bounds still do not exceed what any walk worth keeping has to pay, although the relaxation ignores jump arcs. |
| Elimination.EliminationSafe | include/bgspprc/bucket_graph.h:379-508 | On such a bucket graph, as built or reduced before, nothing that any walk of cost at most theta needs is removed, neither arcs nor buckets. |
| Elimination.ErasedIff | include/bgspprc/bucket_graph.h:379-390 | On any bucket graph: a bucket arc escapes erasure iff a label stored in a bucket no later, the arc, and a walk over bucket arcs from a bucket no earlier than its target cost at most theta together. |
| Elimination.FixedIff | include/bgspprc/bucket_graph.h:439-508 | On any bucket graph: a bucket is not fixed in a mono solve iff a label stored in a bucket no later and a walk from a bucket no earlier cost at most theta together. |
| Elimination.RoundSafeIff | include/bgspprc/bucket_graph.h:379-508 | Exactly when fixing, elimination or both keep what walks within theta need, on any bucket graph, nested or not, after any run: iff the graph had it and such labels and bucket walks span every step of these walks. |
| Resolving.Reduce | include/bgspprc/bucket_graph.h:379-508 | Fixing, elimination and new jump arcs on any bucket graph: exactly the arcs and buckets whose exact bounds exceed the gap are gone. The result keeps what walks within the gap need iff the graph did and every step of them is spanned, so after a finished run on a nested graph it does; its jump arcs are complete unless they are switched off; when no bucket is fixed the result is nested iff no bucket got a jump arc. |
| Resolving.SolveReduceSolve | include/bgspprc/bucket_graph.h:379-508 | Solve, reduce, solve again, from any bucket graph: the second solve finds an optimum within the gap whenever the reduced graph keeps what it needs, which holds if the graph was nested and kept it. Keeping it is not necessary, since jump arcs stand in for lost arcs: with complete jump arcs, main resources that may be spent without need, and nothing open behind a fixed bucket the optimum is found iff the reduced graph, by arcs and jump arcs, allows a way to the sink as cheap as each walk within the gap. |
| Resolving.SolveReduceEnumerate | include/bgspprc/bucket_graph.h:379-508 | Solve, reduce, enumerate below a limit within the gap: if the reduced graph is nested, a complete enumeration lists every walk once; without jump arcs and with few feasible partial paths it is complete. |
| JumpArcSearch.NoJumpsIffNested | include/bgspprc/bucket_graph.h:900-1056 | With nothing fixed, no bucket gets a jump arc iff no bucket lacks an arc that a bucket behind it has. |
| SecondRound.SecondRoundLoses | include/bgspprc/bucket_graph.h:2396-2441 | An instance on which a second round of elimination, with exact bounds of what the first left, erases every arc at the source and leaves it no jump arc, although a walk of cost 0 starts there. |
| SecondRound.LoseOnSecondRound | include/bgspprc/bucket_graph.h:379-404 | It happens: build, solve, eliminate, solve, eliminate returns a path of cost 0 and then has cut off its source, with no cap to blame; the third solve returns nothing. |
| SecondRound.MissInEnumeration | include/bgspprc/bucket_graph.h:3055-3124 | After a single elimination an enumeration calls itself complete and lacks a walk below theta, since its completion bounds ignore jump arcs. |
| JumpArcSearch.FrontCovers | include/bgspprc/bucket_graph.h:900-1056 | Every later bucket that still has the arc is covered by one on the Pareto front. |
| JumpArcSearch.BuildIndex | include/bgspprc/bucket_graph.h:917-939 | The inverted index lists, in order, exactly the buckets that have an arc. |
| JumpArcSearch.SweepFront | include/bgspprc/bucket_graph.h:1008-1052 | The sort-and-sweep keeps a candidate iff its column is nearer than that of all before it. |
| JumpArcSearch.ObtainJumpArcs | include/bgspprc/bucket_graph.h:900-1056 | The jump arcs of each open bucket are, for each arc it lacks, precisely the componentwise nearest same-vertex buckets behind it that have the arc. |
| LabelElimination.ThetaCompatible | include/bgspprc/bucket_graph.h:2506-2544 | True iff the pair is joinable across the arc below theta; the cost test in front changes nothing. |
| LabelElimination.FindPair | include/bgspprc/bucket_graph.h:2649-2673 | The scan that stops at the first cost too high finds a partner iff there is one. |
| LabelElimination.UpdateBucketsSet | include/bgspprc/bucket_graph.h:2629-2701 | Each bucket is looked at once; what is added is genuine, and every visited bucket has been searched and its neighbours visited unless its bound excludes all behind it. |
| LabelElimination.NothingMissed | include/bgspprc/bucket_graph.h:2629-2701 | With the bounds of the opposite direction, the visited-marked recursion misses no partner behind a visited bucket. |
| LabelElimination.ShouldEliminate | include/bgspprc/bucket_graph.h:2704-2729 | True iff no bucket of the set lies at or behind the arrival bucket. |
| LabelElimination.ProcessBucket | include/bgspprc/bucket_graph.h:2734-2796 | After the jump-arc and bucket-arc updates the sets have grown by exactly what this bucket adds, and exactly the arcs they back stay. |
| LabelElimination.BarStep | include/bgspprc/bucket_graph.h:2857-2887 | The set of an open bucket is what it adds and the sets of its two predecessors; a fixed bucket hands on nothing. |
| LabelElimination.HandsOnFrom | include/bgspprc/bucket_graph.h:2850-2887 | Sets are handed on only from earlier open buckets, and with nothing fixed from all earlier ones. |
| LabelElimination.NeededIffJustified | include/bgspprc/bucket_graph.h:2734-2910 | Propagation with jump arcs computes the definition: if an earlier bucket lost the arc, its nearest jump stands in. |
| LabelElimination.BucketArcElimination | include/bgspprc/bucket_graph.h:2801-2910 | With jump arcs on: a bucket arc of an open bucket survives iff some undominated label in a same-vertex bucket no later, from which open buckets lead to it, and some undominated opposite label in a bucket no earlier than its arrival are theta-compatible through it; fixed buckets keep all theirs. |
| LabelElimination.ReadyAfterRuns | include/bgspprc/bucket_graph.h:407-419 | The stores of the two runs with their exact bounds, and exact jump arcs, are all a pass relies on. |
| LabelElimination.EliminateArcsLabelBased | include/bgspprc/bucket_graph.h:410-431 | Jump arcs, a pass in each direction, jump arcs again: in both directions exactly the arcs the definition justifies, and those of fixed buckets, are left, in a bucket graph that is still well formed and whose jump arcs are complete. |
| LabelWalks.JustifiedIffWalk | include/bgspprc/bucket_graph.h:2801-2910 | What this means for walks, in both directions: a bucket arc is kept iff some feasible walk below theta takes the arc at a position up to which the midpoint is not crossed and behind which everything is in reach of the backward search, from a bucket no later to a bucket no earlier. |
| LabelWalks.PairWalk | include/bgspprc/bucket_graph.h:2506-2544 | Two labels that are theta-compatible through an arc are the halves of such a walk. |
| Instances.FirstArcLost | include/bgspprc/bucket_graph.h:410-431 | So elimination can take what the next solve needs: an instance whose only walk is visible and below theta and whose first arc no bucket keeps. |
| Instances.LoseByElimination | include/bgspprc/bucket_graph.h:410-431 | It happens: build, label both ways, prune and eliminate leave no bucket arc over that first arc, and the next bidirectional solve, jump arcs and all, returns nothing. |
| BidirectionalFixing.KeptIff | include/bgspprc/bucket_graph.h:455-464 | Exactly which buckets fixing keeps after a bidirectional solve, finished or not: those through which a forward label and a bucket walk to the sink, a backward label left by pruning and a bucket walk to the source, or two such labels, cost at most theta together. |
| BidirectionalFixing.ForwardKept | include/bgspprc/bucket_graph.h:455-464 | So no bucket that a walk within theta passes before the midpoint is fixed. |
| BidirectionalFixing.HeadKept | include/bgspprc/bucket_graph.h:455-464 | Nor the two buckets, of its forward and of its backward label, at the head of the arc on which its halves meet. |
| BidirectionalFixing.SurvivesIff | include/bgspprc/bucket_graph.h:2550-2568 | Pruning leaves a backward label at an inner vertex iff some forward label one arc before it joins it below the theta of the solve. |
| BidirectionalFixing.BehindIff | include/bgspprc/bucket_graph.h:455-464 | Behind that, at a vertex without forward labels, a bucket is kept iff a backward label of the run in it or on its sink side is so rescued and can go on to the source within theta. |
| BidirectionalFixing.FarIsFixed | include/bgspprc/bucket_graph.h:455-464 | A vertex that forward labels have not reached, nor any tail of an arc into it, loses all its buckets, for every theta and all completion bounds. |
| Instances.FarVertexFixed | include/bgspprc/bucket_graph.h:455-464 | An instance with a visible walk below theta on which fixing after the solve takes a bucket the backward search of the next one needs, for every theta and all completion bounds. |
| Instances.LoseByFixing | include/bgspprc/bucket_graph.h:455-464 | It happens: build, label both ways, prune, compute the bounds and fix leave a bucket graph that lacks what the walk needs, and the next bidirectional solve returns nothing. |
| EnumerationSpec.TraceUnique | include/bgspprc/bucket_graph.h:1633-1656 | No two stored labels stand for the same arc sequence if it begins a walk within theta whose arcs are kept, or if there are no jump arcs; and such a label has spent nothing without need. |
| EnumerationSpec.EachWalkOnce | include/bgspprc/bucket_graph.h:2097-2116 | In a run not cut short, jump arcs or not, each feasible walk below theta is the chain of exactly one stored label. |
| EnumerationSpec.StoredPasses | include/bgspprc/bucket_graph.h:2155-2162 | A stored walk below theta has had no label pruned by its completion bound on its way. |
| Enumeration.EnumerationRun.AtCap | include/bgspprc/bucket_graph.h:2097-2116 | The caps are the three tests of the loop, and reaching one clears the completeness flag; the flag is cleared only when as many labels are stored as one of them allows. |
| Enumeration.EnumerationRun.Run | include/bgspprc/bucket_graph.h:2084-2286 | The loop over bucket arcs and jump arcs terminates, and if the flag is still set every label was extended along all of them or pruned by its completion bound. |
| Enumeration.NestedPrunesNothing | include/bgspprc/bucket_graph.h:2396-2500 | The completion bounds of the bucket graph as built, or of a reduced one that is nested, prune no label on the way of a walk below theta. |
| Enumeration.EnumerateMono | include/bgspprc/bucket_graph.h:3055-3146 | Enumeration is exact iff its bounds are: with the flag still set and nothing missing that walks within theta need, the result holds each feasible walk below theta exactly once, rebuilt with its cost, iff the bounds prune no label on the way of such a walk. The flag is still set unless as many labels, or sink labels, are stored as a cap allows, and it is cleared when the caps on the whole run are reached. The paths are the cheapest sink labels below theta, one for each, as many as maxPaths asks for. |
| Enumeration.EnumerateBelow | include/bgspprc/bucket_graph.h:3055-3146 | With the completion bounds it computes itself, on a nested bucket graph, a complete enumeration lists each feasible walk below theta exactly once; without jump arcs, with maxPaths 0 and fewer feasible partial paths than the caps, it is complete. |
| EnumerationCounts.FewListed | include/bgspprc/bucket_graph.h:2097-2116 | An enumeration without jump arcs stores fewer labels than any bound on the number of feasible partial paths, so a cap above that is not reached. |
| ParallelSorting.MergeRound | include/bgspprc/executor.h:82-97 | One round merges neighbouring runs in disjoint ranges: all runs of double width are sorted, the uneven last one too. |
| ParallelSorting.ChunkCount | include/bgspprc/executor.h:66-70 | The chunk formula gives 2 to 8 chunks. |
| ParallelSorting.ParallelSort | include/bgspprc/executor.h:57-100 | The result is a sorted permutation, for every length and every chunk count. |

## Left out

- EPS tolerances: comparisons are exact, because dominance up to a tolerance is not transitive.
- Rounding of doubles: arithmetic is exact.
- Symmetric mode: mirrored buckets and reversed subpaths rely on windows and reverse arcs the code does not check.
- Parallel bidirectional mode, atomics, prefetching, timers and counters: `parallel_for` is a sequential loop.
- Heuristic1 and Heuristic2 stages: they lose labels on purpose.
- Warm labels: injected labels have no parent chain, so paths cannot be rebuilt from them.
- Dominance under rank-1 cuts and cumulative cost: their costs and split laws are proved and the engine is not instantiated with them. The domination cost of rank-1 cuts keeps its claims over an arc and its head exactly under the condition of `R1Cs.DominationSoundIff`, which a cut of multiplier other than 0 breaks as soon as its memory holds an arc into its base set, and the bound cumulative cost declares is not a lower bound (`CumulativeCosts.CumulativeNotDisposable`).
- SIMD in the batch insertion and the adjacent-bucket check: modelled as the plain loops; lanes are modelled in the bucket check.
- Midpoint selection and adjustment between solves: the midpoint is a parameter.
- Walks after elimination by bounds in a bidirectional solve: `c_best` then covers only the labels of one half. `Elimination.ErasedIff` and `RoundSafeIff` say for each direction what is erased and when that is safe, but that it is safe (`EliminationSafe`) is proved after mono solves.
- Bidirectional enumeration: not modelled.
- Adaptive bucket steps: bucket widths are a parameter and must be positive.
- BucketLabelPool layout and BucketFixBitmap words: the pool is a sequence, the fixed buckets a set.
- Overflow of integer counters: integers are unbounded.
- Label addresses: labels are positions in the pool, so aliasing of label pointers is not modelled.
- Threads.CoverThread: excludes ways that land behind a fixed bucket, because there a dominating label may land in the fixed bucket and be dropped; and jump arcs together with a main resource that must match exactly, because a jump spends some of it.
- The command line, parsers, benchmarks and the solver's stage control.
