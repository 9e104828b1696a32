# AutoFFI and its test library, verified in Dafny

Proofs about the hardest parts of AutoFFI and of the Chipmunk physics library that its tests analyse.

- **Type pipeline** (`TypeConverter`, `TypeReplace`, `TypeSorter`, `TypeCatalog`): the compiler's types, a shared and
  possibly cyclic graph, are converted through a memo table, references to one type are replaced by another in place,
  the types are sorted so that dependencies come first where that is possible, numbered, and written as messages.
- **Message format** (`Wire`, `Messages`, `Schema`, `MessageSizes`, `MessageCode`, `ArrayCode`): the generated code for the
  catalog messages, on the Protocol Buffers wire format: fields, sizes, two serializers, parser and merge.
- **Bounding-box tree** (`PairLists`, `BoxTrees`, `TreeSplit`, `NodeLinks`, `PairState`, `TreeBuild`, `BroadPhase`,
  `MarkPass`, `BBTree`): a mutable tree whose leaves carry doubly linked pair lists, the cache of overlapping boxes.
- **Convex hull** (`QuickHull`, `HullTolerance`): in-place QuickHull whose output overlaps its input, and what its
  tolerance means.
- **Contours** (`March`, `Crossings`, `Branching`, `Polyline`, `Closeness`, `Simplify`): marching squares, the joining of
  segments to polylines, and Douglas-Peucker simplification.
- **Worker barrier and solver** (`WorkerBarrier`, `SpuriousWakeups`, `Solver`, `Restitution`): threads that run one
  function per round, as interleaved steps, and the contact solver they run, in its scalar and its vectorised form.
- **Hash set** (`HashSet`): chained bins with a pool, growing through a table of primes.

C memory is explicit: a pointer is an address in a map that the owning class updates. `real` stands for `cpFloat`.

## Model

| member | source | states |
|---|---|---|
| BBTreeIndex.BBTree.ReindexQuery | test/assets/chipmunk/src/cpBBTree.c:638-654 | after any updates of the boxes the callback is told of every unordered pair of objects whose stored boxes meet exactly once, and of no other, although unmoved leaves are answered from the pair cache; the stored boxes become the updated ones, and the cache is exact again; pairs of objects that stay within their boxes survive, a call about one passes the id stored with it and the id returned is stored, and every other call passes 0 |
| BBTreeIndex.BBTree.MarkLeaf | test/assets/chipmunk/src/cpBBTree.c:443-469 | one visit of a marking pass: a moved leaf is paired with and reported to the overlapping leaves that are due, with id 0; an unmoved one reports the cached pairs in which it is second, passing each pair's id and storing the one returned; what was due before stays done |
| BBTreeIndex.BBTree.CacheMeaning | test/assets/chipmunk/src/cpBBTree.c:425-469 | between operations two objects share a live pair, and only one, exactly when their stored boxes meet, and each live pair holds its two leaves |
| BBTreeIndex.NothingMissed | test/assets/chipmunk/src/cpBBTree.c:82-98 | because stored boxes contain the objects' own boxes, no two objects whose own boxes meet go unreported in a pass, and none are reported twice |
| BBTreeIndex.GetBBSmallest | test/assets/chipmunk/src/cpBBTree.c:82-98 | without velocities the stored box is the object's own; with them it is the smallest box around two others: the object's box with a tenth of its width and height on each side, and that box moved by a tenth of its velocity |
| BBTreeIndex.StoredAfter | test/assets/chipmunk/src/cpBBTree.c:498-518 | an update keeps a stored box exactly as long as it has all points of the object's own |
| BoxTrees.MeetingIsSharing | test/assets/chipmunk/src/cpBBTree.c:352-363 | boxes meet exactly when they have a point in common, edges included |
| BBTreeIndex.BBTree.Insert | test/assets/chipmunk/src/cpBBTree.c:605-616 | adds the object with its enlarged box; tree, links, pair lists and cache stay exact |
| BBTreeIndex.BBTree.Remove | test/assets/chipmunk/src/cpBBTree.c:618-626 | takes exactly that object away; tree, links, pair lists and cache stay exact |
| BBTreeIndex.BBTree.ReindexObject | test/assets/chipmunk/src/cpBBTree.c:662-670 | replaces the stored box only when it no longer contains the object's box, and makes the cache exact for it |
| BBTreeIndex.BBTree.PairsClear | test/assets/chipmunk/src/cpBBTree.c:185-204 | removes exactly the pairs that touch the leaf, in every list they are threaded through; live and pooled pairs stay all there are |
| BBTreeIndex.BBTree.PairInsert | test/assets/chipmunk/src/cpBBTree.c:206-223 | adds one live pair to the lists of its two leaves and changes no other; all lists stay doubly linked and acyclic |
| BBTreeIndex.BBTree.ThreadUnlink | test/assets/chipmunk/src/cpBBTree.c:168-183 | the pointer writes of unlinking one thread, which DrainOnce turns into the removal from one list |
| PairLists.DrainOnce | test/assets/chipmunk/src/cpBBTree.c:185-204 | one round of clearing leaves every other leaf's list well-formed and without the pair |
| BBTreeIndex.BBTree.SubtreeInsert | test/assets/chipmunk/src/cpBBTree.c:325-350 | keeps a full binary tree with correct parents and merged boxes, whose leaves are the old ones and the new one |
| BBTreeIndex.BBTree.SubtreeRemove | test/assets/chipmunk/src/cpBBTree.c:397-414 | keeps a full binary tree with correct parents and refitted boxes, whose leaves are the old ones but one; the parent node goes to the pool |
| BBTreeIndex.BBTree.Query | test/assets/chipmunk/src/cpBBTree.c:352-363 | calls back once for every object a linear scan for meeting stored boxes would find, and for no other |
| BBTreeIndex.BBTree.SubtreeSegmentQuery | test/assets/chipmunk/src/cpBBTree.c:366-385 | returns the least of the exit time and all results below, as exhaustive search would: ordering and pruning lose nothing, provided no object's result comes before the segment enters the box around it or, where it misses the box, before the exit time |
| BBTreeIndex.BBTree.SegmentQuery | test/assets/chipmunk/src/cpBBTree.c:674-679 | whoever keeps the least result called back with has the nearest object of the whole index |
| BBTreeIndex.BBTree.PartitionNodes | test/assets/chipmunk/src/cpBBTree.c:743-806 | terminates and builds, from any order of the leaves, a full binary tree of exactly those leaves with correct parents and boxes |
| TreeSplit.SomeStays | test/assets/chipmunk/src/cpBBTree.c:743-806 | at least one leaf is not cheaper on the high side, so the split never leaves the low side empty |
| BBTreeIndex.BBTree.Optimize | test/assets/chipmunk/src/cpBBTree.c:827-848 | rebuilds the tree over the same leaves; stored boxes, pairs and cache stay as they were |
| QuickHull.ConvexHull | test/assets/chipmunk/src/chipmunk.c:237-262 | returns between 1 and count vertices, taken from the input without repetition beyond its own, the first one the lexicographic minimum and the input point at first; with tolerance 0 the polygon encloses the input: no point lies right of any edge, and it contains the lexicographic maximum; with any tolerance every vertex but the first and the last point in lexicographic order is more than tol right of the line through two other vertices, one before and one behind it, only those two are left when nothing is, and when no point lies behind either of them no point is left more than tol right of any edge |
| HullCorners.CornersAreVertices | test/assets/chipmunk/src/chipmunk.c:237-262 | such a polygon contains every point that alone is extreme in some direction, so none smaller would do |
| HullTolerance.HullWithin | test/assets/chipmunk/src/chipmunk.c:184-233 | the step from one edge to the whole hull: points that are not far right of an edge are not far right of its halves, so no input point is lost by more than the tolerance when none lies behind the two extreme points |
| HullTolerance.Overshoot | test/assets/chipmunk/src/chipmunk.c:184-233 | without that condition the tolerance is no bound: with tolerance 5 the hull of (0, 0), (15, 20), (15, 0) and (1, -7) is the first three, and the last is more than 6 right of an edge |
| HullTolerance.BreaksSafeExactly | test/assets/chipmunk/src/chipmunk.c:184-233 | for one break of an edge the condition is exact: whatever points a line supports at the start of the edge, a break keeps near points near if and only if that line does not lean back over the edge |
| QuickHull.QHullReduce | test/assets/chipmunk/src/chipmunk.c:216-233 | the in-place recursion computes the functional reduction although its result overwrites points in front of those still to be read |
| RoundTrip.ParseMerges | src/autoffi.pb.cc:3355-3506 | parsing the encodings of two catalogs one after the other gives their merge and uses up the input; parsing one gives it back |
| RoundTrip.TypeParseMerges | src/autoffi.pb.cc:1328-1931 | the same for type messages, with their packed, nested and repeated fields |
| Schema.TypeSchema | autoffi.proto:60-96 | a type message holds exactly the fields of the schema, with their numbers and wire types and in ascending order; zero, false and empty ones are left out |
| Schema.CatalogSchema | autoffi.proto:122-125 | the same for a catalog: types are field 1, exports field 2 |
| Schema.VarintGroups | src/autoffi.pb.cc:1583-1748 | a varint is the number in groups of seven bits, the lowest first, with the high bit set in all bytes but the last |
| Schema.UnpackedParses | src/autoffi.pb.cc:1472-1489 | parameter types written one by one, not packed, are read as the packed ones are, at any place in a message |
| MessageSizes.CatalogSizeIs | src/autoffi.pb.cc:3452-3483 | the size computed beforehand is the length of the encoding, nested length prefixes included |
| MessageSizes.TypeSizeIs | src/autoffi.pb.cc:1750-1871 | the same for type messages |
| MessageCode.ByteSizeCatalog | src/autoffi.pb.cc:3452-3483 | the loops over nested messages add up to the specified size |
| MessageCode.MergePartialFromCodedStream | src/autoffi.pb.cc:3355-3410 | the parser loop computes what the recursive parser specifies, on every input, malformed ones included |
| MessageCode.SerializeCatalog | src/autoffi.pb.cc:3412-3428 | the stream serializer appends exactly the encoding |
| ArrayCode.SerializeBoth | src/autoffi.pb.cc:3412-3450 | the stream serializer and the array serializer emit the same bytes, filling an array of the computed size |
| TypeConversion.TypeConverter.ConvertType | src/clang.cpp:155-311 | terminates on every finite type graph whose sugar does not go round in circles; fails exactly when a type without counterpart can be reached; keeps every earlier object; the result looks like the source without its typedefs, parentheses and elaborations, to any depth; afterwards the object of every reference in the table is as described, kind by kind, in its own fields: a qualified one is const exactly when the reference or its canonical type is, and volatile likewise, a record is a union exactly when it is one, with its fields in order, and so on |
| Conversion.SameView | src/clang.cpp:205-223 | a consistent memo table gives every reference an object with the same kind, contents and conversions below it, cycles included |
| Conversion.EveryObject | src/clang.cpp:225-311 | in a consistent memo table every object is as described: flags, sizes, names and order of its own, and the objects of its parts where they belong |
| SourceTypes.UnconvertibleIs | src/clang.cpp:155-311 | which references have no counterpart, kind by kind: exactly the unsupported kinds and whatever is made of them |
| TypeConversion.TypeConverter.VisitQualType | src/clang.cpp:205-223 | on success the reference has an object, the same one as its sugar-free form, and it never changes again |
| Conversion.Registered | src/clang.cpp:185-193 | entering an object before its slots are converted keeps all other entries complete and distinct |
| Conversion.ObjectsClosed | src/clang.cpp:660-675 | converted types refer to each other only, so the catalog lacks nothing |
| TypeReplace.TypeStore.Replace | src/AST.cpp:63-125 | terminates on every graph; exactly the types reached over fields, elements, pointees and parameters without passing the replaced type are changed, in exactly the slots that hold it |
| TypeReplace.StillRefers | src/AST.cpp:63-125 | a type still refers to the replaced one exactly when it did before and was not visited |
| TypeReplace.BehindReturnType | src/AST.cpp:74-90 | and that happens: return types are replaced but not followed, so what a function returns may keep the old type |
| TypeReplace.ReplacedSlots | src/AST.cpp:74-118 | in a visited type a slot changes exactly when it holds the replaced type, return type included |
| TypeReplace.FollowedAre | src/AST.cpp:74-118 | followed are exactly the parameters of functions, the elements of arrays, the pointees and the fields of records |
| DepthFirst.Search | src/TypeSorter.cpp:16-22 | finds a back edge exactly when there is a cycle; otherwise lists every vertex once, after all its edges lead to, and unreferenced vertices in index order |
| TypeSorting.TypeSorter.AddDependency | src/TypeSorter.cpp:24-32 | the kept edges stay acyclic, and every edge taken back would close a cycle with them |
| TypeSorting.TypeSorter.constructor | include/AutoFFI/TypeSorter.h:46-58 | the kept edges are a maximal acyclic part of the wanted ones, and one not kept closes a cycle with kept ones wanted before it; the result is a permutation of the range in which every kept dependency comes first, repeated types included |
| KeptEdges.CycleCloses | src/TypeSorter.cpp:24-32 | a cycle that a new edge closes leads back from its target to its source without that edge |
| KeptEdges.KeptExactly | src/TypeSorter.cpp:24-32 | edges are taken in turn: one is kept exactly when it closes no cycle with kept edges wanted before it |
| TypeOrder.WantedExactly | src/TypeSorter.cpp:34-60 | wanted are the edges from each type of the range to the types it is made of: return type and parameters, fields, and what is behind qualifiers, pointers and arrays |
| SortedTypes.OrderIffAcyclic | src/TypeSorter.cpp:62-68 | for a range closed under references every type comes after the types it refers to exactly when no type refers to itself through others |
| SortedTypes.UnknownIsFirst | include/AutoFFI/TypeSorter.h:35-35 | a reference to a type outside the range counts as one to the first type |
| TypeCatalogs.Catalog.AddTypes | src/Catalog.cpp:14-20 | sequence and set stay in step; repeated types are dropped, the first occurrences keep their order |
| TypeCatalogs.CountMap.constructor | include/AutoFFI/CountMap.hpp:31-37 | every value gets the place of its first occurrence, counted from 1 in 32 bits |
| TypeCatalogs.Convert | src/ProtoFormat.cpp:117-130 | fails exactly when a type or an export refers to a type outside the catalog; otherwise message i has number i + 1 and says, field by field, what type i is, and export i says its name and the number of its type |
| TypeCatalogs.WrittenGraph | src/ProtoFormat.cpp:19-115 | message i has number i + 1, its references less one are the places of the types referred to, and it describes its type completely exactly when the type's own numbers fit their fields |
| TypeCatalogs.BackwardsIffAcyclic | src/ProtoFormat.cpp:117-130 | the catalog of a sorted range refers to strictly smaller numbers only exactly when its types form no cycle |
| WorkerBarrier.EveryRun | test/assets/chipmunk/src/cpHastySpace.c:210-342 | in every interleaving, for any number of workers: the invariant holds, a busy main thread is never in a deadlock, no worker calls a missing function, and after HaltThreads every worker has left |
| WorkerBarrier.EveryRound | test/assets/chipmunk/src/cpHastySpace.c:238-261 | whenever RunWorkers returns, every worker has run the function exactly once for this round and waits again |
| WorkerBarrier.GivenFunction | test/assets/chipmunk/src/cpHastySpace.c:238-261 | every call of RunWorkers, in whatever interleaving, runs the function it was given: between the call and the return each worker has been in that function, and counted it once, the main thread has done its own share of it, and nobody has been in any other |
| WorkerBarrier.StepKeeps | test/assets/chipmunk/src/cpHastySpace.c:210-261 | the invariant holds after every step of every thread |
| WorkerBarrier.NoDeadlock | test/assets/chipmunk/src/cpHastySpace.c:210-236 | in every state where the main thread is busy some thread can take a step |
| WorkerBarrier.RunEnds | test/assets/chipmunk/src/cpHastySpace.c:238-261 | start-up, a round and a halt end within a bounded number of steps in every interleaving |
| SpuriousWakeups.WorkerWakeup | test/assets/chipmunk/src/cpHastySpace.c:210-261 | a waiting worker that wakes up by itself, in any state the barrier can be in, does harm exactly when the main thread is neither broadcasting with the mutex in hand nor halting the threads; harm is a run in which a worker leaves early, runs the function twice or a NULL one, or a function of the main thread returns too early |
| SpuriousWakeups.MainWakeup | test/assets/chipmunk/src/cpHastySpace.c:250-256 | a main thread that wakes up by itself, in start-up or in RunWorkers, does harm exactly when somebody has yet to report besides a worker that is just doing so with the mutex in hand |
| SpuriousWakeups.SpuriousWhileBroadcasting | test/assets/chipmunk/src/cpHastySpace.c:238-248 | a wake-up while the main thread is about to broadcast is absorbed |
| SpuriousWakeups.SpuriousWakeup | test/assets/chipmunk/src/cpHastySpace.c:210-261 | one such harm to its end: after a worker has left between two rounds the next round waits for it forever |
| ContactSolver.LaneAgreesExactly | test/assets/chipmunk/src/cpHastySpace.c:84-171 | one vectorised contact round equals the scalar one on every contact exactly when the surface velocity is perpendicular to the normal |
| ContactSolver.ProjectedIsPerpendicular | test/assets/chipmunk/src/cpArbiter.c:394-395 | which the projection in cpArbiterUpdate makes it for a unit normal |
| ContactSolver.SolveBounds | test/assets/chipmunk/src/cpArbiter.c:457-496 | a processed contact has no pulling impulse and its friction lies in the cone |
| ImpulseSolver.Solver | test/assets/chipmunk/src/cpHastySpace.c:263-287 | over any passes and contact lists all contacts keep these bounds, and the total momentum of finite bodies is unchanged |
| ContactMotion.SolveMoves | test/assets/chipmunk/src/cpArbiter.c:457-496 | by how much a processed contact changes the relative velocities, linear and angular parts together: each impulse times the response to it in the direction looked at |
| ContactMotion.NormalStops | test/assets/chipmunk/src/cpArbiter.c:477-486 | with the effective mass of the contact the normal impulse alone leaves the bodies at minus the bounce speed, or it is 0 and they separate at least that fast |
| ContactMotion.BiasCorrects | test/assets/chipmunk/src/cpArbiter.c:476-482 | the same for the position correction: its speed becomes the bias, or its impulse is 0 and the speed is at least that |
| ContactMotion.FrictionOpposes | test/assets/chipmunk/src/cpArbiter.c:478-491 | the friction impulse alone ends the sliding, or it is at the edge of the cone and acts against the sliding that is left |
| MarchCells.CellNet | test/assets/chipmunk/src/cpMarch.c:73-148 | in all sixteen cases, soft and hard, a cell starts and ends segments at a point as its four edges alone say |
| MarchingSquares.MarchGrid | test/assets/chipmunk/src/cpMarch.c:18-56 | with its buffer of one row every cell sees the samples at its own corners, and every grid point is sampled once; every segment crosses a cell as GridMeaning says, and no crossed edge of any cell is left out |
| Crossings.SoftSegments | test/assets/chipmunk/src/cpMarch.c:66-99 | both ends of a soft segment lie on edges of the cell where the samples, interpolated along the edge, equal the threshold; what is above it lies on the left; of two opposite corners above it each is cut off by itself |
| Crossings.HardSegments | test/assets/chipmunk/src/cpMarch.c:119-148 | hard segments run along one axis between the middles of crossed edges and of the cell, with what is above the threshold on the left |
| Crossings.SoftMet | test/assets/chipmunk/src/cpMarch.c:73-99 | every crossed edge whose ends are not on the threshold is met by a segment where it is crossed |
| Crossings.HardMet | test/assets/chipmunk/src/cpMarch.c:110-148 | every crossed edge is met by a segment in its middle |
| MarchingSquares.GridMeaning | test/assets/chipmunk/src/cpMarch.c:18-56 | all of this holds of every segment of the grid, for the cell between four neighbouring grid points and the samples there |
| MarchingSquares.NoLooseEnds | test/assets/chipmunk/src/cpMarch.c:18-148 | at every point off the border as many segments start as end |
| Polylines.PolylineSet.CollectSegment | test/assets/chipmunk/src/cpPolyline.c:349-374 | adds exactly one segment to those of the whole set, whether it closes, joins, extends or begins a line; where nothing branches no two lines are left that could be joined |
| Polylines.PolylineSet.Join | test/assets/chipmunk/src/cpPolyline.c:330-346 | appending and deleting by moving the last line loses nothing, even when the first of the two is the last line |
| Polylines.OpenStart | test/assets/chipmunk/src/cpPolyline.c:349-374 | where nothing branches, an open line begins at a point where no segment ends |
| Contours.Collect | test/assets/chipmunk/src/cpPolyline.c:349-374 | the contours of a grid begin and end equally often at every point off the border; where they do not branch, for which the conditions of SimpleContours are enough, every line is closed or runs from border to border |
| Branching.SimpleContours | test/assets/chipmunk/src/cpMarch.c:18-148 | contours do not branch when the window is not empty and, soft, no sample is on the threshold, or, hard, no cell has two opposite corners above it and the other two not |
| Branching.HardExactly | test/assets/chipmunk/src/cpMarch.c:110-148 | for hard contours that is exact: they branch exactly when there is such a cell |
| Simplification.DouglasPeucker | test/assets/chipmunk/src/cpPolyline.c:166-204 | terminates on the steps from start to end around the loop and appends the vertices the recursive split of that run keeps |
| Runs.KeptApproximates | test/assets/chipmunk/src/cpPolyline.c:166-204 | kept vertices stay in order; every dropped one is within the tolerance of the line through its neighbours in the result, or in a run short enough to be dropped |
| Runs.KeptNeeded | test/assets/chipmunk/src/cpPolyline.c:166-204 | nothing is kept without need: every inner vertex kept is more than tol off the line through two kept vertices on either side of it and the first one farthest off between them, in a run too long to be dropped; only the ends are left when the run is short or all its vertices are within tol of the line through them |
| Measures.RuleMeans | test/assets/chipmunk/src/cpPolyline.c:112-122 | what short and within tol mean in coordinates: ends less than min apart and no part longer than min; a parallelogram with the base no larger than tol times its length |
| Simplification.NeighboursApart | test/assets/chipmunk/src/cpPolyline.c:166-204 | neighbours in the result of a run with different ends differ, so there is a line through them |
| Measures.WithinTol | test/assets/chipmunk/src/cpPolyline.c:183-190 | what the measured distance means: a bound on the area spanned with the base |
| Closeness.PassesOver | test/assets/chipmunk/src/cpPolyline.c:166-204 | a polyline passes over every place between its ends, in any direction |
| Closeness.ReducedNear | test/assets/chipmunk/src/cpPolyline.c:166-204 | every point of every segment of the result is within tol of a point of the run it replaces, up to the factor that the smallest positive number adds to the normalization |
| Simplification.CurveNear | test/assets/chipmunk/src/cpPolyline.c:206-232 | so the reduced polyline, open or looped, is never farther than tol from the original |
| Closeness.DroppedNear | test/assets/chipmunk/src/cpPolyline.c:166-204 | the other way round: a dropped vertex is within tol of the segment that replaces its run exactly when its projection falls on the segment or it is within tol of an end |
| Simplification.Spike | test/assets/chipmunk/src/cpPolyline.c:166-204 | and that may fail by any amount: a vertex k before the start of a segment on its line is dropped whatever the tolerance, and is k away from what is left |
| Measures.ShortIs | test/assets/chipmunk/src/cpPolyline.c:112-122 | the early exit of the length check is taken exactly when some part of the run is too long |
| Simplification.SimplifyCurves | test/assets/chipmunk/src/cpPolyline.c:206-232 | loops stay loops and keep their least and greatest vertex; open polylines, and both halves of loops, are replaced by such approximations of themselves, from which nothing more could go; the result is never farther than tol from the original |
| Simplification.RoundTheLoop | test/assets/chipmunk/src/cpPolyline.c:216-224 | the loop that is simplified has the vertices of the given one, in order and each once, from the least one on and back to it |
| HashSets.HashSet.Insert | test/assets/chipmunk/src/cpHashSet.c:152-175 | behaves as on a finite map, across resizes; fails exactly when the element is new, the table is full and the table of primes has nothing larger |
| HashSets.HashSet.Remove | test/assets/chipmunk/src/cpHashSet.c:178-204 | takes away the matching element and nothing else, and returns it |
| HashSets.HashSet.Find | test/assets/chipmunk/src/cpHashSet.c:207-215 | the matching element, or the default |
| HashSets.HashSet.Filter | test/assets/chipmunk/src/cpHashSet.c:231-253 | keeps exactly the elements accepted, unlinking while it walks the chains |
| HashSets.HashSet.Each | test/assets/chipmunk/src/cpHashSet.c:218-228 | calls back once for every element |
| HashSets.HashSet.Rehash | test/assets/chipmunk/src/cpHashSet.c:87-114 | moves every bin to the chain for its hash in the larger table and changes no element |
| HashSets.HashSet.Conserved | test/assets/chipmunk/src/cpHashSet.c:116-144 | every bin ever allocated is in exactly one chain or in the pool, and the entries are the bins in chains |
| HashSets.NextPrime | test/assets/chipmunk/src/prime.h:58-68 | the first entry of the table that is large enough; the assertion fails exactly when there is none |

## Left out

- TypeSorting.TypeSorter.constructor: a depth-first search written here stands for the graph library's, recursive where that one keeps a stack.
- RoundTrip.ParseMerges: unknown fields, the UTF-8 check and the limit on nesting are parameters or left out; names must be valid UTF-8 and sizes below 2^31.
- WorkerBarrier.EveryRun: assumes that nobody wakes up without a signal; SpuriousWakeups says exactly which of those wake-ups, one at a time, break the barrier.
- Simplification.SimplifyCurves: the clause on the distance is for lengths that are square roots, as cpvlength is in exact arithmetic.
- Runs.KeptApproximates: for tolerances that are not negative, as the recursion does not end otherwise.
- HullTolerance.HullWithin: that no point lies behind the extreme ones is enough and not necessary for a whole hull; BreaksSafeExactly is exact for one break.
- ContactMotion.FrictionOpposes: for contacts whose tMass is the inverse of the response along the tangent, as cpArbiterPreStep makes it; likewise nMass in NormalStops and BiasCorrects.
- Floating-point rounding, overflow and NaN: `real` is exact; lengths and the smallest positive number are parameters.
- Static index and two trees at once: one dynamic tree stands alone; pairs between two trees, their shared stamp and the spatial hash are not modelled.
- Stamps and collision ids are unbounded numbers: no wrap-around after 2^32 passes.
- The tree's table of leaves is a map, which the hash set is shown to refine; iteration over it takes any order.
- Allocation in buffers of bytes, freeing, and failing allocations; pools hand out nodes, pairs and bins in the order of the code.
- Callbacks are functions of their arguments: they do not change the structure they are called from, nor remember earlier calls.
- The warm-start, elastic and bias terms that cpArbiterPreStep computes are inputs of the solver; joints, which Solver also iterates over, are not modelled.
- The unequal share of iterations per worker and the data races between workers on shared bodies.
- Qualifiers beyond const, volatile and restrict: two references that differ in an address space only have the same key in the memo table.
- The order in which the memo table keeps its entries, and the dangling flags set when a redeclared record is replaced.
- Variadic arrays: they have no usable constructor, and the visitors skip them.
- ExportCollector, the compiler driver, AST matchers, path filters, and the reading and printing of types as text.
- Arenas, reflection, JSON and the cached sizes of messages: sizes are computed when they are needed.
- Joints, springs, shape queries, drawing, GJK/EPA and concave decomposition.
