# FAST-LIO localization: a verified model

This project models, in Dafny, the map index and the hand-written protocol and algebra code around it:

- the incremental k-d tree (`ikd_Tree.cpp`, `ikd_Tree.h`): lazy deletion with push-down flags, cached sizes and
  bounding boxes, scapegoat rebuilding, box, radius and k-nearest-neighbour search with the array heap, voxel
  downsampling, the record of removed points, and the background rebuild with its operation log;
- the moving local-map cube and the lidar/IMU packet synchroniser of `laserMapping.cpp`;
- the rigid-transform algebra of `transform_fusion.py` and `cloud_to_base_link.py`;
- the serial framing and height format of `desk_controller.py`.

`dafny verify dfyconfig.toml` checks everything.

## How it is laid out

The index has two layers. The specification is a datatype `Tree` with one field per field of `KD_TREE_NODE` and one
function per operation (`Tree.dfy`); all laws are lemmas about these functions. The code's own form is in `IkdNode.dfy`
and `IkdTree.dfy`: heap nodes whose fields are overwritten in place, with every method proved to compute the function,
and public methods that state what the caller gets.

| files | what they hold |
|---|---|
| `Geometry`, `Select` | points, boxes, squared distances, multisets; `nth_element` |
| `Tree`, `Invariant`, `Rebuilding`, `Edits`, `Shape` | the tree functions, the representation invariant, building and rebuilding, single edits, balance, order and height |
| `Searches`, `Heap`, `Neighbours`, `Voxels` | box and radius search, the heap, nearest neighbours, downsampling inserts |
| `Runs`, `Confusion`, `RebuildThread`, `OpQueue` | whole runs and the ledger of points, when the nearest-neighbour promise fails on them, the rebuild thread as a state machine, the log's ring buffer |
| `ManualHeap`, `IkdNode`, `IkdTree` | the classes |
| `LocalMap`, `FovSegment` | the cube, on values and as the function over its globals |
| `Packets`, `PacketRuns`, `PacketSync` | the synchroniser on values, over whole runs, and over its globals |
| `Matrices`, `Transforms`, `FrameNodes` | matrix and quaternion laws, the scripts' functions, the two nodes |
| `SerialFrames` | framing, parsing, the height format, the receiving loop |

What a tree means is the multiset `Live`; what became of every stored point is its status, read through the lazy flags:
alive, deleted by a box (to be reported at the next rebuild) or deleted by downsampling (to be forgotten then). A flag
that `Push_Down` leaves up towards a missing son goes stale when an insertion creates that son; the invariant says that
the son is then a single live leaf unless the node is deleted, which is why the stale news does no harm.

Two claims fail as the code stands, and are settled exactly:

- **Nearest neighbours with k >= 2.** The heap compares distances up to 1e-10 and then the x coordinates, which is not
  an order. `ConfusedPairFails` gives, for any two confused points, a run after which the result is out of order
  (`ConfusionExists` at concrete points), and `NearestExactIff` proves the promise, over all maps that runs lead to,
  equivalent to no two points being confused, which is a matter of their distances and x coordinates (`ConfusedIff`).
  For k = 1 it holds always.
- **The local-map cube.** Any cube of at least 2.5 detection ranges follows the lidar; any smaller one does not
  (`FollowsIff`).

Parameters and assumptions: a square root is a function argument assumed to be the square root on non-negative reals
(`IsSqrt`); `readFloat` is assumed to read three digits, a point and a digit as that decimal (`ReadsDecimals`);
`nth_element` is a concrete selection proved to meet the standard's contract. A division `Over(a, s)` in `_mat_to_quat`
is given a value for `s == 0` only to be total; on the matrices the scripts build the divisor is never zero.

## Model

| member | source | states |
|---|---|---|
| `Select.NthElementContract` | FAST_LIO_LOCALIZATION_ROS2/include/ikd-Tree/ikd_Tree.cpp:712-727 | whatever the slice, the axis and the position, the result is a permutation of the slice with nothing greater before the position and nothing smaller after it |
| `Select.SweepInPlace` | FAST_LIO_LOCALIZATION_ROS2/include/ikd-Tree/ikd_Tree.cpp:712-727 | one partition pass, in place: positions outside the range are untouched and the range becomes the specified pass over it |
| `Select.NthElementInPlace` | FAST_LIO_LOCALIZATION_ROS2/include/ikd-Tree/ikd_Tree.cpp:712-727 | the in-place form leaves positions outside the range alone and settles the wanted position as the contract says |
| `Rebuilding.BuildCorrect` | FAST_LIO_LOCALIZATION_ROS2/include/ikd-Tree/ikd_Tree.cpp:679-733 | for every slice: the tree stores exactly a permutation of it, all alive; every cached field is right; left points <= node <= right points on the node's axis; son sizes differ by at most one at every node; every node is within the balance bounds |
| `Rebuilding.BuildSplitsLongest` | FAST_LIO_LOCALIZATION_ROS2/include/ikd-Tree/ikd_Tree.cpp:690-709 | every node of a built tree splits on the longest side of the bounding box of the points under it |
| `Rebuilding.FlattenExact` | FAST_LIO_LOCALIZATION_ROS2/include/ikd-Tree/ikd_Tree.cpp:1627-1658 | the points stored by a flatten are exactly the live ones |
| `Rebuilding.RecordedExact` | FAST_LIO_LOCALIZATION_ROS2/include/ikd-Tree/ikd_Tree.cpp:1627-1658 | the points a flatten records are exactly those deleted by a box and not since by downsampling |
| `Rebuilding.RebuildExact` | FAST_LIO_LOCALIZATION_ROS2/include/ikd-Tree/ikd_Tree.cpp:736-764 | a rebuild keeps the live points, records each box-deleted point once, and what it stores is live |
| `Invariant.PushDownInv` | FAST_LIO_LOCALIZATION_ROS2/include/ikd-Tree/ikd_Tree.cpp:1360-1455 | a push-down keeps the invariant, stale flag towards a missing son included, and leaves no flag up towards an existing son |
| `Invariant.PushDownLive` | FAST_LIO_LOCALIZATION_ROS2/include/ikd-Tree/ikd_Tree.cpp:1360-1455 | a push-down changes no live point, and after it a node's live points are its own and its sons', even below a deleted node |
| `Invariant.PushDownHeld` | FAST_LIO_LOCALIZATION_ROS2/include/ikd-Tree/ikd_Tree.cpp:1360-1455 | a push-down changes no stored point's status (alive, box-deleted, downsample-deleted), read through all the lazy flags |
| `Invariant.UpdateInv` | FAST_LIO_LOCALIZATION_ROS2/include/ikd-Tree/ikd_Tree.cpp:1458-1624 | recomputing a node's cached fields from its sons establishes the invariant and neither gains nor loses a point |
| `Invariant.UpdateHeld` | FAST_LIO_LOCALIZATION_ROS2/include/ikd-Tree/ikd_Tree.cpp:1458-1624 | and keeps every point's status |
| `Invariant.Counts` | FAST_LIO_LOCALIZATION_ROS2/include/ikd-Tree/ikd_Tree.cpp:140-163 | TreeSize is the number of stored points and TreeSize - invalid_point_num the number of live ones, through any lazy flags |
| `Invariant.DownDelCounts` | FAST_LIO_LOCALIZATION_ROS2/include/ikd-Tree/ikd_Tree.cpp:1468-1472 | down_del_num is the number of downsample-deleted points, through any lazy flags |
| `Invariant.Darken` | FAST_LIO_LOCALIZATION_ROS2/include/ikd-Tree/ikd_Tree.cpp:782-795 | putting a subtree under a deleted node turns its live points into box-deleted ones and leaves the downsample-deleted ones as they were |
| `Invariant.HeldPartition` | FAST_LIO_LOCALIZATION_ROS2/include/ikd-Tree/ikd_Tree.cpp:1627-1658 | every stored point has exactly one status |
| `Invariant.RangeIsExact` | FAST_LIO_LOCALIZATION_ROS2/include/ikd-Tree/ikd_Tree.cpp:1458-1605 | node_range of a node that is not tree_deleted is exactly the bounding box of its live points, and tree_deleted holds exactly when no live point remains under the node |
| `Edits.AddPointExact` | FAST_LIO_LOCALIZATION_ROS2/include/ikd-Tree/ikd_Tree.cpp:995-1059 | an insertion adds exactly one live point, keeps the invariant, and accounts for the rest as equations: the box-deleted points are those still stored and those recorded; the downsample-deleted ones are those still stored and those dropped where a node was rebuilt |
| `Edits.DeleteRangeExact` | FAST_LIO_LOCALIZATION_ROS2/include/ikd-Tree/ikd_Tree.cpp:767-851 | a box deletion removes exactly the live points of the half-open box, returns their number, never loses the subtree (Rebuild is never reached with nothing alive), and accounts for every deleted point by equations: box-deleted points before and now = stored + recorded + relabelled by a covering downsample deletion; downsample-deleted before, now and relabelled = stored + dropped at a rebuild |
| `Edits.Survivor` | FAST_LIO_LOCALIZATION_ROS2/include/ikd-Tree/ikd_Tree.cpp:780-847 | a range that the box does not cover always holds a live point outside the box |
| `Shape.AddPointBalanced` | FAST_LIO_LOCALIZATION_ROS2/include/ikd-Tree/ikd_Tree.cpp:1050-1057 | after an insertion every node with more than ten points has both sons within 0.4 .. 0.6 and, unless deleted, at least half its points alive |
| `Shape.AddPointOrdered` | FAST_LIO_LOCALIZATION_ROS2/include/ikd-Tree/ikd_Tree.cpp:1012-1040 | an insertion keeps left points <= node <= right points on every node's axis |
| `Shape.DeleteRangeBalanced` | FAST_LIO_LOCALIZATION_ROS2/include/ikd-Tree/ikd_Tree.cpp:842-850 | the same bounds after a box or downsample deletion |
| `Shape.DeleteRangeOrdered` | FAST_LIO_LOCALIZATION_ROS2/include/ikd-Tree/ikd_Tree.cpp:767-851 | a deletion keeps the ordering |
| `Shape.AddGoes` | FAST_LIO_LOCALIZATION_ROS2/include/ikd-Tree/ikd_Tree.cpp:1003-1040 | an insertion goes left of a node exactly when the point is strictly below it on the node's axis, leaves the other side alone, and hangs a new leaf on the next axis |
| `Shape.RebuiltIff` | FAST_LIO_LOCALIZATION_ROS2/include/ikd-Tree/ikd_Tree.cpp:1335-1357 | a node with a live point under it is rebuilt if and only if it has more than ten points and a son outside 0.4 .. 0.6 or more than half deleted |
| `Shape.AddRebuildsIff` | FAST_LIO_LOCALIZATION_ROS2/include/ikd-Tree/ikd_Tree.cpp:1050-1057 | an insertion into a balanced tree is the plain one, rebuilding, recording and forgetting nothing, if and only if the plain one leaves every node in balance |
| `Shape.DeleteRebuildsIff` | FAST_LIO_LOCALIZATION_ROS2/include/ikd-Tree/ikd_Tree.cpp:842-850 | and so for a deletion, with or without downsampling |
| `Shape.GrownPoints` | FAST_LIO_LOCALIZATION_ROS2/include/ikd-Tree/ikd_Tree.cpp:995-1059 | stored points before and the new one = stored after + recorded + forgotten at a rebuild, occurrence by occurrence |
| `Shape.ShrunkPoints` | FAST_LIO_LOCALIZATION_ROS2/include/ikd-Tree/ikd_Tree.cpp:767-851 | stored points before a deletion = stored after + recorded + forgotten at a rebuild, occurrence by occurrence |
| `Shape.HeightIsLogarithmic` | FAST_LIO_LOCALIZATION_ROS2/include/ikd-Tree/ikd_Tree.cpp:1335-1357 | a tree of height h > 10 within the bounds satisfies 5^(h-10) <= 3^(h-10) * TreeSize |
| `Searches.EasedUnharmed` | FAST_LIO_LOCALIZATION_ROS2/include/ikd-Tree/ikd_Tree.cpp:1070-1090 | whatever push-downs a query performs, the invariant, the balance, the ordering and every point's status are as before |
| `Searches.SearchRangeExact` | FAST_LIO_LOCALIZATION_ROS2/include/ikd-Tree/ikd_Tree.cpp:1247-1289 | the points found are exactly the live points in the half-open box, and the tree is changed by push-downs only |
| `Searches.Triangle` | FAST_LIO_LOCALIZATION_ROS2/include/ikd-Tree/ikd_Tree.cpp:1606-1609 | the triangle inequality on squared distances that the radius prune and the whole-subtree accept rely on |
| `Searches.SearchRadiusExact` | FAST_LIO_LOCALIZATION_ROS2/include/ikd-Tree/ikd_Tree.cpp:1292-1332 | for radius >= 0 the points found are exactly the live points within the radius |
| `Searches.SearchRadiusEased` | FAST_LIO_LOCALIZATION_ROS2/include/ikd-Tree/ikd_Tree.cpp:1292-1332 | for any radius the tree is changed by push-downs only |
| `Heap.PushExact` | FAST_LIO_LOCALIZATION_ROS2/include/ikd-Tree/ikd_Tree.h:144-152 | on values the comparison does not confuse, push keeps the max-heap order and adds exactly the new entry |
| `Heap.PopExact` | FAST_LIO_LOCALIZATION_ROS2/include/ikd-Tree/ikd_Tree.h:131-139 | pop keeps the order and removes exactly the top |
| `Heap.TopIsGreatest` | FAST_LIO_LOCALIZATION_ROS2/include/ikd-Tree/ikd_Tree.h:140-143 | no entry of a heap is farther than its top |
| `ManualHeap.CmpHeap.PushCandidate` | FAST_LIO_LOCALIZATION_ROS2/include/ikd-Tree/ikd_Tree.h:144-152 | the array form of push |
| `ManualHeap.CmpHeap.PopTop` | FAST_LIO_LOCALIZATION_ROS2/include/ikd-Tree/ikd_Tree.h:131-139 | the array form of pop |
| `ManualHeap.CmpHeap.SinkFrom` | FAST_LIO_LOCALIZATION_ROS2/include/ikd-Tree/ikd_Tree.h:166-186 | the sift-down loop over the array computes the specified sift |
| `ManualHeap.CmpHeap.RiseFrom` | FAST_LIO_LOCALIZATION_ROS2/include/ikd-Tree/ikd_Tree.h:187-203 | the sift-up loop, likewise |
| `Neighbours.SearchExact` | FAST_LIO_LOCALIZATION_ROS2/include/ikd-Tree/ikd_Tree.cpp:1062-1244 | the heap after a search holds a k-best choice from what it held and all live points within the bound: no pruning, order of recursion or push-down loses a nearer point |
| `Neighbours.DrainExact` | FAST_LIO_LOCALIZATION_ROS2/include/ikd-Tree/ikd_Tree.cpp:449-457 | the candidates popped come out nearest first and are exactly those held |
| `Neighbours.NearestSearchExact` | FAST_LIO_LOCALIZATION_ROS2/include/ikd-Tree/ikd_Tree.cpp:426-461 | min(k, live points within max_dist) live points in ascending distance, every one left out at least as far or beyond max_dist: for k = 1 always, for k >= 2 when no live point is farther than another by less than 1e-10 in squared distance without lying right of it |
| `Neighbours.ConfusedIff` | FAST_LIO_LOCALIZATION_ROS2/include/ikd-Tree/ikd_Tree.h:102-108 | operator< ranks two candidates against their distances exactly when the squared distances differ by more than 0 and less than 1e-10 and the farther one is not right of the nearer |
| `Neighbours.SpreadOutExact` | FAST_LIO_LOCALIZATION_ROS2/include/ikd-Tree/ikd_Tree.cpp:426-461 | so, if the live points' squared distances from the query are pairwise equal or at least 1e-10 apart, the promise holds for every k >= 1 |
| `Confusion.ConfusedPairFails` | FAST_LIO_LOCALIZATION_ROS2/include/ikd-Tree/ikd_Tree.h:102-108 | for any two confused points: the run that builds a map from the nearer and inserts the other is allowed, leads to a map of exactly these two, and the search for two neighbours returns the farther one first |
| `Confusion.ConfusionExists` | FAST_LIO_LOCALIZATION_ROS2/include/ikd-Tree/ikd_Tree.h:102-108 | a concrete such map: points 1e-6 along x and 2e-6 along y from the query come back in the wrong order |
| `Confusion.NearestExactIff` | FAST_LIO_LOCALIZATION_ROS2/include/ikd-Tree/ikd_Tree.cpp:426-461 | over every map that a run from the empty one leads to and that holds points of a cloud alone, every k >= 1 and every bound, the promise is kept if and only if no two points of the cloud are so confused, a condition on their distances and x coordinates alone |
| `Voxels.InVoxel` | FAST_LIO_LOCALIZATION_ROS2/include/ikd-Tree/ikd_Tree.cpp:489-496 | the half-open voxel boxes partition space into cubes of side s around ((i+1/2)s, (j+1/2)s, (k+1/2)s) |
| `Voxels.BestIsNearest` | FAST_LIO_LOCALIZATION_ROS2/include/ikd-Tree/ikd_Tree.cpp:501-510 | the point chosen for a voxel is one of its old points or the new one, none of them nearer the voxel's middle |
| `Voxels.CountedIff` | FAST_LIO_LOCALIZATION_ROS2/include/ikd-Tree/ikd_Tree.cpp:512-521 | storing a point counts one exactly when something is put into the tree; nothing is put exactly when the voxel holds a single point that is strictly nearer the voxel's centre and, on some axis, at least 1e-6 from the new one |
| `Voxels.StorePointExact` | FAST_LIO_LOCALIZATION_ROS2/include/ikd-Tree/ikd_Tree.cpp:487-522 | storing one point leaves its voxel with exactly one live point, nearest the voxel's centre, every other live point as it was, and every deleted point accounted for by its kind |
| `Voxels.StoreAllExact` | FAST_LIO_LOCALIZATION_ROS2/include/ikd-Tree/ikd_Tree.cpp:478-573 | after a list of points every voxel touched holds exactly one live point, nearest its centre among its old ones and the new ones; every other voxel is unchanged |
| `Runs.InsertAllExact` | FAST_LIO_LOCALIZATION_ROS2/include/ikd-Tree/ikd_Tree.cpp:478-573 | without downsampling every point of the list is added, no other live point changes, and every box- or downsample-deleted one is still stored, recorded or forgotten at a rebuild, as equations |
| `Runs.DeleteAllExact` | FAST_LIO_LOCALIZATION_ROS2/include/ikd-Tree/ikd_Tree.cpp:632-658 | a list of boxes removes exactly the live points in any of them; the number returned is the drop; each is then stored as box-deleted or waits to be handed out |
| `Runs.StoreAllCounted` | FAST_LIO_LOCALIZATION_ROS2/include/ikd-Tree/ikd_Tree.cpp:478-573 | the number Add_Points returns with downsampling is the number of points put into the tree, at most the number offered |
| `Runs.StepGood` | FAST_LIO_LOCALIZATION_ROS2/include/ikd-Tree/ikd_Tree.cpp:409-676 | each public operation keeps the invariant, balance and ordering and does to the live points what it does to a plain multiset; a built map keeps its root; and, as equations, live, reportable and downsample-deleted points change by exactly what was inserted, deleted by box, deleted by downsampling, relabelled from box- to downsample-deleted and forgotten at a rebuild |
| `Runs.ChangeFits` | FAST_LIO_LOCALIZATION_ROS2/include/ikd-Tree/ikd_Tree.cpp:478-658 | inserts without downsampling delete and relabel nothing, box deletes deal in box-deleted points only, queries and hand-overs in none |
| `Runs.StepSettles` | FAST_LIO_LOCALIZATION_ROS2/include/ikd-Tree/ikd_Tree.cpp:661-676 | the ledger, three equations: inserted = live + box-deleted + downsample-deleted + discarded alive by a new Build; box-deleted = stored or waiting + handed out + relabelled + discarded; downsample-deleted and relabelled = stored + forgotten at a rebuild + discarded |
| `Runs.LedgerTotal` | FAST_LIO_LOCALIZATION_ROS2/include/ikd-Tree/ikd_Tree.cpp:661-676 | so inserted = stored + waiting + handed out + forgotten + discarded, occurrence by occurrence |
| `Runs.RunSound` | FAST_LIO_LOCALIZATION_ROS2/include/ikd-Tree/ikd_Tree.cpp:409-676 | all of that over every run of build, insert, downsampling insert, box delete, queries and acquire from the empty map |
| `RebuildThread.RunOperationExact` | FAST_LIO_LOCALIZATION_ROS2/include/ikd-Tree/ikd_Tree.cpp:370-406 | a log entry run on a sound subtree leaves it sound and does to its live points what the entry means; those it deletes become dropped by a downsampling entry and boxed by any other; only a downsampling entry relabels boxed points |
| `RebuildThread.SampledIsForgotten` | FAST_LIO_LOCALIZATION_ROS2/include/ikd-Tree/ikd_Tree.cpp:383-401 | a replayed DOWNSAMPLE_DELETE drops the live points of its box and makes no point boxed, and a downsampling push-down leaves none boxed |
| `RebuildThread.ReplayExact` | FAST_LIO_LOCALIZATION_ROS2/include/ikd-Tree/ikd_Tree.cpp:297-314 | replaying a log first to last adds up the meanings of its entries |
| `RebuildThread.NextKeeps` | FAST_LIO_LOCALIZATION_ROS2/include/ikd-Tree/ikd_Tree.cpp:230-334 | every step of either thread keeps: the old subtree's live points = the new subtree's with the entry in flight and then the log replayed on it |
| `RebuildThread.SwapExact` | FAST_LIO_LOCALIZATION_ROS2/include/ikd-Tree/ikd_Tree.cpp:316-334 | at the swap old and new subtree hold the same live points |
| `RebuildThread.ReplayCatchesUp` | FAST_LIO_LOCALIZATION_ROS2/include/ikd-Tree/ikd_Tree.cpp:297-334 | at any moment before it, replaying what is pending on the new subtree gives the old one's live points |
| `RebuildThread.StepTransparent` | FAST_LIO_LOCALIZATION_ROS2/include/ikd-Tree/ikd_Tree.cpp:230-334 | a step changes the live points exactly as the main thread's own operation says, so the rebuild thread's steps change none |
| `RebuildThread.RunConsistent` | FAST_LIO_LOCALIZATION_ROS2/include/ikd-Tree/ikd_Tree.cpp:230-334 | both over every interleaving of the two threads' steps in which the log's ring holds at most Q_LEN entries |
| `RebuildThread.LoggedInOrder` | FAST_LIO_LOCALIZATION_ROS2/include/ikd-Tree/ikd_Tree.cpp:819-822 | an edit's push onto the ring is an append to the log while there is room |
| `RebuildThread.SwapReports` | FAST_LIO_LOCALIZATION_ROS2/include/ikd-Tree/ikd_Tree.cpp:255-334 | at the swap, but for what downsampling entries relabelled on either side: the old subtree's box-deleted points are exactly those recorded when it was copied and those the new one still holds to report, its dropped points those left behind and those of the new one; and every point the new one will report was box-deleted by an entry that does not sample |
| `RebuildThread.RunReported` | FAST_LIO_LOCALIZATION_ROS2/include/ikd-Tree/ikd_Tree.cpp:230-334 | that at every swap of every interleaving, downsampling included, and before it the account of both subtrees entry by entry |
| `RebuildThread.PlainRunReported` | FAST_LIO_LOCALIZATION_ROS2/include/ikd-Tree/ikd_Tree.cpp:230-334 | over interleavings without downsampling nothing is relabelled: box-deleted points at a swap = recorded + still to report |
| `OpQueue.ManualQ.Push` | FAST_LIO_LOCALIZATION_ROS2/include/ikd-Tree/ikd_Tree.h:237-245 | the ring buffer after a push, a full ring included |
| `OpQueue.ManualQ.Pop` | FAST_LIO_LOCALIZATION_ROS2/include/ikd-Tree/ikd_Tree.h:212-222 | the oldest entry goes, the others keep their order |
| `OpQueue.PushedIsFifoIff` | FAST_LIO_LOCALIZATION_ROS2/include/ikd-Tree/ikd_Tree.h:237-245 | a push is first-in first-out if and only if it overwrites no queued entry with a different one; always while fewer than Q_LEN are queued |
| `IkdNode.KdNode.constructor` | FAST_LIO_LOCALIZATION_ROS2/include/ikd-Tree/ikd_Tree.cpp:41-67 | a fresh node |
| `IkdNode.PushDownNode` | FAST_LIO_LOCALIZATION_ROS2/include/ikd-Tree/ikd_Tree.cpp:1360-1455 | the field-by-field push-down of a node and its sons computes the specified one and disturbs no other node |
| `IkdNode.UpdateNode` | FAST_LIO_LOCALIZATION_ROS2/include/ikd-Tree/ikd_Tree.cpp:1458-1624 | the recomputation of a node's fields computes the specified one |
| `IkdNode.MarkNodeDeleted` | FAST_LIO_LOCALIZATION_ROS2/include/ikd-Tree/ikd_Tree.cpp:780-795 | the fully covered shortcut, on the node's fields |
| `IkdTree.BuildTree` | FAST_LIO_LOCALIZATION_ROS2/include/ikd-Tree/ikd_Tree.cpp:679-733 | the recursive build over an array slice yields a tree of nodes standing for the specified one and leaves the rest of the array alone |
| `IkdTree.KdTree.constructor` | FAST_LIO_LOCALIZATION_ROS2/include/ikd-Tree/ikd_Tree.h:309 | an empty index |
| `IkdTree.KdTree.Flat` | FAST_LIO_LOCALIZATION_ROS2/include/ikd-Tree/ikd_Tree.cpp:1627-1658 | flatten on nodes: pushes, stores and records as specified, into the list its mode names |
| `IkdTree.KdTree.Rebuild` | FAST_LIO_LOCALIZATION_ROS2/include/ikd-Tree/ikd_Tree.cpp:736-764 | rebuild on nodes: the old subtree is flattened and a new one built in its place |
| `IkdTree.KdTree.AddByPoint` | FAST_LIO_LOCALIZATION_ROS2/include/ikd-Tree/ikd_Tree.cpp:995-1059 | insertion on nodes |
| `IkdTree.KdTree.DeleteByRange` | FAST_LIO_LOCALIZATION_ROS2/include/ikd-Tree/ikd_Tree.cpp:767-851 | box deletion on nodes, with its count and its records |
| `IkdTree.KdTree.SearchByRange` | FAST_LIO_LOCALIZATION_ROS2/include/ikd-Tree/ikd_Tree.cpp:1247-1289 | box search on nodes |
| `IkdTree.KdTree.SearchByRadius` | FAST_LIO_LOCALIZATION_ROS2/include/ikd-Tree/ikd_Tree.cpp:1292-1332 | radius search on nodes |
| `IkdTree.KdTree.SearchNearest` | FAST_LIO_LOCALIZATION_ROS2/include/ikd-Tree/ikd_Tree.cpp:1062-1244 | the two-way recursion of the nearest search on nodes and heap array |
| `IkdTree.KdTree.BuildFromCloud` | FAST_LIO_LOCALIZATION_ROS2/include/ikd-Tree/ikd_Tree.cpp:409-423 | the map then stands for exactly the cloud, and has a root exactly when the cloud is not empty |
| `IkdTree.KdTree.CountPoints` | FAST_LIO_LOCALIZATION_ROS2/include/ikd-Tree/ikd_Tree.cpp:70-163 | size and validnum are the numbers of stored and of live points |
| `IkdTree.KdTree.DeletePointBoxes` | FAST_LIO_LOCALIZATION_ROS2/include/ikd-Tree/ikd_Tree.cpp:632-658 | exactly the live points in any box go; the number returned is the exact drop |
| `IkdTree.KdTree.AddPoints` | FAST_LIO_LOCALIZATION_ROS2/include/ikd-Tree/ikd_Tree.cpp:478-573 | both modes: the new live points are what the operation means for the old ones; the number returned is the number of points put into the tree with downsampling, zero without |
| `IkdTree.KdTree.NearestPoints` | FAST_LIO_LOCALIZATION_ROS2/include/ikd-Tree/ikd_Tree.cpp:426-461 | the search by nodes and heap meets the nearest-neighbour promise under the same condition and changes no live point |
| `IkdTree.KdTree.BoxSearch` | FAST_LIO_LOCALIZATION_ROS2/include/ikd-Tree/ikd_Tree.cpp:464-468 | the storage holds exactly the live points in the box |
| `IkdTree.KdTree.RadiusSearch` | FAST_LIO_LOCALIZATION_ROS2/include/ikd-Tree/ikd_Tree.cpp:471-475 | the storage holds exactly the live points within the radius |
| `IkdTree.KdTree.AcquireRemovedPoints` | FAST_LIO_LOCALIZATION_ROS2/include/ikd-Tree/ikd_Tree.cpp:661-676 | every waiting point is handed over once, in order, and none waits afterwards |
| `LocalMap.SideConstant` | FAST_LIO_LOCALIZATION_ROS2/src/laserMapping.cpp:235-275 | the side length of the cube never changes |
| `LocalMap.LidarInside` | FAST_LIO_LOCALIZATION_ROS2/src/laserMapping.cpp:235-275 | with cube_len >= 2.5 * DET_RANGE and at most DET_RANGE/2 of motion per axis between scans, the lidar is inside the cube at every scan and at least DET_RANGE/2 from every face after it |
| `LocalMap.FollowsIff` | FAST_LIO_LOCALIZATION_ROS2/src/laserMapping.cpp:235-275 | for every side and every positive range, all such paths are followed if and only if cube_len >= 2.5 * DET_RANGE |
| `LocalMap.CubeMoves` | FAST_LIO_LOCALIZATION_ROS2/src/laserMapping.cpp:254-270 | on each axis both faces move down by max(0.45 (cube_len - 3 DET_RANGE), DET_RANGE / 2) if the lidar is within 1.5 DET_RANGE of the lower face, else up if of the upper, else stay |
| `LocalMap.SlabsAreCuts` | FAST_LIO_LOCALIZATION_ROS2/src/laserMapping.cpp:258-270 | the slabs hold exactly the points of the old cube, as deep as that move, at the face moved away from |
| `LocalMap.SlabsExact` | FAST_LIO_LOCALIZATION_ROS2/src/laserMapping.cpp:258-275 | the slabs hold no point of the new cube, all of the old cube outside the new one, and, unless the side is under half the range, nothing else |
| `LocalMap.MoveDeletesExactly` | FAST_LIO_LOCALIZATION_ROS2/src/laserMapping.cpp:258-279 | so a move keeps every live point of the new cube, deletes every one of the old cube outside it and, with the same proviso, no other |
| `FovSegment.LaserMap.LasermapFovSegment` | FAST_LIO_LOCALIZATION_ROS2/src/laserMapping.cpp:235-281 | the function over its globals and the map: the first call puts every face half a side from the lidar; later calls move each axis by the stated distance, list exactly the parts cut off, and, if there are any, fetch what waits and delete them; the delete counter is the drop; the margin holds after every call of a slow path |
| `FovSegment.LaserMap.PointsCacheCollect` | FAST_LIO_LOCALIZATION_ROS2/src/laserMapping.cpp:226-231 | what waits in the map is fetched |
| `FovSegment.LaserMap.MoveCube` | FAST_LIO_LOCALIZATION_ROS2/src/laserMapping.cpp:258-275 | the loop over the axes: every axis moves by the stated distance and all slabs are cut from the cube as it was |
| `Packets.TakenExact` | FAST_LIO_LOCALIZATION_ROS2/src/laserMapping.cpp:421-429 | of samples in order the loop takes exactly those before the scan's end and the first of those at it; none, if the first is not before the end |
| `Packets.PackageExact` | FAST_LIO_LOCALIZATION_ROS2/src/laserMapping.cpp:383-435 | a completed package: its samples and then the buffer are what was buffered, none later than the end taken, at most the last one at it, none earlier left, one scan consumed with its stamp |
| `Packets.TrueMean` | FAST_LIO_LOCALIZATION_ROS2/src/laserMapping.cpp:393-414 | over every run lidar_mean_scantime is the true mean of the accepted scan lengths and scan_num their number |
| `PacketRuns.ScansHandedOnce` | FAST_LIO_LOCALIZATION_ROS2/src/laserMapping.cpp:283-435 | over every run: the scans received are exactly those handed out, then those waiting, in order and each with its own stamp, if and only if no lidar stamp went back while a scan waited |
| `PacketRuns.ScanLost` | FAST_LIO_LOCALIZATION_ROS2/src/laserMapping.cpp:283-306 | two scans, the second stamped earlier: the first is lost |
| `PacketRuns.StampsInOrder` | FAST_LIO_LOCALIZATION_ROS2/src/laserMapping.cpp:283-435 | over every run the stamps handed out and then those waiting are exactly those received, in order; so after one lost scan there are more stamps than scans waiting for good, and every later scan is handed out with an earlier one's stamp |
| `PacketRuns.SamplesHandedOnce` | FAST_LIO_LOCALIZATION_ROS2/src/laserMapping.cpp:350-435 | over every run: the batches end to end and then the buffer are exactly the samples received if and only if no inertial stamp went back while a sample waited |
| `PacketRuns.SampleLost` | FAST_LIO_LOCALIZATION_ROS2/src/laserMapping.cpp:350-379 | two samples, the second stamped earlier: the first is lost |
| `PacketRuns.BatchesSeparated` | FAST_LIO_LOCALIZATION_ROS2/src/laserMapping.cpp:383-435 | without a backward inertial stamp no sample of a batch is earlier than the end of any scan handed out before |
| `PacketRuns.ScansEnd` | FAST_LIO_LOCALIZATION_ROS2/src/laserMapping.cpp:393-416 | every scan handed out ends 1/1000 of its last point's offset after its stamp or, with at most one point or less than half the mean of the lengths accepted before it, that mean after it |
| `PacketRuns.ClocksOfRun` | FAST_LIO_LOCALIZATION_ROS2/src/laserMapping.cpp:310-379 | over every run: each sample is recorded at its own stamp less the configured lag, up to some point, and from there on at its own stamp plus one offset; the offset is set only with self synchronisation on and puts some sample 0.1 s after some scan that was more than a second away |
| `PacketSync.Mapping.StandardPclCbk` | FAST_LIO_LOCALIZATION_ROS2/src/laserMapping.cpp:283-306 | the callback over the deques and flags: a stamp that goes back empties the scans but not the stamps |
| `PacketSync.Mapping.LivoxPclCbk` | FAST_LIO_LOCALIZATION_ROS2/src/laserMapping.cpp:310-348 | the callback; with self synchronisation on, no offset yet and a sample waiting, a scan more than a second from the last sample sets the offset to that gap plus 0.1 s, and nothing else does |
| `PacketSync.Mapping.ImuCbk` | FAST_LIO_LOCALIZATION_ROS2/src/laserMapping.cpp:350-379 | the callback; the sample is buffered at its stamp plus the offset if that is in use and beyond 0.1 s, else less the lag, and a stamp that goes back empties the buffer first |
| `PacketSync.Mapping.SyncPackages` | FAST_LIO_LOCALIZATION_ROS2/src/laserMapping.cpp:383-435 | the function over the deques, flags and the measure group; it succeeds exactly when both deques hold something and the last sample reaches the scan's end; on success the guarantees of a completed package, on failure nothing consumed |
| `PacketSync.Mapping.CutSamples` | FAST_LIO_LOCALIZATION_ROS2/src/laserMapping.cpp:421-429 | the loop that moves samples from the buffer to the group |
| `Transforms.RotMul` | FAST_LIO_LOCALIZATION_ROS2/scripts/transform_fusion.py:57-69 | the rotation matrices of two non-zero quaternions multiply to that of their product |
| `Transforms.RotInverse` | FAST_LIO_LOCALIZATION_ROS2/scripts/transform_fusion.py:57-69 | the rotation matrix of the conjugate is the inverse: the matrices are rotations, whatever the length of the quaternion |
| `Transforms.QuatToMatPose` | FAST_LIO_LOCALIZATION_ROS2/scripts/transform_fusion.py:57-69 | every quaternion and translation, the zero quaternion included, give a rigid transform |
| `Transforms.QuatToMatActs` | FAST_LIO_LOCALIZATION_ROS2/scripts/transform_fusion.py:57-69 | _quat_to_mat applied to a point is q v q* / |q|^2 plus the translation, and the translation alone for the zero quaternion |
| `Transforms.PoseMul` | FAST_LIO_LOCALIZATION_ROS2/scripts/transform_fusion.py:104-106 | rigid transforms multiply to rigid transforms |
| `Transforms.InvMatExact` | FAST_LIO_LOCALIZATION_ROS2/scripts/transform_fusion.py:94-102 | _inv_mat of a rigid transform is its inverse on both sides, and rigid |
| `Transforms.QuaternionRecovered` | FAST_LIO_LOCALIZATION_ROS2/scripts/transform_fusion.py:72-91 | in all four branches _mat_to_quat after _quat_to_mat gives q/|q| or its negation, whichever has the component divided by positive; that component is never zero |
| `Transforms.PoseRecovered` | FAST_LIO_LOCALIZATION_ROS2/scripts/transform_fusion.py:57-91 | _quat_to_mat of the quaternion and translation taken from any rigid transform is that transform, and the quaternion has length one |
| `Transforms.ComposedBack` | FAST_LIO_LOCALIZATION_ROS2/scripts/transform_fusion.py:143-147 | map->odom composed with odom->base_link is exactly map->body |
| `FrameNodes.TransformFusion.TimerCallback` | FAST_LIO_LOCALIZATION_ROS2/scripts/transform_fusion.py:118-178 | the two published poses, of unit length: the localization puts every point where the odometry and then the registration put it; map->odom does so behind the filter's transform, or is the registration without it; nothing is published before the first odometry |
| `FrameNodes.ToBaseExact` | FAST_LIO_LOCALIZATION_ROS2/scripts/cloud_to_base_link.py:57-74 | a body point seen in the world frame comes back as T_BASE_FROM_BODY applied to it, whatever the odometry |
| `FrameNodes.BodyPoint` | FAST_LIO_LOCALIZATION_ROS2/scripts/cloud_to_base_link.py:57-74 | every world point is the image of a body point under the odometry, so the statement covers every point |
| `FrameNodes.CloudToBaseLink.OnCloud` | FAST_LIO_LOCALIZATION_ROS2/scripts/cloud_to_base_link.py:49-83 | every point's new coordinates are those of the body point the odometry puts there, which exists, less (0.40, 0, 0.22); all other fields and the order are kept; nothing is published without odometry, without coordinates or for an empty cloud |
| `SerialFrames.DrainThenMore` | step_motor/desk_controller.py:153-166 | what was cut from a buffer stays cut whatever bytes follow |
| `SerialFrames.ChunkingIrrelevant` | step_motor/desk_controller.py:144-166 | however a byte stream is split into reads, the frames and the final buffer are those of the whole stream |
| `SerialFrames.FramesRecovered` | step_motor/desk_controller.py:153-166 | frames of five or more bytes whose only 0xFF is the last one are recovered whole and in order, each after any noise free of 0xAA |
| `SerialFrames.FramesReceived` | step_motor/desk_controller.py:144-166 | the same under any split into reads |
| `SerialFrames.HeightRoundTrip` | step_motor/desk_controller.py:128-134 | for every requested height the command is AA 07 80, five digits, FF; the reply carrying these digits reads back within 0.05 of the request from 0 to 200, as 0 below and 200 above, and as the very height exactly when it is a whole number of tenths in range |
| `SerialFrames.HeightsDelivered` | step_motor/desk_controller.py:128-185 | replies carrying such digits, through noise and any split into reads, are published one for one, in order, each within 0.05 of its request or at the bound it exceeds |
| `SerialFrames.DeskController.DrainBuffer` | step_motor/desk_controller.py:153-166 | the inner loop cuts, keeps and publishes what the specification says |
| `SerialFrames.DeskController.ReceiveLoop` | step_motor/desk_controller.py:143-169 | what the receiving loop publishes and keeps depends on the bytes alone, not on how they were cut |

## Left out

- Floating point: coordinates, distances, times and matrix entries are exact reals; rounding, NaN and infinite coordinates are not modelled. An infinite search bound is a separate constructor.
- IkdTree.KdTree.Rebuild: does not hand subtrees of 1500 points or more to the background thread; in the sequential index `Rebuild` is immediate at every size; the hand-off is modelled on its own in `RebuildThread`.
- RebuildThread.NextKeeps: assumes a non-empty snapshot, since an empty one dereferences a null root (ikd_Tree.cpp:332), the hand-over at lines 316-334 and 347-352 as one step, and no claim about the ancestors' `Update` loop (lines 335-346).
- RebuildThread.RunConsistent: for runs whose log never exceeds Q_LEN entries; what an overwritten entry does is `PushedIsFifoIff`.
- `RebuildThread` is on values: it is about the order of steps of two threads, not about shared memory, mutexes or visibility.
- `Add_by_range`, `Add_Point_Boxes`, `Delete_by_point`, `Delete_Points`: the mapping node does not call them, and the bounding-box invariant does not survive the first.
- Neighbours.NearestSearchExact: a query for zero neighbours is not covered; the original reads the top of an empty heap.
- Searches.SearchRadiusExact: says nothing for a negative radius, where the code squares it.
- Runs.StepSettles: does not claim that each box-deleted point is handed out: a later downsample deletion of a covering node relabels it, which the ledger counts.
- IkdTree.KdTree.AddPoints: requires a built map or an empty list, as the code reads the root's axis without a check.
- FovSegment.LaserMap.LasermapFovSegment: the body-axis point it also transforms and its timing are not modelled; what `acquire_removed_points` returns is dropped, as in the code.
- The nodes' `father_ptr`, `working_flag`, mutexes, `STATIC_ROOT_NODE` and the release of memory.
- Paper statistics (`alpha_bal`, `alpha_del`, `root_alpha`, `tree_range`) and `MANUAL_Q::back`.
- `PointType` fields other than x, y, z: one `intensity` stands for all that is carried along.
- Preprocessing of scans: a scan arrives as the time offsets of its points; conversion of stamps to and from integers is exact.
- Publishing, logging, parameters, sockets and the serial port itself: what would be published is a result or a list.
- FrameNodes.CloudToBaseLink.OnCloud: byte offsets and 32-bit floats inside the buffer; a point is its coordinates and the rest.
- SerialFrames.HeightRoundTrip: the library's conversion of text other than plain decimals is left to the parameter.
- The fault report of a five-byte frame is parsed but, being only logged, not kept.
- The Kalman filter, undistortion, plane fitting, registration, `preprocess.cpp`, the Livox driver, `pcd2pgm.cpp` and the launch files.
