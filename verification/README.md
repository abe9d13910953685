# Spectral-clustering core of GraphML, modelled in Dafny

This project models the discrete logic of a small spectral-clustering
pipeline and proves properties of that model. The pipeline has a Python
version and a serial C++ version. The model covers three parts:

- **The epsilon-neighbourhood builder.** For every node `i` it runs a
  bounded first-in-first-out traversal. Each queue item is a node with the
  distance budget left on reaching it. An item is checked against the
  visited set when it is dequeued, so the first item for a node wins.
  Every visited node `j` gets `-1` at `S[i][j]`, and the diagonal entry
  `S[i][i]` is then overwritten with the number of visited nodes minus one.
  The model has four variants:
  - the Python `build_epsilon_neighborhood`;
  - the C++ `_recursive_laplacian_bfs` adjacency-matrix branch;
  - the C++ `_recursive_laplacian_bfs` adjacency-list branch;
  - the C++ row driver `build_epsilon_neighborhood`.

  All four share one traversal model (`Traversal.Run`). The `Source`
  datatype says how each variant pushes the neighbours of an expanded node.
- **The cluster filter `preserve_only_connections_in_graph`.** It removes
  every edge between nodes with different labels.
- **The comparison-based parts of k-means.** Both `kmeans.C` and the
  stand-alone `KMeans/main.cpp` are covered:
  - the first-index closest-centroid scan;
  - the bounding-box scan behind the random initial centroids;
  - the cluster mean;
  - the assignment and reassignment passes with their convergence flag.

  The distance between vectors and the random factors are inputs.

## Modules

| module | file | contents |
|---|---|---|
| `Options` | matrices.dfy | the `Option` result type |
| `Matrices` | matrices.dfy | square matrices of reals, the zero row and matrix |
| `Traversal` | traversal.dfy | queue items, graph sources, one loop iteration `Step`, the loop `Run`, and `Reached` (the visited set of a traversal from `i`) |
| `Rows` | rows.dfy | `FreshRow`, the row a traversal writes, and facts about zero budgets |
| `FirstWins` | first_wins.dfy | `Canon`, the queue with items for already seen nodes removed; two runs whose queues have the same `Canon` visit the same nodes |
| `Reach` | reach.dfy | walks, their costs, and soundness of the visited set |
| `SimilarityPy` | similarity_py.dfy | the Python builder |
| `SimilarityCpp` | similarity_cpp.dfy | the C++ traversal with its lent queue and visited set, and the row driver |
| `UnitBfs` | unit_bfs.dfy | hop counts on 0/1 weights: the Python traversal visits exactly the nodes within `E` edges for a whole-number epsilon `E` |
| `SampleGraph` | sample_graph.dfy | the seven-node sample graph of the Python script, and a four-node counterexample |
| `ClusterFilter` | cluster_filter.dfy | the cluster filter |
| `KMeans` | kmeans.dfy | the k-means of `kmeans.C` |
| `KMeansMain` | kmeans_main.dfy | the differences of `KMeans/main.cpp` |

The stand-alone `KMeans/main.cpp` repeats the `getMean`,
`getIndexOfClosestCentroid` and pass logic of `kmeans.C` line for line,
apart from the OpenMP pragmas (lines 54-70, 82-96 and 118-166 there).
These copies are modelled by the same `KMeans` members, whose rows cite
`kmeans.C`. The stand-alone bounding-box scan (lines 21-35) is the one of
`KMeans.Bounds`, reached through `KMeansMain.GetRandomCentroids`. Its run
loop is `KMeans.RunKMeansAsWritten`, whose centroid update is `getMean` of
the whole buffers as in the source; `KMeans.RunKMeans` is the same loop with
the corrected mean of the Findings row.

A natural expectation is that a larger epsilon never lowers a diagonal
entry. The code does not meet it. The queue is first-in-first-out and weights
are subtracted from the budget, so an expensive edge can queue a node with no
budget left ahead of a cheap walk to the same node. That node is then
expanded with budget 0, and the cheap walk's item is dropped as already
visited. `SampleGraph.LargerEpsilonCanReachLess` shows a four-node graph on
which epsilon 3 reaches node 3 and epsilon 10 does not. The model follows the
code. What holds in general is soundness: every visited node is within
epsilon of the start (`Reach.ReachedIsWithinEpsilon`).

On 0/1 weights with a whole-number epsilon `E` the traversal is the
breadth-first search of depth epsilon that the Python comment promises. Every
edge costs one unit, so the queue holds at most two budget levels, in order.
A node is visited exactly when some walk of at most `E` edges reaches it
(`UnitBfs.UnitReachedIsHopBall`). There the larger-epsilon expectation does
hold (`UnitBfs.UnitEpsilonMonotone`).

Likewise, with epsilon 2 on the sample graph, row 0 reaches exactly nodes 1,
2 and 5. It does not reach node 3, and the diagonal is 3
(`SampleGraph.SampleRows`).

## Model

| member | source | states |
|---|---|---|
| Traversal.Step | SerialPython/spectral_clustering_serial.py:74-90 | one loop iteration adds the dequeued node to the visited set; an item with budget 0 is dropped without pushing any neighbour |
| Traversal.StepProgress | SerialPython/spectral_clustering_serial.py:74-80 | an already visited item only shortens the queue; an unvisited one raises the counter by one, writes -1 at its column and shrinks the set of unvisited nodes, so the loop terminates |
| Traversal.Run | SerialPython/spectral_clustering_serial.py:72-90 | the loop ends with an empty queue (measure: unvisited nodes, then queue length) and never removes a node from the visited set |
| Traversal.Admissible | SerialPython/spectral_clustering_serial.py:86-88 | the neighbour test of the dense branches: a neighbour other than the expanded node, unvisited when the branch filters, over an edge of positive weight no larger than the budget (also similarity_calc.C:67-71) |
| Traversal.DenseFrom | SerialPython/spectral_clustering_serial.py:85-90 | every pushed item is a neighbour other than the current node, not yet visited, over an edge of positive weight no larger than the budget, with the budget reduced by that weight; candidates are pushed in increasing order |
| Traversal.DenseNodes | SerialPython/spectral_clustering_serial.py:85-90 | the pushed nodes are exactly the admissible candidates |
| Traversal.Successors | SerialCpp/similarity_calc.C:64-83 | whatever the branch, pushed nodes are in range and pushed budgets lie in `[0, d)` for the expanded budget `d` |
| Traversal.Repeat | SerialCpp/similarity_calc.C:65-81 | the list branch pushes the neighbour list once per pass of the `for n` loop; every pushed item is an item of the list |
| Traversal.RepeatCovers | SerialCpp/similarity_calc.C:65-81 | with at least one pass, every item of the list is pushed |
| Traversal.ListItems | SerialCpp/similarity_calc.C:78-81 | one item per listed neighbour, in list order, each with budget `d - 1` |
| Traversal.RunCovers | SerialPython/spectral_clustering_serial.py:72-80 | every node that is visited or queued at some point is visited at the end |
| Traversal.RunCount | SerialPython/spectral_clustering_serial.py:76-78 | the counter grows by exactly the number of newly visited nodes |
| Traversal.RunRow | SerialPython/spectral_clustering_serial.py:79 | the row gets -1 exactly at the newly visited nodes and keeps every other entry |
| Traversal.Reached | SerialPython/spectral_clustering_serial.py:68-72 | the start node is always visited and every visited node is a node of the graph |
| Traversal.Start | SerialPython/spectral_clustering_serial.py:68-70 | the queue holds only the start node, nothing is visited, and the counter is one below the visited count, so it counts visits other than the start |
| Rows.FreshRow | SerialPython/spectral_clustering_serial.py:66-92 | the finished row: the diagonal is the visited count minus one, at least 0; an off-diagonal entry is -1 if and only if its node was visited, otherwise it keeps its previous value |
| Rows.DiagonalCountsMarks | SerialPython/spectral_clustering_serial.py:92 | the diagonal equals the number of -1 entries off the diagonal, which mark exactly the visited nodes other than the start |
| Rows.ZeroBudgetRun | SerialPython/spectral_clustering_serial.py:83 | items with budget 0 add only their own nodes to the visited set |
| Rows.EpsilonZeroReachesSelf | SerialPython/spectral_clustering_serial.py:83 | with epsilon 0 only the start node is visited |
| SimilarityPy.BuildEpsilonNeighborhood | SerialPython/spectral_clustering_serial.py:52-94 | `S[i][j]` for `j != i` is -1 if and only if `j` is visited from `i`, else 0; `S[i][i]` is the number of visited nodes minus one, at least 0 |
| SimilarityPy.DiagonalCountsNeighbours | SerialPython/spectral_clustering_serial.py:68-92 | the diagonal of row `i` counts the -1 entries of row `i`, which are exactly the visited nodes other than `i` |
| SimilarityPy.EpsilonZeroIsZero | SerialPython/spectral_clustering_serial.py:83-92 | with epsilon 0 the whole matrix is zero |
| SimilarityPy.UnitEpsilonOneIsAdjacency | SerialPython/spectral_clustering_serial.py:99-100 | on 0/1 weights with epsilon 1 the off-diagonal -1 pattern of every row is the adjacency row |
| SimilarityPy.UnitReach | SerialPython/spectral_clustering_serial.py:83-90 | on 0/1 weights with epsilon 1, a node other than `i` is visited from `i` if and only if it is adjacent to `i` |
| SimilarityPy.UnitFirstStep | SerialPython/spectral_clustering_serial.py:83-90 | on 0/1 weights with epsilon 1 the visited set is the start plus the nodes its first expansion pushes |
| SimilarityPy.UnitBudgets | SerialPython/spectral_clustering_serial.py:88-90 | on 0/1 weights the first expansion with budget 1 pushes only items with budget 0 |
| UnitBfs.UnitReachedIsHopBall | SerialPython/spectral_clustering_serial.py:65-90 | on 0/1 weights with a whole-number epsilon `E`, a node is visited from `i` if and only if some walk of at most `E` edges leads from `i` to it |
| UnitBfs.FullBall | SerialPython/spectral_clustering_serial.py:66-90 | on 0/1 weights, if every node is within `E` edges of node `i`, the traversal from `i` with epsilon `E` visits exactly the nodes of the graph |
| UnitBfs.WithinDiameterLinksAll | SerialPython/spectral_clustering_serial.py:52-94 | on 0/1 weights, if every node is within `E` edges of every other, then epsilon `E` puts -1 at every off-diagonal entry and `N - 1` on every diagonal |
| UnitBfs.UnitEpsilonMonotone | SerialPython/spectral_clustering_serial.py:65-90 | on 0/1 weights a larger whole-number epsilon visits a superset of the nodes |
| UnitBfs.RunLevels | SerialPython/spectral_clustering_serial.py:72-90 | from any state meeting the level invariant, the loop ends having visited exactly the nodes within `E` edges |
| UnitBfs.StartInv | SerialPython/spectral_clustering_serial.py:68-70 | the start state (the start node queued with budget `E`, nothing visited) meets the level invariant at level `E` |
| UnitBfs.StepKeepsLevel | SerialPython/spectral_clustering_serial.py:74-90 | dequeuing an item of the current budget level keeps the level invariant: budgets stay in two ordered levels, visited nodes and queued items stay within their hop counts, and each node one level further keeps an unvisited queued parent or is queued itself |
| UnitBfs.Descend | SerialPython/spectral_clustering_serial.py:72-90 | once every queued budget is one below the level, every node of the level is visited and the invariant holds one level down |
| UnitBfs.PushedUnit | SerialPython/spectral_clustering_serial.py:83-90 | on 0/1 weights, expanding a node with budget `L >= 1` pushes exactly its unvisited neighbours, each with budget `L - 1` |
| UnitBfs.Finish | SerialPython/spectral_clustering_serial.py:72-92 | with the queue empty at level 0, the visited set is the set of nodes within `E` edges |
| UnitBfs.HopsLast | SerialPython/spectral_clustering_serial.py:85-90 | a node exactly `k >= 1` edges away has a neighbour `k - 1` edges away with an edge into it |
| UnitBfs.HopsExtendBack | SerialPython/spectral_clustering_serial.py:85-90 | if `v` is more than `k + 1` edges away, then every node with an edge into `v` is more than `k` edges away |
| Reach.StepBudgets | SerialPython/spectral_clustering_serial.py:85-90 | queued budgets stay non-negative, and every pushed budget is strictly below the budget of the item expanded |
| Reach.ExtendWalk | SerialPython/spectral_clustering_serial.py:87-90 | a walk to `u` of cost at most `c`, extended by an edge `u`-`m` of positive weight, reaches `m` at cost at most `c` plus that weight |
| Reach.PushedWithin | SerialPython/spectral_clustering_serial.py:85-90 | every item pushed by a dense expansion names a node reachable at the cost spent so far, epsilon minus its budget |
| Reach.StepSound | SerialPython/spectral_clustering_serial.py:74-90 | one iteration keeps the soundness invariant: non-negative budgets, queued nodes reachable at the cost spent, visited nodes within epsilon |
| Reach.RunSound | SerialPython/spectral_clustering_serial.py:72-90 | a run started in a sound state visits only nodes within epsilon of the start |
| Reach.ReachedIsWithinEpsilon | SerialPython/spectral_clustering_serial.py:53-54 | every node marked -1 in row `i` ends a walk from `i` of positive-weight edges whose weights sum to at most epsilon |
| FirstWins.CanonNodes | SerialCpp/similarity_calc.C:57 | the normal form keeps exactly the queued nodes not yet seen |
| FirstWins.CanonAppend | SerialCpp/similarity_calc.C:57 | the normal form of a concatenation is the normal form of the front followed by that of the back, with the front's nodes counted as seen |
| FirstWins.CanonCovered | SerialCpp/similarity_calc.C:57 | a queue of seen nodes only has the empty normal form |
| FirstWins.RepeatCanon | SerialCpp/similarity_calc.C:65-81 | pushing a list several times in a row has the normal form of pushing it once |
| FirstWins.DenseCanon | SerialCpp/similarity_calc.C:67-74 | pushing visited neighbours too, as the C++ adjacency-matrix branch does, has the same normal form as filtering them out, as the Python builder does |
| FirstWins.SuccessorsCanon | SerialCpp/similarity_calc.C:64-83 | two sources for the same graph push queues with the same normal form |
| FirstWins.StepCanon | SerialCpp/similarity_calc.C:51-86 | one iteration from states with equal visited sets and equal normal forms leads to states with the same property |
| FirstWins.RunCanon | SerialCpp/similarity_calc.C:51-87 | runs from states with equal visited sets and queues of equal normal form end with the same visited set |
| SimilarityCpp.Entry | SerialCpp/similarity_calc.C:47-49 | the start item is pushed behind whatever the lent queue still holds, which stays in front in order; the visited set is cleared and the counter is one below the visited count; the row is the matrix's row |
| SimilarityCpp.EntryRun | SerialCpp/similarity_calc.C:47-61 | a call visits its row; the counter, which starts at -1, ends at the visited count minus one; the row gets -1 exactly at visited nodes |
| SimilarityCpp.EntryFresh | SerialCpp/similarity_calc.C:47-49 | with an empty lent queue the clearing of the visited set makes the call visit exactly `Reached` and write the fresh row |
| SimilarityCpp.TraverseRow | SerialCpp/similarity_calc.C:38-90 | only row `curr` changes; its diagonal is the visited count minus one and its other entries are -1 at visited nodes; the lent queue is left empty; with an empty lent queue the row is the fresh row |
| SimilarityCpp.BuildEpsilonNeighborhood | SerialCpp/similarity_calc.C:106-117 | every row is the fresh row of its own traversal with the integer epsilon; a queue left over by an earlier caller can affect only row 0; the lent queue ends empty |
| SimilarityCpp.DriveOrderRow | SerialCpp/similarity_calc.C:112-116 | running rows in a list without repeats makes each listed row its fresh row and leaves unlisted rows alone |
| SimilarityCpp.DriveOrderRows | SerialCpp/similarity_calc.C:112-116 | the same for all rows at once |
| SimilarityCpp.OrderIndependent | SerialCpp/similarity_calc.C:112-116 | any two orders that run every row exactly once give the same matrix |
| SimilarityCpp.SameGraphReached | SerialCpp/similarity_calc.C:57-74 | two sources for the same graph visit the same nodes |
| SimilarityCpp.SameGraphRow | SerialCpp/similarity_calc.C:57-74 | two sources for the same graph write the same row |
| SimilarityCpp.DenseMatchesPython | SerialCpp/similarity_calc.C:64-74 | on a zero matrix, the C++ adjacency-matrix branch writes exactly the rows of the Python builder |
| SimilarityCpp.ListRepeatsHarmless | SerialCpp/similarity_calc.C:65-81 | the adjacency-list branch, which pushes a node's list once per node of the graph, writes the same row as pushing it once |
| SampleGraph.SampleShape | SerialPython/spectral_clustering_serial.py:10-30 | the sample matrix is square, 7 by 7, symmetric, with 0/1 weights |
| SampleGraph.SampleEpsilonOne | SerialPython/spectral_clustering_serial.py:99-100 | on the sample with epsilon 1 the off-diagonal entries are minus the adjacency matrix |
| SampleGraph.SampleRowOne | SerialPython/spectral_clustering_serial.py:66-92 | on the sample with epsilon 1, row 0 is `[2, 0, -1, 0, 0, -1, 0]` |
| SampleGraph.SampleTrace | SerialPython/spectral_clustering_serial.py:72-90 | on the sample with epsilon 2 the traversal from node 0 visits exactly 0, 1, 2 and 5 |
| SampleGraph.SampleEpsilonTwo | SerialPython/spectral_clustering_serial.py:102 | on the sample with epsilon 2, row 0 is `[3, -1, -1, 0, 0, -1, 0]` |
| SampleGraph.SampleRows | SerialPython/spectral_clustering_serial.py:99-102 | both rows on the sample matrix itself |
| SampleGraph.DetourWalk | SerialPython/spectral_clustering_serial.py:53-54 | in the four-node graph a walk of cost 3 leads from node 0 to node 3 |
| SampleGraph.DetourTraceThree | SerialPython/spectral_clustering_serial.py:72-90 | with epsilon 3 node 3 is visited from node 0 |
| SampleGraph.DetourTraceTen | SerialPython/spectral_clustering_serial.py:72-90 | with epsilon 10 node 3 is not visited from node 0 |
| SampleGraph.LargerEpsilonCanReachLess | SerialPython/spectral_clustering_serial.py:72-90 | a node within distance 3 is visited with epsilon 3 and missed with epsilon 10 |
| ClusterFilter.Keep | SerialPython/spectral_clustering_serial.py:37-47 | the reference definition the loops are proved equal to: a square matrix of the input's size whose entry `(i, j)` is the input's entry when both labels agree and 0 otherwise |
| ClusterFilter.PreserveOnlyConnections | SerialPython/spectral_clustering_serial.py:37-47 | the loops return a matrix whose entry `(i, j)` is 0 when the labels differ and the input's entry otherwise; the input is a value and is not changed |
| ClusterFilter.KeepIdempotent | SerialPython/spectral_clustering_serial.py:37-47 | filtering twice with the same labels is filtering once |
| ClusterFilter.KeepSubgraph | SerialPython/spectral_clustering_serial.py:41-46 | a non-zero output entry is the input's entry, between nodes with the same label |
| ClusterFilter.KeepWithinCluster | SerialPython/spectral_clustering_serial.py:44-46 | entries between nodes with the same label are kept |
| ClusterFilter.KeepSymmetric | SerialPython/spectral_clustering_serial.py:44-46 | a symmetric input gives a symmetric output |
| ClusterFilter.KeepOneCluster | SerialPython/spectral_clustering_serial.py:41-46 | with a single label nothing is removed |
| KMeans.FirstMinimizer | SerialCpp/kmeans.C:96-101 | the reference definition of the scan's result: an index in range whose centroid is no farther than any other and strictly closer than every earlier one; among equally distant centroids it is the first |
| KMeans.ScanFrom | SerialCpp/kmeans.C:96-102 | the scan returns -1 exactly when there are no centroids, and an index in range otherwise |
| KMeans.ScanFinds | SerialCpp/kmeans.C:96-102 | from a correct partial scan, the scan ends at the first centroid at the smallest distance |
| KMeans.Closest | SerialCpp/kmeans.C:91-105 | the result is -1 if and only if there are no centroids, and an index in range otherwise |
| KMeans.ClosestIsTheFirstMinimizer | SerialCpp/kmeans.C:96-101 | an index is the result if and only if its centroid is no farther than any other and strictly closer than every earlier one |
| KMeans.Bounds | SerialCpp/kmeans.C:20-39 | for non-empty nodes `lo[j] <= nodes[i][j] <= hi[j]` for all `i, j`, and both bounds are attained by some node |
| KMeans.Scale | SerialCpp/kmeans.C:50 | a random coordinate `f * (max - min) + min`: factor 0 gives `min` and factor 1 gives `max` |
| KMeans.ScaleBetween | SerialCpp/kmeans.C:50 | a factor in `[0, 1]` scales into `[min, max]` |
| KMeans.RandomCentroids | SerialCpp/kmeans.C:19-55 | `numClusters` centroids of length `dim`, every coordinate inside the bounding box of the nodes |
| KMeans.GetMean | SerialCpp/kmeans.C:60-78 | the code as written: the column sums divided by the number of rows handed in; with no rows the result is the empty vector when the vectors have no coordinates and no mean otherwise, since the division runs once per coordinate |
| KMeans.ClusterMean | SerialCpp/kmeans.C:60-78 | the corrected mean: the column sums of the first `size` rows divided by `size`; an empty cluster keeps its previous centroid |
| KMeans.ColumnSumBetween | SerialCpp/kmeans.C:65-70 | if every entry of a column lies in `[lo, hi]`, the column sum lies between `n * lo` and `n * hi` |
| KMeans.SumBetween | SerialCpp/kmeans.C:65-75 | a quotient of a column sum by the row count lies between bounds on the column |
| KMeans.MeanBetween | SerialCpp/kmeans.C:60-78 | each coordinate of a mean lies between the column's minimum and maximum |
| KMeans.ClusterMeanBetween | SerialCpp/kmeans.C:60-78 | each coordinate of a non-empty cluster's corrected mean lies between the column minimum and maximum of its members |
| KMeans.MeansAgreeOnFullBuffer | SerialCpp/kmeans.C:60-78 | the two means agree when the whole buffer is occupied |
| KMeans.GetMeanNoCoordinates | SerialCpp/kmeans.C:60-78 | for vectors without coordinates `getMean` divides nothing and returns the empty vector, whatever the buffer |
| KMeans.GetMeanCountsEmptySlots | SerialCpp/kmeans.C:65-75 | a buffer of length 2 holding one member 2 gives mean 1 as written and 2 when corrected |
| KMeans.Members | SerialCpp/kmeans.C:184-193 | the reference definition of a cluster: the elements whose closest centroid is that cluster, in element order, never more than the elements |
| KMeans.Lookup | SerialCpp/kmeans.C:186 | `elementToClusterIndex[e]` reads the stored index of a present key and 0 for an absent one, the value `operator[]` inserts |
| KMeans.MembersAreElements | SerialCpp/kmeans.C:184-193 | the members of a cluster are elements whose closest centroid is that cluster |
| KMeans.MembersAgree | SerialCpp/kmeans.C:184-193 | centroids that send every element to the same index make the same clusters |
| KMeans.SizesUpTo | SerialCpp/kmeans.C:184-193 | after `i` elements no cluster holds more than `i` |
| KMeans.BuffersUpTo | SerialCpp/kmeans.C:184-196 | the buffers after the first `i` elements of a pass: each element goes to the next free slot of its closest cluster; buffer count and buffer lengths never change |
| KMeans.IndexUpTo | SerialCpp/kmeans.C:184-196 | the map after the first `i` elements of a pass, overwriting (`map[e] = i`, line 195) or inserting only new keys (line 142); no key is ever removed |
| KMeans.ChangedUpTo | SerialCpp/kmeans.C:184-190 | the negated convergence flag after the first `i` elements; it is never raised before any element is looked at (the full characterisation is `PassChanged`) |
| KMeans.PassCluster | SerialCpp/kmeans.C:184-193 | after `i` elements, cluster `d`'s buffer starts with exactly the members among them in order, and its tail is untouched |
| KMeans.PassSizes | SerialCpp/kmeans.C:178-193 | after `i` elements the sizes add up to `i` |
| KMeans.PassKey | SerialCpp/kmeans.C:184-195 | after `i` elements the map has a key exactly for the old keys and the elements seen, and holds the closest index (or the old one for a keep-first insertion) |
| KMeans.PassLookup | SerialCpp/kmeans.C:184-195 | a lookup after `i` elements, stated without the map's domain |
| KMeans.PassChanged | SerialCpp/kmeans.C:185-190 | after `i` elements the flag is set if and only if one of them has a new index different from its stored one |
| KMeans.PassStep | SerialCpp/kmeans.C:184-196 | one loop body moves the buffers, sizes, map and flag from their values after `i` elements to those after `i + 1` |
| KMeans.PassLoop | SerialCpp/kmeans.C:184-196 | the loop leaves the values after all elements |
| KMeans.PassComplete | SerialCpp/kmeans.C:184-196 | after all elements the sizes add up to the element count, every buffer starts with its members, every element maps to its closest index, and the flag is set if and only if some index changed |
| KMeans.Assign | SerialCpp/kmeans.C:137-197 | a pass places every element in exactly the cluster of its closest centroid, with sizes adding up to the element count; the map gets the closest index (inserted only if absent in the first pass, overwritten in later ones); the flag is set if and only if some element's index changed |
| KMeans.UpdateCentroids | SerialCpp/kmeans.C:173-176 | every non-empty cluster's centroid moves to the mean of its members; an empty one stays |
| KMeans.ConsistentFits | SerialCpp/kmeans.C:129 | members of consistent clusters have the vectors' dimension |
| KMeans.Reassign | SerialCpp/kmeans.C:177-196 | a reassignment under new centroids yields consistent clusters and map, with the flag set if and only if some index changed |
| KMeans.Iterate | SerialCpp/kmeans.C:169-197 | an iteration keeps clusters and map consistent; when nothing changed, every non-empty cluster's centroid is its mean |
| KMeans.Settled | SerialCpp/kmeans.C:169-197 | if reassignment keeps every cluster's members, the new centroids are the means of the new clusters |
| KMeans.SettledCluster | SerialCpp/kmeans.C:173-193 | the same for one cluster |
| KMeans.RunKMeans | SerialCpp/kmeans.C:107-245 | a converged run leaves every element in the cluster of its first closest centroid, with matching sizes and map, so the self-check finds no mismatch, and every non-empty centroid is its cluster's mean |
| KMeansMain.GetRandomCentroids | SerialCpp/KMeans/main.cpp:17-49 | always `NUM_CLUSTERS` (5) centroids, each coordinate inside the bounding box |
| KMeans.SlotsKept | SerialCpp/kmeans.C:130-196 | a pass writes only elements into the buffers, so every slot keeps the vectors' dimension |
| KMeans.UpdateAsWritten | SerialCpp/kmeans.C:173-176 | the update as written: each centroid is the mean of its WHOLE buffer, one slot per element, stale and zero slots included, for every cluster; with no elements `getMean` itself gives the empty vector |
| KMeans.IterateAsWritten | SerialCpp/kmeans.C:169-197 | an iteration as written keeps clusters and map consistent, moves every centroid to the mean of its whole previous buffer, and when nothing changed no cluster changed its members |
| KMeans.RunKMeansAsWritten | SerialCpp/kmeans.C:107-245 | the run as written: a converged run leaves every element in the cluster of its first closest centroid with matching sizes and map, so the self-check at lines 237-245 finds no mismatch |
| KMeansMain.RunKMeans | SerialCpp/KMeans/main.cpp:98-206 | with `numClusters` equal to `NUM_CLUSTERS`, the run as written (whole-buffer means) that converges leaves every element in the cluster of its closest centroid with a matching map, as the final self-check expects, and every centroid has the vectors' dimension |
| KMeansMain.ClosestCanExceedFewerClusters | SerialCpp/KMeans/main.cpp:40-41 | with five centroids the closest index can be 4, past the buffers of a run with fewer clusters |

## Left out

- The eigen-solver `eigen.C`, the numpy/scikit-learn `spectral_clustering`, the plotting and graph-building script code, `main.C`, `rand_graph.py`, `visualize.py`, `utils.C` and `similarity_calc.h` are not part of this model: they are floating-point numerics, foreign libraries, file I/O, plotting or allocation.
- OpenMP pragmas: every loop is modelled sequentially. The parallel versions race on `min`, `max`, `mean`, `sizes` and the map.
- `distanceBetweenVectors` (`pow` and square root) is an abstract `Distance` function, and `rand()` is a sequence of factors in `[0, 1]`; `srand` seeding is left out.
- Floating point: weights, budgets, means and coordinates are exact reals. Rounding is not modelled. The division by zero that `getMean` performs on an empty buffer of vectors with `dim > 0` is modelled as `None` by `KMeans.GetMean`; the NaN it produces is not. With `dim == 0` nothing is divided and the result is the empty vector, as in the model.
- The pointer to the front of the C++ queue is used after `pop`. The model copies the item before popping, which is the evident intent.
- The verbose printing and file output of both k-means programs are left out. So is the timing code.
- KMeans.RunKMeans: the `while (!convergence)` loop need not terminate. The model stops after `fuel` iterations and returns `None` then, so a statement is made only about converged runs.
- KMeans.RunKMeans: the iteration uses the corrected `ClusterMean`, not the as-written `GetMean` (see Findings). The run as written is `KMeans.RunKMeansAsWritten`, on which `KMeansMain.RunKMeans` is built.
- KMeans.RunKMeansAsWritten: says nothing about where a converged run's centroids lie. As written they are means of whole buffers, stale slots included, so they need not be means of their members.
- KMeans.RunKMeans and KMeans.RunKMeansAsWritten: require at least one cluster when there are elements. The cluster count comes unchecked from `atoi(argv[3])` (SerialCpp/main.C:38) and is passed to `runKMeans` at SerialCpp/main.C:136; with none, the closest index is -1 and `clusters[-1][sizes[-1]++]` writes out of bounds.
- KMeans.Reassign, KMeans.Iterate and KMeans.IterateAsWritten: carry the same requirement, for the same reason.
- KMeansMain.RunKMeans: requires `numClusters == NUM_CLUSTERS`. With fewer clusters a closest index can pass the end of the cluster buffers. With more, the mean loop writes past the five centroids. Both are out-of-bounds accesses in the source.
- KMeans.Bounds and KMeans.RandomCentroids: require at least one node when `dim > 0`, since the source reads `nodes[0]`.
- SimilarityCpp.BuildEpsilonNeighborhood: says nothing about row 0 when the lent queue is non-empty on entry. Leftover items then join the first traversal.
- UnitBfs.UnitReachedIsHopBall: covers whole-number epsilons only. A fractional epsilon gives fractional budgets, which the level invariant does not describe; such runs are covered only by the soundness of `Reach.ReachedIsWithinEpsilon`.
- The adjacency-list branch takes neighbour lists whose entries are node numbers in range (`ListsInRange`). Out-of-range entries are undefined behaviour in the source.

## Findings

| source | as written | input that shows it | evidently intended | confidence | as-written member | corrected member |
|---|---|---|---|---|---|---|
| SerialCpp/kmeans.C:60-78 | `getMean(clusters[i])` divides the column sums by `cluster.size()`, which is `elements.size()` for every buffer (line 129), and also sums the stale or zero slots past `sizes[i]` | one element `[2.0]` and a second buffer slot holding `[0.0]`: as written the mean is `[1.0]`, the cluster's only member is `[2.0]` | the mean of the `sizes[i]` members of the cluster | not executed | KMeans.GetMeanCountsEmptySlots | KMeans.ClusterMean |
