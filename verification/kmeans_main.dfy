/** The stand-alone k-means program: its closest-centroid scan, mean and
    passes are those of module `KMeans`; it differs in drawing a fixed
    number of initial centroids whatever number of clusters is asked for. */
module KMeansMain {
  import opened Options
  import opened KMeans

  /** `NUM_CLUSTERS`. */
  const NumClusters: nat := 5

  /** `getRandomCentroids` of the stand-alone program: always `NumClusters`
      centroids inside the bounding box of the nodes. */
  method GetRandomCentroids(nodes: seq<Vector>, dim: nat, factors: seq<seq<real>>) returns (ret: seq<Vector>)
    requires |nodes| > 0 || dim == 0
    requires forall i :: 0 <= i < |nodes| ==> |nodes[i]| >= dim
    requires |factors| >= NumClusters
    requires forall i :: 0 <= i < NumClusters ==> |factors[i]| >= dim
    requires forall i, j :: 0 <= i < NumClusters && 0 <= j < dim ==> 0.0 <= factors[i][j] <= 1.0
    ensures |ret| == NumClusters
    ensures forall i :: 0 <= i < NumClusters ==> |ret[i]| == dim
    ensures forall i, j :: 0 <= i < NumClusters && 0 <= j < dim ==> InBox(nodes, j, ret[i][j])
  {
    ret := RandomCentroids(nodes, dim, NumClusters, factors);
  }

  /** `runKMeans` of the stand-alone program. With `NumClusters` centroids
      but `numClusters` cluster buffers, a closest index at or past
      `numClusters` indexes past the buffers and a `numClusters` above
      `NumClusters` writes past the centroids, so the two must agree. The
      centroids move to `getMean` of the whole cluster buffers, as written.
      The self-check at the end always runs; a converged result passes it. */
  method RunKMeans(elements: seq<Vector>, dim: nat, numClusters: nat, dist: Distance, factors: seq<seq<real>>, fuel: nat)
    returns (res: Option<Clustering>)
    requires numClusters == NumClusters
    requires |elements| > 0 || dim == 0
    requires forall i :: 0 <= i < |elements| ==> |elements[i]| == dim
    requires |factors| >= NumClusters
    requires forall i :: 0 <= i < NumClusters ==> |factors[i]| >= dim
    requires forall i, j :: 0 <= i < NumClusters && 0 <= j < dim ==> 0.0 <= factors[i][j] <= 1.0
    ensures res.Some? ==> Consistent(elements, dist, numClusters, res.value)
    ensures res.Some? ==> forall c :: 0 <= c < numClusters ==> |res.value.centroids[c]| == dim
  {
    res := RunKMeansAsWritten(elements, dim, NumClusters, dist, factors, fuel);
  }

  /** A distance that only tells equal vectors apart. */
  function Discrete(a: Vector, b: Vector): real {
    if a == b then 0.0 else 1.0
  }

  /** With the five centroids 0, 1, 2, 3, 4 on a line, the element 4 is
      closest to the last one: a run asking for fewer than five clusters
      would write this element to a cluster buffer that does not exist. */
  lemma ClosestCanExceedFewerClusters()
    ensures Closest([[0.0], [1.0], [2.0], [3.0], [4.0]], [4.0], Discrete) == NumClusters - 1
  {
    var cs: seq<Vector> := [[0.0], [1.0], [2.0], [3.0], [4.0]];
    var e: Vector := [4.0];
    forall j | 0 <= j < 4 ensures Discrete(cs[j], e) == 1.0 {
      assert cs[j][0] != e[0];
    }
    assert Discrete(cs[4], e) == 0.0;
    assert FirstMinimizer(cs, e, Discrete, 4);
    ClosestIsTheFirstMinimizer(cs, e, Discrete, 4);
  }
}
