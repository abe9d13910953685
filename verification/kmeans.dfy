/** The comparison-based parts of the k-means of the C++ pipeline: the
    closest-centroid scan, the bounding box the initial centroids are drawn
    from, the mean of a cluster, and the passes that sort the elements into
    clusters and decide convergence. The distance between two vectors and
    the random factors are inputs. */
module KMeans {
  import opened Options
  import opened Matrices

  type Vector = seq<real>

  /** The distance between two vectors; the source uses the Euclidean one. */
  type Distance = (Vector, Vector) -> real

  /** `k` is the first index of a centroid at the smallest distance from `e`. */
  predicate FirstMinimizer(cs: seq<Vector>, e: Vector, dist: Distance, k: int): (b: bool)
    ensures b ==> 0 <= k < |cs| && forall j :: 0 <= j < |cs| && dist(cs[j], e) == dist(cs[k], e) ==> k <= j
  {
    && 0 <= k < |cs|
    && (forall j :: 0 <= j < |cs| ==> dist(cs[k], e) <= dist(cs[j], e))
    && (forall j :: 0 <= j < k ==> dist(cs[k], e) < dist(cs[j], e))
  }

  /** What the scan knows after looking at the first `i` centroids. */
  predicate ScanState(cs: seq<Vector>, e: Vector, dist: Distance, i: nat, index: int, minD: real)
    requires i <= |cs|
  {
    && (index == -1 <==> i == 0)
    && (i > 0 ==>
      && 0 <= index < i
      && minD == dist(cs[index], e)
      && (forall j :: 0 <= j < i ==> minD <= dist(cs[j], e))
      && (forall j :: 0 <= j < index ==> minD < dist(cs[j], e)))
  }

  /** The loop of `getIndexOfClosestCentroid` from centroid `i` on: a
      centroid replaces the current choice when it is strictly closer, or
      when nothing is chosen yet. */
  function ScanFrom(cs: seq<Vector>, e: Vector, dist: Distance, i: nat, index: int, minD: real): (r: int)
    requires i <= |cs| && -1 <= index < i && (index == -1 <==> i == 0)
    ensures -1 <= r < |cs| && (r == -1 <==> |cs| == 0)
    decreases |cs| - i
  {
    if i == |cs| then index
    else
      var t := dist(cs[i], e);
      if t < minD || index == -1 then ScanFrom(cs, e, dist, i + 1, i, t)
      else ScanFrom(cs, e, dist, i + 1, index, minD)
  }

  /** A scan that starts from what is known about the first `i` centroids
      ends at the first minimizer. */
  lemma {:induction false} ScanFinds(cs: seq<Vector>, e: Vector, dist: Distance, i: nat, index: int, minD: real)
    requires i <= |cs| && ScanState(cs, e, dist, i, index, minD) && |cs| > 0
    ensures FirstMinimizer(cs, e, dist, ScanFrom(cs, e, dist, i, index, minD))
    decreases |cs| - i
  {
    if i < |cs| {
      var t := dist(cs[i], e);
      if t < minD || index == -1 {
        ScanFinds(cs, e, dist, i + 1, i, t);
      } else {
        ScanFinds(cs, e, dist, i + 1, index, minD);
      }
    }
  }

  /** `getIndexOfClosestCentroid`: -1 when there is no centroid, otherwise
      the first index of a closest centroid. */
  function Closest(cs: seq<Vector>, e: Vector, dist: Distance): (r: int)
    ensures -1 <= r < |cs|
    ensures r == -1 <==> |cs| == 0
  {
    ScanFrom(cs, e, dist, 0, -1, 0.0)
  }

  /** The scan returns the first minimizer, which is unique: `k` is it
      exactly when `k` is what the scan returns. */
  lemma ClosestIsTheFirstMinimizer(cs: seq<Vector>, e: Vector, dist: Distance, k: int)
    ensures FirstMinimizer(cs, e, dist, k) <==> |cs| > 0 && k == Closest(cs, e, dist)
  {
    if |cs| > 0 {
      ScanFinds(cs, e, dist, 0, -1, 0.0);
    }
  }

  /** The two scans at the start of `getRandomCentroids`: both bounds start
      at the first node, then every node lowers `lo` or raises `hi`. */
  method Bounds(nodes: seq<Vector>, dim: nat) returns (lo: Vector, hi: Vector)
    requires |nodes| > 0 || dim == 0
    requires forall i :: 0 <= i < |nodes| ==> |nodes[i]| >= dim
    ensures |lo| == dim && |hi| == dim
    ensures forall i, j :: 0 <= i < |nodes| && 0 <= j < dim ==> lo[j] <= nodes[i][j] <= hi[j]
    ensures forall j :: 0 <= j < dim ==> exists i :: 0 <= i < |nodes| && nodes[i][j] == lo[j]
    ensures forall j :: 0 <= j < dim ==> exists i :: 0 <= i < |nodes| && nodes[i][j] == hi[j]
  {
    if dim == 0 {
      return [], [];
    }
    lo := nodes[0][..dim];
    hi := nodes[0][..dim];
    var i := 0;
    while i < |nodes|
      invariant 0 <= i <= |nodes|
      invariant |lo| == dim && |hi| == dim
      invariant forall a, j :: 0 <= a < i && 0 <= j < dim ==> lo[j] <= nodes[a][j] <= hi[j]
      invariant forall j :: 0 <= j < dim ==> exists a :: 0 <= a < |nodes| && nodes[a][j] == lo[j]
      invariant forall j :: 0 <= j < dim ==> exists a :: 0 <= a < |nodes| && nodes[a][j] == hi[j]
    {
      var j := 0;
      while j < dim
        invariant 0 <= j <= dim
        invariant |lo| == dim && |hi| == dim
        invariant forall a, k :: 0 <= a < i && 0 <= k < dim ==> lo[k] <= nodes[a][k] <= hi[k]
        invariant forall k :: 0 <= k < j ==> lo[k] <= nodes[i][k] <= hi[k]
        invariant forall k :: 0 <= k < dim ==> exists a :: 0 <= a < |nodes| && nodes[a][k] == lo[k]
        invariant forall k :: 0 <= k < dim ==> exists a :: 0 <= a < |nodes| && nodes[a][k] == hi[k]
      {
        if nodes[i][j] < lo[j] {
          lo := lo[j := nodes[i][j]];
        }
        if nodes[i][j] > hi[j] {
          hi := hi[j := nodes[i][j]];
        }
        j := j + 1;
      }
      i := i + 1;
    }
  }

  /** `x` lies between two coordinates `j` of the nodes. */
  ghost predicate InBox(nodes: seq<Vector>, j: nat, x: real)
    requires forall i :: 0 <= i < |nodes| ==> |nodes[i]| > j
  {
    && (exists a :: 0 <= a < |nodes| && nodes[a][j] <= x)
    && (exists b :: 0 <= b < |nodes| && x <= nodes[b][j])
  }

  /** The coordinate `lo + f * (hi - lo)` of a random centroid. */
  function Scale(f: real, lo: real, hi: real): (r: real)
    ensures f == 0.0 ==> r == lo
    ensures f == 1.0 ==> r == hi
  {
    f * (hi - lo) + lo
  }

  lemma MulNonNegative(x: real, y: real)
    requires 0.0 <= x && 0.0 <= y
    ensures 0.0 <= x * y
  {
  }

  lemma ScaleBetween(f: real, lo: real, hi: real)
    requires 0.0 <= f <= 1.0 && lo <= hi
    ensures lo <= Scale(f, lo, hi) <= hi
  {
    var d := hi - lo;
    MulNonNegative(f, d);
    MulNonNegative(1.0 - f, d);
    assert (1.0 - f) * d == d - f * d;
  }

  /** `getRandomCentroids`: `numClusters` vectors whose coordinate `j` is
      `min[j] + factor * (max[j] - min[j])`; the factors stand for the
      values `rand() / RAND_MAX`, which lie between 0 and 1. */
  method RandomCentroids(nodes: seq<Vector>, dim: nat, numClusters: nat, factors: seq<seq<real>>) returns (ret: seq<Vector>)
    requires |nodes| > 0 || dim == 0
    requires forall i :: 0 <= i < |nodes| ==> |nodes[i]| >= dim
    requires |factors| >= numClusters
    requires forall i :: 0 <= i < numClusters ==> |factors[i]| >= dim
    requires forall i, j :: 0 <= i < numClusters && 0 <= j < dim ==> 0.0 <= factors[i][j] <= 1.0
    ensures |ret| == numClusters
    ensures forall i :: 0 <= i < numClusters ==> |ret[i]| == dim
    ensures forall i, j :: 0 <= i < numClusters && 0 <= j < dim ==> InBox(nodes, j, ret[i][j])
  {
    var lo, hi := Bounds(nodes, dim);
    ret := seq(numClusters, i requires 0 <= i < numClusters =>
      seq(dim, j requires 0 <= j < dim => Scale(factors[i][j], lo[j], hi[j])));
    forall i, j | 0 <= i < numClusters && 0 <= j < dim
      ensures InBox(nodes, j, ret[i][j])
    {
      var a :| 0 <= a < |nodes| && nodes[a][j] == lo[j];
      var b :| 0 <= b < |nodes| && nodes[b][j] == hi[j];
      ScaleBetween(factors[i][j], lo[j], hi[j]);
      assert ret[i][j] == Scale(factors[i][j], lo[j], hi[j]);
      assert nodes[a][j] <= ret[i][j] <= nodes[b][j];
    }
  }

  /** The sum of coordinate `j` over some rows. */
  function ColumnSum(rows: seq<Vector>, j: nat): real
    requires forall k :: 0 <= k < |rows| ==> |rows[k]| > j
  {
    if rows == [] then 0.0 else ColumnSum(rows[..|rows| - 1], j) + rows[|rows| - 1][j]
  }

  /** The smallest coordinate `j` among some rows. */
  function ColumnMin(rows: seq<Vector>, j: nat): (m: real)
    requires |rows| > 0 && forall k :: 0 <= k < |rows| ==> |rows[k]| > j
    ensures forall k :: 0 <= k < |rows| ==> m <= rows[k][j]
    ensures exists k :: 0 <= k < |rows| && rows[k][j] == m
  {
    if |rows| == 1 then rows[0][j]
    else
      var m := ColumnMin(rows[..|rows| - 1], j);
      var x := rows[|rows| - 1][j];
      if x < m then x else m
  }

  /** The largest coordinate `j` among some rows. */
  function ColumnMax(rows: seq<Vector>, j: nat): (m: real)
    requires |rows| > 0 && forall k :: 0 <= k < |rows| ==> |rows[k]| > j
    ensures forall k :: 0 <= k < |rows| ==> rows[k][j] <= m
    ensures exists k :: 0 <= k < |rows| && rows[k][j] == m
  {
    if |rows| == 1 then rows[0][j]
    else
      var m := ColumnMax(rows[..|rows| - 1], j);
      var x := rows[|rows| - 1][j];
      if x > m then x else m
  }

  /** A sum of `n` values between `lo` and `hi` lies between `n * lo` and
      `n * hi`. */
  lemma {:induction false} ColumnSumBetween(rows: seq<Vector>, j: nat, lo: real, hi: real)
    requires forall k :: 0 <= k < |rows| ==> |rows[k]| > j
    requires forall k :: 0 <= k < |rows| ==> lo <= rows[k][j] <= hi
    ensures |rows| as real * lo <= ColumnSum(rows, j) <= |rows| as real * hi
  {
    if rows != [] {
      var n := |rows| - 1;
      ColumnSumBetween(rows[..n], j, lo, hi);
      assert (n + 1) as real * lo == n as real * lo + lo;
      assert (n + 1) as real * hi == n as real * hi + hi;
    }
  }

  /** A value whose `n`-fold lies between `n * lo` and `n * hi` lies
      between `lo` and `hi`. */
  lemma ProductBetween(q: real, n: real, s: real, lo: real, hi: real)
    requires n > 0.0 && q * n == s && n * lo <= s <= n * hi
    ensures lo <= q <= hi
  {
    assert (q - lo) * n == q * n - n * lo;
    NonNegativeFactor(q - lo, n);
    assert (hi - q) * n == n * hi - q * n;
    NonNegativeFactor(hi - q, n);
  }

  lemma NonNegativeFactor(x: real, n: real)
    requires 0.0 < n && 0.0 <= x * n
    ensures 0.0 <= x
  {
  }

  /** Column `j` of a mean, times the number of rows, is the column sum. */
  lemma MeanEntry(m: Vector, rows: seq<Vector>, dim: nat, j: nat)
    requires |m| >= dim && forall k :: 0 <= k < |rows| ==> |rows[k]| >= dim
    requires MeanOf(m, rows, dim) && j < dim
    ensures m[j] * |rows| as real == ColumnSum(rows, j)
  {
  }

  /** `m` is the coordinate-wise mean of the rows: each coordinate times
      the number of rows is the coordinate sum. */
  predicate MeanOf(m: Vector, rows: seq<Vector>, dim: nat)
    requires |m| >= dim && forall k :: 0 <= k < |rows| ==> |rows[k]| >= dim
  {
    forall j :: 0 <= j < dim ==> m[j] * |rows| as real == ColumnSum(rows, j)
  }

  /** `getMean` as written: the coordinate sums of EVERY slot of the cluster
      buffer divided by the number of slots. The buffer always has one slot
      per element, so slots past the cluster's size (zeros or members of an
      earlier iteration) take part. The division runs once per coordinate:
      an empty buffer of vectors without coordinates gives the empty vector,
      while an empty buffer with `dim > 0` divides zero by zero, and that
      not-a-number result is `None`. */
  function GetMean(buffer: seq<Vector>, dim: nat): (m: Option<Vector>)
    requires forall k :: 0 <= k < |buffer| ==> |buffer[k]| >= dim
    ensures m.Some? <==> |buffer| > 0 || dim == 0
    ensures m.Some? ==> |m.value| == dim
    ensures m.Some? ==> MeanOf(m.value, buffer, dim)
  {
    if |buffer| == 0 then (if dim == 0 then Some([]) else None)
    else Some(seq(dim, j requires 0 <= j < dim => ColumnSum(buffer, j) / |buffer| as real))
  }

  /** With no elements the vectors have no coordinates: `getMean` divides
      nothing and returns the empty vector. */
  lemma GetMeanNoCoordinates(buffer: seq<Vector>)
    ensures GetMean(buffer, 0) == Some([])
  {
  }

  /** The mean of the `size` members at the front of the buffer; a cluster
      without members keeps its previous centroid. Each coordinate lies
      between the smallest and the largest member coordinate. */
  function ClusterMean(buffer: seq<Vector>, size: nat, dim: nat, previous: Vector): (m: Vector)
    requires size <= |buffer| && |previous| == dim
    requires forall k :: 0 <= k < size ==> |buffer[k]| >= dim
    ensures |m| == dim
    ensures size == 0 ==> m == previous
    ensures size > 0 ==> MeanOf(m, buffer[..size], dim)
  {
    if size == 0 then previous
    else
      var members := buffer[..size];
      seq(dim, j requires 0 <= j < dim => ColumnSum(members, j) / size as real)
  }

  /** Every coordinate of the mean of a non-empty cluster lies between the
      smallest and the largest coordinate of its members. */
  lemma ClusterMeanBetween(buffer: seq<Vector>, size: nat, dim: nat, previous: Vector, j: nat)
    requires 0 < size <= |buffer| && |previous| == dim && j < dim
    requires forall k :: 0 <= k < size ==> |buffer[k]| >= dim
    ensures var m := ClusterMean(buffer, size, dim, previous);
      ColumnMin(buffer[..size], j) <= m[j] <= ColumnMax(buffer[..size], j)
  {
    MeanBetween(ClusterMean(buffer, size, dim, previous), buffer[..size], dim, j);
  }

  /** Every coordinate of a mean of some rows lies between the smallest and
      the largest value of its column. */
  lemma MeanBetween(m: Vector, rows: seq<Vector>, dim: nat, j: nat)
    requires |m| >= dim && |rows| > 0 && forall k :: 0 <= k < |rows| ==> |rows[k]| >= dim
    requires MeanOf(m, rows, dim) && j < dim
    ensures ColumnMin(rows, j) <= m[j] <= ColumnMax(rows, j)
  {
    MeanEntry(m, rows, dim, j);
    SumBetween(rows, j, m[j], ColumnMin(rows, j), ColumnMax(rows, j));
  }

  /** A value whose `|rows|`-fold is the sum of column `j` lies within any
      bounds of that column. */
  lemma SumBetween(rows: seq<Vector>, j: nat, q: real, lo: real, hi: real)
    requires |rows| > 0 && forall k :: 0 <= k < |rows| ==> |rows[k]| > j
    requires forall k :: 0 <= k < |rows| ==> lo <= rows[k][j] <= hi
    requires q * |rows| as real == ColumnSum(rows, j)
    ensures lo <= q <= hi
  {
    ColumnSumBetween(rows, j, lo, hi);
    ProductBetween(q, |rows| as real, ColumnSum(rows, j), lo, hi);
  }

  /** The two means agree exactly when the buffer holds nothing but members. */
  lemma MeansAgreeOnFullBuffer(buffer: seq<Vector>, dim: nat, previous: Vector)
    requires |buffer| > 0 && |previous| == dim
    requires forall k :: 0 <= k < |buffer| ==> |buffer[k]| >= dim
    ensures GetMean(buffer, dim) == Some(ClusterMean(buffer, |buffer|, dim, previous))
  {
    assert buffer[..|buffer|] == buffer;
  }

  /** A cluster of two elements' buffer that holds one member, 2, and one
      untouched zero slot: the mean as written is 1, the members' mean is 2. */
  lemma GetMeanCountsEmptySlots()
    ensures GetMean([[2.0], [0.0]], 1) == Some([1.0])
    ensures ClusterMean([[2.0], [0.0]], 1, 1, [0.0]) == [2.0]
  {
    var b: seq<Vector> := [[2.0], [0.0]];
    assert b[..1] == [[2.0]] && b[..1][..0] == [] && b[..2][..1] == [[2.0]];
    assert ColumnSum(b[..1], 0) == 2.0;
    assert ColumnSum(b, 0) == 2.0;
    assert GetMean(b, 1).value[0] == 1.0;
    assert GetMean(b, 1).value == [1.0];
    assert ClusterMean(b, 1, 1, [0.0])[0] == 2.0;
    assert ClusterMean(b, 1, 1, [0.0]) == [2.0];
  }

  /** `elementToClusterIndex[e]`: the stored cluster of `e`; reading a
      missing key yields 0. */
  function Lookup(index: map<Vector, int>, e: Vector): (r: int)
    ensures e in index ==> r == index[e]
    ensures e !in index ==> r == 0
  {
    if e in index then index[e] else 0
  }

  /** The elements whose closest centroid is `c`, in their original order. */
  function Members(elements: seq<Vector>, cs: seq<Vector>, dist: Distance, c: int): (r: seq<Vector>)
    ensures |r| <= |elements|
  {
    if elements == [] then []
    else
      var e := elements[|elements| - 1];
      Members(elements[..|elements| - 1], cs, dist, c) + (if Closest(cs, e, dist) == c then [e] else [])
  }

  /** The members of cluster `c` are elements whose closest centroid is `c`. */
  lemma {:induction false} MembersAreElements(elements: seq<Vector>, cs: seq<Vector>, dist: Distance, c: int)
    ensures forall x :: x in Members(elements, cs, dist, c) ==> x in elements && Closest(cs, x, dist) == c
  {
    if elements != [] {
      var init := elements[..|elements| - 1];
      var e := elements[|elements| - 1];
      MembersAreElements(init, cs, dist, c);
      assert elements == init + [e];
    }
  }

  /** Two sets of centroids that send every element to the same index
      split the elements into the same clusters. */
  lemma {:induction false} MembersAgree(elements: seq<Vector>, cs: seq<Vector>, ds: seq<Vector>, dist: Distance, c: int)
    requires forall i :: 0 <= i < |elements| ==> Closest(cs, elements[i], dist) == Closest(ds, elements[i], dist)
    ensures Members(elements, cs, dist, c) == Members(elements, ds, dist, c)
  {
    if elements != [] {
      MembersAgree(elements[..|elements| - 1], cs, ds, dist, c);
    }
  }

  /** The total of the cluster sizes. */
  function SizeSum(sizes: seq<nat>): nat {
    if sizes == [] then 0 else SizeSum(sizes[..|sizes| - 1]) + sizes[|sizes| - 1]
  }

  lemma {:induction false} SizeSumIncrement(sizes: seq<nat>, c: nat)
    requires c < |sizes|
    ensures SizeSum(sizes[c := sizes[c] + 1]) == SizeSum(sizes) + 1
    ensures sizes[c] <= SizeSum(sizes)
  {
    var n := |sizes| - 1;
    if c < n {
      SizeSumIncrement(sizes[..n], c);
      assert sizes[c := sizes[c] + 1][..n] == sizes[..n][c := sizes[c] + 1];
    } else {
      assert sizes[c := sizes[c] + 1][..n] == sizes[..n];
    }
  }

  lemma {:induction false} SizeSumZero(n: nat)
    ensures SizeSum(seq(n, _ => 0)) == 0
  {
    if n > 0 {
      SizeSumZero(n - 1);
      assert seq(n, _ => 0)[..n - 1] == seq(n - 1, _ => 0);
    }
  }

  /** What stored index an element ends up with after a pass. */
  function Stored(index: map<Vector, int>, e: Vector, c: int, overwrite: bool): int {
    if overwrite || e !in index then c else index[e]
  }

  /** The cluster sizes after the first `i` elements of a pass over `k`
      cluster buffers. */
  function SizesUpTo(elements: seq<Vector>, cs: seq<Vector>, dist: Distance, k: nat, i: nat): (r: seq<nat>)
    requires i <= |elements| && |cs| <= k
    requires |cs| > 0 || |elements| == 0
    ensures |r| == k && forall c :: 0 <= c < k ==> r[c] <= i
  {
    if i == 0 then seq(k, _ => 0)
    else
      var s := SizesUpTo(elements, cs, dist, k, i - 1);
      var c := Closest(cs, elements[i - 1], dist);
      s[c := s[c] + 1]
  }

  /** The cluster buffers after the first `i` elements of a pass: element
      `i - 1` goes to the next free slot of its closest centroid's buffer. */
  function BuffersUpTo(elements: seq<Vector>, cs: seq<Vector>, dist: Distance, buffers0: seq<seq<Vector>>, i: nat)
    : (r: seq<seq<Vector>>)
    requires i <= |elements| && |cs| <= |buffers0|
    requires |cs| > 0 || |elements| == 0
    requires forall c :: 0 <= c < |buffers0| ==> |buffers0[c]| == |elements|
    ensures |r| == |buffers0| && forall c :: 0 <= c < |buffers0| ==> |r[c]| == |elements|
  {
    if i == 0 then buffers0
    else
      var b := BuffersUpTo(elements, cs, dist, buffers0, i - 1);
      var s := SizesUpTo(elements, cs, dist, |buffers0|, i - 1);
      var c := Closest(cs, elements[i - 1], dist);
      b[c := b[c][s[c] := elements[i - 1]]]
  }

  /** The map after the first `i` elements of a pass: the closest index of
      element `i - 1` is stored when overwriting or when it has no key yet. */
  function IndexUpTo(elements: seq<Vector>, cs: seq<Vector>, dist: Distance, index0: map<Vector, int>,
                     overwrite: bool, i: nat): (r: map<Vector, int>)
    requires i <= |elements|
    ensures index0.Keys <= r.Keys
  {
    if i == 0 then index0
    else
      var m := IndexUpTo(elements, cs, dist, index0, overwrite, i - 1);
      var e := elements[i - 1];
      if overwrite || e !in m then m[e := Closest(cs, e, dist)] else m
  }

  /** The change flag after the first `i` elements of a pass: raised when an
      element's closest index differs from what the map holds for it. */
  function ChangedUpTo(elements: seq<Vector>, cs: seq<Vector>, dist: Distance, index0: map<Vector, int>,
                       overwrite: bool, i: nat): (r: bool)
    requires i <= |elements|
    ensures r ==> i > 0
  {
    if i == 0 then false
    else
      var e := elements[i - 1];
      ChangedUpTo(elements, cs, dist, index0, overwrite, i - 1)
        || Closest(cs, e, dist) != Lookup(IndexUpTo(elements, cs, dist, index0, overwrite, i - 1), e)
  }

  /** After the first `i` elements of a pass, cluster `d` holds its members
      so far at the front of its buffer, in order, and the rest of its
      buffer is as it was. */
  lemma {:induction false} PassCluster(elements: seq<Vector>, cs: seq<Vector>, dist: Distance, buffers0: seq<seq<Vector>>,
                                       i: nat, d: nat)
    requires i <= |elements| && |cs| <= |buffers0|
    requires |cs| > 0 || |elements| == 0
    requires forall c :: 0 <= c < |buffers0| ==> |buffers0[c]| == |elements|
    requires d < |buffers0|
    ensures var b := BuffersUpTo(elements, cs, dist, buffers0, i); var s := SizesUpTo(elements, cs, dist, |buffers0|, i);
      && b[d][..s[d]] == Members(elements[..i], cs, dist, d)
      && b[d][s[d]..] == buffers0[d][s[d]..]
  {
    var b := BuffersUpTo(elements, cs, dist, buffers0, i);
    var s := SizesUpTo(elements, cs, dist, |buffers0|, i);
    if i == 0 {
      assert s[d] == 0;
    } else {
      var b' := BuffersUpTo(elements, cs, dist, buffers0, i - 1);
      var s' := SizesUpTo(elements, cs, dist, |buffers0|, i - 1);
      PassCluster(elements, cs, dist, buffers0, i - 1, d);
      var e := elements[i - 1];
      var c := Closest(cs, e, dist);
      assert b == b'[c := b'[c][s'[c] := e]];
      assert s == s'[c := s'[c] + 1];
      assert elements[..i][..i - 1] == elements[..i - 1];
      assert elements[..i][i - 1] == e;
      assert Members(elements[..i], cs, dist, d)
        == Members(elements[..i - 1], cs, dist, d) + (if c == d then [e] else []);
      if d == c {
        assert b[d][..s[d]] == b'[d][..s'[d]] + [e];
        assert b[d][s[d]..] == b'[d][s[d]..];
      } else {
        assert b[d] == b'[d] && s[d] == s'[d];
      }
    }
  }

  /** After the first `i` elements of a pass the sizes add up to `i`. */
  lemma {:induction false} PassSizes(elements: seq<Vector>, cs: seq<Vector>, dist: Distance, k: nat, i: nat)
    requires i <= |elements| && |cs| <= k
    requires |cs| > 0 || |elements| == 0
    ensures SizeSum(SizesUpTo(elements, cs, dist, k, i)) == i
  {
    if i == 0 {
      SizeSumZero(k);
    } else {
      var s := SizesUpTo(elements, cs, dist, k, i - 1);
      var c := Closest(cs, elements[i - 1], dist);
      PassSizes(elements, cs, dist, k, i - 1);
      SizeSumIncrement(s, c);
    }
  }

  /** After the first `i` elements of a pass the map has a key for each of
      them, holding its stored index, and every other key as it was. */
  lemma {:induction false} PassKey(elements: seq<Vector>, cs: seq<Vector>, dist: Distance, index0: map<Vector, int>,
                                   overwrite: bool, i: nat, v: Vector)
    requires i <= |elements|
    ensures var m := IndexUpTo(elements, cs, dist, index0, overwrite, i);
      && (v in m <==> v in index0 || v in elements[..i])
      && (v in m ==> m[v] == if v in elements[..i] then Stored(index0, v, Closest(cs, v, dist), overwrite) else index0[v])
  {
    if i > 0 {
      PassKey(elements, cs, dist, index0, overwrite, i - 1, v);
      assert elements[..i] == elements[..i - 1] + [elements[i - 1]];
    }
  }

  /** The index a pass has stored for `e` after its first `i` elements. */
  lemma PassLookup(elements: seq<Vector>, cs: seq<Vector>, dist: Distance, index0: map<Vector, int>,
                   overwrite: bool, i: nat, e: Vector)
    requires i <= |elements|
    ensures Lookup(IndexUpTo(elements, cs, dist, index0, overwrite, i), e)
         == if e in elements[..i] then Stored(index0, e, Closest(cs, e, dist), overwrite) else Lookup(index0, e)
  {
    PassKey(elements, cs, dist, index0, overwrite, i, e);
  }

  /** The flag step of the pass: the index the map holds for element
      `n - 1` differs from its closest centroid exactly when, for it or an
      equal earlier element, the index held before the pass did. */
  lemma ChangedStep(elements: seq<Vector>, cs: seq<Vector>, dist: Distance, index: map<Vector, int>,
                    current: map<Vector, int>, overwrite: bool, n: nat)
    requires 0 < n <= |elements|
    requires var e := elements[n - 1];
      Lookup(current, e) == if e in elements[..n - 1] then Stored(index, e, Closest(cs, e, dist), overwrite) else Lookup(index, e)
    ensures var e := elements[n - 1]; var c := Closest(cs, e, dist);
      (c != Lookup(current, e) || (exists k :: 0 <= k < n - 1 && Closest(cs, elements[k], dist) != Lookup(index, elements[k])))
      <==> (exists k :: 0 <= k < n && Closest(cs, elements[k], dist) != Lookup(index, elements[k]))
  {
    var i := n - 1;
    var e := elements[i];
    if e in elements[..i] {
      var k :| 0 <= k < i && elements[k] == e;
      if Closest(cs, e, dist) != Lookup(current, e) {
        assert Closest(cs, elements[k], dist) != Lookup(index, elements[k]);
      }
    }
  }

  /** After the first `i` elements of a pass the flag tells whether one of
      them had a different index before the pass. */
  lemma {:induction false} PassChanged(elements: seq<Vector>, cs: seq<Vector>, dist: Distance, index0: map<Vector, int>,
                                       overwrite: bool, i: nat)
    requires i <= |elements|
    ensures ChangedUpTo(elements, cs, dist, index0, overwrite, i)
      <==> exists k :: 0 <= k < i && Closest(cs, elements[k], dist) != Lookup(index0, elements[k])
  {
    if i > 0 {
      PassChanged(elements, cs, dist, index0, overwrite, i - 1);
      PassLookup(elements, cs, dist, index0, overwrite, i - 1, elements[i - 1]);
      ChangedStep(elements, cs, dist, index0, IndexUpTo(elements, cs, dist, index0, overwrite, i - 1), overwrite, i);
    }
  }

  /** The body of the loop of a pass for element `i`: written to the next
      free slot of its closest centroid's buffer, that cluster's size grown
      by one, its index stored, and the flag raised if the map held another
      index for it. */
  method PassStep(elements: seq<Vector>, cs: seq<Vector>, dist: Distance, buffers0: seq<seq<Vector>>,
                  index0: map<Vector, int>, overwrite: bool, i: nat,
                  buffers: seq<seq<Vector>>, sizes: seq<nat>, index: map<Vector, int>, changed: bool)
    returns (buffers': seq<seq<Vector>>, sizes': seq<nat>, index': map<Vector, int>, changed': bool)
    requires i < |elements| && |cs| <= |buffers0|
    requires |cs| > 0
    requires forall c :: 0 <= c < |buffers0| ==> |buffers0[c]| == |elements|
    requires buffers == BuffersUpTo(elements, cs, dist, buffers0, i)
    requires sizes == SizesUpTo(elements, cs, dist, |buffers0|, i)
    requires index == IndexUpTo(elements, cs, dist, index0, overwrite, i)
    requires changed == ChangedUpTo(elements, cs, dist, index0, overwrite, i)
    ensures buffers' == BuffersUpTo(elements, cs, dist, buffers0, i + 1)
    ensures sizes' == SizesUpTo(elements, cs, dist, |buffers0|, i + 1)
    ensures index' == IndexUpTo(elements, cs, dist, index0, overwrite, i + 1)
    ensures changed' == ChangedUpTo(elements, cs, dist, index0, overwrite, i + 1)
  {
    var e := elements[i];
    var c := Closest(cs, e, dist);
    changed' := changed || c != Lookup(index, e);
    buffers', sizes' := buffers[c := buffers[c][sizes[c] := e]], sizes[c := sizes[c] + 1];
    index' := if overwrite || e !in index then index[e := c] else index;
  }

  /** One pass over the elements. Every cluster size starts at 0 and every
      element is written to the next free slot of its closest centroid's
      buffer, its index being stored in the map: overwriting (the
      reassignment pass, `map[e] = i`) or only when the element has no
      index yet (the initial pass, `insert`). `changed` is the negation of
      the convergence flag: some element's closest centroid differs from the
      index the map held for it. */
  method Assign(elements: seq<Vector>, cs: seq<Vector>, dist: Distance, buffers: seq<seq<Vector>>,
                index: map<Vector, int>, overwrite: bool)
    returns (buffers': seq<seq<Vector>>, sizes: seq<nat>, index': map<Vector, int>, changed: bool)
    requires |cs| > 0 || |elements| == 0
    requires |cs| <= |buffers|
    requires forall c :: 0 <= c < |buffers| ==> |buffers[c]| == |elements|
    ensures |buffers'| == |buffers| && |sizes| == |buffers|
    ensures forall c :: 0 <= c < |buffers| ==> |buffers'[c]| == |elements|
    ensures SizeSum(sizes) == |elements|
    ensures forall c :: 0 <= c < |buffers| ==>
      && sizes[c] <= |elements|
      && buffers'[c][..sizes[c]] == Members(elements, cs, dist, c)
      && buffers'[c][sizes[c]..] == buffers[c][sizes[c]..]
    ensures forall i :: 0 <= i < |elements| ==>
      elements[i] in index' && index'[elements[i]] == Stored(index, elements[i], Closest(cs, elements[i], dist), overwrite)
    ensures forall v :: v in index' ==> v in index || v in elements
    ensures forall v :: v in index && v !in elements ==> v in index' && index'[v] == index[v]
    ensures changed <==> exists i :: 0 <= i < |elements| && Closest(cs, elements[i], dist) != Lookup(index, elements[i])
  {
    buffers', sizes, index', changed := PassLoop(elements, cs, dist, buffers, index, overwrite);
    PassComplete(elements, cs, dist, buffers, index, overwrite);
  }

  /** The loop of a pass, element by element. */
  method PassLoop(elements: seq<Vector>, cs: seq<Vector>, dist: Distance, buffers: seq<seq<Vector>>,
                  index: map<Vector, int>, overwrite: bool)
    returns (buffers': seq<seq<Vector>>, sizes: seq<nat>, index': map<Vector, int>, changed: bool)
    requires |cs| > 0 || |elements| == 0
    requires |cs| <= |buffers|
    requires forall c :: 0 <= c < |buffers| ==> |buffers[c]| == |elements|
    ensures buffers' == BuffersUpTo(elements, cs, dist, buffers, |elements|)
    ensures sizes == SizesUpTo(elements, cs, dist, |buffers|, |elements|)
    ensures index' == IndexUpTo(elements, cs, dist, index, overwrite, |elements|)
    ensures changed == ChangedUpTo(elements, cs, dist, index, overwrite, |elements|)
  {
    buffers', index', changed := buffers, index, false;
    sizes := seq(|buffers|, _ => 0);
    var i := 0;
    while i < |elements|
      invariant 0 <= i <= |elements|
      invariant buffers' == BuffersUpTo(elements, cs, dist, buffers, i)
      invariant sizes == SizesUpTo(elements, cs, dist, |buffers|, i)
      invariant index' == IndexUpTo(elements, cs, dist, index, overwrite, i)
      invariant changed == ChangedUpTo(elements, cs, dist, index, overwrite, i)
    {
      buffers', sizes, index', changed := PassStep(elements, cs, dist, buffers, index, overwrite, i, buffers', sizes, index', changed);
      i := i + 1;
    }
  }

  /** The state after the last element of a pass: the buffers hold the
      members of their clusters, the sizes add up to the number of
      elements, the map holds the stored index of every element and every
      other key as it was, and the flag tells whether some element's
      closest index differs from the map before the pass. */
  lemma PassComplete(elements: seq<Vector>, cs: seq<Vector>, dist: Distance, buffers: seq<seq<Vector>>,
                     index: map<Vector, int>, overwrite: bool)
    requires |cs| > 0 || |elements| == 0
    requires |cs| <= |buffers|
    requires forall c :: 0 <= c < |buffers| ==> |buffers[c]| == |elements|
    ensures var b := BuffersUpTo(elements, cs, dist, buffers, |elements|);
      var s := SizesUpTo(elements, cs, dist, |buffers|, |elements|);
      && SizeSum(s) == |elements|
      && forall c :: 0 <= c < |buffers| ==>
        && b[c][..s[c]] == Members(elements, cs, dist, c)
        && b[c][s[c]..] == buffers[c][s[c]..]
    ensures var m := IndexUpTo(elements, cs, dist, index, overwrite, |elements|);
      && (forall i :: 0 <= i < |elements| ==>
        elements[i] in m && m[elements[i]] == Stored(index, elements[i], Closest(cs, elements[i], dist), overwrite))
      && (forall v :: v in m ==> v in index || v in elements)
      && (forall v :: v in index && v !in elements ==> v in m && m[v] == index[v])
    ensures ChangedUpTo(elements, cs, dist, index, overwrite, |elements|)
      <==> exists i :: 0 <= i < |elements| && Closest(cs, elements[i], dist) != Lookup(index, elements[i])
  {
    var b := BuffersUpTo(elements, cs, dist, buffers, |elements|);
    var s := SizesUpTo(elements, cs, dist, |buffers|, |elements|);
    var m := IndexUpTo(elements, cs, dist, index, overwrite, |elements|);
    assert elements[..|elements|] == elements;
    forall c | 0 <= c < |buffers|
      ensures b[c][..s[c]] == Members(elements, cs, dist, c)
      ensures b[c][s[c]..] == buffers[c][s[c]..]
    {
      PassCluster(elements, cs, dist, buffers, |elements|, c);
    }
    PassSizes(elements, cs, dist, |buffers|, |elements|);
    forall v
      ensures v in m <==> v in index || v in elements
      ensures v in m ==> m[v] == if v in elements then Stored(index, v, Closest(cs, v, dist), overwrite) else index[v]
    {
      PassKey(elements, cs, dist, index, overwrite, |elements|, v);
    }
    PassChanged(elements, cs, dist, index, overwrite, |elements|);
  }

  /** Cluster `c` has `sizes[c]` members at the front of its buffer, each
      with at least `dim` coordinates. */
  ghost predicate MembersFit(buffers: seq<seq<Vector>>, sizes: seq<nat>, dim: nat, n: nat)
  {
    && n <= |buffers| && n <= |sizes|
    && forall c :: 0 <= c < n ==> sizes[c] <= |buffers[c]| && forall k :: 0 <= k < sizes[c] ==> |buffers[c][k]| >= dim
  }

  /** The centroid update of one iteration: every cluster's centroid moves
      to the mean of its members; a cluster without members keeps its
      centroid. */
  function UpdateCentroids(cs: seq<Vector>, buffers: seq<seq<Vector>>, sizes: seq<nat>, dim: nat): (r: seq<Vector>)
    requires MembersFit(buffers, sizes, dim, |cs|)
    requires forall c :: 0 <= c < |cs| ==> |cs[c]| == dim
    ensures |r| == |cs| && forall c :: 0 <= c < |cs| ==> |r[c]| == dim
    ensures forall c :: 0 <= c < |cs| && sizes[c] == 0 ==> r[c] == cs[c]
    ensures forall c :: 0 <= c < |cs| && sizes[c] > 0 ==> MeanOf(r[c], buffers[c][..sizes[c]], dim)
  {
    seq(|cs|, c requires 0 <= c < |cs| => ClusterMean(buffers[c], sizes[c], dim, cs[c]))
  }

  /** The result of a converged run. */
  datatype Clustering = Clustering(clusters: seq<seq<Vector>>, sizes: seq<nat>, centroids: seq<Vector>, index: map<Vector, int>)

  /** The clusters are what the centroids make of the elements and the map
      stores the closest centroid of every element. */
  ghost predicate Consistent(elements: seq<Vector>, dist: Distance, numClusters: nat, r: Clustering)
  {
    && |r.centroids| == numClusters && |r.clusters| == numClusters && |r.sizes| == numClusters
    && (forall c :: 0 <= c < numClusters ==> |r.clusters[c]| == |elements|)
    && SizeSum(r.sizes) == |elements|
    && (forall c :: 0 <= c < numClusters ==>
         r.sizes[c] <= |elements| && r.clusters[c][..r.sizes[c]] == Members(elements, r.centroids, dist, c))
    && (forall i :: 0 <= i < |elements| ==> Lookup(r.index, elements[i]) == Closest(r.centroids, elements[i], dist))
  }

  /** Every non-empty cluster's centroid is the mean of its members. */
  ghost predicate CentroidsAreMeans(dim: nat, r: Clustering)
    requires |r.sizes| == |r.centroids| && MembersFit(r.clusters, r.sizes, dim, |r.centroids|)
    requires forall c :: 0 <= c < |r.centroids| ==> |r.centroids[c]| == dim
  {
    forall c :: 0 <= c < |r.centroids| && r.sizes[c] > 0 ==> MeanOf(r.centroids[c], r.clusters[c][..r.sizes[c]], dim)
  }

  /** Members are elements, so they have `dim` coordinates. */
  lemma ConsistentFits(elements: seq<Vector>, dim: nat, dist: Distance, numClusters: nat, r: Clustering)
    requires forall i :: 0 <= i < |elements| ==> |elements[i]| == dim
    requires Consistent(elements, dist, numClusters, r)
    ensures MembersFit(r.clusters, r.sizes, dim, numClusters)
  {
    forall c, k | 0 <= c < numClusters && 0 <= k < r.sizes[c]
      ensures |r.clusters[c][k]| >= dim
    {
      MembersAreElements(elements, r.centroids, dist, c);
      assert r.clusters[c][k] == r.clusters[c][..r.sizes[c]][k];
      assert r.clusters[c][k] in elements;
    }
  }

  /** The reassignment pass of an iteration under the new centroids `next`,
      packaged with its result. */
  method Reassign(elements: seq<Vector>, dim: nat, numClusters: nat, dist: Distance, next: seq<Vector>, r: Clustering)
    returns (r': Clustering, changed: bool)
    requires forall i :: 0 <= i < |elements| ==> |elements[i]| == dim
    requires numClusters > 0 || |elements| == 0
    requires |next| == numClusters && |r.clusters| == numClusters
    requires forall c :: 0 <= c < numClusters ==> |r.clusters[c]| == |elements|
    ensures Consistent(elements, dist, numClusters, r') && r'.centroids == next
    ensures MembersFit(r'.clusters, r'.sizes, dim, numClusters)
    ensures changed <==> exists i :: 0 <= i < |elements| && Closest(next, elements[i], dist) != Lookup(r.index, elements[i])
  {
    var buffers, sizes, index;
    buffers, sizes, index, changed := Assign(elements, next, dist, r.clusters, r.index, true);
    r' := Clustering(buffers, sizes, next, index);
    ConsistentFits(elements, dim, dist, numClusters, r');
  }

  /** One iteration of the loop of `runKMeans`: the centroids move to the
      means of their clusters and every element is reassigned. When no
      element changes its index, the clusters are those the centroids were
      computed from, so the centroids are the means of the new clusters. */
  method Iterate(elements: seq<Vector>, dim: nat, numClusters: nat, dist: Distance, r: Clustering)
    returns (r': Clustering, changed: bool)
    requires forall i :: 0 <= i < |elements| ==> |elements[i]| == dim
    requires numClusters > 0 || |elements| == 0
    requires Consistent(elements, dist, numClusters, r)
    requires MembersFit(r.clusters, r.sizes, dim, numClusters)
    requires forall c :: 0 <= c < numClusters ==> |r.centroids[c]| == dim
    ensures Consistent(elements, dist, numClusters, r')
    ensures MembersFit(r'.clusters, r'.sizes, dim, numClusters)
    ensures forall c :: 0 <= c < numClusters ==> |r'.centroids[c]| == dim
    ensures !changed ==> CentroidsAreMeans(dim, r')
  {
    var next := UpdateCentroids(r.centroids, r.clusters, r.sizes, dim);
    r', changed := Reassign(elements, dim, numClusters, dist, next, r);
    if !changed {
      assert forall i :: 0 <= i < |elements| ==>
        Closest(r.centroids, elements[i], dist) == Closest(next, elements[i], dist);
      forall c | 0 <= c < numClusters
        ensures Members(elements, r.centroids, dist, c) == Members(elements, next, dist, c)
      {
        MembersAgree(elements, r.centroids, next, dist, c);
      }
      Settled(elements, dim, dist, numClusters, r, r');
    }
  }

  /** A reassignment that changes no index keeps every cluster, so the
      centroids it was computed from are the means of the new clusters. */
  lemma Settled(elements: seq<Vector>, dim: nat, dist: Distance, numClusters: nat, r: Clustering, r': Clustering)
    requires |r.centroids| == numClusters && |r'.centroids| == numClusters && |r'.sizes| == numClusters
    requires MembersFit(r.clusters, r.sizes, dim, numClusters) && MembersFit(r'.clusters, r'.sizes, dim, numClusters)
    requires forall c :: 0 <= c < numClusters ==> |r.centroids[c]| == dim
    requires r'.centroids == UpdateCentroids(r.centroids, r.clusters, r.sizes, dim)
    requires forall c :: 0 <= c < numClusters ==>
      && r.clusters[c][..r.sizes[c]] == Members(elements, r.centroids, dist, c)
      && r'.clusters[c][..r'.sizes[c]] == Members(elements, r'.centroids, dist, c)
    requires forall c :: 0 <= c < numClusters ==>
      Members(elements, r.centroids, dist, c) == Members(elements, r'.centroids, dist, c)
    ensures CentroidsAreMeans(dim, r')
  {
    forall c | 0 <= c < numClusters && r'.sizes[c] > 0
      ensures MeanOf(r'.centroids[c], r'.clusters[c][..r'.sizes[c]], dim)
    {
      SettledCluster(elements, dist, r.centroids, r.clusters, r.sizes, r'.centroids, r'.clusters, r'.sizes, dim, c);
    }
  }

  /** A cluster that keeps its members after the centroids moved to the
      means has its centroid at the mean of its members. */
  lemma SettledCluster(elements: seq<Vector>, dist: Distance, cs: seq<Vector>, buffers: seq<seq<Vector>>, sizes: seq<nat>,
                       ds: seq<Vector>, buffers': seq<seq<Vector>>, sizes': seq<nat>, dim: nat, c: nat)
    requires Members(elements, cs, dist, c) == Members(elements, ds, dist, c)
    requires MembersFit(buffers, sizes, dim, |cs|) && forall d :: 0 <= d < |cs| ==> |cs[d]| == dim
    requires ds == UpdateCentroids(cs, buffers, sizes, dim)
    requires c < |cs| && MembersFit(buffers', sizes', dim, |cs|) && 0 < sizes'[c]
    requires buffers[c][..sizes[c]] == Members(elements, cs, dist, c)
    requires buffers'[c][..sizes'[c]] == Members(elements, ds, dist, c)
    ensures MeanOf(ds[c], buffers'[c][..sizes'[c]], dim)
  {
    assert buffers'[c][..sizes'[c]] == buffers[c][..sizes[c]];
  }

  /** `runKMeans` with the means corrected to the mean of the members. The
      initial centroids come from `RandomCentroids`, the initial pass places
      every element, and then each iteration moves the centroids to the
      means and reassigns, until a pass changes nothing. The loop of the
      source need not terminate; after `fuel` iterations without
      convergence the result is `None`. A converged result is a fixed point:
      every element sits in the cluster of its first closest centroid, the
      map agrees (the self-check of the source finds no mismatch) and every
      non-empty cluster's centroid is its mean. */
  method RunKMeans(elements: seq<Vector>, dim: nat, numClusters: nat, dist: Distance, factors: seq<seq<real>>, fuel: nat)
    returns (res: Option<Clustering>)
    requires |elements| > 0 || dim == 0
    requires forall i :: 0 <= i < |elements| ==> |elements[i]| == dim
    requires numClusters > 0 || |elements| == 0
    requires |factors| >= numClusters
    requires forall i :: 0 <= i < numClusters ==> |factors[i]| >= dim
    requires forall i, j :: 0 <= i < numClusters && 0 <= j < dim ==> 0.0 <= factors[i][j] <= 1.0
    ensures res.Some? ==> Consistent(elements, dist, numClusters, res.value)
    ensures res.Some? ==> forall c :: 0 <= c < numClusters ==> |res.value.centroids[c]| == dim
    ensures res.Some? ==> MembersFit(res.value.clusters, res.value.sizes, dim, numClusters)
    ensures res.Some? ==> CentroidsAreMeans(dim, res.value)
  {
    var cs := RandomCentroids(elements, dim, numClusters, factors);
    var empty := seq(numClusters, _ => seq(|elements|, _ => Zeros(dim)));
    var buffers, sizes, index, _ := Assign(elements, cs, dist, empty, map[], false);
    var r := Clustering(buffers, sizes, cs, index);
    assert Consistent(elements, dist, numClusters, r);
    ConsistentFits(elements, dim, dist, numClusters, r);
    var converged := false;
    var f := fuel;
    while !converged && f > 0
      invariant Consistent(elements, dist, numClusters, r)
      invariant MembersFit(r.clusters, r.sizes, dim, numClusters)
      invariant forall c :: 0 <= c < numClusters ==> |r.centroids[c]| == dim
      invariant converged ==> CentroidsAreMeans(dim, r)
      decreases f
    {
      var changed;
      r, changed := Iterate(elements, dim, numClusters, dist, r);
      converged, f := !changed, f - 1;
    }
    if converged {
      res := Some(r);
    } else {
      res := None;
    }
  }

  /** Every slot of the first `n` cluster buffers has `dim` coordinates. */
  ghost predicate SlotsFit(buffers: seq<seq<Vector>>, dim: nat, n: nat)
  {
    n <= |buffers| && forall c, k :: 0 <= c < n && 0 <= k < |buffers[c]| ==> |buffers[c][k]| == dim
  }

  /** A pass writes only elements into the buffers, so every slot keeps
      `dim` coordinates. */
  lemma SlotsKept(elements: seq<Vector>, dim: nat, dist: Distance, numClusters: nat,
                  before: seq<seq<Vector>>, r: Clustering)
    requires forall i :: 0 <= i < |elements| ==> |elements[i]| == dim
    requires SlotsFit(before, dim, numClusters)
    requires forall c :: 0 <= c < numClusters ==> |before[c]| == |elements|
    requires Consistent(elements, dist, numClusters, r)
    requires forall c :: 0 <= c < numClusters ==> r.clusters[c][r.sizes[c]..] == before[c][r.sizes[c]..]
    ensures SlotsFit(r.clusters, dim, numClusters)
  {
    forall c, k | 0 <= c < numClusters && 0 <= k < |r.clusters[c]|
      ensures |r.clusters[c][k]| == dim
    {
      if k < r.sizes[c] {
        MembersAreElements(elements, r.centroids, dist, c);
        assert r.clusters[c][k] == r.clusters[c][..r.sizes[c]][k];
        assert r.clusters[c][k] in elements;
      } else {
        assert r.clusters[c][k] == r.clusters[c][r.sizes[c]..][k - r.sizes[c]];
      }
    }
  }

  /** The centroid update of `runKMeans` as written: centroid `c` becomes
      `getMean` of the whole buffer of cluster `c`, stale and zero slots
      included. A buffer has a slot per element; with no elements the
      vectors have no coordinates and `getMean` gives the empty vector. */
  function UpdateAsWritten(buffers: seq<seq<Vector>>, dim: nat, n: nat): (r: seq<Vector>)
    requires SlotsFit(buffers, dim, n)
    requires forall c :: 0 <= c < n ==> |buffers[c]| > 0 || dim == 0
    ensures |r| == n && forall c :: 0 <= c < n ==> |r[c]| == dim
    ensures forall c :: 0 <= c < n ==> MeanOf(r[c], buffers[c], dim)
  {
    seq(n, c requires 0 <= c < n => GetMean(buffers[c], dim).value)
  }

  /** One iteration of the loop of `runKMeans` as written: the centroids
      move to the means of the whole buffers and every element is
      reassigned. When no element changes its index, no cluster changes its
      members. */
  method IterateAsWritten(elements: seq<Vector>, dim: nat, numClusters: nat, dist: Distance, r: Clustering)
    returns (r': Clustering, changed: bool)
    requires forall i :: 0 <= i < |elements| ==> |elements[i]| == dim
    requires |elements| > 0 || dim == 0
    requires numClusters > 0 || |elements| == 0
    requires Consistent(elements, dist, numClusters, r)
    requires SlotsFit(r.clusters, dim, numClusters)
    ensures Consistent(elements, dist, numClusters, r')
    ensures SlotsFit(r'.clusters, dim, numClusters)
    ensures forall c :: 0 <= c < numClusters ==> |r'.centroids[c]| == dim
    ensures forall c :: 0 <= c < numClusters ==> MeanOf(r'.centroids[c], r.clusters[c], dim)
    ensures !changed ==> forall c :: 0 <= c < numClusters ==>
      Members(elements, r'.centroids, dist, c) == Members(elements, r.centroids, dist, c)
  {
    var next := UpdateAsWritten(r.clusters, dim, numClusters);
    var buffers, sizes, index;
    buffers, sizes, index, changed := Assign(elements, next, dist, r.clusters, r.index, true);
    r' := Clustering(buffers, sizes, next, index);
    SlotsKept(elements, dim, dist, numClusters, r.clusters, r');
    if !changed {
      assert forall i :: 0 <= i < |elements| ==>
        Closest(r.centroids, elements[i], dist) == Closest(next, elements[i], dist);
      forall c | 0 <= c < numClusters
        ensures Members(elements, next, dist, c) == Members(elements, r.centroids, dist, c)
      {
        MembersAgree(elements, r.centroids, next, dist, c);
      }
    }
  }

  /** `runKMeans` as written, with `getMean` over the whole buffers. The
      initial centroids come from `RandomCentroids`, the initial pass places
      every element, and each iteration moves the centroids and reassigns
      until a pass changes nothing; after `fuel` iterations without
      convergence the result is `None`. A converged result passes the
      self-check of the source: every element sits in the cluster of its
      first closest centroid and the map agrees. */
  method RunKMeansAsWritten(elements: seq<Vector>, dim: nat, numClusters: nat, dist: Distance,
                            factors: seq<seq<real>>, fuel: nat)
    returns (res: Option<Clustering>)
    requires |elements| > 0 || dim == 0
    requires forall i :: 0 <= i < |elements| ==> |elements[i]| == dim
    requires numClusters > 0 || |elements| == 0
    requires |factors| >= numClusters
    requires forall i :: 0 <= i < numClusters ==> |factors[i]| >= dim
    requires forall i, j :: 0 <= i < numClusters && 0 <= j < dim ==> 0.0 <= factors[i][j] <= 1.0
    ensures res.Some? ==> Consistent(elements, dist, numClusters, res.value)
    ensures res.Some? ==> forall c :: 0 <= c < numClusters ==> |res.value.centroids[c]| == dim
    ensures res.Some? ==> SlotsFit(res.value.clusters, dim, numClusters)
  {
    var cs := RandomCentroids(elements, dim, numClusters, factors);
    var empty := seq(numClusters, _ => seq(|elements|, _ => Zeros(dim)));
    var buffers, sizes, index, _ := Assign(elements, cs, dist, empty, map[], false);
    var r := Clustering(buffers, sizes, cs, index);
    assert Consistent(elements, dist, numClusters, r);
    SlotsKept(elements, dim, dist, numClusters, empty, r);
    var converged := false;
    var f := fuel;
    while !converged && f > 0
      invariant Consistent(elements, dist, numClusters, r)
      invariant SlotsFit(r.clusters, dim, numClusters)
      invariant forall c :: 0 <= c < numClusters ==> |r.centroids[c]| == dim
      decreases f
    {
      var changed;
      r, changed := IterateAsWritten(elements, dim, numClusters, dist, r);
      converged, f := !changed, f - 1;
    }
    if converged {
      res := Some(r);
    } else {
      res := None;
    }
  }
}
