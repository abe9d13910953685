/** `preserve_only_connections_in_graph`: a copy of the graph in which every
    edge between nodes of different clusters is removed. */
module ClusterFilter {
  import opened Matrices

  /** The reference definition: entry `(i, j)` survives when both ends carry
      the same label and is 0 otherwise. */
  function Keep(g: Matrix, labels: seq<int>): (r: Matrix)
    requires IsSquare(g) && |labels| >= |g|
    ensures |r| == |g| && IsSquare(r)
  {
    seq(|g|, i requires 0 <= i < |g| =>
      seq(|g|, j requires 0 <= j < |g| => if labels[i] != labels[j] then 0.0 else g[i][j]))
  }

  /** `m` with entry `(i, j)` replaced by `v`. */
  function Set(m: Matrix, i: nat, j: nat, v: real): (r: Matrix)
    requires IsSquare(m) && i < |m| && j < |m|
    ensures |r| == |m| && IsSquare(r)
    ensures forall a, b :: 0 <= a < |m| && 0 <= b < |m| ==>
      r[a][b] == if a == i && b == j then v else m[a][b]
  {
    m[i := m[i][j := v]]
  }

  /** The pairs the two nested loops have passed when the outer one is at
      `node` and the inner one at `nb`. */
  predicate Done(node: nat, nb: nat, a: nat, b: nat) {
    a < node || (a == node && b < nb)
  }

  /** The loops of the source on a copy of the graph: for every ordered pair
      of nodes with different labels both `(node, neighbor)` and
      `(neighbor, node)` are set to 0. The input is a value and stays as it
      was. */
  method PreserveOnlyConnections(g: Matrix, labels: seq<int>) returns (s: Matrix)
    requires IsSquare(g) && |labels| >= |g|
    ensures |s| == |g| && IsSquare(s)
    ensures forall i, j :: 0 <= i < |g| && 0 <= j < |g| ==>
      s[i][j] == if labels[i] != labels[j] then 0.0 else g[i][j]
    ensures s == Keep(g, labels)
  {
    s := g;
    var n := |g|;
    var node := 0;
    while node < n
      invariant 0 <= node <= n
      invariant |s| == n && IsSquare(s)
      invariant forall a, b :: 0 <= a < n && 0 <= b < n ==>
        s[a][b] == if labels[a] != labels[b] && (Done(node, 0, a, b) || Done(node, 0, b, a)) then 0.0 else g[a][b]
    {
      var nb := 0;
      while nb < n
        invariant 0 <= nb <= n
        invariant |s| == n && IsSquare(s)
        invariant forall a, b :: 0 <= a < n && 0 <= b < n ==>
          s[a][b] == if labels[a] != labels[b] && (Done(node, nb, a, b) || Done(node, nb, b, a)) then 0.0 else g[a][b]
      {
        if labels[node] != labels[nb] {
          s := Set(s, node, nb, 0.0);
          s := Set(s, nb, node, 0.0);
        }
        nb := nb + 1;
      }
      node := node + 1;
    }
    assert forall a, b :: 0 <= a < n && 0 <= b < n ==> Done(n, 0, a, b);
    var k := Keep(g, labels);
    assert forall a :: 0 <= a < n ==> s[a] == k[a];
  }

  /** Filtering twice with the same labels is filtering once. */
  lemma KeepIdempotent(g: Matrix, labels: seq<int>)
    requires IsSquare(g) && |labels| >= |g|
    ensures Keep(Keep(g, labels), labels) == Keep(g, labels)
  {
    var k := Keep(g, labels);
    var kk := Keep(k, labels);
    assert forall i :: 0 <= i < |g| ==> kk[i] == k[i];
  }

  /** The filtered graph is a subgraph: a non-zero entry is an edge of the
      input with the same weight, and its two ends share a label. */
  lemma KeepSubgraph(g: Matrix, labels: seq<int>)
    requires IsSquare(g) && |labels| >= |g|
    ensures var k := Keep(g, labels);
      forall i, j :: 0 <= i < |g| && 0 <= j < |g| && k[i][j] != 0.0 ==>
        k[i][j] == g[i][j] && labels[i] == labels[j]
  {
  }

  /** Edges inside one cluster are kept as they are. */
  lemma KeepWithinCluster(g: Matrix, labels: seq<int>)
    requires IsSquare(g) && |labels| >= |g|
    ensures var k := Keep(g, labels);
      forall i, j :: 0 <= i < |g| && 0 <= j < |g| && labels[i] == labels[j] ==> k[i][j] == g[i][j]
  {
  }

  /** A symmetric graph stays symmetric. */
  lemma KeepSymmetric(g: Matrix, labels: seq<int>)
    requires IsSquare(g) && |labels| >= |g| && Symmetric(g)
    ensures Symmetric(Keep(g, labels))
  {
  }

  /** With one label for every node nothing is removed. */
  lemma KeepOneCluster(g: Matrix, labels: seq<int>)
    requires IsSquare(g) && |labels| >= |g|
    requires forall i :: 0 <= i < |g| ==> labels[i] == labels[0]
    ensures Keep(g, labels) == g
  {
    var k := Keep(g, labels);
    assert forall i :: 0 <= i < |g| ==> k[i] == g[i];
  }
}
