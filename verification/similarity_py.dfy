/** `build_epsilon_neighborhood` of the Python implementation: every row is
    a fresh traversal on the dense weight matrix that skips neighbours already
    visited when it pushes them. */
module SimilarityPy {
  import opened Matrices
  import opened Traversal
  import opened Rows

  /** The similarity matrix: row `i` holds -1 at every other node the
      traversal from `i` visits, 0 elsewhere, and the number of those nodes
      on the diagonal. */
  function BuildEpsilonNeighborhood(g: Matrix, eps: real): (sim: Matrix)
    requires IsSquare(g)
    ensures |sim| == |g| && IsSquare(sim)
    ensures forall i, j :: 0 <= i < |g| && 0 <= j < |g| && i != j ==>
      sim[i][j] == if j in Reached(Filtered(g), i, eps) then -1.0 else 0.0
    ensures forall i :: 0 <= i < |g| ==>
      sim[i][i] == (|Reached(Filtered(g), i, eps)| - 1) as real && sim[i][i] >= 0.0
  {
    seq(|g|, i requires 0 <= i < |g| => FreshRow(Filtered(g), Zeros(|g|), i, eps))
  }

  /** The diagonal entry counts the -1 entries of its row. */
  lemma DiagonalCountsNeighbours(g: Matrix, eps: real, i: nat)
    requires IsSquare(g) && i < |g|
    ensures var sim := BuildEpsilonNeighborhood(g, eps);
      && Marked(sim[i], i) == Reached(Filtered(g), i, eps) - {i}
      && sim[i][i] == |Marked(sim[i], i)| as real
  {
    DiagonalCountsMarks(Filtered(g), i, eps);
  }

  /** With epsilon 0 no neighbour is pushed and the matrix is all zeros. */
  lemma EpsilonZeroIsZero(g: Matrix)
    requires IsSquare(g)
    ensures BuildEpsilonNeighborhood(g, 0.0) == ZeroMatrix(|g|)
  {
    var sim := BuildEpsilonNeighborhood(g, 0.0);
    forall i | 0 <= i < |g| ensures sim[i] == Zeros(|g|) {
      EpsilonZeroReachesSelf(Filtered(g), i);
    }
  }

  /** Every weight is 0 (no edge) or 1. */
  predicate UnitWeights(g: Matrix)
    requires IsSquare(g)
  {
    forall i, j :: 0 <= i < |g| && 0 <= j < |g| ==> g[i][j] == 0.0 || g[i][j] == 1.0
  }

  /** On a graph with unit weights and epsilon 1, the -1 entries of a row
      are exactly the edges of the node. */
  lemma UnitEpsilonOneIsAdjacency(g: Matrix)
    requires IsSquare(g) && UnitWeights(g)
    ensures var sim := BuildEpsilonNeighborhood(g, 1.0);
      forall i, j :: 0 <= i < |g| && 0 <= j < |g| && i != j ==>
        (sim[i][j] == -1.0 <==> g[i][j] == 1.0)
  {
    forall i | 0 <= i < |g|
      ensures forall j :: 0 <= j < |g| && j != i ==> (j in Reached(Filtered(g), i, 1.0) <==> g[i][j] == 1.0)
    {
      UnitReach(g, i);
    }
  }

  /** On unit weights with epsilon 1, the row's own node and the neighbours
      its first expansion pushes are all the traversal visits. */
  lemma UnitReach(g: Matrix, i: nat)
    requires IsSquare(g) && UnitWeights(g) && i < |g|
    ensures forall j :: 0 <= j < |g| && j != i ==> (j in Reached(Filtered(g), i, 1.0) <==> g[i][j] == 1.0)
  {
    UnitFirstStep(g, i);
    DenseNodes(g, i, 1.0, {i}, true, 0);
  }

  /** The first expansion pushes items with budget 0, which add only their
      own nodes. */
  lemma UnitFirstStep(g: Matrix, i: nat)
    requires IsSquare(g) && UnitWeights(g) && i < |g|
    ensures Reached(Filtered(g), i, 1.0) == {i} + Nodes(DenseFrom(g, i, 1.0, {i}, true, 0))
  {
    var src := Filtered(g);
    var s0 := Start(i, 1.0, Zeros(|g|));
    var s1 := Step(src, s0);
    var pushed := DenseFrom(g, i, 1.0, {i}, true, 0);
    assert s1.queue == pushed && s1.visited == {i};
    UnitBudgets(g, i);
    ZeroBudgetRun(src, s1);
    RunUnfold(src, s0);
  }

  /** With unit weights and budget 1 every pushed item has budget 0. */
  lemma UnitBudgets(g: Matrix, i: nat)
    requires IsSquare(g) && UnitWeights(g) && i < |g|
    ensures var pushed := DenseFrom(g, i, 1.0, {i}, true, 0);
      forall k :: 0 <= k < |pushed| ==> pushed[k].budget == 0.0
  {
  }
}
