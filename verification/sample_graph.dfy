/** The seven-node sample graph of the Python script and a four-node graph
    on which a larger epsilon reaches fewer nodes. */
module SampleGraph {
  import opened Matrices
  import opened Traversal
  import opened Rows
  import opened SimilarityPy
  import Reach

  /** The adjacency matrix the script builds from its adjacency lists
      0: 2 5, 1: 2 4 3, 2: 0 5 1, 3: 1 6, 4: 1 6, 5: 0 2, 6: 3 4. */
  const Sample: Matrix := [
    [0.0, 0.0, 1.0, 0.0, 0.0, 1.0, 0.0],
    [0.0, 0.0, 1.0, 1.0, 1.0, 0.0, 0.0],
    [1.0, 1.0, 0.0, 0.0, 0.0, 1.0, 0.0],
    [0.0, 1.0, 0.0, 0.0, 0.0, 0.0, 1.0],
    [0.0, 1.0, 0.0, 0.0, 0.0, 0.0, 1.0],
    [1.0, 0.0, 1.0, 0.0, 0.0, 0.0, 0.0],
    [0.0, 0.0, 0.0, 1.0, 1.0, 0.0, 0.0]
  ]

  lemma SampleShape()
    ensures IsSquare(Sample) && |Sample| == 7 && UnitWeights(Sample) && Symmetric(Sample)
  {
  }

  /** The entries of the sample matrix, row by row. */
  predicate IsSample(w: Matrix) {
    && |w| == 7 && IsSquare(w)
    && w[0] == [0.0, 0.0, 1.0, 0.0, 0.0, 1.0, 0.0]
    && w[1] == [0.0, 0.0, 1.0, 1.0, 1.0, 0.0, 0.0]
    && w[2] == [1.0, 1.0, 0.0, 0.0, 0.0, 1.0, 0.0]
    && w[3] == [0.0, 1.0, 0.0, 0.0, 0.0, 0.0, 1.0]
    && w[4] == [0.0, 1.0, 0.0, 0.0, 0.0, 0.0, 1.0]
    && w[5] == [1.0, 0.0, 1.0, 0.0, 0.0, 0.0, 0.0]
    && w[6] == [0.0, 0.0, 0.0, 1.0, 1.0, 0.0, 0.0]
  }

  lemma SampleMatches()
    ensures IsSample(Sample)
  {
  }

  /** Expanding the front item of a dense filtered traversal. */
  lemma Expand(w: Matrix, s: State)
    requires Valid(Filtered(w), s) && s.queue != []
    requires s.queue[0].node !in s.visited && s.queue[0].budget != 0.0
    ensures var u := s.queue[0].node;
      && Step(Filtered(w), s).queue
         == s.queue[1..] + DenseFrom(w, u, s.queue[0].budget, s.visited + {u}, true, 0)
      && Step(Filtered(w), s).visited == s.visited + {u}
  {
  }

  /** The item that expanding `u` pushes for candidate `m`, if any. */
  function Pushed(w: Matrix, u: nat, d: real, visited: set<nat>, m: nat): seq<Item>
    requires IsSquare(w) && u < |w| && m < |w|
  {
    if Admissible(w, u, d, visited, true, m) then [Item(m, d - w[u][m])] else []
  }

  /** The scan over a four-node graph, candidate by candidate. */
  lemma DenseFour(w: Matrix, u: nat, d: real, visited: set<nat>)
    requires IsSquare(w) && |w| == 4 && u < 4
    ensures DenseFrom(w, u, d, visited, true, 0)
         == Pushed(w, u, d, visited, 0) + (Pushed(w, u, d, visited, 1)
          + (Pushed(w, u, d, visited, 2) + Pushed(w, u, d, visited, 3)))
  {
    var t3 := DenseFrom(w, u, d, visited, true, 3);
    assert t3 == Pushed(w, u, d, visited, 3) + [] by { DenseUnfold(w, u, d, visited, true, 3); }
    assert t3 == Pushed(w, u, d, visited, 3);
    DenseUnfold(w, u, d, visited, true, 2);
    DenseUnfold(w, u, d, visited, true, 1);
    DenseUnfold(w, u, d, visited, true, 0);
  }

  /** The scan over a seven-node graph, candidate by candidate. */
  lemma DenseSeven(w: Matrix, u: nat, d: real, visited: set<nat>)
    requires IsSquare(w) && |w| == 7 && u < 7
    ensures DenseFrom(w, u, d, visited, true, 0)
         == Pushed(w, u, d, visited, 0) + (Pushed(w, u, d, visited, 1)
          + (Pushed(w, u, d, visited, 2) + (Pushed(w, u, d, visited, 3)
          + (Pushed(w, u, d, visited, 4) + (Pushed(w, u, d, visited, 5)
          + Pushed(w, u, d, visited, 6))))))
  {
    var t6 := DenseFrom(w, u, d, visited, true, 6);
    assert t6 == Pushed(w, u, d, visited, 6) + [] by { DenseUnfold(w, u, d, visited, true, 6); }
    assert t6 == Pushed(w, u, d, visited, 6);
    DenseUnfold(w, u, d, visited, true, 5);
    DenseUnfold(w, u, d, visited, true, 4);
    DenseUnfold(w, u, d, visited, true, 3);
    DenseUnfold(w, u, d, visited, true, 2);
    DenseUnfold(w, u, d, visited, true, 1);
    DenseUnfold(w, u, d, visited, true, 0);
  }

  lemma SampleUnit(w: Matrix)
    requires IsSample(w)
    ensures UnitWeights(w)
  {
    forall i, j | 0 <= i < 7 && 0 <= j < 7 ensures w[i][j] == 0.0 || w[i][j] == 1.0 {
      assert i == 0 || i == 1 || i == 2 || i == 3 || i == 4 || i == 5 || i == 6;
    }
  }

  /** With epsilon 1 the off-diagonal entries are minus the adjacency
      matrix, as the script's closing comparison expects. */
  lemma SampleEpsilonOne(w: Matrix)
    requires IsSample(w)
    ensures var sim := BuildEpsilonNeighborhood(w, 1.0);
      forall i, j :: 0 <= i < 7 && 0 <= j < 7 && i != j ==> sim[i][j] == -w[i][j]
  {
    SampleUnit(w);
    UnitEpsilonOneIsAdjacency(w);
  }

  /** With epsilon 1 row 0 has -1 at nodes 2 and 5 and the count 2 on its
      diagonal. */
  lemma SampleRowOne(w: Matrix)
    requires IsSample(w)
    ensures BuildEpsilonNeighborhood(w, 1.0)[0] == [2.0, 0.0, -1.0, 0.0, 0.0, -1.0, 0.0]
  {
    var sim := BuildEpsilonNeighborhood(w, 1.0);
    SampleEpsilonOne(w);
    DiagonalCountsNeighbours(w, 1.0, 0);
    var row := sim[0];
    assert row[1] == 0.0 && row[2] == -1.0 && row[3] == 0.0;
    assert row[4] == 0.0 && row[5] == -1.0 && row[6] == 0.0;
    assert Marked(row, 0) == {2, 5} by {
      forall j: nat | j in Marked(row, 0) ensures j == 2 || j == 5 {
        assert j < 7 && j != 0 && row[j] == -1.0;
      }
    }
  }

  /** Node 0 with budget 2 pushes its neighbours 2 and 5. */
  lemma SampleScanZero(w: Matrix)
    requires IsSample(w)
    ensures DenseFrom(w, 0, 2.0, {0}, true, 0) == [Item(2, 1.0), Item(5, 1.0)]
  {
    DenseSeven(w, 0, 2.0, {0});
    assert Pushed(w, 0, 2.0, {0}, 0) == [];
    assert Pushed(w, 0, 2.0, {0}, 1) == [];
    assert Pushed(w, 0, 2.0, {0}, 2) == [Item(2, 1.0)];
    assert Pushed(w, 0, 2.0, {0}, 3) == [];
    assert Pushed(w, 0, 2.0, {0}, 4) == [];
    assert Pushed(w, 0, 2.0, {0}, 5) == [Item(5, 1.0)];
    assert Pushed(w, 0, 2.0, {0}, 6) == [];
  }

  /** Node 2 with budget 1 pushes its unvisited neighbours 1 and 5. */
  lemma SampleScanTwo(w: Matrix)
    requires IsSample(w)
    ensures DenseFrom(w, 2, 1.0, {0, 2}, true, 0) == [Item(1, 0.0), Item(5, 0.0)]
  {
    DenseSeven(w, 2, 1.0, {0, 2});
    assert Pushed(w, 2, 1.0, {0, 2}, 0) == [];
    assert Pushed(w, 2, 1.0, {0, 2}, 1) == [Item(1, 0.0)];
    assert Pushed(w, 2, 1.0, {0, 2}, 2) == [];
    assert Pushed(w, 2, 1.0, {0, 2}, 3) == [];
    assert Pushed(w, 2, 1.0, {0, 2}, 4) == [];
    assert Pushed(w, 2, 1.0, {0, 2}, 5) == [Item(5, 0.0)];
    assert Pushed(w, 2, 1.0, {0, 2}, 6) == [];
  }

  /** Node 5 has no unvisited neighbour left. */
  lemma SampleScanFive(w: Matrix)
    requires IsSample(w)
    ensures DenseFrom(w, 5, 1.0, {0, 2, 5}, true, 0) == []
  {
    DenseSeven(w, 5, 1.0, {0, 2, 5});
    assert Pushed(w, 5, 1.0, {0, 2, 5}, 0) == [];
    assert Pushed(w, 5, 1.0, {0, 2, 5}, 1) == [];
    assert Pushed(w, 5, 1.0, {0, 2, 5}, 2) == [];
    assert Pushed(w, 5, 1.0, {0, 2, 5}, 3) == [];
    assert Pushed(w, 5, 1.0, {0, 2, 5}, 4) == [];
    assert Pushed(w, 5, 1.0, {0, 2, 5}, 5) == [];
    assert Pushed(w, 5, 1.0, {0, 2, 5}, 6) == [];
  }

  /** The first three iterations from node 0 with budget 2 on the sample. */
  lemma SampleStepZero(w: Matrix, s: State)
    requires IsSample(w) && Valid(Filtered(w), s)
    requires s.queue == [Item(0, 2.0)] && s.visited == {}
    ensures Step(Filtered(w), s).queue == [Item(2, 1.0), Item(5, 1.0)]
    ensures Step(Filtered(w), s).visited == {0}
  {
    SampleScanZero(w);
    assert s.visited + {0} == {0};
    Expand(w, s);
    assert s.queue[1..] == [];
  }

  lemma SampleStepTwo(w: Matrix, s: State)
    requires IsSample(w) && Valid(Filtered(w), s)
    requires s.queue == [Item(2, 1.0), Item(5, 1.0)] && s.visited == {0}
    ensures Step(Filtered(w), s).queue == [Item(5, 1.0), Item(1, 0.0), Item(5, 0.0)]
    ensures Step(Filtered(w), s).visited == {0, 2}
  {
    SampleScanTwo(w);
    assert s.visited + {2} == {0, 2};
    Expand(w, s);
    assert s.queue[1..] == [Item(5, 1.0)];
  }

  lemma SampleStepFive(w: Matrix, s: State)
    requires IsSample(w) && Valid(Filtered(w), s)
    requires s.queue == [Item(5, 1.0), Item(1, 0.0), Item(5, 0.0)] && s.visited == {0, 2}
    ensures Step(Filtered(w), s).queue == [Item(1, 0.0), Item(5, 0.0)]
    ensures Step(Filtered(w), s).visited == {0, 2, 5}
  {
    SampleScanFive(w);
    assert s.visited + {5} == {0, 2, 5};
    Expand(w, s);
    assert s.queue[1..] == [Item(1, 0.0), Item(5, 0.0)];
  }

  /** With epsilon 2 the traversal from node 0 also reaches node 1, two
      edges away through node 2. */
  lemma SampleTrace(w: Matrix)
    requires IsSample(w)
    ensures Reached(Filtered(w), 0, 2.0) == {0, 1, 2, 5}
  {
    var src := Filtered(w);
    var s0 := Start(0, 2.0, Zeros(7));
    SampleStepZero(w, s0);
    var s1 := Step(src, s0);
    SampleStepTwo(w, s1);
    var s2 := Step(src, s1);
    SampleStepFive(w, s2);
    var s3 := Step(src, s2);
    RunUnfold(src, s0);
    RunUnfold(src, s1);
    RunUnfold(src, s2);
    SampleTail(w, s3);
  }

  /** The two items left after three iterations carry no budget and only
      add node 1. */
  lemma SampleTail(w: Matrix, s: State)
    requires IsSample(w) && Valid(Filtered(w), s)
    requires s.queue == [Item(1, 0.0), Item(5, 0.0)] && s.visited == {0, 2, 5}
    ensures Run(Filtered(w), s).visited == {0, 1, 2, 5}
  {
    ZeroBudgetRun(Filtered(w), s);
    assert Nodes(s.queue) == {1, 5} by {
      assert s.queue[0].node == 1 && s.queue[1].node == 5;
    }
  }

  /** The two sample rows, on the sample matrix itself. */
  lemma SampleRows()
    ensures BuildEpsilonNeighborhood(Sample, 1.0)[0] == [2.0, 0.0, -1.0, 0.0, 0.0, -1.0, 0.0]
    ensures BuildEpsilonNeighborhood(Sample, 2.0)[0] == [3.0, -1.0, -1.0, 0.0, 0.0, -1.0, 0.0]
  {
    SampleMatches();
    SampleRowOne(Sample);
    SampleEpsilonTwo(Sample);
  }

  /** With epsilon 2 row 0 of the sample counts three neighbours: 1, 2 and 5. */
  lemma SampleEpsilonTwo(w: Matrix)
    requires IsSample(w)
    ensures var sim := BuildEpsilonNeighborhood(w, 2.0);
      && sim[0] == [3.0, -1.0, -1.0, 0.0, 0.0, -1.0, 0.0]
  {
    SampleTrace(w);
    var sim := BuildEpsilonNeighborhood(w, 2.0);
    assert |{0, 1, 2, 5}| == 4;
    assert |sim[0]| == 7;
  }

  /** A graph on which the traversal is not a shortest-path search: the
      walk 0, 1, 2, 3 has weight 3 while the edge from 0 to 2 weighs 10. */
  const Detour: Matrix := [
    [0.0, 1.0, 10.0, 0.0],
    [1.0, 0.0, 1.0, 0.0],
    [10.0, 1.0, 0.0, 1.0],
    [0.0, 0.0, 1.0, 0.0]
  ]

  predicate IsDetour(w: Matrix) {
    && |w| == 4 && IsSquare(w)
    && w[0] == [0.0, 1.0, 10.0, 0.0]
    && w[1] == [1.0, 0.0, 1.0, 0.0]
    && w[2] == [10.0, 1.0, 0.0, 1.0]
    && w[3] == [0.0, 0.0, 1.0, 0.0]
  }

  /** With budget 3 node 0 cannot afford the edge to node 2. */
  lemma DetourScanThree(w: Matrix)
    requires IsDetour(w)
    ensures DenseFrom(w, 0, 3.0, {0}, true, 0) == [Item(1, 2.0)]
  {
    DenseFour(w, 0, 3.0, {0});
    assert Pushed(w, 0, 3.0, {0}, 0) == [];
    assert Pushed(w, 0, 3.0, {0}, 1) == [Item(1, 2.0)];
    assert Pushed(w, 0, 3.0, {0}, 2) == [];
    assert Pushed(w, 0, 3.0, {0}, 3) == [];
  }

  /** Node 1 pushes node 2 with budget 1. */
  lemma DetourScanThreeOne(w: Matrix)
    requires IsDetour(w)
    ensures DenseFrom(w, 1, 2.0, {0, 1}, true, 0) == [Item(2, 1.0)]
  {
    DenseFour(w, 1, 2.0, {0, 1});
    assert Pushed(w, 1, 2.0, {0, 1}, 0) == [];
    assert Pushed(w, 1, 2.0, {0, 1}, 1) == [];
    assert Pushed(w, 1, 2.0, {0, 1}, 2) == [Item(2, 1.0)];
    assert Pushed(w, 1, 2.0, {0, 1}, 3) == [];
  }

  /** Node 2 pushes node 3 with budget 0. */
  lemma DetourScanThreeTwo(w: Matrix)
    requires IsDetour(w)
    ensures DenseFrom(w, 2, 1.0, {0, 1, 2}, true, 0) == [Item(3, 0.0)]
  {
    DenseFour(w, 2, 1.0, {0, 1, 2});
    assert Pushed(w, 2, 1.0, {0, 1, 2}, 0) == [];
    assert Pushed(w, 2, 1.0, {0, 1, 2}, 1) == [];
    assert Pushed(w, 2, 1.0, {0, 1, 2}, 2) == [];
    assert Pushed(w, 2, 1.0, {0, 1, 2}, 3) == [Item(3, 0.0)];
  }

  /** With budget 10 node 0 pushes node 1 and, spending everything, node 2. */
  lemma DetourScanTen(w: Matrix)
    requires IsDetour(w)
    ensures DenseFrom(w, 0, 10.0, {0}, true, 0) == [Item(1, 9.0), Item(2, 0.0)]
  {
    DenseFour(w, 0, 10.0, {0});
    assert Pushed(w, 0, 10.0, {0}, 0) == [];
    assert Pushed(w, 0, 10.0, {0}, 1) == [Item(1, 9.0)];
    assert Pushed(w, 0, 10.0, {0}, 2) == [Item(2, 0.0)];
    assert Pushed(w, 0, 10.0, {0}, 3) == [];
  }

  /** Node 1 pushes node 2 again, now with budget 8. */
  lemma DetourScanTenOne(w: Matrix)
    requires IsDetour(w)
    ensures DenseFrom(w, 1, 9.0, {0, 1}, true, 0) == [Item(2, 8.0)]
  {
    DenseFour(w, 1, 9.0, {0, 1});
    assert Pushed(w, 1, 9.0, {0, 1}, 0) == [];
    assert Pushed(w, 1, 9.0, {0, 1}, 1) == [];
    assert Pushed(w, 1, 9.0, {0, 1}, 2) == [Item(2, 8.0)];
    assert Pushed(w, 1, 9.0, {0, 1}, 3) == [];
  }

  lemma DetourStepsThree(w: Matrix, s: State)
    requires IsDetour(w) && Valid(Filtered(w), s)
    requires s.queue == [Item(0, 3.0)] && s.visited == {}
    ensures Step(Filtered(w), s).queue == [Item(1, 2.0)]
    ensures Step(Filtered(w), s).visited == {0}
  {
    DetourScanThree(w);
    assert s.visited + {0} == {0};
    Expand(w, s);
    assert s.queue[1..] == [];
  }

  lemma DetourStepsThreeOne(w: Matrix, s: State)
    requires IsDetour(w) && Valid(Filtered(w), s)
    requires s.queue == [Item(1, 2.0)] && s.visited == {0}
    ensures Step(Filtered(w), s).queue == [Item(2, 1.0)]
    ensures Step(Filtered(w), s).visited == {0, 1}
  {
    DetourScanThreeOne(w);
    assert s.visited + {1} == {0, 1};
    Expand(w, s);
    assert s.queue[1..] == [];
  }

  lemma DetourStepsThreeTwo(w: Matrix, s: State)
    requires IsDetour(w) && Valid(Filtered(w), s)
    requires s.queue == [Item(2, 1.0)] && s.visited == {0, 1}
    ensures Step(Filtered(w), s).queue == [Item(3, 0.0)]
  {
    DetourScanThreeTwo(w);
    assert s.visited + {2} == {0, 1, 2};
    Expand(w, s);
    assert s.queue[1..] == [];
  }

  /** From node 2 with budget 1, node 3 is pushed and then visited. */
  lemma DetourTailThreeTwo(w: Matrix, s: State)
    requires IsDetour(w) && Valid(Filtered(w), s)
    requires s.queue == [Item(2, 1.0)] && s.visited == {0, 1}
    ensures 3 in Run(Filtered(w), s).visited
  {
    var src := Filtered(w);
    DetourStepsThreeTwo(w, s);
    var next := Step(src, s);
    RunUnfold(src, s);
    ZeroBudgetRun(src, next);
    assert 3 in Nodes(next.queue) by { assert next.queue[0].node == 3; }
  }

  /** From node 1 with budget 2 the cheap walk goes on to node 3. */
  lemma DetourTailThree(w: Matrix, s: State)
    requires IsDetour(w) && Valid(Filtered(w), s)
    requires s.queue == [Item(1, 2.0)] && s.visited == {0}
    ensures 3 in Run(Filtered(w), s).visited
  {
    var src := Filtered(w);
    DetourStepsThreeOne(w, s);
    RunUnfold(src, s);
    DetourTailThreeTwo(w, Step(src, s));
  }

  /** With epsilon 3 node 3 is reached along the cheap walk. */
  lemma DetourTraceThree(w: Matrix)
    requires IsDetour(w)
    ensures 3 in Reached(Filtered(w), 0, 3.0)
  {
    var src := Filtered(w);
    var s0 := Start(0, 3.0, Zeros(4));
    DetourStepsThree(w, s0);
    RunUnfold(src, s0);
    DetourTailThree(w, Step(src, s0));
  }

  lemma DetourStepsTen(w: Matrix, s: State)
    requires IsDetour(w) && Valid(Filtered(w), s)
    requires s.queue == [Item(0, 10.0)] && s.visited == {}
    ensures Step(Filtered(w), s).queue == [Item(1, 9.0), Item(2, 0.0)]
    ensures Step(Filtered(w), s).visited == {0}
  {
    DetourScanTen(w);
    assert s.visited + {0} == {0};
    Expand(w, s);
    assert s.queue[1..] == [];
  }

  lemma DetourStepsTenOne(w: Matrix, s: State)
    requires IsDetour(w) && Valid(Filtered(w), s)
    requires s.queue == [Item(1, 9.0), Item(2, 0.0)] && s.visited == {0}
    ensures Step(Filtered(w), s).queue == [Item(2, 0.0), Item(2, 8.0)]
    ensures Step(Filtered(w), s).visited == {0, 1}
  {
    DetourScanTenOne(w);
    assert s.visited + {1} == {0, 1};
    Expand(w, s);
    assert s.queue[1..] == [Item(2, 0.0)];
  }

  /** With epsilon 10 the expensive edge queues node 2 with no budget left
      ahead of the cheap walk, so node 2 is expanded with budget 0, the later
      item for node 2 is dropped as visited, and node 3 is never reached. */
  lemma DetourTraceTen(w: Matrix)
    requires IsDetour(w)
    ensures 3 !in Reached(Filtered(w), 0, 10.0)
  {
    var src := Filtered(w);
    var s0 := Start(0, 10.0, Zeros(4));
    DetourStepsTen(w, s0);
    var s1 := Step(src, s0);
    DetourStepsTenOne(w, s1);
    var s2 := Step(src, s1);
    var s3 := Step(src, s2);
    assert s3.queue == [Item(2, 8.0)] && s3.visited == {0, 1, 2};
    var s4 := Step(src, s3);
    assert s4.queue == [] && s4.visited == {0, 1, 2};
    RunUnfold(src, s0);
    RunUnfold(src, s1);
    RunUnfold(src, s2);
    RunUnfold(src, s3);
  }

  /** Node 3 lies on a walk of weight 3 from node 0. */
  lemma DetourWalk(w: Matrix)
    requires IsDetour(w)
    ensures Reach.Within(w, 0, 3, 3.0)
  {
    var p: seq<nat> := [0, 1, 2, 3];
    assert Reach.IsWalk(w, p);
    assert Reach.Cost(w, p[..2]) == 1.0 by {
      assert p[..2][..1] == [0];
    }
    assert Reach.Cost(w, p[..3]) == 2.0 by {
      assert p[..3][..2] == p[..2];
    }
    assert Reach.Cost(w, p) == 3.0 by {
      assert p[..3] == p[..|p| - 1];
    }
  }

  /** A larger epsilon can reach fewer nodes: node 3, within distance 3 of
      node 0, is reached with epsilon 3 and missed with epsilon 10. */
  lemma LargerEpsilonCanReachLess()
    ensures Reach.Within(Detour, 0, 3, 3.0)
    ensures 3 in Reached(Filtered(Detour), 0, 3.0)
    ensures 3 !in Reached(Filtered(Detour), 0, 10.0)
  {
    DetourWalk(Detour);
    DetourTraceThree(Detour);
    DetourTraceTen(Detour);
  }
}
