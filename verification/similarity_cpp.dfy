/** The C++ builder: `_recursive_laplacian_bfs` writes one row of a shared
    similarity matrix in place, using a queue and a visited set that the
    caller allocates once and hands to every call, and
    `build_epsilon_neighborhood` calls it for the rows `0 .. num_nodes - 1`
    with an integer epsilon. */
module SimilarityCpp {
  import opened Matrices
  import opened Traversal
  import opened FirstWins
  import opened Rows
  import SimilarityPy

  /** The queue and visited set a caller lends to the traversal. */
  datatype Scratch = Scratch(queue: seq<Item>, visited: set<nat>)

  /** The similarity matrix and the scratch space after a call. */
  datatype Outcome = Outcome(sim: Matrix, scratch: Scratch)

  predicate ScratchInRange(src: Source, sc: Scratch) {
    forall k :: 0 <= k < |sc.queue| ==> sc.queue[k].node < Size(src)
  }

  /** The state a call for row `curr` starts in: the start item is pushed
      behind whatever the lent queue still holds, the visited set is cleared
      and the counter starts at -1. */
  function Entry(sim: Matrix, curr: nat, eps: real, sc: Scratch): (r: State)
    requires curr < |sim|
    ensures |r.queue| == |sc.queue| + 1 && r.queue[..|sc.queue|] == sc.queue && r.queue[|sc.queue|] == Item(curr, eps)
    ensures r.visited == {} && r.count == |r.visited| - 1 && r.row == sim[curr]
  {
    State(sc.queue + [Item(curr, eps)], {}, -1, sim[curr])
  }

  /** What the loop of a call does from its entry state: the row is visited,
      the counter ends one below the number of visited nodes and exactly the
      visited entries of the row become -1. */
  lemma EntryRun(src: Source, sim: Matrix, curr: nat, eps: real, sc: Scratch)
    requires WellFormed(src) && IsSquare(sim) && |sim| == Size(src) && curr < |sim|
    requires ScratchInRange(src, sc)
    ensures Valid(src, Entry(sim, curr, eps, sc))
    ensures var fin := Run(src, Entry(sim, curr, eps, sc));
      && curr in fin.visited
      && fin.count == |fin.visited| - 1
      && forall j :: 0 <= j < |sim| ==> fin.row[j] == if j in fin.visited then -1.0 else sim[curr][j]
  {
    var s0 := Entry(sim, curr, eps, sc);
    forall k | 0 <= k < |s0.queue| ensures s0.queue[k].node < Size(src) {
      if k < |sc.queue| {
        assert s0.queue[k] == s0.queue[..|sc.queue|][k];
      }
    }
    RunCovers(src, s0);
    RunCount(src, s0);
    RunRow(src, s0);
  }

  /** From an empty lent queue a call runs the traversal of a fresh row. */
  lemma EntryFresh(src: Source, sim: Matrix, curr: nat, eps: real, sc: Scratch)
    requires WellFormed(src) && IsSquare(sim) && |sim| == Size(src) && curr < |sim|
    requires ScratchInRange(src, sc)
    ensures Valid(src, Entry(sim, curr, eps, sc))
    ensures var fin := Run(src, Entry(sim, curr, eps, sc));
      sc.queue == [] ==>
      && fin.visited == Reached(src, curr, eps)
      && fin.row[curr := fin.count as real] == FreshRow(src, sim[curr], curr, eps)
  {
    var s0 := Entry(sim, curr, eps, sc);
    assert Valid(src, s0);
    if sc.queue == [] {
      assert s0 == Start(curr, eps, sim[curr]);
      RunCanon(src, src, s0, Start(curr, eps, Zeros(Size(src))));
    }
  }

  /** One call of the traversal for row `curr`: the loop runs from the entry
      state, the counter is written to the diagonal and the queue is left
      empty. */
  function TraverseRow(src: Source, sim: Matrix, curr: nat, eps: real, sc: Scratch): (o: Outcome)
    requires WellFormed(src) && IsSquare(sim) && |sim| == Size(src) && curr < |sim|
    requires ScratchInRange(src, sc)
    ensures |o.sim| == |sim| && IsSquare(o.sim)
    ensures o.scratch.queue == []
    ensures forall r :: 0 <= r < |sim| && r != curr ==> o.sim[r] == sim[r]
    ensures curr in o.scratch.visited
    ensures forall v :: v in o.scratch.visited ==> v < |sim|
    ensures o.sim[curr][curr] == (|o.scratch.visited| - 1) as real
    ensures forall j :: 0 <= j < |sim| && j != curr ==>
      o.sim[curr][j] == if j in o.scratch.visited then -1.0 else sim[curr][j]
    ensures sc.queue == [] ==>
      && o.scratch.visited == Reached(src, curr, eps)
      && o.sim[curr] == FreshRow(src, sim[curr], curr, eps)
  {
    EntryRun(src, sim, curr, eps, sc);
    EntryFresh(src, sim, curr, eps, sc);
    var fin := Run(src, Entry(sim, curr, eps, sc));
    Outcome(sim[curr := fin.row[curr := fin.count as real]], Scratch([], fin.visited))
  }

  /** `build_epsilon_neighborhood` read sequentially: one traversal per row,
      in increasing row order, sharing one scratch queue and visited set.
      A queue left non-empty by an earlier caller can only disturb row 0. */
  method BuildEpsilonNeighborhood(src: Source, sim: Matrix, eps: int, sc: Scratch) returns (out: Matrix, sc': Scratch)
    requires WellFormed(src) && IsSquare(sim) && |sim| == Size(src)
    requires ScratchInRange(src, sc)
    ensures |out| == |sim| && IsSquare(out)
    ensures sc'.queue == [] || |sim| == 0
    ensures forall r :: 0 <= r < |sim| && (r > 0 || sc.queue == []) ==>
      out[r] == FreshRow(src, sim[r], r, eps as real)
  {
    out, sc' := sim, sc;
    var n := 0;
    while n < |sim|
      invariant 0 <= n <= |sim|
      invariant |out| == |sim| && IsSquare(out)
      invariant ScratchInRange(src, sc')
      invariant n > 0 ==> sc'.queue == []
      invariant n == 0 ==> sc' == sc
      invariant forall r :: n <= r < |sim| ==> out[r] == sim[r]
      invariant forall r :: 0 <= r < n && (r > 0 || sc.queue == []) ==>
        out[r] == FreshRow(src, sim[r], r, eps as real)
    {
      var o := TraverseRow(src, out, n, eps as real, sc');
      out, sc' := o.sim, o.scratch;
      n := n + 1;
    }
  }

  /** The traversal run for the rows listed in `order`, one after another. */
  function DriveOrder(src: Source, sim: Matrix, eps: real, sc: Scratch, order: seq<nat>): (o: Outcome)
    requires WellFormed(src) && IsSquare(sim) && |sim| == Size(src) && ScratchInRange(src, sc)
    requires forall k :: 0 <= k < |order| ==> order[k] < |sim|
    ensures |o.sim| == |sim| && IsSquare(o.sim) && ScratchInRange(src, o.scratch)
    ensures order != [] ==> o.scratch.queue == []
    decreases |order|
  {
    if order == [] then Outcome(sim, sc)
    else
      var o := TraverseRow(src, sim, order[0], eps, sc);
      DriveOrder(src, o.sim, eps, o.scratch, order[1..])
  }

  predicate Distinct(order: seq<nat>) {
    forall a, b :: 0 <= a < b < |order| ==> order[a] != order[b]
  }

  /** Driving the rows of a list without repeats from an empty queue leaves
      row `r` as a fresh traversal writes it when it is listed and untouched
      otherwise: no row depends on another. */
  lemma {:induction false} DriveOrderRow(src: Source, sim: Matrix, eps: real, sc: Scratch, order: seq<nat>, r: nat)
    requires WellFormed(src) && IsSquare(sim) && |sim| == Size(src) && ScratchInRange(src, sc)
    requires forall k :: 0 <= k < |order| ==> order[k] < |sim|
    requires Distinct(order) && sc.queue == [] && r < |sim|
    ensures DriveOrder(src, sim, eps, sc, order).sim[r] == if r in order then FreshRow(src, sim[r], r, eps) else sim[r]
    decreases |order|
  {
    if order != [] {
      var o := TraverseRow(src, sim, order[0], eps, sc);
      var rest := order[1..];
      assert DriveOrder(src, sim, eps, sc, order) == DriveOrder(src, o.sim, eps, o.scratch, rest);
      DistinctTail(order);
      DriveOrderRow(src, o.sim, eps, o.scratch, rest, r);
    }
  }

  /** The tail of a list without repeats has none and misses the head. */
  lemma DistinctTail(order: seq<nat>)
    requires Distinct(order) && order != []
    ensures Distinct(order[1..]) && order[0] !in order[1..]
    ensures forall r :: r in order <==> r == order[0] || r in order[1..]
  {
    var rest := order[1..];
    forall a, b | 0 <= a < b < |rest| ensures rest[a] != rest[b] {
      assert rest[a] == order[a + 1] && rest[b] == order[b + 1];
    }
    forall k | 0 <= k < |rest| ensures rest[k] != order[0] {
      assert rest[k] == order[k + 1];
    }
    assert order == [order[0]] + rest;
  }

  /** Every row at once. */
  lemma DriveOrderRows(src: Source, sim: Matrix, eps: real, sc: Scratch, order: seq<nat>)
    requires WellFormed(src) && IsSquare(sim) && |sim| == Size(src) && ScratchInRange(src, sc)
    requires forall k :: 0 <= k < |order| ==> order[k] < |sim|
    requires Distinct(order) && sc.queue == []
    ensures var out := DriveOrder(src, sim, eps, sc, order).sim;
      forall r :: 0 <= r < |sim| ==>
        out[r] == if r in order then FreshRow(src, sim[r], r, eps) else sim[r]
  {
    forall r | 0 <= r < |sim|
      ensures DriveOrder(src, sim, eps, sc, order).sim[r] == if r in order then FreshRow(src, sim[r], r, eps) else sim[r]
    {
      DriveOrderRow(src, sim, eps, sc, order, r);
    }
  }

  /** The rows `0 .. n - 1` in increasing order. */
  function Range(n: nat): (r: seq<nat>)
    ensures |r| == n && forall k :: 0 <= k < n ==> r[k] == k
  {
    seq(n, k => k)
  }

  /** Any two orders that list every row exactly once give the same matrix. */
  lemma OrderIndependent(src: Source, sim: Matrix, eps: real, sc: Scratch, p: seq<nat>, q: seq<nat>)
    requires WellFormed(src) && IsSquare(sim) && |sim| == Size(src) && ScratchInRange(src, sc)
    requires sc.queue == []
    requires forall k :: 0 <= k < |p| ==> p[k] < |sim|
    requires forall k :: 0 <= k < |q| ==> q[k] < |sim|
    requires Distinct(p) && Distinct(q)
    requires forall r :: 0 <= r < |sim| ==> r in p && r in q
    ensures DriveOrder(src, sim, eps, sc, p).sim == DriveOrder(src, sim, eps, sc, q).sim
  {
    DriveOrderRows(src, sim, eps, sc, p);
    DriveOrderRows(src, sim, eps, sc, q);
  }

  /** Two sources for the same graph reach the same nodes. */
  lemma SameGraphReached(a: Source, b: Source, i: nat, eps: real)
    requires WellFormed(a) && WellFormed(b) && SameGraph(a, b) && i < Size(a)
    ensures Reached(a, i, eps) == Reached(b, i, eps)
  {
    RunCanon(a, b, Start(i, eps, Zeros(Size(a))), Start(i, eps, Zeros(Size(b))));
  }

  /** Two sources for the same graph write the same row. */
  lemma SameGraphRow(a: Source, b: Source, row0: seq<real>, i: nat, eps: real)
    requires WellFormed(a) && WellFormed(b) && SameGraph(a, b) && i < Size(a) && |row0| == Size(a)
    ensures FreshRow(a, row0, i, eps) == FreshRow(b, row0, i, eps)
  {
    SameGraphReached(a, b, i, eps);
  }

  /** On a zero matrix the C++ adjacency-matrix branch, which pushes visited
      neighbours too, writes exactly the rows of the Python builder. */
  lemma DenseMatchesPython(g: Matrix, eps: int, r: nat)
    requires IsSquare(g) && r < |g|
    ensures FreshRow(Unfiltered(g), Zeros(|g|), r, eps as real)
         == SimilarityPy.BuildEpsilonNeighborhood(g, eps as real)[r]
  {
    SameGraphRow(Unfiltered(g), Filtered(g), Zeros(|g|), r, eps as real);
    var py := SimilarityPy.BuildEpsilonNeighborhood(g, eps as real);
    var cpp := FreshRow(Filtered(g), Zeros(|g|), r, eps as real);
    assert |py[r]| == |g|;
    assert forall j :: 0 <= j < |g| ==> cpp[j] == py[r][j];
  }

  /** The adjacency-list branch pushes the list of a node once for every
      node of the graph; pushing it once writes the same row. */
  lemma ListRepeatsHarmless(adj: seq<seq<int>>, row0: seq<real>, i: nat, eps: real)
    requires ListsInRange(adj) && i < |adj| && |row0| == |adj|
    ensures FreshRow(Lists(adj), row0, i, eps) == FreshRow(ListsOnce(adj), row0, i, eps)
  {
    SameGraphRow(Lists(adj), ListsOnce(adj), row0, i, eps);
  }
}
