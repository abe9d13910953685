/** One row of the similarity matrix, as a traversal from a fresh state
    leaves it, and the facts every version of the builder shares. */
module Rows {
  import opened Matrices
  import opened Traversal
  import opened FirstWins

  /** Row `i` after a traversal from `i` with budget `eps` that starts from
      an empty queue, an empty visited set and a counter of -1, followed by
      the write of the counter to the diagonal. Entries of `row0` at nodes
      the traversal does not visit are left as they were. */
  function FreshRow(src: Source, row0: seq<real>, i: nat, eps: real): (r: seq<real>)
    requires WellFormed(src) && i < Size(src) && |row0| == Size(src)
    ensures |r| == |row0|
    ensures r[i] == (|Reached(src, i, eps)| - 1) as real && r[i] >= 0.0
    ensures forall j :: 0 <= j < |r| && j != i ==>
      r[j] == if j in Reached(src, i, eps) then -1.0 else row0[j]
  {
    var s0 := Start(i, eps, row0);
    var fin := Run(src, s0);
    RunCanon(src, src, s0, Start(i, eps, Zeros(Size(src))));
    RunCount(src, s0);
    RunRow(src, s0);
    assert fin.visited == Reached(src, i, eps);
    assert fin.visited - s0.visited == fin.visited;
    fin.row[i := fin.count as real]
  }

  /** The off-diagonal entries of row `i` that hold -1. */
  function Marked(row: seq<real>, i: nat): set<nat> {
    set j: nat | j < |row| && j != i && row[j] == -1.0
  }

  /** On a zero row the diagonal of a fresh row counts its -1 entries. */
  lemma DiagonalCountsMarks(src: Source, i: nat, eps: real)
    requires WellFormed(src) && i < Size(src)
    ensures var r := FreshRow(src, Zeros(Size(src)), i, eps);
      && Marked(r, i) == Reached(src, i, eps) - {i}
      && r[i] == |Marked(r, i)| as real
  {
    var r := FreshRow(src, Zeros(Size(src)), i, eps);
    var v := Reached(src, i, eps);
    assert Marked(r, i) == v - {i};
    assert |v - {i}| == |v| - 1;
  }

  /** A queue whose items all have budget zero only adds its own nodes. */
  lemma {:induction false} ZeroBudgetRun(src: Source, s: State)
    requires Valid(src, s)
    requires forall k :: 0 <= k < |s.queue| ==> s.queue[k].budget == 0.0
    ensures Run(src, s).visited == s.visited + Nodes(s.queue)
    decreases |s.queue|
  {
    if s.queue != [] {
      var next := Step(src, s);
      var rest := s.queue[1..];
      var u := s.queue[0].node;
      assert Valid(src, next) && next.queue == rest && next.visited == s.visited + {u} by {
        StepProgress(src, s);
      }
      assert forall k :: 0 <= k < |next.queue| ==> next.queue[k].budget == 0.0;
      ZeroBudgetRun(src, next);
      calc {
        Run(src, s).visited;
        { RunUnfold(src, s); }
        Run(src, next).visited;
        s.visited + {u} + Nodes(rest);
        { NodesCons(s.queue); }
        s.visited + Nodes(s.queue);
      }
    }
  }

  /** With budget zero only the start node is visited. */
  lemma EpsilonZeroReachesSelf(src: Source, i: nat)
    requires WellFormed(src) && i < Size(src)
    ensures Reached(src, i, 0.0) == {i}
  {
    var s := Start(i, 0.0, Zeros(Size(src)));
    ZeroBudgetRun(src, s);
    assert Nodes(s.queue) == {i} by { assert s.queue[0].node == i; }
  }
}
