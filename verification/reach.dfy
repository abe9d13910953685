/** Budgets along a dense traversal and the soundness of what it visits: a
    visited node is always the end of a walk from the start whose weights
    add up to at most epsilon. */
module Reach {
  import opened Matrices
  import opened Traversal

  /** A non-empty sequence of nodes of `w`, consecutive ones joined by an
      edge of positive weight. */
  predicate IsWalk(w: Matrix, p: seq<nat>)
    requires IsSquare(w)
  {
    && |p| >= 1
    && (forall k :: 0 <= k < |p| ==> p[k] < |w|)
    && (forall k :: 1 <= k < |p| ==> w[p[k - 1]][p[k]] > 0.0)
  }

  /** The sum of the edge weights along a walk. */
  function Cost(w: Matrix, p: seq<nat>): real
    requires IsSquare(w) && IsWalk(w, p)
    decreases |p|
  {
    if |p| == 1 then 0.0 else Cost(w, p[..|p| - 1]) + w[p[|p| - 2]][p[|p| - 1]]
  }

  /** Some walk from `i` to `v` costs at most `c`. */
  ghost predicate Within(w: Matrix, i: nat, v: nat, c: real)
    requires IsSquare(w)
  {
    exists p :: IsWalk(w, p) && p[0] == i && p[|p| - 1] == v && Cost(w, p) <= c
  }

  predicate Dense(src: Source) {
    src.Filtered? || src.Unfiltered?
  }

  /** Every queued budget is non-negative. */
  predicate BudgetsNonNegative(q: seq<Item>) {
    forall k :: 0 <= k < |q| ==> q[k].budget >= 0.0
  }

  /** One iteration keeps the queued budgets non-negative, and every item it
      pushes has a strictly smaller budget than the item it expands. */
  lemma StepBudgets(src: Source, s: State)
    requires Valid(src, s) && s.queue != [] && BudgetsNonNegative(s.queue)
    ensures BudgetsNonNegative(Step(src, s).queue)
    ensures var next := Step(src, s);
      forall k :: |s.queue| - 1 <= k < |next.queue| ==> next.queue[k].budget < s.queue[0].budget
  {
  }

  /** Every queued item's node is reachable from `i` at the cost already
      spent on it. */
  ghost predicate QueueWithin(w: Matrix, i: nat, eps: real, q: seq<Item>)
    requires IsSquare(w)
  {
    forall k :: 0 <= k < |q| ==> Within(w, i, q[k].node, eps - q[k].budget)
  }

  /** The invariant of a sound traversal from `i` with budget `eps`. */
  ghost predicate Sound(w: Matrix, i: nat, eps: real, s: State)
    requires IsSquare(w)
  {
    && BudgetsNonNegative(s.queue)
    && QueueWithin(w, i, eps, s.queue)
    && (forall v :: v in s.visited ==> Within(w, i, v, eps))
  }

  lemma ExtendWalk(w: Matrix, i: nat, u: nat, m: nat, c: real)
    requires IsSquare(w) && u < |w| && m < |w| && w[u][m] > 0.0
    requires Within(w, i, u, c)
    ensures Within(w, i, m, c + w[u][m])
  {
    var p :| IsWalk(w, p) && p[0] == i && p[|p| - 1] == u && Cost(w, p) <= c;
    var p' := p + [m];
    assert p'[..|p'| - 1] == p;
    assert IsWalk(w, p');
    assert Cost(w, p') == Cost(w, p) + w[u][m];
  }

  lemma QueueWithinAppend(w: Matrix, i: nat, eps: real, a: seq<Item>, b: seq<Item>)
    requires IsSquare(w) && QueueWithin(w, i, eps, a) && QueueWithin(w, i, eps, b)
    ensures QueueWithin(w, i, eps, a + b)
  {
    forall k | 0 <= k < |a + b|
      ensures Within(w, i, (a + b)[k].node, eps - (a + b)[k].budget)
    {
      if k < |a| {
        assert (a + b)[k] == a[k];
      } else {
        assert (a + b)[k] == b[k - |a|];
      }
    }
  }

  /** Expanding a node reached at cost `eps - d` pushes only nodes reached
      at the cost their budgets record. */
  lemma PushedWithin(src: Source, i: nat, eps: real, u: nat, d: real, visited: set<nat>)
    requires Dense(src) && WellFormed(src) && u < Size(src)
    requires Within(src.w, i, u, eps - d)
    ensures QueueWithin(src.w, i, eps, Successors(src, u, d, visited))
  {
    var w := src.w;
    var pushed := Successors(src, u, d, visited);
    forall k | 0 <= k < |pushed|
      ensures Within(w, i, pushed[k].node, eps - pushed[k].budget)
    {
      ExtendWalk(w, i, u, pushed[k].node, eps - d);
    }
  }

  lemma StepSound(src: Source, i: nat, eps: real, s: State)
    requires Dense(src) && Valid(src, s) && s.queue != [] && Sound(src.w, i, eps, s)
    ensures Sound(src.w, i, eps, Step(src, s))
  {
    var w := src.w;
    var x := s.queue[0];
    var next := Step(src, s);
    StepBudgets(src, s);
    QueueWithinTail(w, i, eps, s.queue);
    if x.node !in s.visited && x.budget != 0.0 {
      var pushed := Successors(src, x.node, x.budget, next.visited);
      assert next.queue == s.queue[1..] + pushed;
      PushedWithin(src, i, eps, x.node, x.budget, next.visited);
      QueueWithinAppend(w, i, eps, s.queue[1..], pushed);
    }
  }

  lemma QueueWithinTail(w: Matrix, i: nat, eps: real, q: seq<Item>)
    requires IsSquare(w) && QueueWithin(w, i, eps, q) && q != []
    ensures QueueWithin(w, i, eps, q[1..])
    ensures Within(w, i, q[0].node, eps - q[0].budget)
  {
    forall k | 0 <= k < |q[1..]|
      ensures Within(w, i, q[1..][k].node, eps - q[1..][k].budget)
    {
      assert q[1..][k] == q[k + 1];
    }
  }

  lemma {:induction false} RunSound(src: Source, i: nat, eps: real, s: State)
    requires Dense(src) && Valid(src, s) && Sound(src.w, i, eps, s)
    ensures forall v :: v in Run(src, s).visited ==> Within(src.w, i, v, eps)
    decreases Unvisited(Size(src), s.visited), |s.queue|
  {
    if s.queue != [] {
      StepProgress(src, s);
      StepSound(src, i, eps, s);
      RunUnfold(src, s);
      RunSound(src, i, eps, Step(src, s));
    }
  }

  /** Every node a dense traversal from `i` visits is the end of a walk from
      `i` whose edge weights add up to at most `eps`. */
  lemma ReachedIsWithinEpsilon(src: Source, i: nat, eps: real)
    requires Dense(src) && WellFormed(src) && i < Size(src) && eps >= 0.0
    ensures forall v :: v in Reached(src, i, eps) ==> Within(src.w, i, v, eps)
  {
    var s0 := Start(i, eps, Zeros(Size(src)));
    assert IsWalk(src.w, [i]) && Cost(src.w, [i]) == 0.0;
    assert Within(src.w, i, i, eps - eps);
    RunSound(src, i, eps, s0);
  }
}
