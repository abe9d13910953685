/** The bounded first-in-first-out traversal behind every version of the
    epsilon-neighbourhood builder.

    A traversal from node `i` keeps a queue of (node, remaining budget) items
    and a visited set. Each iteration takes the front item; an item whose node
    is already visited is dropped, otherwise the node is marked visited, its
    entry of row `i` is set to -1, the visit counter grows by one and, when the
    remaining budget is not zero, the node's admissible neighbours are pushed
    at the back. The graph representation and the rule for which neighbours
    are pushed differ between the versions and are captured by `Source`. */
module Traversal {
  import opened Matrices

  /** A queue entry: a node and the distance budget left on reaching it. */
  datatype Item = Item(node: nat, budget: real)

  /** The graph together with the rule an expanded node uses to push its
      neighbours. */
  datatype Source =
      /** Dense weights; neighbours already visited are not pushed. */
    | Filtered(w: Matrix)
      /** Dense weights; every admissible neighbour is pushed, visited or not. */
    | Unfiltered(w: Matrix)
      /** Adjacency lists; a node with budget at least 1 pushes its whole list
          once for every node of the graph. */
    | Lists(adj: seq<seq<int>>)
      /** Adjacency lists; the list is pushed once. */
    | ListsOnce(adj: seq<seq<int>>)

  /** The traversal state: the queue, the visited set, the visit counter and
      the row of the similarity matrix that the traversal writes. */
  datatype State = State(queue: seq<Item>, visited: set<nat>, count: int, row: seq<real>)

  function Size(src: Source): nat {
    match src
    case Filtered(w) => |w|
    case Unfiltered(w) => |w|
    case Lists(adj) => |adj|
    case ListsOnce(adj) => |adj|
  }

  /** Every neighbour named by an adjacency list is a node of the graph. */
  predicate ListsInRange(adj: seq<seq<int>>) {
    forall u, k :: 0 <= u < |adj| && 0 <= k < |adj[u]| ==> 0 <= adj[u][k] < |adj|
  }

  predicate WellFormed(src: Source) {
    match src
    case Filtered(w) => IsSquare(w)
    case Unfiltered(w) => IsSquare(w)
    case Lists(adj) => ListsInRange(adj)
    case ListsOnce(adj) => ListsInRange(adj)
  }

  /** The two sources describe the same graph and differ at most in the
      enqueue rule. */
  predicate SameGraph(a: Source, b: Source) {
    || ((a.Filtered? || a.Unfiltered?) && (b.Filtered? || b.Unfiltered?) && a.w == b.w)
    || ((a.Lists? || a.ListsOnce?) && (b.Lists? || b.ListsOnce?) && a.adj == b.adj)
  }

  /** The nodes occurring in a queue. */
  function Nodes(q: seq<Item>): set<nat> {
    set k | 0 <= k < |q| :: q[k].node
  }

  /** The nodes of the graph not yet visited: the first part of the
      termination measure. */
  function Unvisited(n: nat, visited: set<nat>): set<nat> {
    set x: nat | x < n && x !in visited
  }

  predicate Valid(src: Source, s: State) {
    && WellFormed(src)
    && |s.row| == Size(src)
    && (forall k :: 0 <= k < |s.queue| ==> s.queue[k].node < Size(src))
    && (forall v :: v in s.visited ==> v < Size(src))
  }

  /** Whether expanding `u` with remaining budget `d` pushes neighbour `x`
      of a dense graph. */
  predicate Admissible(w: Matrix, u: nat, d: real, visited: set<nat>, filter: bool, x: nat): (b: bool)
    requires IsSquare(w) && u < |w| && x < |w|

  {
    && x != u
    && (filter ==> x !in visited)
    && w[u][x] > 0.0
    && d - w[u][x] >= 0.0
  }

  lemma NodesAppend(a: seq<Item>, b: seq<Item>)
    ensures Nodes(a + b) == Nodes(a) + Nodes(b)
  {
    var ab := a + b;
    forall x | x in Nodes(ab) ensures x in Nodes(a) + Nodes(b) {
      var k :| 0 <= k < |ab| && ab[k].node == x;
      if k < |a| { assert a[k].node == x; } else { assert b[k - |a|].node == x; }
    }
    forall x | x in Nodes(a) + Nodes(b) ensures x in Nodes(ab) {
      if x in Nodes(a) {
        var k :| 0 <= k < |a| && a[k].node == x;
        assert ab[k].node == x;
      } else {
        var k :| 0 <= k < |b| && b[k].node == x;
        assert ab[|a| + k].node == x;
      }
    }
  }

  lemma NodesCons(q: seq<Item>)
    requires q != []
    ensures Nodes(q) == {q[0].node} + Nodes(q[1..])
  {
    NodesAppend([q[0]], q[1..]);
    assert q == [q[0]] + q[1..];
    assert Nodes([q[0]]) == {q[0].node} by { assert [q[0]][0].node == q[0].node; }
  }

  /** The items pushed when `u` is expanded with budget `d`, scanning the
      candidate neighbours `m`, `m+1`, ... in increasing order. */
  function DenseFrom(w: Matrix, u: nat, d: real, visited: set<nat>, filter: bool, m: nat): (r: seq<Item>)
    requires IsSquare(w) && u < |w| && m <= |w|
    ensures forall k :: 0 <= k < |r| ==>
      && m <= r[k].node < |w|
      && Admissible(w, u, d, visited, filter, r[k].node)
      && r[k].budget == d - w[u][r[k].node]
    ensures forall a, b :: 0 <= a < b < |r| ==> r[a].node < r[b].node
    decreases |w| - m
  {
    if m == |w| then []
    else
      var head := if Admissible(w, u, d, visited, filter, m) then [Item(m, d - w[u][m])] else [];
      head + DenseFrom(w, u, d, visited, filter, m + 1)
  }

  lemma DenseUnfold(w: Matrix, u: nat, d: real, visited: set<nat>, filter: bool, m: nat)
    requires IsSquare(w) && u < |w| && m < |w|
    ensures DenseFrom(w, u, d, visited, filter, m)
         == (if Admissible(w, u, d, visited, filter, m) then [Item(m, d - w[u][m])] else [])
          + DenseFrom(w, u, d, visited, filter, m + 1)
  {
  }

  /** Every admissible neighbour from `m` on is pushed. */
  lemma {:induction false} DenseNodes(w: Matrix, u: nat, d: real, visited: set<nat>, filter: bool, m: nat)
    requires IsSquare(w) && u < |w| && m <= |w|
    ensures Nodes(DenseFrom(w, u, d, visited, filter, m))
         == set x: nat | m <= x < |w| && Admissible(w, u, d, visited, filter, x)
    decreases |w| - m
  {
    if m < |w| {
      var head := if Admissible(w, u, d, visited, filter, m) then [Item(m, d - w[u][m])] else [];
      var tail := DenseFrom(w, u, d, visited, filter, m + 1);
      DenseNodes(w, u, d, visited, filter, m + 1);
      NodesAppend(head, tail);
      assert Nodes(head) == if Admissible(w, u, d, visited, filter, m) then {m} else {} by {
        if Admissible(w, u, d, visited, filter, m) { assert head[0].node == m; }
      }
    }
  }

  /** The items of an adjacency list, each with budget `d - 1`. */
  function ListItems(l: seq<int>, n: nat, d: real): (r: seq<Item>)
    requires forall k :: 0 <= k < |l| ==> 0 <= l[k] < n
    ensures |r| == |l|
    ensures forall k :: 0 <= k < |r| ==> r[k].node == l[k] && r[k].budget == d - 1.0
  {
    if l == [] then [] else [Item(l[0], d - 1.0)] + ListItems(l[1..], n, d)
  }

  /** `t` copies of `s` one after another. */
  function Repeat(t: nat, s: seq<Item>): (r: seq<Item>)
    ensures forall k :: 0 <= k < |r| ==> r[k] in s
  {
    if t == 0 then [] else s + Repeat(t - 1, s)
  }

  /** At least one copy holds every item of `s`. */
  lemma RepeatCovers(t: nat, s: seq<Item>)
    requires t > 0
    ensures forall x :: x in s ==> x in Repeat(t, s)
  {
    assert Repeat(t, s) == s + Repeat(t - 1, s);
  }

  /** The items pushed when `u` is expanded with non-zero budget `d`;
      `visited` already contains `u`. */
  function Successors(src: Source, u: nat, d: real, visited: set<nat>): (r: seq<Item>)
    requires WellFormed(src) && u < Size(src)
    ensures forall k :: 0 <= k < |r| ==> r[k].node < Size(src) && 0.0 <= r[k].budget < d
  {
    match src
    case Filtered(w) => DenseFrom(w, u, d, visited, true, 0)
    case Unfiltered(w) => DenseFrom(w, u, d, visited, false, 0)
    case Lists(adj) =>
      if d >= 1.0 then Repeat(|adj|, ListItems(adj[u], |adj|, d)) else []
    case ListsOnce(adj) =>
      if d >= 1.0 then ListItems(adj[u], |adj|, d) else []
  }

  /** One iteration of the traversal loop. */
  function Step(src: Source, s: State): (r: State)
    requires Valid(src, s) && s.queue != []
    ensures Valid(src, r)
    ensures r.visited == s.visited + {s.queue[0].node}
    ensures s.queue[0].budget == 0.0 ==> r.queue == s.queue[1..]
  {
    var it := s.queue[0];
    if it.node in s.visited then
      s.(queue := s.queue[1..])
    else
      var visited := s.visited + {it.node};
      var pushed := if it.budget != 0.0 then Successors(src, it.node, it.budget, visited) else [];
      State(s.queue[1..] + pushed, visited, s.count + 1, s.row[it.node := -1.0])
  }

  /** Runs the loop until the queue is empty. The lemmas below say what the
      run does to the visited set, the counter and the row. */
  function Run(src: Source, s: State): (r: State)
    requires Valid(src, s)
    ensures Valid(src, r) && r.queue == []
    ensures s.visited <= r.visited
    decreases Unvisited(Size(src), s.visited), |s.queue|
  {
    if s.queue == [] then s
    else
      StepProgress(src, s);
      Run(src, Step(src, s))
  }

  /** Every node that was queued ends up visited. */
  lemma {:induction false} RunCovers(src: Source, s: State)
    requires Valid(src, s)
    ensures s.visited + Nodes(s.queue) <= Run(src, s).visited
    decreases Unvisited(Size(src), s.visited), |s.queue|
  {
    if s.queue != [] {
      var next := Step(src, s);
      StepProgress(src, s);
      RunUnfold(src, s);
      RunCovers(src, next);
    }
  }

  /** The counter grows by the number of newly visited nodes. */
  lemma {:induction false} RunCount(src: Source, s: State)
    requires Valid(src, s)
    ensures Run(src, s).count - s.count == |Run(src, s).visited| - |s.visited|
    decreases Unvisited(Size(src), s.visited), |s.queue|
  {
    if s.queue != [] {
      var next := Step(src, s);
      StepProgress(src, s);
      RunUnfold(src, s);
      RunCount(src, next);
      assert s.queue[0].node !in s.visited ==> |next.visited| == |s.visited| + 1;
    }
  }

  /** The row changes exactly at the newly visited nodes, which become -1. */
  lemma {:induction false} RunRow(src: Source, s: State)
    requires Valid(src, s)
    ensures var r := Run(src, s);
      forall j :: 0 <= j < |s.row| ==>
        r.row[j] == if j in r.visited - s.visited then -1.0 else s.row[j]
    decreases Unvisited(Size(src), s.visited), |s.queue|
  {
    if s.queue != [] {
      var next := Step(src, s);
      StepProgress(src, s);
      RunUnfold(src, s);
      RunRow(src, next);
    }
  }

  /** What one iteration does to the queue, counter and row, and that it
      decreases the termination measure of `Run`. */
  lemma StepProgress(src: Source, s: State)
    requires Valid(src, s) && s.queue != []
    ensures var next := Step(src, s); var u := s.queue[0].node;
      && Nodes(s.queue) <= next.visited + Nodes(next.queue)
      && (u in s.visited ==> next.count == s.count && next.row == s.row && |next.queue| < |s.queue|)
      && (u !in s.visited ==>
            && next.count == s.count + 1
            && next.row == s.row[u := -1.0]
            && Unvisited(Size(src), next.visited) < Unvisited(Size(src), s.visited))
  {
    var next := Step(src, s);
    var u := s.queue[0].node;
    NodesAppend([s.queue[0]], s.queue[1..]);
    assert s.queue == [s.queue[0]] + s.queue[1..];
    assert Nodes([s.queue[0]]) == {u} by { assert [s.queue[0]][0].node == u; }
    if u !in s.visited {
      var pushed := next.queue[|s.queue| - 1..];
      assert next.queue == s.queue[1..] + pushed;
      NodesAppend(s.queue[1..], pushed);
      assert u in Unvisited(Size(src), s.visited);
    }
  }

  lemma RunUnfold(src: Source, s: State)
    requires Valid(src, s) && s.queue != []
    ensures Run(src, s) == Run(src, Step(src, s))
  {
  }

  /** The state a traversal from `i` with budget `eps` starts in. */
  function Start(i: nat, eps: real, row: seq<real>): (r: State)
    ensures Nodes(r.queue) == {i} && r.visited == {}
    ensures r.count == |r.visited| - 1
  {
    var q := [Item(i, eps)];
    assert Nodes(q) == {i} by { assert q[0].node == i; }
    State(q, {}, -1, row)
  }

  /** The nodes a traversal from `i` with budget `eps` visits. */
  function Reached(src: Source, i: nat, eps: real): (r: set<nat>)
    requires WellFormed(src) && i < Size(src)
    ensures i in r
    ensures forall v :: v in r ==> v < Size(src)
  {
    var s0 := Start(i, eps, Zeros(Size(src)));
    RunCovers(src, s0);
    assert i in Nodes(s0.queue) by { assert s0.queue[0].node == i; }
    Run(src, s0).visited
  }
}
