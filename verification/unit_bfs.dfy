/** The traversal on graphs whose weights are all 0 or 1, with a whole-number
    epsilon `E`. Every edge then costs one unit of budget, the queue holds at
    most two budget levels at a time, and the first item dequeued for a node
    carries the largest budget any walk can leave. A node is therefore
    visited exactly when some walk of at most `E` edges leads to it. */
module UnitBfs {
  import opened Matrices
  import opened Traversal
  import opened SimilarityPy
  import Reach

  /** Some walk from `i` to `v` has at most `k` edges. */
  ghost predicate Hops(w: Matrix, i: nat, v: nat, k: int)
    requires IsSquare(w)
  {
    exists p :: Reach.IsWalk(w, p) && p[0] == i && p[|p| - 1] == v && |p| - 1 <= k
  }

  lemma HopsStart(w: Matrix, i: nat)
    requires IsSquare(w) && i < |w|
    ensures Hops(w, i, i, 0)
  {
    assert Reach.IsWalk(w, [i]);
  }

  /** Only the start is zero edges away. */
  lemma HopsZero(w: Matrix, i: nat, v: nat)
    requires IsSquare(w) && Hops(w, i, v, 0)
    ensures v == i
  {
    var p :| Reach.IsWalk(w, p) && p[0] == i && p[|p| - 1] == v && |p| - 1 <= 0;
    assert |p| == 1;
  }

  lemma HopsInRange(w: Matrix, i: nat, v: nat, k: int)
    requires IsSquare(w) && Hops(w, i, v, k)
    ensures v < |w| && i < |w| && k >= 0
  {
    var p :| Reach.IsWalk(w, p) && p[0] == i && p[|p| - 1] == v && |p| - 1 <= k;
  }

  lemma HopsMono(w: Matrix, i: nat, v: nat, k: int, k': int)
    requires IsSquare(w) && Hops(w, i, v, k) && k <= k'
    ensures Hops(w, i, v, k')
  {
    var p :| Reach.IsWalk(w, p) && p[0] == i && p[|p| - 1] == v && |p| - 1 <= k;
    assert |p| - 1 <= k';
  }

  /** No walk has a negative number of edges. */
  lemma HopsNegative(w: Matrix, i: nat, v: nat, k: int)
    requires IsSquare(w) && k < 0
    ensures !Hops(w, i, v, k)
  {
    forall p | Reach.IsWalk(w, p) && p[0] == i && p[|p| - 1] == v
      ensures |p| - 1 > k
    {
    }
  }

  /** One more edge costs one more hop. */
  lemma HopsExtend(w: Matrix, i: nat, u: nat, v: nat, k: int)
    requires IsSquare(w) && u < |w| && v < |w| && w[u][v] > 0.0 && Hops(w, i, u, k)
    ensures Hops(w, i, v, k + 1)
  {
    var p :| Reach.IsWalk(w, p) && p[0] == i && p[|p| - 1] == u && |p| - 1 <= k;
    var p' := p + [v];
    assert Reach.IsWalk(w, p');
    assert p'[0] == i && p'[|p'| - 1] == v;
  }

  /** The contrapositive of `HopsExtend`, proved walk by walk. */
  lemma HopsExtendBack(w: Matrix, i: nat, u: nat, v: nat, k: int)
    requires IsSquare(w) && u < |w| && v < |w| && w[u][v] > 0.0 && !Hops(w, i, v, k + 1)
    ensures !Hops(w, i, u, k)
  {
    forall p | Reach.IsWalk(w, p) && p[0] == i && p[|p| - 1] == u
      ensures |p| - 1 > k
    {
      var p' := p + [v];
      assert Reach.IsWalk(w, p');
      assert p'[0] == i && p'[|p'| - 1] == v;
    }
  }

  /** A node exactly `k >= 1` edges away has a neighbour `k - 1` edges away
      with an edge to it. */
  lemma HopsLast(w: Matrix, i: nat, v: nat, k: int)
    requires IsSquare(w) && k >= 1 && Hops(w, i, v, k) && !Hops(w, i, v, k - 1)
    ensures exists u :: 0 <= u < |w| && Hops(w, i, u, k - 1) && w[u][v] > 0.0
  {
    var p :| Reach.IsWalk(w, p) && p[0] == i && p[|p| - 1] == v && |p| - 1 <= k;
    assert |p| - 1 > k - 1;
    var u := p[|p| - 2];
    var q := p[..|p| - 1];
    assert Reach.IsWalk(w, q);
    assert q[0] == i && q[|q| - 1] == u;
    assert w[u][v] > 0.0;
  }

  /** Every queued budget is `L` or `L - 1` and not negative, and after the first `L - 1`
      every budget is `L - 1`. */
  predicate Layered(q: seq<Item>, L: int) {
    && (forall k :: 0 <= k < |q| ==> q[k].budget >= 0.0)
    && (forall k :: 0 <= k < |q| ==> q[k].budget == L as real || q[k].budget == (L - 1) as real)
    && (forall a, b :: 0 <= a < b < |q| && q[a].budget == (L - 1) as real ==> q[b].budget == (L - 1) as real)
  }

  /** A queued item with budget `b` names a node at most `E - b` edges away. */
  ghost predicate QueueHops(w: Matrix, i: nat, E: int, L: int, q: seq<Item>)
    requires IsSquare(w)
  {
    forall k :: 0 <= k < |q| ==>
      && (q[k].budget == L as real ==> Hops(w, i, q[k].node, E - L))
      && (q[k].budget == (L - 1) as real ==> Hops(w, i, q[k].node, E - L + 1))
  }

  /** Every visited node was visited with a budget of at least `L`. */
  ghost predicate VisitedHops(w: Matrix, i: nat, E: int, L: int, visited: set<nat>)
    requires IsSquare(w)
  {
    forall v :: v in visited ==> Hops(w, i, v, E - L)
  }

  /** The nodes closer than level `L` are all visited. */
  ghost predicate Below(w: Matrix, i: nat, E: int, L: int, visited: set<nat>)
    requires IsSquare(w)
  {
    forall v: nat :: v < |w| && Hops(w, i, v, E - L - 1) ==> v in visited
  }

  /** A node of level `L` is visited or queued with budget `L`. */
  ghost predicate AtLevel(w: Matrix, i: nat, E: int, L: int, s: State)
    requires IsSquare(w)
  {
    forall v: nat :: v < |w| && Hops(w, i, v, E - L) ==> v in s.visited || Item(v, L as real) in s.queue
  }

  /** Some unvisited node queued with budget `L` has an edge to `v`. */
  ghost predicate Parent(w: Matrix, s: State, L: int, v: nat)
    requires IsSquare(w) && v < |w|
  {
    exists u: nat :: u < |w| && u !in s.visited && Item(u, L as real) in s.queue && w[u][v] > 0.0
  }

  /** A node of level `L - 1` is visited, queued with budget `L - 1`, or
      will be pushed when an unvisited queued parent is expanded. */
  ghost predicate NextLevel(w: Matrix, i: nat, E: int, L: int, s: State)
    requires IsSquare(w)
  {
    L >= 1 ==>
      forall v: nat :: v < |w| && Hops(w, i, v, E - L + 1) && !Hops(w, i, v, E - L) ==>
        v in s.visited || Item(v, (L - 1) as real) in s.queue || Parent(w, s, L, v)
  }

  /** The invariant of a traversal from `i` with budget `E` whose queue is at
      level `L`. */
  ghost predicate Inv(w: Matrix, i: nat, E: int, L: int, s: State)
    requires IsSquare(w)
  {
    && 0 <= L <= E
    && Layered(s.queue, L)
    && QueueHops(w, i, E, L, s.queue)
    && VisitedHops(w, i, E, L, s.visited)
    && Below(w, i, E, L, s.visited)
    && AtLevel(w, i, E, L, s)
    && NextLevel(w, i, E, L, s)
  }

  /** The start state satisfies the invariant at level `E`. */
  lemma StartInv(w: Matrix, i: nat, E: nat, row: seq<real>)
    requires IsSquare(w) && i < |w|
    ensures Inv(w, i, E, E, Start(i, E as real, row))
  {
    var s := Start(i, E as real, row);
    HopsStart(w, i);
    assert s.queue[0] == Item(i, E as real);
    forall v: nat | v < |w| && Hops(w, i, v, E - E)
      ensures v in s.visited || Item(v, E as real) in s.queue
    {
      HopsZero(w, i, v);
    }
    forall v: nat | v < |w| ensures !Hops(w, i, v, -1) {
      HopsNegative(w, i, v, -1);
    }
    if E >= 1 {
      forall v: nat | v < |w| && Hops(w, i, v, E - E + 1) && !Hops(w, i, v, E - E)
        ensures Parent(w, s, E, v)
      {
        HopsLast(w, i, v, 1);
        var u :| 0 <= u < |w| && Hops(w, i, u, 0) && w[u][v] > 0.0;
        HopsZero(w, i, u);
      }
    }
  }

  /** Once every queued budget is `L - 1`, the nodes of level `L` are all
      visited. */
  lemma DescendAt(w: Matrix, i: nat, E: int, L: int, s: State)
    requires IsSquare(w) && Inv(w, i, E, L, s) && L >= 1
    requires forall k :: 0 <= k < |s.queue| ==> s.queue[k].budget == (L - 1) as real
    ensures Below(w, i, E, L - 1, s.visited)
    ensures AtLevel(w, i, E, L - 1, s)
  {
    forall v: nat | v < |w| && Hops(w, i, v, E - (L - 1) - 1)
      ensures v in s.visited
    {
      assert Item(v, L as real) !in s.queue;
    }
    forall v: nat | v < |w| && Hops(w, i, v, E - (L - 1))
      ensures v in s.visited || Item(v, (L - 1) as real) in s.queue
    {
      assert Item(v, L as real) !in s.queue;
      if !Hops(w, i, v, E - L) {
        assert !Parent(w, s, L, v);
      }
    }
  }

  /** Once every queued budget is `L - 1`, each node of level `L - 2` has a
      queued parent of level `L - 1`. */
  lemma DescendNext(w: Matrix, i: nat, E: int, L: int, s: State)
    requires IsSquare(w) && Inv(w, i, E, L, s) && L >= 1
    requires forall k :: 0 <= k < |s.queue| ==> s.queue[k].budget == (L - 1) as real
    ensures NextLevel(w, i, E, L - 1, s)
  {
    DescendAt(w, i, E, L, s);
    if L - 1 >= 1 {
      var far, near := E - L + 2, E - L + 1;
      forall v: nat | v < |w| && Hops(w, i, v, far) && !Hops(w, i, v, near)
        ensures Parent(w, s, L - 1, v)
      {
        HopsLast(w, i, v, E - L + 2);
        var u :| 0 <= u < |w| && Hops(w, i, u, E - L + 1) && w[u][v] > 0.0;
        HopsExtendBack(w, i, u, v, E - L);
        assert u !in s.visited;
        assert Item(u, (L - 1) as real) in s.queue;
      }
    }
  }

  /** When every queued budget is `L - 1` the invariant holds one level
      down. */
  lemma Descend(w: Matrix, i: nat, E: int, L: int, s: State)
    requires IsSquare(w) && Inv(w, i, E, L, s) && L >= 1
    requires forall k :: 0 <= k < |s.queue| ==> s.queue[k].budget == (L - 1) as real
    ensures Inv(w, i, E, L - 1, s)
  {
    DescendAt(w, i, E, L, s);
    DescendNext(w, i, E, L, s);
    forall v | v in s.visited ensures Hops(w, i, v, E - (L - 1)) {
      HopsMono(w, i, v, E - L, E - L + 1);
    }
  }

  /** What expanding `x` at level `L` may push: items of budget `L - 1` on
      edges out of `x`, and, when `x` is new and `L >= 1`, every unvisited
      neighbour. */
  ghost predicate PushedOk(w: Matrix, x: nat, L: int, visited: set<nat>, pushed: seq<Item>)
    requires IsSquare(w) && x < |w|
  {
    && (forall k :: 0 <= k < |pushed| ==>
          && L >= 1
          && pushed[k].budget == (L - 1) as real
          && pushed[k].node < |w|
          && w[x][pushed[k].node] > 0.0)
    && (x !in visited && L >= 1 ==>
          forall v :: 0 <= v < |w| && v != x && v !in visited && w[x][v] > 0.0 ==>
            Item(v, (L - 1) as real) in pushed)
  }

  /** On a 0/1 graph, expanding `x` with budget `L >= 1` pushes exactly the
      unvisited neighbours, each with budget `L - 1`. */
  lemma PushedUnit(w: Matrix, x: nat, L: int, visited: set<nat>)
    requires IsSquare(w) && UnitWeights(w) && x < |w| && L >= 1 && x in visited
    ensures PushedOk(w, x, L, visited - {x}, DenseFrom(w, x, L as real, visited, true, 0))
  {
    var pushed := DenseFrom(w, x, L as real, visited, true, 0);
    DenseNodes(w, x, L as real, visited, true, 0);
    forall k | 0 <= k < |pushed| ensures pushed[k].budget == (L - 1) as real {
      assert w[x][pushed[k].node] == 1.0;
    }
    forall v | 0 <= v < |w| && v != x && v !in visited - {x} && w[x][v] > 0.0
      ensures Item(v, (L - 1) as real) in pushed
    {
      assert w[x][v] == 1.0;
      assert Admissible(w, x, L as real, visited, true, v);
      assert v in Nodes(pushed);
      var k :| 0 <= k < |pushed| && pushed[k].node == v;
      assert pushed[k] == Item(v, (L - 1) as real);
    }
  }

  /** The requirements shared by the `Advance` lemmas: `s2` is `s` with the
      front item `x` of budget `L` dequeued and marked visited and `pushed`
      appended. */
  ghost predicate Advances(w: Matrix, i: nat, E: int, L: int, s: State, s2: State, pushed: seq<Item>)
    requires IsSquare(w)
  {
    && Valid(Filtered(w), s)
    && Inv(w, i, E, L, s)
    && s.queue != []
    && s.queue[0].budget == L as real
    && s2.visited == s.visited + {s.queue[0].node}
    && s2.queue == s.queue[1..] + pushed
    && PushedOk(w, s.queue[0].node, L, s.visited, pushed)
  }

  lemma AdvanceQueue(w: Matrix, i: nat, E: int, L: int, s: State, s2: State, pushed: seq<Item>)
    requires IsSquare(w) && Advances(w, i, E, L, s, s2, pushed)
    ensures Layered(s2.queue, L) && QueueHops(w, i, E, L, s2.queue)
  {
    var q := s.queue;
    var x := q[0].node;
    var t := q[1..];
    assert Hops(w, i, x, E - L);
    forall k | 0 <= k < |pushed| ensures Hops(w, i, pushed[k].node, E - L + 1) {
      HopsExtend(w, i, x, pushed[k].node, E - L);
    }
    forall k | 0 <= k < |s2.queue|
      ensures s2.queue[k] == if k < |t| then q[k + 1] else pushed[k - |t|]
    {
    }
  }

  lemma AdvanceVisited(w: Matrix, i: nat, E: int, L: int, s: State, s2: State, pushed: seq<Item>)
    requires IsSquare(w) && Advances(w, i, E, L, s, s2, pushed)
    ensures VisitedHops(w, i, E, L, s2.visited)
    ensures Below(w, i, E, L, s2.visited)
    ensures AtLevel(w, i, E, L, s2)
  {
    var q := s.queue;
    var t := q[1..];
    assert Hops(w, i, q[0].node, E - L);
    assert q == [q[0]] + t;
    forall v: nat | v < |w| && Hops(w, i, v, E - L)
      ensures v in s2.visited || Item(v, L as real) in s2.queue
    {
      if Item(v, L as real) in q && Item(v, L as real) != q[0] {
        assert Item(v, L as real) in t;
      }
    }
  }

  lemma AdvanceNext(w: Matrix, i: nat, E: int, L: int, s: State, s2: State, pushed: seq<Item>)
    requires IsSquare(w) && Advances(w, i, E, L, s, s2, pushed)
    ensures NextLevel(w, i, E, L, s2)
  {
    var q := s.queue;
    var x := q[0].node;
    var t := q[1..];
    assert Hops(w, i, x, E - L);
    assert q == [q[0]] + t;
    if L >= 1 {
      forall v: nat | v < |w| && Hops(w, i, v, E - L + 1) && !Hops(w, i, v, E - L)
        ensures v in s2.visited || Item(v, (L - 1) as real) in s2.queue || Parent(w, s2, L, v)
      {
        if v in s.visited {
        } else if Item(v, (L - 1) as real) in q {
          assert Item(v, (L - 1) as real) in t;
        } else {
          var u: nat :| u < |w| && u !in s.visited && Item(u, L as real) in q && w[u][v] > 0.0;
          if u == x {
            assert v != x;
            assert Item(v, (L - 1) as real) in pushed;
          } else {
            assert Item(u, L as real) in t;
            assert u !in s2.visited;
          }
        }
      }
    }
  }

  lemma Advance(w: Matrix, i: nat, E: int, L: int, s: State, s2: State, pushed: seq<Item>)
    requires IsSquare(w) && Advances(w, i, E, L, s, s2, pushed)
    ensures Inv(w, i, E, L, s2)
  {
    AdvanceQueue(w, i, E, L, s, s2, pushed);
    AdvanceVisited(w, i, E, L, s, s2, pushed);
    AdvanceNext(w, i, E, L, s, s2, pushed);
  }

  /** One iteration with the front budget at level `L` keeps the invariant
      at level `L`. */
  lemma StepKeepsLevel(w: Matrix, i: nat, E: int, L: int, s: State)
    requires IsSquare(w) && UnitWeights(w) && Valid(Filtered(w), s) && Inv(w, i, E, L, s)
    requires s.queue != [] && s.queue[0].budget == L as real
    ensures Inv(w, i, E, L, Step(Filtered(w), s))
  {
    var next := Step(Filtered(w), s);
    var x := s.queue[0].node;
    if x in s.visited || L == 0 {
      assert next.queue == s.queue[1..] + [];
      Advance(w, i, E, L, s, next, []);
    } else {
      var pushed := DenseFrom(w, x, L as real, s.visited + {x}, true, 0);
      assert next.queue == s.queue[1..] + pushed;
      PushedUnit(w, x, L, s.visited + {x});
      assert s.visited + {x} - {x} == s.visited;
      Advance(w, i, E, L, s, next, pushed);
    }
  }

  /** At level 0 with the queue empty, the visited set is the ball of `E`
      hops. */
  lemma Finish(w: Matrix, i: nat, E: int, s: State)
    requires IsSquare(w) && Valid(Filtered(w), s) && Inv(w, i, E, 0, s) && s.queue == []
    ensures forall v: nat :: v in s.visited <==> v < |w| && Hops(w, i, v, E)
  {
    forall v: nat | v in s.visited ensures v < |w| && Hops(w, i, v, E) {
    }
  }

  /** From any state satisfying the invariant, the run visits exactly the
      nodes within `E` hops. */
  lemma {:induction false} RunLevels(w: Matrix, i: nat, E: int, L: int, s: State)
    requires IsSquare(w) && UnitWeights(w) && Valid(Filtered(w), s) && Inv(w, i, E, L, s)
    ensures forall v: nat :: v in Run(Filtered(w), s).visited <==> v < |w| && Hops(w, i, v, E)
    decreases Unvisited(Size(Filtered(w)), s.visited), |s.queue|, L
  {
    var src := Filtered(w);
    if s.queue == [] {
      if L == 0 {
        Finish(w, i, E, s);
      } else {
        Descend(w, i, E, L, s);
        RunLevels(w, i, E, L - 1, s);
      }
    } else if s.queue[0].budget == (L - 1) as real {
      forall k | 0 <= k < |s.queue| ensures s.queue[k].budget == (L - 1) as real {
        if k > 0 {
          assert s.queue[0].budget == (L - 1) as real;
        }
      }
      Descend(w, i, E, L, s);
      RunLevels(w, i, E, L - 1, s);
    } else {
      StepKeepsLevel(w, i, E, L, s);
      StepProgress(src, s);
      RunUnfold(src, s);
      RunLevels(w, i, E, L, Step(src, s));
    }
  }

  /** On a 0/1 graph with a whole-number epsilon `E`, the traversal from `i`
      visits exactly the nodes some walk of at most `E` edges reaches. */
  lemma UnitReachedIsHopBall(g: Matrix, i: nat, E: nat)
    requires IsSquare(g) && UnitWeights(g) && i < |g|
    ensures forall v: nat :: v in Reached(Filtered(g), i, E as real) <==> v < |g| && Hops(g, i, v, E)
  {
    var s0 := Start(i, E as real, Zeros(|g|));
    StartInv(g, i, E, Zeros(|g|));
    RunLevels(g, i, E, E, s0);
  }

  /** On a 0/1 graph a larger whole-number epsilon never reaches fewer
      nodes. */
  lemma UnitEpsilonMonotone(g: Matrix, i: nat, E: nat, E': nat)
    requires IsSquare(g) && UnitWeights(g) && i < |g| && E <= E'
    ensures Reached(Filtered(g), i, E as real) <= Reached(Filtered(g), i, E' as real)
  {
    UnitReachedIsHopBall(g, i, E);
    UnitReachedIsHopBall(g, i, E');
    var small, large := Reached(Filtered(g), i, E as real), Reached(Filtered(g), i, E' as real);
    forall v | v in small ensures v in large {
      HopsMono(g, i, v, E, E');
    }
  }

  /** The nodes `0 .. n-1`. */
  function AllNodes(n: nat): (r: set<nat>)
    ensures |r| == n
    ensures forall x: nat :: x in r <==> x < n
  {
    if n == 0 then {} else AllNodes(n - 1) + {n - 1}
  }

  /** On a 0/1 graph in which every node is within `E` edges of every other,
      epsilon `E` links every pair and each diagonal counts all the other
      nodes. */
  lemma WithinDiameterLinksAll(g: Matrix, E: nat)
    requires IsSquare(g) && UnitWeights(g)
    requires forall i, v :: 0 <= i < |g| && 0 <= v < |g| ==> Hops(g, i, v, E)
    ensures var sim := BuildEpsilonNeighborhood(g, E as real);
      forall i, j :: 0 <= i < |g| && 0 <= j < |g| ==>
        sim[i][j] == if i == j then (|g| - 1) as real else -1.0
  {
    var e := E as real;
    var sim := BuildEpsilonNeighborhood(g, e);
    forall i, j | 0 <= i < |g| && 0 <= j < |g|
      ensures sim[i][j] == if i == j then (|g| - 1) as real else -1.0
    {
      FullBall(g, E, i);
      if i != j {
        assert j in AllNodes(|g|);
      }
    }
  }

  /** Within the diameter, the traversal from `i` visits every node. */
  lemma FullBall(g: Matrix, E: nat, i: nat)
    requires IsSquare(g) && UnitWeights(g) && i < |g|
    requires forall v :: 0 <= v < |g| ==> Hops(g, i, v, E)
    ensures Reached(Filtered(g), i, E as real) == AllNodes(|g|)
  {
    UnitReachedIsHopBall(g, i, E);
    var r := Reached(Filtered(g), i, E as real);
    forall v: nat ensures v in r <==> v in AllNodes(|g|) {
      if v < |g| {
        assert Hops(g, i, v, E);
      }
    }
  }
}
