/** Because a node is tested against the visited set when it is taken from
    the queue, only the first queued item of each not-yet-visited node
    matters; later items for the same node are dropped. `Canon` keeps exactly
    those items, and `RunCanon` proves that the final visited set depends on
    the queue only through `Canon`. This is what makes the enqueue-time
    filter of the Python version, its absence in the C++ dense branch, and
    the repeated list pushes of the C++ list branch all interchangeable. */
module FirstWins {
  import opened Matrices
  import opened Traversal

  /** The items of `q` that would be expanded if nothing else were pushed:
      the first item of every node that is not in `seen`. */
  function Canon(q: seq<Item>, seen: set<nat>): seq<Item>
  {
    if q == [] then []
    else if q[0].node in seen then Canon(q[1..], seen)
    else [q[0]] + Canon(q[1..], seen + {q[0].node})
  }

  lemma {:induction false} CanonAppend(a: seq<Item>, b: seq<Item>, seen: set<nat>)
    ensures Canon(a + b, seen) == Canon(a, seen) + Canon(b, seen + Nodes(a))
    decreases |a|
  {
    if a == [] {
      assert a + b == b;
      assert Nodes(a) == {};
      assert seen + Nodes(a) == seen;
    } else {
      assert (a + b)[0] == a[0];
      assert (a + b)[1..] == a[1..] + b;
      NodesAppend([a[0]], a[1..]);
      assert a == [a[0]] + a[1..];
      assert Nodes([a[0]]) == {a[0].node} by { assert [a[0]][0].node == a[0].node; }
      if a[0].node in seen {
        CanonAppend(a[1..], b, seen);
        assert seen + Nodes(a[1..]) == seen + Nodes(a);
      } else {
        CanonAppend(a[1..], b, seen + {a[0].node});
        assert seen + {a[0].node} + Nodes(a[1..]) == seen + Nodes(a);
      }
    }
  }

  lemma {:induction false} CanonNodes(q: seq<Item>, seen: set<nat>)
    ensures Nodes(Canon(q, seen)) == Nodes(q) - seen
    decreases |q|
  {
    if q != [] {
      NodesAppend([q[0]], q[1..]);
      assert q == [q[0]] + q[1..];
      assert Nodes([q[0]]) == {q[0].node} by { assert [q[0]][0].node == q[0].node; }
      if q[0].node in seen {
        CanonNodes(q[1..], seen);
      } else {
        CanonNodes(q[1..], seen + {q[0].node});
        NodesAppend([q[0]], Canon(q[1..], seen + {q[0].node}));
      }
    }
  }

  /** A queue whose nodes are all already seen contributes nothing. */
  lemma {:induction false} CanonCovered(q: seq<Item>, seen: set<nat>)
    requires Nodes(q) <= seen
    ensures Canon(q, seen) == []
    decreases |q|
  {
    if q != [] {
      assert q[0].node in Nodes(q);
      NodesAppend([q[0]], q[1..]);
      assert q == [q[0]] + q[1..];
      CanonCovered(q[1..], seen);
    }
  }

  lemma {:induction false} RepeatNodes(t: nat, s: seq<Item>)
    ensures Nodes(Repeat(t, s)) <= Nodes(s)
  {
    var r := Repeat(t, s);
    forall x | x in Nodes(r) ensures x in Nodes(s) {
      var k :| 0 <= k < |r| && r[k].node == x;
      var j :| 0 <= j < |s| && s[j] == r[k];
    }
  }

  /** Pushing a list several times in a row is the same as pushing it once. */
  lemma {:induction false} RepeatCanon(t: nat, s: seq<Item>, seen: set<nat>)
    requires t >= 1
    ensures Canon(Repeat(t, s), seen) == Canon(s, seen)
  {
    CanonAppend(s, Repeat(t - 1, s), seen);
    RepeatNodes(t - 1, s);
    CanonCovered(Repeat(t - 1, s), seen + Nodes(s));
  }

  /** Canon of a queue that starts with a given item. */
  lemma CanonCons(x: Item, r: seq<Item>, seen: set<nat>)
    ensures Canon([x] + r, seen) ==
      if x.node in seen then Canon(r, seen) else [x] + Canon(r, seen + {x.node})
  {
    assert ([x] + r)[0] == x;
    assert ([x] + r)[1..] == r;
  }

  /** A prefix whose nodes are all already seen is skipped. */
  lemma CanonSkip(h: seq<Item>, t: seq<Item>, seen: set<nat>)
    requires Nodes(h) <= seen
    ensures Canon(h + t, seen) == Canon(t, seen)
  {
    CanonAppend(h, t, seen);
    CanonCovered(h, seen);
    assert seen + Nodes(h) == seen;
  }

  /** The dense enqueue rules with and without the visited filter differ only
      in items whose node is already visited. */
  lemma {:induction false} DenseCanon(w: Matrix, u: nat, d: real, visited: set<nat>, f1: bool, f2: bool, m: nat, seen: set<nat>)
    requires IsSquare(w) && u < |w| && m <= |w| && visited <= seen
    ensures Canon(DenseFrom(w, u, d, visited, f1, m), seen) == Canon(DenseFrom(w, u, d, visited, f2, m), seen)
    decreases |w| - m
  {
    if m < |w| {
      var a1 := Admissible(w, u, d, visited, f1, m);
      var a2 := Admissible(w, u, d, visited, f2, m);
      var it := Item(m, d - w[u][m]);
      var h1: seq<Item> := if a1 then [it] else [];
      var h2: seq<Item> := if a2 then [it] else [];
      var t1 := DenseFrom(w, u, d, visited, f1, m + 1);
      var t2 := DenseFrom(w, u, d, visited, f2, m + 1);
      DenseUnfold(w, u, d, visited, f1, m);
      DenseUnfold(w, u, d, visited, f2, m);
      if m in seen || (!a1 && !a2) {
        assert Nodes(h1) <= seen by { if a1 { assert h1[0].node == m; } }
        assert Nodes(h2) <= seen by { if a2 { assert h2[0].node == m; } }
        CanonSkip(h1, t1, seen);
        CanonSkip(h2, t2, seen);
        DenseCanon(w, u, d, visited, f1, f2, m + 1, seen);
      } else {
        assert a1 && a2;
        CanonCons(it, t1, seen);
        CanonCons(it, t2, seen);
        DenseCanon(w, u, d, visited, f1, f2, m + 1, seen + {m});
      }
    }
  }

  /** Two sources describing the same graph push, after the canonical
      reduction, the same items. */
  lemma SuccessorsCanon(a: Source, b: Source, u: nat, d: real, visited: set<nat>, seen: set<nat>)
    requires WellFormed(a) && WellFormed(b) && SameGraph(a, b) && u < Size(a)
    requires visited <= seen
    ensures Canon(Successors(a, u, d, visited), seen) == Canon(Successors(b, u, d, visited), seen)
  {
    if a.Filtered? || a.Unfiltered? {
      DenseCanon(a.w, u, d, visited, a.Filtered?, b.Filtered?, 0, seen);
    } else if d >= 1.0 {
      var items := ListItems(a.adj[u], |a.adj|, d);
      RepeatCanon(|a.adj|, items, seen);
    }
  }

  /** One expanding iteration on queues with the same canonical form yields
      queues with the same canonical form. */
  lemma StepCanon(a: Source, b: Source, s: State, t: State)
    requires SameGraph(a, b) && Valid(a, s) && Valid(b, t)
    requires s.visited == t.visited && s.queue != [] && t.queue != []
    requires s.queue[0].node !in s.visited && t.queue[0].node !in t.visited
    requires Canon(s.queue, s.visited) == Canon(t.queue, t.visited)
    ensures Step(a, s).visited == Step(b, t).visited
    ensures Canon(Step(a, s).queue, Step(a, s).visited) == Canon(Step(b, t).queue, Step(b, t).visited)
  {
    var x := s.queue[0];
    var u := x.node;
    var seen := s.visited + {u};
    var rs := s.queue[1..];
    var rt := t.queue[1..];
    assert s.queue == [x] + rs;
    assert t.queue == [t.queue[0]] + rt;
    CanonCons(x, rs, s.visited);
    CanonCons(t.queue[0], rt, t.visited);
    var cs := Canon(s.queue, s.visited);
    var ct := Canon(t.queue, t.visited);
    assert cs[0] == x && ct[0] == t.queue[0];
    assert t.queue[0] == x;
    assert cs[1..] == Canon(rs, seen);
    assert ct[1..] == Canon(rt, seen);
    var e1 := if x.budget != 0.0 then Successors(a, u, x.budget, seen) else [];
    var e2 := if x.budget != 0.0 then Successors(b, u, x.budget, seen) else [];
    assert Step(a, s).queue == rs + e1;
    assert Step(b, t).queue == rt + e2;
    CanonAppend(rs, e1, seen);
    CanonAppend(rt, e2, seen);
    CanonNodes(rs, seen);
    CanonNodes(rt, seen);
    assert seen + Nodes(rs) == seen + Nodes(Canon(rs, seen));
    assert seen + Nodes(rt) == seen + Nodes(Canon(rt, seen));
    if x.budget != 0.0 {
      SuccessorsCanon(a, b, u, x.budget, seen, seen + Nodes(rs));
    }
  }

  /** The final visited set depends on the queue only through its canonical
      form, whatever the enqueue rule, the counter and the row. */
  lemma {:induction false} RunCanon(a: Source, b: Source, s: State, t: State)
    requires SameGraph(a, b) && Valid(a, s) && Valid(b, t)
    requires s.visited == t.visited
    requires Canon(s.queue, s.visited) == Canon(t.queue, t.visited)
    ensures Run(a, s).visited == Run(b, t).visited
    decreases Unvisited(Size(a), s.visited), |s.queue| + |t.queue|
  {
    if s.queue != [] && s.queue[0].node in s.visited {
      StepProgress(a, s);
      RunCanon(a, b, Step(a, s), t);
    } else if t.queue != [] && t.queue[0].node in t.visited {
      StepProgress(b, t);
      RunCanon(a, b, s, Step(b, t));
    } else if s.queue == [] || t.queue == [] {
      assert s.queue == [] && t.queue == [];
    } else {
      StepProgress(a, s);
      StepCanon(a, b, s, t);
      RunCanon(a, b, Step(a, s), Step(b, t));
    }
  }
}
