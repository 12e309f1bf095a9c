/** Paths and cycles in finite directed graphs, and the worklist search that decides reachability. */
module Reachability {

  type Graph<N(==)> = set<(N, N)>

  ghost predicate StepAt<N>(e: Graph<N>, p: seq<N>, i: int)
    requires 0 <= i < |p| - 1
  {
    (p[i], p[i + 1]) in e
  }

  ghost predicate PathFromTo<N>(e: Graph<N>, p: seq<N>, a: N, b: N) {
    && p != [] && p[0] == a && p[|p| - 1] == b
    && forall i {:trigger StepAt(e, p, i)} :: 0 <= i < |p| - 1 ==> StepAt(e, p, i)
  }

  ghost predicate Reaches<N(!new)>(e: Graph<N>, a: N, b: N) {
    exists p :: PathFromTo(e, p, a, b)
  }

  /** No edge lies on a cycle. */
  ghost predicate Acyclic<N(!new)>(e: Graph<N>) {
    forall a, b :: (a, b) in e ==> !Reaches(e, b, a)
  }

  lemma ReachesItself<N(!new)>(e: Graph<N>, a: N)
    ensures Reaches(e, a, a)
  {
    assert PathFromTo(e, [a], a, a);
  }

  lemma ReachesStep<N(!new)>(e: Graph<N>, a: N, b: N, c: N)
    requires (a, b) in e && Reaches(e, b, c)
    ensures Reaches(e, a, c)
  {
    var p :| PathFromTo(e, p, b, c);
    var q := [a] + p;
    forall i | 0 <= i < |q| - 1 ensures StepAt(e, q, i) {
      if i > 0 {
        assert StepAt(e, p, i - 1);
      }
    }
    assert PathFromTo(e, q, a, c);
  }

  lemma {:induction false} PathReaches<N(!new)>(e: Graph<N>, p: seq<N>, a: N, b: N, c: N)
    requires PathFromTo(e, p, a, b) && Reaches(e, b, c)
    ensures Reaches(e, a, c)
    decreases |p|
  {
    if |p| > 1 {
      assert StepAt(e, p, 0);
      PathTail(e, p, a, b);
      PathReaches(e, p[1..], p[1], b, c);
      ReachesStep(e, a, p[1], c);
    }
  }

  lemma PathTail<N>(e: Graph<N>, p: seq<N>, a: N, b: N)
    requires PathFromTo(e, p, a, b) && |p| > 1
    ensures PathFromTo(e, p[1..], p[1], b)
  {
    forall i | 0 <= i < |p[1..]| - 1 ensures StepAt(e, p[1..], i) {
      assert StepAt(e, p, i + 1);
    }
  }

  lemma ReachesTransitive<N(!new)>(e: Graph<N>, a: N, b: N, c: N)
    requires Reaches(e, a, b) && Reaches(e, b, c)
    ensures Reaches(e, a, c)
  {
    var p :| PathFromTo(e, p, a, b);
    PathReaches(e, p, a, b, c);
  }

  lemma ReachesMonotone<N(!new)>(e: Graph<N>, f: Graph<N>, a: N, b: N)
    requires e <= f && Reaches(e, a, b)
    ensures Reaches(f, a, b)
  {
    var p :| PathFromTo(e, p, a, b);
    forall i | 0 <= i < |p| - 1 ensures StepAt(f, p, i) {
      assert StepAt(e, p, i);
    }
    assert PathFromTo(f, p, a, b);
  }

  lemma AcyclicSubgraph<N(!new)>(e: Graph<N>, f: Graph<N>)
    requires e <= f && Acyclic(f)
    ensures Acyclic(e)
  {
    forall a, b | (a, b) in e ensures !Reaches(e, b, a) {
      if Reaches(e, b, a) {
        ReachesMonotone(e, f, b, a);
      }
    }
  }

  /** A path in a graph with one extra edge either avoids it or reaches its tail and leaves its head. */
  lemma {:induction false} PathThroughEdge<N(!new)>(e: Graph<N>, s: N, t: N, p: seq<N>, x: N, y: N)
    requires PathFromTo(e + {(s, t)}, p, x, y)
    ensures Reaches(e, x, y) || (Reaches(e, x, s) && Reaches(e, t, y))
    decreases |p|
  {
    if |p| == 1 {
      ReachesItself(e, x);
    } else {
      assert StepAt(e + {(s, t)}, p, 0);
      PathTail(e + {(s, t)}, p, x, y);
      PathThroughEdge(e, s, t, p[1..], p[1], y);
      if (x, p[1]) in e {
        if Reaches(e, p[1], y) {
          ReachesStep(e, x, p[1], y);
        } else {
          ReachesStep(e, x, p[1], s);
        }
      } else {
        ReachesItself(e, x);
      }
    }
  }

  /** Adding an edge keeps a graph acyclic exactly when its head did not already reach its tail. */
  lemma AddEdge<N(!new)>(e: Graph<N>, s: N, t: N)
    requires Acyclic(e)
    ensures Acyclic(e + {(s, t)}) <==> !Reaches(e, t, s)
  {
    var f := e + {(s, t)};
    if Reaches(e, t, s) {
      ReachesMonotone(e, f, t, s);
      assert (s, t) in f;
    } else {
      forall a, b | (a, b) in f ensures !Reaches(f, b, a) {
        if Reaches(f, b, a) {
          var p :| PathFromTo(f, p, b, a);
          PathThroughEdge(e, s, t, p, b, a);
          if (a, b) in e {
            assert Reaches(e, b, s) && Reaches(e, t, a);
            ReachesStep(e, a, b, s);
            ReachesTransitive(e, t, a, s);
          }
        }
      }
    }
  }

  /** A graph homomorphism carries paths along. */
  lemma {:induction false} PathProjects<M(!new), N(!new)>(e: Graph<M>, f: Graph<N>, h: M -> N, p: seq<M>, a: M, b: M)
    requires forall x, y :: (x, y) in e ==> (h(x), h(y)) in f
    requires PathFromTo(e, p, a, b)
    ensures Reaches(f, h(a), h(b))
    decreases |p|
  {
    if |p| == 1 {
      ReachesItself(f, h(a));
    } else {
      assert StepAt(e, p, 0);
      PathTail(e, p, a, b);
      PathProjects(e, f, h, p[1..], p[1], b);
      ReachesStep(f, h(a), h(p[1]), h(b));
    }
  }

  lemma {:induction false} PathStaysInside<N(!new)>(e: Graph<N>, inside: set<N>, p: seq<N>, a: N, b: N)
    requires forall x, y :: (x, y) in e && x in inside ==> y in inside
    requires a in inside && PathFromTo(e, p, a, b)
    ensures b in inside
    decreases |p|
  {
    if |p| > 1 {
      assert StepAt(e, p, 0);
      PathTail(e, p, a, b);
      PathStaysInside(e, inside, p[1..], p[1], b);
    }
  }

  // ----- Adjacency and the worklist

  type Adjacency<N(==)> = map<N, set<N>>

  function SuccessorsOf<N(==)>(adjacency: Adjacency<N>, x: N): set<N> {
    if x in adjacency then adjacency[x] else {}
  }

  ghost function EdgesOf<N>(adjacency: Adjacency<N>): Graph<N> {
    set x, y | x in adjacency && y in adjacency[x] :: (x, y)
  }

  /** Adds every row to the set of its source, which starts empty. */
  method BuildAdjacency<N(==)>(start: Adjacency<N>, rows: seq<(N, N)>) returns (adjacency: Adjacency<N>)
    ensures EdgesOf(adjacency) == EdgesOf(start) + set r | r in rows
  {
    adjacency := start;
    for i := 0 to |rows|
      invariant EdgesOf(adjacency) == EdgesOf(start) + set r | r in rows[..i]
    {
      var (x, y) := rows[i];
      assert rows[..i + 1] == rows[..i] + [(x, y)];
      ghost var before := EdgesOf(adjacency);
      adjacency := adjacency[x := SuccessorsOf(adjacency, x) + {y}];
      assert EdgesOf(adjacency) == before + {(x, y)};
    }
    assert rows[..|rows|] == rows;
  }

  method Enumerate<N(==)>(s: set<N>) returns (r: seq<N>)
    ensures forall x :: x in r <==> x in s
  {
    r := [];
    var rest := s;
    while rest != {}
      invariant rest <= s
      invariant forall x :: x in r <==> x in s - rest
      decreases rest
    {
      var x :| x in rest;
      r := r + [x];
      rest := rest - {x};
    }
  }

  ghost function Nodes<N>(adjacency: Adjacency<N>, starts: seq<N>): set<N> {
    (set x | x in starts) + (set x, y | x in adjacency && y in adjacency[x] :: y)
  }

  ghost predicate FromStarts<N(!new)>(e: Graph<N>, starts: seq<N>, x: N) {
    exists s :: s in starts && Reaches(e, s, x)
  }

  lemma StepFromStarts<N(!new)>(e: Graph<N>, starts: seq<N>, x: N, y: N)
    requires FromStarts(e, starts, x) && (x, y) in e
    ensures FromStarts(e, starts, y)
  {
    var s :| s in starts && Reaches(e, s, x);
    ReachesItself(e, y);
    ReachesStep(e, x, y, y);
    ReachesTransitive(e, s, x, y);
  }

  /** A closed set holding every start and not the goal shows the goal unreachable. */
  lemma ClosedWithoutGoal<N(!new)>(e: Graph<N>, starts: seq<N>, inside: set<N>, goal: N)
    requires forall x, y :: (x, y) in e && x in inside ==> y in inside
    requires (forall s :: s in starts ==> s in inside) && goal !in inside
    ensures !FromStarts(e, starts, goal)
  {
    if FromStarts(e, starts, goal) {
      var s :| s in starts && Reaches(e, s, goal);
      var p :| PathFromTo(e, p, s, goal);
      PathStaysInside(e, inside, p, s, goal);
    }
  }

  /** Pops a node, stops at the goal, skips visited nodes, otherwise pushes the successors. */
  method Search<N(==, !new)>(adjacency: Adjacency<N>, starts: seq<N>, goal: N) returns (found: bool)
    ensures found <==> FromStarts(EdgesOf(adjacency), starts, goal)
  {
    ghost var e := EdgesOf(adjacency);
    var pending := starts;
    var visited: set<N> := {};
    forall x | x in pending ensures FromStarts(e, starts, x) {
      ReachesItself(e, x);
    }
    while pending != []
      invariant forall x :: x in pending ==> x in Nodes(adjacency, starts) && FromStarts(e, starts, x)
      invariant visited <= Nodes(adjacency, starts) && goal !in visited
      invariant forall s :: s in starts ==> s in visited || s in pending
      invariant forall x, y :: (x, y) in e && x in visited ==> y in visited || y in pending
      decreases Nodes(adjacency, starts) - visited, |pending|
    {
      var node := pending[|pending| - 1];
      var rest := pending[..|pending| - 1];
      assert pending == rest + [node];
      assert node in pending;
      if node == goal {
        return true;
      }
      pending := rest;
      if node in visited {
        continue;
      }
      visited := visited + {node};
      var next := Enumerate(SuccessorsOf(adjacency, node));
      forall y | y in next ensures y in Nodes(adjacency, starts) && FromStarts(e, starts, y) {
        assert (node, y) in e;
        StepFromStarts(e, starts, node, y);
      }
      pending := pending + next;
    }
    ClosedWithoutGoal(e, starts, visited, goal);
    return false;
  }
}
