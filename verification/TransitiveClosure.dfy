/** `transitiveClosure` and what it computes (tools/affected-validation.js). */
module TransitiveClosure {
  import opened Basics
  import opened WorkspaceGraph

  type Edges = map<string, set<string>>

  /** The edges of a name; none when the map has no entry for it. */
  function From(edges: Edges, n: string): set<string> {
    if n in edges then edges[n] else {}
  }

  ghost predicate ClosedUnder(edges: Edges, s: set<string>) {
    forall n <- s :: From(edges, n) <= s
  }

  ghost predicate IsLeastClosed(edges: Edges, seeds: set<string>, r: set<string>) {
    && seeds <= r && ClosedUnder(edges, r)
    && forall s :: seeds <= s && ClosedUnder(edges, s) ==> r <= s
  }

  /** Everything any member of the closure can come from. */
  ghost function Universe(edges: Edges, seeds: set<string>): set<string> {
    seeds + set n, d | n in edges && d in edges[n] :: d
  }

  ghost predicate Exploring(edges: Edges, seeds: set<string>, result: set<string>, queue: seq<string>) {
    && seeds <= result <= Universe(edges, seeds)
    && Increasing(queue) && Elements(queue) <= result
    && forall s :: seeds <= s && ClosedUnder(edges, s) ==> result <= s
  }

  ghost predicate Explored(edges: Edges, result: set<string>, queue: seq<string>) {
    forall n <- result :: n in Elements(queue) || From(edges, n) <= result
  }

  /** The work-list loop computes the least closed set that contains the seeds. */
  method Closure(seeds: set<string>, edges: Edges) returns (result: set<string>)
    ensures IsLeastClosed(edges, seeds, result)
  {
    result := seeds;
    var queue := Ascending(seeds);
    assert Exploring(edges, seeds, result, queue);
    while queue != []
      invariant Exploring(edges, seeds, result, queue) && Explored(edges, result, queue)
      decreases Universe(edges, seeds) - result, |queue|
    {
      ghost var before := result;
      var name := queue[0];
      assert name in Elements(queue);
      TailElements(queue);
      result, queue := AddSuccessors(seeds, edges, result, queue[1..], name);
      if before != result {
        assert Universe(edges, seeds) - result < Universe(edges, seeds) - before;
      }
    }
    assert Elements(queue) == {};
  }

  ghost predicate Added(result: set<string>, queue: seq<string>, result': set<string>, queue': seq<string>) {
    && result <= result' && (result' == result ==> queue' == queue)
    && Elements(queue) <= Elements(queue') && result' - result <= Elements(queue')
  }

  lemma AddOne(seeds: set<string>, edges: Edges, result: set<string>, queue: seq<string>, name: string, next: string)
    requires Exploring(edges, seeds, result, queue) && name in result && next in From(edges, name) && next !in result
    ensures next !in Elements(queue) && Increasing(queue)
    ensures Exploring(edges, seeds, result + {next}, Insert(next, queue))
  {
    assert next !in Elements(queue);
    forall s | seeds <= s && ClosedUnder(edges, s) ensures result + {next} <= s {
      assert name in s && From(edges, name) <= s;
    }
  }

  /** The inner loop for one name taken from the queue. */
  method AddSuccessors(ghost seeds: set<string>, edges: Edges, result: set<string>, queue: seq<string>, name: string)
    returns (result': set<string>, queue': seq<string>)
    requires Exploring(edges, seeds, result, queue) && name in result
    requires forall n <- result :: n == name || n in Elements(queue) || From(edges, n) <= result
    ensures Exploring(edges, seeds, result', queue') && Explored(edges, result', queue')
    ensures Added(result, queue, result', queue')
  {
    hide Exploring;
    result', queue' := result, queue;
    var successors := Ascending(From(edges, name));
    for i := 0 to |successors|
      invariant Exploring(edges, seeds, result', queue') && Added(result, queue, result', queue')
      invariant forall k :: 0 <= k < i ==> successors[k] in result'
    {
      var next := successors[i];
      assert next in Elements(successors);
      if next !in result' {
        AddOne(seeds, edges, result', queue', name, next);
        result' := result' + {next};
        queue' := Insert(next, queue');
      }
    }
    assert From(edges, name) <= result' by {
      forall d <- From(edges, name) ensures d in result' {
        assert d in Elements(successors);
      }
    }
  }

  // ---------------------------------------------------------------- reachability

  ghost predicate Reaches(edges: Edges, a: string, b: string) {
    exists p :: p != [] && Walk(edges, p) && p[0] == a && p[|p| - 1] == b
  }

  lemma {:induction false} WalkStaysInside(edges: Edges, p: seq<string>, s: set<string>)
    requires p != [] && Walk(edges, p) && p[0] in s && ClosedUnder(edges, s)
    ensures p[|p| - 1] in s
  {
    if |p| > 1 {
      var front := p[..|p| - 1];
      assert Walk(edges, front) by {
        forall i | 0 <= i < |front| - 1 ensures front[i + 1] in edges[front[i]] { assert p[i + 1] in edges[p[i]]; }
      }
      WalkStaysInside(edges, front, s);
      assert p[(|p| - 2) + 1] in From(edges, p[|p| - 2]);
    }
  }

  ghost function ReachedFrom(edges: Edges, seeds: set<string>): set<string> {
    set n | n in edges && exists s :: s in seeds && Reaches(edges, s, n)
  }

  lemma ReachExtends(edges: Edges, a: string, b: string, c: string)
    requires Closed(edges) && Reaches(edges, a, b) && c in From(edges, b)
    ensures Reaches(edges, a, c)
  {
    var p :| p != [] && Walk(edges, p) && p[0] == a && p[|p| - 1] == b;
    var q := p + [c];
    forall i | 0 <= i < |q| - 1 ensures q[i + 1] in edges[q[i]] {
      if i < |p| - 1 { assert p[i + 1] in edges[p[i]]; }
    }
    assert Walk(edges, q);
  }

  lemma ReachIsReflexive(edges: Edges, a: string)
    requires a in edges
    ensures Reaches(edges, a, a)
  {
    assert Walk(edges, [a]);
  }

  /** In a graph over known names the closure is what can be reached from the seeds. */
  lemma ClosureIsReach(edges: Edges, seeds: set<string>, r: set<string>)
    requires Closed(edges) && seeds <= edges.Keys && IsLeastClosed(edges, seeds, r)
    ensures r == ReachedFrom(edges, seeds)
  {
    var reached := ReachedFrom(edges, seeds);
    forall n <- reached ensures n in r {
      ReachedIsInside(edges, seeds, r, n);
    }
    ReachedIsClosed(edges, seeds);
  }

  lemma ReachedIsInside(edges: Edges, seeds: set<string>, r: set<string>, n: string)
    requires seeds <= r && ClosedUnder(edges, r) && n in ReachedFrom(edges, seeds)
    ensures n in r
  {
    var s :| s in seeds && Reaches(edges, s, n);
    var p :| p != [] && Walk(edges, p) && p[0] == s && p[|p| - 1] == n;
    WalkStaysInside(edges, p, r);
  }

  lemma ReachedIsClosed(edges: Edges, seeds: set<string>)
    requires Closed(edges) && seeds <= edges.Keys
    ensures seeds <= ReachedFrom(edges, seeds) && ClosedUnder(edges, ReachedFrom(edges, seeds))
  {
    hide Reaches;
    var reached := ReachedFrom(edges, seeds);
    forall s <- seeds ensures s in reached { ReachIsReflexive(edges, s); }
    forall n <- reached ensures From(edges, n) <= reached {
      var s :| s in seeds && Reaches(edges, s, n);
      forall d <- From(edges, n) ensures d in reached { ReachExtends(edges, s, n, d); }
    }
  }

  /** Walking the dependents map forward is walking the dependencies map backward. */
  lemma ReverseReach(g: Graph, a: string, b: string)
    requires WellFormed(g) && Reaches(g.dependencies, a, b)
    ensures Reaches(g.dependents, b, a)
  {
    var p :| p != [] && Walk(g.dependencies, p) && p[0] == a && p[|p| - 1] == b;
    var q := seq(|p|, i requires 0 <= i < |p| => p[|p| - 1 - i]);
    forall i | 0 <= i < |q| - 1 ensures q[i + 1] in g.dependents[q[i]] {
      var k := |p| - 2 - i;
      assert q[i + 1] == p[k] && q[i] == p[k + 1] && p[k + 1] in g.dependencies[p[k]];
    }
    assert Walk(g.dependents, q);
  }

  // ---------------------------------------------------------------- ordered lists of closed sets

  /** A closed selection of a dependency-first order is itself dependency first. */
  lemma {:induction false} KeepClosedSet(edges: Edges, order: seq<string>, chosen: set<string>)
    requires DependencyFirst(edges, order)
    requires forall n <- Elements(order) * chosen :: From(edges, n) <= chosen
    ensures DependencyFirst(edges, Keep(order, chosen))
  {
    if order != [] {
      var front, x := order[..|order| - 1], order[|order| - 1];
      assert order == front + [x];
      assert forall i :: 0 <= i < |front| ==> front[i] == order[i] && front[..i] == order[..i];
      KeepClosedSet(edges, front, chosen);
      KeepSnoc(front, x, chosen);
      if x in chosen {
        assert edges[order[|order| - 1]] <= Elements(order[..|order| - 1]);
        assert x in Elements(order) * chosen;
        assert edges[x] <= Elements(front) * chosen == Elements(Keep(front, chosen));
        assert x !in Elements(front);
        AppendDependencyFirst(edges, Keep(front, chosen), x);
      } else {
        assert Keep(order, chosen) == Keep(front, chosen);
      }
    }
  }

  lemma AppendDependencyFirst(edges: Edges, order: seq<string>, x: string)
    requires DependencyFirst(edges, order) && x in edges && edges[x] <= Elements(order) && x !in Elements(order)
    ensures DependencyFirst(edges, order + [x])
  {
    var more := order + [x];
    assert forall i :: 0 <= i < |order| ==> more[..i] == order[..i] && more[i] == order[i];
    assert more[..|order|] == order;
  }

  /** Filtering keeps members distinct. */
  lemma {:induction false} KeepDistinct(order: seq<string>, chosen: set<string>)
    requires Distinct(order)
    ensures Distinct(Keep(order, chosen))
  {
    if order != [] {
      var rest := Keep(order[1..], chosen);
      KeepDistinct(order[1..], chosen);
      assert order[0] !in Elements(order[1..]);
      assert order[0] !in Elements(rest);
    }
  }
}
