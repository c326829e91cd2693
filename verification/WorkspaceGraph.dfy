/** The workspace dependency graph: building it, searching it for cycles, and ordering the
    packages dependency first (tools/workspace-packages.js). */
module WorkspaceGraph {
  import opened Basics

  /** A package and the names listed in each of its manifest's dependency sections. */
  datatype Package = Package(name: string, sections: seq<seq<string>>)

  /** Both maps have the package names as keys and sets of package names as values. */
  datatype Graph = Graph(dependencies: map<string, set<string>>, dependents: map<string, set<string>>)

  ghost predicate Closed(edges: map<string, set<string>>) {
    forall n <- edges :: edges[n] <= edges.Keys
  }

  /** The two maps describe the same edges. */
  ghost predicate WellFormed(g: Graph) {
    && Closed(g.dependencies)
    && Closed(g.dependents)
    && g.dependents.Keys == g.dependencies.Keys
    && forall a, b | a in g.dependencies && b in g.dependencies ::
         b in g.dependencies[a] <==> a in g.dependents[b]
  }

  function Names(packages: seq<Package>): (r: seq<string>)
    ensures |r| == |packages|
  {
    seq(|packages|, i requires 0 <= i < |packages| => packages[i].name)
  }

  // ---------------------------------------------------------------- paths and cycles

  /** Each name depends on the next one. */
  ghost predicate Walk(edges: map<string, set<string>>, p: seq<string>) {
    && (forall i :: 0 <= i < |p| ==> p[i] in edges)
    && forall i :: 0 <= i < |p| - 1 ==> p[i + 1] in edges[p[i]]
  }

  ghost predicate IsCycle(edges: map<string, set<string>>, c: seq<string>) {
    |c| >= 2 && Walk(edges, c) && c[0] == c[|c| - 1]
  }

  ghost predicate Acyclic(edges: map<string, set<string>>) {
    forall c :: !IsCycle(edges, c)
  }

  /** Every name comes after all of its dependencies. */
  ghost predicate DependencyFirst(edges: map<string, set<string>>, order: seq<string>) {
    && Distinct(order)
    && forall i :: 0 <= i < |order| ==> order[i] in edges && edges[order[i]] <= Elements(order[..i])
  }

  /** A dependency-first order of all the packages. */
  ghost predicate IsOrder(edges: map<string, set<string>>, order: seq<string>) {
    DependencyFirst(edges, order) && Elements(order) == edges.Keys
  }

  /** Following an edge moves strictly to the left in a dependency-first order. */
  lemma {:induction false} WalkMovesLeft(edges: map<string, set<string>>, order: seq<string>, p: seq<string>, i: nat)
    requires DependencyFirst(edges, order) && Walk(edges, p) && |p| >= 2
    requires i < |order| && order[i] == p[0]
    ensures exists j :: 0 <= j < i && order[j] == p[|p| - 1]
  {
    assert p[1] in edges[p[0]];
    assert p[1] in Elements(order[..i]);
    var j :| 0 <= j < i && order[j] == p[1];
    if |p| > 2 {
      var q := p[1..];
      forall k | 0 <= k < |q| - 1 ensures q[k + 1] in edges[q[k]] {
        assert p[(k + 1) + 1] in edges[p[k + 1]];
      }
      WalkMovesLeft(edges, order, q, j);
      var k :| 0 <= k < j && order[k] == q[|q| - 1];
    }
  }

  /** A graph with a dependency-first order has no cycle. */
  lemma OrderExcludesCycles(edges: map<string, set<string>>, order: seq<string>)
    requires IsOrder(edges, order)
    ensures Acyclic(edges)
  {
    forall c ensures !IsCycle(edges, c) {
      if IsCycle(edges, c) {
        assert c[0] in Elements(order);
        var i :| 0 <= i < |order| && order[i] == c[0];
        WalkMovesLeft(edges, order, c, i);
      }
    }
  }

  lemma SuffixIsWalk(edges: map<string, set<string>>, p: seq<string>, i: nat, next: string)
    requires Walk(edges, p) && i < |p| && p[i] == next && next in edges[p[|p| - 1]]
    ensures IsCycle(edges, p[i..] + [next])
  {
    var c := p[i..] + [next];
    forall k | 0 <= k < |c| - 1 ensures c[k + 1] in edges[c[k]] {
      assert c[k] == p[i + k];
      if k < |c| - 2 { assert c[k + 1] == p[i + k + 1]; }
    }
  }

  lemma LongerWalk(edges: map<string, set<string>>, p: seq<string>, next: string)
    requires Walk(edges, p) && Distinct(p) && p != [] && next !in p
    requires next in edges && next in edges[p[|p| - 1]]
    ensures Walk(edges, p + [next]) && Distinct(p + [next]) && Elements(p + [next]) == Elements(p) + {next}
  {
    var q := p + [next];
    forall k | 0 <= k < |q| - 1 ensures q[k + 1] in edges[q[k]] {
      if k < |p| - 1 { assert p[k + 1] in edges[p[k]]; }
    }
  }

  /** Every name of the set depends on some name of the set. */
  ghost predicate NoSource(edges: map<string, set<string>>, s: set<string>) {
    s <= edges.Keys && forall n <- s :: edges[n] * s != {}
  }

  /** In such a set there is a cycle. */
  lemma {:induction false} NoSourceMakesCycle(edges: map<string, set<string>>, s: set<string>, p: seq<string>)
    requires NoSource(edges, s)
    requires p != [] && Distinct(p) && Walk(edges, p) && Elements(p) <= s
    ensures !Acyclic(edges)
    decreases |s| - |p|
  {
    hide Walk, Distinct, NoSource, IsCycle;
    var next := SuccessorWithin(edges, s, p[|p| - 1]);
    if next in p {
      var i :| 0 <= i < |p| && p[i] == next;
      SuffixIsWalk(edges, p, i, next);
    } else {
      LongerWalk(edges, p, next);
      DistinctSize(p + [next]);
      SizeOfSubset(Elements(p + [next]), s);
      NoSourceMakesCycle(edges, s, p + [next]);
    }
  }

  lemma SuccessorWithin(edges: map<string, set<string>>, s: set<string>, n: string) returns (next: string)
    requires NoSource(edges, s) && n in s
    ensures n in edges && next in edges[n] && next in s && next in edges
  {
    assert edges[n] * s != {};
    next :| next in edges[n] * s;
  }

  lemma {:induction false} SizeOfSubset<T>(a: set<T>, b: set<T>)
    requires a <= b
    ensures |a| <= |b|
  {
    assert b == a + (b - a);
  }

  // ---------------------------------------------------------------- building the graph

  /** The graph with the edges from `name` to the members of `more` added. */
  ghost predicate Extends(g: Graph, g': Graph, name: string, more: set<string>) {
    && WellFormed(g') && g'.dependencies.Keys == g.dependencies.Keys
    && forall n <- g.dependencies ::
         g'.dependencies[n] == if n == name then g.dependencies[n] + more * g.dependencies.Keys else g.dependencies[n]
  }

  lemma ExtendsMore(g: Graph, g1: Graph, g2: Graph, name: string, a: set<string>, b: set<string>)
    requires WellFormed(g) && Extends(g, g1, name, a) && Extends(g1, g2, name, b)
    ensures Extends(g, g2, name, a + b)
  {
  }

  method AddEdge(g: Graph, name: string, target: string) returns (g': Graph)
    requires WellFormed(g) && name in g.dependencies && target in g.dependencies
    ensures Extends(g, g', name, {target})
  {
    g' := Graph(g.dependencies[name := g.dependencies[name] + {target}],
                g.dependents[target := g.dependents[target] + {name}]);
  }

  /** One manifest section; names that are not workspace packages are skipped. */
  method AddSection(g: Graph, name: string, section: seq<string>) returns (g': Graph)
    requires WellFormed(g) && name in g.dependencies
    ensures Extends(g, g', name, Elements(section))
  {
    g' := g;
    for k := 0 to |section|
      invariant Extends(g, g', name, Elements(section[..k]))
    {
      assert Elements(section[..k + 1]) == Elements(section[..k]) + {section[k]} by {
        assert section[..k + 1] == section[..k] + [section[k]];
      }
      ghost var before := g';
      if section[k] in g.dependencies {
        g' := AddEdge(g', name, section[k]);
      }
      assert Extends(before, g', name, {section[k]});
      ExtendsMore(g, before, g', name, Elements(section[..k]), {section[k]});
    }
    assert section[..|section|] == section;
  }

  function Declared(sections: seq<seq<string>>): set<string> {
    set s, d | s in sections && d in s :: d
  }

  method AddPackage(g: Graph, p: Package) returns (g': Graph)
    requires WellFormed(g) && p.name in g.dependencies
    ensures Extends(g, g', p.name, Declared(p.sections))
  {
    g' := g;
    for k := 0 to |p.sections|
      invariant Extends(g, g', p.name, Declared(p.sections[..k]))
    {
      assert Declared(p.sections[..k + 1]) == Declared(p.sections[..k]) + Elements(p.sections[k]) by {
        assert p.sections[..k + 1] == p.sections[..k] + [p.sections[k]];
      }
      ghost var before := g';
      g' := AddSection(g', p.name, p.sections[k]);
      ExtendsMore(g, before, g', p.name, Declared(p.sections[..k]), Elements(p.sections[k]));
    }
    assert p.sections[..|p.sections|] == p.sections;
  }

  function NoEdges(names: set<string>): map<string, set<string>> {
    map n | n in names :: {}
  }

  /** The package depends on the workspace packages it declares. */
  ghost predicate HasDeclaredEdges(g: Graph, p: Package) {
    p.name in g.dependencies && g.dependencies[p.name] == Declared(p.sections) * g.dependencies.Keys
  }

  /** The first `i` packages have their edges and the others none yet. */
  ghost predicate Added(g: Graph, packages: seq<Package>, i: nat) {
    && (forall k :: 0 <= k < |packages| && k < i ==> HasDeclaredEdges(g, packages[k]))
    && forall k :: i <= k < |packages| ==> packages[k].name in g.dependencies && g.dependencies[packages[k].name] == {}
  }

  lemma AddedOne(g: Graph, g': Graph, packages: seq<Package>, i: nat)
    requires Added(g, packages, i) && i < |packages|
    requires Extends(g, g', packages[i].name, Declared(packages[i].sections))
    requires forall k :: 0 <= k < |packages| && k != i ==> packages[k].name != packages[i].name
    ensures Added(g', packages, i + 1)
  {
  }

  /** `buildWorkspaceGraph` up to the cycle search. */
  method BuildEdges(packages: seq<Package>) returns (g: Graph)
    requires Distinct(Names(packages))
    ensures WellFormed(g) && g.dependencies.Keys == Elements(Names(packages))
    ensures forall p <- packages :: HasDeclaredEdges(g, p)
    ensures forall p <- packages, d :: p.name in g.dependencies && (d in g.dependencies[p.name] <==> d in Names(packages) && Declares(p, d))
  {
    var names := Elements(Names(packages));
    assert forall i :: 0 <= i < |packages| ==> Names(packages)[i] == packages[i].name;
    g := Graph(NoEdges(names), NoEdges(names));
    hide Extends, WellFormed, HasDeclaredEdges, Names;
    for i := 0 to |packages|
      invariant WellFormed(g) && g.dependencies.Keys == names
      invariant Added(g, packages, i)
    {
      ghost var before := g;
      g := AddPackage(g, packages[i]);
      forall k | 0 <= k < |packages| && k != i ensures packages[k].name != packages[i].name {
        assert Names(packages)[k] != Names(packages)[i];
      }
      AddedOne(before, g, packages, i);
    }
    forall p <- packages, d ensures p.name in g.dependencies && (d in g.dependencies[p.name] <==> d in Names(packages) && Declares(p, d)) {
      EdgeIsDeclared(g, p, d);
      assert d in Names(packages) <==> d in Elements(Names(packages));
    }
  }

  /** Some dependency section of the package lists the name. */
  ghost predicate Declares(p: Package, d: string) {
    exists k :: 0 <= k < |p.sections| && d in p.sections[k]
  }

  lemma EdgeIsDeclared(g: Graph, p: Package, d: string)
    requires HasDeclaredEdges(g, p)
    ensures p.name in g.dependencies && (d in g.dependencies[p.name] <==> d in g.dependencies && Declares(p, d))
  {
    if d in Declared(p.sections) {
      var s :| s in p.sections && d in s;
      var k :| 0 <= k < |p.sections| && p.sections[k] == s;
    }
    if Declares(p, d) {
      var k :| 0 <= k < |p.sections| && d in p.sections[k];
      assert p.sections[k] in p.sections;
    }
  }

  // ---------------------------------------------------------------- the cycle search

  datatype Mark = Visiting | Done

  /** The depth-first search with its shared marks and stack. */
  class CycleSearch {
    const edges: map<string, set<string>>
    var marks: map<string, Mark>
    var stack: seq<string>
    /** The names marked `Done`, in the order they finished. */
    ghost var finished: seq<string>

    ghost predicate Valid()
      reads this
    {
      && Closed(edges) && marks.Keys <= edges.Keys
      && Walk(edges, stack)
      && Distinct(stack) && Elements(stack) == (set n | n in marks && marks[n] == Visiting)
      && DependencyFirst(edges, finished)
      && Elements(finished) == (set n | n in marks && marks[n] == Done)
    }

    constructor (edges: map<string, set<string>>)
      requires Closed(edges)
      ensures Valid() && this.edges == edges && marks == map[] && stack == []
    {
      this.edges := edges;
      marks, stack, finished := map[], [], [];
    }

    /** Finishes `name` and everything it needs, or reports the cycle the search ran into. */
    method Visit(name: string) returns (cycle: Option<seq<string>>)
      requires Valid() && name in edges
      requires stack != [] ==> name in edges[stack[|stack| - 1]]
      modifies this
      ensures cycle.Some? ==> IsCycle(edges, cycle.value)
      ensures cycle.None? ==> Valid() && stack == old(stack)
      ensures cycle.None? ==> old(marks.Keys) <= marks.Keys && name in marks && marks[name] == Done
      ensures cycle.None? ==> forall n <- old(marks) :: marks[n] == old(marks[n])
      decreases edges.Keys - marks.Keys
    {
      if name in marks {
        if marks[name] == Done { return None; }
        assert name in Elements(stack);
        var start :| 0 <= start < |stack| && stack[start] == name;
        SuffixIsWalk(edges, stack, start, name);
        return Some(stack[start..] + [name]);
      }
      Push(name);
      var needed := Ascending(edges[name]);
      for i := 0 to |needed|
        invariant Valid() && stack == old(stack) + [name]
        invariant old(marks.Keys) + {name} <= marks.Keys && marks[name] == Visiting
        invariant forall n <- old(marks) :: marks[n] == old(marks[n])
        invariant forall k :: 0 <= k < i ==> needed[k] in marks && marks[needed[k]] == Done
      {
        assert needed[i] in Elements(needed);
        var found := Visit(needed[i]);
        if found.Some? { return found; }
      }
      assert forall d <- edges[name] :: d in Elements(needed);
      Pop(name);
      return None;
    }

    method Push(name: string)
      requires Valid() && name in edges && name !in marks
      requires stack != [] ==> name in edges[stack[|stack| - 1]]
      modifies this
      ensures Valid() && stack == old(stack) + [name] && marks == old(marks)[name := Visiting]
    {
      assert name !in Elements(stack);
      marks := marks[name := Visiting];
      stack := stack + [name];
      assert Elements(stack) == old(Elements(stack)) + {name};
    }

    method Pop(name: string)
      requires Valid() && stack != [] && stack[|stack| - 1] == name
      requires forall d <- edges[name] :: d in marks && marks[d] == Done
      modifies this
      ensures Valid() && stack == old(stack)[..|old(stack)| - 1] && marks == old(marks)[name := Done]
    {
      assert name in Elements(stack);
      assert name !in Elements(finished);
      stack := stack[..|stack| - 1];
      marks := marks[name := Done];
      finished := finished + [name];
      assert old(stack) == stack + [name];
      assert Elements(stack) == old(Elements(stack)) - {name};
      assert Elements(finished) == old(Elements(finished)) + {name};
      assert forall i :: 0 <= i < |old(finished)| ==> finished[..i] == old(finished)[..i];
      assert finished[..|old(finished)|] == old(finished);
    }
  }

  /** The search over all packages: it reports a cycle exactly when there is one, and the
      cycle it reports is genuine. */
  method FindCycle(edges: map<string, set<string>>) returns (cycle: Option<seq<string>>)
    requires Closed(edges)
    ensures cycle.None? <==> Acyclic(edges)
    ensures cycle.Some? ==> IsCycle(edges, cycle.value)
  {
    var search := new CycleSearch(edges);
    var names := Ascending(edges.Keys);
    for i := 0 to |names|
      invariant search.Valid() && search.edges == edges && search.stack == []
      invariant forall k :: 0 <= k < i ==> names[k] in search.marks && search.marks[names[k]] == Done
    {
      assert names[i] in Elements(names);
      cycle := search.Visit(names[i]);
      if cycle.Some? { return; }
    }
    assert Elements(search.finished) == edges.Keys by {
      forall n <- edges ensures n in Elements(search.finished) {
        assert n in Elements(names);
        var k :| 0 <= k < |names| && names[k] == n;
        assert n in search.marks && search.marks[n] == Done;
      }
    }
    OrderExcludesCycles(edges, search.finished);
    cycle := None;
  }

  // ---------------------------------------------------------------- the ordered sort

  /** The names that can come next: not yet ordered, with every dependency ordered. */
  ghost function Ready(edges: map<string, set<string>>, done: set<string>): set<string> {
    set n | n in edges && n !in done && edges[n] <= done
  }

  ghost predicate IsLeast(x: string, s: set<string>) {
    x in s && forall y <- s :: y == x || Less(x, y)
  }

  /** Every name is the least one that could stand at its place. */
  ghost predicate Greedy(edges: map<string, set<string>>, order: seq<string>) {
    forall i :: 0 <= i < |order| ==> IsLeast(order[i], Ready(edges, Elements(order[..i])))
  }

  ghost predicate Precedes(a: seq<string>, b: seq<string>) {
    exists k :: 0 <= k < |a| && k < |b| && a[..k] == b[..k] && Less(a[k], b[k])
  }

  lemma {:induction false} FirstDifference(a: seq<string>, b: seq<string>, from: nat) returns (k: nat)
    requires |a| == |b| && a != b && from <= |a| && a[..from] == b[..from]
    ensures k < |a| && a[..k] == b[..k] && a[k] != b[k]
    decreases |a| - from
  {
    k := from;
    assert a[..|a|] == a && b[..|b|] == b;
    if a[from] == b[from] {
      assert a[..from + 1] == a[..from] + [a[from]] && b[..from + 1] == b[..from] + [b[from]];
      k := FirstDifference(a, b, from + 1);
    }
  }

  lemma PlaceIsReady(edges: map<string, set<string>>, order: seq<string>, k: nat)
    requires DependencyFirst(edges, order) && k < |order|
    ensures order[k] in Ready(edges, Elements(order[..k]))
  {
    assert forall i :: 0 <= i < k ==> order[..k][i] == order[i] && order[i] != order[k];
  }

  /** A greedy order is the least of all dependency-first orders. */
  lemma GreedyIsLeast(edges: map<string, set<string>>, order: seq<string>, other: seq<string>)
    requires IsOrder(edges, order) && Greedy(edges, order) && IsOrder(edges, other)
    ensures order == other || Precedes(order, other)
  {
    DistinctSize(order);
    DistinctSize(other);
    if order != other {
      var k := FirstDifference(order, other, 0);
      PlaceIsReady(edges, other, k);
      assert IsLeast(order[k], Ready(edges, Elements(order[..k])));
    }
  }

  /** How many dependencies of each package are not in `done`. */
  ghost predicate CountsMissing(edges: map<string, set<string>>, done: set<string>, indegree: map<string, int>) {
    indegree.Keys == edges.Keys && forall n <- edges :: indegree[n] == |edges[n] - done|
  }

  ghost predicate IsListOf(list: seq<string>, names: set<string>) {
    Increasing(list) && Elements(list) == names
  }

  ghost predicate Counted(edges: map<string, set<string>>, indegree: map<string, int>, ready: seq<string>, ordered: seq<string>) {
    && DependencyFirst(edges, ordered) && Greedy(edges, ordered)
    && CountsMissing(edges, Elements(ordered), indegree)
    && IsListOf(ready, Ready(edges, Elements(ordered)))
  }

  /** Taking the head of the sorted ready list keeps the order greedy. */
  lemma HeadExtends(edges: map<string, set<string>>, ready: seq<string>, ordered: seq<string>)
    requires DependencyFirst(edges, ordered) && Greedy(edges, ordered)
    requires Increasing(ready) && Elements(ready) == Ready(edges, Elements(ordered)) && ready != []
    ensures DependencyFirst(edges, ordered + [ready[0]]) && Greedy(edges, ordered + [ready[0]])
  {
    var name, more := ready[0], ordered + [ready[0]];
    assert name in Elements(ready);
    assert name in Ready(edges, Elements(ordered)) && name !in Elements(ordered);
    assert more[..|ordered|] == ordered;
    assert forall i :: 0 <= i < |ordered| ==> more[..i] == ordered[..i];
    forall y <- Ready(edges, Elements(ordered)) ensures y == name || Less(name, y) {
      assert y in Elements(ready);
      var k :| 0 <= k < |ready| && ready[k] == y;
    }
  }

  lemma LeftoverHasNoSource(edges: map<string, set<string>>, done: set<string>)
    requires Closed(edges) && Ready(edges, done) == {}
    ensures NoSource(edges, edges.Keys - done)
  {
    var left := edges.Keys - done;
    forall n <- left ensures edges[n] * left != {} {
      assert n !in Ready(edges, done);
      var d :| d in edges[n] && d !in done;
      assert d in edges[n] * left;
    }
  }

  /** With nothing ready, the packages left over hold a cycle. */
  lemma LeftoverHasCycle(edges: map<string, set<string>>, done: set<string>)
    requires Closed(edges) && Ready(edges, done) == {} && !(edges.Keys <= done)
    ensures !Acyclic(edges)
  {
    hide NoSource, Acyclic, Ready, Closed, Walk, Distinct;
    LeftoverHasNoSource(edges, done);
    var n :| n in edges.Keys && n !in done;
    SingleIsWalk(edges, n);
    NoSourceMakesCycle(edges, edges.Keys - done, [n]);
  }

  lemma SingleIsWalk(edges: map<string, set<string>>, n: string)
    requires n in edges
    ensures Walk(edges, [n]) && Distinct([n]) && Elements([n]) == {n}
  {
  }

  /** One less dependency to wait for, for the dependents of the name just ordered. */
  lemma OneLessToWaitFor(needs: set<string>, done: set<string>, name: string)
    requires name !in done
    ensures |needs - (done + {name})| == |needs - done| - (if name in needs then 1 else 0)
  {
    if name in needs {
      assert needs - done == (needs - (done + {name})) + {name};
    } else {
      assert needs - done == needs - (done + {name});
    }
  }

  /** `sortWorkspacePackages`. It fails exactly on a cyclic graph; otherwise its order is the
      lexicographically smallest dependency-first order of the packages. */
  method SortPackages(g: Graph) returns (result: Option<seq<string>>)
    requires WellFormed(g)
    ensures result.Some? <==> Acyclic(g.dependencies)
    ensures result.Some? ==> IsLeastOrder(g.dependencies, result.value)
  {
    hide *;
    var indegree, ready := Start(g);
    var ordered: seq<string> := [];
    while ready != []
      invariant Counted(g.dependencies, indegree, ready, ordered)
      invariant Elements(ordered) <= g.dependencies.Keys
      decreases g.dependencies.Keys - Elements(ordered)
    {
      indegree, ready, ordered := OrderNext(g, indegree, ready, ordered);
    }
    if |ordered| != |g.dependencies.Keys| {
      OrderEnds(g, indegree, ordered);
      return None;
    }
    OrderEnds(g, indegree, ordered);
    return Some(ordered);
  }

  ghost predicate IsLeastOrder(edges: map<string, set<string>>, order: seq<string>) {
    IsOrder(edges, order) && forall other :: IsOrder(edges, other) ==> order == other || Precedes(order, other)
  }

  /** When nothing is ready any more, the order is complete exactly if there is no cycle. */
  lemma OrderEnds(g: Graph, indegree: map<string, int>, ordered: seq<string>)
    requires WellFormed(g) && Counted(g.dependencies, indegree, [], ordered)
    requires Elements(ordered) <= g.dependencies.Keys
    ensures |ordered| == |g.dependencies.Keys| <==> Acyclic(g.dependencies)
    ensures |ordered| == |g.dependencies.Keys| ==> IsLeastOrder(g.dependencies, ordered)
  {
    hide Acyclic, Ready, Greedy, DependencyFirst, Closed, CountsMissing, Distinct, Increasing;
    var edges := g.dependencies;
    assert Closed(edges);
    OrderIsDistinct(edges, ordered);
    SameSize(Elements(ordered), edges.Keys);
    assert Ready(edges, Elements(ordered)) == Elements([]) == {};
    if |ordered| == |edges.Keys| {
      CompleteIsLeast(edges, ordered);
    } else {
      LeftoverHasCycle(edges, Elements(ordered));
    }
  }

  lemma OrderIsDistinct(edges: map<string, set<string>>, ordered: seq<string>)
    requires DependencyFirst(edges, ordered)
    ensures |Elements(ordered)| == |ordered|
  {
    DistinctSize(ordered);
  }

  lemma CompleteIsLeast(edges: map<string, set<string>>, order: seq<string>)
    requires IsOrder(edges, order) && Greedy(edges, order)
    ensures Acyclic(edges) && IsLeastOrder(edges, order)
  {
    hide Acyclic, Greedy, Precedes;
    OrderExcludesCycles(edges, order);
    forall other | IsOrder(edges, other) ensures order == other || Precedes(order, other) {
      GreedyIsLeast(edges, order, other);
    }
  }

  lemma SameSize<T>(a: set<T>, b: set<T>)
    requires a <= b
    ensures |a| == |b| <==> b <= a
  {
    assert b == a + (b - a);
  }

  method Start(g: Graph) returns (indegree: map<string, int>, ready: seq<string>)
    requires WellFormed(g)
    ensures Counted(g.dependencies, indegree, ready, []) && Elements([]) <= g.dependencies.Keys
  {
    hide DependencyFirst, Greedy;
    var edges := g.dependencies;
    indegree := map n | n in edges :: |edges[n]|;
    StartCounts(edges, indegree);
    ZeroMeansReady(edges, {}, indegree);
    hide Ready, CountsMissing, WaitsForNone, Closed, WellFormed, Increasing;
    ready := Ascending(WaitsForNone(indegree, {}));
    assert Elements([]) == {};
    NothingOrdered(edges);
  }

  lemma StartCounts(edges: map<string, set<string>>, indegree: map<string, int>)
    requires indegree == map n | n in edges :: |edges[n]|
    ensures CountsMissing(edges, {}, indegree)
  {
    forall n <- edges ensures indegree[n] == |edges[n] - {}| {
      assert edges[n] - {} == edges[n];
    }
  }

  lemma NothingOrdered(edges: map<string, set<string>>)
    ensures DependencyFirst(edges, []) && Greedy(edges, [])
  {
  }

  /** One round of the outer loop. */
  method OrderNext(g: Graph, indegree: map<string, int>, ready: seq<string>, ordered: seq<string>)
    returns (indegree': map<string, int>, ready': seq<string>, ordered': seq<string>)
    requires WellFormed(g) && Counted(g.dependencies, indegree, ready, ordered) && ready != []
    ensures Counted(g.dependencies, indegree', ready', ordered') && ordered' == ordered + [ready[0]]
    ensures ready[0] in g.dependencies && ready[0] !in Elements(ordered)
    ensures Elements(ordered') == Elements(ordered) + {ready[0]}
  {
    hide Greedy, DependencyFirst, CountsMissing, Increasing;
    var name := ready[0];
    assert name in Elements(ready);
    HeadExtends(g.dependencies, ready, ordered);
    ordered' := ordered + [name];
    TailOfList(ready);
    OrderIsDownClosed(g.dependencies, ordered);
    indegree', ready' := LowerDependents(g, indegree, ready[1..], Elements(ordered), name);
    assert Elements(ordered') == Elements(ordered) + {name};
  }

  lemma TailOfList(list: seq<string>)
    requires Increasing(list) && list != []
    ensures IsListOf(list[1..], Elements(list) - {list[0]})
  {
    IncreasingDistinct(list);
    assert list == [list[0]] + list[1..];
  }

  /** The inner loop: every dependent of `name` waits for one dependency less, and joins the
      ready list when it waits for none. */
  method LowerDependents(g: Graph, indegree: map<string, int>, ready: seq<string>, ghost done: set<string>, name: string)
    returns (indegree': map<string, int>, ready': seq<string>)
    requires WellFormed(g) && name in Ready(g.dependencies, done)
    requires CountsMissing(g.dependencies, done, indegree) && DownClosed(g.dependencies, done)
    requires IsListOf(ready, Ready(g.dependencies, done) - {name})
    ensures CountsMissing(g.dependencies, done + {name}, indegree')
    ensures IsListOf(ready', Ready(g.dependencies, done + {name}))
  {
    hide CountsMissing, Ready, WaitsForNone, Increasing, WellFormed, Lowered, DownClosed, Distinct;
    BeforeLowering(g, indegree, done, name);
    indegree', ready' := indegree, ready;
    var waiting := Ascending(g.dependents[name]);
    IncreasingDistinct(waiting);
    for i := 0 to |waiting|
      invariant Lowered(g.dependencies, indegree, indegree', Elements(waiting[..i]))
      invariant IsListOf(ready', WaitsForNone(indegree', done + {name}))
    {
      OneMore(waiting, i);
      DependentWaits(g, indegree, done, name, waiting[i]);
      LowerOne(g.dependencies, indegree, indegree', Elements(waiting[..i]), waiting[i], done + {name});
      indegree' := indegree'[waiting[i] := indegree'[waiting[i]] - 1];
      if indegree'[waiting[i]] == 0 {
        ready' := Insert(waiting[i], ready');
      }
    }
    assert waiting[..|waiting|] == waiting;
    AfterLowering(g, indegree, indegree', done, name);
    ZeroMeansReady(g.dependencies, done + {name}, indegree');
  }

  lemma OneMore(xs: seq<string>, i: nat)
    requires Distinct(xs) && i < |xs|
    ensures Elements(xs[..i + 1]) == Elements(xs[..i]) + {xs[i]}
    ensures xs[i] !in Elements(xs[..i]) && xs[i] in Elements(xs)
  {
    assert xs[..i + 1] == xs[..i] + [xs[i]];
  }

  lemma NothingMissing(needs: set<string>, done: set<string>)
    ensures |needs - done| == 0 <==> needs <= done
  {
    if needs - done == {} {
      assert forall x <- needs :: x in done || x in needs - done;
    }
  }

  /** With correct counts, the packages that wait for none are the ready ones. */
  lemma ZeroMeansReady(edges: map<string, set<string>>, done: set<string>, indegree: map<string, int>)
    requires CountsMissing(edges, done, indegree)
    ensures WaitsForNone(indegree, done) == Ready(edges, done)
  {
    forall n <- edges ensures indegree[n] == 0 <==> edges[n] <= done {
      NothingMissing(edges[n], done);
    }
  }

  lemma BeforeLowering(g: Graph, indegree: map<string, int>, done: set<string>, name: string)
    requires WellFormed(g) && name in Ready(g.dependencies, done)
    requires CountsMissing(g.dependencies, done, indegree)
    ensures name in g.dependents && Lowered(g.dependencies, indegree, indegree, Elements([]))
    ensures WaitsForNone(indegree, done + {name}) == Ready(g.dependencies, done) - {name}
  {
    ZeroMeansReady(g.dependencies, done, indegree);
    assert WaitsForNone(indegree, done + {name}) == WaitsForNone(indegree, done) - {name};
  }

  /** Every dependent of a ready name still waits for it. */
  lemma DependentWaits(g: Graph, indegree: map<string, int>, done: set<string>, name: string, n: string)
    requires WellFormed(g) && name in Ready(g.dependencies, done) && DownClosed(g.dependencies, done)
    requires CountsMissing(g.dependencies, done, indegree) && n in g.dependents[name]
    ensures n in g.dependencies && n !in done && n != name && indegree[n] > 0
  {
    assert n in g.dependents.Keys;
    assert name in g.dependencies[n];
    NothingMissing(g.dependencies[n], done);
  }

  lemma LowerOne(edges: map<string, set<string>>, before: map<string, int>, after: map<string, int>, lowered: set<string>,
                 n: string, done: set<string>)
    requires Lowered(edges, before, after, lowered)
    requires n in edges && n !in lowered && n !in done && before[n] > 0
    ensures n in after && Lowered(edges, before, after[n := after[n] - 1], lowered + {n})
    ensures n !in WaitsForNone(after, done)
    ensures WaitsForNone(after[n := after[n] - 1], done) == WaitsForNone(after, done) + (if after[n] == 1 then {n} else {})
  {
  }

  lemma AfterLowering(g: Graph, before: map<string, int>, after: map<string, int>, done: set<string>, name: string)
    requires WellFormed(g) && name in Ready(g.dependencies, done)
    requires CountsMissing(g.dependencies, done, before)
    requires Lowered(g.dependencies, before, after, g.dependents[name])
    ensures CountsMissing(g.dependencies, done + {name}, after)
  {
    forall n <- g.dependencies ensures after[n] == |g.dependencies[n] - (done + {name})| {
      OneLessToWaitFor(g.dependencies[n], done, name);
    }
  }

  ghost predicate DownClosed(edges: map<string, set<string>>, done: set<string>) {
    done <= edges.Keys && forall n <- done :: edges[n] <= done
  }

  lemma OrderIsDownClosed(edges: map<string, set<string>>, order: seq<string>)
    requires DependencyFirst(edges, order)
    ensures DownClosed(edges, Elements(order))
  {
    forall n <- Elements(order) ensures n in edges && edges[n] <= Elements(order) {
      var i :| 0 <= i < |order| && order[i] == n;
      assert edges[order[i]] <= Elements(order[..i]) <= Elements(order);
    }
  }

  ghost predicate Lowered(edges: map<string, set<string>>, before: map<string, int>, after: map<string, int>, lowered: set<string>) {
    && before.Keys == after.Keys == edges.Keys
    && forall n <- edges :: after[n] == before[n] - (if n in lowered then 1 else 0)
  }

  /** The packages with a count of zero that are not ordered yet. */
  function WaitsForNone(indegree: map<string, int>, done: set<string>): set<string> {
    set n | n in indegree && n !in done && indegree[n] == 0
  }

  datatype Ordering = Ordered(graph: Graph, order: seq<string>) | Cyclic(cycle: seq<string>) | Unordered

  /** `buildWorkspaceGraph` followed by `sortWorkspacePackages`: after a search that found no
      cycle the sort never reports that the packages could not be ordered. */
  method OrderWorkspace(packages: seq<Package>) returns (r: Ordering)
    requires Distinct(Names(packages))
    ensures !r.Unordered?
    ensures r.Ordered? ==> WellFormed(r.graph) && r.graph.dependencies.Keys == Elements(Names(packages))
    ensures r.Ordered? ==> forall p <- packages :: HasDeclaredEdges(r.graph, p)
    ensures r.Ordered? ==> IsLeastOrder(r.graph.dependencies, r.order)
    ensures r.Cyclic? ==> exists g ::
      WellFormed(g) && (forall p <- packages :: HasDeclaredEdges(g, p)) && IsCycle(g.dependencies, r.cycle)
  {
    hide IsCycle, Acyclic, IsLeastOrder, HasDeclaredEdges, Distinct;
    var g := BuildEdges(packages);
    var cycle := FindCycle(g.dependencies);
    if cycle.Some? { return Cyclic(cycle.value); }
    var sorted := SortPackages(g);
    r := if sorted.Some? then Ordered(g, sorted.value) else Unordered;
  }

  // ---------------------------------------------------------------- selection

  datatype Selection = Selected(names: seq<string>) | Unknown(name: string)

  /** `selectWorkspacePackages`, for requested names that are strings. */
  method SelectPackages(g: Graph, order: seq<string>, requested: seq<string>) returns (r: Selection)
    requires WellFormed(g) && IsOrder(g.dependencies, order)
    ensures r.Selected? <==> Elements(requested) <= g.dependencies.Keys
    ensures r.Selected? ==> r.names == Keep(order, Elements(requested)) && Elements(r.names) == Elements(requested)
    ensures r.Selected? ==> ListedInOrder(order, r.names)
    ensures r.Unknown? ==> r.name in requested && r.name !in g.dependencies
  {
    for i := 0 to |requested|
      invariant Elements(requested[..i]) <= g.dependencies.Keys
    {
      if requested[i] !in g.dependencies { return Unknown(requested[i]); }
      assert requested[..i + 1] == requested[..i] + [requested[i]];
    }
    assert requested[..|requested|] == requested;
    KeptInOrder(order, Elements(requested));
    return Selected(Keep(order, Elements(requested)));
  }
}
