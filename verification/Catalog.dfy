/**
 The component catalog refuses duplicate ids, unknown dependencies and dependency cycles.
 The cycle check is a recursive walk over two shared sets, `visiting` and `visited`; it is proved
 exact against cycles stated as closed walks, and the order in which it finishes components is
 proved to be a topological order.
 */
module Catalog {
  import opened Common

  datatype Component = Component(id: string, dependencies: seq<string>)

  datatype CatalogError =
    | DuplicateId
    | UnknownDependencies(component: string, missing: set<string>)
    | CycleAt(component: string)

  /** Every component id with the dependencies it declares. */
  type Graph = map<string, seq<string>>

  ghost predicate Closed(g: Graph) {
    forall c, d :: c in g && d in g[c] ==> d in g
  }

  ghost predicate Edge(g: Graph, a: string, b: string) {
    a in g && b in g[a]
  }

  /** `p` follows declared dependencies from its first component to its last. */
  ghost predicate IsWalk(g: Graph, p: seq<string>) {
    forall i :: 0 <= i < |p| - 1 ==> Edge(g, p[i], p[i + 1])
  }

  ghost predicate CycleThrough(g: Graph, c: string) {
    exists p: seq<string> :: |p| >= 2 && p[0] == c && p[|p| - 1] == c && IsWalk(g, p)
  }

  ghost predicate Cyclic(g: Graph) {
    exists c :: CycleThrough(g, c)
  }

  /** No component repeats and each one comes after everything it depends on. */
  ghost predicate TopologicalOrder(g: Graph, order: seq<string>) {
    && Distinct(order)
    && forall i :: 0 <= i < |order| ==> order[i] in g && forall d :: d in g[order[i]] ==> d in order[..i]
  }

  /** Along a walk, positions in a topological order only go down. */
  lemma {:induction false} WalkDescends(g: Graph, order: seq<string>, p: seq<string>, i: nat)
    requires TopologicalOrder(g, order)
    requires i < |order| && |p| >= 2 && p[0] == order[i] && IsWalk(g, p)
    ensures p[|p| - 1] in order[..i]
    decreases |p|
  {
    assert Edge(g, p[0], p[1]);
    if |p| > 2 {
      var j :| 0 <= j < i && order[j] == p[1];
      var rest := p[1..];
      forall k | 0 <= k < |rest| - 1
        ensures Edge(g, rest[k], rest[k + 1])
      {
        assert Edge(g, p[k + 1], p[k + 2]);
      }
      WalkDescends(g, order, rest, j);
    }
  }

  lemma FinishComponent(g: Graph, order: seq<string>, component: string)
    requires TopologicalOrder(g, order) && component in g && component !in order
    requires forall d :: d in g[component] ==> d in order
    ensures TopologicalOrder(g, order + [component])
    ensures Elems(order + [component]) == Elems(order) + {component}
  {
    var longer := order + [component];
    forall i | 0 <= i < |longer|
      ensures longer[i] in g && forall d :: d in g[longer[i]] ==> d in longer[..i]
    {
      assert longer[..i] == order[..i];
    }
  }

  /** A graph all of whose components have a topological order has no cycle, self-loops included. */
  lemma TopologicalOrderExcludesCycles(g: Graph, order: seq<string>)
    requires TopologicalOrder(g, order) && Elems(order) == g.Keys
    ensures !Cyclic(g)
  {
    if c :| CycleThrough(g, c) {
      var p :| |p| >= 2 && p[0] == c && p[|p| - 1] == c && IsWalk(g, p);
      assert Edge(g, p[0], p[1]);
      var i :| 0 <= i < |order| && order[i] == c;
      WalkDescends(g, order, p, i);
    }
  }

  /** The state of one walk: the two sets the nested `visit` shares. */
  class CycleCheck {
    const dependencies: Graph
    var visiting: set<string>
    var visited: set<string>
    ghost var trail: seq<string>     // the components being visited, outermost first
    ghost var finished: seq<string>  // `visited` in order of insertion

    ghost predicate Valid()
      reads this
    {
      && Closed(dependencies)
      && visiting == Elems(trail) && IsWalk(dependencies, trail)
      && visited == Elems(finished) && TopologicalOrder(dependencies, finished)
      && visiting !! visited
    }

    constructor (dependencies: Graph)
      requires Closed(dependencies)
      ensures Valid() && this.dependencies == dependencies && trail == finished == []
    {
      this.dependencies := dependencies;
      visiting, visited, trail, finished := {}, {}, [], [];
    }

    /** Returns the component at which a cycle was found, or None when `component` is finished. */
    method Visit(component: string) returns (cycleAt: Option<string>)
      requires Valid() && component in dependencies
      requires trail != [] ==> Edge(dependencies, trail[|trail| - 1], component)
      modifies this
      ensures cycleAt.None? ==> Valid() && trail == old(trail) && old(finished) <= finished
      ensures cycleAt.None? ==> old(visited) <= visited && component in visited
      ensures cycleAt.Some? ==> CycleThrough(dependencies, cycleAt.value)
      decreases dependencies.Keys - visiting
    {
      if component in visiting {
        ghost var i :| 0 <= i < |trail| && trail[i] == component;
        ghost var loop := trail[i..] + [component];
        assert IsWalk(dependencies, loop) by {
          forall k | 0 <= k < |loop| - 1
            ensures Edge(dependencies, loop[k], loop[k + 1])
          {
            assert loop[k] == trail[i + k];
          }
        }
        return Some(component);
      }
      if component in visited {
        return None;
      }
      visiting := visiting + {component};
      trail := trail + [component];
      ghost var down := trail;
      var declared := dependencies[component];
      for i := 0 to |declared|
        invariant Valid() && trail == down && old(finished) <= finished && old(visited) <= visited
        invariant forall d :: d in declared[..i] ==> d in visited
      {
        cycleAt := Visit(declared[i]);
        if cycleAt.Some? {
          return;
        }
      }
      visiting := visiting - {component};
      visited := visited + {component};
      trail := old(trail);
      assert declared[..|declared|] == declared;
      FinishComponent(dependencies, finished, component);
      finished := finished + [component];
      return None;
    }
  }

  /** `_validate_acyclic`: exact in both directions, with a witness for each answer. */
  method ValidateAcyclic(components: Graph, order: seq<string>)
      returns (cycleAt: Option<string>, ghost finished: seq<string>)
    requires Closed(components) && Elems(order) == components.Keys
    ensures cycleAt.None? <==> !Cyclic(components)
    ensures cycleAt.None? ==> TopologicalOrder(components, finished) && Elems(finished) == components.Keys
    ensures cycleAt.Some? ==> CycleThrough(components, cycleAt.value)
  {
    var check := new CycleCheck(components);
    for i := 0 to |order|
      invariant check.Valid() && check.dependencies == components && check.trail == []
      invariant forall c :: c in order[..i] ==> c in check.visited
    {
      cycleAt := check.Visit(order[i]);
      if cycleAt.Some? {
        finished := check.finished;
        return;
      }
    }
    finished := check.finished;
    assert order[..|order|] == order;
    assert Elems(finished) == components.Keys;
    TopologicalOrderExcludesCycles(components, finished);
    cycleAt := None;
  }

  function Ids(components: seq<Component>): seq<string> {
    seq(|components|, i requires 0 <= i < |components| => components[i].id)
  }

  /** The dictionary built from the list: a later component replaces an earlier one of the same id. */
  function GraphOf(components: seq<Component>): Graph {
    if components == [] then map[]
    else
      var last := components[|components| - 1];
      GraphOf(components[..|components| - 1])[last.id := last.dependencies]
  }

  lemma {:induction false} GraphKeys(components: seq<Component>)
    ensures GraphOf(components).Keys == Elems(Ids(components))
  {
    if components != [] {
      var n := |components| - 1;
      GraphKeys(components[..n]);
      assert Ids(components) == Ids(components[..n]) + [components[n].id];
      assert GraphOf(components).Keys == GraphOf(components[..n]).Keys + {components[n].id};
    } else {
      assert Ids(components) == [];
    }
  }

  /** An id occurs twice exactly when the dictionary comes out smaller than the list. */
  lemma DuplicatesShrinkTheGraph(components: seq<Component>)
    ensures |GraphOf(components)| == |components| <==> Distinct(Ids(components))
  {
    GraphKeys(components);
    assert |GraphOf(components)| == |GraphOf(components).Keys|;
    CardinalityOfDistinct(Ids(components));
  }

  lemma {:induction false} CardinalityOfDistinct(s: seq<string>)
    ensures |Elems(s)| <= |s| && (|Elems(s)| == |s| <==> Distinct(s))
  {
    if s != [] {
      var init, last := s[..|s| - 1], s[|s| - 1];
      CardinalityOfDistinct(init);
      assert s == init + [last];
      assert Elems(s) == Elems(init) + {last};
      assert Distinct(s) <==> Distinct(init) && last !in init;
    } else {
      assert Elems(s) == {};
    }
  }

  lemma {:induction false} GraphDependencies(components: seq<Component>, i: nat)
    requires i < |components| && Distinct(Ids(components))
    ensures components[i].id in GraphOf(components)
    ensures GraphOf(components)[components[i].id] == components[i].dependencies
  {
    var n := |components| - 1;
    if i < n {
      var rest := components[..n];
      assert forall k :: 0 <= k < n ==> Ids(rest)[k] == Ids(components)[k];
      GraphDependencies(rest, i);
      assert Ids(components)[i] != Ids(components)[n];
    }
  }

  function Missing(component: Component, known: Graph): set<string> {
    set d | d in component.dependencies && d !in known
  }

  ghost predicate NothingMissing(components: seq<Component>, n: nat)
    requires n <= |components|
  {
    forall k :: 0 <= k < n ==> Missing(components[k], GraphOf(components)) == {}
  }

  lemma ClosedWhenNothingMissing(components: seq<Component>)
    requires Distinct(Ids(components))
    requires NothingMissing(components, |components|)
    ensures Closed(GraphOf(components))
  {
    var g := GraphOf(components);
    GraphKeys(components);
    forall c, d | c in g && d in g[c]
      ensures d in g
    {
      var i :| 0 <= i < |components| && Ids(components)[i] == c;
      GraphDependencies(components, i);
      assert d !in Missing(components[i], g);
    }
  }

  /** The i-th component is the first that depends on an unknown one. */
  ghost predicate FirstIncomplete(components: seq<Component>, i: nat) {
    i < |components| && NothingMissing(components, i) && Missing(components[i], GraphOf(components)) != {}
  }

  /** The dictionary comprehension. */
  method Index(components: seq<Component>) returns (byId: Graph)
    ensures byId == GraphOf(components)
  {
    byId := map[];
    for i := 0 to |components|
      invariant byId == GraphOf(components[..i])
    {
      byId := byId[components[i].id := components[i].dependencies];
      assert components[..i + 1][..i] == components[..i];
    }
    assert components[..|components|] == components;
  }

  /** The loop over declared dependencies. */
  method FindIncomplete(components: seq<Component>, byId: Graph) returns (found: Option<nat>)
    requires byId == GraphOf(components)
    ensures found.None? ==> NothingMissing(components, |components|)
    ensures found.Some? ==> FirstIncomplete(components, found.value)
  {
    for i := 0 to |components|
      invariant NothingMissing(components, i)
    {
      if Missing(components[i], byId) != {} {
        return Some(i);
      }
    }
    return None;
  }

  /** `Catalog.__init__`: exactly which lists are accepted, and which error each other list raises. */
  method Build(components: seq<Component>) returns (r: Result<Graph, CatalogError>)
    ensures match r
            case Success(g) =>
              && Distinct(Ids(components)) && NothingMissing(components, |components|) && !Cyclic(GraphOf(components))
              && g == GraphOf(components)
            case Failure(DuplicateId) => !Distinct(Ids(components))
            case Failure(UnknownDependencies(id, missing)) =>
              && Distinct(Ids(components))
              && exists i: nat :: FirstIncomplete(components, i) && id == components[i].id
                                  && missing == Missing(components[i], GraphOf(components))
            case Failure(CycleAt(id)) =>
              && Distinct(Ids(components)) && NothingMissing(components, |components|)
              && CycleThrough(GraphOf(components), id)
  {
    var byId := Index(components);
    DuplicatesShrinkTheGraph(components);
    GraphKeys(components);
    if |byId| != |components| {
      return Failure(DuplicateId);
    }
    var incomplete := FindIncomplete(components, byId);
    if incomplete.Some? {
      var i := incomplete.value;
      return Failure(UnknownDependencies(components[i].id, Missing(components[i], byId)));
    }
    ClosedWhenNothingMissing(components);
    var cycleAt, _ := ValidateAcyclic(byId, Ids(components));
    match cycleAt
    case Some(component) => return Failure(CycleAt(component));
    case None => return Success(byId);
  }
}
