/** Queries over the dependency edges of tasks: the cycle search and the transitive dependents. */
module TaskGraph {
  import opened Basics
  import opened Digraph

  /** The upstream slugs of every task, in the order of its edges. */
  type Tasks = map<string, seq<string>>

  function EdgeGraph(tasks: Tasks): Graph<string> {
    map s | s in tasks :: set u | u in tasks[s]
  }

  // ---------------------------------------------------------------- the cycle search

  function Reversed(s: seq<string>): (r: seq<string>)
    ensures |r| == |s|
  {
    if s == [] then [] else Reversed(s[1..]) + [s[0]]
  }

  lemma {:induction false} ReversedSnoc(s: seq<string>, x: string)
    ensures Reversed(s + [x]) == [x] + Reversed(s)
  {
    if s == [] {
      assert (s + [x])[1..] == [];
    } else {
      assert (s + [x])[1..] == s[1..] + [x];
      ReversedSnoc(s[1..], x);
    }
  }

  ghost predicate MetFrom(parent: map<string, string>, walks: map<string, seq<string>>, x: string) {
    x in parent && x in walks && parent[x] in walks && walks[x] == walks[parent[x]] + [x]
  }

  /** `walks` holds, for every slug the search has met, the walk along which it was met. */
  ghost predicate Met(g: Graph<string>, start: string, parent: map<string, string>, walks: map<string, seq<string>>) {
    && parent.Keys == walks.Keys && start in walks && walks[start] == [start]
    && (forall x | x in walks :: WalkFrom(g, walks[x], start, x))
    && (forall x {:trigger MetFrom(parent, walks, x)} | x in walks && x != start :: MetFrom(parent, walks, x))
  }

  /** All edges of every slug met were followed, except those of the slugs in `open`. */
  ghost predicate Followed(g: Graph<string>, parent: map<string, string>, open: seq<string>) {
    forall x, y | x in parent && x !in open && Arc(g, x, y) :: y in parent
  }

  function Front(s: seq<string>): seq<string>
    requires s != []
  {
    s[..|s| - 1]
  }

  lemma TraceStep(g: Graph<string>, start: string, parent: map<string, string>, walks: map<string, seq<string>>,
                  current: string, path: seq<string>)
    requires Met(g, start, parent, walks) && current in parent && current != start
    ensures var up := parent[current];
            && up in walks && |walks[up]| < |walks[current]|
            && Front(walks[up]) + Reversed(path + [up]) == Front(walks[current]) + Reversed(path)
  {
    assert MetFrom(parent, walks, current);
    var w := walks[parent[current]];
    ReversedSnoc(path, parent[current]);
    assert Front(walks[current]) == w;
    assert w == Front(w) + [parent[current]];
  }

  /** The way back from `node` to where the search started, turned around. */
  method Trace(ghost g: Graph<string>, start: string, parent: map<string, string>,
               ghost walks: map<string, seq<string>>,
               node: string)
    returns (path: seq<string>)
    requires Met(g, start, parent, walks) && node in parent
    ensures path == walks[node]
  {
    path := [node];
    var current := node;
    ReversedSnoc([], node);
    assert [] + [node] == [node];
    assert walks[node] == Front(walks[node]) + [node];
    while current != start
      invariant current in parent
      invariant Front(walks[current]) + Reversed(path) == walks[node]
      decreases |walks[current]|
    {
      TraceStep(g, start, parent, walks, current, path);
      current := parent[current];
      path := path + [current];
    }
    assert Front(walks[start]) == [];
    path := Reversed(path);
  }

  lemma MeetTarget(g: Graph<string>, start: string, parent: map<string, string>, walks: map<string, seq<string>>,
                   x: string, y: string)
    requires Met(g, start, parent, walks) && x in parent && Arc(g, x, y) && y !in parent
    ensures Met(g, start, parent[y := x], walks[y := walks[x] + [y]])
  {
    JoinWalks(g, walks[x], [x, y]);
    assert walks[x] + [x, y][1..] == walks[x] + [y];
    var parent', walks' := parent[y := x], walks[y := walks[x] + [y]];
    forall z | z in walks' && z != start ensures MetFrom(parent', walks', z) {
      if z != y { assert MetFrom(parent, walks, z); }
    }
  }

  lemma CycleClosed(g: Graph<string>, p: seq<string>, a: string, b: string, x: string)
    requires WalkFrom(g, p, b, x) && Arc(g, x, a)
    ensures Reaches(g, b, a)
    ensures var c := [a] + p + [a]; Cycle(WithArc(g, a, b), c) && c[1] == b
  {
    assert WalkFrom(g, [x, a], x, a);
    JoinWalks(g, p, [x, a]);
    var h, c := WithArc(g, a, b), [a] + p + [a];
    forall i | 0 <= i < |c| - 1 ensures Arc(h, c[i], c[i + 1]) {
      if 0 < i < |p| { assert Arc(g, p[i - 1], p[i]); }
    }
  }

  /** When no edge is left to follow, what was not met is out of reach. */
  lemma SearchedAll(g: Graph<string>, start: string, parent: map<string, string>, goal: string)
    requires Followed(g, parent, []) && start in parent && goal !in parent
    ensures !Reaches(g, start, goal)
  {
    if Reaches(g, start, goal) {
      var p: seq<string> :| WalkFrom(g, p, start, goal);
      ClosedUnderWalks(g, parent.Keys, p);
    }
  }

  // ---------------------------------------------------------------- the loop

  predicate Within(tasks: Tasks, all: set<string>) {
    forall t | t in tasks :: forall u | u in tasks[t] :: u in all
  }

  /** Follows the edges of one slug; stops with `found` at one that leads to `goal`. */
  method Expand(tasks: Tasks, goal: string, start: string, node: string, parent: map<string, string>,
                stack: seq<string>, ghost walks: map<string, seq<string>>, ghost all: set<string>)
    returns (found: bool, parent': map<string, string>, stack': seq<string>, ghost walks': map<string, seq<string>>)
    requires node in tasks && node in parent && goal !in parent
    requires Met(EdgeGraph(tasks), start, parent, walks) && (forall x | x in stack :: x in parent)
    requires Followed(EdgeGraph(tasks), parent, stack + [node])
    requires parent.Keys <= all && Within(tasks, all)
    ensures Met(EdgeGraph(tasks), start, parent', walks') && parent.Keys <= parent'.Keys && goal !in parent'
    ensures parent'.Keys <= all
    ensures forall x | x in stack' :: x in parent'
    ensures found ==> Arc(EdgeGraph(tasks), node, goal)
    ensures !found ==> Followed(EdgeGraph(tasks), parent', stack')
    ensures stack' == stack || parent.Keys < parent'.Keys
  {
    ghost var g := EdgeGraph(tasks);
    var edges := tasks[node];
    found, parent', stack', walks' := false, parent, stack, walks;
    for i := 0 to |edges|
      invariant Met(g, start, parent', walks') && parent.Keys <= parent'.Keys && goal !in parent'
      invariant parent'.Keys <= all
      invariant forall x | x in stack' :: x in parent'
      invariant forall k | 0 <= k < i :: edges[k] in parent'
      invariant Followed(g, parent', stack' + [node])
      invariant stack' == stack || parent.Keys < parent'.Keys
    {
      var up := edges[i];
      assert up in edges;
      assert Arc(g, node, up);
      if up == goal {
        found := true;
        return;
      }
      if up !in parent' {
        MeetTarget(g, start, parent', walks', node, up);
        FollowLater(g, parent', stack', node, up);
        walks' := walks'[up := walks'[node] + [up]];
        parent' := parent'[up := node];
        stack' := stack' + [up];
      }
    }
    FollowedAll(tasks, parent', stack', node);
  }

  lemma FollowLater(g: Graph<string>, parent: map<string, string>, stack: seq<string>, node: string, up: string)
    requires Followed(g, parent, stack + [node]) && up !in parent
    ensures Followed(g, parent[up := node], stack + [up] + [node])
  {
    forall x, y | x in parent[up := node] && x !in stack + [up] + [node] && Arc(g, x, y)
      ensures y in parent[up := node]
    {
      assert x !in stack + [node];
    }
  }

  lemma FollowedAll(tasks: Tasks, parent: map<string, string>, stack: seq<string>, node: string)
    requires Followed(EdgeGraph(tasks), parent, stack + [node]) && node in tasks
    requires forall u | u in tasks[node] :: u in parent
    ensures Followed(EdgeGraph(tasks), parent, stack)
  {
  }

  lemma NothingToFollow(tasks: Tasks, parent: map<string, string>, stack: seq<string>, node: string)
    requires Followed(EdgeGraph(tasks), parent, stack + [node]) && node !in tasks
    ensures Followed(EdgeGraph(tasks), parent, stack)
  {
  }

  /** Every slug that the search can meet. */
  ghost function Slugs(tasks: Tasks, start: string): (all: set<string>)
    ensures start in all && Within(tasks, all)
  {
    {start} + (set s, u | s in tasks && u in tasks[s] :: u)
  }

  /** What holds between two rounds of the search. */
  ghost predicate Searching(tasks: Tasks, start: string, goal: string, parent: map<string, string>,
                            walks: map<string, seq<string>>, stack: seq<string>, all: set<string>)
  {
    && Met(EdgeGraph(tasks), start, parent, walks) && goal !in parent && parent.Keys <= all
    && (forall x | x in stack :: x in parent) && Followed(EdgeGraph(tasks), parent, stack)
  }

  lemma SearchStarts(tasks: Tasks, start: string, goal: string, all: set<string>)
    requires start != goal && start in all
    ensures Searching(tasks, start, goal, map[start := goal], map[start := [start]], [start], all)
  {
  }

  /** One round: takes a slug off the stack and follows its edges. */
  method Round(tasks: Tasks, start: string, goal: string, parent: map<string, string>, stack: seq<string>,
               ghost walks: map<string, seq<string>>, ghost all: set<string>)
    returns (found: bool, node: string, parent': map<string, string>, stack': seq<string>,
             ghost walks': map<string, seq<string>>)
    requires Searching(tasks, start, goal, parent, walks, stack, all) && stack != [] && Within(tasks, all)
    ensures found ==>
              Met(EdgeGraph(tasks), start, parent', walks') && node in parent' && Arc(EdgeGraph(tasks), node, goal)
    ensures !found ==> Searching(tasks, start, goal, parent', walks', stack', all)
    ensures !found ==> |all - parent'.Keys| < |all - parent.Keys| || (parent'.Keys == parent.Keys && |stack'| < |stack|)
  {
    node := stack[|stack| - 1];
    found, parent', stack', walks' := false, parent, stack[..|stack| - 1], walks;
    assert stack == stack' + [node];
    if node !in tasks {
      NothingToFollow(tasks, parent, stack', node);
    } else {
      found, parent', stack', walks' := Expand(tasks, goal, start, node, parent, stack', walks, all);
      if parent.Keys < parent'.Keys { SmallerSet(all - parent'.Keys, all - parent.Keys); }
    }
  }

  /** Searches from `start` along the edges, depth first, for a slug with an edge to `goal`. */
  method Search(tasks: Tasks, start: string, goal: string) returns (found: bool, path: seq<string>)
    requires start != goal
    ensures found ==> path != [] && WalkFrom(EdgeGraph(tasks), path, start, path[|path| - 1])
                      && Arc(EdgeGraph(tasks), path[|path| - 1], goal)
    ensures !found ==> !Reaches(EdgeGraph(tasks), start, goal)
  {
    var parent := map[start := goal];
    ghost var walks := map[start := [start]];
    var stack := [start];
    ghost var all := Slugs(tasks, start);
    SearchStarts(tasks, start, goal, all);
    path := [];
    while stack != []
      invariant Searching(tasks, start, goal, parent, walks, stack, all)
      decreases |all - parent.Keys|, |stack|
    {
      var node;
      found, node, parent, stack, walks := Round(tasks, start, goal, parent, stack, walks, all);
      if found {
        path := Trace(EdgeGraph(tasks), start, parent, walks, node);
        return;
      }
    }
    SearchedAll(EdgeGraph(tasks), start, parent, goal);
    found := false;
  }

  /**
   `find_cycle`: None exactly when an edge from `downstream` to `newUpstream` closes no cycle; else the
   cycle that the edge would close. Neither slug need be a task, and the edges there may be any.
   */
  method FindCycle(tasks: Tasks, downstream: string, newUpstream: string) returns (cycle: Option<seq<string>>)
    ensures cycle.None? <==> !Reaches(EdgeGraph(tasks), newUpstream, downstream)
    ensures cycle.Some? ==>
      && Cycle(WithArc(EdgeGraph(tasks), downstream, newUpstream), cycle.value)
      && cycle.value[0] == downstream && cycle.value[1] == newUpstream
  {
    ghost var g := EdgeGraph(tasks);
    if newUpstream == downstream {
      ReachesItself(g, downstream);
      return Some([downstream, downstream]);
    }
    if newUpstream !in tasks {
      SearchedAll(g, newUpstream, map[newUpstream := downstream], downstream);
      return None;
    }
    var found, path := Search(tasks, newUpstream, downstream);
    if !found { return None; }
    CycleClosed(g, path, downstream, newUpstream, path[|path| - 1]);
    return Some([downstream] + path + [downstream]);
  }

  lemma {:induction false} SubsetSize<T>(a: set<T>, b: set<T>)
    requires a <= b
    ensures |a| <= |b|
    decreases a
  {
    if a != {} {
      var x :| x in a;
      SubsetSize(a - {x}, b - {x});
    }
  }

  lemma SmallerSet<T>(a: set<T>, b: set<T>)
    requires a < b
    ensures |a| < |b|
  {
    var x :| x in b && x !in a;
    SubsetSize(a, b - {x});
  }

  // ---------------------------------------------------------------- transitive dependents

  /** `a` depends on `b`, directly or through other tasks. */
  ghost predicate DependsOn(g: Graph<string>, a: string, b: string) {
    exists m :: Arc(g, a, m) && Reaches(g, m, b)
  }

  /** Direct dependents of every task. */
  ghost predicate Inverse(tasks: Tasks, direct: map<string, seq<string>>) {
    direct.Keys == tasks.Keys && forall u | u in tasks :: forall t :: t in direct[u] <==> t in tasks && u in tasks[t]
  }

  method InverseEdges(tasks: Tasks) returns (direct: map<string, seq<string>>)
    ensures Inverse(tasks, direct)
  {
    direct := map s | s in tasks :: [];
    var todo := tasks.Keys;
    while todo != {}
      invariant direct.Keys == tasks.Keys && todo <= tasks.Keys
      invariant forall u | u in tasks :: forall t :: t in direct[u] <==> t in tasks && t !in todo && u in tasks[t]
      decreases todo
    {
      var s :| s in todo;
      direct := AddDependents(tasks, direct, s);
      todo := todo - {s};
    }
  }

  method AddDependents(tasks: Tasks, direct: map<string, seq<string>>, s: string)
    returns (direct': map<string, seq<string>>)
    requires direct.Keys == tasks.Keys && s in tasks
    ensures direct'.Keys == tasks.Keys
    ensures forall u | u in tasks :: forall t :: t in direct'[u] <==> t in direct[u] || (t == s && u in tasks[s])
  {
    direct' := direct;
    var edges := tasks[s];
    for i := 0 to |edges|
      invariant direct'.Keys == tasks.Keys
      invariant forall u | u in tasks :: forall t :: t in direct'[u] <==> t in direct[u] || (t == s && u in edges[..i])
    {
      assert edges[..i + 1] == edges[..i] + [edges[i]];
      if edges[i] in direct' {
        direct' := direct'[edges[i] := direct'[edges[i]] + [s]];
      }
    }
    assert edges[..|edges|] == edges;
  }

  /** The dependents of whatever was visited are visited or wait on the stack. */
  ghost predicate Frontier(tasks: Tasks, slug: string, visited: set<string>, stack: seq<string>) {
    forall v, u | v in tasks && u in tasks[v] && u in visited + {slug} :: v in visited || v in stack
  }

  ghost predicate Collected(tasks: Tasks, slug: string, visited: set<string>, stack: seq<string>) {
    && visited <= tasks.Keys && Frontier(tasks, slug, visited, stack)
    && (forall v | v in visited || v in stack :: v in tasks && DependsOn(EdgeGraph(tasks), v, slug))
  }

  lemma DependentOfDependent(tasks: Tasks, slug: string, u: string, v: string)
    requires v in tasks && u in tasks[v] && (u == slug || DependsOn(EdgeGraph(tasks), u, slug))
    ensures DependsOn(EdgeGraph(tasks), v, slug)
  {
    var g := EdgeGraph(tasks);
    assert Arc(g, v, u);
    if u == slug {
      ReachesItself(g, slug);
    } else {
      var m :| Arc(g, u, m) && Reaches(g, m, slug);
      assert WalkFrom(g, [u, m], u, m);
      ReachesTransitive(g, u, m, slug);
    }
  }

  lemma {:induction false} AllCollected(tasks: Tasks, slug: string, visited: set<string>, p: seq<string>)
    requires Collected(tasks, slug, visited, [])
    requires Walk(EdgeGraph(tasks), p) && |p| > 1 && p[|p| - 1] == slug
    ensures p[0] in visited
    decreases |p|
  {
    assert Arc(EdgeGraph(tasks), p[0], p[1]);
    if |p| > 2 {
      PartOfWalk(EdgeGraph(tasks), p, 1, |p|);
      AllCollected(tasks, slug, visited, p[1..]);
    }
    assert p[0] in tasks && p[1] in tasks[p[0]] && p[1] in visited + {slug};
  }

  lemma CollectedExactly(tasks: Tasks, slug: string, visited: set<string>)
    requires Collected(tasks, slug, visited, [])
    ensures forall t :: t in visited <==> DependsOn(EdgeGraph(tasks), t, slug)
  {
    var g := EdgeGraph(tasks);
    forall t | DependsOn(g, t, slug) ensures t in visited {
      var m :| Arc(g, t, m) && Reaches(g, m, slug);
      var p: seq<string> :| WalkFrom(g, p, m, slug);
      assert WalkFrom(g, [t, m], t, m);
      JoinWalks(g, [t, m], p);
      AllCollected(tasks, slug, visited, [t, m] + p[1..]);
    }
  }

  lemma FrontierMoves(tasks: Tasks, direct: map<string, seq<string>>, slug: string, visited: set<string>,
                      stack: seq<string>, node: string)
    requires Inverse(tasks, direct) && Frontier(tasks, slug, visited, stack + [node]) && node in tasks
    ensures node in visited ==> Frontier(tasks, slug, visited, stack)
    ensures Frontier(tasks, slug, visited + {node}, stack + direct[node])
  {
    forall v, u | v in tasks && u in tasks[v] && u in visited + {slug}
      ensures v in visited + {node} || v in stack
    {
      assert v in visited || v in stack + [node];
    }
    forall v, u | v in tasks && u in tasks[v] && u in visited + {node} + {slug}
      ensures v in visited + {node} || v in stack + direct[node]
    {
      if u in visited + {slug} { assert v in visited + {node} || v in stack; } else { assert v in direct[node]; }
    }
    assert node in visited ==> visited + {node} == visited;
  }

  lemma CollectMore(tasks: Tasks, direct: map<string, seq<string>>, slug: string, visited: set<string>,
                    stack: seq<string>, node: string)
    requires Inverse(tasks, direct) && Collected(tasks, slug, visited, stack + [node])
    ensures node in visited ==> Collected(tasks, slug, visited, stack)
    ensures node in direct && Collected(tasks, slug, visited + {node}, stack + direct[node])
  {
    assert node in stack + [node];
    FrontierMoves(tasks, direct, slug, visited, stack, node);
    forall v | v in stack ensures v in stack + [node] { }
    forall v | v in direct[node] ensures v in tasks && DependsOn(EdgeGraph(tasks), v, slug) {
      DependentOfDependent(tasks, slug, node, v);
    }
  }

  /** `downstream_of`: the tasks that depend on `slug`, directly or not. */
  method DownstreamOf(tasks: Tasks, slug: string) returns (visited: set<string>)
    ensures slug in tasks ==> forall t :: t in visited <==> DependsOn(EdgeGraph(tasks), t, slug)
    ensures slug !in tasks ==> visited == {}
  {
    var direct := InverseEdges(tasks);
    visited := {};
    if slug !in direct { return; }
    var stack := direct[slug];
    FirstDependents(tasks, direct, slug);
    while stack != []
      invariant Collected(tasks, slug, visited, stack)
      decreases tasks.Keys - visited, |stack|
    {
      var node := stack[|stack| - 1];
      assert stack == stack[..|stack| - 1] + [node];
      stack := stack[..|stack| - 1];
      CollectMore(tasks, direct, slug, visited, stack, node);
      if node !in visited {
        visited := visited + {node};
        stack := stack + direct[node];
      }
    }
    CollectedExactly(tasks, slug, visited);
  }

  lemma FirstDependents(tasks: Tasks, direct: map<string, seq<string>>, slug: string)
    requires Inverse(tasks, direct) && slug in tasks
    ensures Collected(tasks, slug, {}, direct[slug])
  {
    forall v | v in direct[slug] ensures v in tasks && DependsOn(EdgeGraph(tasks), v, slug) {
      DependentOfDependent(tasks, slug, slug, v);
    }
  }
}
