/** The reference and cycle checks of a workspace configuration. */
module RepoGraph {
  import opened Basics
  import opened Digraph

  /** `dependsOn` is the `repo` of every dependency entry, repeats included. */
  datatype Repo = Repo(dependsOn: seq<string>, gitRoot: Option<string>)

  /** The `repos` dictionary; `names` is its insertion order. */
  datatype Config = Config(names: seq<string>, repos: map<string, Repo>)

  predicate WellFormed(c: Config) {
    Distinct(c.names) && (forall n | n in c.names :: n in c.repos) && forall n | n in c.repos :: n in c.names
  }

  predicate DependenciesExist(c: Config) {
    forall n | n in c.repos :: forall d | d in c.repos[n].dependsOn :: d in c.repos
  }

  predicate GitRootsExist(c: Config) {
    forall n | n in c.repos && c.repos[n].gitRoot.Some? :: c.repos[n].gitRoot.value in c.repos
  }

  predicate GitRootsAreFlat(c: Config) {
    forall n | n in c.repos && c.repos[n].gitRoot.Some? ::
      c.repos[n].gitRoot.value in c.repos ==> c.repos[c.repos[n].gitRoot.value].gitRoot.None?
  }

  /** What a repository has to follow: its dependencies and the repository it is a directory of. */
  function Predecessors(c: Config, n: string): (s: set<string>)
    requires n in c.repos
  {
    (set d | d in c.repos[n].dependsOn)
    + if c.repos[n].gitRoot.Some? && c.repos[n].gitRoot.value in c.repos then {c.repos[n].gitRoot.value} else {}
  }

  function DependencyGraph(c: Config): Graph<string> {
    map n | n in c.repos :: Predecessors(c, n)
  }

  /** The implicit edge to the git root is left out when it is an explicit dependency too. */
  predicate HasImplicitEdge(c: Config, n: string)
    requires n in c.repos
  {
    var r := c.repos[n];
    r.gitRoot.Some? && r.gitRoot.value in c.repos && r.gitRoot.value !in r.dependsOn
  }

  // ---------------------------------------------------------------- the edge tables

  /** An edge of the tables: the node whose list it stands in, and where. */
  type Slot = (string, nat)

  ghost predicate Counted(inDegree: map<string, int>, slots: map<string, set<Slot>>) {
    inDegree.Keys == slots.Keys && forall n | n in slots :: inDegree[n] == |slots[n]|
  }

  /** The edges still to be counted: of every list, those from position `start` on. */
  ghost predicate Listed(adjacency: map<string, seq<string>>, start: map<string, nat>, slots: map<string, set<Slot>>) {
    && adjacency.Keys == start.Keys == slots.Keys
    && (forall n, e | n in slots && e in slots[n] ::
          e.0 in adjacency && start[e.0] <= e.1 < |adjacency[e.0]| && adjacency[e.0][e.1] == n)
    && (forall a, i | a in adjacency && start[a] <= i < |adjacency[a]| ::
          adjacency[a][i] in slots && (a, i) in slots[adjacency[a][i]])
  }

  ghost predicate FromStart(start: map<string, nat>) {
    forall a | a in start :: start[a] == 0
  }

  /** Records one edge from `a` to `n`. */
  method AddEdge(adjacency: map<string, seq<string>>, inDegree: map<string, int>, a: string, n: string,
                 ghost start: map<string, nat>, ghost slots: map<string, set<Slot>>)
    returns (adjacency': map<string, seq<string>>, inDegree': map<string, int>, ghost slots': map<string, set<Slot>>)
    requires Listed(adjacency, start, slots) && Counted(inDegree, slots) && FromStart(start)
    requires a in adjacency && n in adjacency
    ensures Listed(adjacency', start, slots') && Counted(inDegree', slots')
    ensures adjacency' == adjacency[a := adjacency[a] + [n]] && inDegree' == inDegree[n := inDegree[n] + 1]
  {
    adjacency' := adjacency[a := adjacency[a] + [n]];
    inDegree' := inDegree[n := inDegree[n] + 1];
    slots' := slots[n := slots[n] + {(a, |adjacency[a]|)}];
    AddSlot(adjacency, start, slots, a, n);
  }

  lemma AddSlot(adjacency: map<string, seq<string>>, start: map<string, nat>, slots: map<string, set<Slot>>,
                a: string, n: string)
    requires Listed(adjacency, start, slots) && a in adjacency && n in adjacency && start[a] <= |adjacency[a]|
    ensures (a, |adjacency[a]|) !in slots[n]
    ensures Listed(adjacency[a := adjacency[a] + [n]], start, slots[n := slots[n] + {(a, |adjacency[a]|)}])
  {
  }

  // ---------------------------------------------------------------- Kahn's algorithm

  /** Every node stands after the sources of all edges into it. */
  ghost predicate Placed(adjacency: map<string, seq<string>>, order: seq<string>) {
    forall i, a | 0 <= i < |order| && a in adjacency && order[i] in adjacency[a] :: a in order[..i]
  }

  /** Whoever waits in the queue has the sources of all edges into it behind it. */
  ghost predicate Ready(adjacency: map<string, seq<string>>, order: seq<string>, queue: seq<string>) {
    forall q, a | q in queue && a in adjacency && q in adjacency[a] :: a in order
  }

  ghost predicate Untouched(start: map<string, nat>, order: seq<string>) {
    forall a | a in start && a !in order :: start[a] == 0
  }

  ghost predicate Dequeued(inDegree: map<string, int>, reached: seq<string>) {
    && Distinct(reached)
    && (forall n | n in reached :: n in inDegree && inDegree[n] == 0)
    && (forall n | n in inDegree && inDegree[n] == 0 :: n in reached)
  }

  /** Edge `i` out of the node that was dequeued last. */
  method Visit(adjacency: map<string, seq<string>>, node: string, inDegree: map<string, int>, queue: seq<string>,
               ghost start: map<string, nat>, ghost slots: map<string, set<Slot>>, ghost order: seq<string>, i: nat)
    returns (inDegree': map<string, int>, queue': seq<string>, ghost slots': map<string, set<Slot>>)
    requires node in adjacency && i < |adjacency[node]| && node in order
    requires Listed(adjacency, start[node := i], slots) && Counted(inDegree, slots) && Untouched(start, order)
    requires Ready(adjacency, order, queue) && Dequeued(inDegree, order + queue)
    ensures Listed(adjacency, start[node := i + 1], slots') && Counted(inDegree', slots')
    ensures Ready(adjacency, order, queue') && Dequeued(inDegree', order + queue')
  {
    var neighbor := adjacency[node][i];
    DropSlot(adjacency, start, slots, node, i);
    inDegree' := inDegree[neighbor := inDegree[neighbor] - 1];
    slots' := slots[neighbor := slots[neighbor] - {(node, i)}];
    queue' := queue;
    DropCount(inDegree, slots, neighbor, (node, i));
    if inDegree'[neighbor] == 0 {
      queue' := queue + [neighbor];
      assert order + queue' == (order + queue) + [neighbor];
      NowReady(adjacency, start[node := i + 1], slots', order, neighbor);
    }
  }

  lemma DropSlot(adjacency: map<string, seq<string>>, start: map<string, nat>, slots: map<string, set<Slot>>,
                 node: string, i: nat)
    requires node in adjacency && i < |adjacency[node]| && Listed(adjacency, start[node := i], slots)
    ensures var n := adjacency[node][i];
            n in slots && (node, i) in slots[n]
            && Listed(adjacency, start[node := i + 1], slots[n := slots[n] - {(node, i)}])
  {
    assert start[node := i][node] == i;
    assert start[node := i + 1].Keys == start[node := i].Keys;
  }

  lemma DropCount(inDegree: map<string, int>, slots: map<string, set<Slot>>, n: string, e: Slot)
    requires Counted(inDegree, slots) && n in slots && e in slots[n]
    ensures Counted(inDegree[n := inDegree[n] - 1], slots[n := slots[n] - {e}]) && inDegree[n] > 0
  {
  }

  /** No edge left to count into `n`: the sources of all of them have been dequeued. */
  lemma NowReady(adjacency: map<string, seq<string>>, start: map<string, nat>, slots: map<string, set<Slot>>,
                 order: seq<string>, n: string)
    requires Listed(adjacency, start, slots) && Untouched(start, order) && n in slots && slots[n] == {}
    ensures Ready(adjacency, order, [n])
  {
    forall a | a in adjacency && n in adjacency[a] ensures a in order {
      var i :| 0 <= i < |adjacency[a]| && adjacency[a][i] == n;
      assert (a, i) !in slots[n];
    }
  }

  lemma {:induction false} DistinctFits(s: seq<string>, names: set<string>)
    requires Distinct(s) && forall n | n in s :: n in names
    ensures |s| <= |names| && (|s| == |names| <==> forall n | n in names :: n in s)
    decreases |s|
  {
    if s == [] {
      if names != {} { var n :| n in names; }
    } else {
      var last := s[|s| - 1];
      DistinctFits(s[..|s| - 1], names - {last});
      assert s == s[..|s| - 1] + [last];
      assert forall n | n in names :: n in s <==> n == last || n in s[..|s| - 1];
    }
  }

  /** Takes all edges out of a node that was just dequeued off the counts. */
  method VisitAll(adjacency: map<string, seq<string>>, node: string, inDegree: map<string, int>, queue: seq<string>,
                  ghost start: map<string, nat>, ghost slots: map<string, set<Slot>>, ghost order: seq<string>)
    returns (inDegree': map<string, int>, queue': seq<string>, ghost slots': map<string, set<Slot>>)
    requires Listed(adjacency, start, slots) && Counted(inDegree, slots) && Untouched(start, order)
    requires node in adjacency && start[node] == 0 && node in order
    requires Ready(adjacency, order, queue) && Dequeued(inDegree, order + queue)
    ensures Listed(adjacency, start[node := |adjacency[node]|], slots') && Counted(inDegree', slots')
    ensures Ready(adjacency, order, queue') && Dequeued(inDegree', order + queue')
  {
    inDegree', queue', slots' := inDegree, queue, slots;
    assert start[node := 0] == start;
    for i := 0 to |adjacency[node]|
      invariant Listed(adjacency, start[node := i], slots') && Counted(inDegree', slots')
      invariant Ready(adjacency, order, queue') && Dequeued(inDegree', order + queue')
    {
      inDegree', queue', slots' := Visit(adjacency, node, inDegree', queue', start, slots', order, i);
    }
  }

  /** The nodes that nothing leads into, in the order of `names`. */
  method InitialQueue(names: seq<string>, inDegree: map<string, int>) returns (queue: seq<string>)
    requires Distinct(names) && (forall n | n in names :: n in inDegree) && forall n | n in inDegree :: n in names
    ensures Dequeued(inDegree, queue)
  {
    queue := [];
    for i := 0 to |names|
      invariant Distinct(queue)
      invariant forall n :: n in queue <==> n in names[..i] && inDegree[n] == 0
    {
      assert names[..i + 1] == names[..i] + [names[i]];
      if inDegree[names[i]] == 0 { queue := queue + [names[i]]; }
    }
    assert names[..|names|] == names;
  }

  lemma InitiallyReady(adjacency: map<string, seq<string>>, start: map<string, nat>, slots: map<string, set<Slot>>,
                       inDegree: map<string, int>, queue: seq<string>)
    requires Listed(adjacency, start, slots) && Counted(inDegree, slots) && FromStart(start)
             && Dequeued(inDegree, queue)
    ensures Ready(adjacency, [], queue)
  {
    forall q | q in queue ensures Ready(adjacency, [], [q]) {
      assert slots[q] == {};
      NowReady(adjacency, start, slots, [], q);
    }
    forall q, a | q in queue && a in adjacency && q in adjacency[a] ensures a in [] {
      assert Ready(adjacency, [], [q]);
      assert q in [q];
    }
  }

  ghost predicate Blocked(adjacency: map<string, seq<string>>, order: seq<string>, n: string) {
    exists a :: a in adjacency && n in adjacency[a] && a !in order
  }

  /** An edge into every node that was never dequeued comes from another such node. */
  ghost predicate Stuck(adjacency: map<string, seq<string>>, order: seq<string>) {
    forall n {:trigger Blocked(adjacency, order, n)} | n in adjacency && n !in order :: Blocked(adjacency, order, n)
  }

  lemma EmptyQueueIsStuck(adjacency: map<string, seq<string>>, start: map<string, nat>, slots: map<string, set<Slot>>,
                          inDegree: map<string, int>, order: seq<string>)
    requires Listed(adjacency, start, slots) && Counted(inDegree, slots) && Dequeued(inDegree, order)
    requires forall a | a in order && a in start :: start[a] == |adjacency[a]|
    ensures Stuck(adjacency, order)
  {
    forall n | n in adjacency && n !in order ensures Blocked(adjacency, order, n) {
      assert slots[n] != {};
      var e :| e in slots[n];
      assert e.0 in adjacency && n in adjacency[e.0] && e.0 !in order;
    }
  }

  ghost predicate Underway(adjacency: map<string, seq<string>>, inDegree: map<string, int>, start: map<string, nat>,
                           slots: map<string, set<Slot>>, order: seq<string>, queue: seq<string>)
  {
    && Listed(adjacency, start, slots) && Counted(inDegree, slots) && Untouched(start, order)
    && (forall a | a in order :: a in start && start[a] == |adjacency[a]|)
    && Ready(adjacency, order, queue) && Dequeued(inDegree, order + queue) && Placed(adjacency, order)
  }

  /** One round of Kahn's loop. */
  method Round(adjacency: map<string, seq<string>>, inDegree: map<string, int>, queue: seq<string>,
               ghost start: map<string, nat>, ghost slots: map<string, set<Slot>>, ghost order: seq<string>)
    returns (inDegree': map<string, int>, queue': seq<string>,
             ghost start': map<string, nat>, ghost slots': map<string, set<Slot>>, ghost order': seq<string>)
    requires queue != [] && Underway(adjacency, inDegree, start, slots, order, queue)
    ensures Underway(adjacency, inDegree', start', slots', order', queue')
    ensures order' == order + [queue[0]]
  {
    var node := queue[0];
    AdvanceReached(inDegree, order, queue);
    AdvancePlaced(adjacency, order, queue);
    AdvanceReady(adjacency, order, queue);
    order' := order + [node];
    inDegree', queue', slots' := VisitAll(adjacency, node, inDegree, queue[1..], start, slots, order');
    start' := start[node := |adjacency[node]|];
  }

  lemma NamesAreCounted(names: seq<string>, adjacency: map<string, seq<string>>, start: map<string, nat>,
                        slots: map<string, set<Slot>>, inDegree: map<string, int>)
    requires (forall n | n in names :: n in adjacency) && forall n | n in adjacency :: n in names
    requires Listed(adjacency, start, slots) && Counted(inDegree, slots)
    ensures (forall n | n in names :: n in inDegree) && forall n | n in inDegree :: n in names
  {
    assert inDegree.Keys == adjacency.Keys;
  }

  lemma InitiallyUnderway(adjacency: map<string, seq<string>>, start: map<string, nat>, slots: map<string, set<Slot>>,
                          inDegree: map<string, int>, queue: seq<string>)
    requires Listed(adjacency, start, slots) && Counted(inDegree, slots) && FromStart(start)
             && Dequeued(inDegree, queue)
    ensures Underway(adjacency, inDegree, start, slots, [], queue)
  {
    InitiallyReady(adjacency, start, slots, inDegree, queue);
    assert [] + queue == queue;
  }

  /** What the loop starts with. */
  method FirstQueue(names: seq<string>, ghost adjacency: map<string, seq<string>>, inDegree: map<string, int>,
                    ghost start: map<string, nat>, ghost slots: map<string, set<Slot>>) returns (queue: seq<string>)
    requires Distinct(names) && (forall n | n in names :: n in adjacency) && forall n | n in adjacency :: n in names
    requires Listed(adjacency, start, slots) && Counted(inDegree, slots) && FromStart(start)
    ensures Underway(adjacency, inDegree, start, slots, [], queue)
  {
    NamesAreCounted(names, adjacency, start, slots, inDegree);
    queue := InitialQueue(names, inDegree);
    InitiallyUnderway(adjacency, start, slots, inDegree, queue);
  }

  lemma RoomForMore(adjacency: map<string, seq<string>>, inDegree: map<string, int>, start: map<string, nat>,
                    slots: map<string, set<Slot>>, order: seq<string>, queue: seq<string>)
    requires Underway(adjacency, inDegree, start, slots, order, queue)
    ensures |order| + |queue| <= |adjacency.Keys|
  {
    DistinctFits(order + queue, adjacency.Keys);
  }

  /** Where the loop ends. */
  lemma QueueRanOut(adjacency: map<string, seq<string>>, inDegree: map<string, int>, start: map<string, nat>,
                    slots: map<string, set<Slot>>, order: seq<string>)
    requires Underway(adjacency, inDegree, start, slots, order, [])
    ensures Distinct(order) && (forall n | n in order :: n in adjacency)
    ensures Placed(adjacency, order) && Stuck(adjacency, order)
  {
    assert order + [] == order;
    EmptyQueueIsStuck(adjacency, start, slots, inDegree, order);
  }

  /** Kahn's loop: how many nodes it visits, and in which order. */
  method CountVisited(names: seq<string>, adjacency: map<string, seq<string>>, inDegree0: map<string, int>,
                      ghost start0: map<string, nat>, ghost slots0: map<string, set<Slot>>)
    returns (visited: nat, ghost order: seq<string>)
    requires Distinct(names) && (forall n | n in names :: n in adjacency) && forall n | n in adjacency :: n in names
    requires Listed(adjacency, start0, slots0) && Counted(inDegree0, slots0) && FromStart(start0)
    ensures visited == |order| && Distinct(order) && forall n | n in order :: n in adjacency
    ensures Placed(adjacency, order) && Stuck(adjacency, order)
  {
    var inDegree := inDegree0;
    ghost var start: map<string, nat>, slots := start0, slots0;
    var queue := FirstQueue(names, adjacency, inDegree, start, slots);
    order := [];
    visited := 0;
    while queue != []
      invariant Underway(adjacency, inDegree, start, slots, order, queue) && visited == |order|
      decreases |adjacency.Keys| - |order|
    {
      RoomForMore(adjacency, inDegree, start, slots, order, queue);
      inDegree, queue, start, slots, order := Round(adjacency, inDegree, queue, start, slots, order);
      visited := visited + 1;
    }
    QueueRanOut(adjacency, inDegree, start, slots, order);
  }

  lemma AdvanceReached(inDegree: map<string, int>, order: seq<string>, queue: seq<string>)
    requires queue != [] && Dequeued(inDegree, order + queue)
    ensures queue[0] !in order && queue[0] in inDegree
    ensures Dequeued(inDegree, (order + [queue[0]]) + queue[1..])
  {
    assert (order + [queue[0]]) + queue[1..] == order + queue;
    assert (order + queue)[|order|] == queue[0];
    forall i | 0 <= i < |order| ensures order[i] != queue[0] {
      assert (order + queue)[i] == order[i];
    }
  }

  lemma AdvancePlaced(adjacency: map<string, seq<string>>, order: seq<string>, queue: seq<string>)
    requires queue != [] && Ready(adjacency, order, queue) && Placed(adjacency, order)
    ensures Placed(adjacency, order + [queue[0]])
  {
    var order' := order + [queue[0]];
    forall i, a | 0 <= i < |order'| && a in adjacency && order'[i] in adjacency[a] ensures a in order'[..i] {
      if i < |order| {
        assert order'[..i] == order[..i] && order'[i] == order[i];
      } else {
        assert order'[..i] == order && queue[0] in queue;
      }
    }
  }

  lemma AdvanceReady(adjacency: map<string, seq<string>>, order: seq<string>, queue: seq<string>)
    requires queue != [] && Ready(adjacency, order, queue)
    ensures Ready(adjacency, order + [queue[0]], queue[1..])
  {
    forall q, a | q in queue[1..] && a in adjacency && q in adjacency[a] ensures a in order + [queue[0]] {
      assert q in queue;
    }
  }

  // ---------------------------------------------------------------- building the tables

  /** `after` has the edges of `before` and one from each of `sources` to `n`, and no others. */
  ghost predicate MoreEdges(before: map<string, seq<string>>, after: map<string, seq<string>>, sources: seq<string>,
                            n: string)
  {
    && after.Keys == before.Keys
    && forall a, m | a in before :: m in after[a] <==> m in before[a] || (m == n && a in sources)
  }

  lemma OneMoreEdge(before: map<string, seq<string>>, after: map<string, seq<string>>, sources: seq<string>,
                    a: string, n: string)
    requires MoreEdges(before, after, sources, n) && a in after
    ensures MoreEdges(before, after[a := after[a] + [n]], sources + [a], n)
  {
  }

  /** The edges are those into `names` from their `sources`. */
  ghost predicate EdgesInto(adjacency: map<string, seq<string>>, names: seq<string>, sources: map<string, set<string>>)
  {
    forall a, n | a in adjacency :: n in adjacency[a] <==> n in names && n in sources && a in sources[n]
  }

  lemma MoreEdgesInto(before: map<string, seq<string>>, after: map<string, seq<string>>,
                      sources: map<string, set<string>>, names: seq<string>, n: string, added: seq<string>)
    requires EdgesInto(before, names, sources) && MoreEdges(before, after, added, n)
    requires n in sources && forall a | a in before :: a in sources[n] <==> a in added
    ensures EdgesInto(after, names + [n], sources)
  {
  }

  /** All dependency entries of one repository. */
  method AddEntries(name: string, deps: seq<string>, adjacency: map<string, seq<string>>, inDegree: map<string, int>,
                    ghost start: map<string, nat>, ghost slots: map<string, set<Slot>>)
    returns (adjacency': map<string, seq<string>>, inDegree': map<string, int>, ghost slots': map<string, set<Slot>>)
    requires name in adjacency && forall d | d in deps :: d in adjacency
    requires Listed(adjacency, start, slots) && Counted(inDegree, slots) && FromStart(start)
    ensures Listed(adjacency', start, slots') && Counted(inDegree', slots')
    ensures MoreEdges(adjacency, adjacency', deps, name)
  {
    adjacency', inDegree', slots' := adjacency, inDegree, slots;
    for j := 0 to |deps|
      invariant Listed(adjacency', start, slots') && Counted(inDegree', slots')
      invariant MoreEdges(adjacency, adjacency', deps[..j], name)
    {
      assert deps[..j + 1] == deps[..j] + [deps[j]];
      assert deps[j] in deps;
      OneMoreEdge(adjacency, adjacency', deps[..j], deps[j], name);
      adjacency', inDegree', slots' := AddEdge(adjacency', inDegree', deps[j], name, start, slots');
    }
    assert deps[..|deps|] == deps;
  }

  function Explicit(c: Config): map<string, set<string>> {
    map n | n in c.repos :: set d | d in c.repos[n].dependsOn
  }

  method EmptyTables(c: Config) returns (adjacency: map<string, seq<string>>, inDegree: map<string, int>,
                                         ghost start: map<string, nat>, ghost slots: map<string, set<Slot>>)
    ensures adjacency.Keys == c.repos.Keys && FromStart(start)
    ensures Listed(adjacency, start, slots) && Counted(inDegree, slots)
    ensures EdgesInto(adjacency, [], Explicit(c))
  {
    inDegree := map n | n in c.repos :: 0;
    adjacency := map n | n in c.repos :: [];
    start := map n | n in c.repos :: 0;
    slots := map n | n in c.repos :: {};
  }

  /** The explicit edges, one for every dependency entry. */
  method AddDependencies(c: Config) returns (adjacency: map<string, seq<string>>, inDegree: map<string, int>,
                                             ghost start: map<string, nat>, ghost slots: map<string, set<Slot>>)
    requires WellFormed(c) && DependenciesExist(c)
    ensures adjacency.Keys == c.repos.Keys && FromStart(start)
    ensures Listed(adjacency, start, slots) && Counted(inDegree, slots)
    ensures EdgesInto(adjacency, c.names, Explicit(c))
  {
    adjacency, inDegree, start, slots := EmptyTables(c);
    for i := 0 to |c.names|
      invariant adjacency.Keys == c.repos.Keys
      invariant Listed(adjacency, start, slots) && Counted(inDegree, slots)
      invariant EdgesInto(adjacency, c.names[..i], Explicit(c))
    {
      assert c.names[..i + 1] == c.names[..i] + [c.names[i]];
      var name := c.names[i];
      ghost var before := adjacency;
      adjacency, inDegree, slots := AddEntries(name, c.repos[name].dependsOn, adjacency, inDegree, start, slots);
      MoreEdgesInto(before, adjacency, Explicit(c), c.names[..i], name, c.repos[name].dependsOn);
    }
    assert c.names[..|c.names|] == c.names;
  }

  /** The sources of the edges once the git roots of the names in `done` are in. */
  ghost function Mixed(c: Config, done: seq<string>): map<string, set<string>> {
    map n | n in c.repos :: if n in done then Predecessors(c, n) else Explicit(c)[n]
  }

  lemma SkippedRoot(c: Config, done: seq<string>, n: string)
    requires n in c.repos && !HasImplicitEdge(c, n)
    ensures Mixed(c, done + [n]) == Mixed(c, done)
  {
    assert Predecessors(c, n) == Explicit(c)[n];
    forall m | m in c.repos ensures Mixed(c, done + [n])[m] == Mixed(c, done)[m] {
    }
  }

  lemma AddedSource(adjacency: map<string, seq<string>>, names: seq<string>, before: map<string, set<string>>,
                    after: map<string, set<string>>, a: string, n: string)
    requires EdgesInto(adjacency, names, before) && a in adjacency && n in names
    requires n in before && after == before[n := before[n] + {a}]
    ensures EdgesInto(adjacency[a := adjacency[a] + [n]], names, after)
  {
  }

  lemma AddedRoot(c: Config, adjacency: map<string, seq<string>>, done: seq<string>, n: string)
    requires WellFormed(c) && n in c.repos && HasImplicitEdge(c, n) && adjacency.Keys == c.repos.Keys && n !in done
    requires EdgesInto(adjacency, c.names, Mixed(c, done))
    ensures var a := c.repos[n].gitRoot.value;
            EdgesInto(adjacency[a := adjacency[a] + [n]], c.names, Mixed(c, done + [n]))
  {
    var a := c.repos[n].gitRoot.value;
    MixedGrows(c, done, n);
    AddedSource(adjacency, c.names, Mixed(c, done), Mixed(c, done + [n]), a, n);
  }

  lemma MixedGrows(c: Config, done: seq<string>, n: string)
    requires n in c.repos && HasImplicitEdge(c, n) && n !in done
    ensures var before := Mixed(c, done);
            Mixed(c, done + [n]) == before[n := before[n] + {c.repos[n].gitRoot.value}]
  {
    var a := c.repos[n].gitRoot.value;
    assert Predecessors(c, n) == Explicit(c)[n] + {a};
    forall m | m in c.repos && m != n ensures Mixed(c, done + [n])[m] == Mixed(c, done)[m] {
    }
  }

  lemma AllRoots(c: Config)
    requires WellFormed(c)
    ensures Mixed(c, []) == Explicit(c) && Mixed(c, c.names) == DependencyGraph(c)
  {
  }

  /** The implicit edges from git roots, except where the root is a dependency anyway. */
  method AddGitRoots(c: Config, adjacency: map<string, seq<string>>, inDegree: map<string, int>,
                     ghost start: map<string, nat>, ghost slots: map<string, set<Slot>>)
    returns (adjacency': map<string, seq<string>>, inDegree': map<string, int>, ghost slots': map<string, set<Slot>>)
    requires WellFormed(c) && adjacency.Keys == c.repos.Keys && FromStart(start)
    requires Listed(adjacency, start, slots) && Counted(inDegree, slots)
    requires EdgesInto(adjacency, c.names, Explicit(c))
    ensures adjacency'.Keys == c.repos.Keys
    ensures Listed(adjacency', start, slots') && Counted(inDegree', slots')
    ensures EdgesInto(adjacency', c.names, DependencyGraph(c))
  {
    adjacency', inDegree', slots' := adjacency, inDegree, slots;
    AllRoots(c);
    for i := 0 to |c.names|
      invariant adjacency'.Keys == c.repos.Keys
      invariant Listed(adjacency', start, slots') && Counted(inDegree', slots')
      invariant EdgesInto(adjacency', c.names, Mixed(c, c.names[..i]))
    {
      assert c.names[..i + 1] == c.names[..i] + [c.names[i]];
      var name := c.names[i];
      var parent := c.repos[name].gitRoot;
      if parent.None? || parent.value !in inDegree' || parent.value in c.repos[name].dependsOn {
        SkippedRoot(c, c.names[..i], name);
      } else {
        assert name !in c.names[..i];
        AddedRoot(c, adjacency', c.names[..i], name);
        adjacency', inDegree', slots' := AddEdge(adjacency', inDegree', parent.value, name, start, slots');
      }
    }
    assert c.names[..|c.names|] == c.names;
  }

  // ---------------------------------------------------------------- the checks

  /** An order in which every repository stands once, after everything it depends on. */
  ghost predicate BuildOrder(c: Config, order: seq<string>) {
    Distinct(order) && (forall n | n in order :: n in c.repos) && (forall n | n in c.repos :: n in order)
    && Topological(DependencyGraph(c), order)
  }

  /** The tables hold exactly the arcs of `g`, turned around. */
  ghost predicate Represents(adjacency: map<string, seq<string>>, g: Graph<string>) {
    adjacency.Keys == g.Keys && forall n, a | a in g && n in g :: n in adjacency[a] <==> a in g[n]
  }

  lemma TablesRepresent(c: Config, adjacency: map<string, seq<string>>)
    requires WellFormed(c) && adjacency.Keys == c.repos.Keys && EdgesInto(adjacency, c.names, DependencyGraph(c))
    ensures Represents(adjacency, DependencyGraph(c))
  {
  }

  ghost predicate NoDangling(g: Graph<string>) {
    forall n, a | n in g && a in g[n] :: a in g
  }

  lemma ReferencesMeanNoDangling(c: Config)
    requires WellFormed(c) && DependenciesExist(c)
    ensures NoDangling(DependencyGraph(c))
    ensures DependencyGraph(c).Keys == c.repos.Keys && |c.names| == |c.repos.Keys|
  {
    DistinctFits(c.names, c.repos.Keys);
  }

  /** Both kinds of edges. */
  method BuildTables(c: Config) returns (adjacency: map<string, seq<string>>, inDegree: map<string, int>,
                                         ghost start: map<string, nat>, ghost slots: map<string, set<Slot>>)
    requires WellFormed(c) && DependenciesExist(c)
    ensures Represents(adjacency, DependencyGraph(c)) && FromStart(start)
    ensures Listed(adjacency, start, slots) && Counted(inDegree, slots)
  {
    adjacency, inDegree, start, slots := AddDependencies(c);
    adjacency, inDegree, slots := AddGitRoots(c, adjacency, inDegree, start, slots);
    TablesRepresent(c, adjacency);
  }

  lemma PlacedIsTopological(g: Graph<string>, adjacency: map<string, seq<string>>, order: seq<string>)
    requires NoDangling(g) && Represents(adjacency, g) && Placed(adjacency, order)
    ensures Topological(g, order)
  {
    forall i, a | 0 <= i < |order| && order[i] in g && a in g[order[i]] ensures a in order[..i] {
      assert a in g && order[i] in adjacency[a];
    }
  }

  lemma StuckHasACycle(g: Graph<string>, adjacency: map<string, seq<string>>, order: seq<string>)
    requires Represents(adjacency, g) && Stuck(adjacency, order)
    requires exists n :: n in g && n !in order
    ensures !Acyclic(g)
  {
    var s := set n | n in g && n !in order;
    forall n | n in s ensures n in g && g[n] * s != {} {
      assert Blocked(adjacency, order, n);
      var a :| a in adjacency && n in adjacency[a] && a !in order;
      assert a in g[n] * s;
    }
    LeadingOnMakesACycle(g, s);
  }

  lemma CountDecides(g: Graph<string>, adjacency: map<string, seq<string>>, order: seq<string>)
    requires NoDangling(g) && Represents(adjacency, g) && Placed(adjacency, order) && Stuck(adjacency, order)
    requires Distinct(order) && forall n | n in order :: n in g
    ensures |order| == |g.Keys| <==> Acyclic(g)
    ensures Acyclic(g) ==> Topological(g, order) && forall n | n in g :: n in order
  {
    DistinctFits(order, g.Keys);
    PlacedIsTopological(g, adjacency, order);
    if |order| == |g.Keys| {
      TopologicalIsAcyclic(g, order);
    } else {
      StuckHasACycle(g, adjacency, order);
    }
  }

  /**
   `validate_no_cycles`: a configuration passes exactly when its graph of dependencies and git roots has
   no cycle, and then the order in which the loop takes the repositories is a build order of all of them.
   */
  method ValidateNoCycles(c: Config) returns (ok: bool, ghost order: seq<string>)
    requires WellFormed(c) && DependenciesExist(c)
    ensures ok <==> Acyclic(DependencyGraph(c))
    ensures ok ==> BuildOrder(c, order)
  {
    var adjacency, inDegree;
    ghost var start, slots;
    adjacency, inDegree, start, slots := BuildTables(c);
    ghost var g := DependencyGraph(c);
    ReferencesMeanNoDangling(c);
    var visited;
    visited, order := CountVisited(c.names, adjacency, inDegree, start, slots);
    ok := visited == |c.names|;
    CountDecides(g, adjacency, order);
  }

  /** `validate_depends_on_refs` */
  method ValidateDependsOnRefs(c: Config) returns (ok: bool)
    requires WellFormed(c)
    ensures ok <==> DependenciesExist(c)
    ensures ok <==> forall n, d | n in c.repos && d in c.repos[n].dependsOn :: d in c.repos
  {
    for i := 0 to |c.names|
      invariant forall k | 0 <= k < i :: forall d | d in c.repos[c.names[k]].dependsOn :: d in c.repos
    {
      var deps := c.repos[c.names[i]].dependsOn;
      for j := 0 to |deps|
        invariant forall t | 0 <= t < j :: deps[t] in c.repos
      {
        if deps[j] !in c.repos {
          assert deps[j] in deps;
          return false;
        }
      }
    }
    ok := true;
  }

  /** `validate_git_root_refs` */
  method ValidateGitRootRefs(c: Config) returns (ok: bool)
    requires WellFormed(c)
    ensures ok <==> GitRootsExist(c) && GitRootsAreFlat(c)
    ensures ok <==> forall n | n in c.repos && c.repos[n].gitRoot.Some? ::
              c.repos[n].gitRoot.value in c.repos && c.repos[c.repos[n].gitRoot.value].gitRoot.None?
  {
    for i := 0 to |c.names|
      invariant forall k | 0 <= k < i && c.repos[c.names[k]].gitRoot.Some? ::
        var root := c.repos[c.names[k]].gitRoot.value;
        root in c.repos && c.repos[root].gitRoot.None?
    {
      var root := c.repos[c.names[i]].gitRoot;
      if root.Some? {
        if root.value !in c.repos { return false; }
        if c.repos[root.value].gitRoot.Some? { return false; }
      }
    }
    ok := true;
  }

  /** `n` has to follow `d`: it names it as a dependency or as its git root. */
  predicate Follows(c: Config, n: string, d: string) {
    n in c.repos && d in c.repos && (d in c.repos[n].dependsOn || c.repos[n].gitRoot == Some(d))
  }

  lemma ArcsAre(c: Config)
    requires DependenciesExist(c)
    ensures forall n, d :: Arc(DependencyGraph(c), n, d) <==> Follows(c, n, d)
  {
  }

  /** What a build order is, position by position. */
  lemma OrderMeans(c: Config, order: seq<string>)
    requires DependenciesExist(c)
    ensures BuildOrder(c, order) <==>
            && (forall i, j | 0 <= i < j < |order| :: order[i] != order[j])
            && (forall n :: n in order <==> n in c.repos)
            && forall j, d | 0 <= j < |order| && Follows(c, order[j], d) :: d in order[..j]
  {
    ArcsAre(c);
    forall j, d | 0 <= j < |order| && Follows(c, order[j], d) && BuildOrder(c, order) ensures d in order[..j] {
      assert Arc(DependencyGraph(c), order[j], d);
    }
    forall j, d | 0 <= j < |order| && Arc(DependencyGraph(c), order[j], d) ensures Follows(c, order[j], d) { }
  }

  /** The three checks, in the order in which the model runs them; the first that fails ends the load. */
  method Validate(c: Config) returns (ok: bool, ghost order: seq<string>)
    requires WellFormed(c)
    ensures ok <==> DependenciesExist(c) && GitRootsExist(c) && GitRootsAreFlat(c) && Acyclic(DependencyGraph(c))
    ensures ok ==> BuildOrder(c, order)
  {
    order := [];
    ok := ValidateDependsOnRefs(c);
    if ok {
      ok, order := ValidateNoCycles(c);
      if ok { ok := ValidateGitRootRefs(c); }
    }
  }

  /** Depending on one's own directory service, or being one's own git root, is refused. */
  lemma GitRootCounts(c: Config, n: string, root: string)
    requires n in c.repos && root in c.repos && c.repos[n].gitRoot == Some(root)
    requires n == root || n in c.repos[root].dependsOn
    ensures !Acyclic(DependencyGraph(c))
  {
    var p := if n == root then [n, n] else [n, root, n];
    assert Cycle(DependencyGraph(c), p);
  }
}
