/** The stored tasks and the commands that change their dependency edges. */
module TaskStore {
  import opened Basics
  import opened Digraph
  import opened TaskGraph

  function Without(s: seq<string>, x: string): (r: seq<string>)
    ensures x !in r && forall y :: y in r <==> y in s && y != x
    ensures x !in s ==> r == s
  {
    if s == [] then [] else (if s[0] == x then [] else [s[0]]) + Without(s[1..], x)
  }

  lemma {:induction false} WithoutDistinct(s: seq<string>, x: string)
    requires Distinct(s)
    ensures Distinct(Without(s, x))
  {
    if s != [] {
      assert s[0] !in s[1..];
      WithoutDistinct(s[1..], x);
    }
  }

  /** From edges that do not repeat, one is taken out and the others keep their order. */
  lemma {:induction false} WithoutTakesOne(s: seq<string>, x: string, i: nat)
    requires Distinct(s) && i < |s| && s[i] == x
    ensures Without(s, x) == s[..i] + s[i + 1..]
  {
    if i == 0 {
      assert x !in s[1..];
    } else {
      assert s[1..][i - 1] == x && s[0] != x;
      WithoutTakesOne(s[1..], x, i - 1);
      assert s[..i] + s[i + 1..] == [s[0]] + (s[1..][..i - 1] + s[1..][i..]);
    }
  }

  // ---------------------------------------------------------------- the database

  /** The constraints on the edges of one task: no repeats, no self edge, and every upstream is a task. */
  predicate Admitted(tasks: Tasks, slug: string, upstreams: seq<string>) {
    Distinct(upstreams) && slug !in upstreams && forall u | u in upstreams :: u in tasks
  }

  /** Deleting a row also deletes the edges into it. */
  function Deleted(tasks: Tasks, slug: string): Tasks {
    map t | t in tasks && t != slug :: Without(tasks[t], slug)
  }

  class TaskRows {
    var rows: Tasks

    constructor ()
      ensures rows == map[]
    {
      rows := map[];
    }

    method Insert(slug: string, upstreams: seq<string>) returns (ok: bool)
      modifies this
      ensures ok <==> slug !in old(rows) && Admitted(old(rows), slug, upstreams)
      ensures rows == if ok then old(rows)[slug := upstreams] else old(rows)
      ensures Sound(old(rows)) ==> Sound(rows)
    {
      if Sound(rows) && slug !in rows && Admitted(rows, slug, upstreams) { SpawnKeepsSound(rows, slug, upstreams); }
      ok := slug !in rows && Admitted(rows, slug, upstreams);
      if ok { rows := rows[slug := upstreams]; }
    }

    method Replace(slug: string, upstreams: seq<string>) returns (ok: bool)
      requires slug in rows
      modifies this
      ensures ok <==> Admitted(old(rows), slug, upstreams)
      ensures rows == if ok then old(rows)[slug := upstreams] else old(rows)
    {
      ok := Admitted(rows, slug, upstreams);
      if ok { rows := rows[slug := upstreams]; }
    }

    method Delete(slug: string)
      modifies this
      ensures rows == Deleted(old(rows), slug)
      ensures Sound(old(rows)) ==> Sound(rows)
    {
      if Sound(rows) { DeletionTakesItsEdges(rows, slug); }
      rows := Deleted(rows, slug);
    }
  }

  // ---------------------------------------------------------------- commands

  datatype Command =
    | Add(downstream: string, upstream: string)
    | Remove(downstream: string, upstream: string)
    | Spawn(slug: string, upstreams: seq<string>)
    | Close(closed: string, force: bool, cascade: bool, detach: bool)
    | Prune(pruned: string)

  ghost function Dependents(tasks: Tasks, slug: string): set<string> {
    set t | t in tasks && DependsOn(EdgeGraph(tasks), t, slug)
  }

  /** Whether the dependents of a task let it be closed. */
  ghost predicate MayClose(tasks: Tasks, c: Command)
    requires c.Close?
  {
    c.closed in tasks && (Dependents(tasks, c.closed) == {} || c.force || c.cascade != c.detach)
  }

  /** The rows that go with a close. */
  ghost function Leaving(tasks: Tasks, c: Command): set<string>
    requires c.Close?
  {
    {c.closed} + if c.cascade && !c.detach then Dependents(tasks, c.closed) else {}
  }

  ghost predicate Accepted(tasks: Tasks, c: Command) {
    match c
    case Add(d, u) => d in tasks && u in tasks && !Reaches(EdgeGraph(tasks), u, d)
    case Remove(d, u) => d in tasks && u in tasks[d]
    case Spawn(s, us) => s !in tasks && Admitted(tasks, s, us)
    case Close(_, _, _, _) => MayClose(tasks, c)
    case Prune(s) => s in tasks
  }

  /** The rows after a command; a refused command changes nothing. */
  ghost function Apply(tasks: Tasks, c: Command): Tasks {
    if !Accepted(tasks, c) then tasks else
    match c
    case Add(d, u) => if u in tasks[d] then tasks else tasks[d := tasks[d] + [u]]
    case Remove(d, u) => tasks[d := Without(tasks[d], u)]
    case Spawn(s, us) => tasks[s := us]
    case Close(s, _, _, _) => map t | t in tasks && t !in Leaving(tasks, c) :: Without(tasks[t], s)
    case Prune(s) => Deleted(tasks, s)
  }

  ghost function Run(tasks: Tasks, commands: seq<Command>): Tasks {
    if commands == [] then tasks else Apply(Run(tasks, commands[..|commands| - 1]), commands[|commands| - 1])
  }

  /** A run goes on with its next command, in the store that the commands before it have left. */
  lemma RunGoesOn(tasks: Tasks, commands: seq<Command>, c: Command)
    ensures Run(tasks, []) == tasks && Run(tasks, commands + [c]) == Apply(Run(tasks, commands), c)
  {
    assert (commands + [c])[..|commands|] == commands;
  }

  /** What every reachable store satisfies. */
  ghost predicate Sound(tasks: Tasks) {
    Acyclic(EdgeGraph(tasks)) && forall t | t in tasks :: Admitted(tasks, t, tasks[t])
  }

  // ---------------------------------------------------------------- soundness of every run

  lemma AddKeepsSound(tasks: Tasks, d: string, u: string)
    requires Sound(tasks) && d in tasks && u in tasks && u !in tasks[d] && !Reaches(EdgeGraph(tasks), u, d)
    ensures Sound(tasks[d := tasks[d] + [u]])
  {
    var g := EdgeGraph(tasks);
    ArcKeepsAcyclic(g, d, u);
    assert (set x | x in tasks[d] + [u]) == (set x | x in tasks[d]) + {u};
    assert EdgeGraph(tasks[d := tasks[d] + [u]]) == WithArc(g, d, u);
    if u == d { ReachesItself(g, d); }
  }

  lemma FewerEdgesKeepSound(tasks: Tasks, fewer: Tasks)
    requires Sound(tasks) && fewer.Keys <= tasks.Keys
    requires forall t | t in fewer :: Distinct(fewer[t])
    requires forall t | t in fewer :: forall u | u in fewer[t] :: u in tasks[t] && u in fewer
    ensures Sound(fewer)
  {
    SubgraphAcyclic(EdgeGraph(fewer), EdgeGraph(tasks));
  }

  lemma SpawnKeepsSound(tasks: Tasks, s: string, us: seq<string>)
    requires Sound(tasks) && s !in tasks && Admitted(tasks, s, us)
    ensures Sound(tasks[s := us])
  {
    var g := EdgeGraph(tasks);
    forall u | u in us ensures !Reaches(g, u, s) { NothingReachesAFreshSlug(tasks, u, s); }
    FreshNodeCheck(g, s, set u | u in us);
    assert EdgeGraph(tasks[s := us]) == g[s := set u | u in us];
  }

  /** No edge leads to a slug without a task, so the search before a spawn cannot find a cycle. */
  lemma NothingReachesAFreshSlug(tasks: Tasks, u: string, s: string)
    requires Sound(tasks) && s !in tasks && u in tasks
    ensures !Reaches(EdgeGraph(tasks), u, s)
  {
    var g := EdgeGraph(tasks);
    if Reaches(g, u, s) {
      var p: seq<string> :| WalkFrom(g, p, u, s);
      ClosedUnderWalks(g, tasks.Keys, p);
    }
  }

  lemma CloseKeepsSound(tasks: Tasks, c: Command)
    requires Sound(tasks) && c.Close? && Accepted(tasks, c)
    ensures Sound(Apply(tasks, c))
  {
    var after := Apply(tasks, c);
    forall t | t in after ensures Distinct(after[t]) { WithoutDistinct(tasks[t], c.closed); }
    forall t, u | t in after && u in after[t] ensures u in tasks[t] && u in after {
      if u in Leaving(tasks, c) { DependentOfDependent(tasks, c.closed, u, t); }
    }
    FewerEdgesKeepSound(tasks, after);
  }

  /** Deleting a row takes exactly the edges from and to it, and no constraint of another row breaks. */
  lemma DeletionTakesItsEdges(tasks: Tasks, s: string)
    requires Sound(tasks)
    ensures Sound(Deleted(tasks, s)) && Deleted(tasks, s).Keys == tasks.Keys - {s}
    ensures forall t, u :: t in Deleted(tasks, s) && u in Deleted(tasks, s)[t]
                      <==> t in tasks && u in tasks[t] && t != s && u != s
  {
    forall t | t in tasks ensures Distinct(Without(tasks[t], s)) { WithoutDistinct(tasks[t], s); }
    FewerEdgesKeepSound(tasks, Deleted(tasks, s));
  }

  lemma StepKeepsSound(tasks: Tasks, c: Command)
    requires Sound(tasks)
    ensures Sound(Apply(tasks, c))
  {
    if Accepted(tasks, c) {
      match c
      case Add(d, u) => if u !in tasks[d] { AddKeepsSound(tasks, d, u); }
      case Remove(d, u) =>
        WithoutDistinct(tasks[d], u);
        FewerEdgesKeepSound(tasks, Apply(tasks, c));
      case Spawn(s, us) => SpawnKeepsSound(tasks, s, us);
      case Close(_, _, _, _) => CloseKeepsSound(tasks, c);
      case Prune(s) => DeletionTakesItsEdges(tasks, s);
    }
  }

  /**
   Whatever commands run, in whatever order, the edges stay acyclic and lead to tasks only. Closed slugs
   may be used again, and closes may be forced.
   */
  lemma {:induction false} EveryRunIsSound(commands: seq<Command>)
    ensures Sound(Run(map[], commands))
    decreases |commands|
  {
    if commands == [] {
      assert EdgeGraph(map[]) == map[];
      assert Topological(EdgeGraph(map[]), []);
      TopologicalIsAcyclic(EdgeGraph(map[]), []);
    } else {
      EveryRunIsSound(commands[..|commands| - 1]);
      StepKeepsSound(Run(map[], commands[..|commands| - 1]), commands[|commands| - 1]);
    }
  }

  // ---------------------------------------------------------------- what a close leaves

  /**
   After a close, no edge leads to the closed task or to a task that went with it, and every other edge
   is still there: forced or not, with or without detaching.
   */
  lemma CloseLeavesNoEdge(tasks: Tasks, c: Command)
    requires Sound(tasks) && c.Close? && Accepted(tasks, c)
    ensures var after := Apply(tasks, c);
            && after.Keys == tasks.Keys - Leaving(tasks, c)
            && (forall t | t in after :: forall u | u in Leaving(tasks, c) :: u !in after[t])
            && (forall t | t in after :: forall u | u in tasks[t] && u != c.closed :: u in after[t])
  {
    var after := Apply(tasks, c);
    forall t, u | t in after && u in Leaving(tasks, c) ensures u !in after[t] {
      if u in after[t] { DependentOfDependent(tasks, c.closed, u, t); }
    }
  }

  /** Cascading leaves the remaining tasks with exactly the edges they had. */
  lemma CascadeKeepsTheRest(tasks: Tasks, c: Command)
    requires Sound(tasks) && c.Close? && Accepted(tasks, c) && c.cascade && !c.detach
    ensures forall t | t in Apply(tasks, c) ::
              !DependsOn(EdgeGraph(tasks), t, c.closed) && Apply(tasks, c)[t] == tasks[t]
  {
    forall t | t in Apply(tasks, c) ensures Apply(tasks, c)[t] == tasks[t] {
      if c.closed in tasks[t] { DependentOfDependent(tasks, c.closed, c.closed, t); }
    }
  }

  /** Detaching before or after makes no difference to what a plain forced close does. */
  lemma DetachIsRedundant(tasks: Tasks, s: string)
    requires s in tasks
    ensures Apply(tasks, Close(s, false, false, true)) == Apply(tasks, Close(s, true, false, false))
            == Deleted(tasks, s)
  {
  }
}
