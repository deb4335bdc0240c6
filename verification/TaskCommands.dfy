/** `depends add`, `depends remove`, `spawn --depends-on` and the dependency part of `close`. */
module TaskCommands {
  import opened Basics
  import opened Digraph
  import opened TaskGraph
  import opened TaskStore

  datatype Refusal =
    | UnknownTask
    | UnknownUpstream
    | CycleDetected(cycle: seq<string>)
    | NoSuchEdge
    | AlreadyExists
    | Constraint
    | BothFlags
    | HasDownstream(downstream: set<string>)

  /** At most the edges of one task have changed. */
  ghost predicate SameButFor(before: Tasks, after: Tasks, slug: string) {
    after.Keys == before.Keys && forall t | t in before && t != slug :: after[t] == before[t]
  }

  /** `after` is `before` without the edge at some place, which leads to `x`. */
  ghost predicate OneTakenOut(before: seq<string>, after: seq<string>, x: string) {
    exists i :: 0 <= i < |before| && before[i] == x && after == before[..i] + before[i + 1..]
  }

  lemma WithoutIsOneTakenOut(s: seq<string>, x: string)
    requires Distinct(s) && x in s
    ensures OneTakenOut(s, Without(s, x), x)
  {
    var i :| 0 <= i < |s| && s[i] == x;
    WithoutTakesOne(s, x, i);
  }

  lemma AddIsChecked(tasks: Tasks, d: string, u: string)
    requires Sound(tasks)
    ensures Accepted(tasks, Add(d, u)) <==> d in tasks && u in tasks && Acyclic(WithArc(EdgeGraph(tasks), d, u))
  {
    if d in tasks { ArcKeepsAcyclic(EdgeGraph(tasks), d, u); }
  }

  /** `depends add`: the edge goes to the end of the edges of its task, unless it is there or closes a cycle. */
  method AddDependency(db: TaskRows, downstream: string, upstream: string) returns (refused: Option<Refusal>)
    requires Sound(db.rows)
    modifies db
    ensures db.rows == Apply(old(db.rows), Add(downstream, upstream)) && Sound(db.rows)
    ensures refused.None? <==>
              && downstream in old(db.rows) && upstream in old(db.rows)
              && Acyclic(WithArc(EdgeGraph(old(db.rows)), downstream, upstream))
    ensures refused.None? ==> SameButFor(old(db.rows), db.rows, downstream)
    ensures refused.None? ==>
              db.rows[downstream] ==
              old(db.rows)[downstream] + if upstream in old(db.rows)[downstream] then [] else [upstream]
    ensures refused.Some? ==> db.rows == old(db.rows)
    ensures refused.Some? && refused.value.CycleDetected? ==>
      Cycle(WithArc(EdgeGraph(db.rows), downstream, upstream), refused.value.cycle)
  {
    StepKeepsSound(db.rows, Add(downstream, upstream));
    AddIsChecked(db.rows, downstream, upstream);
    if downstream !in db.rows { return Some(UnknownTask); }
    if upstream !in db.rows { return Some(UnknownUpstream); }
    var cycle := FindCycle(db.rows, downstream, upstream);
    if cycle.Some? { return Some(CycleDetected(cycle.value)); }
    refused := None;
    var edges := db.rows[downstream];
    if upstream !in edges {
      if upstream == downstream { ReachesItself(EdgeGraph(db.rows), upstream); }
      var ok := db.Replace(downstream, edges + [upstream]);
    }
  }

  /** `depends remove`: one edge is taken off its task, and the others stay in order. */
  method RemoveDependency(db: TaskRows, downstream: string, upstream: string) returns (refused: Option<Refusal>)
    requires Sound(db.rows)
    modifies db
    ensures db.rows == Apply(old(db.rows), Remove(downstream, upstream)) && Sound(db.rows)
    ensures refused.None? <==> downstream in old(db.rows) && upstream in old(db.rows)[downstream]
    ensures refused.None? ==>
              && SameButFor(old(db.rows), db.rows, downstream) && upstream !in db.rows[downstream]
              && OneTakenOut(old(db.rows)[downstream], db.rows[downstream], upstream)
    ensures refused.Some? ==> db.rows == old(db.rows)
  {
    StepKeepsSound(db.rows, Remove(downstream, upstream));
    if downstream !in db.rows { return Some(UnknownTask); }
    var edges := db.rows[downstream];
    if upstream !in edges { return Some(NoSuchEdge); }
    WithoutDistinct(edges, upstream);
    WithoutIsOneTakenOut(edges, upstream);
    var ok := db.Replace(downstream, Without(edges, upstream));
    refused := None;
  }

  /** Searches from every requested upstream in the graph as it is before the task exists. */
  method CheckUpstreams(tasks: Tasks, slug: string, requested: seq<string>) returns (refused: Option<Refusal>)
    ensures refused.None? <==> forall u | u in requested :: !Reaches(EdgeGraph(tasks), u, slug)
    ensures refused.Some? ==> refused.value.CycleDetected?
  {
    for i := 0 to |requested|
      invariant forall k | 0 <= k < i :: !Reaches(EdgeGraph(tasks), requested[k], slug)
    {
      var cycle := FindCycle(tasks, slug, requested[i]);
      if cycle.Some? {
        assert requested[i] in requested;
        return Some(CycleDetected(cycle.value));
      }
    }
    refused := None;
  }

  /** `spawn --depends-on`: the new row has exactly the edges asked for. */
  method SpawnTask(db: TaskRows, slug: string, requested: seq<string>) returns (refused: Option<Refusal>)
    requires Sound(db.rows)
    modifies db
    ensures db.rows == Apply(old(db.rows), Spawn(slug, requested)) && Sound(db.rows)
    ensures refused.None? <==>
              slug !in old(db.rows) && Distinct(requested) && forall u | u in requested :: u in old(db.rows)
    ensures db.rows == if refused.None? then old(db.rows)[slug := requested] else old(db.rows)
    ensures refused.Some? ==> !refused.value.CycleDetected?
  {
    StepKeepsSound(db.rows, Spawn(slug, requested));
    if slug in db.rows { return Some(AlreadyExists); }
    for i := 0 to |requested|
      invariant forall k | 0 <= k < i :: requested[k] in db.rows
      invariant db.rows == old(db.rows)
    {
      if requested[i] !in db.rows {
        assert requested[i] in requested;
        return Some(UnknownUpstream);
      }
    }
    forall u | u in requested ensures !Reaches(EdgeGraph(db.rows), u, slug) {
      NothingReachesAFreshSlug(db.rows, u, slug);
    }
    refused := CheckUpstreams(db.rows, slug, requested);
    if refused.Some? { return; }
    var ok := db.Insert(slug, requested);
    refused := if ok then None else Some(Constraint);
  }

  /** Takes the edges to `slug` off the dependents, one task at a time. */
  method Detach(db: TaskRows, downstream: set<string>, slug: string)
    requires forall t | t in downstream :: t in db.rows && Admitted(db.rows, t, db.rows[t])
    modifies db
    ensures db.rows ==
            map t | t in old(db.rows) :: if t in downstream then Without(old(db.rows)[t], slug) else old(db.rows)[t]
  {
    var todo := downstream;
    while todo != {}
      invariant todo <= downstream && db.rows.Keys == old(db.rows).Keys
      invariant forall t | t in db.rows ::
        db.rows[t] == if t in downstream - todo then Without(old(db.rows)[t], slug) else old(db.rows)[t]
      decreases todo
    {
      var t :| t in todo;
      var edges := Without(db.rows[t], slug);
      if edges != db.rows[t] {
        WithoutDistinct(db.rows[t], slug);
        var ok := db.Replace(t, edges);
      }
      todo := todo - {t};
    }
  }

  /** Deletes the rows of all dependents. */
  method Cascade(db: TaskRows, downstream: set<string>)
    requires forall t | t in db.rows && t !in downstream :: forall d | d in downstream :: d !in db.rows[t]
    modifies db
    ensures db.rows == map t | t in old(db.rows) && t !in downstream :: old(db.rows)[t]
  {
    var todo := downstream;
    while todo != {}
      invariant todo <= downstream
      invariant db.rows.Keys == old(db.rows).Keys - (downstream - todo)
      invariant forall t | t in db.rows && t !in downstream :: db.rows[t] == old(db.rows)[t]
      decreases todo
    {
      var d :| d in todo;
      db.Delete(d);
      todo := todo - {d};
    }
  }

  /** After the row of `slug` is gone: detaches or deletes what depended on it; detaching goes first. */
  method SettleDependents(db: TaskRows, slug: string, downstream: set<string>, cascade: bool, detach: bool)
    requires forall t | t in downstream :: t in db.rows && Admitted(db.rows, t, db.rows[t])
    requires forall t | t in db.rows :: slug !in db.rows[t]
    requires forall t | t in db.rows && t !in downstream :: forall d | d in downstream :: d !in db.rows[t]
    modifies db
    ensures db.rows == if cascade && !detach then old(db.rows) - downstream else old(db.rows)
  {
    if downstream != {} && detach {
      Detach(db, downstream, slug);
    } else if downstream != {} && cascade {
      Cascade(db, downstream);
    }
  }

  method Teardown(db: TaskRows, slug: string, downstream: set<string>, cascade: bool, detach: bool)
    requires Sound(db.rows) && downstream == Dependents(db.rows, slug)
    modifies db
    ensures db.rows ==
            if cascade && !detach then Deleted(old(db.rows), slug) - downstream else Deleted(old(db.rows), slug)
  {
    DeletedStaysAdmitted(db.rows, slug);
    NoEdgeToDependents(db.rows, slug);
    NoDependentOfItself(db.rows, slug);
    db.Delete(slug);
    SettleDependents(db, slug, downstream, cascade, detach);
  }

  /** The dependency part of `close`. */
  method CloseTask(db: TaskRows, slug: string, force: bool, cascade: bool, detach: bool)
    returns (refused: Option<Refusal>)
    requires Sound(db.rows)
    modifies db
    ensures db.rows == Apply(old(db.rows), Close(slug, force, cascade, detach)) && Sound(db.rows)
    ensures refused.None? <==>
              && slug in old(db.rows)
              && (|| force || cascade != detach
                  || forall t | t in old(db.rows) :: !DependsOn(EdgeGraph(old(db.rows)), t, slug))
    ensures refused.None? ==>
              forall t :: t in db.rows <==>
                && t in old(db.rows) && t != slug
                && (cascade && !detach ==> !DependsOn(EdgeGraph(old(db.rows)), t, slug))
    ensures refused.None? ==>
              forall t | t in db.rows ::
                if slug in old(db.rows)[t] then OneTakenOut(old(db.rows)[t], db.rows[t], slug)
                else db.rows[t] == old(db.rows)[t]
    ensures refused.Some? ==> db.rows == old(db.rows)
  {
    CloseDirectly(db.rows, Close(slug, force, cascade, detach));
    StepKeepsSound(db.rows, Close(slug, force, cascade, detach));
    if slug !in db.rows { return Some(UnknownTask); }
    var downstream := DownstreamOf(db.rows, slug);
    assert downstream == Dependents(db.rows, slug);
    if downstream != {} && !force {
      if cascade && detach { return Some(BothFlags); }
      if !cascade && !detach { return Some(HasDownstream(downstream)); }
    }
    CloseIs(db.rows, Close(slug, force, cascade, detach));
    Teardown(db, slug, downstream, cascade, detach);
    refused := None;
  }

  lemma CloseIs(tasks: Tasks, c: Command)
    requires c.Close? && Accepted(tasks, c)
    ensures Apply(tasks, c) == if c.cascade && !c.detach then Deleted(tasks, c.closed) - Dependents(tasks, c.closed)
                               else Deleted(tasks, c.closed)
  {
  }

  lemma CloseDirectly(tasks: Tasks, c: Command)
    requires Sound(tasks) && c.Close?
    ensures Accepted(tasks, c) <==>
              && c.closed in tasks
              && (|| c.force || c.cascade != c.detach
                  || forall t | t in tasks :: !DependsOn(EdgeGraph(tasks), t, c.closed))
    ensures Accepted(tasks, c) ==>
              forall t | t in Apply(tasks, c) ::
                if c.closed in tasks[t] then OneTakenOut(tasks[t], Apply(tasks, c)[t], c.closed)
                else Apply(tasks, c)[t] == tasks[t]
  {
    assert forall t | t in tasks && DependsOn(EdgeGraph(tasks), t, c.closed) :: t in Dependents(tasks, c.closed);
    forall t | t in tasks && c.closed in tasks[t] ensures OneTakenOut(tasks[t], Without(tasks[t], c.closed), c.closed) {
      WithoutIsOneTakenOut(tasks[t], c.closed);
    }
  }

  lemma NoDependentOfItself(tasks: Tasks, slug: string)
    requires Sound(tasks)
    ensures slug !in Dependents(tasks, slug)
  {
    var g := EdgeGraph(tasks);
    if DependsOn(g, slug, slug) {
      var m :| Arc(g, slug, m) && Reaches(g, m, slug);
      var p: seq<string> :| WalkFrom(g, p, m, slug);
      assert WalkFrom(g, [slug, m], slug, m);
      JoinWalks(g, [slug, m], p);
      assert Cycle(g, [slug, m] + p[1..]);
    }
  }

  lemma DeletedStaysAdmitted(tasks: Tasks, slug: string)
    requires Sound(tasks)
    ensures var after := Deleted(tasks, slug);
            forall t | t in after :: Admitted(after, t, after[t]) && slug !in after[t]
  {
    var after := Deleted(tasks, slug);
    forall t | t in after ensures Admitted(after, t, after[t]) { WithoutDistinct(tasks[t], slug); }
  }

  lemma NoEdgeToDependents(tasks: Tasks, slug: string)
    ensures forall t | t in Deleted(tasks, slug) && t !in Dependents(tasks, slug) ::
      forall d | d in Dependents(tasks, slug) :: d !in Deleted(tasks, slug)[t]
  {
    forall t, d | t in tasks && d in Dependents(tasks, slug) && d in tasks[t] ensures t in Dependents(tasks, slug) {
      DependentOfDependent(tasks, slug, d, t);
    }
  }
}
