/** What a run of `finish` does to the pull requests and the records, in terms of the task and its bases. */
module FinishOutcome {
  import opened Basics
  import opened RepoGraph
  import opened PrGroups
  import opened FinishRuns
  import opened FinishTheorems

  // ---------------------------------------------------------------- where pull requests go

  /** The base that a repository declares, or else the default branch of its remote. */
  function Wanted(s: Setting, inputs: Inputs, m: string): string {
    if m in inputs.bases && inputs.bases[m].Some? then inputs.bases[m].value else s.trunk(s.remote(s.rootOf(m)))
  }

  /** An open pull request into the base that all repositories with one root, on this remote, want. */
  ghost predicate OpenedFor(s: Setting, inputs: Inputs, repo: string, pr: PullRequest) {
    && pr.open
    && exists r :: r in s.repos && s.remote(s.rootOf(r)) == repo && WantedByAll(s, inputs, s.rootOf(r), pr.base)
  }

  ghost predicate WantedByAll(s: Setting, inputs: Inputs, root: string, base: string) {
    forall m | m in s.repos && s.rootOf(m) == root :: base == Wanted(s, inputs, m)
  }

  /** The pull requests there were, followed by new ones that are open and go where they are wanted. */
  ghost predicate OnlyOpened(s: Setting, inputs: Inputs, repo: string, before: seq<PullRequest>,
                             after: seq<PullRequest>)
  {
    before <= after && forall k | |before| <= k < |after| :: OpenedFor(s, inputs, repo, after[k])
  }

  ghost predicate PrsOnlyOpened(s: Setting, inputs: Inputs, w: World, w': World) {
    forall repo :: OnlyOpened(s, inputs, repo, PrsOf(w, repo), PrsOf(w', repo))
  }

  lemma TargetIsWanted(s: Setting, inputs: Inputs, g: PRGroup)
    requires Coherent(s.rootOf, s.repos, inputs.bases, g) && Whole(s, g)
    ensures g.rep in s.repos && WantedByAll(s, inputs, s.rootOf(g.rep), TargetOf(s, g))
  {
  }

  lemma CreatedIsOpened(s: Setting, inputs: Inputs, w: World, now: World, w': World, repo: string, base: string)
    requires PrsOnlyOpened(s, inputs, w, now) && w'.prs == Created(now, repo, base).prs
    requires OpenedFor(s, inputs, repo, PullRequest(base, true))
    ensures PrsOnlyOpened(s, inputs, w, w')
  {
    forall r ensures OnlyOpened(s, inputs, r, PrsOf(w, r), PrsOf(w', r)) {
      assert OnlyOpened(s, inputs, r, PrsOf(w, r), PrsOf(now, r));
    }
  }

  lemma SamePrsOpened(s: Setting, inputs: Inputs, w: World, now: World, w': World)
    requires PrsOnlyOpened(s, inputs, w, now) && w'.prs == now.prs
    ensures PrsOnlyOpened(s, inputs, w, w')
  {
    forall r ensures OnlyOpened(s, inputs, r, PrsOf(w, r), PrsOf(w', r)) {
      assert OnlyOpened(s, inputs, r, PrsOf(w, r), PrsOf(now, r));
    }
  }

  lemma GroupOpensWhatIsWanted(s: Setting, inputs: Inputs, w: World, now: World, g: PRGroup, untouched: set<string>,
                               calls: Call -> Turn)
    requires Coherent(s.rootOf, s.repos, inputs.bases, g) && Whole(s, g) && PrsOnlyOpened(s, inputs, w, now)
    ensures PrsOnlyOpened(s, inputs, w, GroupStep(s, now, g, untouched, inputs.force, calls).world)
  {
    var w' := GroupStep(s, now, g, untouched, inputs.force, calls).world;
    GroupStepOpens(s, now, g, untouched, inputs.force, calls);
    if Opens(s, now, g, untouched, calls) {
      TargetIsWanted(s, inputs, g);
      CreatedIsOpened(s, inputs, w, now, w', RepoOf(s, g), TargetOf(s, g));
    } else {
      SamePrsOpened(s, inputs, w, now, w');
    }
  }

  lemma {:induction false} GroupsOpenWhatIsWanted(s: Setting, inputs: Inputs, w: World, groups: seq<PRGroup>,
                                                  untouched: set<string>, n: nat)
    requires n <= |groups|
    requires forall i | 0 <= i < |groups| :: Coherent(s.rootOf, s.repos, inputs.bases, groups[i]) && Whole(s, groups[i])
    ensures PrsOnlyOpened(s, inputs, w, GroupSteps(s, w, groups, untouched, inputs, n).world)
  {
    if n > 0 {
      GroupsOpenWhatIsWanted(s, inputs, w, groups, untouched, n - 1);
      var before := GroupSteps(s, w, groups, untouched, inputs, n - 1);
      if before.go {
        GroupOpensWhatIsWanted(s, inputs, w, before.world, groups[n - 1], untouched, inputs.script(n - 1));
      }
    }
  }

  /**
   Whatever happens to its calls, a run leaves the pull requests there were as they are, and every new one is
   open and goes into the base that all repositories of its checkout declare, or into the default branch of
   the remote where they declare none.
   */
  lemma NewPrsGoWhereWanted(s: Setting, w: World, inputs: Inputs)
    ensures forall repo :: OnlyOpened(s, inputs, repo, PrsOf(w, repo), PrsOf(FinishRun(s, w, inputs).0, repo))
  {
    if Begins(s, w, inputs) {
      var groups, untouched := GroupsOf(s.rootOf, s.repos, inputs.bases), UntouchedRepos(s, w, inputs);
      GroupsPartition(s.rootOf, s.repos, inputs.bases);
      GroupsAreWhole(s, inputs.bases);
      GroupsOpenWhatIsWanted(s, inputs, w, groups, untouched, |groups|);
      RunPrs(s, w, inputs);
      SamePrsOpened(s, inputs, w, GroupSteps(s, w, groups, untouched, inputs, |groups|).world,
                    FinishRun(s, w, inputs).0);
    }
  }

  // ---------------------------------------------------------------- calls that are refused or stop

  /**
   A creation that is refused because a pull request is open for the branch and the base: the newest one of the
   branch is looked up and recorded, and nothing is opened. If that lookup fails the run stops.
   */
  lemma RefusedCreation(s: Setting, inputs: Inputs, now: World, g: PRGroup, untouched: set<string>,
                        calls: Call -> Turn)
    requires Coherent(s.rootOf, s.repos, inputs.bases, g) && Whole(s, g)
    requires !Skipped(now, g, untouched) && !AllRecorded(now, g)
    requires !calls(Push).Stops? && calls(Lookup) == Misses && !calls(Create).Stops?
    requires PullRequest(Wanted(s, inputs, g.rep), true) in PrsOf(now, s.remote(s.rootOf(g.rep)))
    ensures var step, repo := GroupStep(s, now, g, untouched, inputs.force, calls), s.remote(s.rootOf(g.rep));
            && step.world.prs == now.prs && step.world.finished == now.finished
            && (step.go <==> calls(Harvest) == Works && !calls(RecordUrls).Stops?)
            && step.world.urls == now.urls +
               if calls(Harvest) == Works && calls(RecordUrls) != Stops(false)
               then map m | m in g.members :: Pr(repo, Count(now, repo) - 1) else map[]
  {
    TargetIsWanted(s, inputs, g);
    assert OpenFor(now, RepoOf(s, g), TargetOf(s, g));
  }

  /** A round that does not go on has recorded nothing, unless it was stopped after the record took effect. */
  lemma StoppedRound(s: Setting, now: World, g: PRGroup, untouched: set<string>, force: bool, calls: Call -> Turn)
    requires !Skipped(now, g, untouched) && !AllRecorded(now, g)
    ensures var step := GroupStep(s, now, g, untouched, force, calls);
            && (calls(Push).Stops? || calls(Lookup).Stops? ==> step == Step(now, false))
            && (calls(RecordUrls).Stops? ==> !step.go)
            && (!step.go && calls(RecordUrls) != Stops(true) ==> step.world.urls == now.urls)
            && (step.go ==> AllRecorded(step.world, g))
  {
  }

  // ---------------------------------------------------------------- a run whose calls all work

  /** Every call works, except perhaps the one that stamps the task. */
  ghost predicate AllWorks(inputs: Inputs) {
    forall i, c | c != Stamp :: inputs.script(i)(c) == Works
  }

  function Declared(inputs: Inputs, m: string): Base {
    if m in inputs.bases then inputs.bases[m] else None
  }

  /** Without a record, and with no commit past the base it declares. */
  predicate Idle(w: World, inputs: Inputs, m: string) {
    m !in w.urls && Declared(inputs, m).Some? && inputs.ahead(m) == Some(0)
  }

  /** Without a record, in a checkout in which something was done. */
  predicate ToDeliver(s: Setting, w: World, inputs: Inputs, m: string) {
    m in s.repos && m !in w.urls && exists n :: n in s.repos && s.rootOf(n) == s.rootOf(m) && !Idle(w, inputs, n)
  }

  /** A repository that is not recorded yet declares a base that its remote does not have. */
  predicate LacksBase(s: Setting, w: World, inputs: Inputs) {
    exists m | m in s.repos :: m !in w.urls && Declared(inputs, m).Some? && !inputs.verified(m)
  }

  predicate AllIdle(s: Setting, w: World, inputs: Inputs) {
    w.urls == map[] && s.repos != [] && forall m | m in s.repos :: Idle(w, inputs, m)
  }

  /** Two repositories of one checkout declare different bases. */
  predicate Mixed(s: Setting, inputs: Inputs) {
    exists m, n | m in s.repos && n in s.repos ::
      s.rootOf(m) == s.rootOf(n) && Declared(inputs, m) != Declared(inputs, n)
  }

  /** The pull request of the remote: the newest of `count`, or the first. */
  function TheOne(repo: string, count: nat): Pr {
    Pr(repo, if count == 0 then 0 else count - 1)
  }

  /** Old records stay, and the new ones name the pull request of their remote. */
  ghost predicate RecordsTheOne(s: Setting, w: World, w': World) {
    && (forall m | m in w.urls :: m in w'.urls && w'.urls[m] == w.urls[m])
    && (forall m | m in w'.urls && m !in w.urls ::
          w'.urls[m] == TheOne(s.remote(s.rootOf(m)), Count(w, s.remote(s.rootOf(m)))))
  }

  ghost predicate NewlyRecorded(s: Setting, w: World, w': World, repo: string) {
    exists m :: m in w'.urls && m !in w.urls && s.remote(s.rootOf(m)) == repo
  }

  /** A remote without a pull request gets one if a repository of its was recorded; no other gets any. */
  ghost predicate GetsTheFirst(s: Setting, w: World, w': World, repo: string) {
    Count(w', repo) == if Count(w, repo) == 0 && NewlyRecorded(s, w, w', repo) then 1 else Count(w, repo)
  }

  ghost predicate OpensTheFirst(s: Setting, w: World, w': World) {
    forall repo :: GetsTheFirst(s, w, w', repo)
  }

  ghost predicate Done(s: Setting, w: World, w': World) {
    RecordsTheOne(s, w, w') && OpensTheFirst(s, w, w')
  }

  // -------- one group

  /** What a round does to a group that is neither skipped nor recorded. */
  ghost predicate Settles(s: Setting, now: World, g: PRGroup, w': World) {
    var repo := RepoOf(s, g);
    && w'.finished == now.finished
    && w'.urls == now.urls + (map m | m in g.members :: TheOne(repo, Count(now, repo)))
    && forall r :: Count(w', r) == if r == repo && Count(now, repo) == 0 then 1 else Count(now, r)
  }

  lemma WorkingGroup(s: Setting, now: World, g: PRGroup, untouched: set<string>, force: bool, calls: Call -> Turn)
    requires forall c | c != Stamp :: calls(c) == Works
    ensures var step := GroupStep(s, now, g, untouched, force, calls);
            && step.go
            && if Skipped(now, g, untouched) || AllRecorded(now, g) then step.world == now
               else Settles(s, now, g, step.world)
  {
    GroupStepCounts(s, now, g, untouched, force, calls);
    if !Skipped(now, g, untouched) && !AllRecorded(now, g) { WorkingCreation(s, now, g, calls); }
  }

  lemma WorkingCreation(s: Setting, now: World, g: PRGroup, calls: Call -> Turn)
    requires forall c | c != Stamp :: calls(c) == Works
    ensures var step := FindOrCreate(s, now, g, calls);
            && step.go && step.world.finished == now.finished
            && step.world.urls == now.urls + (map m | m in g.members :: TheOne(RepoOf(s, g), Count(now, RepoOf(s, g))))
  {
  }

  lemma DoneAndRecorded(s: Setting, w: World, now: World, g: PRGroup, w': World)
    requires Done(s, w, now) && Whole(s, g) && Settles(s, now, g, w') && forall m | m in g.members :: m !in now.urls
    ensures RecordsTheOne(s, w, w')
  {
    assert GetsTheFirst(s, w, now, RepoOf(s, g));
  }

  lemma NewlyRecordedAfter(s: Setting, w: World, now: World, g: PRGroup, w': World, repo: string)
    requires RecordsTheOne(s, w, now) && Whole(s, g) && Settles(s, now, g, w')
    requires forall m | m in g.members :: m !in now.urls
    ensures NewlyRecorded(s, w, w', repo) <==> NewlyRecorded(s, w, now, repo) || repo == RepoOf(s, g)
  {
    if repo == RepoOf(s, g) {
      assert g.rep in w'.urls && g.rep !in w.urls;
    } else {
      assert forall m | m in w'.urls && m !in w.urls && s.remote(s.rootOf(m)) == repo :: m in now.urls;
      assert forall m | m in now.urls :: m in w'.urls;
    }
  }

  lemma DoneAndCounted(s: Setting, w: World, now: World, g: PRGroup, w': World)
    requires Done(s, w, now) && Whole(s, g) && Settles(s, now, g, w') && forall m | m in g.members :: m !in now.urls
    ensures OpensTheFirst(s, w, w')
  {
    forall repo ensures GetsTheFirst(s, w, w', repo) {
      NewlyRecordedAfter(s, w, now, g, w', repo);
      assert GetsTheFirst(s, w, now, repo);
    }
  }

  // -------- the loop

  /** Group `i` is to be delivered; `m` is one of its members. */
  predicate DueIn(s: Setting, w: World, inputs: Inputs, groups: seq<PRGroup>, i: nat, m: string)
    requires i < |groups|
  {
    m in groups[i].members && ToDeliver(s, w, inputs, m)
  }

  /** After `n` groups, exactly their members that were to be delivered are newly recorded. */
  ghost predicate RecordedUpTo(s: Setting, w: World, inputs: Inputs, groups: seq<PRGroup>, n: nat, now: World)
    requires n <= |groups|
  {
    forall m :: RecordedIfDue(s, w, inputs, groups, n, now, m)
  }

  ghost predicate RecordedIfDue(s: Setting, w: World, inputs: Inputs, groups: seq<PRGroup>, n: nat, now: World,
                                m: string)
    requires n <= |groups|
  {
    m in now.urls <==> m in w.urls || exists i | 0 <= i < n :: DueIn(s, w, inputs, groups, i, m)
  }

  lemma NotRecordedYet(s: Setting, w: World, inputs: Inputs, groups: seq<PRGroup>, n: nat, now: World, m: string)
    requires WholeGroups(s, groups) && n < |groups| && RecordedUpTo(s, w, inputs, groups, n, now)
    requires m in groups[n].members
    ensures m in now.urls <==> m in w.urls
  {
    forall i | 0 <= i < n ensures !DueIn(s, w, inputs, groups, i, m) { assert m in groups[i].members ==> i == n; }
    assert RecordedIfDue(s, w, inputs, groups, n, now, m);
  }

  lemma GroupIsDue(s: Setting, w: World, inputs: Inputs, g: PRGroup, now: World)
    requires Consistent(s, w) && Whole(s, g) && forall m | m in g.members :: m in now.urls <==> m in w.urls
    ensures if Skipped(now, g, UntouchedRepos(s, w, inputs)) || AllRecorded(now, g)
            then forall m | m in g.members :: !ToDeliver(s, w, inputs, m)
            else forall m | m in g.members :: ToDeliver(s, w, inputs, m)
  {
    if !AllRecorded(w, g) {
      NoneRecorded(s, w, g);
      SkippedMeansIdle(s, w, inputs, g);
    }
  }

  lemma SkippedMeansIdle(s: Setting, w: World, inputs: Inputs, g: PRGroup)
    requires Whole(s, g) && forall m | m in g.members :: m !in w.urls
    ensures if forall m | m in g.members :: m in UntouchedRepos(s, w, inputs)
            then forall m | m in g.members :: !ToDeliver(s, w, inputs, m)
            else forall m | m in g.members :: ToDeliver(s, w, inputs, m)
  {
    forall m | m in g.members ensures m in UntouchedRepos(s, w, inputs) <==> Idle(w, inputs, m) { }
    if n :| n in g.members && n !in UntouchedRepos(s, w, inputs) {
      forall m | m in g.members ensures ToDeliver(s, w, inputs, m) { assert s.rootOf(n) == s.rootOf(m); }
    }
  }

  lemma RecordedFurther(s: Setting, w: World, inputs: Inputs, groups: seq<PRGroup>, n: nat, now: World, w': World)
    requires n < |groups| && RecordedUpTo(s, w, inputs, groups, n, now)
    requires || (w'.urls == now.urls && forall m :: !DueIn(s, w, inputs, groups, n, m))
             || (w'.urls.Keys == now.urls.Keys + (set m | m in groups[n].members)
                 && forall m | m in groups[n].members :: DueIn(s, w, inputs, groups, n, m))
    ensures RecordedUpTo(s, w, inputs, groups, n + 1, w')
  {
    var next := n + 1;
    forall m ensures RecordedIfDue(s, w, inputs, groups, next, w', m) {
      assert RecordedIfDue(s, w, inputs, groups, n, now, m);
      assert m in w'.urls <==> m in now.urls || DueIn(s, w, inputs, groups, n, m);
    }
  }

  /** What holds after `n` groups. */
  ghost predicate WorkedUpTo(s: Setting, w: World, inputs: Inputs, groups: seq<PRGroup>, n: nat, step: Step)
    requires n <= |groups|
  {
    && step.go && step.world.finished == w.finished && Done(s, w, step.world)
    && RecordedUpTo(s, w, inputs, groups, n, step.world)
  }

  ghost predicate LoopWorks(s: Setting, w: World, inputs: Inputs, groups: seq<PRGroup>, n: nat)
    requires n <= |groups|
  {
    WorkedUpTo(s, w, inputs, groups, n, GroupSteps(s, w, groups, UntouchedRepos(s, w, inputs), inputs, n))
  }

  ghost predicate Workable(s: Setting, w: World, inputs: Inputs, groups: seq<PRGroup>) {
    Consistent(s, w) && WholeGroups(s, groups) && AllWorks(inputs)
  }

  lemma {:induction false} WorkingLoop(s: Setting, w: World, inputs: Inputs, groups: seq<PRGroup>, n: nat,
                                       workable: bool, works: bool)
    requires n <= |groups| && workable == Workable(s, w, inputs, groups) && works == LoopWorks(s, w, inputs, groups, n)
    ensures workable ==> works
    decreases n
  {
    if n == 0 {
      NothingWorkedYet(s, w, inputs, groups, n, works);
    } else {
      var m, before := n - 1, LoopWorks(s, w, inputs, groups, n - 1);
      WorkingLoop(s, w, inputs, groups, m, workable, before);
      NextRound(s, w, inputs, groups, m, workable, before, works);
    }
  }

  lemma NextRound(s: Setting, w: World, inputs: Inputs, groups: seq<PRGroup>, n: nat, workable: bool, before: bool,
                  works: bool)
    requires n < |groups| && workable == Workable(s, w, inputs, groups)
    requires before == LoopWorks(s, w, inputs, groups, n) && works == LoopWorks(s, w, inputs, groups, n + 1)
    ensures workable && before ==> works
  {
    if workable && before {
      WorkingRound(s, w, inputs, groups, n, GroupSteps(s, w, groups, UntouchedRepos(s, w, inputs), inputs, n));
    }
  }

  lemma NothingWorkedYet(s: Setting, w: World, inputs: Inputs, groups: seq<PRGroup>, n: nat, works: bool)
    requires n == 0 && works == LoopWorks(s, w, inputs, groups, n)
    ensures works
  {
  }

  lemma WorkingRound(s: Setting, w: World, inputs: Inputs, groups: seq<PRGroup>, n: nat, before: Step)
    requires Consistent(s, w) && WholeGroups(s, groups) && n < |groups| && AllWorks(inputs)
    requires WorkedUpTo(s, w, inputs, groups, n, before)
    ensures var step := GroupStep(s, before.world, groups[n], UntouchedRepos(s, w, inputs), inputs.force,
                                  inputs.script(n));
            WorkedUpTo(s, w, inputs, groups, n + 1, step)
  {
    var now, g, untouched := before.world, groups[n], UntouchedRepos(s, w, inputs);
    forall m | m in g.members ensures m in now.urls <==> m in w.urls {
      NotRecordedYet(s, w, inputs, groups, n, now, m);
    }
    GroupIsDue(s, w, inputs, g, now);
    WorkingGroup(s, now, g, untouched, inputs.force, inputs.script(n));
    var w' := GroupStep(s, now, g, untouched, inputs.force, inputs.script(n)).world;
    if !Skipped(now, g, untouched) && !AllRecorded(now, g) { GroupIsDone(s, w, inputs, now, g, w'); }
    RecordedFurther(s, w, inputs, groups, n, now, w');
  }

  lemma GroupIsDone(s: Setting, w: World, inputs: Inputs, now: World, g: PRGroup, w': World)
    requires Done(s, w, now) && Whole(s, g) && Settles(s, now, g, w')
    requires forall m | m in g.members :: ToDeliver(s, w, inputs, m) && (m in now.urls <==> m in w.urls)
    ensures Done(s, w, w')
  {
    DoneAndRecorded(s, w, now, g, w');
    DoneAndCounted(s, w, now, g, w');
  }

  // -------- the run

  predicate AgreeIn(s: Setting, inputs: Inputs, root: string) {
    forall m, n | m in s.repos && n in s.repos && s.rootOf(m) == root && s.rootOf(n) == root ::
      Declared(inputs, m) == Declared(inputs, n)
  }

  lemma OneBaseMeans(s: Setting, inputs: Inputs, root: string)
    ensures OneBase(inputs.bases, MembersOf(s.rootOf, s.repos, root)) <==> AgreeIn(s, inputs, root)
  {
    MembersAre(s.rootOf, s.repos, root);
  }

  lemma MixedMeans(s: Setting, inputs: Inputs)
    ensures Mixed(s, inputs) <==> exists n | n in s.repos :: !AgreeIn(s, inputs, s.rootOf(n))
  {
  }

  lemma GroupableUnlessMixed(s: Setting, inputs: Inputs)
    ensures Groupable(s.rootOf, s.repos, inputs.bases) <==> !Mixed(s, inputs)
  {
    MixedMeans(s, inputs);
    RootsAre(s.rootOf, s.repos);
    forall root ensures OneBase(inputs.bases, MembersOf(s.rootOf, s.repos, root)) <==> AgreeIn(s, inputs, root) {
      OneBaseMeans(s, inputs, root);
    }
    if root :| root in RootsOf(s.rootOf, s.repos) && !AgreeIn(s, inputs, root) {
      var n :| n in s.repos && s.rootOf(n) == root;
    }
  }

  lemma AllDue(s: Setting, w: World, inputs: Inputs, w': World)
    requires Groupable(s.rootOf, s.repos, inputs.bases)
    requires var groups := GroupsOf(s.rootOf, s.repos, inputs.bases);
             RecordedUpTo(s, w, inputs, groups, |groups|, w')
    ensures forall m :: m in w'.urls <==> m in w.urls || ToDeliver(s, w, inputs, m)
  {
    var groups := GroupsOf(s.rootOf, s.repos, inputs.bases);
    GroupsAreWhole(s, inputs.bases);
    forall m ensures m in w'.urls <==> m in w.urls || ToDeliver(s, w, inputs, m) {
      assert RecordedIfDue(s, w, inputs, groups, |groups|, w', m);
      if ToDeliver(s, w, inputs, m) {
        var i :| 0 <= i < |groups| && m in groups[i].members;
        assert DueIn(s, w, inputs, groups, i, m);
      }
    }
  }

  /**
   A run whose calls work, but for the stamp perhaps. It is refused exactly when a base is missing, or nothing was
   done at all; it stops before the loop exactly when one checkout has two bases; neither changes anything. Else
   exactly the repositories with something to deliver are newly recorded, with the newest pull request of their
   remote, and a first one is opened exactly where there was none. The run completes exactly if the stamp works,
   or the task has it already and is not forced, and the task is stamped if it was or the stamp took effect.
   */
  lemma WorkingRun(s: Setting, w: World, inputs: Inputs, stamp: Turn)
    requires Consistent(s, w) && AllWorks(inputs) && forall i :: inputs.script(i)(Stamp) == stamp
    ensures var (w', exit) := FinishRun(s, w, inputs);
            && (exit == Refused <==> LacksBase(s, w, inputs) || AllIdle(s, w, inputs))
            && (exit == Refused || Mixed(s, inputs) ==> w' == w)
            && (exit == Completed <==>
                  exit != Refused && !Mixed(s, inputs) && ((w.finished && !inputs.force) || !stamp.Stops?))
            && (exit != Refused && !Mixed(s, inputs) ==>
                  && RecordsTheOne(s, w, w') && OpensTheFirst(s, w, w')
                  && (forall m :: m in w'.urls <==> m in w.urls || ToDeliver(s, w, inputs, m))
                  && (w'.finished <==> w.finished || stamp != Stops(false)))
  {
    GroupableUnlessMixed(s, inputs);
    assert UntouchedRepos(s, w, inputs) == set n | n in s.repos && Idle(w, inputs, n);
    if Begins(s, w, inputs) {
      var groups := GroupsOf(s.rootOf, s.repos, inputs.bases);
      GroupsAreWhole(s, inputs.bases);
      WorkingLoop(s, w, inputs, groups, |groups|, true, LoopWorks(s, w, inputs, groups, |groups|));
      var step := GroupSteps(s, w, groups, UntouchedRepos(s, w, inputs), inputs, |groups|);
      AllDue(s, w, inputs, step.world);
      StampedDone(s, w, step.world, inputs, |groups|, stamp);
    }
  }

  lemma StampedDone(s: Setting, w: World, now: World, inputs: Inputs, n: nat, stamp: Turn)
    requires Done(s, w, now) && AllWorks(inputs) && inputs.script(n)(Stamp) == stamp
    ensures var (w', exit) := StampStep(now, inputs, n);
            && exit == (if (now.finished && !inputs.force) || !stamp.Stops? then Completed else Stopped)
            && (w'.finished <==> now.finished || stamp != Stops(false))
            && w'.urls == now.urls && Done(s, w, w')
  {
    var w' := StampStep(now, inputs, n).0;
    assert inputs.script(n)(Wrap) == Works;
    forall repo ensures GetsTheFirst(s, w, w', repo) {
      assert GetsTheFirst(s, w, now, repo);
      assert NewlyRecorded(s, w, w', repo) <==> NewlyRecorded(s, w, now, repo);
    }
  }

  /** When the texts after the loop cannot be written, the task is not stamped. */
  lemma UnwrappedRun(s: Setting, w: World, inputs: Inputs)
    requires Consistent(s, w) && forall i :: inputs.script(i)(Wrap).Stops?
    ensures FinishRun(s, w, inputs).1 != Completed && FinishRun(s, w, inputs).0.finished == w.finished
  {
    if Begins(s, w, inputs) {
      var groups := GroupsOf(s.rootOf, s.repos, inputs.bases);
      GroupsAreWhole(s, inputs.bases);
      GroupStepsKeep(s, w, groups, UntouchedRepos(s, w, inputs), inputs, |groups|);
    }
  }
}
