/** What any number of interrupted and repeated runs of `finish` leave behind. */
module FinishTheorems {
  import opened Basics
  import opened RepoGraph
  import opened PrGroups
  import opened FinishRuns

  /** Repositories with one root have one record or none, and a record names a pull request of their remote. */
  ghost predicate Consistent(s: Setting, w: World) {
    && (forall m | m in s.repos && m in w.urls :: IsPr(s, w, m))
    && (forall m, n | m in s.repos && n in s.repos && s.rootOf(m) == s.rootOf(n) && m in w.urls :: SameRecord(w, m, n))
  }

  predicate IsPr(s: Setting, w: World, m: string)
    requires m in w.urls
  {
    w.urls[m].repo == s.remote(s.rootOf(m)) && w.urls[m].number < Count(w, w.urls[m].repo)
  }

  predicate SameRecord(w: World, m: string, n: string)
    requires m in w.urls
  {
    n in w.urls && w.urls[n] == w.urls[m]
  }

  /** A group of all repositories with one root. */
  ghost predicate Whole(s: Setting, g: PRGroup) {
    g.rep in g.members && forall n :: n in g.members <==> n in s.repos && s.rootOf(n) == s.rootOf(g.rep)
  }

  /** Skipped as a whole, or recorded with one pull request. */
  ghost predicate Settled(w: World, g: PRGroup, untouched: set<string>) {
    Skipped(w, g, untouched) || exists pr :: AllHave(w, g, pr)
  }

  predicate AllHave(w: World, g: PRGroup, pr: Pr) {
    forall m | m in g.members :: m in w.urls && w.urls[m] == pr
  }

  /** Records stay as they are, and only repositories of the group get new ones. */
  ghost predicate Extends(w: World, w': World, members: seq<string>) {
    && (forall m | m in w.urls :: m in w'.urls && w'.urls[m] == w.urls[m])
    && (forall m | m in w'.urls && m !in members :: m in w.urls)
    && (forall repo :: Count(w, repo) <= Count(w', repo)) && w'.finished == w.finished
  }

  ghost predicate Truthful(inputs: Inputs) {
    forall i :: inputs.script(i)(Lookup) != Misses
  }

  /** No pull request where there was one, at most one where there was none. */
  ghost predicate NoSecondPr(w: World, w': World) {
    forall repo :: Count(w', repo) == Count(w, repo) || (Count(w, repo) == 0 && Count(w', repo) == 1)
  }

  /** A repository got a pull request beside another one. */
  predicate SecondPr(w: World, w': World, repo: string) {
    Count(w', repo) > Count(w, repo) && Count(w', repo) > 1
  }

  // ---------------------------------------------------------------- one group

  lemma CreatedIsNew(s: Setting, w: World, repo: string, base: string)
    requires Consistent(s, w)
    ensures Consistent(s, Created(w, repo, base)) && Extends(w, Created(w, repo, base), [])
    ensures forall r :: Count(Created(w, repo, base), r) == Count(w, r) + if r == repo then 1 else 0
  {
    var w' := Created(w, repo, base);
    assert forall r :: Count(w', r) == Count(w, r) + if r == repo then 1 else 0;
  }

  lemma RecordedIsConsistent(s: Setting, w: World, g: PRGroup, pr: Pr)
    requires Consistent(s, w) && Whole(s, g) && (forall m | m in g.members :: m !in w.urls)
    requires pr.repo == RepoOf(s, g) && pr.number < Count(w, pr.repo)
    ensures var w' := Recorded(w, g.members, pr);
            Consistent(s, w') && Extends(w, w', g.members) && AllRecorded(w', g)
    ensures AllHave(Recorded(w, g.members, pr), g, pr)
  {
    var w' := Recorded(w, g.members, pr);
    forall r ensures Count(w', r) == Count(w, r) { }
    forall m, n | m in s.repos && n in s.repos && s.rootOf(m) == s.rootOf(n) && m in w'.urls
      ensures SameRecord(w', m, n)
    {
      if m !in g.members { assert SameRecord(w, m, n); }
    }
    forall m | m in s.repos && m in w'.urls ensures IsPr(s, w', m) {
      if m !in g.members { assert IsPr(s, w, m); }
    }
  }

  lemma NoneRecorded(s: Setting, w: World, g: PRGroup)
    requires Consistent(s, w) && Whole(s, g) && !AllRecorded(w, g)
    ensures forall m | m in g.members :: m !in w.urls
  {
    var n :| n in g.members && n !in w.urls;
    forall m | m in g.members ensures m !in w.urls {
      assert m in w.urls ==> SameRecord(w, m, n);
    }
  }

  /** A step keeps everything consistent, and takes the run on only when the group is settled. */
  ghost predicate StepKeeps(s: Setting, w: World, g: PRGroup, untouched: set<string>, step: Step) {
    && Consistent(s, step.world) && Extends(w, step.world, g.members)
    && (step.go ==> Settled(step.world, g, untouched))
  }

  lemma RecordStepKeeps(s: Setting, w: World, g: PRGroup, pr: Pr, turn: Turn, untouched: set<string>)
    requires Consistent(s, w) && Whole(s, g) && (forall m | m in g.members :: m !in w.urls)
    requires pr.repo == RepoOf(s, g) && pr.number < Count(w, pr.repo)
    ensures StepKeeps(s, w, g, untouched, RecordStep(w, g, pr, turn))
  {
    RecordedIsConsistent(s, w, g, pr);
  }

  lemma CreateStepKeeps(s: Setting, w: World, g: PRGroup, calls: Call -> Turn, untouched: set<string>)
    requires Consistent(s, w) && Whole(s, g) && (forall m | m in g.members :: m !in w.urls)
    ensures StepKeeps(s, w, g, untouched, CreateStep(s, w, g, calls))
  {
    var repo, w' := RepoOf(s, g), Created(w, RepoOf(s, g), TargetOf(s, g));
    CreatedIsNew(s, w, repo, TargetOf(s, g));
    if calls(Create).Stops? {
    } else if OpenFor(w, repo, TargetOf(s, g)) {
      RecordStepKeeps(s, w, g, Newest(w, repo).value, calls(RecordUrls), untouched);
    } else {
      RecordStepKeeps(s, w', g, Pr(repo, Count(w, repo)), calls(RecordUrls), untouched);
      ExtendsTwice(w, w', RecordStep(w', g, Pr(repo, Count(w, repo)), calls(RecordUrls)).world, g.members);
    }
  }

  lemma ExtendsTwice(w: World, w': World, w'': World, members: seq<string>)
    requires Extends(w, w', []) && Extends(w', w'', members)
    ensures Extends(w, w'', members)
  {
  }

  lemma FindOrCreateKeeps(s: Setting, w: World, g: PRGroup, untouched: set<string>, calls: Call -> Turn)
    requires Consistent(s, w) && Whole(s, g) && (forall m | m in g.members :: m !in w.urls)
    ensures StepKeeps(s, w, g, untouched, FindOrCreate(s, w, g, calls))
  {
    var repo := RepoOf(s, g);
    CreateStepKeeps(s, w, g, calls, untouched);
    if Newest(w, repo).Some? { RecordStepKeeps(s, w, g, Newest(w, repo).value, calls(RecordUrls), untouched); }
  }

  lemma RecordedIsSettled(s: Setting, w: World, g: PRGroup)
    requires Consistent(s, w) && Whole(s, g) && AllRecorded(w, g)
    ensures AllHave(w, g, w.urls[g.rep])
  {
    forall m | m in g.members ensures m in w.urls && w.urls[m] == w.urls[g.rep] {
      assert SameRecord(w, g.rep, m);
    }
  }

  /** The step opens a pull request. */
  predicate Opens(s: Setting, w: World, g: PRGroup, untouched: set<string>, calls: Call -> Turn) {
    && !Skipped(w, g, untouched) && !AllRecorded(w, g) && !calls(Push).Stops? && !calls(Lookup).Stops?
    && (Count(w, RepoOf(s, g)) == 0 || calls(Lookup) == Misses)
    && !OpenFor(w, RepoOf(s, g), TargetOf(s, g)) && calls(Create) != Stops(false)
  }

  /** A step opens the pull request of its group, or leaves all pull requests as they are. */
  lemma GroupStepOpens(s: Setting, w: World, g: PRGroup, untouched: set<string>, force: bool, calls: Call -> Turn)
    ensures GroupStep(s, w, g, untouched, force, calls).world.prs
         == if Opens(s, w, g, untouched, calls) then Created(w, RepoOf(s, g), TargetOf(s, g)).prs else w.prs
  {
  }

  lemma CreatedCounts(w: World, w': World, repo: string, base: string)
    requires w'.prs == Created(w, repo, base).prs
    ensures forall r :: Count(w', r) == Count(w, r) + if r == repo then 1 else 0
  {
  }

  lemma SamePrsCount(w: World, w': World)
    requires w'.prs == w.prs
    ensures forall r :: Count(w', r) == Count(w, r)
  {
  }

  lemma GroupStepCounts(s: Setting, w: World, g: PRGroup, untouched: set<string>, force: bool, calls: Call -> Turn)
    ensures var w' := GroupStep(s, w, g, untouched, force, calls).world;
            forall r ::
              Count(w', r) == Count(w, r) + if r == RepoOf(s, g) && Opens(s, w, g, untouched, calls) then 1 else 0
  {
    GroupStepOpens(s, w, g, untouched, force, calls);
    var w' := GroupStep(s, w, g, untouched, force, calls).world;
    if Opens(s, w, g, untouched, calls) {
      CreatedCounts(w, w', RepoOf(s, g), TargetOf(s, g));
    } else {
      SamePrsCount(w, w');
    }
  }

  lemma GroupStepKeeps(s: Setting, w: World, g: PRGroup, untouched: set<string>, force: bool, calls: Call -> Turn)
    requires Consistent(s, w) && Whole(s, g)
    ensures var step := GroupStep(s, w, g, untouched, force, calls);
            StepKeeps(s, w, g, untouched, step) && (calls(Lookup) != Misses ==> NoSecondPr(w, step.world))
  {
    GroupStepCounts(s, w, g, untouched, force, calls);
    if AllRecorded(w, g) {
      RecordedIsSettled(s, w, g);
    } else if !Skipped(w, g, untouched) {
      NoneRecorded(s, w, g);
      FindOrCreateKeeps(s, w, g, untouched, calls);
    }
  }

  /**
   The way to one more pull request: the group is neither skipped nor recorded, the push goes through, the
   lookup fails and so reads like one that found nothing, and no pull request is open for the branch and the
   base, so that GitHub accepts the creation.
   */
  predicate OpensAnother(s: Setting, w: World, g: PRGroup, untouched: set<string>, calls: Call -> Turn) {
    && Count(w, RepoOf(s, g)) > 0 && !Skipped(w, g, untouched) && !AllRecorded(w, g)
    && !calls(Push).Stops? && calls(Lookup) == Misses
    && !OpenFor(w, RepoOf(s, g), TargetOf(s, g)) && calls(Create) != Stops(false)
  }

  /** A repository that has a pull request gets another one exactly in this way. */
  lemma SecondPrOfAGroup(s: Setting, w: World, g: PRGroup, untouched: set<string>, force: bool, calls: Call -> Turn,
                         repo: string)
    ensures SecondPr(w, GroupStep(s, w, g, untouched, force, calls).world, repo)
       <==> repo == RepoOf(s, g) && OpensAnother(s, w, g, untouched, calls)
    ensures Count(w, repo) > 0 ==>
              (Count(GroupStep(s, w, g, untouched, force, calls).world, repo) > Count(w, repo)
               <==> repo == RepoOf(s, g) && OpensAnother(s, w, g, untouched, calls))
  {
    GroupStepCounts(s, w, g, untouched, force, calls);
  }

  /** After an interruption between creation and record, the next run finds that pull request and records it. */
  lemma RetryFindsThePr(s: Setting, w: World, g: PRGroup, untouched: set<string>, force: bool, calls: Call -> Turn)
    requires Consistent(s, w) && Whole(s, g) && !AllRecorded(w, g) && !Skipped(w, g, untouched)
    requires Count(w, RepoOf(s, g)) > 0 && calls(Lookup) != Misses
    requires GroupStep(s, w, g, untouched, force, calls).go
    ensures var w' := GroupStep(s, w, g, untouched, force, calls).world;
            w'.prs == w.prs && AllHave(w', g, Newest(w, RepoOf(s, g)).value)
  {
    NoneRecorded(s, w, g);
    RecordedIsConsistent(s, w, g, Newest(w, RepoOf(s, g)).value);
  }

  // ---------------------------------------------------------------- one run

  ghost predicate WholeGroups(s: Setting, groups: seq<PRGroup>) {
    && (forall i | 0 <= i < |groups| :: Whole(s, groups[i]))
    && (forall i, j, m | 0 <= i < j < |groups| && m in groups[i].members :: m !in groups[j].members)
  }

  lemma GroupsAreWhole(s: Setting, bases: map<string, Base>)
    requires Groupable(s.rootOf, s.repos, bases)
    ensures WholeGroups(s, GroupsOf(s.rootOf, s.repos, bases))
    ensures var groups := GroupsOf(s.rootOf, s.repos, bases);
            forall n | n in s.repos :: exists i :: 0 <= i < |groups| && n in groups[i].members
  {
    var groups := GroupsOf(s.rootOf, s.repos, bases);
    GroupsPartition(s.rootOf, s.repos, bases);
    forall i | 0 <= i < |groups| ensures Whole(s, groups[i]) {
      GroupIsWhole(s, bases, i);
    }
  }

  lemma GroupIsWhole(s: Setting, bases: map<string, Base>, i: nat)
    requires i < |GroupsOf(s.rootOf, s.repos, bases)|
             && Coherent(s.rootOf, s.repos, bases, GroupsOf(s.rootOf, s.repos, bases)[i])
    ensures Whole(s, GroupsOf(s.rootOf, s.repos, bases)[i])
  {
    MembersAre(s.rootOf, s.repos, RootsOf(s.rootOf, s.repos)[i]);
  }

  lemma SettledStays(w: World, w': World, g: PRGroup, other: PRGroup, untouched: set<string>)
    requires Settled(w, g, untouched) && Extends(w, w', other.members)
             && forall m | m in g.members :: m !in other.members
    ensures Settled(w', g, untouched)
  {
    if !Skipped(w, g, untouched) {
      var pr :| AllHave(w, g, pr);
      assert AllHave(w', g, pr);
    }
  }

  /** Everything that the first `n` groups keep. */
  ghost predicate StepsKeep(s: Setting, w: World, groups: seq<PRGroup>, untouched: set<string>, n: nat, step: Step)
    requires n <= |groups|
  {
    && Consistent(s, step.world) && Extends(w, step.world, s.repos)
    && (step.go ==> forall i | 0 <= i < n :: Settled(step.world, groups[i], untouched))
  }

  lemma ExtendsFurther(w: World, w': World, w'': World, repos: seq<string>, members: seq<string>)
    requires Extends(w, w', repos) && Extends(w', w'', members) && forall m | m in members :: m in repos
    ensures Extends(w, w'', repos)
  {
  }

  lemma NextStepKeeps(s: Setting, w: World, groups: seq<PRGroup>, untouched: set<string>, n: nat, before: Step,
                      step: Step)
    requires WholeGroups(s, groups) && n < |groups| && StepsKeep(s, w, groups, untouched, n, before) && before.go
    requires StepKeeps(s, before.world, groups[n], untouched, step)
    ensures StepsKeep(s, w, groups, untouched, n + 1, step)
  {
    ExtendsFurther(w, before.world, step.world, s.repos, groups[n].members);
    forall i | 0 <= i < n ensures Settled(step.world, groups[i], untouched) {
      SettledStays(before.world, step.world, groups[i], groups[n], untouched);
    }
  }

  lemma {:induction false} GroupStepsKeep(s: Setting, w: World, groups: seq<PRGroup>, untouched: set<string>,
                                          inputs: Inputs, n: nat)
    requires Consistent(s, w) && WholeGroups(s, groups) && n <= |groups|
    ensures StepsKeep(s, w, groups, untouched, n, GroupSteps(s, w, groups, untouched, inputs, n))
  {
    if n > 0 {
      GroupStepsKeep(s, w, groups, untouched, inputs, n - 1);
      var before := GroupSteps(s, w, groups, untouched, inputs, n - 1);
      if before.go {
        var step := GroupStep(s, before.world, groups[n - 1], untouched, inputs.force, inputs.script(n - 1));
        GroupStepKeeps(s, before.world, groups[n - 1], untouched, inputs.force, inputs.script(n - 1));
        NextStepKeeps(s, w, groups, untouched, n - 1, before, step);
      }
    }
  }

  /** Every group is settled, on the grounds of this run. */
  ghost predicate AllSettled(s: Setting, w: World, w': World, inputs: Inputs) {
    Groupable(s.rootOf, s.repos, inputs.bases)
    && forall g | g in GroupsOf(s.rootOf, s.repos, inputs.bases) :: Settled(w', g, UntouchedRepos(s, w, inputs))
  }

  ghost predicate RunKeeps(s: Setting, w: World, w': World, exit: Exit, inputs: Inputs) {
    && Consistent(s, w') && Extends(w, w'.(finished := w.finished), s.repos)
    && (exit == Completed || w'.finished != w.finished ==> AllSettled(s, w, w', inputs) && !NothingToDo(s, w, inputs))
    && (exit == Completed ==> w'.finished) && (w.finished ==> w'.finished)
  }

  lemma StampOnly(s: Setting, w: World, finished: bool)
    requires Consistent(s, w)
    ensures Consistent(s, w.(finished := finished))
  {
    var w' := w.(finished := finished);
    forall m | m in s.repos && m in w'.urls ensures IsPr(s, w', m) { assert IsPr(s, w, m); }
    forall m, n | m in s.repos && n in s.repos && s.rootOf(m) == s.rootOf(n) && m in w'.urls
      ensures SameRecord(w', m, n)
    {
      assert SameRecord(w, m, n);
    }
  }

  lemma SettledAnyway(w: World, g: PRGroup, untouched: set<string>, finished: bool)
    requires Settled(w, g, untouched)
    ensures Settled(w.(finished := finished), g, untouched)
  {
    if !Skipped(w, g, untouched) {
      var pr :| AllHave(w, g, pr);
      assert AllHave(w.(finished := finished), g, pr);
    }
  }

  lemma StampStepKeeps(s: Setting, w: World, inputs: Inputs, n: nat)
    requires Consistent(s, w)
    ensures var (w', exit) := StampStep(w, inputs, n);
            && w' == w.(finished := w'.finished) && Consistent(s, w') && (w.finished ==> w'.finished)
            && (exit == Completed ==> w'.finished) && exit != Refused
  {
    StampOnly(s, w, true);
  }

  lemma AllSettledAnyway(s: Setting, w: World, now: World, inputs: Inputs, finished: bool)
    requires Groupable(s.rootOf, s.repos, inputs.bases)
    requires var groups := GroupsOf(s.rootOf, s.repos, inputs.bases);
             forall i | 0 <= i < |groups| :: Settled(now, groups[i], UntouchedRepos(s, w, inputs))
    ensures AllSettled(s, w, now.(finished := finished), inputs)
  {
    forall g | g in GroupsOf(s.rootOf, s.repos, inputs.bases)
      ensures Settled(now.(finished := finished), g, UntouchedRepos(s, w, inputs))
    {
      SettledAnyway(now, g, UntouchedRepos(s, w, inputs), finished);
    }
  }

  lemma LoopSettlesOrStops(s: Setting, w: World, inputs: Inputs)
    requires Consistent(s, w) && Groupable(s.rootOf, s.repos, inputs.bases) && !NothingToDo(s, w, inputs)
    ensures var groups := GroupsOf(s.rootOf, s.repos, inputs.bases);
            var step := GroupSteps(s, w, groups, UntouchedRepos(s, w, inputs), inputs, |groups|);
            var (w', exit) := if step.go then StampStep(step.world, inputs, |groups|) else (step.world, Stopped);
            RunKeeps(s, w, w', exit, inputs)
  {
    var groups, untouched := GroupsOf(s.rootOf, s.repos, inputs.bases), UntouchedRepos(s, w, inputs);
    GroupsAreWhole(s, inputs.bases);
    GroupStepsKeep(s, w, groups, untouched, inputs, |groups|);
    var step := GroupSteps(s, w, groups, untouched, inputs, |groups|);
    if step.go {
      StampStepKeeps(s, step.world, inputs, |groups|);
      AllSettledAnyway(s, w, step.world, inputs, StampStep(step.world, inputs, |groups|).0.finished);
    }
  }

  /**
   A run keeps all records, and the task is stamped or the run completes only when every group is settled:
   skipped as a whole because nothing was committed, or recorded with one pull request for all its members.
   */
  lemma RunSettlesOrStops(s: Setting, w: World, inputs: Inputs)
    requires Consistent(s, w)
    ensures var (w', exit) := FinishRun(s, w, inputs);
            RunKeeps(s, w, w', exit, inputs) && (Truthful(inputs) ==> NoSecondPr(w, w'))
  {
    if Truthful(inputs) { TruthfulRunsAddNone(s, w, inputs); }
    if !NothingToDo(s, w, inputs) && Groupable(s.rootOf, s.repos, inputs.bases) {
      LoopSettlesOrStops(s, w, inputs);
    }
  }

  lemma TouchedIsRecorded(s: Setting, w: World, w': World, inputs: Inputs, n: string)
    requires AllSettled(s, w, w', inputs) && n in s.repos && n !in UntouchedRepos(s, w, inputs)
    ensures n in w'.urls
  {
    GroupsAreWhole(s, inputs.bases);
    var groups := GroupsOf(s.rootOf, s.repos, inputs.bases);
    var i :| 0 <= i < |groups| && n in groups[i].members;
    assert Settled(w', groups[i], UntouchedRepos(s, w, inputs)) by { assert groups[i] in groups; }
    assert !Skipped(w', groups[i], UntouchedRepos(s, w, inputs));
  }

  /** A run that completes leaves a pull request recorded, now or from before. */
  lemma CompletionHasAPr(s: Setting, w: World, inputs: Inputs)
    requires Consistent(s, w) && s.repos != [] && FinishRun(s, w, inputs).1 == Completed
    ensures FinishRun(s, w, inputs).0.urls != map[]
  {
    var w' := FinishRun(s, w, inputs).0;
    RunSettlesOrStops(s, w, inputs);
    if w.urls == map[] {
      var n :| n in s.repos && n !in UntouchedRepos(s, w, inputs);
      TouchedIsRecorded(s, w, w', inputs, n);
    } else {
      var m :| m in w.urls;
      assert m in w'.urls;
    }
  }

  // ---------------------------------------------------------------- the second pull request of a run

  /** The checks before the loop have nothing against the run. */
  predicate Begins(s: Setting, w: World, inputs: Inputs) {
    !BaseMissing(s, w, inputs) && !NothingToDo(s, w, inputs) && Groupable(s.rootOf, s.repos, inputs.bases)
  }

  /** Group `i` is reached and opens one more pull request for a repository, as the groups before have left it. */
  predicate AnotherAt(s: Setting, w: World, groups: seq<PRGroup>, untouched: set<string>, inputs: Inputs, i: nat,
                      repo: string)
    requires i < |groups|
  {
    var before := GroupSteps(s, w, groups, untouched, inputs, i);
    before.go && repo == RepoOf(s, groups[i]) && OpensAnother(s, before.world, groups[i], untouched, inputs.script(i))
  }

  /** From `counts[k]` to the next one, another pull request comes beside one. */
  predicate Gains(counts: seq<nat>, k: nat)
    requires k + 1 < |counts|
  {
    counts[k + 1] > counts[k] && counts[k + 1] > 1
  }

  predicate Keeps(counts: seq<nat>, k: nat)
    requires k + 1 < |counts|
  {
    counts[k] <= counts[k + 1]
  }

  /** Counts that never go down end above one and above the first exactly if they do so in some step. */
  lemma {:induction false} GainsSomewhere(counts: seq<nat>)
    requires counts != [] && forall k | 0 <= k < |counts| - 1 :: Keeps(counts, k)
    ensures counts[0] <= counts[|counts| - 1]
    ensures counts[|counts| - 1] > counts[0] && counts[|counts| - 1] > 1
            <==> exists k | 0 <= k < |counts| - 1 :: Gains(counts, k)
    decreases |counts|
  {
    var n := |counts| - 1;
    if n > 0 {
      var front := counts[..n];
      forall k | 0 <= k < n - 1
        ensures Keeps(front, k) && Gains(front, k) == Gains(counts, k)
      {
        assert Keeps(counts, k);
      }
      GainsSomewhere(front);
      assert Keeps(counts, n - 1);
      assert counts[n] > counts[n - 1] && counts[n] > 1 <==> Gains(counts, n - 1);
    }
  }

  lemma SecondPrAt(s: Setting, w: World, groups: seq<PRGroup>, untouched: set<string>, inputs: Inputs, i: nat,
                   repo: string)
    requires i < |groups|
    ensures var before := GroupSteps(s, w, groups, untouched, inputs, i).world;
            var after := GroupSteps(s, w, groups, untouched, inputs, i + 1).world;
            && Count(before, repo) <= Count(after, repo)
            && (SecondPr(before, after, repo) <==> AnotherAt(s, w, groups, untouched, inputs, i, repo))
  {
    var before := GroupSteps(s, w, groups, untouched, inputs, i);
    GroupStepCounts(s, before.world, groups[i], untouched, inputs.force, inputs.script(i));
    SecondPrOfAGroup(s, before.world, groups[i], untouched, inputs.force, inputs.script(i), repo);
  }

  predicate GroupCount(s: Setting, w: World, groups: seq<PRGroup>, untouched: set<string>, inputs: Inputs, i: nat,
                       repo: string, count: nat)
    requires i <= |groups|
  {
    count == Count(GroupSteps(s, w, groups, untouched, inputs, i).world, repo)
  }

  /** How many pull requests the repository has after each of the first `n` groups. */
  lemma {:induction false} GroupCounts(s: Setting, w: World, groups: seq<PRGroup>, untouched: set<string>,
                                       inputs: Inputs, n: nat, repo: string) returns (counts: seq<nat>)
    requires n <= |groups|
    ensures |counts| == n + 1
            && forall i | 0 <= i <= n :: GroupCount(s, w, groups, untouched, inputs, i, repo, counts[i])
  {
    counts := [Count(GroupSteps(s, w, groups, untouched, inputs, n).world, repo)];
    if n > 0 {
      var front := GroupCounts(s, w, groups, untouched, inputs, n - 1, repo);
      counts := front + counts;
    }
  }

  lemma GroupGains(s: Setting, w: World, groups: seq<PRGroup>, untouched: set<string>, inputs: Inputs, i: nat,
                   repo: string, counts: seq<nat>)
    requires i < |groups| == |counts| - 1
    requires GroupCount(s, w, groups, untouched, inputs, i, repo, counts[i])
    requires GroupCount(s, w, groups, untouched, inputs, i + 1, repo, counts[i + 1])
    ensures Keeps(counts, i) && (Gains(counts, i) <==> AnotherAt(s, w, groups, untouched, inputs, i, repo))
  {
    SecondPrAt(s, w, groups, untouched, inputs, i, repo);
  }

  lemma GroupCauses(s: Setting, w: World, groups: seq<PRGroup>, untouched: set<string>, inputs: Inputs, repo: string)
    returns (counts: seq<nat>)
    ensures |counts| == |groups| + 1 && counts[0] == Count(w, repo)
    ensures counts[|groups|] == Count(GroupSteps(s, w, groups, untouched, inputs, |groups|).world, repo)
    ensures forall i | 0 <= i < |groups| :: Keeps(counts, i)
    ensures forall i | 0 <= i < |groups| :: Gains(counts, i) <==> AnotherAt(s, w, groups, untouched, inputs, i, repo)
  {
    var n := |groups|;
    counts := GroupCounts(s, w, groups, untouched, inputs, n, repo);
    assert GroupCount(s, w, groups, untouched, inputs, 0, repo, counts[0]);
    assert GroupCount(s, w, groups, untouched, inputs, n, repo, counts[n]);
    forall i | 0 <= i < n
      ensures Keeps(counts, i) && (Gains(counts, i) <==> AnotherAt(s, w, groups, untouched, inputs, i, repo))
    {
      GroupGains(s, w, groups, untouched, inputs, i, repo, counts);
    }
  }

  lemma SecondPrOfTheGroups(s: Setting, w: World, groups: seq<PRGroup>, untouched: set<string>, inputs: Inputs,
                            repo: string)
    ensures var w' := GroupSteps(s, w, groups, untouched, inputs, |groups|).world;
            && Count(w, repo) <= Count(w', repo)
            && (SecondPr(w, w', repo) <==>
                  exists i | 0 <= i < |groups| :: AnotherAt(s, w, groups, untouched, inputs, i, repo))
  {
    var counts := GroupCauses(s, w, groups, untouched, inputs, repo);
    GainsSomewhere(counts);
  }

  /** One more pull request for the repository, somewhere in a run. */
  predicate AnotherInRun(s: Setting, w: World, inputs: Inputs, repo: string) {
    Begins(s, w, inputs) &&
    var groups := GroupsOf(s.rootOf, s.repos, inputs.bases);
    exists i | 0 <= i < |groups| :: AnotherAt(s, w, groups, UntouchedRepos(s, w, inputs), inputs, i, repo)
  }

  lemma RunPrs(s: Setting, w: World, inputs: Inputs)
    requires Begins(s, w, inputs)
    ensures var groups := GroupsOf(s.rootOf, s.repos, inputs.bases);
            FinishRun(s, w, inputs).0.prs ==
            GroupSteps(s, w, groups, UntouchedRepos(s, w, inputs), inputs, |groups|).world.prs
  {
  }

  /**
   A run gives a repository a second pull request exactly when it reaches a group of that repository whose
   lookup fails while no pull request is open for its branch and base, and whose creation goes through.
   */
  lemma SecondPrOfARun(s: Setting, w: World, inputs: Inputs, repo: string)
    ensures Count(w, repo) <= Count(FinishRun(s, w, inputs).0, repo)
    ensures SecondPr(w, FinishRun(s, w, inputs).0, repo) <==> AnotherInRun(s, w, inputs, repo)
  {
    if Begins(s, w, inputs) {
      var groups, untouched := GroupsOf(s.rootOf, s.repos, inputs.bases), UntouchedRepos(s, w, inputs);
      RunPrs(s, w, inputs);
      SamePrsCount(GroupSteps(s, w, groups, untouched, inputs, |groups|).world, FinishRun(s, w, inputs).0);
      SecondPrOfTheGroups(s, w, groups, untouched, inputs, repo);
    }
  }

  lemma TruthfulRunsAddNone(s: Setting, w: World, inputs: Inputs)
    requires Truthful(inputs)
    ensures NoSecondPr(w, FinishRun(s, w, inputs).0)
  {
    forall repo
      ensures !SecondPr(w, FinishRun(s, w, inputs).0, repo) && Count(w, repo) <= Count(FinishRun(s, w, inputs).0, repo)
    {
      SecondPrOfARun(s, w, inputs, repo);
    }
  }

  // ---------------------------------------------------------------- all runs

  lemma UnstartedIsConsistent(s: Setting, w: World)
    requires Unstarted(w)
    ensures Consistent(s, w)
  {
  }

  ghost predicate AllTruthful(hs: seq<Happening>) {
    forall h | h in hs && h.Finish? :: Truthful(h.inputs)
  }

  lemma ChangedCounts(w: World, repo: string, number: nat, now: PullRequest)
    ensures forall r :: Count(Changed(w, repo, number, now), r) == Count(w, r)
  {
  }

  lemma ChangedIsConsistent(s: Setting, w: World, repo: string, number: nat, now: PullRequest)
    requires Consistent(s, w)
    ensures Consistent(s, Changed(w, repo, number, now)) && Extends(w, Changed(w, repo, number, now), [])
  {
    ChangedCounts(w, repo, number, now);
    var w' := Changed(w, repo, number, now);
    forall m | m in s.repos && m in w'.urls ensures IsPr(s, w', m) { assert IsPr(s, w, m); }
    forall m, n | m in s.repos && n in s.repos && s.rootOf(m) == s.rootOf(n) && m in w'.urls
      ensures SameRecord(w', m, n)
    {
      assert SameRecord(w, m, n);
    }
  }

  lemma HappenKeeps(s: Setting, w: World, h: Happening)
    requires Consistent(s, w)
    ensures var w' := Happen(s, w, h);
            Consistent(s, w') && Extends(w, w'.(finished := w.finished), s.repos) && (w.finished ==> w'.finished)
  {
    match h
    case Finish(inputs) => RunSettlesOrStops(s, w, inputs);
    case Outside(repo, number, now) => ChangedIsConsistent(s, w, repo, number, now);
  }

  lemma {:induction false} RunsAreConsistent(s: Setting, w: World, hs: seq<Happening>, n: nat)
    requires Unstarted(w) && n <= |hs|
    ensures Consistent(s, Runs(s, w, hs, n))
  {
    if n == 0 {
      UnstartedIsConsistent(s, w);
    } else {
      RunsAreConsistent(s, w, hs, n - 1);
      HappenKeeps(s, Runs(s, w, hs, n - 1), hs[n - 1]);
    }
  }

  /**
   However often a task is finished, wherever the runs are interrupted and whatever others do to its pull
   requests: records are consistent, and if every lookup tells the truth, a remote repository gets at most
   one pull request, and none where it had one.
   */
  lemma AtMostOnePr(s: Setting, w: World, hs: seq<Happening>)
    requires Unstarted(w)
    ensures Consistent(s, Runs(s, w, hs, |hs|))
    ensures AllTruthful(hs) ==> NoSecondPr(w, Runs(s, w, hs, |hs|))
  {
    RunsAreConsistent(s, w, hs, |hs|);
    if AllTruthful(hs) {
      forall repo
        ensures !SecondPr(w, Runs(s, w, hs, |hs|), repo) && Count(w, repo) <= Count(Runs(s, w, hs, |hs|), repo)
      {
        forall k | 0 <= k < |hs| ensures !AnotherIn(s, w, hs, k, repo) {
          assert hs[k] in hs;
          if hs[k].Finish? { NoMissNoSecond(s, Runs(s, w, hs, k), hs[k].inputs, repo); }
        }
        SecondPrExactly(s, w, hs, repo);
      }
    }
  }

  lemma NoMissNoSecond(s: Setting, w: World, inputs: Inputs, repo: string)
    requires Truthful(inputs)
    ensures !AnotherInRun(s, w, inputs, repo)
  {
  }

  /** One more pull request for the repository in the run at position `k`. */
  predicate AnotherIn(s: Setting, w: World, hs: seq<Happening>, k: nat, repo: string)
    requires k < |hs|
  {
    hs[k].Finish? && AnotherInRun(s, Runs(s, w, hs, k), hs[k].inputs, repo)
  }

  lemma SecondPrOfAHappening(s: Setting, w: World, h: Happening, repo: string)
    ensures Count(w, repo) <= Count(Happen(s, w, h), repo)
    ensures SecondPr(w, Happen(s, w, h), repo) <==> h.Finish? && AnotherInRun(s, w, h.inputs, repo)
  {
    match h
    case Finish(inputs) => SecondPrOfARun(s, w, inputs, repo);
    case Outside(r, number, now) => ChangedCounts(w, r, number, now);
  }

  lemma SecondPrOfOne(s: Setting, w: World, hs: seq<Happening>, k: nat, repo: string)
    requires k < |hs|
    ensures Count(Runs(s, w, hs, k), repo) <= Count(Runs(s, w, hs, k + 1), repo)
    ensures SecondPr(Runs(s, w, hs, k), Runs(s, w, hs, k + 1), repo) <==> AnotherIn(s, w, hs, k, repo)
  {
    SecondPrOfAHappening(s, Runs(s, w, hs, k), hs[k], repo);
  }

  predicate RunCount(s: Setting, w: World, hs: seq<Happening>, k: nat, repo: string, count: nat)
    requires k <= |hs|
  {
    count == Count(Runs(s, w, hs, k), repo)
  }

  /** How many pull requests the repository has after each of the first `n` happenings. */
  lemma {:induction false} RunCounts(s: Setting, w: World, hs: seq<Happening>, n: nat, repo: string)
    returns (counts: seq<nat>)
    requires n <= |hs|
    ensures |counts| == n + 1 && forall k | 0 <= k <= n :: RunCount(s, w, hs, k, repo, counts[k])
  {
    counts := [Count(Runs(s, w, hs, n), repo)];
    if n > 0 {
      var front := RunCounts(s, w, hs, n - 1, repo);
      counts := front + counts;
    }
  }

  lemma RunGains(s: Setting, w: World, hs: seq<Happening>, k: nat, repo: string, counts: seq<nat>)
    requires k < |hs| == |counts| - 1
    requires RunCount(s, w, hs, k, repo, counts[k]) && RunCount(s, w, hs, k + 1, repo, counts[k + 1])
    ensures Keeps(counts, k) && (Gains(counts, k) <==> AnotherIn(s, w, hs, k, repo))
  {
    SecondPrOfOne(s, w, hs, k, repo);
  }

  lemma RunCauses(s: Setting, w: World, hs: seq<Happening>, repo: string) returns (counts: seq<nat>)
    ensures |counts| == |hs| + 1 && counts[0] == Count(w, repo) && counts[|hs|] == Count(Runs(s, w, hs, |hs|), repo)
    ensures forall k | 0 <= k < |hs| :: Keeps(counts, k)
    ensures forall k | 0 <= k < |hs| :: Gains(counts, k) <==> AnotherIn(s, w, hs, k, repo)
  {
    counts := RunCounts(s, w, hs, |hs|, repo);
    assert RunCount(s, w, hs, 0, repo, counts[0]) && RunCount(s, w, hs, |hs|, repo, counts[|hs|]);
    forall k | 0 <= k < |hs| ensures Keeps(counts, k) && (Gains(counts, k) <==> AnotherIn(s, w, hs, k, repo)) {
      RunGains(s, w, hs, k, repo, counts);
    }
  }

  /** Any runs, interrupted or not, leave a second pull request exactly when one of them opens another in that way. */
  lemma SecondPrExactly(s: Setting, w: World, hs: seq<Happening>, repo: string)
    ensures Count(w, repo) <= Count(Runs(s, w, hs, |hs|), repo)
    ensures SecondPr(w, Runs(s, w, hs, |hs|), repo) <==> exists k | 0 <= k < |hs| :: AnotherIn(s, w, hs, k, repo)
  {
    var counts := RunCauses(s, w, hs, repo);
    GainsSomewhere(counts);
  }

  /** The branch has at most one open pull request into any base. */
  predicate OneOpenEach(w: World) {
    forall repo | repo in w.prs :: OpenDiffer(w.prs[repo])
  }

  predicate OpenDiffer(prs: seq<PullRequest>) {
    forall i, j | 0 <= i < j < |prs| && prs[i].open && prs[j].open :: prs[i].base != prs[j].base
  }

  lemma {:induction false} StepsKeepOneOpen(s: Setting, w: World, groups: seq<PRGroup>, untouched: set<string>,
                                            inputs: Inputs, n: nat)
    requires OneOpenEach(w) && n <= |groups|
    ensures OneOpenEach(GroupSteps(s, w, groups, untouched, inputs, n).world)
  {
    if n > 0 {
      StepsKeepOneOpen(s, w, groups, untouched, inputs, n - 1);
      var before := GroupSteps(s, w, groups, untouched, inputs, n - 1);
      if before.go {
        GroupStepOpens(s, before.world, groups[n - 1], untouched, inputs.force, inputs.script(n - 1));
        CreatedKeepsOneOpen(before.world, RepoOf(s, groups[n - 1]), TargetOf(s, groups[n - 1]));
      }
    }
  }

  lemma CreatedKeepsOneOpen(w: World, repo: string, base: string)
    requires OneOpenEach(w)
    ensures !OpenFor(w, repo, base) ==> OneOpenEach(Created(w, repo, base))
  {
    assert OpenDiffer(PrsOf(w, repo));
    if !OpenFor(w, repo, base) {
      assert forall p | p in PrsOf(w, repo) && p.open :: p.base != base by {
        forall p | p in PrsOf(w, repo) && p.open ensures p.base != base { assert p == PullRequest(p.base, true); }
      }
      assert OpenDiffer(PrsOf(w, repo) + [PullRequest(base, true)]);
    }
  }

  lemma ChangedKeepsOneOpen(w: World, repo: string, number: nat, now: PullRequest)
    requires OneOpenEach(w)
    ensures OneOpenEach(Changed(w, repo, number, now))
  {
    if number < Count(w, repo) && !(now.open && OpenFor(w, repo, now.base)) {
      assert OpenDiffer(PrsOf(w, repo));
      assert forall p | p in PrsOf(w, repo) && p.open && now.open :: p.base != now.base by {
        forall p | p in PrsOf(w, repo) && p.open && now.open
          ensures p.base != now.base
        {
          assert p == PullRequest(p.base, true);
        }
      }
      assert OpenDiffer(PrsOf(w, repo)[number := now]);
    }
  }

  lemma HappeningKeepsOneOpen(s: Setting, w: World, h: Happening)
    requires OneOpenEach(w)
    ensures OneOpenEach(Happen(s, w, h))
  {
    match h
    case Finish(inputs) =>
      if Begins(s, w, inputs) {
        var groups := GroupsOf(s.rootOf, s.repos, inputs.bases);
        StepsKeepOneOpen(s, w, groups, UntouchedRepos(s, w, inputs), inputs, |groups|);
        RunPrs(s, w, inputs);
      }
    case Outside(repo, number, now) => ChangedKeepsOneOpen(w, repo, number, now);
  }

  lemma {:induction false} RunsKeepOneOpen(s: Setting, w: World, hs: seq<Happening>, n: nat)
    requires OneOpenEach(w) && n <= |hs|
    ensures OneOpenEach(Runs(s, w, hs, n))
  {
    if n > 0 {
      RunsKeepOneOpen(s, w, hs, n - 1);
      HappeningKeepsOneOpen(s, Runs(s, w, hs, n - 1), hs[n - 1]);
    }
  }

  /** Whatever the runs do, a failed lookup included, no two pull requests into one base are ever open at a time. */
  lemma OpenPrsDiffer(s: Setting, w: World, hs: seq<Happening>)
    requires OneOpenEach(w)
    ensures forall n | 0 <= n <= |hs| :: OneOpenEach(Runs(s, w, hs, n))
  {
    forall n | 0 <= n <= |hs| ensures OneOpenEach(Runs(s, w, hs, n)) { RunsKeepOneOpen(s, w, hs, n); }
  }

  lemma {:induction false} StampedUpTo(s: Setting, w: World, hs: seq<Happening>, n: nat) returns (k: nat)
    requires Unstarted(w) && n <= |hs| && Runs(s, w, hs, n).finished
    ensures k < n && hs[k].Finish?
    ensures AllSettled(s, Runs(s, w, hs, k), Runs(s, w, hs, k + 1), hs[k].inputs)
    ensures Extends(Runs(s, w, hs, k + 1), Runs(s, w, hs, n), s.repos)
  {
    var before := Runs(s, w, hs, n - 1);
    RunsAreConsistent(s, w, hs, n - 1);
    HappenKeeps(s, before, hs[n - 1]);
    if before.finished {
      k := StampedUpTo(s, w, hs, n - 1);
      ExtendsFurther(Runs(s, w, hs, k + 1), before, Runs(s, w, hs, n), s.repos, s.repos);
    } else {
      k := n - 1;
      RunSettlesOrStops(s, before, hs[k].inputs);
    }
  }

  /**
   A stamped task was settled: there was a run that found it unstamped and after which every group was
   settled, and no record has changed since.
   */
  lemma StampedWasSettled(s: Setting, w: World, hs: seq<Happening>) returns (k: nat)
    requires Unstarted(w) && Runs(s, w, hs, |hs|).finished
    ensures k < |hs| && hs[k].Finish?
    ensures AllSettled(s, Runs(s, w, hs, k), Runs(s, w, hs, k + 1), hs[k].inputs)
    ensures Extends(Runs(s, w, hs, k + 1), Runs(s, w, hs, |hs|), s.repos)
  {
    k := StampedUpTo(s, w, hs, |hs|);
  }

  /**
   A run that is interrupted before it could record, a pull request that somebody closes, and a run whose
   lookup fails: two pull requests for one branch, of which the task knows the second.
   */
  lemma MissedLookupDuplicates() returns (s: Setting, w: World, hs: seq<Happening>)
    ensures Unstarted(w) && Count(w, "remote") == 0
    ensures PrsOf(Runs(s, w, hs, |hs|), "remote") == [PullRequest("main", false), PullRequest("main", true)]
    ensures Runs(s, w, hs, |hs|).urls == map["repo" := Pr("remote", 1)] && Runs(s, w, hs, |hs|).finished
  {
    s := Setting(["repo"], n => n, n => "remote", n => "main");
    w := World(map[], false, map[]);
    var first := Inputs(map[], n => true, n => Some(1), false, i => c => if c == Create then Stops(true) else Works);
    var second := Inputs(map[], n => true, n => Some(1), false, i => c => if c == Lookup then Misses else Works);
    hs := [Finish(first), Outside("remote", 0, PullRequest("main", false)), Finish(second)];
    var w1 := World(map[], false, map["remote" := [PullRequest("main", true)]]);
    var w2 := World(map[], false, map["remote" := [PullRequest("main", false)]]);
    assert Runs(s, w, hs, 0) == w;
    assert Runs(s, w, hs, 1) == w1 by { FirstRun(s, first); }
    assert Runs(s, w, hs, 2) == w2 by {
      assert PrsOf(w1, "remote")[0 := PullRequest("main", false)] == [PullRequest("main", false)];
      assert Happen(s, w1, hs[1]) == w2;
    }
    SecondRun(s, second);
  }

  predicate OneRepoTask(s: Setting) {
    s.repos == ["repo"] && s.rootOf("repo") == "repo" && s.remote("repo") == "remote" && s.trunk("remote") == "main"
  }

  const ONLY_GROUP := PRGroup("repo", ["repo"], None)

  lemma OneRepoRuns(s: Setting, w: World, inputs: Inputs)
    requires OneRepoTask(s) && inputs.bases == map[]
    ensures var step := GroupStep(s, w, ONLY_GROUP, {}, inputs.force, inputs.script(0));
            FinishRun(s, w, inputs) == if step.go then StampStep(step.world, inputs, 1) else (step.world, Stopped)
    ensures RepoOf(s, ONLY_GROUP) == "remote" && TargetOf(s, ONLY_GROUP) == "main" && "repo" in ONLY_GROUP.members
  {
    OneRepo(s);
    assert UntouchedRepos(s, w, inputs) == {};
    assert "repo" in s.repos;
    assert GroupSteps(s, w, [ONLY_GROUP], {}, inputs, 0) == Step(w, true);
    assert GroupSteps(s, w, [ONLY_GROUP], {}, inputs, 1)
           == GroupStep(s, w, ONLY_GROUP, {}, inputs.force, inputs.script(0));
  }

  lemma OpeningStep(s: Setting, w: World, g: PRGroup, untouched: set<string>, force: bool, calls: Call -> Turn)
    requires Opens(s, w, g, untouched, calls)
    ensures GroupStep(s, w, g, untouched, force, calls) == CreateStep(s, w, g, calls)
  {
  }

  lemma FirstRun(s: Setting, inputs: Inputs)
    requires OneRepoTask(s) && inputs.bases == map[]
    requires forall c :: inputs.script(0)(c) == if c == Create then Stops(true) else Works
    ensures FinishRun(s, World(map[], false, map[]), inputs).0
         == World(map[], false, map["remote" := [PullRequest("main", true)]])
  {
    var w, calls := World(map[], false, map[]), inputs.script(0);
    OneRepoRuns(s, w, inputs);
    assert calls(Push) == Works && calls(Lookup) == Works && calls(Create) == Stops(true);
    assert PrsOf(w, "remote") == [];
    OpeningStep(s, w, ONLY_GROUP, {}, inputs.force, calls);
    assert PrsOf(w, "remote") + [PullRequest("main", true)] == [PullRequest("main", true)];
  }

  const CLOSED_ONE := World(map[], false, map["remote" := [PullRequest("main", false)]])
  const TWO_PRS := map["remote" := [PullRequest("main", false), PullRequest("main", true)]]

  lemma SecondPrRecorded()
    ensures Recorded(Created(CLOSED_ONE, "remote", "main"), ["repo"], Pr("remote", 1))
         == World(map["repo" := Pr("remote", 1)], false, TWO_PRS)
  {
    var w := CLOSED_ONE;
    assert PrsOf(w, "remote") + [PullRequest("main", true)] == [PullRequest("main", false), PullRequest("main", true)];
    assert w.prs["remote" := TWO_PRS["remote"]] == TWO_PRS;
  }

  lemma SecondRun(s: Setting, inputs: Inputs)
    requires OneRepoTask(s) && inputs.bases == map[]
    requires forall i, c :: inputs.script(i)(c) == if c == Lookup then Misses else Works
    ensures FinishRun(s, CLOSED_ONE, inputs).0 == World(map["repo" := Pr("remote", 1)], true, TWO_PRS)
  {
    var w, calls := CLOSED_ONE, inputs.script(0);
    OneRepoRuns(s, w, inputs);
    assert calls(Push) == Works && calls(Lookup) == Misses && calls(Create) == Works && calls(RecordUrls) == Works;
    OpeningStep(s, w, ONLY_GROUP, {}, inputs.force, calls);
    SecondPrRecorded();
    assert inputs.script(1)(Wrap) == Works && inputs.script(1)(Stamp) == Works;
  }

  lemma OneRepo(s: Setting)
    requires s.repos == ["repo"] && s.rootOf("repo") == "repo"
    ensures Groupable(s.rootOf, s.repos, map[]) && GroupsOf(s.rootOf, s.repos, map[]) == [ONLY_GROUP]
  {
    assert s.repos[..0] == [] && s.repos[1..] == [];
    assert RootsOf(s.rootOf, s.repos) == ["repo"];
    assert MembersOf(s.rootOf, s.repos, "repo") == ["repo"];
  }
}
