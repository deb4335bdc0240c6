/** The gates of `close` before it tears a task down, as they run without a terminal. */
module CloseGate {
  import opened Basics
  import opened RepoGraph
  import opened PrGroups
  import opened FinishRuns
  import opened FinishTheorems

  /**
   What git says about the worktree of a repository: it is gone, the comparison with the base raised an
   error, or it went through. `commits` is None where the count itself failed.
   */
  datatype Evidence = Gone | Raised | Compared(commits: Option<nat>, merged: bool, pushed: bool)

  datatype PrState = OpenPr | MergedPr | ClosedPr | UnknownPr

  /** Whether the merge commit of a merged pull request is in the base branch. */
  datatype Ancestry = NoWorktree | NoMergeCommit | Reachable | Unreachable

  datatype Why = WorktreeMissing | ComparisonFailed | NotMerged

  /** `prs` lists the recorded pull requests, repository by repository, with what GitHub says of each. */
  datatype ClosingTask = ClosingTask(affected: seq<string>, evidence: map<string, Evidence>, finished: bool,
                                     prs: seq<(string, PrState)>, ancestry: map<string, Ancestry>,
                                     downstream: bool, ghAvailable: bool)

  datatype Flags = Flags(yes: bool, force: bool, abandon: bool, skipPrCheck: bool, bypassAncestry: bool,
                         cascade: bool, detach: bool)

  datatype Refusal =
    | NotFinished | Unrecoverable(repos: seq<string>) | Downstream | NoGh | OpenPrs | NotInBase | MidDelivery

  datatype Decision =
    | Declined(why: Refusal)
    | Teardown(undelivered: seq<(string, Why)>, completedWithoutPrs: bool)

  function EvidenceOf(t: ClosingTask, repo: string): Evidence {
    if repo in t.evidence then t.evidence[repo] else Gone
  }

  predicate HasPr(t: ClosingTask, repo: string) {
    exists i | 0 <= i < |t.prs| :: t.prs[i].0 == repo
  }

  /** The work of a repository reached the base, as far as was observed. */
  predicate Delivered(e: Evidence) {
    e.Compared? && (e.commits == Some(0) || e.merged)
  }

  /** Removing the worktree is not known to lose a commit. */
  predicate Recoverable(t: ClosingTask, repo: string) {
    var e := EvidenceOf(t, repo);
    e.Compared? ==> e.commits == Some(0) || e.merged || e.pushed || HasPr(t, repo)
  }

  function WhyNot(e: Evidence): Why {
    match e
    case Gone => WorktreeMissing
    case Raised => ComparisonFailed
    case Compared(commits, _, _) => if commits.None? then ComparisonFailed else NotMerged
  }

  /** The repositories not seen to be delivered, in order, and why. */
  function Undelivered(t: ClosingTask, repos: seq<string>): seq<(string, Why)> {
    if repos == [] then [] else
    Undelivered(t, repos[..|repos| - 1]) +
    var n := repos[|repos| - 1];
    if Delivered(EvidenceOf(t, n)) then [] else [(n, WhyNot(EvidenceOf(t, n)))]
  }

  function StateAt(prs: seq<(string, PrState)>, i: nat): PrState
    requires i < |prs|
  {
    prs[i].1
  }

  predicate SomeState(t: ClosingTask, state: PrState) {
    exists i | 0 <= i < |t.prs| :: StateAt(t.prs, i) == state
  }

  predicate Stacked(t: ClosingTask, i: nat)
    requires i < |t.prs|
  {
    StateAt(t.prs, i) == MergedPr && t.prs[i].0 in t.ancestry && t.ancestry[t.prs[i].0] == Unreachable
  }

  /** Finished without pull requests, to be closed as such. */
  predicate PushOnlyRoute(t: ClosingTask, f: Flags) {
    t.prs == [] && t.finished && !f.abandon && !f.force
  }

  /** When nothing stands in the way of the teardown. */
  predicate MayTearDown(t: ClosingTask, f: Flags) {
    f.force || (
      && (t.finished || f.abandon)
      && (forall n | n in t.affected :: Recoverable(t, n))
      && (t.downstream ==> f.cascade != f.detach)
      && (t.prs != [] && !f.skipPrCheck ==>
            && t.ghAvailable && !SomeState(t, OpenPr)
            && (f.bypassAncestry || forall i | 0 <= i < |t.prs| :: !Stacked(t, i)))
      && (PushOnlyRoute(t, f) && !f.yes ==>
            forall n | n in t.affected :: Delivered(EvidenceOf(t, n)) || EvidenceOf(t, n).Gone?))
  }

  // ---------------------------------------------------------------- the loops

  /** The recovery check: which repositories are not delivered, and which would lose commits. */
  method CheckRecovery(t: ClosingTask) returns (undelivered: seq<(string, Why)>, lost: seq<string>)
    ensures lost == [] <==> forall n | n in t.affected :: Recoverable(t, n)
    ensures forall n | n in lost :: n in t.affected && !Recoverable(t, n)
    ensures lost == [] ==> undelivered == Undelivered(t, t.affected)
  {
    undelivered, lost := [], [];
    for i := 0 to |t.affected|
      invariant lost == [] <==> forall k | 0 <= k < i :: Recoverable(t, t.affected[k])
      invariant forall n | n in lost :: n in t.affected && !Recoverable(t, n)
      invariant lost == [] ==> undelivered == Undelivered(t, t.affected[..i])
    {
      var repo := t.affected[i];
      assert t.affected[..i + 1][..i] == t.affected[..i];
      match EvidenceOf(t, repo) {
        case Gone => undelivered := undelivered + [(repo, WorktreeMissing)];
        case Raised => undelivered := undelivered + [(repo, ComparisonFailed)];
        case Compared(commits, merged, pushed) =>
          if commits == Some(0) { continue; }
          var failed := commits.None?;
          if merged || pushed || HasPr(t, repo) {
            if !merged { undelivered := undelivered + [(repo, if failed then ComparisonFailed else NotMerged)]; }
            continue;
          }
          if failed { undelivered := undelivered + [(repo, ComparisonFailed)]; }
          lost := lost + [repo];
      }
    }
    assert t.affected[..|t.affected|] == t.affected;
  }

  method CountPrs(t: ClosingTask) returns (open: nat, merged: nat)
    ensures open > 0 <==> SomeState(t, OpenPr)
    ensures merged > 0 <==> SomeState(t, MergedPr)
  {
    open, merged := 0, 0;
    for i := 0 to |t.prs|
      invariant open > 0 <==> exists k | 0 <= k < i :: StateAt(t.prs, k) == OpenPr
      invariant merged > 0 <==> exists k | 0 <= k < i :: StateAt(t.prs, k) == MergedPr
    {
      if StateAt(t.prs, i) == OpenPr { open := open + 1; }
      if StateAt(t.prs, i) == MergedPr { merged := merged + 1; }
    }
  }

  method StackedPrs(t: ClosingTask) returns (found: bool)
    ensures found <==> exists i | 0 <= i < |t.prs| :: Stacked(t, i)
  {
    for i := 0 to |t.prs|
      invariant forall k | 0 <= k < i :: !Stacked(t, k)
    {
      if StateAt(t.prs, i) != MergedPr || t.prs[i].0 !in t.ancestry { continue; }
      if t.ancestry[t.prs[i].0] == Unreachable {
        assert Stacked(t, i);
        return true;
      }
    }
    found := false;
  }

  lemma {:induction false} UndeliveredAre(t: ClosingTask, repos: seq<string>)
    ensures forall u | u in Undelivered(t, repos) ::
              u.0 in repos && !Delivered(EvidenceOf(t, u.0)) && u.1 == WhyNot(EvidenceOf(t, u.0))
    ensures forall n | n in repos && !Delivered(EvidenceOf(t, n)) ::
              (n, WhyNot(EvidenceOf(t, n))) in Undelivered(t, repos)
    decreases |repos|
  {
    if repos != [] {
      UndeliveredAre(t, repos[..|repos| - 1]);
      assert repos == repos[..|repos| - 1] + [repos[|repos| - 1]];
    }
  }

  /** `u` names a repository whose work was not seen to reach the base, and says why. */
  predicate Explains(t: ClosingTask, u: (string, Why)) {
    && u.0 in t.affected
    && match EvidenceOf(t, u.0)
       case Gone => u.1 == WorktreeMissing
       case Raised => u.1 == ComparisonFailed
       case Compared(commits, merged, _) =>
         !merged && commits != Some(0) && u.1 == if commits.None? then ComparisonFailed else NotMerged
  }

  /** What has to be so for a refusal, in terms of what was observed. */
  ghost predicate Justified(t: ClosingTask, f: Flags, why: Refusal) {
    match why
    case NotFinished => !t.finished && !f.abandon
    case Unrecoverable(repos) => repos != [] && forall n | n in repos :: WouldLose(t, n)
    case Downstream => t.downstream && f.cascade == f.detach
    case NoGh => t.prs != [] && !f.skipPrCheck && !t.ghAvailable
    case OpenPrs => !f.skipPrCheck && exists n :: (n, OpenPr) in t.prs
    case NotInBase => !f.skipPrCheck && !f.bypassAncestry && exists n :: MergedElsewhere(t, n)
    case MidDelivery =>
      t.prs == [] && t.finished && !f.abandon && !f.yes
      && exists n :: n in t.affected && n in t.evidence && MidFlight(t.evidence[n])
  }

  /** Commits that are neither merged nor pushed, in a repository without a pull request. */
  predicate WouldLose(t: ClosingTask, n: string) {
    && n in t.affected && n in t.evidence && t.evidence[n].Compared? && t.evidence[n].commits != Some(0)
    && !t.evidence[n].merged && !t.evidence[n].pushed && forall pr | pr in t.prs :: pr.0 != n
  }

  predicate MergedElsewhere(t: ClosingTask, n: string) {
    (n, MergedPr) in t.prs && n in t.ancestry && t.ancestry[n] == Unreachable
  }

  predicate MidFlight(e: Evidence) {
    match e
    case Gone => false
    case Raised => true
    case Compared(commits, merged, _) => commits != Some(0) && !merged
  }

  lemma HasPrMeans(t: ClosingTask, n: string)
    ensures HasPr(t, n) <==> exists pr :: pr in t.prs && pr.0 == n
  {
    if HasPr(t, n) {
      var i :| 0 <= i < |t.prs| && t.prs[i].0 == n;
      assert t.prs[i] in t.prs;
    }
  }

  lemma LostMeans(t: ClosingTask)
    ensures forall n | n in t.affected && !Recoverable(t, n) :: WouldLose(t, n)
  {
    forall n | n in t.affected ensures Recoverable(t, n) <==> !WouldLose(t, n) { HasPrMeans(t, n); }
  }

  lemma PrStatesMean(t: ClosingTask)
    ensures SomeState(t, OpenPr) <==> exists n :: (n, OpenPr) in t.prs
    ensures (exists i | 0 <= i < |t.prs| :: Stacked(t, i)) <==> exists n :: MergedElsewhere(t, n)
  {
    forall i | 0 <= i < |t.prs| ensures (t.prs[i].0, StateAt(t.prs, i)) in t.prs {
      assert t.prs[i] == (t.prs[i].0, t.prs[i].1);
    }
    if n :| (n, OpenPr) in t.prs {
      var i :| 0 <= i < |t.prs| && t.prs[i] == (n, OpenPr);
      assert StateAt(t.prs, i) == OpenPr;
    }
    if n :| MergedElsewhere(t, n) {
      var i :| 0 <= i < |t.prs| && t.prs[i] == (n, MergedPr);
      assert Stacked(t, i);
    }
    if i :| 0 <= i < |t.prs| && Stacked(t, i) { assert MergedElsewhere(t, t.prs[i].0); }
  }

  /** What a teardown that is not forced means for the work and the pull requests of the task. */
  ghost predicate NothingIsLost(t: ClosingTask, f: Flags) {
    && (forall n | n in t.affected && n in t.evidence ::
          match t.evidence[n]
          case Gone => true
          case Raised => true
          case Compared(commits, merged, pushed) =>
            commits == Some(0) || merged || pushed || exists pr :: pr in t.prs && pr.0 == n)
    && (!f.skipPrCheck ==> forall pr | pr in t.prs :: t.ghAvailable && pr.1 != OpenPr)
    && (!f.skipPrCheck && !f.bypassAncestry ==>
          forall pr | pr in t.prs && pr.1 == MergedPr && pr.0 in t.ancestry :: t.ancestry[pr.0] != Unreachable)
  }

  lemma NothingIsLostIn(t: ClosingTask, f: Flags)
    requires MayTearDown(t, f) && !f.force
    ensures NothingIsLost(t, f)
  {
    PrStatesMean(t);
    forall n | n in t.affected ensures HasPr(t, n) <==> exists pr :: pr in t.prs && pr.0 == n { HasPrMeans(t, n); }
    forall pr | pr in t.prs ensures pr == (pr.0, pr.1) { }
    forall pr | pr in t.prs && pr.1 == MergedPr && pr.0 in t.ancestry && t.ancestry[pr.0] == Unreachable
      ensures MergedElsewhere(t, pr.0)
    {
    }
  }

  lemma ExplainedAre(t: ClosingTask)
    ensures forall u :: u in Undelivered(t, t.affected) <==> Explains(t, u)
  {
    UndeliveredAre(t, t.affected);
    forall u: (string, Why) ensures u in Undelivered(t, t.affected) <==> Explains(t, u) { assert u == (u.0, u.1); }
  }

  /** The state of the pull requests: None where it does not stand in the way. */
  method CheckPrs(t: ClosingTask, f: Flags) returns (refused: Option<Refusal>)
    requires !f.force
    ensures refused.None? <==> (t.prs != [] && !f.skipPrCheck ==>
              && t.ghAvailable && !SomeState(t, OpenPr)
              && (f.bypassAncestry || forall i | 0 <= i < |t.prs| :: !Stacked(t, i)))
    ensures refused.Some? ==> Justified(t, f, refused.value)
  {
    PrStatesMean(t);
    if t.prs == [] || f.skipPrCheck { return None; }
    if !t.ghAvailable { return Some(NoGh); }
    var open, merged := CountPrs(t);
    if open > 0 { return Some(OpenPrs); }
    if merged > 0 && !f.bypassAncestry {
      var stacked := StackedPrs(t);
      if stacked { return Some(NotInBase); }
    }
    refused := None;
  }

  /** The gates up to the state of the pull requests. */
  method CheckWork(t: ClosingTask, f: Flags) returns (undelivered: seq<(string, Why)>, refused: Option<Refusal>)
    requires !f.force && (t.finished || f.abandon)
    ensures refused.None? <==>
              && (forall n | n in t.affected :: Recoverable(t, n)) && (t.downstream ==> f.cascade != f.detach)
              && (t.prs != [] && !f.skipPrCheck ==>
                    && t.ghAvailable && !SomeState(t, OpenPr)
                    && (f.bypassAncestry || forall i | 0 <= i < |t.prs| :: !Stacked(t, i)))
    ensures refused.Some? ==> Justified(t, f, refused.value)
    ensures refused.None? ==> undelivered == Undelivered(t, t.affected)
  {
    var lost;
    undelivered, lost := CheckRecovery(t);
    LostMeans(t);
    if lost != [] { return undelivered, Some(Unrecoverable(lost)); }
    if t.downstream && f.cascade == f.detach { return undelivered, Some(Downstream); }
    refused := CheckPrs(t, f);
  }

  lemma WhatIsUndelivered(t: ClosingTask, undelivered: seq<(string, Why)>)
    requires forall u :: u in undelivered <==> Explains(t, u)
    ensures undelivered == [] <==>
            forall n | n in t.affected :: n in t.evidence && !t.evidence[n].Gone? && !MidFlight(t.evidence[n])
    ensures (exists u | u in undelivered :: u.1 != WorktreeMissing) <==>
            exists n :: n in t.affected && n in t.evidence && MidFlight(t.evidence[n])
  {
    forall n | n in t.affected && !Delivered(EvidenceOf(t, n))
      ensures (n, WhyNot(EvidenceOf(t, n))) in undelivered
    {
      assert Explains(t, (n, WhyNot(EvidenceOf(t, n))));
    }
    if undelivered != [] { assert undelivered[0] in undelivered; }
  }

  lemma MidFlightIsUndelivered(t: ClosingTask)
    ensures (forall n | n in t.affected :: Delivered(EvidenceOf(t, n)) || EvidenceOf(t, n).Gone?) <==>
            !exists n :: n in t.affected && n in t.evidence && MidFlight(t.evidence[n])
  {
    forall n | n in t.affected
      ensures Delivered(EvidenceOf(t, n)) || EvidenceOf(t, n).Gone? <==> !(n in t.evidence && MidFlight(t.evidence[n]))
    {
    }
  }

  /**
   The gates in order. The teardown is reached exactly when nothing stands in its way. Unless it is forced, it
   is never reached when a repository has commits that are neither merged nor pushed nor in a pull request, or
   with a pull request that is open or was merged elsewhere; and it is refused on no other grounds than
   those of `Justified`. The task counts as completed without pull requests exactly when the work of every
   repository was seen to be in its base.
   */
  method Close(t: ClosingTask, f: Flags) returns (d: Decision)
    ensures d.Teardown? <==> MayTearDown(t, f)
    ensures d.Teardown? && !f.force ==>
              (t.finished || f.abandon) && NothingIsLost(t, f) && (t.downstream ==> f.cascade != f.detach)
    ensures d.Teardown? && !f.force && t.prs == [] && t.finished && !f.abandon && !f.yes ==>
              forall n | n in t.affected && n in t.evidence :: !MidFlight(t.evidence[n])
    ensures d.Declined? ==> !f.force && Justified(t, f, d.why)
    ensures d.Teardown? ==>
              (d.completedWithoutPrs <==>
                 && t.prs == [] && t.finished && !f.abandon && !f.force
                 && forall n | n in t.affected ::
                      n in t.evidence && !t.evidence[n].Gone? && !MidFlight(t.evidence[n]))
    ensures d.Teardown? ==> d.undelivered == if f.force then [] else Undelivered(t, t.affected)
    ensures d.Teardown? && !f.force ==> forall u :: u in d.undelivered <==> Explains(t, u)
  {
    if !t.finished && !f.abandon && !f.force { return Declined(NotFinished); }
    var undelivered: seq<(string, Why)> := [];
    if !f.force {
      var refused;
      undelivered, refused := CheckWork(t, f);
      if refused.Some? { return Declined(refused.value); }
      ExplainedAre(t);
      WhatIsUndelivered(t, undelivered);
      MidFlightIsUndelivered(t);
    }
    var midDelivery := exists u | u in undelivered :: u.1 != WorktreeMissing;
    if PushOnlyRoute(t, f) && midDelivery && !f.yes { return Declined(MidDelivery); }
    if !f.force { NothingIsLostIn(t, f); }
    d := Teardown(undelivered, PushOnlyRoute(t, f) && undelivered == []);
  }

  // ---------------------------------------------------------------- what the gates guarantee

  /** Evidence only helps: whatever may be torn down may still be when a repository turns out to be merged. */
  lemma MergingNeverBlocks(t: ClosingTask, f: Flags, repo: string)
    requires MayTearDown(t, f) && EvidenceOf(t, repo).Compared?
    ensures MayTearDown(t.(evidence := t.evidence[repo := EvidenceOf(t, repo).(merged := true)]), f)
  {
    var t' := t.(evidence := t.evidence[repo := EvidenceOf(t, repo).(merged := true)]);
    assert forall n :: HasPr(t', n) <==> HasPr(t, n);
    assert forall i | 0 <= i < |t.prs| :: Stacked(t', i) <==> Stacked(t, i);
    forall n | n != repo ensures EvidenceOf(t', n) == EvidenceOf(t, n) { }
  }

  /** What git sees after a run of `finish`: recorded pull requests, and no new commits where there were none. */
  ghost predicate SeenAfterFinish(s: Setting, w: World, w': World, inputs: Inputs, t: ClosingTask) {
    && t.affected == s.repos && t.finished == w'.finished && (forall n | n in w'.urls :: HasPr(t, n))
    && forall n | n in s.repos && n in UntouchedRepos(s, w, inputs) ::
         EvidenceOf(t, n).Compared? ==> EvidenceOf(t, n).commits == Some(0)
  }

  /**
   A task that `finish` completed can be closed as soon as its pull requests are: the recovery check has
   nothing against any repository, whether it was skipped as untouched or has a pull request.
   */
  lemma FinishedTasksCanBeClosed(s: Setting, w: World, inputs: Inputs, t: ClosingTask, f: Flags)
    requires Consistent(s, w) && s.repos != [] && FinishRun(s, w, inputs).1 == Completed
    requires SeenAfterFinish(s, w, FinishRun(s, w, inputs).0, inputs, t)
    requires !t.downstream && t.ghAvailable && !SomeState(t, OpenPr) && forall i | 0 <= i < |t.prs| :: !Stacked(t, i)
    ensures MayTearDown(t, f)
  {
    var w' := FinishRun(s, w, inputs).0;
    RunSettlesOrStops(s, w, inputs);
    forall n | n in s.repos ensures Recoverable(t, n) {
      if n !in UntouchedRepos(s, w, inputs) { TouchedIsRecorded(s, w, w', inputs, n); }
    }
    CompletionHasAPr(s, w, inputs);
    var m :| m in w'.urls;
    assert HasPr(t, m);
  }
}
