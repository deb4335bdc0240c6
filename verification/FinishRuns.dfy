/**
 `finish` as a workflow that can be interrupted and run again: push, find or create a pull request, record
 it, and stamp the task at the end.
 */
module FinishRuns {
  import opened Basics
  import opened RepoGraph
  import opened PrGroups

  /** A pull request for the branch of the task: the remote repository, and which one there. */
  datatype Pr = Pr(repo: string, number: nat)

  /** What GitHub keeps of it; a merged one is not open. */
  datatype PullRequest = PullRequest(base: string, open: bool)

  /** What outlives a run: recorded pull requests, the stamp, and the pull requests of each remote, oldest first. */
  datatype World = World(urls: map<string, Pr>, finished: bool, prs: map<string, seq<PullRequest>>)

  /**
   How an outside call goes. A lookup that `Misses` failed and reads like one that found nothing; a call
   that `Stops` raises or never returns, with or without having taken effect.
   */
  datatype Turn = Works | Misses | Stops(effect: bool)

  /** The calls that a group makes, in order; `Harvest` looks up the pull request that a refused creation ran into. */
  datatype Call = Push | Lookup | Create | Harvest | RecordUrls | Wrap | Stamp

  /** One run: the effective bases, which of them the remote has, commits past the base, and how its calls go. */
  datatype Inputs = Inputs(bases: map<string, Base>, verified: string -> bool, ahead: string -> Option<nat>,
                           force: bool, script: nat -> Call -> Turn)

  datatype Exit = Refused | Stopped | Completed

  datatype Step = Step(world: World, go: bool)

  /** The task under way: its repositories in order, their roots, the remote of each root and its default branch. */
  datatype Setting = Setting(repos: seq<string>, rootOf: string -> string, remote: string -> string,
                             trunk: string -> string)

  /** A run of `finish`, or somebody closing, merging, reopening or retargeting a pull request. */
  datatype Happening = Finish(inputs: Inputs) | Outside(repo: string, number: nat, now: PullRequest)

  function PrsOf(w: World, repo: string): seq<PullRequest> {
    if repo in w.prs then w.prs[repo] else []
  }

  function Count(w: World, repo: string): nat {
    |PrsOf(w, repo)|
  }

  /** GitHub refuses a second open pull request for one branch and base. */
  predicate OpenFor(w: World, repo: string, base: string) {
    PullRequest(base, true) in PrsOf(w, repo)
  }

  function Created(w: World, repo: string, base: string): World {
    w.(prs := w.prs[repo := PrsOf(w, repo) + [PullRequest(base, true)]])
  }

  /** The newest pull request of a repository, open or not. */
  function Newest(w: World, repo: string): Option<Pr> {
    if Count(w, repo) > 0 then Some(Pr(repo, Count(w, repo) - 1)) else None
  }

  function Recorded(w: World, members: seq<string>, pr: Pr): World {
    w.(urls := w.urls + map m | m in members :: pr)
  }

  function RepoOf(s: Setting, g: PRGroup): string {
    s.remote(s.rootOf(g.rep))
  }

  /** The branch that a pull request of the group goes into. */
  function TargetOf(s: Setting, g: PRGroup): string {
    if g.base.Some? then g.base.value else s.trunk(RepoOf(s, g))
  }

  // ---------------------------------------------------------------- one group

  predicate AllRecorded(w: World, g: PRGroup) {
    forall m | m in g.members :: m in w.urls
  }

  predicate Skipped(w: World, g: PRGroup, untouched: set<string>) {
    forall m | m in g.members :: m in untouched && m !in w.urls
  }

  function RecordStep(w: World, g: PRGroup, pr: Pr, turn: Turn): Step {
    match turn
    case Stops(effect) => Step(if effect then Recorded(w, g.members, pr) else w, false)
    case _ => Step(Recorded(w, g.members, pr), true)
  }

  /** Creation: refused where one is open already, which is then looked up and taken. */
  function CreateStep(s: Setting, w: World, g: PRGroup, calls: Call -> Turn): Step {
    var repo, refused := RepoOf(s, g), OpenFor(w, RepoOf(s, g), TargetOf(s, g));
    if calls(Create).Stops? then
      Step(if calls(Create).effect && !refused then Created(w, repo, TargetOf(s, g)) else w, false)
    else if !refused then RecordStep(Created(w, repo, TargetOf(s, g)), g, Pr(repo, Count(w, repo)), calls(RecordUrls))
    else if calls(Harvest) == Works then RecordStep(w, g, Newest(w, repo).value, calls(RecordUrls))
    else Step(w, false)
  }

  /** Find or create the pull request of a group that is not recorded yet. */
  function FindOrCreate(s: Setting, w: World, g: PRGroup, calls: Call -> Turn): Step {
    if calls(Lookup).Stops? then Step(w, false)
    else if calls(Lookup) == Misses || Newest(w, RepoOf(s, g)).None? then CreateStep(s, w, g, calls)
    else RecordStep(w, g, Newest(w, RepoOf(s, g)).value, calls(RecordUrls))
  }

  function GroupStep(s: Setting, w: World, g: PRGroup, untouched: set<string>, force: bool, calls: Call -> Turn): Step {
    if Skipped(w, g, untouched) || (AllRecorded(w, g) && !force) then Step(w, true)
    else if calls(Push).Stops? then Step(w, false)
    else if AllRecorded(w, g) then Step(w, true)
    else FindOrCreate(s, w, g, calls)
  }

  /** The first `n` groups, until one of them stops the run. */
  function GroupSteps(s: Setting, w: World, groups: seq<PRGroup>, untouched: set<string>, inputs: Inputs, n: nat): Step
    requires n <= |groups|
  {
    if n == 0 then Step(w, true) else
    var before := GroupSteps(s, w, groups, untouched, inputs, n - 1);
    if before.go then GroupStep(s, before.world, groups[n - 1], untouched, inputs.force, inputs.script(n - 1))
    else before
  }

  // ---------------------------------------------------------------- one run

  /** A base that the remote does not have, on a repository without a pull request yet. */
  predicate BaseMissing(s: Setting, w: World, inputs: Inputs) {
    exists n | n in s.repos :: n !in w.urls && BaseOf(inputs.bases, n).Some? && !inputs.verified(n)
  }

  function UntouchedRepos(s: Setting, w: World, inputs: Inputs): set<string> {
    set n | n in s.repos && n !in w.urls && BaseOf(inputs.bases, n).Some? && inputs.ahead(n) == Some(0)
  }

  /** Nothing at all to push: refused, unless some pull request was recorded before. */
  predicate NothingToDo(s: Setting, w: World, inputs: Inputs) {
    w.urls == map[] && s.repos != [] && forall n | n in s.repos :: n in UntouchedRepos(s, w, inputs)
  }

  /** What follows the loop: the texts of the pull requests and the log, and then the stamp. */
  function StampStep(w: World, inputs: Inputs, n: nat): (World, Exit) {
    if inputs.script(n)(Wrap).Stops? then (w, Stopped)
    else if w.finished && !inputs.force then (w, Completed)
    else
      match inputs.script(n)(Stamp)
      case Stops(effect) => (w.(finished := effect || w.finished), Stopped)
      case _ => (w.(finished := true), Completed)
  }

  function FinishRun(s: Setting, w: World, inputs: Inputs): (World, Exit) {
    if BaseMissing(s, w, inputs) || NothingToDo(s, w, inputs) then (w, Refused)
    else if !Groupable(s.rootOf, s.repos, inputs.bases) then (w, Stopped)
    else
      var groups := GroupsOf(s.rootOf, s.repos, inputs.bases);
      var step := GroupSteps(s, w, groups, UntouchedRepos(s, w, inputs), inputs, |groups|);
      if step.go then StampStep(step.world, inputs, |groups|) else (step.world, Stopped)
  }

  // ---------------------------------------------------------------- all runs

  /** What somebody does to a pull request, unless it would be a second open one for its base. */
  function Changed(w: World, repo: string, number: nat, now: PullRequest): World {
    if number >= Count(w, repo) || (now.open && OpenFor(w, repo, now.base)) then w
    else w.(prs := w.prs[repo := PrsOf(w, repo)[number := now]])
  }

  function Happen(s: Setting, w: World, h: Happening): World {
    match h
    case Finish(inputs) => FinishRun(s, w, inputs).0
    case Outside(repo, number, now) => Changed(w, repo, number, now)
  }

  /** The first `n` happenings. */
  function Runs(s: Setting, w: World, hs: seq<Happening>, n: nat): World
    requires n <= |hs|
  {
    if n == 0 then w else Happen(s, Runs(s, w, hs, n - 1), hs[n - 1])
  }

  /** A task that was just spawned, whatever pull requests there are. */
  predicate Unstarted(w: World) {
    w.urls == map[] && !w.finished
  }
}
