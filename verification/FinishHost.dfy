/** The loop of `finish` on the stored task and the remotes. */
module FinishHost {
  import opened Basics
  import opened RepoGraph
  import opened PrGroups
  import opened FinishRuns

  class FinishWorkflow {
    const config: Config
    const setting: Setting
    var urls: map<string, Pr>
    var finished: bool
    var prs: map<string, seq<PullRequest>>

    ghost predicate Valid() {
      setting.rootOf == RootIn(config)
    }

    function Contents(): World
      reads this
    {
      World(urls, finished, prs)
    }

    constructor (config: Config, repos: seq<string>, remote: string -> string, trunk: string -> string,
                 prs: map<string, seq<PullRequest>>)
      ensures Valid() && setting.repos == repos && setting.remote == remote && setting.trunk == trunk
      ensures Contents() == World(map[], false, prs)
    {
      this.config := config;
      this.setting := Setting(repos, RootIn(config), remote, trunk);
      this.urls := map[];
      this.finished := false;
      this.prs := prs;
    }

    /** `gh pr create`: None when one is open already for the branch and the base. */
    method Open(repo: string, base: string) returns (pr: Option<Pr>)
      modifies this`prs
      ensures pr.None? <==> OpenFor(old(Contents()), repo, base)
      ensures pr.None? ==> Contents() == old(Contents())
      ensures pr.Some? ==> Contents() == Created(old(Contents()), repo, base) && pr == Newest(Contents(), repo)
    {
      var known := if repo in prs then prs[repo] else [];
      if PullRequest(base, true) in known { return None; }
      prs := prs[repo := known + [PullRequest(base, true)]];
      pr := Some(Pr(repo, |known|));
    }

    /** `gh pr list --head`: the newest pull request of the branch, open or not; nothing when the call fails. */
    method LookUp(repo: string, turn: Turn) returns (found: Option<Pr>)
      ensures found == if turn == Misses then None else Newest(Contents(), repo)
    {
      found := if turn != Misses && repo in prs && prs[repo] != [] then Some(Pr(repo, |prs[repo]| - 1)) else None;
    }

    /** `record_pr_urls`: one transaction for all members. */
    method RecordPr(g: PRGroup, pr: Pr, turn: Turn) returns (go: bool)
      modifies this`urls
      ensures Step(Contents(), go) == RecordStep(old(Contents()), g, pr, turn)
    {
      go := !turn.Stops?;
      if go || turn.effect {
        urls := urls + map m | m in g.members :: pr;
      }
    }

    /** `create_pr`, with the lookup that answers a refusal because there is one already, and the record. */
    method CreatePr(g: PRGroup, calls: Call -> Turn) returns (go: bool)
      modifies this`urls, this`prs
      ensures Step(Contents(), go) == CreateStep(setting, old(Contents()), g, calls)
    {
      var repo := setting.remote(setting.rootOf(g.rep));
      var base := if g.base.Some? then g.base.value else setting.trunk(repo);
      if calls(Create).Stops? {
        if calls(Create).effect { var lost := Open(repo, base); }
        return false;
      }
      var pr := Open(repo, base);
      if pr.None? {
        if calls(Harvest).Stops? { return false; }
        pr := LookUp(repo, calls(Harvest));
        if pr.None? { return false; }
      }
      go := RecordPr(g, pr.value, calls(RecordUrls));
    }

    method FindOrCreatePr(g: PRGroup, calls: Call -> Turn) returns (go: bool)
      modifies this`urls, this`prs
      ensures Step(Contents(), go) == FindOrCreate(setting, old(Contents()), g, calls)
    {
      if calls(Lookup).Stops? { return false; }
      var existing := LookUp(setting.remote(setting.rootOf(g.rep)), calls(Lookup));
      if existing.Some? {
        go := RecordPr(g, existing.value, calls(RecordUrls));
      } else {
        go := CreatePr(g, calls);
      }
    }

    /** One round of the loop over the groups. */
    method SettleGroup(g: PRGroup, untouched: set<string>, force: bool, calls: Call -> Turn) returns (go: bool)
      modifies this`urls, this`prs
      ensures Step(Contents(), go) == GroupStep(setting, old(Contents()), g, untouched, force, calls)
    {
      if forall m | m in g.members :: m in untouched && m !in urls { return true; }
      var allRecorded := forall m | m in g.members :: m in urls;
      if allRecorded && !force { return true; }
      if calls(Push).Stops? { return false; }
      if allRecorded { return true; }
      go := FindOrCreatePr(g, calls);
    }

    /** The repositories without commits past their base; None when the remote lacks a base. */
    method Survey(inputs: Inputs) returns (untouched: Option<set<string>>)
      ensures untouched.None? <==> BaseMissing(setting, Contents(), inputs)
      ensures untouched.Some? ==> untouched.value == UntouchedRepos(setting, Contents(), inputs)
    {
      var missing := false;
      var empty: set<string> := {};
      var repos := setting.repos;
      for i := 0 to |repos|
        invariant missing <==> exists k | 0 <= k < i ::
          repos[k] !in urls && BaseOf(inputs.bases, repos[k]).Some? && !inputs.verified(repos[k])
        invariant !missing ==>
          empty == set n | n in repos[..i] && n !in urls && BaseOf(inputs.bases, n).Some? && inputs.ahead(n) == Some(0)
      {
        var n := repos[i];
        assert repos[..i + 1] == repos[..i] + [n];
        if n in urls || BaseOf(inputs.bases, n).None? { continue; }
        if !inputs.verified(n) {
          missing := true;
          continue;
        }
        if inputs.ahead(n) == Some(0) { empty := empty + {n}; }
      }
      assert repos[..|repos|] == repos;
      untouched := if missing then None else Some(empty);
    }

    /** `finish`, from the check of the bases to the stamp. */
    method Finish(inputs: Inputs) returns (exit: Exit)
      requires Valid()
      modifies this`urls, this`prs, this`finished
      ensures (Contents(), exit) == FinishRun(setting, old(Contents()), inputs)
    {
      var untouched := Survey(inputs);
      if untouched.None? { return Refused; }
      var noneTouched := forall n | n in setting.repos :: n in untouched.value;
      if urls == map[] && setting.repos != [] && noneTouched { return Refused; }
      var groups := BuildPrGroups(config, setting.repos, inputs.bases);
      if groups.None? { return Stopped; }
      var go := SettleGroups(groups.value, untouched.value, inputs);
      if !go || inputs.script(|groups.value|)(Wrap).Stops? { return Stopped; }
      if finished && !inputs.force { return Completed; }
      var stamp := inputs.script(|groups.value|)(Stamp);
      if stamp.Stops? {
        finished := finished || stamp.effect;
        return Stopped;
      }
      finished := true;
      exit := Completed;
    }

    method SettleGroups(groups: seq<PRGroup>, untouched: set<string>, inputs: Inputs) returns (go: bool)
      modifies this`urls, this`prs
      ensures Step(Contents(), go) == GroupSteps(setting, old(Contents()), groups, untouched, inputs, |groups|)
    {
      go := true;
      for i := 0 to |groups|
        invariant go && Step(Contents(), go) == GroupSteps(setting, old(Contents()), groups, untouched, inputs, i)
      {
        go := SettleGroup(groups[i], untouched, inputs.force, inputs.script(i));
        if !go {
          StoppedStays(setting, old(Contents()), groups, untouched, inputs, i + 1, |groups|);
          return;
        }
      }
    }
  }

  lemma {:induction false} StoppedStays(s: Setting, w: World, groups: seq<PRGroup>, untouched: set<string>,
                                        inputs: Inputs, i: nat, n: nat)
    requires i <= n <= |groups| && !GroupSteps(s, w, groups, untouched, inputs, i).go
    ensures GroupSteps(s, w, groups, untouched, inputs, n) == GroupSteps(s, w, groups, untouched, inputs, i)
  {
    if i < n { StoppedStays(s, w, groups, untouched, inputs, i, n - 1); }
  }
}
