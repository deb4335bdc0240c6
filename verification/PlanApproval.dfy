/** Approvals over whole runs: what they were granted for, and what the gate before development rests on. */
module PlanApproval {
  import opened Basics
  import opened AssumptionTable
  import opened PlanCheck

  // ---------------------------------------------------------------- the store

  lemma {:induction false} CheckerFlagsAppend(env: Env, verdicts: seq<AxisVerdict>, a: seq<AssumptionRow>,
                                              row: AssumptionRow)
    ensures CheckerFlags(env, verdicts, a + [row]) == CheckerFlags(env, verdicts, a) + CheckerFlag(env, verdicts, row)
  {
    if a == [] {
      assert (a + [row])[1..] == [];
    } else {
      assert (a + [row])[1..] == a[1..] + [row];
      CheckerFlagsAppend(env, verdicts, a[1..], row);
    }
  }

  lemma {:induction false} CrossFlagsAppend(env: Env, inputs: Inputs, a: seq<AssumptionRow>, row: AssumptionRow)
    ensures CrossFlags(env, inputs, a + [row]) == CrossFlags(env, inputs, a) + CrossFlag(env, inputs, row)
  {
    if a == [] {
      assert (a + [row])[1..] == [];
    } else {
      assert (a + [row])[1..] == a[1..] + [row];
      CrossFlagsAppend(env, inputs, a[1..], row);
    }
  }

  /** The verdicts by normal axis, later ones over earlier ones. */
  method VerdictsByAxis(env: Env, verdicts: seq<AxisVerdict>) returns (byAxis: map<string, AxisVerdict>)
    ensures forall axis ::
              VerdictFor(env, verdicts, axis) ==
              if Norm(env, axis) in byAxis then Some(byAxis[Norm(env, axis)]) else None
  {
    byAxis := map[];
    for i := 0 to |verdicts|
      invariant forall axis ::
                  VerdictFor(env, verdicts[..i], axis) ==
                  if Norm(env, axis) in byAxis then Some(byAxis[Norm(env, axis)]) else None
    {
      assert verdicts[..i + 1][..i] == verdicts[..i];
      byAxis := byAxis[Norm(env, verdicts[i].axis) := verdicts[i]];
    }
    assert verdicts[..|verdicts|] == verdicts;
  }

  /** `flags_from_verdicts` */
  method FlagsFromVerdicts(env: Env, verdicts: seq<AxisVerdict>, rows: seq<AssumptionRow>) returns (flags: seq<Flag>)
    ensures flags == CheckerFlags(env, verdicts, rows)
  {
    var byAxis := VerdictsByAxis(env, verdicts);
    flags := [];
    for i := 0 to |rows|
      invariant flags == CheckerFlags(env, verdicts, rows[..i])
    {
      assert rows[..i + 1] == rows[..i] + [rows[i]];
      CheckerFlagsAppend(env, verdicts, rows[..i], rows[i]);
      if Norm(env, rows[i].axis) !in byAxis {
        flags := flags + [PendingFlag(env, rows[i], Checker, "checker returned no verdict for this row")];
      } else if byAxis[Norm(env, rows[i].axis)].verdict == NotCovered {
        flags := flags + [PendingFlag(env, rows[i], Checker, byAxis[Norm(env, rows[i].axis)].reason)];
      }
    }
    assert rows[..|rows|] == rows;
  }

  /** `cross_check` */
  method CrossCheckRows(env: Env, inputs: Inputs) returns (flags: seq<Flag>)
    ensures flags == CrossFlags(env, inputs, inputs.rows)
  {
    var byAxis := VerdictsByAxis(env, inputs.verdicts);
    var rows := inputs.rows;
    flags := [];
    for i := 0 to |rows|
      invariant flags == CrossFlags(env, inputs, rows[..i])
    {
      assert rows[..i + 1] == rows[..i] + [rows[i]];
      CrossFlagsAppend(env, inputs, rows[..i], rows[i]);
      if !env.triggered(rows[i].triggers, inputs.plan, inputs.taskText, inputs.repos) { continue; }
      if Norm(env, rows[i].axis) in byAxis && byAxis[Norm(env, rows[i].axis)].verdict == NotApplicable {
        var detail := "triggers for '" + rows[i].axis + "' match this plan/task, but the plan declared it n/a";
        flags := flags + [PendingFlag(env, rows[i], CrossCheck, detail)];
      }
    }
    assert rows[..|rows|] == rows;
  }

  /** The approved flags of the last check by axis and source, later ones over earlier ones. */
  method ApprovedByKey(prior: seq<Flag>) returns (approved: map<(string, Source), Flag>)
    ensures forall axis, source :: LastApproved(prior, axis, source) ==
              if (axis, source) in approved then Some(approved[(axis, source)]) else None
  {
    approved := map[];
    for i := 0 to |prior|
      invariant forall axis, source :: LastApproved(prior[..i], axis, source) ==
                  if (axis, source) in approved then Some(approved[(axis, source)]) else None
    {
      assert prior[..i + 1][..i] == prior[..i];
      if prior[i].approved { approved := approved[(prior[i].axis, prior[i].source) := prior[i]]; }
    }
    assert prior[..|prior|] == prior;
  }

  method CarryOver(prior: seq<Flag>, pending: seq<Flag>) returns (flags: seq<Flag>)
    ensures flags == Carried(prior, pending)
  {
    var approved := ApprovedByKey(prior);
    flags := pending;
    for i := 0 to |flags|
      invariant |flags| == |pending|
      invariant forall k | 0 <= k < i :: flags[k] == CarriedFlag(prior, pending[k])
      invariant forall k | i <= k < |pending| :: flags[k] == pending[k]
    {
      var f := flags[i];
      if (f.axis, f.source) in approved {
        var keep := approved[(f.axis, f.source)];
        if keep.fingerprint == f.fingerprint {
          flags := flags[i := f.(approved := true, approvedBy := keep.approvedBy,
                                 approvedReason := keep.approvedReason)];
        }
      }
    }
  }

  datatype Refusal = DuplicateVerdicts | NoStoredCheck | StaleCheck | UnknownAxis

  /** The flags are those that were raised, but for approvals. */
  ghost predicate AsRaised(flags: seq<Flag>, raised: seq<Flag>) {
    && |flags| == |raised|
    && forall i | 0 <= i < |flags| ::
         flags[i] == raised[i].(approved := flags[i].approved, approvedBy := flags[i].approvedBy,
                                approvedReason := flags[i].approvedReason)
  }

  /** A flag of the axis is approved, by `signer` if it was not before, and the others are as they were. */
  ghost predicate OneApproved(before: seq<Flag>, after: seq<Flag>, normal: string -> string, axis: string,
                              reason: Option<string>, signer: string)
  {
    exists i :: 0 <= i < |before| && normal(before[i].axis) == normal(axis) &&
      var signed := before[i].(approved := true, approvedBy := Some(signer), approvedReason := reason);
      after == if before[i].approved then before else before[i := signed]
  }

  lemma RecordedAsRaised(env: Env, checks: Checks, slug: string, inputs: Inputs)
    ensures AsRaised(Recorded(env, checks, slug, inputs).flags, FlagsOf(env, inputs))
  {
  }

  class PlanCheckStore {
    const env: Env
    var checks: Checks

    constructor (env: Env)
      ensures this.env == env && checks == map[]
    {
      this.env := env;
      this.checks := map[];
    }

    /** `plan assumptions result`, on rows as they were loaded. */
    method RecordResult(slug: string, inputs: Inputs) returns (refused: Option<Refusal>)
      requires UniqueRows(env, inputs.rows)
      modifies this
      ensures checks == Apply(env, old(checks), Record(slug, inputs))
      ensures refused.None? <==>
                forall i, j | 0 <= i < j < |inputs.verdicts| ::
                  env.normal(inputs.verdicts[i].axis) != env.normal(inputs.verdicts[j].axis)
      ensures refused.Some? ==> checks == old(checks)
      ensures checks - {slug} == old(checks) - {slug}
      ensures refused.None? ==>
                && slug in checks && checks[slug].planHash == env.planHash(inputs.plan)
                && checks[slug].assumptionsHash == Some(env.setHash(inputs.rows))
                && checks[slug].verdicts == inputs.verdicts && AsRaised(checks[slug].flags, FlagsOf(env, inputs))
    {
      if !UniqueVerdicts(env, inputs.verdicts) { return Some(DuplicateVerdicts); }
      var checker := FlagsFromVerdicts(env, inputs.verdicts, inputs.rows);
      var cross := CrossCheckRows(env, inputs);
      var flags := checker + cross;
      var newHash := env.planHash(inputs.plan);
      if slug in checks && checks[slug].planHash == newHash {
        flags := CarryOver(checks[slug].flags, flags);
      }
      checks := checks[slug := PlanCheckResult(newHash, Some(env.setHash(inputs.rows)), inputs.verdicts, flags)];
      RecordedAsRaised(env, old(checks), slug, inputs);
      refused := None;
    }

    /** `approve_flag` */
    method ApproveFlag(slug: string, axis: string, reason: Option<string>, signer: string, plan: string,
                       rows: seq<AssumptionRow>)
      returns (refused: Option<Refusal>)
      modifies this
      ensures checks == Apply(env, old(checks), Approve(slug, axis, reason, signer, plan, rows))
      ensures refused.None? <==>
                && slug in old(checks) && old(checks)[slug].planHash == env.planHash(plan)
                && old(checks)[slug].assumptionsHash == Some(env.setHash(rows))
                && exists f :: f in old(checks)[slug].flags && env.normal(f.axis) == env.normal(axis)
      ensures refused.Some? ==> checks == old(checks)
      ensures checks - {slug} == old(checks) - {slug}
      ensures refused.None? ==>
                && slug in checks && checks[slug].(flags := old(checks)[slug].flags) == old(checks)[slug]
                && OneApproved(old(checks)[slug].flags, checks[slug].flags, env.normal, axis, reason, signer)
    {
      refused := None;
      if slug !in checks { return Some(NoStoredCheck); }
      var stored := checks[slug];
      if !Fresh(env, stored, plan, rows) { return Some(StaleCheck); }
      var found := FirstFlag(env, stored.flags, axis);
      if found.None? { return Some(UnknownAxis); }
      var f := stored.flags[found.value];
      if f.approved {
        assert checks[slug := stored] == checks;
        return;
      }
      f := f.(approved := true, approvedReason := reason, approvedBy := Some(signer));
      checks := checks[slug := stored.(flags := stored.flags[found.value := f])];
    }
  }

  // ---------------------------------------------------------------- where an approval comes from

  /** A flag like `f` is approved in the check of `slug`, by the same person, for the plan with this hash. */
  ghost predicate HeldAt(checks: Checks, slug: string, hash: string, f: Flag) {
    && slug in checks && checks[slug].planHash == hash
    && exists g :: g in checks[slug].flags && g.approved && g.axis == f.axis && g.source == f.source
                   && g.fingerprint == f.fingerprint && g.approvedBy == f.approvedBy
                   && g.approvedReason == f.approvedReason
  }

  /** Event `k` is an accepted approval of this flag, given for the plan with this hash. */
  ghost predicate GrantedAt(env: Env, events: seq<Event>, k: nat, slug: string, hash: string, f: Flag) {
    && k < |events| && events[k].Approve? && events[k].slug == slug && Accepted(env, Run(env, events[..k]), events[k])
    && Norm(env, events[k].axis) == Norm(env, f.axis) && env.planHash(events[k].plan) == hash
    && f.approvedBy == Some(events[k].signer) && f.approvedReason == events[k].reason
  }

  /** Granted by event `k`, and held in every store since. */
  ghost predicate Traced(env: Env, events: seq<Event>, k: nat, slug: string, hash: string, f: Flag) {
    GrantedAt(env, events, k, slug, hash, f)
    && forall m | k < m <= |events| :: HeldAt(Run(env, events[..m]), slug, hash, f)
  }

  lemma {:induction false} LastApprovedIsOne(flags: seq<Flag>, axis: string, source: Source)
    ensures var keep := LastApproved(flags, axis, source);
            keep.Some? ==>
              && keep.value in flags && keep.value.approved && keep.value.axis == axis
              && keep.value.source == source
  {
    if flags != [] { LastApprovedIsOne(flags[..|flags| - 1], axis, source); }
  }

  lemma FlagsStartPending(env: Env, inputs: Inputs)
    ensures forall f | f in FlagsOf(env, inputs) :: !f.approved
  {
    CheckerFlagsAreOfRows(env, inputs.verdicts, inputs.rows);
    CrossFlagsAreOfRows(env, inputs, inputs.rows);
  }

  lemma TraceGrows(env: Env, events: seq<Event>, e: Event, k: nat, slug: string, hash: string, f: Flag)
    requires Traced(env, events, k, slug, hash, f) && HeldAt(Run(env, events + [e]), slug, hash, f)
    ensures Traced(env, events + [e], k, slug, hash, f)
  {
    var all := events + [e];
    assert all[..k] == events[..k];
    forall m | k < m <= |all| ensures HeldAt(Run(env, all[..m]), slug, hash, f) {
      if m <= |events| { assert all[..m] == events[..m]; } else { assert all[..m] == all; }
    }
  }

  /** What an approved flag was before the event: approved already, or just the one that was approved. */
  lemma ApprovedBefore(env: Env, checks: Checks, e: Event, slug: string, f: Flag)
    requires slug in Apply(env, checks, e) && f in Apply(env, checks, e)[slug].flags && f.approved
    ensures HeldAt(checks, slug, Apply(env, checks, e)[slug].planHash, f)
            || (Accepted(env, checks, e) && e.Approve? && e.slug == slug && Norm(env, e.axis) == Norm(env, f.axis)
                && f.approvedBy == Some(e.signer) && f.approvedReason == e.reason
                && Apply(env, checks, e)[slug].planHash == env.planHash(e.plan))
  {
    if Accepted(env, checks, e) && e.slug == slug {
      match e
      case Record(_, inputs) =>
        FlagsStartPending(env, inputs);
        var flags := FlagsOf(env, inputs);
        var i :| 0 <= i < |flags| && f == Recorded(env, checks, slug, inputs).flags[i];
        assert !flags[i].approved by { assert flags[i] in flags; }
        LastApprovedIsOne(checks[slug].flags, flags[i].axis, flags[i].source);
      case Approve(_, axis, _, _, _, _) =>
        var i := FirstFlag(env, checks[slug].flags, axis).value;
        if f !in checks[slug].flags {
          assert Apply(env, checks, e)[slug].flags[i] == f;
        }
    }
  }

  /**
   Every approved flag of every reachable store traces to an approval given for the plan the check is
   about, for that axis, and in every store since the flag was approved for that same plan hash, axis,
   source and definition of the row.
   */
  lemma {:induction false} EveryApprovalIsTraced(env: Env, events: seq<Event>, slug: string, f: Flag)
    requires slug in Run(env, events) && f in Run(env, events)[slug].flags && f.approved
    ensures exists k: nat :: Traced(env, events, k, slug, Run(env, events)[slug].planHash, f)
    decreases |events|
  {
    var n := |events| - 1;
    var before, e := events[..n], events[n];
    assert events == before + [e];
    var hash := Run(env, events)[slug].planHash;
    ApprovedBefore(env, Run(env, before), e, slug, f);
    assert HeldAt(Run(env, events), slug, hash, f);
    if HeldAt(Run(env, before), slug, hash, f) {
      var g :| g in Run(env, before)[slug].flags && g.approved && g.axis == f.axis && g.source == f.source
               && g.fingerprint == f.fingerprint && g.approvedBy == f.approvedBy
               && g.approvedReason == f.approvedReason;
      EveryApprovalIsTraced(env, before, slug, g);
      var k: nat :| Traced(env, before, k, slug, hash, g);
      SameTrace(env, before, k, slug, hash, g, f);
      TraceGrows(env, before, e, k, slug, hash, f);
    } else {
      assert events[..|events|] == events;
      assert Traced(env, events, n, slug, hash, f);
    }
  }

  lemma SameTrace(env: Env, events: seq<Event>, k: nat, slug: string, hash: string, g: Flag, f: Flag)
    requires Traced(env, events, k, slug, hash, g)
    requires g.axis == f.axis && g.source == f.source && g.fingerprint == f.fingerprint
    requires g.approvedBy == f.approvedBy && g.approvedReason == f.approvedReason
    ensures Traced(env, events, k, slug, hash, f)
  {
    forall m | k < m <= |events| ensures HeldAt(Run(env, events[..m]), slug, hash, f) {
      assert HeldAt(Run(env, events[..m]), slug, hash, g);
    }
  }

  /**
   If at some point of the run the store had no check for the plan the check is about now, then every
   approval there is now was given after that point: editing a plan and reverting it brings none back.
   */
  lemma EditsDropApprovals(env: Env, events: seq<Event>, m: nat, slug: string, f: Flag)
    requires slug in Run(env, events) && f in Run(env, events)[slug].flags && f.approved && m <= |events|
    requires slug !in Run(env, events[..m]) || Run(env, events[..m])[slug].planHash != Run(env, events)[slug].planHash
    ensures exists k: nat :: m <= k && GrantedAt(env, events, k, slug, Run(env, events)[slug].planHash, f)
  {
    var hash := Run(env, events)[slug].planHash;
    EveryApprovalIsTraced(env, events, slug, f);
    var k: nat :| Traced(env, events, k, slug, hash, f);
    if k < m { TraceCovers(env, events, k, slug, hash, f, m); }
  }

  lemma TraceCovers(env: Env, events: seq<Event>, k: nat, slug: string, hash: string, f: Flag, m: nat)
    requires Traced(env, events, k, slug, hash, f) && k < m <= |events|
    ensures HeldAt(Run(env, events[..m]), slug, hash, f)
  {
  }

  // ---------------------------------------------------------------- what a re-check keeps

  lemma SameAxesDiffer(env: Env, a: seq<Flag>, b: seq<Flag>)
    requires OneFlagPerAxis(env, a) && |a| == |b| && forall i | 0 <= i < |a| :: a[i].axis == b[i].axis
    ensures OneFlagPerAxis(env, b)
  {
  }

  lemma {:induction false} EveryRunHasOneFlagPerAxis(env: Env, events: seq<Event>, slug: string)
    requires slug in Run(env, events)
    ensures OneFlagPerAxis(env, Run(env, events)[slug].flags)
    decreases |events|
  {
    var n := |events| - 1;
    var before, e := Run(env, events[..n]), events[n];
    if e.slug == slug && Accepted(env, before, e) {
      match e
      case Record(_, inputs) =>
        FlagsDiffer(env, inputs);
        SameAxesDiffer(env, FlagsOf(env, inputs), Recorded(env, before, slug, inputs).flags);
      case Approve(_, axis, reason, signer, _, _) =>
        EveryRunHasOneFlagPerAxis(env, events[..n], slug);
        SameAxesDiffer(env, before[slug].flags, Run(env, events)[slug].flags);
    } else {
      EveryRunHasOneFlagPerAxis(env, events[..n], slug);
    }
  }

  lemma {:induction false} OnlyApproved(env: Env, flags: seq<Flag>, g: Flag)
    requires OneFlagPerAxis(env, flags) && g in flags && g.approved
    ensures LastApproved(flags, g.axis, g.source) == Some(g)
  {
    var last := |flags| - 1;
    assert flags == flags[..last] + [flags[last]];
    if flags[last] != g {
      var i :| 0 <= i < last && flags[i] == g;
      OnlyApproved(env, flags[..last], g);
    }
  }

  /**
   Checking the same plan again keeps the approval of every flag that is raised again for the same row
   definition: a flag the new check raises is approved in the end exactly when the old check had it approved.
   */
  lemma RecheckKeepsApprovals(env: Env, events: seq<Event>, slug: string, inputs: Inputs, i: nat)
    requires slug in Run(env, events) && Run(env, events)[slug].planHash == env.planHash(inputs.plan)
    requires Accepted(env, Run(env, events), Record(slug, inputs)) && i < |FlagsOf(env, inputs)|
    ensures var f := FlagsOf(env, inputs)[i];
            Recorded(env, Run(env, events), slug, inputs).flags[i].approved <==>
            exists g :: g in Run(env, events)[slug].flags && g.approved && g.axis == f.axis && g.source == f.source
                        && g.fingerprint == f.fingerprint
  {
    var f, prior := FlagsOf(env, inputs)[i], Run(env, events)[slug].flags;
    FlagsStartPending(env, inputs);
    assert f in FlagsOf(env, inputs);
    EveryRunHasOneFlagPerAxis(env, events, slug);
    LastApprovedIsOne(prior, f.axis, f.source);
    forall g | g in prior && g.approved && g.axis == f.axis && g.source == f.source
      ensures LastApproved(prior, f.axis, f.source) == Some(g)
    {
      OnlyApproved(env, prior, g);
    }
  }

  // ---------------------------------------------------------------- what the gate rests on

  /** Event `r` is an accepted check, and the stored one is its result but for approvals. */
  ghost predicate RecordedAt(env: Env, events: seq<Event>, r: nat, slug: string, check: PlanCheckResult) {
    && r < |events| && events[r].Record? && events[r].slug == slug && Accepted(env, map[], events[r])
    && check.planHash == env.planHash(events[r].inputs.plan)
    && check.assumptionsHash == Some(env.setHash(events[r].inputs.rows))
    && |check.flags| == |FlagsOf(env, events[r].inputs)|
    && forall i | 0 <= i < |check.flags| ::
         check.flags[i].axis == FlagsOf(env, events[r].inputs)[i].axis
         && check.flags[i].fingerprint == FlagsOf(env, events[r].inputs)[i].fingerprint
  }

  lemma RecordedNow(env: Env, events: seq<Event>, slug: string)
    requires events != []
    requires var n := |events| - 1;
             events[n].Record? && events[n].slug == slug && Accepted(env, Run(env, events[..n]), events[n])
    ensures slug in Run(env, events) && RecordedAt(env, events, |events| - 1, slug, Run(env, events)[slug])
  {
  }

  /** Any other event leaves the check, but for an approval. */
  lemma RecordedBefore(env: Env, events: seq<Event>, slug: string)
    requires events != [] && slug in Run(env, events)
    requires var n := |events| - 1;
             !(events[n].Record? && events[n].slug == slug && Accepted(env, Run(env, events[..n]), events[n]))
    ensures var before := Run(env, events[..|events| - 1]);
            slug in before && SameButApprovals(before[slug], Run(env, events)[slug])
  {
  }

  predicate SameButApprovals(a: PlanCheckResult, b: PlanCheckResult) {
    && a.planHash == b.planHash && a.assumptionsHash == b.assumptionsHash && |a.flags| == |b.flags|
    && forall i | 0 <= i < |a.flags| ::
         a.flags[i].axis == b.flags[i].axis && a.flags[i].fingerprint == b.flags[i].fingerprint
  }

  lemma RecordedStill(env: Env, events: seq<Event>, r: nat, slug: string, a: PlanCheckResult, b: PlanCheckResult)
    requires events != [] && RecordedAt(env, events[..|events| - 1], r, slug, a) && SameButApprovals(a, b)
    ensures RecordedAt(env, events, r, slug, b)
  {
    assert events[..|events| - 1][r] == events[r];
  }

  lemma {:induction false} ChecksAreRecorded(env: Env, events: seq<Event>, slug: string) returns (r: nat)
    requires slug in Run(env, events)
    ensures RecordedAt(env, events, r, slug, Run(env, events)[slug])
    decreases |events|
  {
    var n := |events| - 1;
    var before, e := events[..n], events[n];
    if e.Record? && e.slug == slug && Accepted(env, Run(env, before), e) {
      r := n;
      RecordedNow(env, events, slug);
    } else {
      RecordedBefore(env, events, slug);
      r := ChecksAreRecorded(env, before, slug);
      RecordedStill(env, events, r, slug, Run(env, before)[slug], Run(env, events)[slug]);
    }
  }

  /** The checker covered the row, or declared it not applicable and its triggers do not say otherwise. */
  predicate Disposed(env: Env, inputs: Inputs, row: AssumptionRow) {
    var v := VerdictFor(env, inputs.verdicts, row.axis);
    v.Some? && (v.value.verdict == Covered
                || (v.value.verdict == NotApplicable
                    && !env.triggered(row.triggers, inputs.plan, inputs.taskText, inputs.repos)))
  }

  ghost predicate Defines(env: Env, rows: seq<AssumptionRow>, row: AssumptionRow) {
    exists was :: was in rows && env.fingerprint(was) == env.fingerprint(row)
  }

  /** Hashes of different sets of definitions differ. */
  ghost predicate Collisionless(env: Env) {
    forall a, b, row {:trigger env.setHash(a), Defines(env, b, row)} | env.setHash(a) == env.setHash(b) && row in a ::
      Defines(env, b, row)
  }

  /** Somebody approved the flag of this row for this plan, and it has been approved ever since. */
  ghost predicate SignedOff(env: Env, events: seq<Event>, slug: string, hash: string, row: AssumptionRow) {
    exists k: nat, f ::
      Traced(env, events, k, slug, hash, f) && f.axis == row.axis && f.fingerprint == Some(env.fingerprint(row))
  }

  lemma UndisposedRowHasFlag(env: Env, inputs: Inputs, row: AssumptionRow) returns (i: nat)
    requires row in inputs.rows && !Disposed(env, inputs, row)
    ensures i < |FlagsOf(env, inputs)|
    ensures FlagsOf(env, inputs)[i].axis == row.axis
            && FlagsOf(env, inputs)[i].fingerprint == Some(env.fingerprint(row))
  {
    RowsHaveFlags(env, inputs, inputs.rows, row);
    var one := CheckerFlag(env, inputs.verdicts, row) + CrossFlag(env, inputs, row);
    assert one != [];
    var f := one[0];
    assert f in CheckerFlag(env, inputs.verdicts, row) || f in CrossFlag(env, inputs, row);
    assert f in CheckerFlags(env, inputs.verdicts, inputs.rows) || f in CrossFlags(env, inputs, inputs.rows);
    assert f in FlagsOf(env, inputs);
    i :| 0 <= i < |FlagsOf(env, inputs)| && FlagsOf(env, inputs)[i] == f;
  }

  lemma UndisposedRowsAreSignedOff(env: Env, events: seq<Event>, slug: string, r: nat, check: PlanCheckResult,
                                   row: AssumptionRow)
    requires slug in Run(env, events) && check == Run(env, events)[slug] && RecordedAt(env, events, r, slug, check)
    requires forall f | f in check.flags :: f.approved
    requires row in events[r].inputs.rows && !Disposed(env, events[r].inputs, row)
    ensures SignedOff(env, events, slug, check.planHash, row)
  {
    var i := UndisposedRowHasFlag(env, events[r].inputs, row);
    EveryApprovalIsTraced(env, events, slug, check.flags[i]);
    var k: nat :| Traced(env, events, k, slug, check.planHash, check.flags[i]);
  }

  /** The row was in the check with this definition, and was disposed of or signed off. */
  ghost predicate Answered(env: Env, events: seq<Event>, slug: string, inputs: Inputs, hash: string, row: AssumptionRow)
  {
    exists was :: was in inputs.rows && env.fingerprint(was) == env.fingerprint(row)
                  && (Disposed(env, inputs, was) || SignedOff(env, events, slug, hash, was))
  }

  /**
   When the gate lets a plan pass, there was a check of this plan in which every assumption of today
   appears with its definition of today, and each was disposed of by the checker or signed off by somebody
   for exactly this plan.
   */
  lemma GateMeansSignOff(env: Env, events: seq<Event>, slug: string, plan: string, rows: seq<AssumptionRow>)
    returns (r: nat)
    requires Collisionless(env) && GatePasses(env, Run(env, events), slug, plan, rows)
    ensures r < |events| && events[r].Record? && events[r].slug == slug
    ensures env.planHash(events[r].inputs.plan) == env.planHash(plan)
    ensures forall row | row in rows :: Answered(env, events, slug, events[r].inputs, env.planHash(plan), row)
  {
    r := ChecksAreRecorded(env, events, slug);
    var check, inputs := Run(env, events)[slug], events[r].inputs;
    assert env.setHash(rows) == env.setHash(inputs.rows);
    forall row | row in rows ensures Answered(env, events, slug, inputs, env.planHash(plan), row) {
      assert Defines(env, inputs.rows, row);
      var was :| was in inputs.rows && env.fingerprint(was) == env.fingerprint(row);
      if !Disposed(env, inputs, was) { UndisposedRowsAreSignedOff(env, events, slug, r, check, was); }
    }
  }
}
