/** Which rows a check flags, and when the gate is open right after it. */
module PlanGate {
  import opened Basics
  import opened AssumptionTable
  import opened PlanCheck
  import opened PlanApproval

  /** The checker gave the row this verdict. */
  predicate Judged(env: Env, inputs: Inputs, row: AssumptionRow, verdict: Disposition) {
    exists v | v in inputs.verdicts :: env.normal(v.axis) == env.normal(row.axis) && v.verdict == verdict
  }

  predicate Unjudged(env: Env, inputs: Inputs, row: AssumptionRow) {
    forall v | v in inputs.verdicts :: env.normal(v.axis) != env.normal(row.axis)
  }

  /** The checker found the row not covered, and gave this reason. */
  predicate FoundOpen(env: Env, inputs: Inputs, row: AssumptionRow, reason: string) {
    exists v | v in inputs.verdicts ::
      env.normal(v.axis) == env.normal(row.axis) && v.verdict == NotCovered && v.reason == reason
  }

  predicate Triggered(env: Env, inputs: Inputs, row: AssumptionRow) {
    env.triggered(row.triggers, inputs.plan, inputs.taskText, inputs.repos)
  }

  /** Why a row has a flag of this source. */
  predicate Grounds(env: Env, inputs: Inputs, row: AssumptionRow, source: Source, reason: string) {
    match source
    case Checker =>
      || (Unjudged(env, inputs, row) && reason == "checker returned no verdict for this row")
      || FoundOpen(env, inputs, row, reason)
    case CrossCheck =>
      && Judged(env, inputs, row, NotApplicable) && Triggered(env, inputs, row)
      && reason == "triggers for '" + row.axis + "' match this plan/task, but the plan declared it n/a"
  }

  /** `f` is a pending flag for the row, on good grounds. */
  predicate Raised(env: Env, inputs: Inputs, row: AssumptionRow, f: Flag) {
    && f.axis == row.axis && f.fingerprint == Some(env.fingerprint(row))
    && Grounds(env, inputs, row, f.source, f.reason) && !f.approved && f.approvedBy.None? && f.approvedReason.None?
  }

  /** Covered, or declared not applicable without a trigger that says otherwise. */
  predicate Cleared(env: Env, inputs: Inputs, row: AssumptionRow) {
    || Judged(env, inputs, row, Covered)
    || (Judged(env, inputs, row, NotApplicable) && !Triggered(env, inputs, row))
  }

  // ---------------------------------------------------------------- the verdict for a row

  lemma {:induction false} TheVerdict(env: Env, verdicts: seq<AxisVerdict>, axis: string, v: AxisVerdict)
    requires UniqueVerdicts(env, verdicts)
    ensures VerdictFor(env, verdicts, axis) == Some(v) <==> v in verdicts && env.normal(v.axis) == env.normal(axis)
  {
    if verdicts != [] {
      var n := |verdicts| - 1;
      assert verdicts == verdicts[..n] + [verdicts[n]];
      TheVerdict(env, verdicts[..n], axis, v);
      forall u | u in verdicts[..n] ensures Norm(env, u.axis) != Norm(env, verdicts[n].axis) {
        var i :| 0 <= i < n && verdicts[i] == u;
      }
    }
  }

  lemma VerdictMeans(env: Env, inputs: Inputs, row: AssumptionRow)
    requires UniqueVerdicts(env, inputs.verdicts)
    ensures var v := VerdictFor(env, inputs.verdicts, row.axis);
            && (v.None? <==> Unjudged(env, inputs, row))
            && (forall d :: Judged(env, inputs, row, d) <==> v.Some? && v.value.verdict == d)
            && (forall reason :: FoundOpen(env, inputs, row, reason)
                                 <==> v.Some? && v.value.verdict == NotCovered && v.value.reason == reason)
  {
    forall v ensures VerdictFor(env, inputs.verdicts, row.axis) == Some(v)
                     <==> v in inputs.verdicts && env.normal(v.axis) == env.normal(row.axis)
    {
      TheVerdict(env, inputs.verdicts, row.axis, v);
    }
  }

  /** What `GateMeansSignOff` says of a row that was disposed of by the checker. */
  lemma DisposedMeansCleared(env: Env, inputs: Inputs, row: AssumptionRow)
    requires UniqueVerdicts(env, inputs.verdicts)
    ensures Disposed(env, inputs, row) <==> Cleared(env, inputs, row)
  {
    VerdictMeans(env, inputs, row);
  }

  // ---------------------------------------------------------------- the flags

  lemma FlagsOfARow(env: Env, inputs: Inputs, row: AssumptionRow, f: Flag)
    requires UniqueVerdicts(env, inputs.verdicts)
    ensures f in CheckerFlag(env, inputs.verdicts, row) + CrossFlag(env, inputs, row) <==> Raised(env, inputs, row, f)
  {
    VerdictMeans(env, inputs, row);
  }

  /** The flags of a check are exactly those that some row gives grounds for. */
  lemma FlagsAreRaised(env: Env, inputs: Inputs, f: Flag)
    requires UniqueVerdicts(env, inputs.verdicts)
    ensures f in FlagsOf(env, inputs) <==> exists row :: row in inputs.rows && Raised(env, inputs, row, f)
  {
    if f in FlagsOf(env, inputs) {
      CheckerFlagsAreOfRows(env, inputs.verdicts, inputs.rows);
      CrossFlagsAreOfRows(env, inputs, inputs.rows);
      var row :| row in inputs.rows
                 && (f in CheckerFlag(env, inputs.verdicts, row) || f in CrossFlag(env, inputs, row));
      FlagsOfARow(env, inputs, row, f);
    }
    if row :| row in inputs.rows && Raised(env, inputs, row, f) {
      FlagsOfARow(env, inputs, row, f);
      RowsHaveFlags(env, inputs, inputs.rows, row);
    }
  }

  lemma PlacesDiffer(env: Env, rows: seq<AssumptionRow>, i: nat, j: nat)
    requires UniqueRows(env, rows) && i < j < |rows|
    ensures rows[i].axis != rows[j].axis
  {
    assert Norm(env, rows[i].axis) != Norm(env, rows[j].axis);
  }

  lemma RowsDiffer(env: Env, rows: seq<AssumptionRow>, a: AssumptionRow, b: AssumptionRow)
    requires UniqueRows(env, rows) && a in rows && b in rows
    ensures a == b || a.axis != b.axis
  {
    var i :| 0 <= i < |rows| && rows[i] == a;
    var j :| 0 <= j < |rows| && rows[j] == b;
    if i < j { PlacesDiffer(env, rows, i, j); }
    if j < i { PlacesDiffer(env, rows, j, i); }
  }

  /** The source of the flag that a row has if it is not cleared. */
  function SourceFor(env: Env, inputs: Inputs, row: AssumptionRow): Source {
    if Judged(env, inputs, row, NotApplicable) then CrossCheck else Checker
  }

  lemma RaisedExactly(env: Env, inputs: Inputs, row: AssumptionRow)
    requires UniqueVerdicts(env, inputs.verdicts)
    ensures (exists f :: Raised(env, inputs, row, f)) <==> !Cleared(env, inputs, row)
    ensures forall f | Raised(env, inputs, row, f) :: f.source == SourceFor(env, inputs, row)
  {
    VerdictMeans(env, inputs, row);
    if !Cleared(env, inputs, row) {
      var one := CheckerFlag(env, inputs.verdicts, row) + CrossFlag(env, inputs, row);
      FlagsOfARow(env, inputs, row, one[0]);
    }
  }

  /**
   A row has a flag exactly when it is not cleared: covered, or declared not applicable without a trigger
   that says otherwise. The flag comes from the checker exactly when it gave no verdict or found the row open,
   then with its reason.
   */
  lemma FlaggedExactly(env: Env, inputs: Inputs, row: AssumptionRow)
    requires UniqueVerdicts(env, inputs.verdicts) && UniqueRows(env, inputs.rows) && row in inputs.rows
    ensures (exists f :: f in FlagsOf(env, inputs) && f.axis == row.axis) <==> !Cleared(env, inputs, row)
    ensures forall f | f in FlagsOf(env, inputs) && f.axis == row.axis ::
              && Raised(env, inputs, row, f)
              && (f.source == Checker <==> Unjudged(env, inputs, row) || Judged(env, inputs, row, NotCovered))
  {
    RaisedExactly(env, inputs, row);
    VerdictMeans(env, inputs, row);
    forall f | f in FlagsOf(env, inputs) && f.axis == row.axis ensures Raised(env, inputs, row, f) {
      FlagsAreRaised(env, inputs, f);
      var r :| r in inputs.rows && Raised(env, inputs, r, f);
      RowsDiffer(env, inputs.rows, r, row);
    }
    if f :| Raised(env, inputs, row, f) { FlagsAreRaised(env, inputs, f); }
  }

  // ---------------------------------------------------------------- the gate right after a check

  /** The check before, of the same plan, had the flag of this row approved, with this definition of the row. */
  ghost predicate ApprovedEarlier(env: Env, checks: Checks, slug: string, inputs: Inputs, row: AssumptionRow) {
    && slug in checks && checks[slug].planHash == env.planHash(inputs.plan)
    && exists g :: g in checks[slug].flags && g.approved && g.axis == row.axis
                   && g.source == SourceFor(env, inputs, row) && g.fingerprint == Some(env.fingerprint(row))
  }

  lemma FlagIsApproved(env: Env, events: seq<Event>, slug: string, inputs: Inputs, i: nat, row: AssumptionRow)
    requires UniqueVerdicts(env, inputs.verdicts) && UniqueRows(env, inputs.rows)
    requires i < |FlagsOf(env, inputs)| && Raised(env, inputs, row, FlagsOf(env, inputs)[i])
    ensures i < |Recorded(env, Run(env, events), slug, inputs).flags|
    ensures Recorded(env, Run(env, events), slug, inputs).flags[i].approved <==>
            ApprovedEarlier(env, Run(env, events), slug, inputs, row)
  {
    var checks := Run(env, events);
    RaisedExactly(env, inputs, row);
    if slug in checks && checks[slug].planHash == env.planHash(inputs.plan) {
      RecheckKeepsApprovals(env, events, slug, inputs, i);
    }
  }

  lemma RunOneMore(env: Env, events: seq<Event>, e: Event)
    ensures Run(env, events + [e]) == Apply(env, Run(env, events), e)
  {
    assert (events + [e])[..|events|] == events;
  }

  lemma RowsAreApproved(env: Env, events: seq<Event>, slug: string, inputs: Inputs)
    requires UniqueVerdicts(env, inputs.verdicts) && UniqueRows(env, inputs.rows)
    requires forall row | row in inputs.rows ::
               Cleared(env, inputs, row) || ApprovedEarlier(env, Run(env, events), slug, inputs, row)
    ensures forall f | f in Recorded(env, Run(env, events), slug, inputs).flags :: f.approved
  {
    var flags, recorded := FlagsOf(env, inputs), Recorded(env, Run(env, events), slug, inputs).flags;
    forall i | 0 <= i < |recorded| ensures recorded[i].approved {
      FlagsAreRaised(env, inputs, flags[i]);
      var row :| row in inputs.rows && Raised(env, inputs, row, flags[i]);
      RaisedExactly(env, inputs, row);
      FlagIsApproved(env, events, slug, inputs, i, row);
    }
  }

  lemma ApprovedRows(env: Env, events: seq<Event>, slug: string, inputs: Inputs, row: AssumptionRow)
    requires UniqueVerdicts(env, inputs.verdicts) && UniqueRows(env, inputs.rows) && row in inputs.rows
    requires forall f | f in Recorded(env, Run(env, events), slug, inputs).flags :: f.approved
    ensures Cleared(env, inputs, row) || ApprovedEarlier(env, Run(env, events), slug, inputs, row)
  {
    if !Cleared(env, inputs, row) {
      RaisedExactly(env, inputs, row);
      var f :| Raised(env, inputs, row, f);
      FlagsAreRaised(env, inputs, f);
      var i :| 0 <= i < |FlagsOf(env, inputs)| && FlagsOf(env, inputs)[i] == f;
      FlagIsApproved(env, events, slug, inputs, i, row);
      assert Recorded(env, Run(env, events), slug, inputs).flags[i] in
             Recorded(env, Run(env, events), slug, inputs).flags;
    }
  }

  /**
   Right after an accepted check, the gate lets the plan pass exactly when every row is cleared, or its flag
   was approved in the check before, for the same plan and definition. In particular it lets every plan pass
   whose rows are all cleared.
   */
  lemma GateAfterCheck(env: Env, events: seq<Event>, slug: string, inputs: Inputs)
    requires UniqueVerdicts(env, inputs.verdicts) && UniqueRows(env, inputs.rows)
    ensures GatePasses(env, Run(env, events + [Record(slug, inputs)]), slug, inputs.plan, inputs.rows) <==>
            forall row | row in inputs.rows ::
              Cleared(env, inputs, row) || ApprovedEarlier(env, Run(env, events), slug, inputs, row)
  {
    RunOneMore(env, events, Record(slug, inputs));
    if forall row | row in inputs.rows ::
         Cleared(env, inputs, row) || ApprovedEarlier(env, Run(env, events), slug, inputs, row)
    {
      RowsAreApproved(env, events, slug, inputs);
    }
    if forall f | f in Recorded(env, Run(env, events), slug, inputs).flags :: f.approved {
      forall row | row in inputs.rows
        ensures Cleared(env, inputs, row) || ApprovedEarlier(env, Run(env, events), slug, inputs, row)
      {
        ApprovedRows(env, events, slug, inputs, row);
      }
    }
  }
}
