/** Plan checks: the flags a checker's verdicts give rise to, and the approvals of those flags. */
module PlanCheck {
  import opened Basics
  import opened AssumptionTable

  /**
   What this model leaves open: the normal form of an axis, the hashes of a plan, of the definition of a row
   and of a set of rows, and whether the triggers of a row match a plan, a task text and the affected
   repositories.
   */
  datatype Env = Env(normal: string -> string, planHash: string -> string, fingerprint: AssumptionRow -> string,
                     setHash: seq<AssumptionRow> -> string, triggered: (string, string, string, seq<string>) -> bool)

  datatype Disposition = Covered | NotCovered | NotApplicable

  datatype AxisVerdict = AxisVerdict(axis: string, verdict: Disposition, reason: string)

  datatype Source = Checker | CrossCheck

  datatype Flag = Flag(axis: string, source: Source, reason: string, fingerprint: Option<string>, approved: bool,
                       approvedBy: Option<string>, approvedReason: Option<string>)

  datatype PlanCheckResult = PlanCheckResult(planHash: string, assumptionsHash: Option<string>,
                                             verdicts: seq<AxisVerdict>, flags: seq<Flag>)

  /** What a check looks at: the verdicts, and the rows, texts and repositories of that moment. */
  datatype Inputs = Inputs(plan: string, rows: seq<AssumptionRow>, taskText: string, repos: seq<string>,
                           verdicts: seq<AxisVerdict>)

  datatype Event =
    | Record(slug: string, inputs: Inputs)
    | Approve(slug: string, axis: string, reason: Option<string>, signer: string, plan: string,
              rows: seq<AssumptionRow>)

  type Checks = map<string, PlanCheckResult>

  function Norm(env: Env, axis: string): string {
    env.normal(axis)
  }

  predicate UniqueVerdicts(env: Env, verdicts: seq<AxisVerdict>) {
    forall i, j | 0 <= i < j < |verdicts| :: Norm(env, verdicts[i].axis) != Norm(env, verdicts[j].axis)
  }

  /** What loading the rows makes sure of. */
  predicate UniqueRows(env: Env, rows: seq<AssumptionRow>) {
    forall i, j | 0 <= i < j < |rows| :: Norm(env, rows[i].axis) != Norm(env, rows[j].axis)
  }

  // ---------------------------------------------------------------- flags

  /** The last verdict for an axis. */
  function VerdictFor(env: Env, verdicts: seq<AxisVerdict>, axis: string): Option<AxisVerdict> {
    if verdicts == [] then None
    else if Norm(env, verdicts[|verdicts| - 1].axis) == Norm(env, axis) then Some(verdicts[|verdicts| - 1])
    else VerdictFor(env, verdicts[..|verdicts| - 1], axis)
  }

  function PendingFlag(env: Env, row: AssumptionRow, source: Source, reason: string): Flag {
    Flag(row.axis, source, reason, Some(env.fingerprint(row)), false, None, None)
  }

  function CheckerFlag(env: Env, verdicts: seq<AxisVerdict>, row: AssumptionRow): seq<Flag> {
    match VerdictFor(env, verdicts, row.axis)
    case None => [PendingFlag(env, row, Checker, "checker returned no verdict for this row")]
    case Some(v) => if v.verdict == NotCovered then [PendingFlag(env, row, Checker, v.reason)] else []
  }

  function CrossFlag(env: Env, inputs: Inputs, row: AssumptionRow): seq<Flag> {
    var v := VerdictFor(env, inputs.verdicts, row.axis);
    var triggered := env.triggered(row.triggers, inputs.plan, inputs.taskText, inputs.repos);
    if triggered && v.Some? && v.value.verdict == NotApplicable then
      var detail := "triggers for '" + row.axis + "' match this plan/task, but the plan declared it n/a";
      [PendingFlag(env, row, CrossCheck, detail)]
    else []
  }

  function CheckerFlags(env: Env, verdicts: seq<AxisVerdict>, rows: seq<AssumptionRow>): seq<Flag> {
    if rows == [] then [] else CheckerFlag(env, verdicts, rows[0]) + CheckerFlags(env, verdicts, rows[1..])
  }

  function CrossFlags(env: Env, inputs: Inputs, rows: seq<AssumptionRow>): seq<Flag> {
    if rows == [] then [] else CrossFlag(env, inputs, rows[0]) + CrossFlags(env, inputs, rows[1..])
  }

  function FlagsOf(env: Env, inputs: Inputs): seq<Flag> {
    CheckerFlags(env, inputs.verdicts, inputs.rows) + CrossFlags(env, inputs, inputs.rows)
  }

  // ---------------------------------------------------------------- carrying approvals over

  /** The last approved flag of an axis and source. */
  function LastApproved(flags: seq<Flag>, axis: string, source: Source): Option<Flag> {
    if flags == [] then None else
    var last := flags[|flags| - 1];
    if last.approved && last.axis == axis && last.source == source then Some(last)
    else LastApproved(flags[..|flags| - 1], axis, source)
  }

  function CarriedFlag(prior: seq<Flag>, f: Flag): Flag {
    var keep := LastApproved(prior, f.axis, f.source);
    if keep.Some? && keep.value.fingerprint == f.fingerprint
    then f.(approved := true, approvedBy := keep.value.approvedBy, approvedReason := keep.value.approvedReason)
    else f
  }

  function Carried(prior: seq<Flag>, flags: seq<Flag>): (r: seq<Flag>)
    ensures |r| == |flags| && forall i | 0 <= i < |r| :: r[i] == CarriedFlag(prior, flags[i])
  {
    if flags == [] then [] else [CarriedFlag(prior, flags[0])] + Carried(prior, flags[1..])
  }

  // ---------------------------------------------------------------- commands

  predicate Fresh(env: Env, check: PlanCheckResult, plan: string, rows: seq<AssumptionRow>) {
    check.planHash == env.planHash(plan) && check.assumptionsHash == Some(env.setHash(rows))
  }

  /** The first flag of an axis. */
  function FirstFlag(env: Env, flags: seq<Flag>, axis: string): (r: Option<nat>)
    ensures r.Some? ==> r.value < |flags| && Norm(env, flags[r.value].axis) == Norm(env, axis)
    ensures r.None? ==> forall f | f in flags :: Norm(env, f.axis) != Norm(env, axis)
  {
    if flags == [] then None
    else if Norm(env, flags[0].axis) == Norm(env, axis) then Some(0)
    else
      var r := FirstFlag(env, flags[1..], axis);
      if r.None? then None else Some(r.value + 1)
  }

  predicate Accepted(env: Env, checks: Checks, e: Event) {
    match e
    case Record(_, inputs) => UniqueVerdicts(env, inputs.verdicts) && UniqueRows(env, inputs.rows)
    case Approve(slug, axis, _, _, plan, rows) =>
      slug in checks && Fresh(env, checks[slug], plan, rows) && FirstFlag(env, checks[slug].flags, axis).Some?
  }

  function Recorded(env: Env, checks: Checks, slug: string, inputs: Inputs): PlanCheckResult {
    var flags := FlagsOf(env, inputs);
    PlanCheckResult(
      env.planHash(inputs.plan), Some(env.setHash(inputs.rows)), inputs.verdicts,
      if slug in checks && checks[slug].planHash == env.planHash(inputs.plan) then Carried(checks[slug].flags, flags)
      else flags)
  }

  function Approved(check: PlanCheckResult, i: nat, reason: Option<string>, signer: string): PlanCheckResult
    requires i < |check.flags|
  {
    if check.flags[i].approved then check else
    var approved := check.flags[i].(approved := true, approvedBy := Some(signer), approvedReason := reason);
    check.(flags := check.flags[i := approved])
  }

  function Apply(env: Env, checks: Checks, e: Event): Checks {
    if !Accepted(env, checks, e) then checks else
    match e
    case Record(slug, inputs) => checks[slug := Recorded(env, checks, slug, inputs)]
    case Approve(slug, axis, reason, signer, _, _) =>
      checks[slug := Approved(checks[slug], FirstFlag(env, checks[slug].flags, axis).value, reason, signer)]
  }

  function Run(env: Env, events: seq<Event>): Checks {
    if events == [] then map[] else Apply(env, Run(env, events[..|events| - 1]), events[|events| - 1])
  }

  /** The gate before development: a fresh check and no flag pending. */
  predicate GatePasses(env: Env, checks: Checks, slug: string, plan: string, rows: seq<AssumptionRow>) {
    slug in checks && Fresh(env, checks[slug], plan, rows) && forall f | f in checks[slug].flags :: f.approved
  }

  // ---------------------------------------------------------------- one flag for an axis

  lemma {:induction false} CheckerFlagsAreOfRows(env: Env, verdicts: seq<AxisVerdict>, rows: seq<AssumptionRow>)
    ensures forall f | f in CheckerFlags(env, verdicts, rows) ::
              exists row :: row in rows && f in CheckerFlag(env, verdicts, row)
  {
    if rows != [] {
      CheckerFlagsAreOfRows(env, verdicts, rows[1..]);
      assert rows[0] in rows;
    }
  }

  lemma {:induction false} CrossFlagsAreOfRows(env: Env, inputs: Inputs, rows: seq<AssumptionRow>)
    ensures forall f | f in CrossFlags(env, inputs, rows) ::
              exists row :: row in rows && f in CrossFlag(env, inputs, row)
  {
    if rows != [] {
      CrossFlagsAreOfRows(env, inputs, rows[1..]);
      assert rows[0] in rows;
    }
  }

  lemma {:induction false} RowsHaveFlags(env: Env, inputs: Inputs, rows: seq<AssumptionRow>, row: AssumptionRow)
    requires row in rows
    ensures forall f | f in CheckerFlag(env, inputs.verdicts, row) :: f in CheckerFlags(env, inputs.verdicts, rows)
    ensures forall f | f in CrossFlag(env, inputs, row) :: f in CrossFlags(env, inputs, rows)
  {
    if rows[0] != row { RowsHaveFlags(env, inputs, rows[1..], row); }
  }

  ghost predicate OneFlagPerAxis(env: Env, flags: seq<Flag>) {
    forall i, j | 0 <= i < j < |flags| :: Norm(env, flags[i].axis) != Norm(env, flags[j].axis)
  }

  lemma DifferAppend(env: Env, a: seq<Flag>, b: seq<Flag>)
    requires OneFlagPerAxis(env, a) && OneFlagPerAxis(env, b)
    requires forall f, g | f in a && g in b :: Norm(env, f.axis) != Norm(env, g.axis)
    ensures OneFlagPerAxis(env, a + b)
  {
    forall i, j | 0 <= i < j < |a + b| ensures Norm(env, (a + b)[i].axis) != Norm(env, (a + b)[j].axis) {
      if i < |a| <= j { assert a[i] in a && b[j - |a|] in b; }
    }
  }

  lemma HeadDiffers(env: Env, rows: seq<AssumptionRow>, f: Flag, g: Flag)
    requires rows != [] && UniqueRows(env, rows) && f.axis == rows[0].axis
    requires exists row :: row in rows[1..] && g.axis == row.axis
    ensures Norm(env, f.axis) != Norm(env, g.axis)
  {
    var k :| 0 <= k < |rows[1..]| && g.axis == rows[1..][k].axis;
    assert rows[1..][k] == rows[k + 1];
  }

  lemma {:induction false} CheckerFlagsDiffer(env: Env, verdicts: seq<AxisVerdict>, rows: seq<AssumptionRow>)
    requires UniqueRows(env, rows)
    ensures OneFlagPerAxis(env, CheckerFlags(env, verdicts, rows))
  {
    if rows != [] {
      CheckerFlagsDiffer(env, verdicts, rows[1..]);
      CheckerFlagsAreOfRows(env, verdicts, rows[1..]);
      forall f, g | f in CheckerFlag(env, verdicts, rows[0]) && g in CheckerFlags(env, verdicts, rows[1..])
        ensures Norm(env, f.axis) != Norm(env, g.axis)
      {
        HeadDiffers(env, rows, f, g);
      }
      DifferAppend(env, CheckerFlag(env, verdicts, rows[0]), CheckerFlags(env, verdicts, rows[1..]));
    }
  }

  lemma {:induction false} CrossFlagsDiffer(env: Env, inputs: Inputs, rows: seq<AssumptionRow>)
    requires UniqueRows(env, rows)
    ensures OneFlagPerAxis(env, CrossFlags(env, inputs, rows))
  {
    if rows != [] {
      CrossFlagsDiffer(env, inputs, rows[1..]);
      CrossFlagsAreOfRows(env, inputs, rows[1..]);
      forall f, g | f in CrossFlag(env, inputs, rows[0]) && g in CrossFlags(env, inputs, rows[1..])
        ensures Norm(env, f.axis) != Norm(env, g.axis)
      {
        HeadDiffers(env, rows, f, g);
      }
      DifferAppend(env, CrossFlag(env, inputs, rows[0]), CrossFlags(env, inputs, rows[1..]));
    }
  }

  /** Every axis has at most one flag, so an approval can only mean that flag. */
  lemma FlagsDiffer(env: Env, inputs: Inputs)
    requires UniqueRows(env, inputs.rows)
    ensures OneFlagPerAxis(env, FlagsOf(env, inputs))
  {
    var a, b := CheckerFlags(env, inputs.verdicts, inputs.rows), CrossFlags(env, inputs, inputs.rows);
    CheckerFlagsDiffer(env, inputs.verdicts, inputs.rows);
    CrossFlagsDiffer(env, inputs, inputs.rows);
    forall f, g | f in a && g in b ensures Norm(env, f.axis) != Norm(env, g.axis) {
      CrossAndCheckerDiffer(env, inputs, f, g);
    }
    DifferAppend(env, a, b);
  }

  lemma CrossAndCheckerDiffer(env: Env, inputs: Inputs, f: Flag, g: Flag)
    requires f in CheckerFlags(env, inputs.verdicts, inputs.rows) && g in CrossFlags(env, inputs, inputs.rows)
    ensures Norm(env, f.axis) != Norm(env, g.axis)
  {
    CheckerFlagsAreOfRows(env, inputs.verdicts, inputs.rows);
    CrossFlagsAreOfRows(env, inputs, inputs.rows);
    var r :| r in inputs.rows && f in CheckerFlag(env, inputs.verdicts, r);
    var s :| s in inputs.rows && g in CrossFlag(env, inputs, s);
    FlagKindsDiffer(env, inputs, r, s, f, g);
  }

  lemma FlagKindsDiffer(env: Env, inputs: Inputs, r: AssumptionRow, s: AssumptionRow, f: Flag, g: Flag)
    requires f in CheckerFlag(env, inputs.verdicts, r) && g in CrossFlag(env, inputs, s)
    ensures Norm(env, f.axis) != Norm(env, g.axis)
  {
    SameVerdict(env, inputs.verdicts, r.axis, s.axis);
  }

  lemma {:induction false} SameVerdict(env: Env, verdicts: seq<AxisVerdict>, a: string, b: string)
    ensures Norm(env, a) == Norm(env, b) ==> VerdictFor(env, verdicts, a) == VerdictFor(env, verdicts, b)
  {
    if verdicts != [] { SameVerdict(env, verdicts[..|verdicts| - 1], a, b); }
  }
}
