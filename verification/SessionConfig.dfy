/** Receipts always name configured fixtures, and adb can print every mapping. */
module SessionConfig {
  import opened Basics
  import opened SessionProtocol
  import opened SessionSafety
  import opened FixtureListing
  import opened Text

  /** The endpoints of a fixture and the serial have been validated: no white space in them. */
  ghost predicate Sealed(t: Target) {
    Solid(t.serial) && forall id | id in t.fixtures :: Solid(t.fixtures[id].local) && Solid(t.fixtures[id].remote)
  }

  ghost predicate Fits(t: Target, resources: seq<Receipt>) {
    forall r | r in resources :: r.fixtureId in t.fixtures && t.fixtures[r.fixtureId] == r.fixture
  }

  ghost predicate JournalsFit(targets: map<SessionId, Target>, disk: map<SessionId, Journal>) {
    forall s | s in disk :: s in targets && Fits(targets[s], disk[s].resources)
  }

  ghost predicate MemoriesFit(targets: map<SessionId, Target>, procs: map<SessionId, Process>) {
    forall s | s in procs :: s in targets && Fits(targets[s], procs[s].memory.resources)
  }

  ghost predicate TablePrintable(table: map<Endpoint, Entry>) {
    Coherent(table) && forall k | k in table :: Printable(table[k].mapping)
  }

  ghost predicate Presentable(sys: System) {
    && (forall s | s in sys.host.targets :: Sealed(sys.host.targets[s]))
    && JournalsFit(sys.host.targets, sys.host.disk)
    && MemoriesFit(sys.host.targets, sys.procs)
    && TablePrintable(sys.host.table)
  }

  lemma WriteFits(sys: System, s: SessionId, j: Journal)
    requires Presentable(sys) && s in sys.procs && s in sys.host.targets
    requires Resume(sys.host.targets[s], sys.procs[s], j).Some?
    ensures Fits(sys.host.targets[s], j.resources)
  {
    var t, p := sys.host.targets[s], sys.procs[s];
    if p.pc.CreateAcked? || p.pc.Exact? || p.pc.Gone? {
      assert forall n | 0 <= n < |j.resources| :: p.memory.resources[n] in p.memory.resources;
    }
  }

  lemma WriteKeepsConfig(sys: System, s: SessionId, j: Journal, fate: Fate)
    requires Presentable(sys) && s in sys.procs && s in sys.host.targets
    ensures Presentable(ApplyWrite(sys, s, sys.procs[s], j, fate))
  {
    var resumed := Resume(sys.host.targets[s], sys.procs[s], j);
    if resumed.Some? {
      WriteFits(sys, s, j);
      assert resumed.value.memory == j;
      OneMoreFits(sys.host.targets, sys.procs, s, resumed.value);
      OneMoreFits(sys.host.targets, sys.procs, s, resumed.value.(pc := Idle));
      OneJournalFits(sys.host.targets, sys.host.disk, s, j);
    }
  }

  lemma OneMoreFits(targets: map<SessionId, Target>, procs: map<SessionId, Process>, s: SessionId, p: Process)
    requires MemoriesFit(targets, procs) && s in targets && Fits(targets[s], p.memory.resources)
    ensures MemoriesFit(targets, procs[s := p])
  {
  }

  lemma OneJournalFits(targets: map<SessionId, Target>, disk: map<SessionId, Journal>, s: SessionId, j: Journal)
    requires JournalsFit(targets, disk) && s in targets && Fits(targets[s], j.resources)
    ensures JournalsFit(targets, disk[s := j])
  {
  }

  lemma CreatedMappingPrintable(sys: System, s: SessionId, i: nat, e: Entry)
    requires Presentable(sys) && s in sys.host.targets && i < |Recorded(sys.host, s).resources|
    requires e.mapping == MappingOf(sys.host.targets[s].serial, Recorded(sys.host, s).resources[i].fixture)
    ensures var f := Recorded(sys.host, s).resources[i].fixture;
            TablePrintable(sys.host.table[Key(sys.host.targets[s].serial, f) := e])
  {
    assert Recorded(sys.host, s).resources[i] in Recorded(sys.host, s).resources;
    assert Sealed(sys.host.targets[s]);
  }

  /** A step that leaves the journals alone and at most ends processes or moves their pc. */
  ghost predicate Moves(sys: System, sys': System) {
    && sys'.host.targets == sys.host.targets && sys'.host.disk == sys.host.disk
    && forall s | s in sys'.procs :: s in sys.procs && sys'.procs[s].memory.resources == sys.procs[s].memory.resources
  }

  lemma PreflightMoves(sys: System, s: SessionId, ref: string, id: string)
    requires s in sys.procs && s in sys.host.targets
    ensures var sys' := ApplyPreflight(sys, s, sys.procs[s], ref, id);
            Moves(sys, sys') && sys'.host.table == sys.host.table
  {
  }

  lemma InspectMoves(sys: System, s: SessionId, i: nat)
    requires s in sys.procs && s in sys.host.targets
    ensures var sys' := ApplyInspect(sys, s, sys.procs[s], i); Moves(sys, sys') && sys'.host.table == sys.host.table
  {
    PcMoves(sys, s, sys.wire, Exact(i));
    PcMoves(sys, s, sys.wire, Gone(i));
  }

  lemma ListingsMove(sys: System, s: SessionId, step: Step)
    requires s in sys.procs && s in sys.host.targets
    requires step.Preflight? || step.Inspect? || step.Abort?
    ensures var sys' := ApplyOwn(sys, s, sys.procs[s], step);
            Moves(sys, sys') && sys'.host.table == sys.host.table
  {
    match step
    case Preflight(ref, id) => PreflightMoves(sys, s, ref, id);
    case Inspect(i) => InspectMoves(sys, s, i);
    case Abort =>
  }

  lemma PcMoves(sys: System, s: SessionId, wire: set<Command>, pc: Pc)
    requires s in sys.procs
    ensures Moves(sys, SetPc(sys.(wire := wire), s, sys.procs[s], pc))
  {
  }

  lemma IssueMoves(sys: System, s: SessionId)
    requires s in sys.procs && s in sys.host.targets
    ensures var sys' := ApplyIssue(sys, s, sys.procs[s]); Moves(sys, sys') && sys'.host.table == sys.host.table
  {
    match sys.procs[s].pc
    case CreateReady(i) => PcMoves(sys, s, sys.wire + {Command(Create, Tag(s, i))}, Creating(i, None));
    case RemoveReady(i) => PcMoves(sys, s, sys.wire + {Command(Remove, Tag(s, i))}, Removing(i, None));
    case _ =>
  }

  lemma ReturnMoves(sys: System, s: SessionId, ok: bool)
    requires s in sys.procs && s in sys.host.targets
    ensures var sys' := ApplyReturn(sys, s, sys.procs[s], ok); Moves(sys, sys') && sys'.host.table == sys.host.table
  {
    match sys.procs[s].pc
    case Creating(i, _) => PcMoves(sys, s, sys.wire, if ok then CreateAcked(i) else Idle);
    case Removing(i, _) => PcMoves(sys, s, sys.wire, if ok then Removed(i) else Idle);
    case _ =>
  }

  lemma CallsMove(sys: System, s: SessionId, step: Step)
    requires s in sys.procs && s in sys.host.targets
    requires step.Issue? || step.Return?
    ensures var sys' := ApplyOwn(sys, s, sys.procs[s], step);
            Moves(sys, sys') && sys'.host.table == sys.host.table
  {
    if step.Issue? { IssueMoves(sys, s); } else { ReturnMoves(sys, s, step.ok); }
  }

  lemma AppCallsMove(sys: System, s: SessionId, step: Step)
    requires s in sys.procs && s in sys.host.targets
    requires step.BeginLaunch? || step.Start? || step.ForceStop? || step.ProbeStopped?
    ensures var sys' := ApplyOwn(sys, s, sys.procs[s], step);
            Moves(sys, sys') && sys'.host.table == sys.host.table
  {
    if step.BeginLaunch? {
      LaunchMoves(sys, s);
    } else if step.Start? {
      StartMoves(sys, s, step.effect);
    }
  }

  lemma LaunchMoves(sys: System, s: SessionId)
    requires s in sys.procs
    ensures var sys' := ApplyBeginLaunch(sys, s, sys.procs[s]); Moves(sys, sys') && sys'.host.table == sys.host.table
  {
  }

  lemma StartMoves(sys: System, s: SessionId, effect: bool)
    requires s in sys.procs && s in sys.host.targets
    ensures var sys' := ApplyStart(sys, s, sys.procs[s], effect);
            Moves(sys, sys') && sys'.host.table == sys.host.table
  {
  }

  lemma LeasesMove(sys: System, s: SessionId, step: Step)
    requires s in sys.procs && s in sys.host.targets
    requires step.Claim? || step.Close? || step.Crash?
    ensures var sys' := ApplyOwn(sys, s, sys.procs[s], step);
            Moves(sys, sys') && sys'.host.table == sys.host.table
  {
  }

  lemma LandMoves(sys: System, c: Command)
    ensures Moves(sys, ApplyLand(sys, c))
  {
    LandsQuietly(sys, c);
  }

  lemma LandKeepsConfig(sys: System, c: Command)
    requires Presentable(sys)
    ensures Presentable(ApplyLand(sys, c))
  {
    LandMoves(sys, c);
    var s, i := c.tag.session, c.tag.index;
    if s in sys.host.targets && i < |Recorded(sys.host, s).resources| {
      CreatedMappingPrintable(sys, s, i,
        Entry(MappingOf(sys.host.targets[s].serial, Recorded(sys.host, s).resources[i].fixture), Some(c.tag)));
    }
  }

  lemma OwnStepKeepsConfig(sys: System, s: SessionId, step: Step)
    requires Presentable(sys) && s in sys.procs && s in sys.host.targets
    ensures Presentable(ApplyOwn(sys, s, sys.procs[s], step))
  {
    if step.Write? {
      WriteKeepsConfig(sys, s, step.journal, step.fate);
    } else if step.Preflight? || step.Inspect? || step.Abort? {
      ListingsMove(sys, s, step);
    } else if step.Issue? || step.Return? {
      CallsMove(sys, s, step);
    } else if step.Claim? || step.Close? || step.Crash? {
      LeasesMove(sys, s, step);
    } else {
      AppCallsMove(sys, s, step);
    }
  }

  lemma StepKeepsConfig(sys: System, ev: Event)
    requires Presentable(sys)
    ensures Presentable(Apply(sys, ev))
  {
    match ev
    case Own(s, step) => if s in sys.host.targets && s in sys.procs { OwnStepKeepsConfig(sys, s, step); }
    case Restart(s) =>
    case Land(c) => LandKeepsConfig(sys, c);
    case Lose(c) =>
    case AppExit(app) =>
    case Vanish(k) =>
  }

  lemma {:induction false} EveryRunKeepsConfig(sys: System, evs: seq<Event>)
    requires Presentable(sys)
    ensures Presentable(Run(sys, evs))
    decreases |evs|
  {
    if evs != [] {
      EveryRunKeepsConfig(sys, evs[..|evs| - 1]);
      StepKeepsConfig(Run(sys, evs[..|evs| - 1]), evs[|evs| - 1]);
    }
  }
}
