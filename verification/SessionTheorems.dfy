/** What holds in every run of any number of owners. */
module SessionTheorems {
  import opened Basics
  import opened SessionProtocol
  import opened SessionSafety

  lemma {:induction false} EveryRunKeepsApps(sys: System, evs: seq<Event>)
    requires Init(sys)
    ensures AppInv(Run(sys, evs))
  {
    if evs != [] {
      EveryRunKeepsApps(sys, evs[..|evs| - 1]);
      StepKeepsApps(Run(sys, evs[..|evs| - 1]), evs[|evs| - 1]);
    }
  }

  lemma {:induction false} EveryClosedRunKeepsMappings(sys: System, evs: seq<Event>)
    requires Init(sys) && ClosedWorld(evs)
    ensures MappingInv(Run(sys, evs))
  {
    if evs != [] {
      EveryClosedRunKeepsMappings(sys, evs[..|evs| - 1]);
      StepKeepsMappings(Run(sys, evs[..|evs| - 1]), evs[|evs| - 1]);
    }
  }

  // ---------------------------------------------------------------- ownership

  /**
   A removal that is on its way to the adb server, however late it arrives and whoever crashed in
   between, finds the mapping that the very receipt it was issued for created.
   */
  lemma RemovalsHitOnlyOwnMappings(sys: System, evs: seq<Event>, t: Tag)
    requires Init(sys) && ClosedWorld(evs)
    requires Command(Remove, t) in Run(sys, evs).wire
    ensures var now := Run(sys, evs); var next := Apply(now, Land(Command(Remove, t)));
            exists k ::
              && k in now.host.table && now.host.table[k].owner == Some(t)
              && next.host.table == now.host.table - {k}
  {
    var now := Run(sys, evs);
    EveryClosedRunKeepsMappings(sys, evs);
    LandingHitsOwnMapping(now, Command(Remove, t));
    var k := ReceiptKey(now.host, t.session, t.index);
    assert k in now.host.table && now.host.table[k].owner == Some(t);
  }

  /** The only event that takes a mapping away, or replaces it, is its own session's removal of it. */
  lemma OnlyItsOwnSessionRemovesAMapping(sys: System, evs: seq<Event>, ev: Event, k: Endpoint)
    requires Init(sys) && ClosedWorld(evs) && !ev.Vanish?
    requires k in Run(sys, evs).host.table
    ensures var now := Run(sys, evs); var next := Apply(now, ev);
            && ((k in next.host.table && next.host.table[k] == now.host.table[k])
                || (now.host.table[k].owner.Some? && ev == Land(Command(Remove, now.host.table[k].owner.value))
                    && Command(Remove, now.host.table[k].owner.value) in now.wire))
  {
    var now := Run(sys, evs);
    EveryClosedRunKeepsMappings(sys, evs);
    match ev
    case Land(c) =>
      if c in now.wire {
        LandingHitsOwnMapping(now, c);
      }
    case Own(s, step) =>
      if s in now.host.targets && s in now.procs { OwnStepsLeaveTheTable(now, s, step); }
    case _ =>
  }

  lemma OwnStepsLeaveTheTable(sys: System, s: SessionId, step: Step)
    requires s in sys.host.targets
    ensures s in sys.procs ==> ApplyOwn(sys, s, sys.procs[s], step).host.table == sys.host.table
  {
  }

  // ---------------------------------------------------------------- write-ahead

  /** At every point of every run a mapping made by a session is covered by a persisted receipt. */
  lemma MappingsAreJournaled(sys: System, evs: seq<Event>, k: Endpoint)
    requires Init(sys) && ClosedWorld(evs)
    requires k in Run(sys, evs).host.table && Run(sys, evs).host.table[k].owner.Some?
    ensures var h := Run(sys, evs).host; var t := h.table[k].owner.value;
            && t.session in h.disk && t.session in h.targets && t.index < |h.disk[t.session].resources|
            && var r := h.disk[t.session].resources[t.index];
            && r.state != Cleaned
            && Key(h.targets[t.session].serial, r.fixture) == k
            && h.table[k].mapping == Mapping(h.targets[t.session].serial, r.fixture.local, r.fixture.remote)
  {
    EveryClosedRunKeepsMappings(sys, evs);
    assert EntryOk(Run(sys, evs).host, Run(sys, evs).procs, k);
  }

  /** An app that a session started and that still runs is owed a stop by that session's journal. */
  lemma RunningAppsAreJournaled(sys: System, evs: seq<Event>, app: App, s: SessionId)
    requires Init(sys)
    requires s in Launchers(Run(sys, evs).running, app)
    ensures var h := Run(sys, evs).host;
            && s in h.targets && app == AppOf(h.targets[s])
            && s in h.disk && h.disk[s].appCleanupRequired
  {
    EveryRunKeepsApps(sys, evs);
    assert LauncherOk(Run(sys, evs).host, app, s);
  }

  // ---------------------------------------------------------------- receipts in doubt

  /** The receipt the operation in progress is about. */
  function Subject(pc: Pc): Option<nat> {
    match pc
    case CreateReady(i) => Some(i)
    case Creating(i, _) => Some(i)
    case CreateAcked(i) => Some(i)
    case Exact(i) => Some(i)
    case RemoveReady(i) => Some(i)
    case Removing(i, _) => Some(i)
    case Removed(i) => Some(i)
    case Gone(i) => Some(i)
    case _ => None
  }

  /** Receipt `i` says an effect was begun, and no operation in progress will say how it ended. */
  ghost predicate InDoubt(sys: System, s: SessionId, i: nat, state: ReceiptState) {
    && (state == CreateStarted || state == CleanupStarted)
    && s in sys.host.disk && i < |sys.host.disk[s].resources| && sys.host.disk[s].resources[i].state == state
    && (s in sys.procs ==> MemState(sys.procs[s], i, state) && Subject(sys.procs[s].pc) != Some(i))
  }

  ghost predicate NoNewCommand(sys: System, sys': System, s: SessionId, i: nat) {
    forall op :: OnWire(sys'.wire, op, s, i) ==> OnWire(sys.wire, op, s, i)
  }

  /** A crash puts every receipt whose effect was begun in doubt. */
  lemma CrashLeavesDoubt(sys: System, s: SessionId, i: nat)
    requires s in sys.host.targets && s in sys.procs && s in sys.host.disk && i < |sys.host.disk[s].resources|
    requires var state := sys.host.disk[s].resources[i].state; state == CreateStarted || state == CleanupStarted
    ensures InDoubt(Apply(sys, Own(s, Crash)), s, i, sys.host.disk[s].resources[i].state)
  {
  }

  lemma ResumeLeavesDoubt(t: Target, p: Process, j: Journal, i: nat, state: ReceiptState)
    requires (state == CreateStarted || state == CleanupStarted) && MemState(p, i, state) && Subject(p.pc) != Some(i)
    requires Resume(t, p, j).Some?
    ensures var q := Resume(t, p, j).value;
            MemState(q, i, state) && Subject(q.pc) != Some(i) && i < |j.resources| && j.resources[i].state == state
  {
  }

  lemma WriteLeavesDoubt(sys: System, s: SessionId, i: nat, state: ReceiptState, j: Journal, fate: Fate)
    requires InDoubt(sys, s, i, state) && s in sys.procs && s in sys.host.targets
    ensures InDoubt(ApplyWrite(sys, s, sys.procs[s], j, fate), s, i, state)
  {
    if Resume(sys.host.targets[s], sys.procs[s], j).Some? {
      ResumeLeavesDoubt(sys.host.targets[s], sys.procs[s], j, i, state);
    }
  }

  /** A step that moves one process on, to no operation on receipt `i`. */
  lemma PcLeavesDoubt(sys: System, s: SessionId, i: nat, state: ReceiptState, wire: set<Command>, pc: Pc)
    requires InDoubt(sys, s, i, state) && s in sys.procs && Subject(pc) != Some(i)
    ensures InDoubt(SetPc(sys.(wire := wire), s, sys.procs[s], pc), s, i, state)
  {
  }

  lemma IssueLeavesDoubt(sys: System, s: SessionId, i: nat, state: ReceiptState)
    requires InDoubt(sys, s, i, state) && s in sys.procs && s in sys.host.targets
    ensures InDoubt(ApplyIssue(sys, s, sys.procs[s]), s, i, state)
            && NoNewCommand(sys, ApplyIssue(sys, s, sys.procs[s]), s, i)
  {
    match sys.procs[s].pc
    case CreateReady(n) => PcLeavesDoubt(sys, s, i, state, sys.wire + {Command(Create, Tag(s, n))}, Creating(n, None));
    case RemoveReady(n) => PcLeavesDoubt(sys, s, i, state, sys.wire + {Command(Remove, Tag(s, n))}, Removing(n, None));
    case _ =>
  }

  lemma ReturnLeavesDoubt(sys: System, s: SessionId, i: nat, state: ReceiptState, ok: bool)
    requires InDoubt(sys, s, i, state) && s in sys.procs && s in sys.host.targets
    ensures InDoubt(ApplyReturn(sys, s, sys.procs[s], ok), s, i, state)
            && ApplyReturn(sys, s, sys.procs[s], ok).wire == sys.wire
  {
  }

  lemma CallLeavesDoubt(sys: System, s: SessionId, i: nat, state: ReceiptState, step: Step)
    requires InDoubt(sys, s, i, state) && s in sys.procs && s in sys.host.targets
    requires step.Issue? || step.Return? || step.Inspect? || step.Preflight? || step.Abort?
    ensures InDoubt(ApplyOwn(sys, s, sys.procs[s], step), s, i, state)
    ensures NoNewCommand(sys, ApplyOwn(sys, s, sys.procs[s], step), s, i)
  {
    match step
    case Issue => IssueLeavesDoubt(sys, s, i, state);
    case Return(ok) => ReturnLeavesDoubt(sys, s, i, state, ok);
    case _ =>
  }

  lemma LeaseStepLeavesDoubt(sys: System, s: SessionId, i: nat, state: ReceiptState, step: Step)
    requires InDoubt(sys, s, i, state) && s in sys.procs && s in sys.host.targets
    requires step.Claim? || step.Close? || step.Crash?
    ensures InDoubt(ApplyOwn(sys, s, sys.procs[s], step), s, i, state)
    ensures ApplyOwn(sys, s, sys.procs[s], step).wire == sys.wire
  {
  }

  lemma AppStepLeavesDoubt(sys: System, s: SessionId, i: nat, state: ReceiptState, step: Step)
    requires InDoubt(sys, s, i, state) && s in sys.procs && s in sys.host.targets
    requires step.Claim? || step.BeginLaunch? || step.Start? || step.ForceStop? || step.ProbeStopped? || step.Close?
             || step.Crash?
    ensures InDoubt(ApplyOwn(sys, s, sys.procs[s], step), s, i, state)
    ensures ApplyOwn(sys, s, sys.procs[s], step).wire == sys.wire
  {
    if step.Claim? || step.Close? || step.Crash? { LeaseStepLeavesDoubt(sys, s, i, state, step); }
  }

  lemma OthersLeaveDoubt(sys: System, s: SessionId, i: nat, state: ReceiptState, s': SessionId, step: Step)
    requires InDoubt(sys, s, i, state) && s' in sys.procs && s' in sys.host.targets && s' != s
    ensures InDoubt(ApplyOwn(sys, s', sys.procs[s'], step), s, i, state)
    ensures NoNewCommand(sys, ApplyOwn(sys, s', sys.procs[s'], step), s, i)
  {
    OtherProcessesPass(sys, s, s', step);
    OthersSendTheirOwn(sys, s', step);
  }

  /** A process only sends commands of its own. */
  lemma OthersSendTheirOwn(sys: System, s: SessionId, step: Step)
    requires s in sys.procs && s in sys.host.targets
    ensures forall c | c in ApplyOwn(sys, s, sys.procs[s], step).wire :: c in sys.wire || c.tag.session == s
  {
  }

  lemma LandLeavesDoubt(sys: System, s: SessionId, i: nat, state: ReceiptState, c: Command)
    requires InDoubt(sys, s, i, state)
    ensures InDoubt(ApplyLand(sys, c), s, i, state) && NoNewCommand(sys, ApplyLand(sys, c), s, i)
  {
    LandsQuietly(sys, c);
  }

  lemma StepLeavesDoubt(sys: System, s: SessionId, i: nat, state: ReceiptState, ev: Event)
    requires InDoubt(sys, s, i, state)
    ensures InDoubt(Apply(sys, ev), s, i, state) && NoNewCommand(sys, Apply(sys, ev), s, i)
  {
    match ev
    case Own(s', step) =>
      if s' in sys.procs && s' in sys.host.targets {
        if s' != s {
          OthersLeaveDoubt(sys, s, i, state, s', step);
        } else if step.Write? {
          WriteLeavesDoubt(sys, s, i, state, step.journal, step.fate);
        } else if step.Issue? || step.Return? || step.Inspect? || step.Preflight? || step.Abort? {
          CallLeavesDoubt(sys, s, i, state, step);
        } else {
          AppStepLeavesDoubt(sys, s, i, state, step);
        }
      }
    case Land(c) => LandLeavesDoubt(sys, s, i, state, c);
    case _ =>
  }

  /**
   A receipt in doubt stays in doubt: through any number of restarts, crashes and later operations
   it never becomes `Created` or `Cleaned` and no further command is ever issued for it.
   */
  lemma {:induction false} DoubtIsAbsorbing(sys: System, evs: seq<Event>, s: SessionId, i: nat, state: ReceiptState)
    requires InDoubt(sys, s, i, state)
    ensures InDoubt(Run(sys, evs), s, i, state) && NoNewCommand(sys, Run(sys, evs), s, i)
    decreases |evs|
  {
    if evs != [] {
      var before := evs[..|evs| - 1];
      DoubtIsAbsorbing(sys, before, s, i, state);
      StepLeavesDoubt(Run(sys, before), s, i, state, evs[|evs| - 1]);
    }
  }

  // ---------------------------------------------------------------- a clean end

  /** What `shutdown` has seen when it returns true. */
  ghost predicate AllClean(sys: System, s: SessionId) {
    && s in sys.procs && !sys.procs[s].memory.appCleanupRequired
    && (forall r | r in Recorded(sys.host, s).resources :: r.state == Cleaned)
  }

  /** Nothing of session `s` is on the adb server, on its way there, or running on a device. */
  ghost predicate NothingLeft(sys: System, s: SessionId) {
    && (forall k | k in sys.host.table && sys.host.table[k].owner.Some? :: sys.host.table[k].owner.value.session != s)
    && (forall c | c in sys.wire :: c.tag.session != s)
    && (forall app | app in sys.running :: s !in sys.running[app])
  }

  /** Once everything is recorded as clean, nothing of the session is left anywhere, not even in flight. */
  lemma CleanSessionsLeaveNothing(sys: System, evs: seq<Event>, s: SessionId)
    requires Init(sys) && ClosedWorld(evs) && AllClean(Run(sys, evs), s)
    ensures NothingLeft(Run(sys, evs), s)
  {
    var now := Run(sys, evs);
    EveryRunKeepsApps(sys, evs);
    EveryClosedRunKeepsMappings(sys, evs);
    forall k | k in now.host.table && now.host.table[k].owner.Some? ensures now.host.table[k].owner.value.session != s {
      assert EntryOk(now.host, now.procs, k);
    }
    forall c | c in now.wire ensures c.tag.session != s {
      assert WireOk(now.host, now.procs, c);
    }
    forall app | app in now.running ensures s !in now.running[app] {
      assert s in now.running[app] ==> LauncherOk(now.host, app, s);
      assert AppOk(now.host, now.running, now.leases, s, now.procs[s]);
    }
  }

  // ---------------------------------------------------------------- the app

  /** `o` launched the app, its process still answers for it, and it has not shut down. */
  ghost predicate LiveOwner(sys: System, o: SessionId) {
    o in sys.procs && sys.procs[o].active && !sys.procs[o].pc.Closed?
  }

  /** A session that believes its app is active holds the app's lease, and nobody else does. */
  lemma LiveOwnersHoldTheLease(sys: System, evs: seq<Event>, o: SessionId)
    requires Init(sys) && LiveOwner(Run(sys, evs), o)
    ensures var now := Run(sys, evs);
            && o in now.host.targets && AppOf(now.host.targets[o]) in now.leases
            && now.leases[AppOf(now.host.targets[o])] == o
  {
    EveryRunKeepsApps(sys, evs);
    var now := Run(sys, evs);
    assert AppOk(now.host, now.running, now.leases, o, now.procs[o]);
  }

  /**
   Whenever a force-stop of `s` ends a running app, `s` holds that app's lease, and no other session that
   launched the app is still live.
   */
  lemma ForceStopSparesLiveOwners(sys: System, evs: seq<Event>, s: SessionId, step: Step, app: App, o: SessionId)
    requires Init(sys)
    requires o in Launchers(Run(sys, evs).running, app)
             && o !in Launchers(Apply(Run(sys, evs), Own(s, step)).running, app)
    ensures var now := Run(sys, evs);
            && s in now.host.targets && app == AppOf(now.host.targets[s])
            && app in now.leases && now.leases[app] == s
            && (o != s ==> !LiveOwner(now, o))
  {
    var now := Run(sys, evs);
    EveryRunKeepsApps(sys, evs);
    StopsNeedALease(now, s, step, app);
    assert LauncherOk(now.host, app, o);
    assert s in now.procs ==> AppOk(now.host, now.running, now.leases, s, now.procs[s]);
    assert o in now.procs ==> AppOk(now.host, now.running, now.leases, o, now.procs[o]);
  }

  lemma StopsNeedALease(sys: System, s: SessionId, step: Step, app: App)
    requires !(Launchers(sys.running, app) <= Launchers(Apply(sys, Own(s, step)).running, app))
    ensures s in sys.host.targets && s in sys.procs && sys.procs[s].leased && app == AppOf(sys.host.targets[s])
  {
  }

  /** A session's journal stops owing a stop only when the app that this session started does not run any more. */
  lemma DebtEndsOnlyWithTheApp(sys: System, evs: seq<Event>, s: SessionId, ev: Event)
    requires Init(sys) && s in Run(sys, evs).host.disk && Run(sys, evs).host.disk[s].appCleanupRequired
    requires !Recorded(Apply(Run(sys, evs), ev).host, s).appCleanupRequired
    ensures var now := Run(sys, evs);
            s in now.host.targets && s !in Launchers(now.running, AppOf(now.host.targets[s]))
  {
    var now := Run(sys, evs);
    EveryRunKeepsApps(sys, evs);
    assert s in now.procs ==> AppOk(now.host, now.running, now.leases, s, now.procs[s]);
    OnlyOwnWritesChangeAJournal(now, s, ev);
  }

  lemma OnlyOwnWritesChangeAJournal(sys: System, s: SessionId, ev: Event)
    requires Recorded(Apply(sys, ev).host, s) != Recorded(sys.host, s)
    ensures s in sys.host.targets && s in sys.procs && ev.Own? && ev.s == s && ev.step.Write?
  {
  }

  // ---------------------------------------------------------------- what doubt and a long journal cost

  lemma RunSnoc(sys: System, evs: seq<Event>, ev: Event)
    ensures Run(sys, evs + [ev]) == Apply(Run(sys, evs), ev)
  {
    assert (evs + [ev])[..|evs|] == evs;
  }

  lemma {:induction false} RunsCompose(sys: System, xs: seq<Event>, ys: seq<Event>)
    ensures Run(sys, xs + ys) == Run(Run(sys, xs), ys)
    decreases |ys|
  {
    if ys == [] {
      assert xs + ys == xs;
    } else {
      var front, last := ys[..|ys| - 1], ys[|ys| - 1];
      assert xs + ys == (xs + front) + [last] && ys == front + [last];
      RunsCompose(sys, xs, front);
      RunSnoc(sys, xs + front, last);
      RunSnoc(Run(sys, xs), front, last);
    }
  }

  lemma ClosedPrefix(evs: seq<Event>, more: seq<Event>)
    requires ClosedWorld(evs) && ClosedWorld(more)
    ensures ClosedWorld(evs + more)
  {
  }

  /** A mapping whose receipt is in doubt, with no removal in flight, is never removed again. */
  lemma {:induction false} DoubtfulMappingsStay(
    sys: System, evs: seq<Event>, more: seq<Event>, k: Endpoint, state: ReceiptState)
    requires Init(sys) && ClosedWorld(evs) && ClosedWorld(more)
    requires k in Run(sys, evs).host.table && Run(sys, evs).host.table[k].owner.Some?
    requires var t := Run(sys, evs).host.table[k].owner.value;
             InDoubt(Run(sys, evs), t.session, t.index, state) && Command(Remove, t) !in Run(sys, evs).wire
    ensures var last := Run(Run(sys, evs), more);
            k in last.host.table && last.host.table[k] == Run(sys, evs).host.table[k]
    decreases |more|
  {
    if more != [] {
      var now := Run(sys, evs);
      var t := now.host.table[k].owner.value;
      var before, ev := more[..|more| - 1], more[|more| - 1];
      DoubtfulMappingsStay(sys, evs, before, k, state);
      DoubtIsAbsorbing(now, before, t.session, t.index, state);
      assert !OnWire(Run(now, before).wire, Remove, t.session, t.index);
      RunsCompose(sys, evs, before);
      ClosedPrefix(evs, before);
      OnlyItsOwnSessionRemovesAMapping(sys, evs + before, ev, k);
    }
  }

  /** A session with no process and a journal too long to load never gets a process again. */
  lemma {:induction false} OversizedJournalIsDead(sys: System, evs: seq<Event>, s: SessionId)
    requires s !in sys.procs && s in sys.host.disk && |sys.host.disk[s].resources| > MAX_JOURNAL_RECEIPTS
    ensures s !in Run(sys, evs).procs && s in Run(sys, evs).host.disk
            && Run(sys, evs).host.disk[s] == sys.host.disk[s]
    decreases |evs|
  {
    if evs != [] {
      var before := Run(sys, evs[..|evs| - 1]);
      OversizedJournalIsDead(sys, evs[..|evs| - 1], s);
      DeadSessionsStayDead(before, s, evs[|evs| - 1]);
    }
  }

  lemma DeadSessionsStayDead(sys: System, s: SessionId, ev: Event)
    requires s !in sys.procs && (ev == Restart(s) ==> |Recorded(sys.host, s).resources| > MAX_JOURNAL_RECEIPTS)
    ensures s !in Apply(sys, ev).procs && Recorded(Apply(sys, ev).host, s) == Recorded(sys.host, s)
    ensures s in sys.host.disk <==> s in Apply(sys, ev).host.disk
  {
    match ev
    case Own(s', step) => if s' in sys.procs && s' in sys.host.targets { OtherProcessesPass(sys, s, s', step); }
    case Land(c) =>
    case _ =>
  }

  ghost predicate Untouched(sys: System, sys': System, s: SessionId) {
    && (s in sys'.procs <==> s in sys.procs) && (s in sys.procs ==> sys'.procs[s] == sys.procs[s])
    && (s in sys'.host.disk <==> s in sys.host.disk) && Recorded(sys'.host, s) == Recorded(sys.host, s)
  }

  lemma OtherAppStepsPass(sys: System, s: SessionId, s': SessionId, step: Step)
    requires s != s' && s' in sys.procs && s' in sys.host.targets
    requires step.Claim? || step.BeginLaunch? || step.Start? || step.ForceStop? || step.ProbeStopped? || step.Close?
             || step.Crash?
    ensures Untouched(sys, ApplyOwn(sys, s', sys.procs[s'], step), s)
  {
  }

  lemma OtherProcessesPass(sys: System, s: SessionId, s': SessionId, step: Step)
    requires s != s' && s' in sys.procs && s' in sys.host.targets
    ensures Untouched(sys, ApplyOwn(sys, s', sys.procs[s'], step), s)
  {
    match step
    case Preflight(ref, id) =>
    case Inspect(i) =>
    case Write(j, fate) =>
    case Issue =>
    case Return(ok) =>
    case Abort =>
    case _ => OtherAppStepsPass(sys, s, s', step);
  }

  // ---------------------------------------------------------------- why the world must be closed

  /** One more event of a closed run that has brought `sys` to `now`. */
  lemma Next(sys: System, evs: seq<Event>, now: System, ev: Event, next: System) returns (longer: seq<Event>)
    requires ClosedWorld(evs) && Run(sys, evs) == now && Apply(now, ev) == next && !ev.Vanish?
    ensures ClosedWorld(longer) && Run(sys, longer) == next
  {
    longer := evs + [ev];
    assert longer[..|longer| - 1] == evs;
  }

  function OneReceipt(ref: string, id: string, f: Fixture, state: ReceiptState): Journal {
    Journal([Receipt(ref, id, f, state)], true, false)
  }

  lemma Begin(sys: System, s: SessionId, ref: string, id: string, f: Fixture) returns (evs: seq<Event>)
    requires s in sys.host.targets && s !in sys.procs && s !in sys.host.disk
    requires id in sys.host.targets[s].fixtures && sys.host.targets[s].fixtures[id] == f
    requires Key(sys.host.targets[s].serial, f) !in sys.host.table
    ensures ClosedWorld(evs)
    ensures Run(sys, evs) == sys.(procs := sys.procs[s := Process(EmptyJournal, false, false, Preflighted(ref, id))])
  {
    var s1 := sys.(procs := sys.procs[s := Process(EmptyJournal, false, false, Idle)]);
    var s2 := sys.(procs := sys.procs[s := Process(EmptyJournal, false, false, Preflighted(ref, id))]);
    evs := Next(sys, [], sys, Restart(s), s1);
    evs := Next(sys, evs, s1, Own(s, Preflight(ref, id)), s2);
  }

  /** A new session up to the point where its receipt for a fixture is on disk. */
  lemma Announce(sys: System, s: SessionId, ref: string, id: string, f: Fixture) returns (evs: seq<Event>)
    requires s in sys.host.targets && s !in sys.procs && s !in sys.host.disk
    requires id in sys.host.targets[s].fixtures && sys.host.targets[s].fixtures[id] == f
    requires Key(sys.host.targets[s].serial, f) !in sys.host.table
    ensures ClosedWorld(evs)
    ensures var j := OneReceipt(ref, id, f, CreateStarted);
            Run(sys, evs) == sys.(host := sys.host.(disk := sys.host.disk[s := j]),
                                  procs := sys.procs[s := Process(j, false, false, CreateReady(0))])
  {
    var j := OneReceipt(ref, id, f, CreateStarted);
    assert EmptyJournal.resources + [Receipt(ref, id, f, CreateStarted)] == j.resources;
    evs := Begin(sys, s, ref, id, f);
    var s3 := sys.(host := sys.host.(disk := sys.host.disk[s := j]),
                   procs := sys.procs[s := Process(j, false, false, CreateReady(0))]);
    evs := Next(sys, evs, Run(sys, evs), Own(s, Write(j, Durable)), s3);
  }

  /** The mapping is created. */
  lemma Perform(sys: System, s: SessionId, j: Journal, f: Fixture) returns (evs: seq<Event>)
    requires s in sys.host.targets && s in sys.procs && s in sys.host.disk && |j.resources| > 0
             && j.resources[0].fixture == f
    requires sys.procs[s] == Process(j, false, false, CreateReady(0)) && sys.host.disk[s] == j
    requires Key(sys.host.targets[s].serial, f) !in sys.host.table
    requires Command(Create, Tag(s, 0)) !in sys.wire
    ensures ClosedWorld(evs)
    ensures var k := Key(sys.host.targets[s].serial, f);
            var e := Entry(MappingOf(sys.host.targets[s].serial, f), Some(Tag(s, 0)));
            Run(sys, evs) == sys.(host := sys.host.(table := sys.host.table[k := e]),
                                  procs := sys.procs[s := Process(j, false, false, Creating(0, Some(true)))])
  {
    var k := Key(sys.host.targets[s].serial, f);
    var c := Command(Create, Tag(s, 0));
    var h := sys.host.(table := sys.host.table[k := Entry(MappingOf(sys.host.targets[s].serial, f), Some(Tag(s, 0)))]);
    var s1 := sys.(wire := sys.wire + {c}, procs := sys.procs[s := Process(j, false, false, Creating(0, None))]);
    var s2 := sys.(host := h, procs := sys.procs[s := Process(j, false, false, Creating(0, Some(true)))]);
    evs := Next(sys, [], sys, Own(s, Issue), s1);
    assert s1.wire - {c} == sys.wire;
    evs := Next(sys, evs, s1, Land(c), s2);
  }

  /** The mapping is created and acknowledged. */
  lemma Acknowledge(sys: System, s: SessionId, ref: string, id: string, f: Fixture) returns (evs: seq<Event>)
    requires s in sys.host.targets && s in sys.procs && s in sys.host.disk
    requires var j := OneReceipt(ref, id, f, CreateStarted);
             sys.procs[s] == Process(j, false, false, CreateReady(0)) && sys.host.disk[s] == j
    requires Key(sys.host.targets[s].serial, f) !in sys.host.table
    requires Command(Create, Tag(s, 0)) !in sys.wire
    ensures ClosedWorld(evs)
    ensures var k := Key(sys.host.targets[s].serial, f);
            var j := OneReceipt(ref, id, f, Created);
            var e := Entry(MappingOf(sys.host.targets[s].serial, f), Some(Tag(s, 0)));
            Run(sys, evs) == sys.(host := sys.host.(table := sys.host.table[k := e], disk := sys.host.disk[s := j]),
                                  procs := sys.procs[s := Process(j, false, false, Idle)])
  {
    var j, j1 := OneReceipt(ref, id, f, CreateStarted), OneReceipt(ref, id, f, Created);
    evs := Perform(sys, s, j, f);
    var s2 := Run(sys, evs);
    var s3 := s2.(procs := sys.procs[s := Process(j, false, false, CreateAcked(0))]);
    var s4 := s2.(host := s2.host.(disk := sys.host.disk[s := j1]),
                  procs := sys.procs[s := Process(j1, false, false, Idle)]);
    evs := Next(sys, evs, s2, Own(s, Return(true)), s3);
    evs := Next(sys, evs, s3, Own(s, Write(j1, Durable)), s4);
  }

  lemma SeenExact(sys: System, s: SessionId, i: nat)
    requires s in sys.host.targets && s in sys.procs && sys.procs[s].pc == Idle && MemState(sys.procs[s], i, Created)
    requires Lookup(sys.host.table, sys.host.targets[s].serial, sys.procs[s].memory.resources[i].fixture).MappingExact?
    ensures Apply(sys, Own(s, Inspect(i))) == sys.(procs := sys.procs[s := sys.procs[s].(pc := Exact(i))])
  {
  }

  lemma RemovalAnnounced(sys: System, s: SessionId, i: nat)
    requires s in sys.host.targets && s in sys.procs && sys.procs[s].pc == Exact(i)
             && MemState(sys.procs[s], i, Created)
    ensures var p := sys.procs[s]; var m := p.memory.(resources := WithState(p.memory.resources, i, CleanupStarted));
            Apply(sys, Own(s, Write(m, Durable))) ==
            sys.(host := sys.host.(disk := sys.host.disk[s := m]),
                 procs := sys.procs[s := p.(memory := m, pc := RemoveReady(i))])
  {
  }

  lemma RemovalIssued(sys: System, s: SessionId, i: nat)
    requires s in sys.host.targets && s in sys.procs && sys.procs[s].pc == RemoveReady(i)
    ensures Apply(sys, Own(s, Issue)) ==
            sys.(wire := sys.wire + {Command(Remove, Tag(s, i))},
                 procs := sys.procs[s := sys.procs[s].(pc := Removing(i, None))])
  {
  }

  /** The first half of a cleanup: the listing agrees, the receipt says so, the removal is sent. */
  lemma SendRemoval(sys: System, s: SessionId, ref: string, id: string, f: Fixture) returns (evs: seq<Event>)
    requires s in sys.host.targets
    requires s in sys.procs && sys.procs[s] == Process(OneReceipt(ref, id, f, Created), false, false, Idle)
    requires Lookup(sys.host.table, sys.host.targets[s].serial, f).MappingExact?
    ensures ClosedWorld(evs)
    ensures Command(Remove, Tag(s, 0)) in Run(sys, evs).wire && Run(sys, evs).host.table == sys.host.table
  {
    var j := OneReceipt(ref, id, f, CleanupStarted);
    var s1 := sys.(procs := sys.procs[s := Process(OneReceipt(ref, id, f, Created), false, false, Exact(0))]);
    var s2 := sys.(host := sys.host.(disk := sys.host.disk[s := j]),
                   procs := sys.procs[s := Process(j, false, false, RemoveReady(0))]);
    var s3 := s2.(wire := sys.wire + {Command(Remove, Tag(s, 0))},
                  procs := sys.procs[s := Process(j, false, false, Removing(0, None))]);
    SeenExact(sys, s, 0);
    evs := Next(sys, [], sys, Own(s, Inspect(0)), s1);
    assert WithState(OneReceipt(ref, id, f, Created).resources, 0, CleanupStarted) == j.resources;
    RemovalAnnounced(s1, s, 0);
    evs := Next(sys, evs, s1, Own(s, Write(j, Durable)), s2);
    RemovalIssued(s2, s, 0);
    evs := Next(sys, evs, s2, Own(s, Issue), s3);
  }

  lemma Concatenate(sys: System, xs: seq<Event>, ys: seq<Event>) returns (evs: seq<Event>)
    requires ClosedWorld(xs) && ClosedWorld(ys)
    ensures ClosedWorld(evs) && Run(sys, evs) == Run(Run(sys, xs), ys)
  {
    evs := xs + ys;
    RunsCompose(sys, xs, ys);
  }

  /**
   Were one mapping to disappear by itself (the device reboots, say), another session could recreate
   it identically, and the first session's cleanup would then remove the other session's mapping.
   */
  lemma OwnershipNeedsAClosedWorld(sys: System, a: SessionId, b: SessionId, ref: string, id: string, f: Fixture)
    returns (before: seq<Event>, after: seq<Event>)
    requires Init(sys) && a != b && a in sys.host.targets && b in sys.host.targets
    requires sys.host.targets[a].serial == sys.host.targets[b].serial
    requires id in sys.host.targets[a].fixtures && sys.host.targets[a].fixtures[id] == f
    requires id in sys.host.targets[b].fixtures && sys.host.targets[b].fixtures[id] == f
    requires Key(sys.host.targets[a].serial, f) !in sys.host.table
    ensures ClosedWorld(before) && ClosedWorld(after)
    ensures var k := Key(sys.host.targets[a].serial, f);
            var now := Run(Apply(Run(sys, before), Vanish(k)), after);
            && Command(Remove, Tag(a, 0)) in now.wire
            && k in now.host.table && now.host.table[k].owner == Some(Tag(b, 0))
  {
    var k := Key(sys.host.targets[a].serial, f);
    var xs := Announce(sys, a, ref, id, f);
    var ys := Acknowledge(Run(sys, xs), a, ref, id, f);
    before := Concatenate(sys, xs, ys);
    var dropped := Apply(Run(sys, before), Vanish(k));
    xs := Announce(dropped, b, ref, id, f);
    ys := Acknowledge(Run(dropped, xs), b, ref, id, f);
    after := Concatenate(dropped, xs, ys);
    ys := SendRemoval(Run(dropped, after), a, ref, id, f);
    after := Concatenate(dropped, after, ys);
  }
}
