/**
 The Android session owners of one host, as a protocol.

 Several owners share one adb server. Each owner is a process with a volatile memory and a
 journal file that survives it; adb keeps one mapping per endpoint; an app lease is a file lock
 held by a live process. Every event below is one atomic step: a journal write, the issue of an
 adb command, its effect on the adb server, its return to the caller, a listing, a crash.

 Mapping commands are asynchronous: after it was issued a command sits on the wire until the adb
 server performs it or it is lost, and the caller may have given up or crashed by then.
 */
module SessionProtocol {
  import opened Basics

  /** What an owner's session id is the hash of. */
  datatype SessionId = SessionId(runId: string, ownerRef: string, generation: string)

  datatype Kind = Forward | Reverse

  datatype Fixture = Fixture(kind: Kind, local: string, remote: string)

  /** The selected device and app of one session, and the fixtures configured for it. */
  datatype Target = Target(serial: string, package: string, fixtures: map<string, Fixture>)

  datatype App = App(serial: string, package: string)

  /** Where adb keeps a mapping: forwards listen on the host, reverses on the device. */
  datatype Endpoint = HostPort(local: string) | DevicePort(serial: string, remote: string)

  datatype Mapping = Mapping(serial: string, local: string, remote: string)

  /** The receipt a mapping was created under. It is bookkeeping: no owner can read it off adb. */
  datatype Tag = Tag(session: SessionId, index: nat)

  /** A mapping on the adb server; `owner` is None for one that no owner created. */
  datatype Entry = Entry(mapping: Mapping, owner: Option<Tag>)

  datatype ReceiptState = CreateStarted | Created | CleanupStarted | Cleaned

  datatype Receipt = Receipt(operationRef: string, fixtureId: string, fixture: Fixture, state: ReceiptState)

  /** The part of the owner that `_record` writes. */
  datatype Journal = Journal(resources: seq<Receipt>, cleanupKnown: bool, appCleanupRequired: bool)

  datatype Op = Create | Remove

  datatype Command = Command(op: Op, tag: Tag)

  /** How far the operation in progress has come. `reply` is what adb answered, once it has. */
  datatype Pc =
    | Idle
    | Preflighted(operationRef: string, fixtureId: string)
    | CreateReady(i: nat)
    | Creating(i: nat, reply: Option<bool>)
    | CreateAcked(i: nat)
    | Exact(i: nat)
    | RemoveReady(i: nat)
    | Removing(i: nat, reply: Option<bool>)
    | Removed(i: nat)
    | Gone(i: nat)
    | LaunchPending
    | LaunchReady
    | Stopped
    | Closed

  datatype Process = Process(memory: Journal, active: bool, leased: bool, pc: Pc)

  /** What outlives every process: the sealed targets, the mappings on the adb server, the journals. */
  datatype Host = Host(
    targets: map<SessionId, Target>,
    table: map<Endpoint, Entry>,
    disk: map<SessionId, Journal>)

  datatype System = System(
    host: Host,
    wire: set<Command>,
    running: map<App, set<SessionId>>,
    leases: map<App, SessionId>,
    procs: map<SessionId, Process>)

  /** How a journal write ends: it raises after the file was replaced when only the directory cannot be synced. */
  datatype Fate = Durable | Unconfirmed | Lost

  /** What an owner's process does in one step. */
  datatype Step =
    | Preflight(operationRef: string, fixtureId: string)
    | Inspect(i: nat)
    | Write(journal: Journal, fate: Fate)
    | Issue
    | Return(ok: bool)
    | Abort
    | Claim
    | BeginLaunch
    | Start(effect: bool)
    | ForceStop(effect: bool)
    | ProbeStopped
    | Close
    | Crash

  datatype Event =
    | Own(s: SessionId, step: Step)
    | Restart(s: SessionId)
    | Land(c: Command)
    | Lose(c: Command)
    | AppExit(app: App)
    | Vanish(at: Endpoint)

  // ---------------------------------------------------------------- vocabulary

  const MAX_JOURNAL_RECEIPTS := 64

  function Key(serial: string, f: Fixture): Endpoint {
    match f.kind
    case Forward => HostPort(f.local)
    case Reverse => DevicePort(serial, f.remote)
  }

  function MappingOf(serial: string, f: Fixture): Mapping {
    Mapping(serial, f.local, f.remote)
  }

  function AppOf(t: Target): App {
    App(t.serial, t.package)
  }

  /** A forwarded endpoint is one of the host, whatever the device; a reversed one is one of its device. */
  lemma EndpointsAre(serial: string, f: Fixture, serial': string, f': Fixture)
    ensures Key(serial, f) == Key(serial', f') <==>
            if f.kind == Forward then f'.kind == Forward && f.local == f'.local
            else f'.kind == Reverse && f.remote == f'.remote && serial == serial'
  {
  }

  /** An app is contended for by the sessions that have its package on its device. */
  lemma AppsAre(t: Target, t': Target)
    ensures AppOf(t) == AppOf(t') <==> t.serial == t'.serial && t.package == t'.package
  {
  }

  datatype MappingState = MappingExact | MappingAbsent | MappingUnsafe

  /** What the listing of a mapping table says about one fixture. */
  function Lookup(table: map<Endpoint, Entry>, serial: string, f: Fixture): MappingState {
    var k := Key(serial, f);
    if k !in table then MappingAbsent
    else if table[k].mapping == MappingOf(serial, f) then MappingExact
    else MappingUnsafe
  }

  const EmptyJournal := Journal([], true, false)

  function Recorded(h: Host, s: SessionId): Journal {
    if s in h.disk then h.disk[s] else EmptyJournal
  }

  function Launchers(running: map<App, set<SessionId>>, app: App): set<SessionId> {
    if app in running then running[app] else {}
  }

  function WithState(resources: seq<Receipt>, i: nat, state: ReceiptState): (r: seq<Receipt>)
    requires i < |resources|
  {
    resources[i := resources[i].(state := state)]
  }

  // ---------------------------------------------------------------- steps of one owner

  /** The process after it wrote `j` durably, or None where the owner never writes `j`. */
  function Resume(t: Target, p: Process, j: Journal): Option<Process> {
    var m := p.memory;
    match p.pc
    case Idle =>
      if j.resources == m.resources && j.appCleanupRequired == m.appCleanupRequired
      then Some(p.(memory := j)) else None
    case Preflighted(ref, id) =>
      if id in t.fixtures && j == m.(resources := m.resources + [Receipt(ref, id, t.fixtures[id], CreateStarted)])
      then Some(p.(memory := j, pc := CreateReady(|m.resources|))) else None
    case CreateAcked(i) =>
      if i < |m.resources| && j == m.(resources := WithState(m.resources, i, Created))
      then Some(p.(memory := j, pc := Idle)) else None
    case Exact(i) =>
      if i < |m.resources| && j == m.(resources := WithState(m.resources, i, CleanupStarted))
      then Some(p.(memory := j, pc := RemoveReady(i))) else None
    case Gone(i) =>
      if i < |m.resources| && j == m.(resources := WithState(m.resources, i, Cleaned))
      then Some(p.(memory := j, pc := Idle)) else None
    case LaunchPending =>
      if j == m then Some(p.(pc := LaunchReady)) else None
    case Stopped =>
      if j == m.(appCleanupRequired := false) then Some(p.(memory := j, active := false, pc := Idle)) else None
    case _ => None
  }

  /** A write that fails ends the operation, with the change in memory, and on disk unless it was lost. */
  function ApplyWrite(sys: System, s: SessionId, p: Process, j: Journal, fate: Fate): System
    requires s in sys.host.targets
  {
    match Resume(sys.host.targets[s], p, j)
    case None => sys
    case Some(q) =>
      var host := if fate.Lost? then sys.host else sys.host.(disk := sys.host.disk[s := j]);
      sys.(host := host, procs := sys.procs[s := if fate.Durable? then q else q.(pc := Idle)])
  }

  function SetPc(sys: System, s: SessionId, p: Process, pc: Pc): System {
    sys.(procs := sys.procs[s := p.(pc := pc)])
  }

  function ApplyPreflight(sys: System, s: SessionId, p: Process, ref: string, id: string): System
    requires s in sys.host.targets
  {
    var t := sys.host.targets[s];
    if p.pc.Idle? && id in t.fixtures
       && (forall r | r in p.memory.resources :: !(r.fixtureId == id && r.state == Created))
       && Lookup(sys.host.table, t.serial, t.fixtures[id]).MappingAbsent?
    then SetPc(sys, s, p, Preflighted(ref, id)) else sys
  }

  /** The listing before a removal, and the one that must acknowledge it afterwards. */
  function ApplyInspect(sys: System, s: SessionId, p: Process, i: nat): System
    requires s in sys.host.targets
  {
    var m := p.memory.resources;
    if i >= |m| then sys else
    var seen := Lookup(sys.host.table, sys.host.targets[s].serial, m[i].fixture);
    if p.pc.Idle? && m[i].state == Created && seen.MappingExact? then SetPc(sys, s, p, Exact(i))
    else if p.pc.Idle? && m[i].state == Created && seen.MappingAbsent? then SetPc(sys, s, p, Gone(i))
    else if p.pc == Removed(i) && seen.MappingAbsent? then SetPc(sys, s, p, Gone(i))
    else sys
  }

  function ApplyIssue(sys: System, s: SessionId, p: Process): System {
    match p.pc
    case CreateReady(i) =>
      SetPc(sys.(wire := sys.wire + {Command(Create, Tag(s, i))}), s, p, Creating(i, None))
    case RemoveReady(i) =>
      SetPc(sys.(wire := sys.wire + {Command(Remove, Tag(s, i))}), s, p, Removing(i, None))
    case _ => sys
  }

  /** adb reports success only after it performed the command; it may report failure at any time. */
  function ApplyReturn(sys: System, s: SessionId, p: Process, ok: bool): System {
    match p.pc
    case Creating(i, reply) =>
      if !ok then SetPc(sys, s, p, Idle)
      else if reply == Some(true) then SetPc(sys, s, p, CreateAcked(i))
      else sys
    case Removing(i, reply) =>
      if !ok then SetPc(sys, s, p, Idle)
      else if reply == Some(true) then SetPc(sys, s, p, Removed(i))
      else sys
    case _ => sys
  }

  function ApplyAbort(sys: System, s: SessionId, p: Process): System {
    if p.pc.Preflighted? || p.pc.Exact? || p.pc.Removed? || p.pc.Gone? || p.pc.LaunchReady? || p.pc.Stopped?
    then SetPc(sys, s, p, Idle) else sys
  }

  function ApplyClaim(sys: System, s: SessionId, p: Process): System
    requires s in sys.host.targets
  {
    var app := AppOf(sys.host.targets[s]);
    if p.pc.Idle? && !p.leased && app !in sys.leases
    then sys.(leases := sys.leases[app := s], procs := sys.procs[s := p.(leased := true)])
    else sys
  }

  function ApplyBeginLaunch(sys: System, s: SessionId, p: Process): System {
    if p.pc.Idle? && p.leased
    then
      var q := p.(memory := p.memory.(appCleanupRequired := true), active := true, pc := LaunchPending);
      sys.(procs := sys.procs[s := q])
    else sys
  }

  function ApplyStart(sys: System, s: SessionId, p: Process, effect: bool): System
    requires s in sys.host.targets
  {
    var app := AppOf(sys.host.targets[s]);
    if !p.pc.LaunchReady? then sys
    else if effect then SetPc(sys.(running := sys.running[app := Launchers(sys.running, app) + {s}]), s, p, Idle)
    else SetPc(sys, s, p, Idle)
  }

  function ApplyForceStop(sys: System, s: SessionId, p: Process, effect: bool): System
    requires s in sys.host.targets
  {
    if p.pc.Idle? && p.leased && effect
    then sys.(running := sys.running[AppOf(sys.host.targets[s]) := {}]) else sys
  }

  function ApplyProbeStopped(sys: System, s: SessionId, p: Process): System
    requires s in sys.host.targets
  {
    if p.pc.Idle? && Launchers(sys.running, AppOf(sys.host.targets[s])) == {}
    then SetPc(sys, s, p, Stopped) else sys
  }

  /** The end of `shutdown`: the lease file is closed, whatever happened before. */
  function Released(sys: System, s: SessionId, p: Process): System
    requires s in sys.host.targets
  {
    if p.leased then sys.(leases := sys.leases - {AppOf(sys.host.targets[s])}) else sys
  }

  function ApplyClose(sys: System, s: SessionId, p: Process): System
    requires s in sys.host.targets
  {
    if p.pc.Idle?
    then Released(sys, s, p).(procs := sys.procs[s := p.(leased := false, pc := Closed)])
    else sys
  }

  function ApplyCrash(sys: System, s: SessionId, p: Process): System
    requires s in sys.host.targets
  {
    Released(sys, s, p).(procs := sys.procs - {s})
  }

  /** A new process for the same session: it loads what the journal holds and trusts no live app. */
  function ApplyRestart(sys: System, s: SessionId): System {
    var j := Recorded(sys.host, s);
    if s in sys.procs || |j.resources| > MAX_JOURNAL_RECEIPTS then sys else
    var memory := if s in sys.host.disk then j.(cleanupKnown := false) else j;
    sys.(procs := sys.procs[s := Process(memory, false, false, Idle)])
  }

  // ---------------------------------------------------------------- steps of the adb server

  function Replied(sys: System, c: Command, ok: bool): map<SessionId, Process> {
    var s := c.tag.session;
    if s !in sys.procs then sys.procs else
    var p := sys.procs[s];
    if c.op == Create && p.pc == Creating(c.tag.index, None)
    then sys.procs[s := p.(pc := Creating(c.tag.index, Some(ok)))]
    else if c.op == Remove && p.pc == Removing(c.tag.index, None)
    then sys.procs[s := p.(pc := Removing(c.tag.index, Some(ok)))]
    else sys.procs
  }

  /** `--no-rebind` refuses an endpoint in use; `--remove` drops whatever mapping is there. */
  function ApplyLand(sys: System, c: Command): System {
    var s := c.tag.session;
    var resources := Recorded(sys.host, s).resources;
    if c !in sys.wire || s !in sys.host.targets || c.tag.index >= |resources| then sys else
    var f := resources[c.tag.index].fixture;
    var k := Key(sys.host.targets[s].serial, f);
    var sent := sys.(wire := sys.wire - {c});
    match c.op
    case Create =>
      if k in sys.host.table then sent.(procs := Replied(sys, c, false))
      else
        var e := Entry(MappingOf(sys.host.targets[s].serial, f), Some(c.tag));
        sent.(host := sys.host.(table := sys.host.table[k := e]),
                 procs := Replied(sys, c, true))
    case Remove =>
      if k in sys.host.table then
        sent.(host := sys.host.(table := sys.host.table - {k}), procs := Replied(sys, c, true))
      else sent.(procs := Replied(sys, c, false))
  }

  // ---------------------------------------------------------------- the whole host

  function ApplyOwn(sys: System, s: SessionId, p: Process, step: Step): System
    requires s in sys.host.targets
  {
    match step
    case Preflight(ref, id) => ApplyPreflight(sys, s, p, ref, id)
    case Inspect(i) => ApplyInspect(sys, s, p, i)
    case Write(j, fate) => ApplyWrite(sys, s, p, j, fate)
    case Issue => ApplyIssue(sys, s, p)
    case Return(ok) => ApplyReturn(sys, s, p, ok)
    case Abort => ApplyAbort(sys, s, p)
    case Claim => ApplyClaim(sys, s, p)
    case BeginLaunch => ApplyBeginLaunch(sys, s, p)
    case Start(effect) => ApplyStart(sys, s, p, effect)
    case ForceStop(effect) => ApplyForceStop(sys, s, p, effect)
    case ProbeStopped => ApplyProbeStopped(sys, s, p)
    case Close => ApplyClose(sys, s, p)
    case Crash => ApplyCrash(sys, s, p)
  }

  /** One event. An event that is not enabled changes nothing. */
  function Apply(sys: System, ev: Event): System {
    match ev
    case Own(s, step) =>
      if s in sys.host.targets && s in sys.procs then ApplyOwn(sys, s, sys.procs[s], step) else sys
    case Restart(s) => if s in sys.host.targets then ApplyRestart(sys, s) else sys
    case Land(c) => ApplyLand(sys, c)
    case Lose(c) => sys.(wire := sys.wire - {c})
    case AppExit(app) => sys.(running := sys.running[app := {}])
    case Vanish(k) => sys.(host := sys.host.(table := sys.host.table - {k}))
  }

  function Run(sys: System, evs: seq<Event>): System
    decreases |evs|
  {
    if evs == [] then sys else Apply(Run(sys, evs[..|evs| - 1]), evs[|evs| - 1])
  }

  /** Nobody has run yet; mappings of other programs may already be on the adb server. */
  ghost predicate Init(sys: System) {
    && (forall k | k in sys.host.table :: sys.host.table[k].owner == None)
    && sys.wire == {} && sys.running == map[] && sys.leases == map[]
    && sys.host.disk == map[] && sys.procs == map[]
  }

  /** Only owners change mappings: no mapping disappears by itself. */
  ghost predicate ClosedWorld(evs: seq<Event>) {
    forall n | 0 <= n < |evs| :: !evs[n].Vanish?
  }
}
