module SessionSafety {
  import opened Basics
  import opened SessionProtocol

  // ---------------------------------------------------------------- invariant

  function Rank(state: ReceiptState): nat {
    match state
    case CreateStarted => 0
    case Created => 1
    case CleanupStarted => 2
    case Cleaned => 3
  }

  /** The journal may lag behind the memory, never run ahead of it. */
  ghost predicate Ahead(m: seq<Receipt>, d: seq<Receipt>) {
    && |d| <= |m|
    && forall i | 0 <= i < |d| :: m[i] == d[i].(state := m[i].state) && Rank(d[i].state) <= Rank(m[i].state)
  }

  ghost predicate HasReceipt(h: Host, s: SessionId, i: nat) {
    s in h.targets && i < |Recorded(h, s).resources|
  }

  ghost predicate DiskState(h: Host, s: SessionId, i: nat, state: ReceiptState) {
    HasReceipt(h, s, i) && Recorded(h, s).resources[i].state == state
  }

  ghost predicate MemState(p: Process, i: nat, state: ReceiptState) {
    i < |p.memory.resources| && p.memory.resources[i].state == state
  }

  ghost function ReceiptKey(h: Host, s: SessionId, i: nat): Endpoint
    requires HasReceipt(h, s, i)
  {
    Key(h.targets[s].serial, Recorded(h, s).resources[i].fixture)
  }

  /** The mapping created under persisted receipt `i` of `s` is on the adb server. */
  ghost predicate OnServer(h: Host, s: SessionId, i: nat) {
    && HasReceipt(h, s, i)
    && var k := ReceiptKey(h, s, i);
    && k in h.table
    && h.table[k] == Entry(MappingOf(h.targets[s].serial, Recorded(h, s).resources[i].fixture), Some(Tag(s, i)))
  }

  ghost predicate OnWire(wire: set<Command>, op: Op, s: SessionId, i: nat) {
    Command(op, Tag(s, i)) in wire
  }

  /** Receipt `i` of `s` is in `state` on disk and, while `s` has a process, in memory too. */
  ghost predicate SettledAt(h: Host, procs: map<SessionId, Process>, s: SessionId, i: nat, state: ReceiptState) {
    DiskState(h, s, i, state) && (s in procs ==> MemState(procs[s], i, state))
  }

  ghost predicate NotCleaned(h: Host, procs: map<SessionId, Process>, s: SessionId, i: nat) {
    && HasReceipt(h, s, i) && !DiskState(h, s, i, Cleaned)
    && (s in procs ==> !MemState(procs[s], i, Cleaned))
  }

  ghost predicate EntryOk(h: Host, procs: map<SessionId, Process>, k: Endpoint)
    requires k in h.table
  {
    match h.table[k].owner
    case None => true
    case Some(t) =>
      && NotCleaned(h, procs, t.session, t.index) && OnServer(h, t.session, t.index)
      && k == ReceiptKey(h, t.session, t.index)
  }

  ghost predicate WireOk(h: Host, procs: map<SessionId, Process>, c: Command) {
    var s, i := c.tag.session, c.tag.index;
    match c.op
    case Create => SettledAt(h, procs, s, i, CreateStarted) && !OnServer(h, s, i)
    case Remove => SettledAt(h, procs, s, i, CleanupStarted) && OnServer(h, s, i)
  }

  ghost predicate DiskOk(h: Host, s: SessionId) {
    && s in h.targets
    && forall i | 0 <= i < |Recorded(h, s).resources| :: DiskState(h, s, i, Created) ==> OnServer(h, s, i)
  }

  ghost predicate PcOk(h: Host, wire: set<Command>, s: SessionId, p: Process) {
    match p.pc
    case CreateReady(i) =>
      && DiskState(h, s, i, CreateStarted) && MemState(p, i, CreateStarted) && !OnServer(h, s, i)
      && !OnWire(wire, Create, s, i)
    case Creating(i, reply) =>
      && DiskState(h, s, i, CreateStarted) && MemState(p, i, CreateStarted)
      && (reply.Some? ==> !OnWire(wire, Create, s, i))
      && (reply == Some(true) ==> OnServer(h, s, i))
    case CreateAcked(i) =>
      && DiskState(h, s, i, CreateStarted) && MemState(p, i, CreateStarted) && OnServer(h, s, i)
      && !OnWire(wire, Create, s, i)
    case Exact(i) => MemState(p, i, Created)
    case RemoveReady(i) =>
      && DiskState(h, s, i, CleanupStarted) && MemState(p, i, CleanupStarted) && OnServer(h, s, i)
      && !OnWire(wire, Remove, s, i)
    case Removing(i, reply) =>
      && DiskState(h, s, i, CleanupStarted) && MemState(p, i, CleanupStarted)
      && (reply.Some? ==> !OnServer(h, s, i) && !OnWire(wire, Remove, s, i))
    case Removed(i) =>
      && DiskState(h, s, i, CleanupStarted) && MemState(p, i, CleanupStarted) && !OnServer(h, s, i)
      && !OnWire(wire, Remove, s, i)
    case Gone(i) =>
      && DiskState(h, s, i, CleanupStarted) && MemState(p, i, CleanupStarted) && !OnServer(h, s, i)
      && !OnWire(wire, Remove, s, i)
    case _ => true
  }

  ghost predicate AppPcOk(h: Host, running: map<App, set<SessionId>>, s: SessionId, p: Process)
    requires s in h.targets
  {
    && (p.active && !p.pc.Closed? ==> p.leased)
    && match p.pc
    case LaunchPending => p.active && p.leased && p.memory.appCleanupRequired
    case LaunchReady => p.active && p.leased && p.memory.appCleanupRequired && Recorded(h, s).appCleanupRequired
    case Stopped => s !in Launchers(running, AppOf(h.targets[s]))
    case Closed => !p.leased
    case _ => true
  }

  ghost predicate MemoryOk(h: Host, s: SessionId, p: Process) {
    && s in h.targets
    && Ahead(p.memory.resources, Recorded(h, s).resources)
    && forall i | 0 <= i < |p.memory.resources| :: MemState(p, i, Created) ==> OnServer(h, s, i)
  }

  ghost predicate AppOk(h: Host, running: map<App, set<SessionId>>, leases: map<App, SessionId>, s: SessionId,
                        p: Process)
  {
    && s in h.targets
    && AppPcOk(h, running, s, p)
    && (!p.memory.appCleanupRequired ==> s !in Launchers(running, AppOf(h.targets[s])))
    && (p.leased <==> AppOf(h.targets[s]) in leases && leases[AppOf(h.targets[s])] == s)
  }

  ghost predicate LauncherOk(h: Host, app: App, s: SessionId) {
    s in h.targets && app == AppOf(h.targets[s]) && Recorded(h, s).appCleanupRequired
  }

  ghost predicate LeaseOk(h: Host, procs: map<SessionId, Process>, app: App, s: SessionId) {
    s in h.targets && s in procs && app == AppOf(h.targets[s])
  }

  /** Which mappings are on the adb server and why. */
  ghost predicate MappingInv(sys: System) {
    && (forall k | k in sys.host.table :: EntryOk(sys.host, sys.procs, k))
    && (forall c | c in sys.wire :: WireOk(sys.host, sys.procs, c))
    && (forall s | s in sys.host.disk :: DiskOk(sys.host, s))
    && (forall s | s in sys.procs :: MemoryOk(sys.host, s, sys.procs[s]) && PcOk(sys.host, sys.wire, s, sys.procs[s]))
  }

  /** Who may own the app. */
  ghost predicate AppInv(sys: System) {
    && (forall s | s in sys.procs :: AppOk(sys.host, sys.running, sys.leases, s, sys.procs[s]))
    && (forall app, s | app in sys.running && s in sys.running[app] :: LauncherOk(sys.host, app, s))
    && (forall app | app in sys.leases :: LeaseOk(sys.host, sys.procs, app, sys.leases[app]))
  }

  // ---------------------------------------------------------------- MappingInv is kept

  /** A step of one process that touches neither the journals nor adb nor the receipts. */
  lemma LocalStepKeepsMappings(sys: System, sys': System, s: SessionId, p: Process)
    requires MappingInv(sys) && s in sys.procs
    requires sys'.host == sys.host && sys'.wire == sys.wire && sys'.procs == sys.procs[s := p]
    requires p.memory.resources == sys.procs[s].memory.resources && PcOk(sys.host, sys.wire, s, p)
    ensures MappingInv(sys')
  {
  }

  /** A process moves receipt `i` on, or appends it, in memory only. */
  ghost predicate MovesOn(h: Host, wire: set<Command>, s: SessionId, m: seq<Receipt>, m': seq<Receipt>) {
    || m' == m
    || (exists r :: m' == m + [r] && r.state == CreateStarted)
    || (exists i | 0 <= i < |m| :: MovedAt(h, wire, s, m, m', i))
  }

  ghost predicate MovedAt(h: Host, wire: set<Command>, s: SessionId, m: seq<Receipt>, m': seq<Receipt>, i: nat)
    requires i < |m|
  {
    && |m'| == |m| && m' == WithState(m, i, m'[i].state) && Rank(m[i].state) <= Rank(m'[i].state)
    && !OnWire(wire, Create, s, i) && !OnWire(wire, Remove, s, i)
    && (m'[i].state == Created ==> OnServer(h, s, i))
    && (m'[i].state == Cleaned ==> !OnServer(h, s, i))
  }

  lemma MemoryStepKeepsEntries(sys: System, s: SessionId, p: Process)
    requires MappingInv(sys) && s in sys.procs
    requires MovesOn(sys.host, sys.wire, s, sys.procs[s].memory.resources, p.memory.resources)
    ensures forall k | k in sys.host.table :: EntryOk(sys.host, sys.procs[s := p], k)
    ensures forall c | c in sys.wire :: WireOk(sys.host, sys.procs[s := p], c)
  {
    forall k | k in sys.host.table ensures EntryOk(sys.host, sys.procs[s := p], k) {
      assert EntryOk(sys.host, sys.procs, k);
    }
    forall c | c in sys.wire ensures WireOk(sys.host, sys.procs[s := p], c) {
      assert WireOk(sys.host, sys.procs, c);
    }
  }

  lemma MemoryStepKeepsMappings(sys: System, s: SessionId, p: Process)
    requires MappingInv(sys) && s in sys.procs
    requires MovesOn(sys.host, sys.wire, s, sys.procs[s].memory.resources, p.memory.resources)
    requires PcOk(sys.host, sys.wire, s, p)
    ensures MappingInv(sys.(procs := sys.procs[s := p]))
  {
    MemoryStepKeepsEntries(sys, s, p);
    assert MemoryOk(sys.host, s, sys.procs[s]);
    assert MemoryOk(sys.host, s, p);
  }

  lemma OnServerAfterWrite(h: Host, procs: map<SessionId, Process>, s: SessionId, j: Journal, s': SessionId, i: nat)
    requires forall k | k in h.table :: EntryOk(h, procs, k)
    requires s in h.targets && Ahead(j.resources, Recorded(h, s).resources)
    ensures OnServer(h.(disk := h.disk[s := j]), s', i) == OnServer(h, s', i)
    ensures HasReceipt(h, s', i) ==> HasReceipt(h.(disk := h.disk[s := j]), s', i)
                                     && ReceiptKey(h.(disk := h.disk[s := j]), s', i) == ReceiptKey(h, s', i)
  {
    var h' := h.(disk := h.disk[s := j]);
    if s' == s && OnServer(h', s, i) {
      assert EntryOk(h, procs, ReceiptKey(h', s, i));
    }
  }

  /** Writing a journal that is not behind the old one leaves every fact about mappings and receipts. */
  ghost predicate FactsStay(h: Host, h': Host) {
    && h'.table == h.table && h'.targets == h.targets
    && forall s, i :: FactStays(h, h', s, i)
  }

  ghost predicate FactStays(h: Host, h': Host, s: SessionId, i: nat) {
    && OnServer(h', s, i) == OnServer(h, s, i)
    && (HasReceipt(h, s, i) ==> HasReceipt(h', s, i) && ReceiptKey(h', s, i) == ReceiptKey(h, s, i))
  }

  lemma FlushKeepsFacts(sys: System, s: SessionId, q: Process)
    requires MappingInv(sys) && s in sys.procs && q.memory.resources == sys.procs[s].memory.resources
    ensures FactsStay(sys.host, sys.host.(disk := sys.host.disk[s := q.memory]))
  {
    var h' := sys.host.(disk := sys.host.disk[s := q.memory]);
    assert MemoryOk(sys.host, s, sys.procs[s]);
    forall s', i ensures FactStays(sys.host, h', s', i) {
      OnServerAfterWrite(sys.host, sys.procs, s, q.memory, s', i);
    }
  }

  lemma FlushKeepsEntries(sys: System, s: SessionId, q: Process)
    requires MappingInv(sys) && s in sys.procs && q.memory.resources == sys.procs[s].memory.resources
    requires FactsStay(sys.host, sys.host.(disk := sys.host.disk[s := q.memory]))
    ensures var h' := sys.host.(disk := sys.host.disk[s := q.memory]);
            && (forall k | k in h'.table :: EntryOk(h', sys.procs[s := q], k))
            && (forall c | c in sys.wire :: WireOk(h', sys.procs[s := q], c))
  {
    var h, h', procs' := sys.host, sys.host.(disk := sys.host.disk[s := q.memory]), sys.procs[s := q];
    forall k | k in h'.table ensures EntryOk(h', procs', k) {
      assert EntryOk(h, sys.procs, k);
      if h.table[k].owner.Some? {
        var t := h.table[k].owner.value;
        assert FactStays(h, h', t.session, t.index);
      }
    }
    forall c | c in sys.wire ensures WireOk(h', procs', c) {
      assert WireOk(h, sys.procs, c) && FactStays(h, h', c.tag.session, c.tag.index);
    }
  }

  lemma FlushKeepsJournals(sys: System, s: SessionId, q: Process)
    requires MappingInv(sys) && s in sys.procs && q.memory.resources == sys.procs[s].memory.resources
    requires FactsStay(sys.host, sys.host.(disk := sys.host.disk[s := q.memory]))
    ensures var h' := sys.host.(disk := sys.host.disk[s := q.memory]); forall s' | s' in h'.disk :: DiskOk(h', s')
  {
    var h, h' := sys.host, sys.host.(disk := sys.host.disk[s := q.memory]);
    assert MemoryOk(h, s, sys.procs[s]);
    forall s' | s' in h'.disk ensures DiskOk(h', s') {
      assert s' != s ==> DiskOk(h, s');
      forall i | 0 <= i < |Recorded(h', s').resources| && DiskState(h', s', i, Created) ensures OnServer(h', s', i) {
        assert FactStays(h, h', s', i);
        assert s' == s ==> MemState(sys.procs[s], i, Created);
      }
    }
  }

  lemma FlushKeepsOthers(sys: System, s: SessionId, q: Process, s': SessionId)
    requires MappingInv(sys) && s in sys.procs && s' in sys.procs && s' != s
    requires FactsStay(sys.host, sys.host.(disk := sys.host.disk[s := q.memory]))
    ensures var h' := sys.host.(disk := sys.host.disk[s := q.memory]);
            MemoryOk(h', s', sys.procs[s']) && PcOk(h', sys.wire, s', sys.procs[s'])
  {
    var h, h' := sys.host, sys.host.(disk := sys.host.disk[s := q.memory]);
    assert MemoryOk(h, s', sys.procs[s']) && PcOk(h, sys.wire, s', sys.procs[s']);
    assert forall i :: FactStays(h, h', s', i);
  }

  lemma FlushKeepsMemory(sys: System, s: SessionId, q: Process)
    requires MappingInv(sys) && s in sys.procs && q.memory.resources == sys.procs[s].memory.resources
    requires FactsStay(sys.host, sys.host.(disk := sys.host.disk[s := q.memory]))
    ensures MemoryOk(sys.host.(disk := sys.host.disk[s := q.memory]), s, q)
  {
    var h, h' := sys.host, sys.host.(disk := sys.host.disk[s := q.memory]);
    assert MemoryOk(h, s, sys.procs[s]);
    forall i | 0 <= i < |q.memory.resources| && MemState(q, i, Created) ensures OnServer(h', s, i) {
      assert FactStays(h, h', s, i) && MemState(sys.procs[s], i, Created);
    }
  }

  /** The process writes the receipts it holds in memory to its journal. */
  lemma FlushKeepsMappings(sys: System, s: SessionId, q: Process)
    requires MappingInv(sys) && s in sys.procs && q.memory.resources == sys.procs[s].memory.resources
    requires PcOk(sys.host.(disk := sys.host.disk[s := q.memory]), sys.wire, s, q)
    ensures MappingInv(sys.(host := sys.host.(disk := sys.host.disk[s := q.memory]), procs := sys.procs[s := q]))
  {
    var h', procs' := sys.host.(disk := sys.host.disk[s := q.memory]), sys.procs[s := q];
    FlushKeepsFacts(sys, s, q);
    FlushKeepsEntries(sys, s, q);
    FlushKeepsJournals(sys, s, q);
    FlushKeepsMemory(sys, s, q);
    forall s' | s' in procs' ensures MemoryOk(h', s', procs'[s']) && PcOk(h', sys.wire, s', procs'[s']) {
      if s' != s { FlushKeepsOthers(sys, s, q, s'); }
    }
  }

  lemma ResumeMovesOn(sys: System, s: SessionId, j: Journal)
    requires MappingInv(sys) && s in sys.procs && s in sys.host.targets
    requires Resume(sys.host.targets[s], sys.procs[s], j).Some?
    ensures MovesOn(sys.host, sys.wire, s, sys.procs[s].memory.resources, j.resources)
  {
    var p := sys.procs[s];
    var m, m' := p.memory.resources, j.resources;
    assert MemoryOk(sys.host, s, p) && PcOk(sys.host, sys.wire, s, p);
    if p.pc.CreateAcked? || p.pc.Exact? || p.pc.Gone? {
      var i := p.pc.i;
      forall c | c in sys.wire && c.tag == Tag(s, i) ensures !p.pc.Exact? {
        assert WireOk(sys.host, sys.procs, c);
      }
      assert MovedAt(sys.host, sys.wire, s, m, m', i);
    }
  }

  lemma DurableResumePc(sys: System, s: SessionId, j: Journal)
    requires MappingInv(sys) && s in sys.procs && s in sys.host.targets
    requires Resume(sys.host.targets[s], sys.procs[s], j).Some?
    ensures var q := Resume(sys.host.targets[s], sys.procs[s], j).value;
            PcOk(sys.host.(disk := sys.host.disk[s := j]), sys.wire, s, q)
  {
    var p := sys.procs[s];
    var q := Resume(sys.host.targets[s], p, j).value;
    assert MemoryOk(sys.host, s, p) && PcOk(sys.host, sys.wire, s, p);
    if q.pc.CreateReady? {
      var i := q.pc.i;
      ResumeMovesOn(sys, s, j);
      OnServerAfterWrite(sys.host, sys.procs, s, j, s, i);
      assert OnWire(sys.wire, Create, s, i) ==> WireOk(sys.host, sys.procs, Command(Create, Tag(s, i)));
    } else if q.pc.RemoveReady? {
      var i := q.pc.i;
      OnServerAfterWrite(sys.host, sys.procs, s, j, s, i);
      assert OnWire(sys.wire, Remove, s, i) ==> WireOk(sys.host, sys.procs, Command(Remove, Tag(s, i)));
    }
  }

  lemma WriteKeepsMappings(sys: System, s: SessionId, j: Journal, fate: Fate)
    requires MappingInv(sys) && s in sys.procs && s in sys.host.targets
    ensures MappingInv(ApplyWrite(sys, s, sys.procs[s], j, fate))
  {
    var p := sys.procs[s];
    var resumed := Resume(sys.host.targets[s], p, j);
    if resumed.Some? {
      var q := resumed.value;
      assert q.memory == j;
      ResumeMovesOn(sys, s, j);
      MemoryStepKeepsMappings(sys, s, q.(pc := Idle));
      if !fate.Lost? {
        DurableResumePc(sys, s, j);
        var mid := sys.(procs := sys.procs[s := q.(pc := Idle)]);
        var written := if fate.Durable? then q else q.(pc := Idle);
        FlushKeepsMappings(mid, s, written);
        assert mid.procs[s := written] == sys.procs[s := written];
      }
    }
  }

  /** A command on its way that nobody got an answer for, and that its sender still waits for. */
  lemma WireGrows(sys: System, s: SessionId, op: Op, i: nat)
    requires MappingInv(sys) && s in sys.procs
    requires sys.procs[s].pc == (if op == Create then Creating(i, None) else Removing(i, None))
    requires WireOk(sys.host, sys.procs, Command(op, Tag(s, i)))
    ensures MappingInv(sys.(wire := sys.wire + {Command(op, Tag(s, i))}))
  {
    var wire' := sys.wire + {Command(op, Tag(s, i))};
    forall s' | s' in sys.procs ensures PcOk(sys.host, wire', s', sys.procs[s']) {
      assert PcOk(sys.host, sys.wire, s', sys.procs[s']);
    }
  }

  /** Sending a command whose receipt is settled and that nobody waits for yet. */
  lemma SendKeepsMappings(sys: System, s: SessionId, op: Op, i: nat, p: Process)
    requires MappingInv(sys) && s in sys.procs
             && sys.procs[s].pc == (if op == Create then CreateReady(i) else RemoveReady(i))
    requires p == sys.procs[s].(pc := if op == Create then Creating(i, None) else Removing(i, None))
    ensures MappingInv(sys.(wire := sys.wire + {Command(op, Tag(s, i))}, procs := sys.procs[s := p]))
  {
    assert PcOk(sys.host, sys.wire, s, sys.procs[s]);
    var waiting := sys.(procs := sys.procs[s := p]);
    LocalStepKeepsMappings(sys, waiting, s, p);
    WireGrows(waiting, s, op, i);
  }

  lemma IssueKeepsMappings(sys: System, s: SessionId)
    requires MappingInv(sys) && s in sys.procs && s in sys.host.targets
    ensures MappingInv(ApplyIssue(sys, s, sys.procs[s]))
  {
    var p := sys.procs[s];
    if p.pc.CreateReady? {
      SendKeepsMappings(sys, s, Create, p.pc.i, p.(pc := Creating(p.pc.i, None)));
    } else if p.pc.RemoveReady? {
      SendKeepsMappings(sys, s, Remove, p.pc.i, p.(pc := Removing(p.pc.i, None)));
    }
  }

  lemma LoseKeepsMappings(sys: System, c: Command)
    requires MappingInv(sys)
    ensures MappingInv(sys.(wire := sys.wire - {c}))
  {
    forall s | s in sys.procs ensures PcOk(sys.host, sys.wire - {c}, s, sys.procs[s]) {
      assert PcOk(sys.host, sys.wire, s, sys.procs[s]);
    }
  }

  /** What a command finds when it reaches the adb server. */
  lemma LandingHitsOwnMapping(sys: System, c: Command)
    requires MappingInv(sys) && c in sys.wire
    ensures HasReceipt(sys.host, c.tag.session, c.tag.index)
    ensures c.op == Remove ==> OnServer(sys.host, c.tag.session, c.tag.index)
  {
    assert WireOk(sys.host, sys.procs, c);
  }

  /** The table after command `c` took effect. */
  ghost function After(h: Host, op: Op, s: SessionId, i: nat): Host
    requires HasReceipt(h, s, i)
  {
    var k := ReceiptKey(h, s, i);
    match op
    case Create =>
      var mapping := MappingOf(h.targets[s].serial, Recorded(h, s).resources[i].fixture);
      h.(table := h.table[k := Entry(mapping, Some(Tag(s, i)))])
    case Remove => h.(table := h.table - {k})
  }

  /** A command that takes effect changes the one fact it is about. */
  ghost predicate Effects(h: Host, h': Host, op: Op, s: SessionId, i: nat) {
    && h'.targets == h.targets && h'.disk == h.disk
    && forall s', i' :: OnServer(h', s', i') <==> if s' == s && i' == i then op == Create else OnServer(h, s', i')
  }

  lemma CommandEffects(h: Host, op: Op, s: SessionId, i: nat)
    requires HasReceipt(h, s, i)
    requires op == Create ==> ReceiptKey(h, s, i) !in h.table
    requires op == Remove ==> OnServer(h, s, i)
    ensures Effects(h, After(h, op, s, i), op, s, i)
  {
    var h' := After(h, op, s, i);
    forall s', i' ensures OnServer(h', s', i') <==> if s' == s && i' == i then op == Create else OnServer(h, s', i') {
    }
  }

  lemma EntriesAfter(sys: System, op: Op, s: SessionId, i: nat)
    requires MappingInv(sys) && OnWire(sys.wire, op, s, i) && HasReceipt(sys.host, s, i)
    requires Effects(sys.host, After(sys.host, op, s, i), op, s, i)
    ensures forall k | k in After(sys.host, op, s, i).table :: EntryOk(After(sys.host, op, s, i), sys.procs, k)
  {
    var h, h' := sys.host, After(sys.host, op, s, i);
    assert WireOk(h, sys.procs, Command(op, Tag(s, i)));
    forall k | k in h'.table ensures EntryOk(h', sys.procs, k) {
      if op == Create && k == ReceiptKey(h, s, i) {
        assert OnServer(h', s, i);
      } else {
        assert EntryOk(h, sys.procs, k) && h'.table[k] == h.table[k];
      }
    }
  }

  lemma SendersAfter(sys: System, op: Op, s: SessionId, i: nat)
    requires MappingInv(sys) && OnWire(sys.wire, op, s, i) && HasReceipt(sys.host, s, i)
    requires Effects(sys.host, After(sys.host, op, s, i), op, s, i)
    ensures var h' := After(sys.host, op, s, i); var wire' := sys.wire - {Command(op, Tag(s, i))};
            && (forall c | c in wire' :: WireOk(h', sys.procs, c))
            && (forall s' | s' in sys.procs :: PcOk(h', wire', s', sys.procs[s']))
  {
    var h, h' := sys.host, After(sys.host, op, s, i);
    var wire' := sys.wire - {Command(op, Tag(s, i))};
    assert WireOk(h, sys.procs, Command(op, Tag(s, i)));
    forall c | c in wire' ensures WireOk(h', sys.procs, c) {
      assert WireOk(h, sys.procs, c);
    }
    forall s' | s' in sys.procs ensures PcOk(h', wire', s', sys.procs[s']) {
      assert PcOk(h, sys.wire, s', sys.procs[s']);
    }
  }

  lemma EffectKeepsMappings(sys: System, op: Op, s: SessionId, i: nat)
    requires MappingInv(sys) && OnWire(sys.wire, op, s, i) && HasReceipt(sys.host, s, i)
    requires op == Create ==> ReceiptKey(sys.host, s, i) !in sys.host.table
    ensures MappingInv(sys.(host := After(sys.host, op, s, i), wire := sys.wire - {Command(op, Tag(s, i))}))
  {
    var h, h' := sys.host, After(sys.host, op, s, i);
    LandingHitsOwnMapping(sys, Command(op, Tag(s, i)));
    CommandEffects(h, op, s, i);
    EntriesAfter(sys, op, s, i);
    SendersAfter(sys, op, s, i);
    assert WireOk(h, sys.procs, Command(op, Tag(s, i)));
    forall s' | s' in h'.disk ensures DiskOk(h', s') {
      assert DiskOk(h, s');
    }
    forall s' | s' in sys.procs ensures MemoryOk(h', s', sys.procs[s']) {
      assert MemoryOk(h, s', sys.procs[s']);
    }
  }

  /** adb's answer reaches the caller if it still waits for it. */
  lemma ReplyKeepsMappings(sys: System, c: Command, ok: bool)
    requires MappingInv(sys) && c !in sys.wire
    requires c.op == Create && ok ==> OnServer(sys.host, c.tag.session, c.tag.index)
    requires c.op == Remove ==> !OnServer(sys.host, c.tag.session, c.tag.index)
    ensures MappingInv(sys.(procs := Replied(sys, c, ok)))
  {
    var s := c.tag.session;
    var procs' := Replied(sys, c, ok);
    if procs' != sys.procs {
      assert PcOk(sys.host, sys.wire, s, sys.procs[s]);
      LocalStepKeepsMappings(sys, sys.(procs := procs'), s, procs'[s]);
    }
  }

  lemma LandKeepsMappings(sys: System, c: Command)
    requires MappingInv(sys)
    ensures MappingInv(ApplyLand(sys, c))
  {
    if c in sys.wire {
      LandingHitsOwnMapping(sys, c);
      if c.op == Create && ReceiptKey(sys.host, c.tag.session, c.tag.index) in sys.host.table {
        RefusalKeepsMappings(sys, c);
      } else {
        PerformanceKeepsMappings(sys, c);
      }
    }
  }

  /** The endpoint of a new mapping is in use. */
  lemma RefusalKeepsMappings(sys: System, c: Command)
    requires MappingInv(sys) && c in sys.wire && HasReceipt(sys.host, c.tag.session, c.tag.index)
    requires c.op == Create && ReceiptKey(sys.host, c.tag.session, c.tag.index) in sys.host.table
    ensures MappingInv(ApplyLand(sys, c))
  {
    var sent := sys.(wire := sys.wire - {c});
    LoseKeepsMappings(sys, c);
    ReplyKeepsMappings(sent, c, false);
    assert Replied(sent, c, false) == Replied(sys, c, false);
  }

  /** The command takes effect. */
  lemma PerformanceKeepsMappings(sys: System, c: Command)
    requires MappingInv(sys) && c in sys.wire && HasReceipt(sys.host, c.tag.session, c.tag.index)
    requires c.op == Create ==> ReceiptKey(sys.host, c.tag.session, c.tag.index) !in sys.host.table
    requires c.op == Remove ==> OnServer(sys.host, c.tag.session, c.tag.index)
    ensures MappingInv(ApplyLand(sys, c))
  {
    var s, i := c.tag.session, c.tag.index;
    var done := sys.(host := After(sys.host, c.op, s, i), wire := sys.wire - {c});
    EffectKeepsMappings(sys, c.op, s, i);
    CommandEffects(sys.host, c.op, s, i);
    ReplyKeepsMappings(done, c, true);
    PerformanceIs(sys, c);
    assert Replied(done, c, true) == Replied(sys, c, true);
  }

  lemma PerformanceIs(sys: System, c: Command)
    requires c in sys.wire && HasReceipt(sys.host, c.tag.session, c.tag.index)
    requires (ReceiptKey(sys.host, c.tag.session, c.tag.index) in sys.host.table) == (c.op == Remove)
    ensures ApplyLand(sys, c) == sys.(host := After(sys.host, c.op, c.tag.session, c.tag.index),
                                      wire := sys.wire - {c}, procs := Replied(sys, c, true))
  {
  }

  lemma InspectKeepsMappings(sys: System, s: SessionId, i: nat)
    requires MappingInv(sys) && s in sys.procs && s in sys.host.targets
    ensures MappingInv(ApplyInspect(sys, s, sys.procs[s], i))
  {
    var p := sys.procs[s];
    assert MemoryOk(sys.host, s, p) && PcOk(sys.host, sys.wire, s, p);
    var sys' := ApplyInspect(sys, s, p, i);
    if sys' != sys {
      assert MemState(p, i, Created) ==> OnServer(sys.host, s, i);
      assert PcOk(sys.host, sys.wire, s, sys'.procs[s]);
      LocalStepKeepsMappings(sys, sys', s, sys'.procs[s]);
    }
  }

  lemma ReturnKeepsMappings(sys: System, s: SessionId, ok: bool)
    requires MappingInv(sys) && s in sys.procs && s in sys.host.targets
    ensures MappingInv(ApplyReturn(sys, s, sys.procs[s], ok))
  {
    var p := sys.procs[s];
    assert PcOk(sys.host, sys.wire, s, p);
    var sys' := ApplyReturn(sys, s, p, ok);
    if sys' != sys {
      LocalStepKeepsMappings(sys, sys', s, sys'.procs[s]);
    }
  }

  lemma CrashKeepsMappings(sys: System, s: SessionId)
    requires MappingInv(sys) && s in sys.procs && s in sys.host.targets
    ensures MappingInv(ApplyCrash(sys, s, sys.procs[s]))
  {
    var sys' := ApplyCrash(sys, s, sys.procs[s]);
    forall k | k in sys'.host.table ensures EntryOk(sys'.host, sys'.procs, k) {
      assert EntryOk(sys.host, sys.procs, k);
    }
    forall c | c in sys'.wire ensures WireOk(sys'.host, sys'.procs, c) {
      assert WireOk(sys.host, sys.procs, c);
    }
  }

  lemma RestartKeepsMappings(sys: System, s: SessionId)
    requires MappingInv(sys) && s in sys.host.targets
    ensures MappingInv(ApplyRestart(sys, s))
  {
    var sys' := ApplyRestart(sys, s);
    if sys' != sys {
      assert s in sys.host.disk ==> DiskOk(sys.host, s);
      forall k | k in sys'.host.table ensures EntryOk(sys'.host, sys'.procs, k) {
        assert EntryOk(sys.host, sys.procs, k);
      }
      forall c | c in sys'.wire ensures WireOk(sys'.host, sys'.procs, c) {
        assert WireOk(sys.host, sys.procs, c);
      }
    }
  }

  /** A step that owes the mapping invariant nothing. */
  ghost predicate Light(sys: System, sys': System, s: SessionId)
    requires s in sys.procs
  {
    && sys'.host == sys.host && sys'.wire == sys.wire && s in sys'.procs
    && sys'.procs == sys.procs[s := sys'.procs[s]]
    && sys'.procs[s].memory.resources == sys.procs[s].memory.resources
    && (sys'.procs[s].pc == sys.procs[s].pc || PcOk(sys.host, sys.wire, s, sys'.procs[s]))
  }

  lemma LightSteps(sys: System, s: SessionId, step: Step)
    requires s in sys.procs && s in sys.host.targets
    requires step.Preflight? || step.Abort? || step.Claim? || step.ProbeStopped?
    ensures Light(sys, ApplyOwn(sys, s, sys.procs[s], step), s)
  {
  }

  lemma LightAppSteps(sys: System, s: SessionId, step: Step)
    requires s in sys.procs && s in sys.host.targets
    requires step.BeginLaunch? || step.Start? || step.ForceStop? || step.Close?
    ensures Light(sys, ApplyOwn(sys, s, sys.procs[s], step), s)
  {
  }

  lemma LightStepKeepsMappings(sys: System, sys': System, s: SessionId)
    requires MappingInv(sys) && s in sys.procs && Light(sys, sys', s)
    ensures MappingInv(sys')
  {
    assert PcOk(sys.host, sys.wire, s, sys.procs[s]);
    LocalStepKeepsMappings(sys, sys', s, sys'.procs[s]);
  }

  lemma OwnStepKeepsMappings(sys: System, s: SessionId, step: Step)
    requires MappingInv(sys) && s in sys.procs && s in sys.host.targets
    ensures MappingInv(ApplyOwn(sys, s, sys.procs[s], step))
  {
    match step
    case Write(j, fate) => WriteKeepsMappings(sys, s, j, fate);
    case Inspect(i) => InspectKeepsMappings(sys, s, i);
    case Issue => IssueKeepsMappings(sys, s);
    case Return(ok) => ReturnKeepsMappings(sys, s, ok);
    case Crash => CrashKeepsMappings(sys, s);
    case _ =>
      if step.Preflight? || step.Abort? || step.Claim? || step.ProbeStopped? {
        LightSteps(sys, s, step);
      } else {
        LightAppSteps(sys, s, step);
      }
      LightStepKeepsMappings(sys, ApplyOwn(sys, s, sys.procs[s], step), s);
  }

  lemma StepKeepsMappings(sys: System, ev: Event)
    requires MappingInv(sys) && !ev.Vanish?
    ensures MappingInv(Apply(sys, ev))
  {
    match ev
    case Own(s, step) => if s in sys.host.targets && s in sys.procs { OwnStepKeepsMappings(sys, s, step); }
    case Restart(s) => if s in sys.host.targets { RestartKeepsMappings(sys, s); }
    case Land(c) => LandKeepsMappings(sys, c);
    case Lose(c) => LoseKeepsMappings(sys, c);
    case AppExit(app) =>
  }

  // ---------------------------------------------------------------- AppInv is kept

  lemma WrittenProcessOk(sys: System, s: SessionId, j: Journal)
    requires AppInv(sys) && s in sys.procs && s in sys.host.targets
    requires Resume(sys.host.targets[s], sys.procs[s], j).Some?
    ensures var q := Resume(sys.host.targets[s], sys.procs[s], j).value;
            && AppOk(sys.host.(disk := sys.host.disk[s := j]), sys.running, sys.leases, s, q)
            && AppOk(sys.host, sys.running, sys.leases, s, q.(pc := Idle))
            && (Recorded(sys.host, s).appCleanupRequired && !j.appCleanupRequired ==>
                  s !in Launchers(sys.running, AppOf(sys.host.targets[s])))
  {
    assert AppOk(sys.host, sys.running, sys.leases, s, sys.procs[s]);
  }

  lemma WriteKeepsApps(sys: System, s: SessionId, j: Journal, fate: Fate)
    requires AppInv(sys) && s in sys.procs && s in sys.host.targets
    ensures AppInv(ApplyWrite(sys, s, sys.procs[s], j, fate))
  {
    if Resume(sys.host.targets[s], sys.procs[s], j).Some? {
      WrittenProcessOk(sys, s, j);
      var sys' := ApplyWrite(sys, s, sys.procs[s], j, fate);
      forall s' | s' in sys'.procs && s' != s ensures AppOk(sys'.host, sys'.running, sys'.leases, s', sys'.procs[s']) {
        assert AppOk(sys.host, sys.running, sys.leases, s', sys.procs[s']);
      }
      forall app, s' | app in sys'.running && s' in sys'.running[app] ensures LauncherOk(sys'.host, app, s') {
        assert LauncherOk(sys.host, app, s');
        assert s' == s ==> s in Launchers(sys.running, app);
      }
    }
  }

  /** `sys'` differs from `sys` in the process of `s` and perhaps in its lease. */
  ghost predicate OwnPart(sys: System, sys': System, s: SessionId)
    requires s in sys.host.targets
  {
    var app := AppOf(sys.host.targets[s]);
    && sys'.host == sys.host && sys'.running == sys.running
    && s in sys'.procs && sys'.procs == sys.procs[s := sys'.procs[s]]
    && (|| sys'.leases == sys.leases
        || (app !in sys.leases && sys'.leases == sys.leases[app := s])
        || (app in sys.leases && sys.leases[app] == s && sys'.leases == sys.leases - {app}))
    && AppOk(sys.host, sys'.running, sys'.leases, s, sys'.procs[s])
  }

  /** A step that changes at most the process of `s`, and its lease. */
  lemma LocalStepKeepsApps(sys: System, sys': System, s: SessionId)
    requires AppInv(sys) && s in sys.host.targets
    requires OwnPart(sys, sys', s)
    ensures AppInv(sys')
  {
    forall s' | s' in sys'.procs && s' != s ensures AppOk(sys'.host, sys'.running, sys'.leases, s', sys'.procs[s']) {
      assert AppOk(sys.host, sys.running, sys.leases, s', sys.procs[s']);
    }
    forall app | app in sys'.leases ensures LeaseOk(sys'.host, sys'.procs, app, sys'.leases[app]) {
      assert app in sys.leases ==> LeaseOk(sys.host, sys.procs, app, sys.leases[app]);
    }
  }

  lemma ListingStepsAreLocal(sys: System, s: SessionId, step: Step)
    requires s in sys.procs && s in sys.host.targets && AppOk(sys.host, sys.running, sys.leases, s, sys.procs[s])
    requires step.Preflight? || step.Abort?
    ensures OwnPart(sys, ApplyOwn(sys, s, sys.procs[s], step), s)
  {
  }

  lemma InspectIsLocal(sys: System, s: SessionId, i: nat)
    requires s in sys.procs && s in sys.host.targets && AppOk(sys.host, sys.running, sys.leases, s, sys.procs[s])
    ensures OwnPart(sys, ApplyInspect(sys, s, sys.procs[s], i), s)
  {
  }

  lemma CallStepsAreLocal(sys: System, s: SessionId, step: Step)
    requires s in sys.procs && s in sys.host.targets && AppOk(sys.host, sys.running, sys.leases, s, sys.procs[s])
    requires step.Issue? || step.Return?
    ensures OwnPart(sys, ApplyOwn(sys, s, sys.procs[s], step), s)
  {
    match sys.procs[s].pc
    case CreateReady(i) => CallPcIsLocal(sys, s, sys.wire + {Command(Create, Tag(s, i))}, Creating(i, None));
    case RemoveReady(i) => CallPcIsLocal(sys, s, sys.wire + {Command(Remove, Tag(s, i))}, Removing(i, None));
    case Creating(i, _) => CallPcIsLocal(sys, s, sys.wire, CreateAcked(i)); CallPcIsLocal(sys, s, sys.wire, Idle);
    case Removing(i, _) => CallPcIsLocal(sys, s, sys.wire, Removed(i)); CallPcIsLocal(sys, s, sys.wire, Idle);
    case _ =>
  }

  lemma CallPcIsLocal(sys: System, s: SessionId, wire: set<Command>, pc: Pc)
    requires s in sys.procs && s in sys.host.targets && AppOk(sys.host, sys.running, sys.leases, s, sys.procs[s])
    requires !sys.procs[s].pc.Closed?
    requires pc.Idle? || pc.Creating? || pc.CreateAcked? || pc.Removing? || pc.Removed?
    ensures OwnPart(sys, SetPc(sys.(wire := wire), s, sys.procs[s], pc), s)
  {
  }

  lemma AppStepsAreLocal(sys: System, s: SessionId, step: Step)
    requires s in sys.procs && s in sys.host.targets && AppOk(sys.host, sys.running, sys.leases, s, sys.procs[s])
    requires step.Claim? || step.BeginLaunch? || step.ProbeStopped? || step.Close?
    ensures OwnPart(sys, ApplyOwn(sys, s, sys.procs[s], step), s)
  {
  }

  lemma LocalEventKeepsApps(sys: System, s: SessionId, step: Step)
    requires AppInv(sys) && s in sys.procs && s in sys.host.targets
    requires !step.Write? && !step.Crash? && !step.Start? && !step.ForceStop?
    ensures AppInv(ApplyOwn(sys, s, sys.procs[s], step))
  {
    if step.Claim? || step.BeginLaunch? || step.ProbeStopped? || step.Close? {
      AppStepsAreLocal(sys, s, step);
    } else if step.Issue? || step.Return? {
      CallStepsAreLocal(sys, s, step);
    } else if step.Inspect? {
      InspectIsLocal(sys, s, step.i);
    } else {
      ListingStepsAreLocal(sys, s, step);
    }
    LocalStepKeepsApps(sys, ApplyOwn(sys, s, sys.procs[s], step), s);
  }

  lemma StartKeepsApps(sys: System, s: SessionId, effect: bool)
    requires AppInv(sys) && s in sys.procs && s in sys.host.targets
    ensures AppInv(ApplyStart(sys, s, sys.procs[s], effect))
  {
    var sys' := ApplyStart(sys, s, sys.procs[s], effect);
    assert AppOk(sys.host, sys.running, sys.leases, s, sys.procs[s]);
    forall s' | s' in sys'.procs ensures AppOk(sys'.host, sys'.running, sys'.leases, s', sys'.procs[s']) {
      assert AppOk(sys.host, sys.running, sys.leases, s', sys.procs[s']);
    }
  }

  /** Nobody is left running in `app`. */
  lemma StopKeepsApps(sys: System, app: App)
    requires AppInv(sys)
    ensures AppInv(sys.(running := sys.running[app := {}]))
  {
    forall s | s in sys.procs ensures AppOk(sys.host, sys.running[app := {}], sys.leases, s, sys.procs[s]) {
      assert AppOk(sys.host, sys.running, sys.leases, s, sys.procs[s]);
    }
  }

  lemma CrashKeepsApps(sys: System, s: SessionId)
    requires AppInv(sys) && s in sys.procs && s in sys.host.targets
    ensures AppInv(ApplyCrash(sys, s, sys.procs[s]))
  {
    var sys' := ApplyCrash(sys, s, sys.procs[s]);
    assert AppOk(sys.host, sys.running, sys.leases, s, sys.procs[s]);
    forall s' | s' in sys'.procs ensures AppOk(sys'.host, sys'.running, sys'.leases, s', sys'.procs[s']) {
      assert AppOk(sys.host, sys.running, sys.leases, s', sys.procs[s']);
    }
    forall app | app in sys'.leases ensures LeaseOk(sys'.host, sys'.procs, app, sys'.leases[app]) {
      assert LeaseOk(sys.host, sys.procs, app, sys.leases[app]);
    }
  }

  lemma RestartKeepsApps(sys: System, s: SessionId)
    requires AppInv(sys) && s in sys.host.targets
    ensures AppInv(ApplyRestart(sys, s))
  {
    var sys' := ApplyRestart(sys, s);
    if sys' != sys {
      var app := AppOf(sys.host.targets[s]);
      assert app in sys.leases ==> LeaseOk(sys.host, sys.procs, app, sys.leases[app]);
      assert s in Launchers(sys.running, app) ==> LauncherOk(sys.host, app, s);
      LocalStepKeepsApps(sys, sys', s);
    }
  }

  /** AppInv looks at no mapping, no wire and no mapping pc. */
  ghost predicate SameButMappings(sys: System, sys': System) {
    && sys'.host.targets == sys.host.targets && sys'.host.disk == sys.host.disk
    && sys'.running == sys.running && sys'.leases == sys.leases && sys'.procs.Keys == sys.procs.Keys
    && forall s | s in sys.procs ::
         sys'.procs[s] == sys.procs[s] || (sys'.procs[s] == sys.procs[s].(pc := sys'.procs[s].pc)
                                           && MappingPc(sys.procs[s].pc) && MappingPc(sys'.procs[s].pc))
  }

  ghost predicate MappingPc(pc: Pc) {
    pc.Creating? || pc.Removing?
  }

  lemma MappingStepKeepsApps(sys: System, sys': System)
    requires AppInv(sys) && SameButMappings(sys, sys')
    ensures AppInv(sys')
  {
    forall s | s in sys'.procs ensures AppOk(sys'.host, sys'.running, sys'.leases, s, sys'.procs[s]) {
      assert AppOk(sys.host, sys.running, sys.leases, s, sys.procs[s]);
    }
    forall app, s | app in sys'.running && s in sys'.running[app] ensures LauncherOk(sys'.host, app, s) {
      assert LauncherOk(sys.host, app, s);
    }
    forall app | app in sys'.leases ensures LeaseOk(sys'.host, sys'.procs, app, sys'.leases[app]) {
      assert LeaseOk(sys.host, sys.procs, app, sys.leases[app]);
    }
  }

  lemma LandLeavesApps(sys: System, c: Command)
    ensures SameButMappings(sys, ApplyLand(sys, c))
  {
    LandsQuietly(sys, c);
  }

  ghost predicate Answers(pc: Pc, pc': Pc) {
    || pc' == pc
    || (pc.Creating? && pc.reply.None? && pc'.Creating? && pc'.i == pc.i)
    || (pc.Removing? && pc.reply.None? && pc'.Removing? && pc'.i == pc.i)
  }

  /** Nothing changes but the mappings, the wire, and the answer that a process waits for. */
  ghost predicate Quiet(sys: System, sys': System) {
    && sys'.host.targets == sys.host.targets && sys'.host.disk == sys.host.disk && sys'.wire <= sys.wire
    && sys'.running == sys.running && sys'.leases == sys.leases && OnlyAnswers(sys.procs, sys'.procs)
  }

  ghost predicate OnlyAnswers(procs: map<SessionId, Process>, procs': map<SessionId, Process>) {
    && procs'.Keys == procs.Keys
    && forall s | s in procs :: procs'[s] == procs[s].(pc := procs'[s].pc) && Answers(procs[s].pc, procs'[s].pc)
  }

  lemma RepliesAnswer(sys: System, c: Command, ok: bool)
    ensures OnlyAnswers(sys.procs, Replied(sys, c, ok))
  {
  }

  lemma LandsQuietly(sys: System, c: Command)
    ensures Quiet(sys, ApplyLand(sys, c))
  {
    RepliesAnswer(sys, c, true);
    RepliesAnswer(sys, c, false);
    LandReplies(sys, c);
  }

  lemma LandReplies(sys: System, c: Command)
    ensures var sys' := ApplyLand(sys, c);
            && sys'.host.targets == sys.host.targets && sys'.host.disk == sys.host.disk && sys'.wire <= sys.wire
            && sys'.running == sys.running && sys'.leases == sys.leases
            && (sys'.procs == sys.procs || sys'.procs == Replied(sys, c, true) || sys'.procs == Replied(sys, c, false))
  {
    if c.op == Create { CreationReplies(sys, c); } else { RemovalReplies(sys, c); }
  }

  lemma CreationReplies(sys: System, c: Command)
    requires c.op == Create
    ensures var sys' := ApplyLand(sys, c);
            && sys'.host.targets == sys.host.targets && sys'.host.disk == sys.host.disk && sys'.wire <= sys.wire
            && sys'.running == sys.running && sys'.leases == sys.leases
            && (sys'.procs == sys.procs || sys'.procs == Replied(sys, c, true) || sys'.procs == Replied(sys, c, false))
  {
  }

  lemma RemovalReplies(sys: System, c: Command)
    requires c.op == Remove
    ensures var sys' := ApplyLand(sys, c);
            && sys'.host.targets == sys.host.targets && sys'.host.disk == sys.host.disk && sys'.wire <= sys.wire
            && sys'.running == sys.running && sys'.leases == sys.leases
            && (sys'.procs == sys.procs || sys'.procs == Replied(sys, c, true) || sys'.procs == Replied(sys, c, false))
  {
  }

  lemma OwnStepKeepsApps(sys: System, s: SessionId, step: Step)
    requires AppInv(sys) && s in sys.procs && s in sys.host.targets
    ensures AppInv(ApplyOwn(sys, s, sys.procs[s], step))
  {
    match step
    case Write(j, fate) => WriteKeepsApps(sys, s, j, fate);
    case Start(effect) => StartKeepsApps(sys, s, effect);
    case ForceStop(effect) => StopKeepsApps(sys, AppOf(sys.host.targets[s]));
    case Crash => CrashKeepsApps(sys, s);
    case _ => LocalEventKeepsApps(sys, s, step);
  }

  lemma StepKeepsApps(sys: System, ev: Event)
    requires AppInv(sys)
    ensures AppInv(Apply(sys, ev))
  {
    match ev
    case Own(s, step) => if s in sys.host.targets && s in sys.procs { OwnStepKeepsApps(sys, s, step); }
    case Restart(s) => if s in sys.host.targets { RestartKeepsApps(sys, s); }
    case Land(c) => LandLeavesApps(sys, c); MappingStepKeepsApps(sys, ApplyLand(sys, c));
    case Lose(c) => MappingStepKeepsApps(sys, Apply(sys, ev));
    case AppExit(app) => StopKeepsApps(sys, app);
    case Vanish(k) => MappingStepKeepsApps(sys, Apply(sys, ev));
  }
}
