/** Which sessions can still be cleaned up. */
module SessionRecovery {
  import opened Basics
  import opened SessionProtocol
  import opened SessionSafety
  import opened SessionTheorems

  lemma {:induction false} ClosedRunsKeepMappings(sys: System, evs: seq<Event>)
    requires MappingInv(sys) && ClosedWorld(evs)
    ensures MappingInv(Run(sys, evs))
    decreases |evs|
  {
    if evs != [] {
      ClosedRunsKeepMappings(sys, evs[..|evs| - 1]);
      StepKeepsMappings(Run(sys, evs[..|evs| - 1]), evs[|evs| - 1]);
    }
  }

  /** The process of `s` is between operations and its journal is up to date. */
  ghost predicate AtRest(sys: System, s: SessionId) {
    && s in sys.host.targets && s in sys.procs && sys.procs[s].pc == Idle
    && s in sys.host.disk && sys.host.disk[s].resources == sys.procs[s].memory.resources
  }

  ghost predicate Settled(resources: seq<Receipt>) {
    forall r | r in resources :: r.state == Created || r.state == Cleaned
  }

  ghost predicate AllCleaned(resources: seq<Receipt>) {
    forall r | r in resources :: r.state == Cleaned
  }

  /** In a closed world the listing always shows a created mapping unchanged. */
  lemma CreatedMappingsAreListed(sys: System, s: SessionId, i: nat)
    requires MappingInv(sys) && s in sys.host.targets && s in sys.procs && MemState(sys.procs[s], i, Created)
    ensures Lookup(sys.host.table, sys.host.targets[s].serial, sys.procs[s].memory.resources[i].fixture).MappingExact?
  {
    assert MemoryOk(sys.host, s, sys.procs[s]) && OnServer(sys.host, s, i);
  }

  /** The removal of a created mapping up to the call. */
  lemma Send(sys: System, s: SessionId, i: nat) returns (evs: seq<Event>)
    requires AtRest(sys, s) && MemState(sys.procs[s], i, Created)
    requires Lookup(sys.host.table, sys.host.targets[s].serial, sys.procs[s].memory.resources[i].fixture).MappingExact?
    ensures ClosedWorld(evs)
    ensures var p := sys.procs[s]; var m := p.memory.(resources := WithState(p.memory.resources, i, CleanupStarted));
            Run(sys, evs) == sys.(host := sys.host.(disk := sys.host.disk[s := m]),
                                  wire := sys.wire + {Command(Remove, Tag(s, i))},
                                  procs := sys.procs[s := p.(memory := m, pc := Removing(i, None))])
  {
    var p := sys.procs[s];
    var m := p.memory.(resources := WithState(p.memory.resources, i, CleanupStarted));
    var s1 := sys.(procs := sys.procs[s := p.(pc := Exact(i))]);
    var s2 := sys.(host := sys.host.(disk := sys.host.disk[s := m]),
                   procs := sys.procs[s := p.(memory := m, pc := RemoveReady(i))]);
    var s3 := s2.(wire := sys.wire + {Command(Remove, Tag(s, i))},
                  procs := sys.procs[s := p.(memory := m, pc := Removing(i, None))]);
    SeenExact(sys, s, i);
    RemovalAnnounced(s1, s, i);
    RemovalIssued(s2, s, i);
    evs := Next(sys, [], sys, Own(s, Inspect(i)), s1);
    evs := Next(sys, evs, s1, Own(s, Write(m, Durable)), s2);
    evs := Next(sys, evs, s2, Own(s, Issue), s3);
  }

  lemma RemovalLands(sys: System, s: SessionId, i: nat)
    requires s in sys.procs && sys.procs[s].pc == Removing(i, None) && OnWire(sys.wire, Remove, s, i)
    requires OnServer(sys.host, s, i)
    ensures Apply(sys, Land(Command(Remove, Tag(s, i)))) ==
            sys.(host := After(sys.host, Remove, s, i), wire := sys.wire - {Command(Remove, Tag(s, i))},
                 procs := sys.procs[s := sys.procs[s].(pc := Removing(i, Some(true)))])
  {
  }

  /** adb performs the removal and says so. */
  lemma PerformRemoval(sys: System, s: SessionId, i: nat) returns (evs: seq<Event>)
    requires s in sys.host.targets && s in sys.procs && sys.procs[s].pc == Removing(i, None)
    requires OnWire(sys.wire, Remove, s, i) && OnServer(sys.host, s, i)
    ensures ClosedWorld(evs)
    ensures Run(sys, evs).procs == sys.procs[s := sys.procs[s].(pc := Removed(i))]
    ensures Run(sys, evs).host == After(sys.host, Remove, s, i)
  {
    var p := sys.procs[s];
    var s1 := Apply(sys, Land(Command(Remove, Tag(s, i))));
    RemovalLands(sys, s, i);
    var s2 := s1.(procs := sys.procs[s := p.(pc := Removed(i))]);
    evs := Next(sys, [], sys, Land(Command(Remove, Tag(s, i))), s1);
    evs := Next(sys, evs, s1, Own(s, Return(true)), s2);
  }

  lemma Receive(sys: System, s: SessionId, i: nat) returns (evs: seq<Event>)
    requires MappingInv(sys) && s in sys.host.targets && s in sys.procs && sys.procs[s].pc == Removing(i, None)
    requires OnWire(sys.wire, Remove, s, i)
    ensures ClosedWorld(evs)
    ensures Run(sys, evs).procs == sys.procs[s := sys.procs[s].(pc := Removed(i))]
    ensures Run(sys, evs).host.disk == sys.host.disk && Run(sys, evs).host.targets == sys.host.targets
    ensures HasReceipt(sys.host, s, i) && ReceiptKey(sys.host, s, i) !in Run(sys, evs).host.table
  {
    LandingHitsOwnMapping(sys, Command(Remove, Tag(s, i)));
    evs := PerformRemoval(sys, s, i);
  }

  /** The listing after the removal agrees, and the receipt says so. */
  lemma Confirm(sys: System, s: SessionId, i: nat) returns (evs: seq<Event>)
    requires s in sys.host.targets && s in sys.procs && sys.procs[s].pc == Removed(i)
    requires i < |sys.procs[s].memory.resources|
    requires Key(sys.host.targets[s].serial, sys.procs[s].memory.resources[i].fixture) !in sys.host.table
    ensures ClosedWorld(evs) && AtRest(Run(sys, evs), s)
    ensures Run(sys, evs).host.targets == sys.host.targets && Run(sys, evs).host.table == sys.host.table
    ensures Run(sys, evs).procs[s].memory.resources == WithState(sys.procs[s].memory.resources, i, Cleaned)
  {
    var p := sys.procs[s];
    var m := p.memory.(resources := WithState(p.memory.resources, i, Cleaned));
    var s1 := sys.(procs := sys.procs[s := p.(pc := Gone(i))]);
    var s2 := sys.(host := sys.host.(disk := sys.host.disk[s := m]),
                   procs := sys.procs[s := p.(memory := m, pc := Idle)]);
    evs := Next(sys, [], sys, Own(s, Inspect(i)), s1);
    evs := Next(sys, evs, s1, Own(s, Write(m, Durable)), s2);
  }

  lemma CleanOne(sys: System, s: SessionId, i: nat) returns (evs: seq<Event>)
    requires MappingInv(sys) && AtRest(sys, s) && MemState(sys.procs[s], i, Created)
    ensures ClosedWorld(evs) && AtRest(Run(sys, evs), s) && MappingInv(Run(sys, evs))
    ensures Run(sys, evs).procs[s].memory.resources == WithState(sys.procs[s].memory.resources, i, Cleaned)
    ensures Run(sys, evs).host.targets == sys.host.targets
    ensures Key(sys.host.targets[s].serial, sys.procs[s].memory.resources[i].fixture) !in Run(sys, evs).host.table
  {
    CreatedMappingsAreListed(sys, s, i);
    evs := Send(sys, s, i);
    var sent := Run(sys, evs);
    ClosedRunsKeepMappings(sys, evs);
    var more := Receive(sent, s, i);
    var received := Run(sent, more);
    evs := Concatenate(sys, evs, more);
    more := Confirm(received, s, i);
    evs := Concatenate(sys, evs, more);
    ClosedRunsKeepMappings(sys, evs);
  }

  lemma {:induction false} CleanFrom(sys: System, s: SessionId, n: nat) returns (evs: seq<Event>)
    requires MappingInv(sys) && AtRest(sys, s) && n <= |sys.procs[s].memory.resources|
    requires Settled(sys.procs[s].memory.resources) && AllCleaned(sys.procs[s].memory.resources[..n])
    ensures ClosedWorld(evs) && AtRest(Run(sys, evs), s) && AllCleaned(Run(sys, evs).procs[s].memory.resources)
    decreases |sys.procs[s].memory.resources| - n
  {
    var m := sys.procs[s].memory.resources;
    if n == |m| {
      evs := [];
      assert m[..n] == m;
    } else {
      assert m[..n + 1] == m[..n] + [m[n]];
      if m[n].state == Cleaned {
        evs := CleanFrom(sys, s, n + 1);
      } else {
        assert m[n] in m;
        evs := CleanOne(sys, s, n);
        var next := Run(sys, evs);
        assert WithState(m, n, Cleaned)[..n + 1] == m[..n] + [m[n].(state := Cleaned)];
        var more := CleanFrom(next, s, n + 1);
        evs := Concatenate(sys, evs, more);
      }
    }
  }

  /** Some closed run from `sys` ends with every receipt of `s` recorded as cleaned. */
  ghost predicate CanBeCleaned(sys: System, s: SessionId) {
    exists evs :: ClosedWorld(evs) && AllCleaned(Recorded(Run(sys, evs).host, s).resources)
  }

  /** A session at rest can be cleaned up completely exactly when none of its receipts is in doubt. */
  lemma CleanableExactlyWhenSettled(sys: System, s: SessionId)
    requires MappingInv(sys) && AtRest(sys, s)
    ensures CanBeCleaned(sys, s) <==> Settled(sys.host.disk[s].resources)
  {
    var d := sys.host.disk[s].resources;
    if Settled(d) {
      var evs := CleanFrom(sys, s, 0);
      assert ClosedWorld(evs) && AllCleaned(Recorded(Run(sys, evs).host, s).resources);
    } else {
      var i: nat :| i < |d| && d[i].state != Created && d[i].state != Cleaned;
      forall evs | ClosedWorld(evs) ensures !AllCleaned(Recorded(Run(sys, evs).host, s).resources) {
        DoubtIsAbsorbing(sys, evs, s, i, d[i].state);
        assert Recorded(Run(sys, evs).host, s).resources[i] in Recorded(Run(sys, evs).host, s).resources;
      }
    }
  }

  /** A receipt that is neither created nor cleaned, in a session without a process, is never cleaned. */
  lemma DoubtStaysUncleaned(sys: System, evs: seq<Event>, s: SessionId)
    requires s !in sys.procs && s in sys.host.disk && !Settled(sys.host.disk[s].resources)
    ensures !AllCleaned(Recorded(Run(sys, evs).host, s).resources)
  {
    var d := sys.host.disk[s].resources;
    var i: nat :| i < |d| && d[i].state != Created && d[i].state != Cleaned;
    DoubtIsAbsorbing(sys, evs, s, i, d[i].state);
    assert Recorded(Run(sys, evs).host, s).resources[i] in Recorded(Run(sys, evs).host, s).resources;
  }

  lemma CleanAfterRestart(sys: System, s: SessionId) returns (evs: seq<Event>)
    requires MappingInv(sys) && s !in sys.procs && s in sys.host.disk
    requires Settled(sys.host.disk[s].resources) && |sys.host.disk[s].resources| <= MAX_JOURNAL_RECEIPTS
    ensures ClosedWorld(evs) && AllCleaned(Recorded(Run(sys, evs).host, s).resources)
  {
    assert DiskOk(sys.host, s);
    var started := Apply(sys, Restart(s));
    StepKeepsMappings(sys, Restart(s));
    evs := Next(sys, [], sys, Restart(s), started);
    var more := CleanFrom(started, s, 0);
    evs := Concatenate(sys, evs, more);
  }

  /**
   After a crash, at any point of any run, some continuation cleans every receipt of the session exactly
   when all of them are cleaned already, or none is in doubt and the journal is short enough to be loaded.
   */
  lemma CleanableAfterACrash(origin: System, trace: seq<Event>, s: SessionId)
    requires Init(origin) && ClosedWorld(trace) && s in Run(origin, trace).procs && s in Run(origin, trace).host.disk
    ensures var now := Run(origin, trace); var left := now.host.disk[s].resources;
            CanBeCleaned(Apply(now, Own(s, Crash)), s)
            <==> AllCleaned(left) || (Settled(left) && |left| <= MAX_JOURNAL_RECEIPTS)
  {
    var now := Run(origin, trace);
    EveryClosedRunKeepsMappings(origin, trace);
    assert DiskOk(now.host, s);
    var crashed := Apply(now, Own(s, Crash));
    StepKeepsMappings(now, Own(s, Crash));
    var left := now.host.disk[s].resources;
    assert s !in crashed.procs && s in crashed.host.disk && crashed.host.disk[s].resources == left;
    if AllCleaned(left) {
      assert ClosedWorld([]) && AllCleaned(Recorded(Run(crashed, []).host, s).resources);
    } else if !Settled(left) {
      forall evs | ClosedWorld(evs) ensures !AllCleaned(Recorded(Run(crashed, evs).host, s).resources) {
        DoubtStaysUncleaned(crashed, evs, s);
      }
    } else if |left| > MAX_JOURNAL_RECEIPTS {
      forall evs | ClosedWorld(evs) ensures !AllCleaned(Recorded(Run(crashed, evs).host, s).resources) {
        OversizedJournalIsDead(crashed, evs, s);
      }
    } else {
      var evs := CleanAfterRestart(crashed, s);
      assert ClosedWorld(evs) && AllCleaned(Recorded(Run(crashed, evs).host, s).resources);
    }
  }
}
