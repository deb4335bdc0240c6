/** A session whose journal outgrows what can be loaded, one fixture after another. */
module SessionLimit {
  import opened Basics
  import opened SessionProtocol
  import opened SessionSafety
  import opened SessionTheorems
  import opened SessionRecovery

  /** Between two operations, with `n` receipts, all cleaned, and the endpoint of fixture `id` free. */
  ghost predicate Tidy(sys: System, s: SessionId, id: string, n: nat) {
    && s in sys.host.targets && id in sys.host.targets[s].fixtures
    && Key(sys.host.targets[s].serial, sys.host.targets[s].fixtures[id]) !in sys.host.table
    && s in sys.procs && sys.procs[s].pc == Idle
    && |sys.procs[s].memory.resources| == n && AllCleaned(sys.procs[s].memory.resources)
    && Recorded(sys.host, s).resources == sys.procs[s].memory.resources
  }

  /** The process `p` with the journal `m` in memory and on disk, at `pc`. */
  function Saved(sys: System, s: SessionId, p: Process, m: Journal, pc: Pc): System {
    sys.(host := sys.host.(disk := sys.host.disk[s := m]), procs := sys.procs[s := p.(memory := m, pc := pc)])
  }

  function Gained(m: Journal, ref: string, id: string, f: Fixture, state: ReceiptState): Journal {
    m.(resources := m.resources + [Receipt(ref, id, f, state)])
  }

  /** The receipt of one more fixture is on disk. */
  lemma AnnounceNext(sys: System, s: SessionId, ref: string, id: string, n: nat) returns (evs: seq<Event>)
    requires Tidy(sys, s, id, n)
    ensures ClosedWorld(evs)
    ensures var p, f := sys.procs[s], sys.host.targets[s].fixtures[id];
            Run(sys, evs) == Saved(sys, s, p, Gained(p.memory, ref, id, f, CreateStarted), CreateReady(n))
  {
    var p, f := sys.procs[s], sys.host.targets[s].fixtures[id];
    var m := Gained(p.memory, ref, id, f, CreateStarted);
    var s1 := sys.(procs := sys.procs[s := p.(pc := Preflighted(ref, id))]);
    forall r | r in p.memory.resources ensures r.state == Cleaned { }
    evs := Next(sys, [], sys, Own(s, Preflight(ref, id)), s1);
    evs := Next(sys, evs, s1, Own(s, Write(m, Durable)), Saved(sys, s, p, m, CreateReady(n)));
  }

  lemma CreationIssued(sys: System, s: SessionId, n: nat)
    requires s in sys.host.targets && s in sys.procs && sys.procs[s].pc == CreateReady(n)
    ensures Apply(sys, Own(s, Issue)) ==
            sys.(wire := sys.wire + {Command(Create, Tag(s, n))},
                 procs := sys.procs[s := sys.procs[s].(pc := Creating(n, None))])
  {
  }

  lemma CreationLands(sys: System, s: SessionId, n: nat)
    requires s in sys.procs && sys.procs[s].pc == Creating(n, None) && OnWire(sys.wire, Create, s, n)
    requires HasReceipt(sys.host, s, n) && ReceiptKey(sys.host, s, n) !in sys.host.table
    ensures Apply(sys, Land(Command(Create, Tag(s, n)))) ==
            sys.(host := After(sys.host, Create, s, n), wire := sys.wire - {Command(Create, Tag(s, n))},
                 procs := sys.procs[s := sys.procs[s].(pc := Creating(n, Some(true)))])
  {
  }

  /** adb creates the mapping. */
  lemma PerformNext(sys: System, s: SessionId, n: nat) returns (evs: seq<Event>)
    requires s in sys.host.targets && s in sys.procs && sys.procs[s].pc == CreateReady(n)
    requires HasReceipt(sys.host, s, n) && ReceiptKey(sys.host, s, n) !in sys.host.table
    ensures ClosedWorld(evs)
    ensures Run(sys, evs).procs == sys.procs[s := sys.procs[s].(pc := CreateAcked(n))]
    ensures Run(sys, evs).host.disk == sys.host.disk && Run(sys, evs).host.targets == sys.host.targets
  {
    var p := sys.procs[s];
    CreationIssued(sys, s, n);
    var s1 := Apply(sys, Own(s, Issue));
    CreationLands(s1, s, n);
    var s2 := Apply(s1, Land(Command(Create, Tag(s, n))));
    evs := Next(sys, [], sys, Own(s, Issue), s1);
    evs := Next(sys, evs, s1, Land(Command(Create, Tag(s, n))), s2);
    evs := Next(sys, evs, s2, Own(s, Return(true)), s2.(procs := s2.procs[s := p.(pc := CreateAcked(n))]));
    assert s2.procs[s := p.(pc := CreateAcked(n))] == sys.procs[s := p.(pc := CreateAcked(n))];
  }

  /** The creation is acknowledged. */
  lemma AcknowledgeNext(sys: System, s: SessionId, n: nat) returns (evs: seq<Event>)
    requires s in sys.host.targets && s in sys.procs && sys.procs[s].pc == CreateAcked(n)
    requires n < |sys.procs[s].memory.resources|
    ensures ClosedWorld(evs)
    ensures var p := sys.procs[s];
            Run(sys, evs) == Saved(sys, s, p, p.memory.(resources := WithState(p.memory.resources, n, Created)), Idle)
  {
    var p := sys.procs[s];
    var m := p.memory.(resources := WithState(p.memory.resources, n, Created));
    evs := Next(sys, [], sys, Own(s, Write(m, Durable)), Saved(sys, s, p, m, Idle));
  }

  /** The mapping of a receipt that was announced is created and acknowledged. */
  lemma PerformAndAcknowledge(sys: System, s: SessionId, n: nat) returns (evs: seq<Event>)
    requires s in sys.host.targets && s in sys.procs && sys.procs[s].pc == CreateReady(n)
    requires n < |sys.procs[s].memory.resources|
    requires HasReceipt(sys.host, s, n) && ReceiptKey(sys.host, s, n) !in sys.host.table
    ensures ClosedWorld(evs) && AtRest(Run(sys, evs), s) && Run(sys, evs).host.targets == sys.host.targets
    ensures Run(sys, evs).procs[s].memory.resources == WithState(sys.procs[s].memory.resources, n, Created)
  {
    evs := PerformNext(sys, s, n);
    var more := AcknowledgeNext(Run(sys, evs), s, n);
    evs := Concatenate(sys, evs, more);
  }

  /** One more fixture, created. */
  lemma CreateNext(sys: System, s: SessionId, ref: string, id: string, n: nat) returns (evs: seq<Event>)
    requires MappingInv(sys) && Tidy(sys, s, id, n)
    ensures ClosedWorld(evs) && AtRest(Run(sys, evs), s) && MappingInv(Run(sys, evs))
    ensures Run(sys, evs).host.targets == sys.host.targets
    ensures var f := sys.host.targets[s].fixtures[id];
            Run(sys, evs).procs[s].memory.resources == sys.procs[s].memory.resources + [Receipt(ref, id, f, Created)]
  {
    var f := sys.host.targets[s].fixtures[id];
    var m := sys.procs[s].memory.resources;
    evs := AnnounceNext(sys, s, ref, id, n);
    var more := PerformAndAcknowledge(Run(sys, evs), s, n);
    evs := Concatenate(sys, evs, more);
    ClosedRunsKeepMappings(sys, evs);
    assert WithState(m + [Receipt(ref, id, f, CreateStarted)], n, Created) == m + [Receipt(ref, id, f, Created)];
  }

  /** A fixture that is created and cleaned leaves one more cleaned receipt. */
  lemma OneMoreReceipt(sys: System, s: SessionId, ref: string, id: string, n: nat) returns (evs: seq<Event>)
    requires MappingInv(sys) && Tidy(sys, s, id, n)
    ensures ClosedWorld(evs) && MappingInv(Run(sys, evs)) && Tidy(Run(sys, evs), s, id, n + 1)
  {
    evs := CreateNext(sys, s, ref, id, n);
    var created := Run(sys, evs);
    var m, r := sys.procs[s].memory.resources, Receipt(ref, id, sys.host.targets[s].fixtures[id], Created);
    var more := CleanOne(created, s, n);
    evs := Concatenate(sys, evs, more);
    assert WithState(m + [r], n, Cleaned) == m + [r.(state := Cleaned)];
  }

  /** Any number of fixtures, one after the other, in the life of one process. */
  lemma {:induction false} ReceiptsPileUp(sys: System, s: SessionId, id: string, n: nat) returns (evs: seq<Event>)
    requires Init(sys) && s in sys.host.targets && id in sys.host.targets[s].fixtures
    requires Key(sys.host.targets[s].serial, sys.host.targets[s].fixtures[id]) !in sys.host.table
    ensures ClosedWorld(evs) && MappingInv(Run(sys, evs)) && Tidy(Run(sys, evs), s, id, n)
  {
    if n == 0 {
      var started := sys.(procs := sys.procs[s := Process(EmptyJournal, false, false, Idle)]);
      evs := Next(sys, [], sys, Restart(s), started);
      EveryClosedRunKeepsMappings(sys, evs);
    } else {
      evs := ReceiptsPileUp(sys, s, id, n - 1);
      var more := OneMoreReceipt(Run(sys, evs), s, "op", id, n - 1);
      evs := Concatenate(sys, evs, more);
    }
  }

  /**
   A session that creates and cleans 65 fixtures and then crashes has nothing left to clean, and yet it
   never gets a process again: no restart can load its journal, whatever else happens. (The size in bytes of
   a journal is not modelled; it stops such a session after several hundred receipts.)
   */
  lemma BusySessionsDie(sys: System, s: SessionId, id: string, n: nat) returns (evs: seq<Event>)
    requires Init(sys) && s in sys.host.targets && id in sys.host.targets[s].fixtures
    requires Key(sys.host.targets[s].serial, sys.host.targets[s].fixtures[id]) !in sys.host.table
    requires n >= 65
    ensures ClosedWorld(evs) && |Recorded(Run(sys, evs).host, s).resources| == n
    ensures AllCleaned(Recorded(Run(sys, evs).host, s).resources)
    ensures forall more :: s !in Run(Run(sys, evs), more).procs
  {
    evs := ReceiptsPileUp(sys, s, id, n);
    var now := Run(sys, evs);
    evs := Next(sys, evs, now, Own(s, Crash), Apply(now, Own(s, Crash)));
    forall more ensures s !in Run(Run(sys, evs), more).procs {
      OversizedJournalIsDead(Run(sys, evs), more, s);
    }
  }
}
