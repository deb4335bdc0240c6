/** `AndroidSessionOwner`: the code that one owner runs, step by step, against the shared host. */
module AndroidOwner {
  import opened Basics
  import opened SessionProtocol
  import opened SessionSafety
  import opened SessionTheorems
  import opened SessionConfig
  import opened SessionRecovery
  import opened FixtureListing
  import opened Text
  import opened AdbServer
  import opened SessionJournal

  /** The receipts `[..n]` are cleaned, the next one may have been begun, the rest is as it was. */
  ghost predicate CleanedUpTo(before: seq<Receipt>, after: seq<Receipt>, n: nat) {
    && |after| == |before| && n <= |before|
    && (forall i | 0 <= i < n :: after[i] == before[i].(state := Cleaned))
    && (n < |before| ==>
          after[n] == before[n] || (before[n].state == Created && after[n] == before[n].(state := CleanupStarted)))
    && (forall i | n < i < |before| :: after[i] == before[i])
  }

  /** At most receipt `n` was worked on: it is as it was, in doubt, or cleaned. */
  ghost predicate TouchedAt(before: seq<Receipt>, after: seq<Receipt>, n: nat)
    requires n < |before|
  {
    && |after| == |before| && (forall i | 0 <= i < |before| && i != n :: after[i] == before[i])
    && (|| after[n] == before[n]
        || (before[n].state == Created && after[n] == before[n].(state := CleanupStarted))
        || (before[n].state == Created && after[n] == before[n].(state := Cleaned)))
  }

  lemma CleanedMeansCleaned(before: seq<Receipt>, after: seq<Receipt>)
    ensures CleanedUpTo(before, after, |before|) ==> AllCleaned(after)
    ensures (exists n :: CleanedUpTo(before, after, n)) ==> Ahead(after, before)
  {
    if CleanedUpTo(before, after, |before|) {
      forall r | r in after ensures r.state == Cleaned {
        var i :| 0 <= i < |after| && after[i] == r;
      }
    }
  }

  /** The next receipt is cleaned as well. */
  lemma OneMoreCleaned(before: seq<Receipt>, mid: seq<Receipt>, n: nat)
    requires CleanedUpTo(before, mid, n) && n < |mid| && mid[n..] == before[n..]
    ensures mid[n] == before[n]
    ensures var after := WithState(mid, n, Cleaned);
            CleanedUpTo(before, after, n + 1) && after[n + 1..] == before[n + 1..]
    ensures forall after | TouchedAt(mid, after, n) ::
              CleanedUpTo(before, after, n) || CleanedUpTo(before, after, n + 1)
    ensures before[..n + 1] == before[..n] + [before[n]]
  {
    assert mid[n] == mid[n..][0] && before[n] == before[n..][0];
    assert forall i | n <= i < |mid| :: mid[i] == mid[n..][i - n] && before[i] == before[n..][i - n];
  }

  /** The receipts gained at most one, begun or acknowledged, for the fixture asked for. */
  ghost predicate GainedReceipt(before: seq<Receipt>, after: seq<Receipt>, t: Target, ref: string, id: string) {
    || after == before
    || (id in t.fixtures && after == before + [Receipt(ref, id, t.fixtures[id], CreateStarted)])
    || (id in t.fixtures && after == before + [Receipt(ref, id, t.fixtures[id], Created)])
  }

  /** The requests that change something; `run` and `install` come down to a launch. */
  datatype Request =
    | FixtureRequest(operationRef: string, fixtureId: string)
    | LaunchRequest
    | StopRequest
    | CleanupRequest

  class AndroidSessionOwner {
    const me: SessionId
    const host: AdbHost
    const target: Target
    var resources: seq<Receipt>
    var active: bool
    var appCleanupRequired: bool
    var cleanupKnown: bool
    var leased: bool

    /** `__init__` after `_load_journal`: a new process never adopts a live app. */
    constructor (host: AdbHost, me: SessionId, loaded: Journal)
      requires host.Valid() && me in host.sys.host.targets && me !in host.sys.procs
      requires |Recorded(host.sys.host, me).resources| <= MAX_JOURNAL_RECEIPTS
      requires loaded ==
               if me in host.sys.host.disk then Recorded(host.sys.host, me).(cleanupKnown := false) else EmptyJournal
      modifies host
      ensures At(Idle) && this.host == host && this.me == me && Snapshot() == loaded && !active && !leased
      ensures old(host.trace) <= host.trace && host.sys.host == old(host.sys.host) && host.heard == old(host.heard)
    {
      this.host, this.me, this.target := host, me, host.sys.host.targets[me];
      resources, active, leased := loaded.resources, false, false;
      appCleanupRequired, cleanupKnown := loaded.appCleanupRequired, loaded.cleanupKnown;
      new;
      host.Perform(Restart(me));
    }

    /** `_load_journal` on the journal that is there. */
    static method Load(host: AdbHost, me: SessionId, fingerprint: string) returns (loaded: Option<Journal>)
      requires host.Valid() && me in host.sys.host.targets && me in host.sys.host.disk
      ensures var j := Recorded(host.sys.host, me);
              && (loaded.Some? ==>
                    && loaded.value == j.(cleanupKnown := false)
                    && |j.resources| <= MAX_JOURNAL_RECEIPTS)
              && (Named(j.resources) ==> (loaded.Some? <==> |j.resources| <= MAX_JOURNAL_RECEIPTS))
    {
      var journal, target := host.sys.host.disk[me], host.sys.host.targets[me];
      var id := Identity(me, fingerprint);
      loaded := LoadJournal(id, target, Encode(id, journal, JNull));
      host.Invariants();
      EncodedReceipts(target, id, journal);
      if Named(journal.resources) { JournalRoundTrip(id, target, journal, JNull); }
      assert loaded.Some? ==> loaded.value.resources == journal.resources;
    }

    /**
     A process for session `me`, or the error that ends it at once. Reading the journal fails unless it is
     `readable`: not because there is no file, which is an empty journal.
     */
    static method Open(host: AdbHost, me: SessionId, fingerprint: string, readable: bool)
      returns (owner: AndroidSessionOwner?, r: Outcome)
      requires host.Valid() && me in host.sys.host.targets && me !in host.sys.procs
      modifies host
      ensures host.Valid() && old(host.trace) <= host.trace && host.sys.host == old(host.sys.host)
      ensures r.Ok? <==> owner != null
      ensures host.heard == old(host.heard)
      ensures owner != null ==>
                fresh(owner) && owner.host == host && owner.me == me && owner.At(Idle) && !owner.active && !owner.leased
                && owner.resources == Recorded(host.sys.host, me).resources
                && owner.appCleanupRequired == Recorded(host.sys.host, me).appCleanupRequired
                && (me in host.sys.host.disk ==> !owner.cleanupKnown)
      ensures me in host.sys.host.disk && Named(Recorded(host.sys.host, me).resources) ==>
                (r.Ok? <==> readable && |Recorded(host.sys.host, me).resources| <= 64)
      ensures me !in host.sys.host.disk ==> (r.Ok? <==> readable)
      ensures !readable ==> r == Err(SessionFailure(Unknown))
    {
      owner := null;
      if !readable { return null, Err(SessionFailure(Unknown)); }
      if me !in host.sys.host.disk {
        owner := new AndroidSessionOwner(host, me, EmptyJournal);
        return owner, Ok;
      }
      var loaded := Load(host, me, fingerprint);
      if loaded.None? { return null, Err(SessionFailure(Unknown)); }
      owner := new AndroidSessionOwner(host, me, loaded.value);
      r := Ok;
    }

    function Snapshot(): Journal
      reads this
    {
      Journal(resources, cleanupKnown, appCleanupRequired)
    }

    ghost predicate Attached()
      reads this, host
    {
      host.Valid() && me in host.sys.host.targets && host.sys.host.targets[me] == target && me in host.sys.procs
    }

    /** The fields are what the protocol says the process of `me` has in memory, and it is at `pc`. */
    ghost predicate At(pc: Pc)
      reads this, host
    {
      Attached() && host.sys.procs[me] == Process(Snapshot(), active, leased, pc)
    }

    ghost predicate OnDisk(j: Journal)
      reads this, host
    {
      me in host.sys.host.disk && host.sys.host.disk[me] == j
    }

    // -------------------------------------------------------------- the journal

    /**
     `_record`: the fields replace the journal, or the operation is over. An error does not say whether the
     journal was replaced: the directory is synced after that.
     */
    method Record() returns (r: Outcome)
      requires Attached() && Resume(target, host.sys.procs[me], Snapshot()).Some?
      modifies host
      ensures Attached() && old(host.trace) <= host.trace
      ensures var q := Resume(target, old(host.sys.procs[me]), Snapshot()).value;
              host.sys.procs[me] == if r.Ok? then q else q.(pc := Idle)
      ensures r.Ok? ==> OnDisk(Snapshot())
      ensures r.Err? ==> OnDisk(Snapshot()) || Recorded(host.sys.host, me) == old(Recorded(host.sys.host, me))
      ensures r.Err? ==> host.heard.last == Some(r.failure)
      ensures Heeded(old(host.heard), host.heard, r.Ok?)
      ensures !host.troubled ==> !old(host.troubled) && r.Ok?
    {
      var fault, replaced := host.Elapse(me);
      host.Step(me, Write(Snapshot(), if fault.None? then Durable else if replaced then Unconfirmed else Lost));
      r := if fault.Some? then Err(fault.value) else Ok;
    }

    /** The app of this session is not running, as far as it was launched by any session. */
    ghost predicate AppGone()
      reads this, host
    {
      Launchers(host.sys.running, AppOf(target)) == {}
    }

    /** Nobody holds the lease of the app. */
    ghost predicate LeaseFree()
      reads this, host
    {
      AppOf(target) !in host.sys.leases
    }

    /** `_record` between two operations, after at most `cleanup_known` changed. */
    method RecordAtRest(ghost known: bool) returns (r: Outcome)
      requires Attached()
      requires host.sys.procs[me] == Process(Snapshot().(cleanupKnown := known), active, leased, Idle)
      modifies host
      ensures At(Idle) && old(host.trace) <= host.trace && (r.Ok? ==> OnDisk(Snapshot()))
      ensures r.Err? ==> host.heard.last == Some(r.failure)
      ensures Heeded(old(host.heard), host.heard, r.Ok?)
      ensures !host.troubled ==> !old(host.troubled) && r.Ok?
    {
      r := Record();
    }

    // -------------------------------------------------------------- listings

    /** `_fixture_mapping_state` */
    method FixtureMappingState(f: Fixture, ghost pc: Pc) returns (state: MappingState, r: Outcome)
      requires At(pc) && !Awaiting(pc)
      modifies host
      ensures At(pc) && old(host.trace) <= host.trace
      ensures Recorded(host.sys.host, me) == old(Recorded(host.sys.host, me))
      ensures OnDisk(old(Recorded(host.sys.host, me))) <==> old(OnDisk(Recorded(host.sys.host, me)))
      ensures r.Ok? ==> state == Lookup(host.sys.host.table, target.serial, f)
      ensures Heeded(old(host.heard), host.heard, r.Ok?)
      ensures !host.troubled ==> !old(host.troubled) && r.Ok? && host.sys.host.table == old(host.sys.host.table)
    {
      state := MappingUnsafe;
      var fault, output := host.List(me, f.kind);
      if fault.Some? { return state, Err(SessionFailure(Unavailable)); }
      var mappings := FixtureMappings(f.kind, target.serial, output);
      ghost var transport: string, rows: seq<Mapping> :| Solid(transport)
          && Lists(rows, host.sys.host.table, f.kind, target.serial)
        && (forall m | m in rows :: Printable(m)) && output == PrintListing(f.kind, transport, rows);
      forall m | m in rows && f.kind == Reverse ensures m.serial == target.serial {
        assert Listed(f.kind, target.serial, Slot(f.kind, m));
      }
      ListingRoundTrip(f.kind, transport, rows, target.serial);
      if mappings.None? { return state, Err(SessionFailure(Unknown)); }
      host.Invariants();
      ListingAnswersLookup(rows, host.sys.host.table, target.serial, f);
      state := MappingStateIn(mappings.value, target.serial, f);
      r := Ok;
    }

    // -------------------------------------------------------------- fixtures

    /** adb starts to work on the receipt that was just written. */
    method SendCommand(i: nat, ghost op: Op)
      requires At(if op == Create then CreateReady(i) else RemoveReady(i))
      modifies host
      ensures At(if op == Create then Creating(i, None) else Removing(i, None)) && old(host.trace) <= host.trace
      ensures host.sys.host == old(host.sys.host)
      ensures host.troubled == old(host.troubled) && host.heard == old(host.heard)
    {
      host.Step(me, Issue);
    }

    method TakeAnswer(i: nat, ok: bool, ghost op: Op, ghost reply: Option<bool>)
      requires At(if op == Create then Creating(i, reply) else Removing(i, reply)) && (ok ==> reply == Some(true))
      modifies host
      ensures At(if !ok then Idle else if op == Create then CreateAcked(i) else Removed(i))
              && old(host.trace) <= host.trace
      ensures host.sys.host == old(host.sys.host)
      ensures host.troubled == old(host.troubled) && host.heard == old(host.heard)
    {
      host.Step(me, Return(ok));
    }

    /** The adb call that creates or removes a mapping: it may fail, take effect, both or neither. */
    method CallAdb(i: nat, ghost op: Op) returns (r: Outcome)
      requires At(if op == Create then CreateReady(i) else RemoveReady(i))
      modifies host
      ensures old(host.trace) <= host.trace
      ensures r.Ok? ==> At(if op == Create then CreateAcked(i) else Removed(i))
      ensures r.Err? ==> At(Idle) && r.failure.SessionFailure?
      ensures Recorded(host.sys.host, me) == old(Recorded(host.sys.host, me))
      ensures me in host.sys.host.disk <==> old(me in host.sys.host.disk)
      ensures Heeded(old(host.heard), host.heard, r.Ok?)
      ensures !host.troubled ==>
                !old(host.troubled) && r.Ok? && (op == Remove ==> Freed(host.sys.host, me, Snapshot(), i))
    {
      SendCommand(i, op);
      var fault, _ := host.Elapse(me);
      var reply := host.sys.procs[me].pc.reply;
      var ok := fault.None? && reply == Some(true);
      TakeAnswer(i, ok, op, reply);
      r := if ok then Ok else Err(SessionFailure(Unhealthy));
    }

    /** `_fixture`, from the preflight to the receipt that announces the creation. */
    method AnnounceFixture(operationRef: string, fixtureId: string) returns (r: Outcome)
      requires At(Idle) && fixtureId in target.fixtures
      requires forall item | item in resources :: !(item.fixtureId == fixtureId && item.state == Created)
      requires Lookup(host.sys.host.table, target.serial, target.fixtures[fixtureId]).MappingAbsent?
      modifies this`resources, host
      ensures old(host.trace) <= host.trace
      ensures r.Ok? ==> At(CreateReady(|old(resources)|)) && OnDisk(Snapshot())
      ensures r.Err? ==> At(Idle)
      ensures resources ==
              old(resources) + [Receipt(operationRef, fixtureId, target.fixtures[fixtureId], CreateStarted)]
      ensures Heeded(old(host.heard), host.heard, r.Ok?)
      ensures !host.troubled ==> !old(host.troubled) && r.Ok?
    {
      host.Step(me, Preflight(operationRef, fixtureId));
      resources := resources + [Receipt(operationRef, fixtureId, target.fixtures[fixtureId], CreateStarted)];
      r := Record();
    }

    /** `_fixture`, from the announced creation on. */
    method CreateFixture(n: nat) returns (r: Outcome)
      requires At(CreateReady(n)) && n < |resources| && resources[n].state == CreateStarted
      modifies this`resources, this`cleanupKnown, host
      ensures At(Idle) && old(host.trace) <= host.trace
      ensures r.Ok? ==> OnDisk(Snapshot()) && resources == old(WithState(resources, n, Created))
      ensures r.Err? ==> resources == old(resources) || resources == old(WithState(resources, n, Created))
      ensures r.Err? && resources == old(resources) ==> !cleanupKnown
      ensures r.Err? && !OnDisk(Snapshot()) ==> host.heard.last == Some(r.failure)
      ensures Heeded(old(host.heard), host.heard, r.Ok?)
      ensures !host.troubled ==> !old(host.troubled) && r.Ok?
    {
      r := CallAdb(n, Create);
      if r.Err? {
        cleanupKnown := false;
        var recorded := RecordAtRest(old(cleanupKnown));
        if recorded.Err? { r := recorded; }
        return;
      }
      resources := WithState(resources, n, Created);
      r := Record();
    }

    /** `_fixture`, once the request is known to be admissible. */
    method PreflightAndCreate(operationRef: string, fixtureId: string) returns (r: Outcome)
      requires At(Idle) && fixtureId in target.fixtures
      requires forall item | item in resources :: !(item.fixtureId == fixtureId && item.state == Created)
      modifies this`resources, this`cleanupKnown, host
      ensures At(Idle) && old(host.trace) <= host.trace
      ensures GainedReceipt(old(resources), resources, target, operationRef, fixtureId)
      ensures r.Ok? ==>
                OnDisk(Snapshot())
                && resources == old(resources) + [Receipt(operationRef, fixtureId, target.fixtures[fixtureId], Created)]
      ensures Heeded(old(host.heard), host.heard, r.Ok?)
      ensures !host.troubled ==>
                && !old(host.troubled)
                && (r.Ok? <==>
                      old(Lookup(host.sys.host.table, target.serial, target.fixtures[fixtureId])).MappingAbsent?)
    {
      var state;
      state, r := FixtureMappingState(target.fixtures[fixtureId], Idle);
      if r.Err? { return; }
      if state != MappingAbsent { return Err(SessionFailure(Unavailable)); }
      var n := |resources|;
      r := AnnounceFixture(operationRef, fixtureId);
      if r.Ok? { r := CreateFixture(n); }
    }

    /** The fixture is configured, not created yet, and its endpoint is free. */
    predicate Available(fixtureId: string)
      reads this, host
    {
      && fixtureId in target.fixtures
      && (forall item | item in resources :: !(item.fixtureId == fixtureId && item.state == Created))
      && Lookup(host.sys.host.table, target.serial, target.fixtures[fixtureId]).MappingAbsent?
    }

    /** `_fixture`: a failed creation leaves its receipt in doubt, for recovery to leave alone. */
    method Fixture(operationRef: string, fixtureId: string) returns (r: Outcome)
      requires At(Idle)
      modifies this`resources, this`cleanupKnown, host
      ensures At(Idle) && old(host.trace) <= host.trace
      ensures GainedReceipt(old(resources), resources, target, operationRef, fixtureId)
      ensures fixtureId !in target.fixtures ==>
                r == Err(SessionFailure(Unavailable)) && resources == old(resources) && host.trace == old(host.trace)
      ensures fixtureId in target.fixtures
              && (exists item | item in old(resources) :: item.fixtureId == fixtureId && item.state == Created) ==>
                r == Err(SessionFailure(Invalid)) && resources == old(resources) && host.trace == old(host.trace)
      ensures r.Ok? ==>
                && fixtureId in target.fixtures && OnDisk(Snapshot())
                && (forall item | item in old(resources) :: !(item.fixtureId == fixtureId && item.state == Created))
                && resources == old(resources) + [Receipt(operationRef, fixtureId, target.fixtures[fixtureId], Created)]
                && OnServer(host.sys.host, me, |old(resources)|)
      ensures Heeded(old(host.heard), host.heard, r.Ok?)
      ensures !host.troubled ==> !old(host.troubled) && (r.Ok? <==> old(Available(fixtureId)))
    {
      if fixtureId !in target.fixtures { return Err(SessionFailure(Unavailable)); }
      if exists item | item in resources :: item.fixtureId == fixtureId && item.state == Created {
        return Err(SessionFailure(Invalid));
      }
      r := PreflightAndCreate(operationRef, fixtureId);
      if r.Ok? { CreatedIsOnServer(|old(resources)|); }
    }

    lemma CreatedIsOnServer(n: nat)
      requires At(Idle) && n < |resources| && resources[n].state == Created
      ensures OnServer(host.sys.host, me, n)
    {
      host.Invariants();
      assert MemoryOk(host.sys.host, me, host.sys.procs[me]) && MemState(host.sys.procs[me], n, Created);
    }

    // -------------------------------------------------------------- cleanup

    /** `_revalidate`: the device may no longer be the one that was selected. */
    method Revalidate() returns (r: Outcome)
      requires At(Idle)
      modifies host
      ensures At(Idle) && old(host.trace) <= host.trace && r != Err(OsFailure)
      ensures Recorded(host.sys.host, me) == old(Recorded(host.sys.host, me))
              && (me in host.sys.host.disk <==> old(me in host.sys.host.disk))
      ensures Heeded(old(host.heard), host.heard, r.Ok?)
      ensures r.Ok? ==> host.heard.identified > old(host.heard).identified
      ensures !host.troubled ==> !old(host.troubled) && r.Ok? && host.sys.host.table == old(host.sys.host.table)
      ensures !host.troubled ==> AppGone() == old(AppGone()) && LeaseFree() == old(LeaseFree())
    {
      var fault, same := host.Ask(me, true);
      if fault.Some? { return Err(SessionFailure(Unavailable)); }
      if !same { return Err(SessionFailure(IdentityUnknown)); }
      r := Ok;
    }

    method InspectReceipt(n: nat, ghost pc: Pc)
      requires At(pc) && n < |resources| && ((pc == Idle && resources[n].state == Created) || pc == Removed(n))
      requires var seen := Lookup(host.sys.host.table, target.serial, resources[n].fixture);
               seen.MappingAbsent? || (pc == Idle && seen.MappingExact?)
      modifies host
      ensures var seen := old(Lookup(host.sys.host.table, target.serial, resources[n].fixture));
              At(if seen.MappingAbsent? then Gone(n) else Exact(n))
      ensures old(host.trace) <= host.trace && host.sys.host == old(host.sys.host)
      ensures host.troubled == old(host.troubled) && host.heard == old(host.heard)
    {
      host.Step(me, Inspect(n));
    }

    method GiveUp(ghost pc: Pc)
      requires At(pc) && (pc.Removed? || pc.Stopped?)
      modifies host
      ensures At(Idle) && old(host.trace) <= host.trace && host.sys.host == old(host.sys.host)
      ensures host.troubled == old(host.troubled) && host.heard == old(host.heard)
    {
      host.Step(me, Abort);
    }

    /** The listing no longer shows the mapping: its receipt is cleaned. */
    method MarkCleaned(n: nat) returns (r: Outcome)
      requires At(Gone(n)) && n < |resources|
      modifies this`resources, host
      ensures At(Idle) && old(host.trace) <= host.trace && resources == old(WithState(resources, n, Cleaned))
      ensures r.Ok? ==> OnDisk(Snapshot())
      ensures Heeded(old(host.heard), host.heard, r.Ok?)
      ensures !host.troubled ==> !old(host.troubled) && r.Ok?
    {
      resources := WithState(resources, n, Cleaned);
      r := Record();
    }

    method AnnounceRemoval(n: nat) returns (r: Outcome)
      requires At(Exact(n)) && n < |resources|
      modifies this`resources, host
      ensures old(host.trace) <= host.trace && resources == old(WithState(resources, n, CleanupStarted))
      ensures At(if r.Ok? then RemoveReady(n) else Idle)
      ensures Heeded(old(host.heard), host.heard, r.Ok?)
      ensures !host.troubled ==> !old(host.troubled) && r.Ok?
    {
      resources := WithState(resources, n, CleanupStarted);
      r := Record();
    }

    /** The removal must be acknowledged by a listing without the endpoint. */
    method AcknowledgeRemoval(n: nat) returns (r: Outcome)
      requires At(Removed(n)) && n < |resources|
      modifies this`resources, host
      ensures At(Idle) && old(host.trace) <= host.trace
      ensures r.Ok? ==> OnDisk(Snapshot()) && resources == old(WithState(resources, n, Cleaned))
      ensures r.Err? ==> resources == old(resources) || resources == old(WithState(resources, n, Cleaned))
      ensures !host.troubled && old(Freed(host.sys.host, me, Snapshot(), n)) ==> r.Ok?
      ensures Heeded(old(host.heard), host.heard, r.Ok?)
      ensures !host.troubled ==> !old(host.troubled)
    {
      var state;
      state, r := FixtureMappingState(resources[n].fixture, Removed(n));
      if r.Err? || state != MappingAbsent {
        GiveUp(Removed(n));
        return if r.Err? then r else Err(SessionFailure(Unknown));
      }
      InspectReceipt(n, Removed(n));
      r := MarkCleaned(n);
    }

    /** The removal of a mapping that the listing showed to be exactly the recorded one. */
    method RemoveMapping(n: nat) returns (r: Outcome)
      requires At(Exact(n)) && n < |resources| && resources[n].state == Created
      modifies this`resources, host
      ensures At(Idle) && old(host.trace) <= host.trace
      ensures r.Ok? ==> OnDisk(Snapshot()) && resources == old(WithState(resources, n, Cleaned))
      ensures r.Err? ==> TouchedAt(old(resources), resources, n)
      ensures Heeded(old(host.heard), host.heard, r.Ok?)
      ensures !host.troubled ==> !old(host.troubled) && r.Ok?
    {
      r := AnnounceRemoval(n);
      if r.Err? { return; }
      r := CallAdb(n, Remove);
      if r.Err? { return; }
      r := AcknowledgeRemoval(n);
    }

    /** In a closed world the listing never shows another mapping in the place of a created one. */
    lemma NeverUnsafe(n: nat)
      requires At(Idle) && MemState(host.sys.procs[me], n, Created)
      ensures !Lookup(host.sys.host.table, target.serial, resources[n].fixture).MappingUnsafe?
    {
      host.Invariants();
      CreatedMappingsAreListed(host.sys, me, n);
    }

    /** The round for a created receipt. */
    method CleanCreated(n: nat) returns (r: Outcome)
      requires At(Idle) && n < |resources| && resources[n].state == Created
      modifies this`resources, host
      ensures At(Idle) && old(host.trace) <= host.trace
      ensures r.Ok? ==> OnDisk(Snapshot()) && resources == old(WithState(resources, n, Cleaned))
      ensures r.Err? ==> TouchedAt(old(resources), resources, n)
      ensures Heeded(old(host.heard), host.heard, r.Ok?)
      ensures !host.troubled ==> !old(host.troubled) && r.Ok?
    {
      var state;
      state, r := FixtureMappingState(resources[n].fixture, Idle);
      if r.Err? { return; }
      NeverUnsafe(n);
      if state == MappingUnsafe { return Err(SessionFailure(Unknown)); }
      InspectReceipt(n, Idle);
      if state == MappingAbsent {
        r := MarkCleaned(n);
      } else {
        r := RemoveMapping(n);
      }
    }

    /** One round of the loop of `_cleanup`. */
    method CleanReceipt(n: nat) returns (r: Outcome)
      requires At(Idle) && n < |resources| && OnDisk(Snapshot())
      modifies this`resources, host
      ensures At(Idle) && old(host.trace) <= host.trace
      ensures r.Ok? ==> OnDisk(Snapshot()) && resources == old(WithState(resources, n, Cleaned))
      ensures r.Ok? ==> old(resources[n].state == Created || resources[n].state == Cleaned)
      ensures r.Err? ==> TouchedAt(old(resources), resources, n)
      ensures Heeded(old(host.heard), host.heard, r.Ok?)
      ensures !host.troubled ==>
                && !old(host.troubled)
                && (r.Ok? <==> old(resources[n].state == Created || resources[n].state == Cleaned))
      ensures old(resources[n].state == CreateStarted || resources[n].state == CleanupStarted) ==>
                r == Err(SessionFailure(Unknown)) && resources == old(resources) && host.trace == old(host.trace)
      ensures old(resources[n].state) == Cleaned ==> r == Ok && host.trace == old(host.trace)
    {
      if resources[n].state == Cleaned { assert resources == WithState(resources, n, Cleaned); return Ok; }
      if resources[n].state != Created { return Err(SessionFailure(Unknown)); }
      r := CleanCreated(n);
    }

    /** The loop of `_cleanup`: receipts are cleaned in order, up to the first that cannot be. */
    method CleanReceipts() returns (r: Outcome)
      requires At(Idle) && OnDisk(Snapshot())
      modifies this`resources, host
      ensures At(Idle) && old(host.trace) <= host.trace
      ensures r.Ok? ==>
                OnDisk(Snapshot()) && Settled(old(resources)) && CleanedUpTo(old(resources), resources, |resources|)
      ensures r.Err? ==> exists n :: CleanedUpTo(old(resources), resources, n)
      ensures Heeded(old(host.heard), host.heard, r.Ok?)
      ensures !host.troubled ==> !old(host.troubled) && (r.Ok? <==> Settled(old(resources)))
    {
      for n := 0 to |resources|
        invariant At(Idle) && old(host.trace) <= host.trace && OnDisk(Snapshot())
        invariant Heeded(old(host.heard), host.heard, true)
        invariant CleanedUpTo(old(resources), resources, n) && resources[n..] == old(resources)[n..]
        invariant Settled(old(resources)[..n])
        invariant !host.troubled ==> !old(host.troubled)
      {
        OneMoreCleaned(old(resources), resources, n);
        r := CleanReceipt(n);
        if r.Err? { return; }
      }
      assert old(resources)[..|resources|] == old(resources);
      r := Ok;
    }

    method RevalidateAndClean() returns (r: Outcome)
      requires At(Idle) && OnDisk(Snapshot())
      modifies this`resources, host
      ensures At(Idle) && old(host.trace) <= host.trace
      ensures r.Ok? ==>
                OnDisk(Snapshot()) && Settled(old(resources)) && CleanedUpTo(old(resources), resources, |resources|)
      ensures r.Err? ==> exists n :: CleanedUpTo(old(resources), resources, n)
      ensures Heeded(old(host.heard), host.heard, r.Ok?)
      ensures r.Ok? ==> host.heard.identified > old(host.heard).identified
      ensures !host.troubled ==> !old(host.troubled) && (r.Ok? <==> Settled(old(resources)))
    {
      assert CleanedUpTo(resources, resources, 0);
      r := Revalidate();
      if r.Ok? { r := CleanReceipts(); }
    }

    /**
     `_cleanup`: on success every receipt is cleaned, in memory and on disk. A failure leaves a cleaned
     prefix, at most one receipt newly in doubt, and the rest as it was. When nothing goes wrong outside it
     succeeds exactly if no receipt is in doubt.
     */
    method Cleanup() returns (r: Outcome)
      requires At(Idle)
      modifies this`resources, this`cleanupKnown, host
      ensures At(Idle) && old(host.trace) <= host.trace
      ensures r.Ok? ==>
                && cleanupKnown && OnDisk(Snapshot()) && Settled(old(resources))
                && CleanedUpTo(old(resources), resources, |resources|)
      ensures r.Err? ==> exists n :: CleanedUpTo(old(resources), resources, n)
      ensures Heeded(old(host.heard), host.heard, r.Ok?)
      ensures r.Ok? ==> host.heard.identified > old(host.heard).identified
      ensures !host.troubled ==> !old(host.troubled) && (r.Ok? <==> Settled(old(resources)))
    {
      cleanupKnown := false;
      assert CleanedUpTo(resources, resources, 0);
      r := RecordAtRest(old(cleanupKnown));
      if r.Err? { return; }
      r := RevalidateAndClean();
      if r.Err? { return; }
      cleanupKnown := true;
      r := RecordAtRest(false);
    }

    // -------------------------------------------------------------- the app

    predicate LeaseIsMine()
      reads this, host
    {
      AppOf(target) in host.sys.leases && host.sys.leases[AppOf(target)] == me
    }

    lemma LeasesAgree(pc: Pc)
      requires At(pc)
      ensures leased <==> LeaseIsMine()
    {
      host.Invariants();
      assert AppOk(host.sys.host, host.sys.running, host.sys.leases, me, host.sys.procs[me]);
    }

    /** The exclusive, non-blocking lock on the app's lease file. */
    method LockLease() returns (r: Outcome)
      requires At(Idle) && !leased
      modifies this`leased, host
      ensures At(Idle) && old(host.trace) <= host.trace
      ensures leased <==> r.Ok?
      ensures Heeded(old(host.heard), host.heard, r.Ok?)
      ensures !host.troubled ==> !old(host.troubled) && (r.Ok? <==> old(LeaseFree()))
    {
      var fault, _ := host.Elapse(me);
      if fault.Some? { return Err(SessionFailure(Unavailable)); }
      if AppOf(target) in host.sys.leases { return Err(SessionFailure(Busy)); }
      host.Step(me, Claim);
      leased := true;
      r := Ok;
    }

    /** `_claim_app` */
    method ClaimApp() returns (r: Outcome)
      requires At(Idle)
      modifies this`leased, host
      ensures At(Idle) && old(host.trace) <= host.trace
      ensures r.Ok? <==> leased
      ensures old(leased) ==> r.Ok?
      ensures r.Ok? ==> LeaseIsMine()
      ensures Heeded(old(host.heard), host.heard, r.Ok?)
      ensures !host.troubled ==> !old(host.troubled) && (r.Ok? <==> old(leased) || old(LeaseFree()))
    {
      r := Ok;
      if !leased { r := LockLease(); }
      LeasesAgree(Idle);
    }

    /** The claim of a live app, on disk before the app is started. */
    method AnnounceLaunch() returns (r: Outcome)
      requires At(Idle) && leased
      modifies this`active, this`appCleanupRequired, host
      ensures At(if r.Ok? then LaunchReady else Idle) && old(host.trace) <= host.trace
      ensures active && appCleanupRequired && (r.Ok? ==> OnDisk(Snapshot()))
      ensures Heeded(old(host.heard), host.heard, r.Ok?)
      ensures !host.troubled ==> !old(host.troubled) && r.Ok?
    {
      active := true;
      appCleanupRequired := true;
      host.Step(me, BeginLaunch);
      r := Record();
    }

    lemma LaunchIsOwed()
      requires At(LaunchReady)
      ensures Recorded(host.sys.host, me).appCleanupRequired
    {
      host.Invariants();
      assert AppOk(host.sys.host, host.sys.running, host.sys.leases, me, host.sys.procs[me]);
    }

    /** What `am start` does to the app, given that it does something. */
    method StartApp(effect: bool)
      requires At(LaunchReady)
      modifies host
      ensures At(Idle) && old(host.trace) <= host.trace
      ensures host.troubled == old(host.troubled) && host.heard == old(host.heard)
      ensures host.sys.host == old(host.sys.host)
      ensures effect ==> SeenStarted(host.origin, host.trace, |old(host.trace)|, me, AppOf(target))
    {
      LaunchIsOwed();
      ghost var before := host.trace;
      host.Step(me, Start(effect));
      if effect { StartIsSeen(before); }
    }

    lemma StartIsSeen(before: seq<Event>)
      requires At(Idle) && host.trace == before + [Own(me, Start(true))]
      requires Recorded(Run(host.origin, before).host, me).appCleanupRequired
      requires me in Launchers(host.sys.running, AppOf(target))
      ensures SeenStarted(host.origin, host.trace, |before|, me, AppOf(target))
    {
      assert host.trace[..|before|] == before && host.trace[..|before| + 1] == host.trace;
      assert StartedAt(host.origin, host.trace, |before|, me, AppOf(target));
    }

    /** `am start`: it may start the app and still be reported as failed. */
    method AmStart() returns (r: Outcome)
      requires At(LaunchReady)
      modifies host
      ensures At(Idle) && old(host.trace) <= host.trace
      ensures r.Ok? ==> SeenStarted(host.origin, host.trace, |old(host.trace)|, me, AppOf(target))
      ensures Heeded(old(host.heard), host.heard, r.Ok?)
      ensures !host.troubled ==> !old(host.troubled) && r.Ok?
    {
      var fault, started := host.Elapse(me);
      ghost var asked := |host.trace|;
      StartApp(fault.None? || started);
      if fault.Some? { return Err(SessionFailure(Unhealthy)); }
      StartStays(host.origin, host.trace, host.trace, asked, |old(host.trace)|, me, AppOf(target));
      r := Ok;
    }

    /** Whether the app of this session is in the foreground, as far as adb says; it may be as `expected` or not. */
    method Foreground(expected: bool, ghost pc: Pc) returns (own: bool, r: Outcome)
      requires At(pc) && !Awaiting(pc)
      modifies host
      ensures At(pc) && old(host.trace) <= host.trace
      ensures Heeded(old(host.heard), host.heard, r.Ok? && own == expected)
      ensures r.Ok? && own == expected ==> host.heard.looked > old(host.heard).looked
      ensures !host.troubled ==> !old(host.troubled) && r.Ok? && own == expected
    {
      var fault, answer := host.Ask(me, false);
      own := answer == expected;
      r := if fault.None? then Ok else Err(SessionFailure(Unavailable));
    }

    /** `_launch`, from the announced launch on: the app has to come to the foreground. */
    method StartAnnounced() returns (r: Outcome)
      requires At(LaunchReady)
      modifies host
      ensures At(Idle) && old(host.trace) <= host.trace && (r.Ok? ==> OnDisk(Snapshot()))
      ensures r.Ok? ==> SeenStarted(host.origin, host.trace, |old(host.trace)|, me, AppOf(target))
      ensures Heeded(old(host.heard), host.heard, r.Ok?)
      ensures r.Ok? ==> host.heard.looked > old(host.heard).looked
      ensures !host.troubled ==> !old(host.troubled) && r.Ok?
    {
      r := AmStart();
      if r.Err? { return; }
      ghost var started := host.trace;
      var own;
      own, r := Foreground(true, Idle);
      if r.Err? { return; }
      if !own { return Err(SessionFailure(Unhealthy)); }
      r := RecordAtRest(cleanupKnown);
      StartStays(host.origin, started, host.trace, |old(host.trace)|, |old(host.trace)|, me, AppOf(target));
    }

    /** `_launch` */
    method Launch() returns (r: Outcome)
      requires At(Idle)
      modifies this`active, this`appCleanupRequired, this`leased, host
      ensures At(Idle) && old(host.trace) <= host.trace
      ensures r.Ok? ==> active && appCleanupRequired && leased && OnDisk(Snapshot())
      ensures r.Ok? ==> SeenStarted(host.origin, host.trace, |old(host.trace)|, me, AppOf(target))
      ensures Heeded(old(host.heard), host.heard, r.Ok?)
      ensures r.Ok? ==> host.heard.looked > old(host.heard).looked
      ensures !host.troubled ==> !old(host.troubled) && (r.Ok? <==> old(leased) || old(LeaseFree()))
    {
      r := ClaimApp();
      if r.Err? { return; }
      r := AnnounceLaunch();
      if r.Err? { return; }
      ghost var announced := |host.trace|;
      r := StartAnnounced();
      if r.Ok? { StartStays(host.origin, host.trace, host.trace, announced, |old(host.trace)|, me, AppOf(target)); }
    }

    /** `pidof`: nothing runs if it answers nothing; something may run that no session launched, unless `alone`. */
    method PidOf() returns (none: bool, r: Outcome)
      requires At(Idle)
      modifies host
      ensures At(if r.Ok? && none then Stopped else Idle) && old(host.trace) <= host.trace
      ensures r.Ok? && none ==> SeenStopped(host.origin, host.trace, |old(host.trace)|, me, AppOf(target))
      ensures Heeded(old(host.heard), host.heard, r.Ok?)
      ensures !host.troubled ==> !old(host.troubled) && r.Ok? && (none <==> old(AppGone()))
    {
      var fault, alone := host.Elapse(me);
      none := Launchers(host.sys.running, AppOf(target)) == {} && alone;
      if fault.Some? { return none, Err(SessionFailure(Unavailable)); }
      if none {
        ghost var n := |host.trace|;
        host.Step(me, ProbeStopped);
        assert host.trace[..n] + [Own(me, ProbeStopped)] == host.trace;
        assert ProbedAt(host.origin, host.trace, n, me, AppOf(target));
      }
      r := Ok;
    }

    /** `_app_is_stopped` */
    method AppIsStopped() returns (stopped: bool, r: Outcome)
      requires At(Idle)
      modifies host
      ensures At(if r.Ok? && stopped then Stopped else Idle) && old(host.trace) <= host.trace
      ensures r.Ok? && stopped ==> SeenStopped(host.origin, host.trace, |old(host.trace)|, me, AppOf(target))
      ensures Heeded(old(host.heard), host.heard, r.Ok? && stopped)
      ensures r.Ok? && stopped ==> host.heard.looked > old(host.heard).looked
      ensures !host.troubled ==> !old(host.troubled) && r.Ok? && (stopped <==> old(AppGone()))
    {
      stopped, r := PidOf();
      if r.Err? || !stopped { return; }
      var own;
      ghost var probed := host.trace;
      own, r := Foreground(false, Stopped);
      SeenStays(host.origin, probed, host.trace, |old(host.trace)|, |old(host.trace)|, me, AppOf(target));
      if r.Err? || own { stopped := false; GiveUp(Stopped); }
    }

    /** `am force-stop`, for the holder of the app's lease alone. */
    method AmForceStop() returns (r: Outcome)
      requires At(Idle) && leased
      modifies host
      ensures At(Idle) && old(host.trace) <= host.trace
      ensures r.Ok? ==> AppGone()
      ensures Heeded(old(host.heard), host.heard, r.Ok?)
      ensures !host.troubled ==> !old(host.troubled) && r.Ok?
    {
      var fault, effect := host.Elapse(me);
      host.Step(me, ForceStop(fault.None? || effect));
      r := if fault.None? then Ok else Err(SessionFailure(Unhealthy));
    }

    /** The app was seen gone: nothing is owed any more. */
    method SettleApp() returns (r: Outcome)
      requires At(Stopped)
      modifies this`active, this`appCleanupRequired, host
      ensures At(Idle) && old(host.trace) <= host.trace && !active && !appCleanupRequired
      ensures r.Ok? ==> OnDisk(Snapshot())
      ensures Heeded(old(host.heard), host.heard, r.Ok?)
      ensures !host.troubled ==> !old(host.troubled) && r.Ok?
    {
      active := false;
      appCleanupRequired := false;
      r := Record();
    }

    /** `_stop_owned`: without the lease the app may only be found stopped, never be stopped. */
    method StopOwned() returns (r: Outcome)
      requires At(Idle)
      modifies this`active, this`appCleanupRequired, host
      ensures At(Idle) && old(host.trace) <= host.trace
      ensures r.Ok? ==> !active && !appCleanupRequired && OnDisk(Snapshot())
      ensures r.Ok? ==> SeenStopped(host.origin, host.trace, |old(host.trace)|, me, AppOf(target))
      ensures r.Err? ==>
                || (active == old(active) && appCleanupRequired == old(appCleanupRequired))
                || (!active && !appCleanupRequired)
      ensures Heeded(old(host.heard), host.heard, r.Ok?)
      ensures r.Ok? ==> host.heard.looked > old(host.heard).looked
      ensures !host.troubled ==> !old(host.troubled) && (r.Ok? <==> old(leased) || old(AppGone()))
    {
      if leased {
        r := AmForceStop();
        if r.Err? { return; }
      }
      var stopped;
      ghost var asked := |host.trace|;
      stopped, r := AppIsStopped();
      if r.Err? { return; }
      if !stopped { return Err(SessionFailure(if leased then Unhealthy else Unknown)); }
      ghost var probed := host.trace;
      r := SettleApp();
      SeenStays(host.origin, probed, host.trace, asked, |old(host.trace)|, me, AppOf(target));
    }

    // -------------------------------------------------------------- shutdown

    /** `_cleanup`, as its callers see it. */
    method CleanupAll() returns (r: Outcome)
      requires At(Idle)
      modifies this`resources, this`cleanupKnown, host
      ensures At(Idle) && old(host.trace) <= host.trace && Ahead(resources, old(resources))
      ensures r.Ok? ==> cleanupKnown && OnDisk(Snapshot()) && AllCleaned(resources)
      ensures Heeded(old(host.heard), host.heard, r.Ok?)
      ensures r.Ok? ==> host.heard.identified > old(host.heard).identified
      ensures !host.troubled ==> !old(host.troubled) && (r.Ok? <==> Settled(old(resources)))
    {
      r := Cleanup();
      CleanedMeansCleaned(old(resources), resources);
    }

    /** No receipt is in doubt, and the app can be stopped where a stop is owed. */
    ghost predicate CanBeSettled()
      reads this, host
    {
      Settled(resources) && (appCleanupRequired ==> leased || AppGone())
    }

    /** The guarded part of `shutdown`. */
    method Settle() returns (r: Outcome)
      requires At(Idle)
      modifies this, host
      ensures At(Idle) && old(host.trace) <= host.trace && leased == old(leased)
      ensures r.Ok? ==> cleanupKnown && !appCleanupRequired && OnDisk(Snapshot()) && AllCleaned(resources)
      ensures Heeded(old(host.heard), host.heard, r.Ok?)
      ensures r.Ok? ==> host.heard.identified > old(host.heard).identified
      ensures !host.troubled ==> !old(host.troubled) && (r.Ok? <==> old(CanBeSettled()))
    {
      r := Revalidate();
      if r.Err? { return; }
      if appCleanupRequired {
        r := StopOwned();
        if r.Err? { return; }
      }
      r := CleanupAll();
    }

    /** The `finally` of `shutdown`. */
    method Release()
      requires At(Idle)
      modifies this`leased, host
      ensures At(Closed) && old(host.trace) <= host.trace && !leased && host.sys.host == old(host.sys.host)
      ensures host.troubled == old(host.troubled) && host.heard == old(host.heard)
    {
      host.Step(me, Close);
      leased := false;
    }

    /** The `except` of `shutdown`. */
    method RecordUnknown() returns (r: Outcome)
      requires At(Idle)
      modifies this`cleanupKnown, host
      ensures At(Idle) && old(host.trace) <= host.trace && !cleanupKnown
      ensures if r.Ok? then OnDisk(Snapshot()) else host.heard.last == Some(r.failure)
      ensures Heeded(old(host.heard), host.heard, r.Ok?)
      ensures !host.troubled ==> !old(host.troubled) && r.Ok?
    {
      cleanupKnown := false;
      r := RecordAtRest(old(cleanupKnown));
    }

    lemma CleanMeansNothingLeft()
      requires At(Closed) && !appCleanupRequired && OnDisk(Snapshot()) && AllCleaned(resources)
      ensures NothingLeft(host.sys, me)
    {
      assert AllClean(host.sys, me);
      CleanSessionsLeaveNothing(host.origin, host.trace, me);
    }

    /** The guarded part with its `except`: `r` is an error that leaves it. */
    method SettleOrRecord() returns (r: Outcome)
      requires At(Idle)
      modifies this, host
      ensures At(Idle) && old(host.trace) <= host.trace && leased == old(leased)
      ensures r.Ok? ==> OnDisk(Snapshot())
      ensures r.Ok? && cleanupKnown ==> !appCleanupRequired && AllCleaned(resources)
      ensures r.Err? && r.failure.SessionFailure? ==> !cleanupKnown
      ensures Heeded(old(host.heard), host.heard, r.Ok? && cleanupKnown)
      ensures r.Ok? && cleanupKnown ==> host.heard.identified > old(host.heard).identified
      ensures !host.troubled ==> !old(host.troubled) && (r.Ok? && cleanupKnown <==> old(CanBeSettled()))
    {
      var settled := Settle();
      r := settled;
      if settled.Err? && settled.failure.SessionFailure? {
        r := RecordUnknown();
      }
    }

    /**
     `shutdown`: it lets go of the lease in every case, and it returns true only if every receipt is
     cleaned on disk and nothing of the session is left anywhere. `r` is an error that leaves it. When nothing
     goes wrong outside it returns true exactly if the session can be settled.
     */
    method Shutdown() returns (known: bool, r: Outcome)
      requires At(Idle)
      modifies this, host
      ensures At(Closed) && old(host.trace) <= host.trace && !leased && !LeaseIsMine()
      ensures r.Err? ==> !known
      ensures !known ==> !cleanupKnown || (r.Err? && r.failure.OsFailure?)
      ensures r.Ok? ==> OnDisk(Snapshot())
      ensures known ==> AllCleaned(resources) && !appCleanupRequired && NothingLeft(host.sys, me)
      ensures Heeded(old(host.heard), host.heard, known)
      ensures known ==> host.heard.identified > old(host.heard).identified
      ensures !host.troubled ==> !old(host.troubled) && (known <==> old(CanBeSettled()))
    {
      r := SettleOrRecord();
      Release();
      LeasesAgree(Closed);
      known := r.Ok? && cleanupKnown;
      if known { CleanMeansNothingLeft(); }
    }

    // -------------------------------------------------------------- requests

    /** Receipts are only added, and only move forward. */
    ghost predicate Grew(before: seq<Receipt>)
      reads this
    {
      Ahead(resources, before)
    }

    /** What a request needs to succeed, if nothing goes wrong outside. */
    ghost predicate Served(request: Request)
      reads this, host
    {
      match request
      case CleanupRequest => CanBeSettled()
      case FixtureRequest(_, fixtureId) => Available(fixtureId)
      case LaunchRequest => leased || LeaseFree()
      case StopRequest => active && (leased || AppGone())
    }

    /** `handle`: one request at a time; a failed cleanup is recorded as of unknown outcome. */
    method Handle(request: Request) returns (r: Outcome)
      requires At(Idle)
      modifies this, host
      ensures At(Idle) && old(host.trace) <= host.trace && Grew(old(resources))
      ensures r.Ok? && request.CleanupRequest? ==> cleanupKnown && !appCleanupRequired && AllCleaned(resources)
      ensures r.Err? && request.CleanupRequest? && r.failure.SessionFailure? ==> !cleanupKnown
      ensures r.Ok? && request.StopRequest? ==>
                && old(active) && !active && !appCleanupRequired && OnDisk(Snapshot())
                && SeenStopped(host.origin, host.trace, |old(host.trace)|, me, AppOf(target))
      ensures r.Ok? && request.LaunchRequest? ==>
                && active && leased && appCleanupRequired && OnDisk(Snapshot())
                && SeenStarted(host.origin, host.trace, |old(host.trace)|, me, AppOf(target))
      ensures r.Ok? && request.FixtureRequest? ==>
                && request.fixtureId in target.fixtures && OnDisk(Snapshot())
                && OnServer(host.sys.host, me, |old(resources)|)
                && resources == old(resources) + [Receipt(request.operationRef, request.fixtureId,
                                                          target.fixtures[request.fixtureId], Created)]
      ensures !request.CleanupRequest? && !request.FixtureRequest? ==> resources == old(resources)
      ensures Heeded(old(host.heard), host.heard, r.Ok?)
      ensures r.Ok? ==> host.heard.identified > old(host.heard).identified
      ensures !host.troubled ==> !old(host.troubled) && (r.Ok? <==> old(Served(request)))
    {
      match request
      case CleanupRequest =>
        r := CleanupOnRequest();
      case FixtureRequest(ref, id) =>
        r := Revalidate();
        if r.Ok? { r := Fixture(ref, id); }
      case LaunchRequest =>
        r := LaunchOnRequest();
      case StopRequest =>
        r := StopOnRequest();
    }

    method LaunchOnRequest() returns (r: Outcome)
      requires At(Idle)
      modifies this`active, this`appCleanupRequired, this`leased, host
      ensures At(Idle) && old(host.trace) <= host.trace
      ensures r.Ok? ==> active && appCleanupRequired && leased && OnDisk(Snapshot())
      ensures r.Ok? ==> SeenStarted(host.origin, host.trace, |old(host.trace)|, me, AppOf(target))
      ensures Heeded(old(host.heard), host.heard, r.Ok?)
      ensures r.Ok? ==> host.heard.identified > old(host.heard).identified
      ensures !host.troubled ==> !old(host.troubled) && (r.Ok? <==> old(leased) || old(LeaseFree()))
    {
      r := Revalidate();
      if r.Err? { return; }
      ghost var validated := |host.trace|;
      r := Launch();
      if r.Ok? { StartStays(host.origin, host.trace, host.trace, validated, |old(host.trace)|, me, AppOf(target)); }
    }

    /** `_stop`: only for an app that this process has started. */
    method StopOnRequest() returns (r: Outcome)
      requires At(Idle)
      modifies this`active, this`appCleanupRequired, host
      ensures At(Idle) && old(host.trace) <= host.trace
      ensures r.Ok? ==> old(active) && !active && !appCleanupRequired && OnDisk(Snapshot())
      ensures r.Ok? ==> SeenStopped(host.origin, host.trace, |old(host.trace)|, me, AppOf(target))
      ensures Heeded(old(host.heard), host.heard, r.Ok?)
      ensures r.Ok? ==> host.heard.identified > old(host.heard).identified
      ensures !host.troubled ==> !old(host.troubled) && (r.Ok? <==> old(active) && (old(leased) || old(AppGone())))
    {
      r := Revalidate();
      if r.Err? { return; }
      if !active { return Err(SessionFailure(Unknown)); }
      ghost var validated := |host.trace|;
      r := StopOwned();
      if r.Ok? { SeenStays(host.origin, host.trace, host.trace, validated, |old(host.trace)|, me, AppOf(target)); }
    }

    method CleanupOnRequest() returns (r: Outcome)
      requires At(Idle)
      modifies this, host
      ensures At(Idle) && old(host.trace) <= host.trace && Grew(old(resources))
      ensures r.Ok? ==> cleanupKnown && !appCleanupRequired && AllCleaned(resources)
      ensures r.Err? && r.failure.SessionFailure? ==>
                !cleanupKnown && (OnDisk(Snapshot()) || host.heard.last == Some(r.failure))
      ensures Heeded(old(host.heard), host.heard, r.Ok?)
      ensures r.Ok? ==> host.heard.identified > old(host.heard).identified
      ensures !host.troubled ==> !old(host.troubled) && (r.Ok? <==> old(CanBeSettled()))
    {
      r := Ok;
      if appCleanupRequired { r := StopOwned(); }
      if r.Ok? { r := CleanupAll(); }
      if r.Err? && r.failure.SessionFailure? {
        var recorded := RecordUnknown();
        if recorded.Err? { r := recorded; }
      }
    }
  }

  function Succeeded(answers: seq<Outcome>): nat {
    if answers == [] then 0 else Succeeded(answers[..|answers| - 1]) + if answers[|answers| - 1].Ok? then 1 else 0
  }

  lemma OneMoreAnswer(answers: seq<Outcome>, r: Outcome)
    ensures Succeeded(answers + [r]) == Succeeded(answers) + if r.Ok? then 1 else 0
  {
    assert (answers + [r])[..|answers|] == answers;
  }

  /** One answer for each request, up to the first that is an error of the operating system. */
  predicate Answered(requests: seq<Request>, answers: seq<Outcome>) {
    && |answers| <= |requests| && (forall n | 0 <= n < |answers| - 1 :: answers[n] != Err(OsFailure))
    && (|answers| < |requests| ==> answers != [] && answers[|answers| - 1] == Err(OsFailure))
  }

  /**
   The life of one owner process: it loads the journal, serves requests until it is told to stop or an
   error ends it, and shuts down. Whatever everybody else did meanwhile, a true answer means that
   nothing of the session is left. A process that comes up answers its requests, and whenever a request succeeds
   the device was confirmed to be the one selected.
   */
  method Lifetime(host: AdbHost, me: SessionId, fingerprint: string, readable: bool, requests: seq<Request>)
    returns (known: bool, answers: seq<Outcome>)
    requires host.Valid() && me in host.sys.host.targets && me !in host.sys.procs
    modifies host
    ensures host.Valid() && old(host.trace) <= host.trace
    ensures known ==> NothingLeft(host.sys, me) && AllCleaned(Recorded(host.sys.host, me).resources)
    ensures Answered(requests, answers) || (!known && answers == [])
    ensures readable && old(me !in host.sys.host.disk) ==> Answered(requests, answers)
    ensures var receipts := old(Recorded(host.sys.host, me).resources);
            readable && Named(receipts) && |receipts| <= MAX_JOURNAL_RECEIPTS ==> Answered(requests, answers)
    ensures host.heard.identified >= old(host.heard).identified + Succeeded(answers)
  {
    answers := [];
    var owner, r := AndroidSessionOwner.Open(host, me, fingerprint, readable);
    if owner == null { return false, answers; }
    answers := Serve(owner, requests);
    known, r := owner.Shutdown();
  }

  /** The loop over the requests. */
  method Serve(owner: AndroidSessionOwner, requests: seq<Request>) returns (answers: seq<Outcome>)
    requires owner.At(Idle)
    modifies owner, owner.host
    ensures owner.At(Idle) && old(owner.host.trace) <= owner.host.trace
    ensures Answered(requests, answers)
    ensures owner.host.heard.identified >= old(owner.host.heard).identified + Succeeded(answers)
  {
    answers := [];
    for n := 0 to |requests|
      invariant owner.At(Idle) && old(owner.host.trace) <= owner.host.trace
      invariant |answers| == n && forall k | 0 <= k < n :: answers[k] != Err(OsFailure)
      invariant owner.host.heard.identified >= old(owner.host.heard).identified + Succeeded(answers)
    {
      var r := owner.Handle(requests[n]);
      OneMoreAnswer(answers, r);
      answers := answers + [r];
      if r == Err(OsFailure) { return; }
    }
  }

  lemma EncodedReceipts(t: Target, id: Identity, j: Journal)
    ensures var data := Encode(id, j, JNull);
            && data.fields.Keys == JOURNAL_FIELDS && |data.fields["resources"].items| == |j.resources|
            && forall n | 0 <= n < |j.resources| :: ReadReceipt(t, data.fields["resources"].items[n]).Some? ==>
                 ReadReceipt(t, data.fields["resources"].items[n]) == Some(j.resources[n])
  {
    EncodedJournal(id, j, JNull);
    forall n | 0 <= n < |j.resources|
      ensures ReadReceipt(t, Private(j.resources[n])).Some?
              ==> ReadReceipt(t, Private(j.resources[n])) == Some(j.resources[n])
    {
      ReceiptRoundTrip(t, j.resources[n]);
    }
  }

  method MappingStateIn(mappings: seq<Mapping>, serial: string, f: Fixture) returns (state: MappingState)
    ensures state == StateOf(mappings, serial, f)
  {
    var same: seq<Mapping> := [];
    for n := 0 to |mappings|
      invariant same == SameEndpoint(mappings[..n], f)
    {
      assert mappings[..n + 1][..n] == mappings[..n];
      if (if f.kind == Forward then mappings[n].local == f.local else mappings[n].remote == f.remote) {
        same := same + [mappings[n]];
      }
    }
    assert mappings[..|mappings|] == mappings;
    if same == [] { return MappingAbsent; }
    if |same| == 1 && same[0] == MappingOf(serial, f) { return MappingExact; }
    return MappingUnsafe;
  }
}
