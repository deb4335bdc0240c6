/** The host an owner's code runs on: the adb server, the journals, the leases, and everybody else. */
module AdbServer {
  import opened Basics
  import opened SessionProtocol
  import opened SessionSafety
  import opened SessionTheorems
  import opened SessionConfig
  import opened FixtureListing
  import opened Text

  datatype Code = Invalid | Unavailable | Unknown | Unhealthy | IdentityUnknown | Busy | Cancelled

  /** What the source raises: its own `SessionError`, or an error of the operating system. */
  datatype Failure = SessionFailure(code: Code) | OsFailure

  datatype Outcome = Ok | Err(failure: Failure)

  /**
   What the rest of the world does before the next call of one owner returns: the events of the
   other owners and of the adb server, whether the call fails, and the answer where it is open.
   */
  datatype Turn = Turn(events: seq<Event>, fault: Option<Failure>, answer: bool)

  /**
   What an owner has been told so far: how often the device was confirmed to be the one selected, how often the
   foreground was as it should be, whether some call failed or some question was answered the other way, and the
   last failure of a call.
   */
  datatype Heard = Heard(identified: nat, looked: nat, refused: bool, last: Option<Failure>)

  function Told(before: Heard, fault: Option<Failure>): Heard {
    if fault.Some? then before.(refused := true, last := fault) else before
  }

  /** Nothing is forgotten, and nothing was refused since if all went well. */
  predicate Heeded(before: Heard, after: Heard, ok: bool) {
    && before.identified <= after.identified && before.looked <= after.looked
    && (before.refused ==> after.refused) && (ok && after.refused ==> before.refused)
  }

  /** Everything but the steps of `me`, and no mapping disappears by itself. */
  predicate Foreign(ev: Event, me: SessionId) {
    match ev
    case Own(s, _) => s != me
    case Restart(s) => s != me
    case Vanish(_) => false
    case _ => true
  }

  ghost predicate Awaiting(pc: Pc) {
    (pc.Creating? || pc.Removing?) && pc.reply.None?
  }

  /** What others cannot change for the process of `me`. */
  ghost predicate Undisturbed(sys: System, sys': System, me: SessionId) {
    && sys'.host.targets == sys.host.targets
    && (me in sys'.host.disk <==> me in sys.host.disk) && Recorded(sys'.host, me) == Recorded(sys.host, me)
    && (me in sys'.procs <==> me in sys.procs)
    && (me in sys.procs ==> sys'.procs[me] == sys.procs[me].(pc := sys'.procs[me].pc)
                            && Answers(sys.procs[me].pc, sys'.procs[me].pc))
  }

  /** While `me` waits, its own command is performed, and nobody else changes a mapping, its app or its lease. */
  ghost predicate Calm(sys: System, sys': System, me: SessionId) {
    && me in sys.procs && me in sys'.procs && me in sys'.host.targets
    && (me in sys.host.targets ==> AppLeftAlone(sys, sys', AppOf(sys.host.targets[me])))
    && var pc := sys.procs[me].pc;
    if Awaiting(pc) then
      && Awaited(sys'.procs[me].pc) && sys'.procs[me].pc.reply == Some(true)
      && (pc.Removing? ==> Freed(sys'.host, me, sys'.procs[me].memory, pc.i))
    else sys'.host.table == sys.host.table
  }

  ghost predicate AppLeftAlone(sys: System, sys': System, app: App) {
    Launchers(sys'.running, app) == Launchers(sys.running, app) && (app in sys'.leases <==> app in sys.leases)
  }

  ghost predicate Awaited(pc: Pc) {
    pc.Creating? || pc.Removing?
  }

  ghost predicate Freed(h: Host, me: SessionId, memory: Journal, i: nat)
    requires me in h.targets
  {
    i < |memory.resources| && Key(h.targets[me].serial, memory.resources[i].fixture) !in h.table
  }

  lemma TargetsAreSealed(sys: System, ev: Event)
    ensures Apply(sys, ev).host.targets == sys.host.targets
  {
    match ev
    case Own(s, step) =>
      if s in sys.host.targets && s in sys.procs { OwnTargetsAreSealed(sys, s, step); }
    case _ =>
  }

  lemma OwnTargetsAreSealed(sys: System, s: SessionId, step: Step)
    requires s in sys.host.targets && s in sys.procs
    ensures ApplyOwn(sys, s, sys.procs[s], step).host.targets == sys.host.targets
  {
  }

  lemma ForeignEventsDoNotDisturb(sys: System, ev: Event, me: SessionId)
    requires Foreign(ev, me)
    ensures Undisturbed(sys, Apply(sys, ev), me)
  {
    TargetsAreSealed(sys, ev);
    match ev
    case Own(s, step) => if s in sys.host.targets && s in sys.procs { OtherProcessesPass(sys, me, s, step); }
    case Restart(s) =>
    case Land(c) => LandAnswers(sys, c, me);
    case _ =>
  }

  lemma LandAnswers(sys: System, c: Command, me: SessionId)
    ensures Undisturbed(sys, ApplyLand(sys, c), me)
  {
    LandsQuietly(sys, c);
  }

  /** The step at `k` is one of `me` that found no launcher of the app. */
  ghost predicate ProbedAt(origin: System, trace: seq<Event>, k: nat, me: SessionId, app: App)
    requires k < |trace|
  {
    trace[k] == Own(me, ProbeStopped) && Launchers(Run(origin, trace[..k]).running, app) == {}
  }

  /** The app was seen stopped by `me`, after the first `n` events. */
  ghost predicate SeenStopped(origin: System, trace: seq<Event>, n: nat, me: SessionId, app: App) {
    exists k | n <= k < |trace| :: ProbedAt(origin, trace, k, me, app)
  }

  lemma SeenStays(origin: System, trace: seq<Event>, longer: seq<Event>, n: nat, n': nat, me: SessionId, app: App)
    requires trace <= longer && n' <= n && SeenStopped(origin, trace, n, me, app)
    ensures SeenStopped(origin, longer, n', me, app)
  {
    var k :| n <= k < |trace| && ProbedAt(origin, trace, k, me, app);
    assert longer[..k] == trace[..k];
    assert ProbedAt(origin, longer, k, me, app);
  }

  /** The step at `k` is one of `me` that started the app, with the stop it is then owed already on disk. */
  ghost predicate StartedAt(origin: System, trace: seq<Event>, k: nat, me: SessionId, app: App)
    requires k < |trace|
  {
    && trace[k] == Own(me, Start(true)) && Recorded(Run(origin, trace[..k]).host, me).appCleanupRequired
    && me in Launchers(Run(origin, trace[..k + 1]).running, app)
  }

  /** The app was started by `me`, after the first `n` events. */
  ghost predicate SeenStarted(origin: System, trace: seq<Event>, n: nat, me: SessionId, app: App) {
    exists k | n <= k < |trace| :: StartedAt(origin, trace, k, me, app)
  }

  lemma StartStays(origin: System, trace: seq<Event>, longer: seq<Event>, n: nat, n': nat, me: SessionId, app: App)
    requires trace <= longer && n' <= n && SeenStarted(origin, trace, n, me, app)
    ensures SeenStarted(origin, longer, n', me, app)
  {
    var k :| n <= k < |trace| && StartedAt(origin, trace, k, me, app);
    assert longer[..k] == trace[..k] && longer[..k + 1] == trace[..k + 1];
    assert StartedAt(origin, longer, k, me, app);
  }

  class AdbHost {
    var sys: System
    var script: seq<Turn>
    /** Some call failed, was answered no or was not performed, or somebody else interfered with it. */
    ghost var troubled: bool
    ghost var heard: Heard
    ghost const origin: System
    ghost var trace: seq<Event>

    /** The state is one that the protocol reaches from a fresh host in a closed world. */
    ghost predicate Valid()
      reads this
    {
      Init(origin) && Presentable(origin) && ClosedWorld(trace) && sys == Run(origin, trace)
    }

    lemma Invariants()
      requires Valid()
      ensures MappingInv(sys) && AppInv(sys) && Presentable(sys)
    {
      EveryClosedRunKeepsMappings(origin, trace);
      EveryRunKeepsApps(origin, trace);
      EveryRunKeepsConfig(origin, trace);
    }

    constructor (origin: System, script: seq<Turn>)
      requires Init(origin) && Presentable(origin)
      ensures Valid() && sys == origin && this.script == script && trace == [] && !troubled && !heard.refused
    {
      this.sys, this.script := origin, script;
      this.origin, this.trace, this.troubled, this.heard := origin, [], false, Heard(0, 0, false, None);
    }

    method Perform(ev: Event)
      requires Valid() && !ev.Vanish?
      modifies `sys, `trace
      ensures Valid() && sys == Apply(old(sys), ev) && trace == old(trace) + [ev]
    {
      sys := Apply(sys, ev);
      trace := trace + [ev];
      assert trace[..|trace| - 1] == old(trace);
    }

    /** A step of the process of `me`. */
    method Step(me: SessionId, step: Step)
      requires Valid() && me in sys.host.targets && me in sys.procs
      modifies `sys, `trace
      ensures Valid() && sys == ApplyOwn(old(sys), me, old(sys).procs[me], step)
      ensures trace == old(trace) + [Own(me, step)]
    {
      Perform(Own(me, step));
    }

    /** Time passes for `me`: any steps of everybody else, in any order. */
    method Elapse(me: SessionId) returns (fault: Option<Failure>, answer: bool)
      requires Valid()
      modifies this
      ensures Valid() && Undisturbed(old(sys), sys, me) && old(trace) <= trace
      ensures troubled <==> old(troubled) || fault.Some? || !answer || !Calm(old(sys), sys, me)
      ensures heard == Told(old(heard), fault)
    {
      if script == [] {
        troubled := true;
        heard := Told(heard, Some(OsFailure));
        return Some(OsFailure), false;
      }
      var turn := script[0];
      script := script[1..];
      for n := 0 to |turn.events|
        invariant Valid() && Undisturbed(old(sys), sys, me) && old(trace) <= trace
        invariant troubled == old(troubled) && heard == old(heard)
      {
        if Foreign(turn.events[n], me) {
          ForeignEventsDoNotDisturb(sys, turn.events[n], me);
          Perform(turn.events[n]);
        }
      }
      fault, answer := turn.fault, turn.answer;
      troubled := troubled || fault.Some? || !answer || !Calm(old(sys), sys, me);
      heard := Told(heard, fault);
    }

    /** A question to the device: its identity, or whether the foreground is as expected. */
    method Ask(me: SessionId, identity: bool) returns (fault: Option<Failure>, yes: bool)
      requires Valid()
      modifies this
      ensures Valid() && Undisturbed(old(sys), sys, me) && old(trace) <= trace
      ensures troubled <==> old(troubled) || fault.Some? || !yes || !Calm(old(sys), sys, me)
      ensures heard == if fault.Some? then Told(old(heard), fault)
                       else if !yes then old(heard).(refused := true)
                       else if identity then old(heard).(identified := old(heard).identified + 1)
                       else old(heard).(looked := old(heard).looked + 1)
    {
      fault, yes := Elapse(me);
      if fault.None? {
        heard := if !yes then heard.(refused := true)
                 else if identity then heard.(identified := heard.identified + 1)
                 else heard.(looked := heard.looked + 1);
      }
    }

    /** `adb <kind> --list` for the device of `me`: some listing of the table as it is on return. */
    method List(me: SessionId, kind: Kind) returns (fault: Option<Failure>, output: string)
      requires Valid() && me in sys.host.targets
      modifies this
      ensures Valid() && Undisturbed(old(sys), sys, me) && old(trace) <= trace
      ensures !troubled ==> !old(troubled) && fault.None? && Calm(old(sys), sys, me)
      ensures Heeded(old(heard), heard, fault.None?)
      ensures fault.None? ==>
                exists transport, rows ::
                  && Solid(transport) && Lists(rows, sys.host.table, kind, sys.host.targets[me].serial)
                  && (forall m | m in rows :: Printable(m))
                  && output == PrintListing(kind, transport, rows)
    {
      var answer;
      fault, answer := Elapse(me);
      Invariants();
      var serial := sys.host.targets[me].serial;
      var rows := Enumerate(sys.host.table, kind, serial);
      output := PrintListing(kind, "usb", rows);
      assert Solid("usb");
      forall m | m in rows ensures Printable(m) {
        assert Printable(sys.host.table[Slot(kind, m)].mapping);
      }
    }
  }

  method Enumerate(table: map<Endpoint, Entry>, kind: Kind, serial: string) returns (rows: seq<Mapping>)
    requires Coherent(table)
    ensures Lists(rows, table, kind, serial)
  {
    var todo := set k | k in table && Listed(kind, serial, k);
    rows := [];
    while todo != {}
      invariant forall k | k in todo :: k in table && Listed(kind, serial, k)
      invariant forall m | m in rows ::
                  && Listed(kind, serial, Slot(kind, m)) && Slot(kind, m) !in todo
                  && Slot(kind, m) in table && table[Slot(kind, m)].mapping == m
      invariant forall k | k in table && Listed(kind, serial, k) :: k in todo || table[k].mapping in rows
      invariant forall i, j | 0 <= i < j < |rows| :: Slot(kind, rows[i]) != Slot(kind, rows[j])
      decreases todo
    {
      var k :| k in todo;
      assert Slot(kind, table[k].mapping) == k;
      rows := rows + [table[k].mapping];
      todo := todo - {k};
    }
  }
}
