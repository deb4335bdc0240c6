/** Codex's `.codex/hooks.json`: one installer for all events. */
module CodexHooks {
  import opened Basics
  import opened HookGroups
  import opened HookSettings

  function CodexCommand(event: string): string {
    "mship " + EntryPoint(event) + " --runtime codex"
  }

  function CodexHandler(event: string): Json {
    var handler := map["type" := JString("command"), "command" := JString(CodexCommand(event))];
    JObject(if event == "SessionStart" then handler["statusMessage" := JString("Loading Mothership context")]
            else if event == "PreToolUse" then handler["statusMessage" := JString("Checking Mothership edit policy")]
            else handler)
  }

  function CodexEntry(event: string): Json {
    var hooks := map["hooks" := JList([CodexHandler(event)])];
    JObject(if event == "PreToolUse" then hooks["matcher" := JString("apply_patch|Edit|Write|MultiEdit|NotebookEdit")]
            else hooks)
  }

  lemma SessionCommandIs()
    ensures CodexCommand("SessionStart") == "mship _session-context --runtime codex"
  {
  }

  lemma GuardCommandIs()
    ensures CodexCommand("PreToolUse") == "mship _guard-edit --runtime codex"
  {
    assert "SessionStart"[0] != "PreToolUse"[0];
  }

  lemma DrainCommandIs()
    ensures CodexCommand("Stop") == "mship _drain --runtime codex"
  {
    assert "Stop"[1] != "SessionStart"[1] && "Stop"[0] != "PreToolUse"[0];
  }

  /** The three entries, written out. */
  lemma CodexEntriesAre()
    ensures CodexEntry("SessionStart") == JObject(map["hooks" := JList([JObject(map[
              "type" := JString("command"), "command" := JString("mship _session-context --runtime codex"),
              "statusMessage" := JString("Loading Mothership context")])])])
    ensures CodexEntry("PreToolUse") == JObject(map[
              "matcher" := JString("apply_patch|Edit|Write|MultiEdit|NotebookEdit"),
              "hooks" := JList([JObject(map[
                "type" := JString("command"), "command" := JString("mship _guard-edit --runtime codex"),
                "statusMessage" := JString("Checking Mothership edit policy")])])])
    ensures CodexEntry("Stop") == JObject(map["hooks" := JList([JObject(map[
              "type" := JString("command"), "command" := JString("mship _drain --runtime codex")])])])
  {
    SessionCommandIs();
    GuardCommandIs();
    DrainCommandIs();
    assert "Stop"[1] != "SessionStart"[1] && "Stop"[0] != "PreToolUse"[0] && "SessionStart"[0] != "PreToolUse"[0];
  }

  /** The words of a command of ours: a known entry point, with the runtime option among the rest. */
  predicate CodexWords(words: seq<string>) {
    && |words| >= 4 && words[0] == "mship" && words[1] in {"_session-context", "_guard-edit", "_drain"}
    && exists i | 2 <= i < |words| - 1 :: words[i] == "--runtime" && words[i + 1] == "codex"
  }

  /** A command is not ours that does not start with `mship`, has another entry point, or no `--runtime codex`. */
  lemma OtherWordsAreForeign(words: seq<string>)
    requires || |words| < 2 || words[0] != "mship"
             || words[1] !in ["_session-context", "_guard-edit", "_drain"]
             || forall i | 2 <= i < |words| - 1 && words[i] == "--runtime" :: words[i + 1] != "codex"
    ensures !CodexWords(words)
  {
  }

  /** `split` stands for `shlex.split`, which can fail. */
  function OwnedByCodex(split: string -> Option<seq<string>>): Owner {
    (handler: Json) =>
      && handler.JObject? && "command" in handler.fields && handler.fields["command"].JString?
      && split(handler.fields["command"].s).Some? && CodexWords(split(handler.fields["command"].s).value)
  }

  /** Our own commands have no quotes, so they split into their words. */
  predicate SplitsOurs(split: string -> Option<seq<string>>) {
    forall event | event in EVENTS ::
      split(CodexCommand(event)) == Some(["mship", EntryPoint(event), "--runtime", "codex"])
  }

  lemma CodexEntryIsEntry(split: string -> Option<seq<string>>, event: string)
    requires SplitsOurs(split) && event in EVENTS
    ensures IsEntry(OwnedByCodex(split), CodexEntry(event))
  {
    var words := ["mship", EntryPoint(event), "--runtime", "codex"];
    assert words[2] == "--runtime" && words[2 + 1] == "codex";
    assert CodexWords(words);
    assert Handlers(CodexEntry(event)) == [CodexHandler(event)];
  }

  /** The hooks object; null counts as none at all, any other value that is not an object is refused. */
  function CodexHooks(data: Fields): Option<Fields> {
    if "hooks" !in data || data["hooks"].JNull? then Some(map[])
    else if data["hooks"].JObject? then Some(data["hooks"].fields) else None
  }

  function CodexData(file: Settings): Option<Fields> {
    match file
    case Missing => Some(map[])
    case Decoded(data) => if data.JObject? then Some(data.fields) else None
    case _ => None
  }

  /** The guard over the groups of an event, which lets null pass. */
  predicate Readable(hooks: Fields, event: string) {
    event in hooks && !hooks[event].JNull? ==>
      hooks[event].JList? && forall g | g in hooks[event].items :: WellFormed(g)
  }

  predicate AllReadable(hooks: Fields) {
    forall event | event in EVENTS :: Readable(hooks, event)
  }

  predicate CodexAccepts(file: Settings) {
    && CodexData(file).Some? && CodexHooks(CodexData(file).value).Some?
    && AllReadable(CodexHooks(CodexData(file).value).value)
  }

  /** A null that the guard let pass, where the groups of an event are read. */
  predicate HasNull(hooks: Fields) {
    exists event | event in EVENTS :: NullAt(hooks, event)
  }

  function GroupsIn(hooks: Fields, event: string): seq<Json> {
    if event in hooks && hooks[event].JList? then hooks[event].items else []
  }

  function CodexStep(owned: Owner, hooks: Fields, event: string): Fields {
    if Registered(owned, CodexEntry(event), GroupsIn(hooks, event)) then hooks
    else hooks[event := JList(Reconciled(owned, CodexEntry(event), GroupsIn(hooks, event), true))]
  }

  function CodexSteps(owned: Owner, hooks: Fields, events: seq<string>): Fields {
    if events == [] then hooks
    else CodexStep(owned, CodexSteps(owned, hooks, events[..|events| - 1]), events[|events| - 1])
  }

  lemma {:induction false} CodexStepsAt(owned: Owner, hooks: Fields, events: seq<string>, event: string)
    requires Distinct(events)
    ensures GroupsIn(CodexSteps(owned, hooks, events), event) ==
            if event in events then Reconciled(owned, CodexEntry(event), GroupsIn(hooks, event), true)
            else GroupsIn(hooks, event)
    ensures event !in events ==> (event in CodexSteps(owned, hooks, events) <==> event in hooks)
    ensures event !in events && event in hooks ==> CodexSteps(owned, hooks, events)[event] == hooks[event]
    decreases |events|
  {
    if events != [] {
      var front, last := events[..|events| - 1], events[|events| - 1];
      assert events == front + [last];
      CodexStepsAt(owned, hooks, front, event);
      CodexStepsAt(owned, hooks, front, last);
    }
  }

  lemma EventsAreDistinct()
    ensures Distinct(EVENTS)
  {
    assert "SessionStart"[1] != "Stop"[1];
  }

  predicate NothingToDo(owned: Owner, hooks: Fields) {
    forall event | event in EVENTS :: Registered(owned, CodexEntry(event), GroupsIn(hooks, event))
  }

  /** The text is an object whose hooks, if any, are an object, with well-formed groups for our events, or null. */
  predicate Sensible(file: Settings) {
    file.Missing? ||
    (&& file.Decoded? && file.data.JObject?
     && ("hooks" in file.data.fields && !file.data.fields["hooks"].JNull? ==>
           && file.data.fields["hooks"].JObject?
           && forall event | event in ["SessionStart", "PreToolUse", "Stop"] ::
                event in file.data.fields["hooks"].fields ==> GroupsOrNull(file.data.fields["hooks"].fields[event])))
  }

  predicate GroupsOrNull(value: Json) {
    value.JNull? || (value.JList? && forall g | g in value.items ::
                       g.JObject? && "hooks" in g.fields && g.fields["hooks"].JList?)
  }

  /** One of our events has a null. */
  predicate NullEvent(file: Settings) {
    && file.Decoded? && file.data.JObject? && "hooks" in file.data.fields && file.data.fields["hooks"].JObject?
    && exists event | event in ["SessionStart", "PreToolUse", "Stop"] ::
         event in file.data.fields["hooks"].fields && file.data.fields["hooks"].fields[event] == JNull
  }

  lemma AcceptsTheSensible(file: Settings)
    ensures CodexAccepts(file) <==> Sensible(file)
    ensures CodexAccepts(file) ==> (HasNull(CodexHooks(CodexData(file).value).value) <==> NullEvent(file))
  {
  }

  class CodexSettings {
    const owned: Owner
    var file: Settings

    constructor (split: string -> Option<seq<string>>, file: Settings)
      ensures this.file == file && owned == OwnedByCodex(split)
    {
      this.file := file;
      this.owned := OwnedByCodex(split);
    }

    /** The settings and the hooks object in them; None where either is refused. */
    method Load() returns (loaded: Option<(Fields, Fields)>)
      ensures loaded.None? <==> CodexData(file).None? || CodexHooks(CodexData(file).value).None?
      ensures loaded.Some? ==> loaded.value == (CodexData(file).value, CodexHooks(CodexData(file).value).value)
    {
      var data: Fields := map[];
      match file {
        case Missing =>
        case Blank => return None;
        case NotJson => return None;
        case Decoded(json) =>
          if !json.JObject? { return None; }
          data := json.fields;
      }
      if "hooks" !in data || data["hooks"].JNull? { return Some((data, map[])); }
      loaded := if data["hooks"].JObject? then Some((data, data["hooks"].fields)) else None;
    }

    /** `install_codex_hooks`: all three events are checked before any is changed, and written at once. */
    method Install() returns (status: Status)
      modifies this
      ensures status == Skipped <==> !CodexAccepts(old(file))
      ensures status == Skipped <==> !Sensible(old(file))
      ensures status == Crashed ==> CodexAccepts(old(file)) && NullEvent(old(file))
      ensures NullEvent(old(file)) ==> status in {Skipped, Crashed}
      ensures status in {Skipped, Crashed, UpToDate} ==> file == old(file)
      ensures CodexAccepts(old(file)) ==>
        var hooks := CodexHooks(CodexData(old(file)).value).value;
        && (status == Crashed <==> HasNull(hooks))
        && (!HasNull(hooks) ==> (status == UpToDate <==> NothingToDo(owned, hooks)))
      ensures status == Updated ==> HasOurs(owned, CodexHooks(CodexData(old(file)).value).value)
      ensures status == Installed ==> !HasOurs(owned, CodexHooks(CodexData(old(file)).value).value)
      ensures status in {Installed, Updated} ==>
        var data := CodexData(old(file)).value;
        file == Decoded(JObject(data["hooks" := JObject(CodexSteps(owned, CodexHooks(data).value, EVENTS))]))
    {
      AcceptsTheSensible(file);
      var loaded := Load();
      if loaded.None? { return Skipped; }
      var (data, hooks) := loaded.value;
      var readable := CheckGroups(hooks);
      if !readable { return Skipped; }
      var crashed, changed, found, steps := ReconcileAll(owned, hooks);
      if crashed { return Crashed; }
      if !changed { return UpToDate; }
      file := Decoded(JObject(data["hooks" := JObject(steps)]));
      status := if found then Updated else Installed;
    }
  }

  method CheckGroups(hooks: Fields) returns (readable: bool)
    ensures readable <==> AllReadable(hooks)
  {
    for i := 0 to |EVENTS|
      invariant forall k | 0 <= k < i :: Readable(hooks, EVENTS[k])
    {
      var event := EVENTS[i];
      assert event in EVENTS;
      if event in hooks && !hooks[event].JNull? {
        if !hooks[event].JList? { return false; }
        if exists g | g in hooks[event].items :: !WellFormed(g) { return false; }
      }
    }
    readable := true;
  }

  predicate NullAt(hooks: Fields, event: string) {
    event in hooks && hooks[event].JNull?
  }

  predicate Stale(owned: Owner, hooks: Fields, event: string) {
    !Registered(owned, CodexEntry(event), GroupsIn(hooks, event))
  }

  predicate OursAt(owned: Owner, hooks: Fields, event: string) {
    OwnedCount(owned, GroupsIn(hooks, event)) > 0
  }

  /** A handler of ours under some event. */
  predicate HasOurs(owned: Owner, hooks: Fields) {
    exists event | event in EVENTS :: OursAt(owned, hooks, event)
  }

  lemma HasOursMeans(owned: Owner, hooks: Fields)
    ensures HasOurs(owned, hooks) <==>
            exists event, g, keys, h :: event in EVENTS && g in GroupsIn(hooks, event) && owned(h) && Holds(g, keys, h)
  {
    forall event: string
      ensures OursAt(owned, hooks, event) <==>
              exists g, keys, h :: g in GroupsIn(hooks, event) && owned(h) && Holds(g, keys, h)
    {
      OursAre(owned, GroupsIn(hooks, event));
    }
  }

  /** When event `i` has its turn, its groups are still those of `hooks`. */
  lemma NextEvent(owned: Owner, hooks: Fields, events: seq<string>, i: nat)
    requires Distinct(events) && i < |events|
    ensures var steps := CodexSteps(owned, hooks, events[..i]);
            && (events[i] in steps <==> events[i] in hooks)
            && (events[i] in hooks ==> steps[events[i]] == hooks[events[i]])
            && CodexSteps(owned, hooks, events[..i + 1]) == CodexStep(owned, steps, events[i])
  {
    assert events[..i + 1][..i] == events[..i];
    CodexStepsAt(owned, hooks, events[..i], events[i]);
  }

  method ReconcileAll(owned: Owner, hooks: Fields) returns (crashed: bool, changed: bool, found: bool, steps: Fields)
    requires AllReadable(hooks)
    ensures crashed <==> HasNull(hooks)
    ensures !crashed ==> steps == CodexSteps(owned, hooks, EVENTS)
    ensures !crashed ==> (changed <==> !NothingToDo(owned, hooks)) && (found <==> HasOurs(owned, hooks))
  {
    EventsAreDistinct();
    crashed, changed, found, steps := ReconcileEvents(owned, hooks, EVENTS);
    assert (exists event | event in EVENTS :: Stale(owned, hooks, event)) <==> !NothingToDo(owned, hooks);
  }

  /** Reconciles one event after the other; `crashed` where the groups of one turn out to be null. */
  method ReconcileEvents(owned: Owner, hooks: Fields, events: seq<string>)
    returns (crashed: bool, changed: bool, found: bool, steps: Fields)
    requires Distinct(events) && forall event | event in events :: Readable(hooks, event)
    ensures crashed <==> exists event | event in events :: NullAt(hooks, event)
    ensures !crashed ==> steps == CodexSteps(owned, hooks, events)
    ensures !crashed ==> (changed <==> exists event | event in events :: Stale(owned, hooks, event))
    ensures !crashed ==> (found <==> exists event | event in events :: OursAt(owned, hooks, event))
  {
    crashed, changed, found, steps := false, false, false, hooks;
    for i := 0 to |events|
      invariant ReconciledTo(owned, hooks, events, i, changed, found, steps)
    {
      assert events[i] in events;
      crashed, changed, found, steps := ReconcileNext(owned, hooks, events, i, changed, found, steps);
      if crashed { return; }
    }
    AllReconciled(owned, hooks, events, changed, found, steps);
  }

  /** What the first `n` events amount to. */
  predicate ReconciledTo(owned: Owner, hooks: Fields, events: seq<string>, n: nat, changed: bool, found: bool,
                         steps: Fields)
    requires n <= |events|
  {
    && steps == CodexSteps(owned, hooks, events[..n])
    && (forall k | 0 <= k < n :: !NullAt(hooks, events[k]))
    && (changed <==> exists k | 0 <= k < n :: Stale(owned, hooks, events[k]))
    && (found <==> exists k | 0 <= k < n :: OursAt(owned, hooks, events[k]))
  }

  /** One round of the loop over the events. */
  method ReconcileNext(owned: Owner, ghost hooks: Fields, events: seq<string>, n: nat, changed: bool, found: bool,
                       steps: Fields)
    returns (crashed: bool, changed': bool, found': bool, steps': Fields)
    requires Distinct(events) && n < |events| && Readable(hooks, events[n])
    requires ReconciledTo(owned, hooks, events, n, changed, found, steps)
    ensures crashed <==> NullAt(hooks, events[n])
    ensures !crashed ==> ReconciledTo(owned, hooks, events, n + 1, changed', found', steps')
  {
    NextEvent(owned, hooks, events, n);
    var moved, ours;
    crashed, moved, ours, steps' := ReconcileEvent(owned, hooks, steps, events[n]);
    changed', found' := changed || moved, found || ours;
    if !crashed { OneMoreReconciled(owned, hooks, events, n, changed, found, moved, ours, steps'); }
  }

  lemma OneMoreReconciled(owned: Owner, hooks: Fields, events: seq<string>, n: nat, changed: bool, found: bool,
                          moved: bool, ours: bool, steps: Fields)
    requires n < |events|
    requires ReconciledTo(owned, hooks, events, n, changed, found, CodexSteps(owned, hooks, events[..n]))
    requires !NullAt(hooks, events[n]) && steps == CodexSteps(owned, hooks, events[..n + 1])
    requires (moved <==> Stale(owned, hooks, events[n])) && (ours <==> OursAt(owned, hooks, events[n]))
    ensures ReconciledTo(owned, hooks, events, n + 1, changed || moved, found || ours, steps)
  {
  }

  lemma AllReconciled(owned: Owner, hooks: Fields, events: seq<string>, changed: bool, found: bool, steps: Fields)
    requires ReconciledTo(owned, hooks, events, |events|, changed, found, steps)
    ensures !exists event | event in events :: NullAt(hooks, event)
    ensures steps == CodexSteps(owned, hooks, events)
    ensures changed <==> exists event | event in events :: Stale(owned, hooks, event)
    ensures found <==> exists event | event in events :: OursAt(owned, hooks, event)
  {
    assert events[..|events|] == events;
  }

  /** One event, whose groups are still those of `hooks`. */
  method ReconcileEvent(owned: Owner, ghost hooks: Fields, steps: Fields, event: string)
    returns (crashed: bool, changed: bool, found: bool, steps': Fields)
    requires Readable(hooks, event) && (event in steps <==> event in hooks)
    requires event in hooks ==> steps[event] == hooks[event]
    ensures crashed <==> NullAt(hooks, event)
    ensures !crashed ==> steps' == CodexStep(owned, steps, event)
    ensures !crashed ==> (changed <==> Stale(owned, hooks, event)) && (found <==> OursAt(owned, hooks, event))
  {
    crashed, changed, found, steps' := false, false, false, steps;
    if event in steps && steps[event].JNull? { return true, false, false, steps; }
    var groups := ReadGroups(steps, event);
    var reconciled;
    reconciled, changed, found := Reconcile(owned, CodexEntry(event), groups, true);
    if changed { steps' := steps[event := JList(reconciled)]; }
  }

  method ReadGroups(hooks: Fields, event: string) returns (groups: seq<Json>)
    requires Readable(hooks, event) && !NullAt(hooks, event)
    ensures groups == GroupsIn(hooks, event)
  {
    groups := [];
    if event in hooks { groups := hooks[event].items; }
  }

  // ---------------------------------------------------------------- what an install achieves

  /** Settings with a null for an event pass the guard, and an install crashes on them. */
  lemma NullPassesTheGuard() returns (file: Settings)
    ensures file == Decoded(JObject(map["hooks" := JObject(map["Stop" := JNull])]))
    ensures CodexAccepts(file) && HasNull(CodexHooks(CodexData(file).value).value)
  {
    file := Decoded(JObject(map["hooks" := JObject(map["Stop" := JNull])]));
    assert "Stop" in EVENTS && NullAt(map["Stop" := JNull], "Stop");
  }

  /** All events are registered after an install exactly when no event had a sealed group before it. */
  lemma CodexInstallRegisters(split: string -> Option<seq<string>>, hooks: Fields)
    requires SplitsOurs(split)
    ensures var owned := OwnedByCodex(split);
            NothingToDo(owned, CodexSteps(owned, hooks, EVENTS))
            <==> forall event | event in EVENTS :: forall g | g in GroupsIn(hooks, event) :: !Sealed(owned, g)
  {
    var owned := OwnedByCodex(split);
    EventsAreDistinct();
    forall event | event in EVENTS
      ensures Registered(owned, CodexEntry(event), GroupsIn(CodexSteps(owned, hooks, EVENTS), event))
              <==> forall g | g in GroupsIn(hooks, event) :: !Sealed(owned, g)
    {
      CodexStepsAt(owned, hooks, EVENTS, event);
      CodexEntryIsEntry(split, event);
      ReconciledIsRegistered(owned, CodexEntry(event), GroupsIn(hooks, event), true);
    }
  }

  /** Foreign handlers stay, sealed groups or not, and installing again leaves every event as it is. */
  lemma CodexInstallKeepsForeign(split: string -> Option<seq<string>>, hooks: Fields, event: string)
    requires SplitsOurs(split)
    ensures var owned := OwnedByCodex(split);
            var once := CodexSteps(owned, hooks, EVENTS);
            && ForeignHandlers(owned, GroupsIn(once, event)) == ForeignHandlers(owned, GroupsIn(hooks, event))
            && Malformed(GroupsIn(once, event)) == Malformed(GroupsIn(hooks, event))
            && GroupsIn(CodexSteps(owned, once, EVENTS), event) == GroupsIn(once, event)
  {
    var owned := OwnedByCodex(split);
    var once := CodexSteps(owned, hooks, EVENTS);
    EventsAreDistinct();
    CodexStepsAt(owned, hooks, EVENTS, event);
    CodexStepsAt(owned, once, EVENTS, event);
    if event in EVENTS {
      CodexEntryIsEntry(split, event);
      ReconciledKeepsForeign(owned, CodexEntry(event), GroupsIn(hooks, event), true);
      ReconciledTwice(owned, CodexEntry(event), GroupsIn(hooks, event), true);
    }
  }

  /** An event with a sealed group is not registered after one install, nor after two. */
  lemma SealedNeverRegisters(split: string -> Option<seq<string>>, hooks: Fields, event: string, g: Json)
    requires SplitsOurs(split) && event in EVENTS && g in GroupsIn(hooks, event) && Sealed(OwnedByCodex(split), g)
    ensures var owned := OwnedByCodex(split);
            var once := CodexSteps(owned, hooks, EVENTS);
            !NothingToDo(owned, once) && !NothingToDo(owned, CodexSteps(owned, once, EVENTS))
  {
    var owned := OwnedByCodex(split);
    var once := CodexSteps(owned, hooks, EVENTS);
    CodexInstallRegisters(split, hooks);
    EventsAreDistinct();
    CodexStepsAt(owned, hooks, EVENTS, event);
    KeepsSealed(owned, CodexEntry(event), GroupsIn(hooks, event), g);
    CodexInstallRegisters(split, once);
  }

  /** Our own handler in a group with a timeout is such a group. */
  lemma SealedGroup(split: string -> Option<seq<string>>, event: string) returns (g: Json)
    requires SplitsOurs(split) && event in EVENTS
    ensures WellFormed(g) && Handlers(g) == [CodexHandler(event)] && Sealed(OwnedByCodex(split), g)
  {
    g := JObject(map["hooks" := JList([CodexHandler(event)]), "timeout" := JNumber(5.0)]);
    CodexEntryIsEntry(split, event);
    assert Handlers(CodexEntry(event)) == [CodexHandler(event)];
    assert "timeout" in g.fields.Keys - {"matcher", "hooks"};
    assert [CodexHandler(event)][1..] == [];
  }

  lemma {:induction false} SealedSurvives(owned: Owner, groups: seq<Json>, g: Json)
    requires g in groups && Sealed(owned, g)
    ensures g in SettledAll(owned, groups, true)
  {
    if groups[0] != g { SealedSurvives(owned, groups[1..], g); }
  }

  lemma KeepsSealed(owned: Owner, entry: Json, groups: seq<Json>, g: Json)
    requires g in groups && Sealed(owned, g)
    ensures g in Reconciled(owned, entry, groups, true)
  {
    SealedSurvives(owned, groups, g);
  }
}
