/** Claude's `.claude/settings.json`: one installer for each event. */
module ClaudeHooks {
  import opened Basics
  import opened HookGroups
  import opened HookSettings

  function ClaudeCommand(event: string): string {
    "mship " + EntryPoint(event)
  }

  function Handler(command: string): Json {
    JObject(map["type" := JString("command"), "command" := JString(command)])
  }

  function ClaudeEntry(event: string): Json {
    var hooks := map["hooks" := JList([Handler(ClaudeCommand(event))])];
    JObject(if event == "PreToolUse" then hooks["matcher" := JString("Edit|Write|MultiEdit|NotebookEdit")] else hooks)
  }

  /** Claude's installer knows its handlers by the exact command. */
  function OwnedByCommand(command: string): Owner {
    (handler: Json) =>
      handler.JObject? && "command" in handler.fields && handler.fields["command"] == JString(command)
  }

  /** The three entries, written out. */
  lemma ClaudeEntriesAre()
    ensures EVENTS == ["SessionStart", "PreToolUse", "Stop"]
    ensures ClaudeEntry("SessionStart") == JObject(map["hooks" := JList([JObject(map[
              "type" := JString("command"), "command" := JString("mship _session-context")])])])
    ensures ClaudeEntry("PreToolUse") == JObject(map[
              "matcher" := JString("Edit|Write|MultiEdit|NotebookEdit"),
              "hooks" := JList([JObject(map[
                "type" := JString("command"), "command" := JString("mship _guard-edit")])])])
    ensures ClaudeEntry("Stop") == JObject(map["hooks" := JList([JObject(map[
              "type" := JString("command"), "command" := JString("mship _drain")])])])
  {
    assert ClaudeCommand("SessionStart") == "mship _session-context";
    assert ClaudeCommand("PreToolUse") == "mship _guard-edit";
    assert "Stop"[1] != "SessionStart"[1] && "Stop"[0] != "PreToolUse"[0];
    assert ClaudeCommand("Stop") == "mship _drain";
  }

  lemma ClaudeEntryIsEntry(event: string)
    ensures IsEntry(OwnedByCommand(ClaudeCommand(event)), ClaudeEntry(event))
  {
  }

  predicate ClaudeRegistered(data: Fields, event: string) {
    EventRegistered(OwnedByCommand(ClaudeCommand(event)), ClaudeEntry(event), data, event)
  }

  /** What the file holds as data: nothing at all where it is missing or blank, None where it is refused. */
  function ClaudeData(file: Settings): Option<Fields> {
    match file
    case Missing => Some(map[])
    case Blank => Some(map[])
    case NotJson => None
    case Decoded(data) => if data.JObject? then Some(data.fields) else None
  }

  /** The settings after the installer of one event. */
  function ClaudeStep(data: Fields, event: string): Fields {
    if ClaudeRegistered(data, event) then data else
    var groups := if GroupsOf(data, event).Some? then GroupsOf(data, event).value else [];
    WithGroups(data, event, Reconciled(OwnedByCommand(ClaudeCommand(event)), ClaudeEntry(event), groups, false))
  }

  class ClaudeSettings {
    var file: Settings

    constructor (file: Settings)
      ensures this.file == file
    {
      this.file := file;
    }

    /** `_install_hook_entry`, which puts an object and a list where it finds something else. */
    method InstallHookEntry(event: string) returns (status: Status)
      modifies this
      ensures status == Skipped <==> ClaudeData(old(file)).None?
      ensures status == Skipped <==> old(file).NotJson? || (old(file).Decoded? && !old(file).data.JObject?)
      ensures status == Skipped || status == UpToDate ==> file == old(file)
      ensures status == UpToDate
              <==> ClaudeData(old(file)).Some? && ClaudeRegistered(ClaudeData(old(file)).value, event)
      ensures status == Updated || status == Installed ==>
        var data := ClaudeData(old(file)).value;
        var groups := if GroupsOf(data, event).Some? then GroupsOf(data, event).value else [];
        && file == Decoded(JObject(ClaudeStep(data, event)))
        && (status == Updated <==> OwnedCount(OwnedByCommand(ClaudeCommand(event)), groups) > 0)
      ensures status != Skipped ==> ClaudeData(file) == Some(ClaudeStep(ClaudeData(old(file)).value, event))
    {
      var data: Fields := map[];
      match file {
        case Missing =>
        case Blank =>
        case NotJson => return Skipped;
        case Decoded(loaded) =>
          if !loaded.JObject? { return Skipped; }
          data := loaded.fields;
      }
      var hooks: Fields := map[];
      if "hooks" in data && data["hooks"].JObject? { hooks := data["hooks"].fields; }
      var groups: seq<Json> := [];
      if event in hooks && hooks[event].JList? { groups := hooks[event].items; }
      var entry := ClaudeEntry(event);
      var reconciled, changed, found := Reconcile(OwnedByCommand(ClaudeCommand(event)), entry, groups, false);
      if !changed { return UpToDate; }
      hooks := hooks[event := JList(reconciled)];
      file := Decoded(JObject(data["hooks" := JObject(hooks)]));
      status := if found then Updated else Installed;
    }

    /** The three installers, one after the other, as `init` runs them. */
    method InstallAll() returns (ok: bool)
      modifies this
      ensures ok <==> ClaudeData(old(file)).Some?
      ensures !ok ==> file == old(file)
      ensures ok ==> ClaudeData(file) == Some(ClaudeAll(ClaudeData(old(file)).value))
    {
      var status := InstallHookEntry("SessionStart");
      if status == Skipped { return false; }
      status := InstallHookEntry("PreToolUse");
      status := InstallHookEntry("Stop");
      ok := true;
    }
  }

  function ClaudeAll(data: Fields): Fields {
    ClaudeStep(ClaudeStep(ClaudeStep(data, "SessionStart"), "PreToolUse"), "Stop")
  }

  /** The registration of an event is there, and what else its groups held. */
  predicate ClaudeDone(before: Fields, after: Fields, event: string) {
    ClaudeRegistered(after, event) && ForeignKept(OwnedByCommand(ClaudeCommand(event)), before, after, event)
  }

  /** The event is done, and nothing else in the settings has changed. */
  ghost predicate OnlyThisEvent(before: Fields, after: Fields, event: string) {
    && ClaudeDone(before, after, event) && after - {"hooks"} == before - {"hooks"}
    && forall other: string :: other != event ==> GroupsOf(after, other) == GroupsOf(before, other)
  }

  lemma ClaudeStepRegisters(data: Fields, event: string)
    ensures OnlyThisEvent(data, ClaudeStep(data, event), event)
  {
    var owned, entry := OwnedByCommand(ClaudeCommand(event)), ClaudeEntry(event);
    ClaudeEntryIsEntry(event);
    var groups := if GroupsOf(data, event).Some? then GroupsOf(data, event).value else [];
    var after := Reconciled(owned, entry, groups, false);
    ReconciledIsRegistered(owned, entry, groups, false);
    ReconciledKeepsForeign(owned, entry, groups, false);
    OnlyOneEventChanges(data, event, after);
  }

  lemma DoneBetween(before: Fields, mid: Fields, mid': Fields, after: Fields, event: string)
    requires ClaudeDone(mid, mid', event)
    requires GroupsOf(mid, event) == GroupsOf(before, event) && GroupsOf(after, event) == GroupsOf(mid', event)
    ensures ClaudeDone(before, after, event)
  {
  }

  lemma ThreeEvents(data: Fields, one: Fields, two: Fields, three: Fields)
    requires OnlyThisEvent(data, one, "SessionStart") && OnlyThisEvent(one, two, "PreToolUse")
    requires OnlyThisEvent(two, three, "Stop")
    ensures forall event | event in EVENTS :: ClaudeDone(data, three, event)
    ensures forall other | other !in EVENTS :: GroupsOf(three, other) == GroupsOf(data, other)
  {
    assert "SessionStart" in EVENTS && "PreToolUse" in EVENTS && "Stop" in EVENTS;
    DoneBetween(data, data, one, three, "SessionStart");
    DoneBetween(data, one, two, three, "PreToolUse");
    DoneBetween(data, two, three, three, "Stop");
  }

  /**
   After the three installers the check finds nothing missing, every list of groups has kept its foreign
   handlers, and nothing else in the settings has changed.
   */
  lemma ClaudeInstallRegistersAll(data: Fields)
    ensures var after := ClaudeAll(data);
            && (forall event | event in EVENTS :: ClaudeDone(data, after, event))
            && after - {"hooks"} == data - {"hooks"}
            && (forall other | other !in EVENTS :: GroupsOf(after, other) == GroupsOf(data, other))
  {
    var one := ClaudeStep(data, "SessionStart");
    var two := ClaudeStep(one, "PreToolUse");
    ClaudeStepRegisters(data, "SessionStart");
    ClaudeStepRegisters(one, "PreToolUse");
    ClaudeStepRegisters(two, "Stop");
    ThreeEvents(data, one, two, ClaudeStep(two, "Stop"));
  }

  /** Installing again changes nothing. */
  lemma ClaudeInstallTwice(data: Fields)
    ensures ClaudeAll(ClaudeAll(data)) == ClaudeAll(data)
  {
    ClaudeInstallRegistersAll(data);
    assert "SessionStart" in EVENTS && "PreToolUse" in EVENTS && "Stop" in EVENTS;
  }
}
