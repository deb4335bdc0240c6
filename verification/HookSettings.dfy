/** Settings files that carry our hooks: what the installers for Claude and for Codex share. */
module HookSettings {
  import opened Basics
  import opened HookGroups

  /** The text of a settings file, as far as the JSON decoder tells texts apart. */
  datatype Settings = Missing | Blank | NotJson | Decoded(data: Json)

  /** `Crashed` is an uncaught `TypeError`. */
  datatype Status = Installed | Updated | UpToDate | Skipped | Crashed

  type Fields = map<string, Json>

  const EVENTS := ["SessionStart", "PreToolUse", "Stop"]

  /** The groups of an event; None where the settings hold no list for it. */
  function GroupsOf(data: Fields, event: string): Option<seq<Json>> {
    if "hooks" in data && data["hooks"].JObject? && event in data["hooks"].fields && data["hooks"].fields[event].JList?
    then Some(data["hooks"].fields[event].items) else None
  }

  /** Whether the check of an event finds nothing to complain about. */
  predicate EventRegistered(owned: Owner, entry: Json, data: Fields, event: string) {
    GroupsOf(data, event).Some? && Registered(owned, entry, GroupsOf(data, event).value)
  }

  function HooksOf(data: Fields): Fields {
    if "hooks" in data && data["hooks"].JObject? then data["hooks"].fields else map[]
  }

  /** `data` with the groups of one event replaced. */
  function WithGroups(data: Fields, event: string, groups: seq<Json>): Fields {
    data["hooks" := JObject(HooksOf(data)[event := JList(groups)])]
  }

  lemma OnlyOneEventChanges(data: Fields, event: string, groups: seq<Json>)
    ensures GroupsOf(WithGroups(data, event, groups), event) == Some(groups)
    ensures forall other | other != event :: GroupsOf(WithGroups(data, event, groups), other) == GroupsOf(data, other)
    ensures WithGroups(data, event, groups) - {"hooks"} == data - {"hooks"}
    ensures HooksOf(WithGroups(data, event, groups)) - {event} == HooksOf(data) - {event}
  {
    assert WithGroups(data, event, groups).Keys == data.Keys + {"hooks"};
  }

  /** The foreign handlers and malformed groups of an event are those of before. */
  predicate ForeignKept(owned: Owner, before: Fields, after: Fields, event: string) {
    GroupsOf(before, event).Some? && GroupsOf(after, event).Some? ==>
      var b, a := GroupsOf(before, event).value, GroupsOf(after, event).value;
      ForeignHandlers(owned, a) == ForeignHandlers(owned, b) && Malformed(a) == Malformed(b)
  }

  function EntryPoint(event: string): string {
    if event == "SessionStart" then "_session-context" else if event == "PreToolUse" then "_guard-edit" else "_drain"
  }
}
