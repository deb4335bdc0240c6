/** Credential overrides of the daemon: written before the supervisor starts it, taken back when that fails. */
module DaemonCredentials {
  import opened Basics

  datatype Path = ServeToken | AppId | AppKey

  /** Contents by path; a path without an entry is a file that does not exist. */
  type Files = map<Path, string>

  /** The content a file had, None where there was none. */
  datatype Snapshot = Snapshot(path: Path, previous: Option<string>)

  /**
   How a call goes: it works, or raises an error with or without having taken effect. An error is `expected`
   when it comes from the operating system or the supervisor, which is what the commands catch.
   */
  datatype Turn = Works | Raises(effect: bool, expected: bool)

  datatype Call = Snap(Path) | Write(Path) | Supervise | SaveConfig | RestoreConfig | Restore(Path)

  type Script = Call -> Turn

  /** The overrides found in the environment. */
  datatype Overrides = Overrides(token: string, appId: string, privateKey: string)

  datatype Outcome = Done | Failed(expected: bool)

  function Put(files: Files, s: Snapshot): Files {
    if s.previous.Some? then files[s.path := s.previous.value] else files - {s.path}
  }

  /** All snapshots put back, the last one first. */
  function Undo(files: Files, snapshots: seq<Snapshot>): Files
    decreases |snapshots|
  {
    if snapshots == [] then files
    else Undo(Put(files, snapshots[|snapshots| - 1]), snapshots[..|snapshots| - 1])
  }

  /** What putting snapshots back comes to: the first error ends it. */
  function Restored(files: Files, snapshots: seq<Snapshot>, script: Script): (Files, Outcome)
    decreases |snapshots|
  {
    if snapshots == [] then (files, Done) else
    var last := snapshots[|snapshots| - 1];
    var turn := script(Restore(last.path));
    var now := if turn.Works? || turn.effect then Put(files, last) else files;
    if turn.Works? then Restored(now, snapshots[..|snapshots| - 1], script) else (now, Failed(turn.expected))
  }

  /** When no restoring fails, everything is undone. */
  lemma {:induction false} WorkingRestores(files: Files, snapshots: seq<Snapshot>, script: Script)
    requires forall s | s in snapshots :: script(Restore(s.path)).Works?
    ensures Restored(files, snapshots, script) == (Undo(files, snapshots), Done)
    decreases |snapshots|
  {
    if snapshots != [] {
      var last := snapshots[|snapshots| - 1];
      WorkingRestores(Put(files, last), snapshots[..|snapshots| - 1], script);
    }
  }

  /** After `first` went wrong, snapshots of the files as they were `before` were put back, as far as that worked. */
  ghost predicate TakenBack(before: Files, written: Files, after: Files, script: Script, first: Outcome,
                            outcome: Outcome)
  {
    exists snapshots ::
      && Undo(written, snapshots) == before
      && after == Restored(written, snapshots, script).0
      && outcome == if Restored(written, snapshots, script).1 == Done then first
                    else Restored(written, snapshots, script).1
  }

  function ContentOf(files: Files, path: Path): Option<string> {
    if path in files then Some(files[path]) else None
  }

  function SnapshotOf(files: Files, path: Path): Snapshot {
    Snapshot(path, ContentOf(files, path))
  }

  lemma PutBack(files: Files, changed: Files, path: Path)
    requires forall p | p != path :: (p in files <==> p in changed) && (p in files ==> files[p] == changed[p])
    ensures Put(changed, SnapshotOf(files, path)) == files
  {
    var back := Put(changed, SnapshotOf(files, path));
    assert forall p :: p in back <==> p in files;
  }

  /** A snapshot taken just before a file is written makes the write undone. */
  lemma SnapshotCovers(files: Files, changed: Files, path: Path, snapshots: seq<Snapshot>)
    requires forall p | p != path :: (p in files <==> p in changed) && (p in files ==> files[p] == changed[p])
    ensures Undo(changed, snapshots + [SnapshotOf(files, path)]) == Undo(files, snapshots)
  {
    PutBack(files, changed, path);
    assert (snapshots + [SnapshotOf(files, path)])[..|snapshots|] == snapshots;
  }

  // ---------------------------------------------------------------- what the commands come to when restoring works

  /** The files with every override that is set. */
  function Overridden(files: Files, o: Overrides): Files {
    var first := if o.token != "" then files[ServeToken := o.token + "\n"] else files;
    if o.appId != "" && o.privateKey != "" then first[AppId := o.appId + "\n"][AppKey := o.privateKey] else first
  }

  /** The calls that persisting makes, in order. */
  function PersistCalls(o: Overrides): seq<Call> {
    (if o.token != "" then [Snap(ServeToken), Write(ServeToken)] else []) +
    if o.appId != "" && o.privateKey != "" then [Snap(AppId), Snap(AppKey), Write(AppId), Write(AppKey)] else []
  }

  /** The first call that raises decides. */
  function OutcomeOf(calls: seq<Call>, script: Script): Outcome {
    if calls == [] then Done
    else if script(calls[0]).Works? then OutcomeOf(calls[1..], script)
    else Failed(script(calls[0]).expected)
  }

  function PersistOutcome(o: Overrides, script: Script): Outcome {
    OutcomeOf(PersistCalls(o), script)
  }

  /** Persisting went through and then the supervisor raised an error that the commands do not catch. */
  predicate KeepsOverrides(o: Overrides, script: Script) {
    PersistOutcome(o, script) == Done && script(Supervise).Raises? && !script(Supervise).expected
  }

  function StartOutcome(o: Overrides, script: Script): Outcome {
    if PersistOutcome(o, script).Failed? then PersistOutcome(o, script)
    else if script(Supervise).Works? then Done
    else Failed(script(Supervise).expected)
  }

  /** What `start` leaves of the files. */
  function Started(files: Files, o: Overrides, script: Script): Files {
    if StartOutcome(o, script) == Done || KeepsOverrides(o, script) then Overridden(files, o) else files
  }

  predicate RestoresWork(script: Script) {
    forall path :: script(Restore(path)).Works?
  }

  /** What `install` leaves: the settings are saved before anything is caught, and restored before the files. */
  function Installed<S>(files: Files, config: S, merged: Option<S>, o: Overrides, script: Script): (Files, S, Outcome) {
    var attempt, saved := StartOutcome(o, script), if merged.Some? then merged.value else config;
    var save, restore := script(SaveConfig), script(RestoreConfig);
    if merged.Some? && save.Raises? then (files, if save.effect then saved else config, Failed(save.expected))
    else if attempt == Failed(true) && merged.Some? && restore.Raises? then
      (if PersistOutcome(o, script) == Done then Overridden(files, o) else files,
       if restore.effect then config else saved, Failed(restore.expected))
    else (Started(files, o, script), if attempt == Failed(true) then config else saved, attempt)
  }

  /** Which file holds what, once the overrides are written: the app's id and key go together or not at all. */
  lemma OverriddenFiles(files: Files, o: Overrides)
    ensures var app := o.appId != "" && o.privateKey != "";
            && ContentOf(Overridden(files, o), ServeToken) ==
               (if o.token == "" then ContentOf(files, ServeToken) else Some(o.token + "\n"))
            && ContentOf(Overridden(files, o), AppId) ==
               (if app then Some(o.appId + "\n") else ContentOf(files, AppId))
            && ContentOf(Overridden(files, o), AppKey) == if app then Some(o.privateKey) else ContentOf(files, AppKey)
  {
  }

  /** The calls that have to work for the overrides to be persisted. */
  lemma PersistsExactly(o: Overrides, script: Script)
    ensures PersistOutcome(o, script) == Done <==>
            && (o.token != "" ==> script(Snap(ServeToken)).Works? && script(Write(ServeToken)).Works?)
            && (o.appId != "" && o.privateKey != "" ==>
                  && script(Snap(AppId)).Works? && script(Snap(AppKey)).Works?
                  && script(Write(AppId)).Works? && script(Write(AppKey)).Works?)
  {
    PersistOutcomeIs(o, script);
    FourCalls(script);
    FirstTwo(Snap(ServeToken), Write(ServeToken), [], script);
    assert [Snap(ServeToken), Write(ServeToken)] + [] == [Snap(ServeToken), Write(ServeToken)];
  }

  /** A start is done exactly when those calls and the supervisor's work; the supervisor's error is passed on. */
  lemma StartsExactly(o: Overrides, script: Script)
    ensures StartOutcome(o, script) == Done <==> PersistOutcome(o, script) == Done && script(Supervise).Works?
    ensures PersistOutcome(o, script) == Done && script(Supervise).Raises? ==>
              StartOutcome(o, script) == Failed(script(Supervise).expected)
    ensures PersistOutcome(o, script).Failed? ==> StartOutcome(o, script) == PersistOutcome(o, script)
  {
  }

  /** A failed `start` takes the overrides back, except for the one case of an error that it does not catch. */
  lemma FailedStartRollsBack(files: Files, o: Overrides, script: Script)
    requires StartOutcome(o, script).Failed?
    ensures Started(files, o, script) == files <==> !KeepsOverrides(o, script) || Overridden(files, o) == files
    ensures StartOutcome(o, script) == Failed(true) ==> Started(files, o, script) == files
  {
  }

  /**
   A failed `install` leaves the files and the settings as they were exactly if saving the settings failed
   without effect, or the error is one that is caught and restoring the settings works: the files come after
   them. Where persisting failed, the files are back already, and it is enough that the settings get restored.
   */
  lemma FailedInstallRollsBack<S>(files: Files, config: S, settings: S, o: Overrides, script: Script)
    requires Installed(files, config, Some(settings), o, script).2.Failed?
    requires settings != config && Overridden(files, o) != files
    ensures var (files', config', _) := Installed(files, config, Some(settings), o, script);
            files' == files && config' == config
            <==> if script(SaveConfig).Raises? then !script(SaveConfig).effect
                 else StartOutcome(o, script) == Failed(true) &&
                      (script(RestoreConfig).Works? ||
                       (script(RestoreConfig).effect && PersistOutcome(o, script).Failed?))
  {
  }

  /** A supervisor that is interrupted: the command fails, and the new token and the new settings stay. */
  lemma InterruptedSupervisorKeepsOverrides() returns (o: Overrides, script: Script)
    ensures RestoresWork(script) && StartOutcome(o, script) == Failed(false)
    ensures Started(map[ServeToken := "old"], o, script) == map[ServeToken := "new\n"]
    ensures Installed(map[ServeToken := "old"], 1, Some(2), o, script) == (map[ServeToken := "new\n"], 2, Failed(false))
  {
    o := Overrides("new", "", "");
    script := c => if c == Supervise then Raises(false, false) else Works;
    assert "new" + "\n" == "new\n";
    assert PersistCalls(o) == [Snap(ServeToken), Write(ServeToken)];
    assert PersistCalls(o)[1..] == [Write(ServeToken)] && PersistCalls(o)[1..][1..] == [];
  }

  // ---------------------------------------------------------------- what holds even when restoring fails

  /** The file is as it was, or holds its override. */
  predicate OldOrNew(before: Files, after: Files, o: Overrides, path: Path) {
    || ContentOf(after, path) == ContentOf(before, path)
    || ContentOf(after, path) == ContentOf(Overridden(before, o), path)
  }

  /** No file is left in a third state. */
  ghost predicate EachOldOrNew(before: Files, after: Files, o: Overrides) {
    forall path :: OldOrNew(before, after, o, path)
  }

  /** The file was left alone, or put back. */
  predicate AloneOrBack(before: Files, after: Files, snapshots: seq<Snapshot>, path: Path) {
    ContentOf(after, path) == ContentOf(before, path) || Snapshot(path, ContentOf(after, path)) in snapshots
  }

  /** The snapshots are of what was there. */
  predicate TakenFrom(files: Files, snapshots: seq<Snapshot>) {
    forall s | s in snapshots :: s.previous == ContentOf(files, s.path)
  }

  lemma RestoringAgrees(before: Files, changed: Files, after: Files, snapshots: seq<Snapshot>, o: Overrides)
    requires EachOldOrNew(before, changed, o) && TakenFrom(before, snapshots)
    requires forall path :: AloneOrBack(changed, after, snapshots, path)
    ensures EachOldOrNew(before, after, o)
  {
    forall path ensures OldOrNew(before, after, o, path) {
      assert OldOrNew(before, changed, o, path) && AloneOrBack(changed, after, snapshots, path);
    }
  }

  // ---------------------------------------------------------------- the commands

  class DaemonHome<Settings> {
    var files: Files
    var config: Settings

    constructor (files: Files, config: Settings)
      ensures this.files == files && this.config == config
    {
      this.files := files;
      this.config := config;
    }

    /** `_atomic_write_owner_file`, which can still fail once the file is replaced. */
    method WriteFile(path: Path, content: string, turn: Turn) returns (outcome: Outcome)
      modifies this`files
      ensures files == if turn.Works? || turn.effect then old(files)[path := content] else old(files)
      ensures outcome == if turn.Works? then Done else Failed(turn.expected)
    {
      if turn.Works? || turn.effect { files := files[path := content]; }
      outcome := if turn.Works? then Done else Failed(turn.expected);
    }

    method TakeSnapshot(path: Path, turn: Turn) returns (snapshot: Option<Snapshot>)
      ensures snapshot == if turn.Works? then Some(SnapshotOf(files, path)) else None
    {
      snapshot := if turn.Works? then Some(Snapshot(path, if path in files then Some(files[path]) else None)) else None;
    }

    /** `_restore_daemon_credentials`; an error while restoring ends it. */
    method RestoreAll(snapshots: seq<Snapshot>, script: Script) returns (outcome: Outcome)
      modifies this`files
      ensures (files, outcome) == Restored(old(files), snapshots, script)
      ensures outcome == Done ==> files == Undo(old(files), snapshots)
      ensures outcome == Done <==> forall s | s in snapshots :: script(Restore(s.path)).Works?
      ensures forall path :: AloneOrBack(old(files), files, snapshots, path)
    {
      var i := |snapshots|;
      assert snapshots[..i] == snapshots;
      while i > 0
        invariant 0 <= i <= |snapshots| && Undo(files, snapshots[..i]) == Undo(old(files), snapshots)
        invariant Restored(files, snapshots[..i], script) == Restored(old(files), snapshots, script)
        invariant forall k | i <= k < |snapshots| :: script(Restore(snapshots[k].path)).Works?
        invariant forall path :: AloneOrBack(old(files), files, snapshots, path)
      {
        i := i - 1;
        assert snapshots[..i + 1][..i] == snapshots[..i] && snapshots[i] in snapshots;
        ghost var before := files;
        var turn := script(Restore(snapshots[i].path));
        if turn.Works? || turn.effect {
          files := if snapshots[i].previous.Some? then files[snapshots[i].path := snapshots[i].previous.value]
                   else files - {snapshots[i].path};
        }
        forall path ensures AloneOrBack(old(files), files, snapshots, path) {
          assert AloneOrBack(old(files), before, snapshots, path);
        }
        if turn.Raises? {
          return Failed(turn.expected);
        }
      }
      outcome := Done;
    }

    /** The token, after a snapshot of its file. */
    method WriteToken(token: string, script: Script) returns (outcome: Outcome, snapshots: seq<Snapshot>)
      modifies this`files
      ensures outcome == OutcomeOf([Snap(ServeToken), Write(ServeToken)], script)
      ensures Undo(files, snapshots) == old(files) && TakenFrom(old(files), snapshots)
      ensures files == old(files) || files == old(files)[ServeToken := token + "\n"]
      ensures outcome == Done ==> files == old(files)[ServeToken := token + "\n"]
    {
      snapshots := [];
      FirstTwo(Snap(ServeToken), Write(ServeToken), [], script);
      assert [Snap(ServeToken), Write(ServeToken)] + [] == [Snap(ServeToken), Write(ServeToken)];
      var taken := TakeSnapshot(ServeToken, script(Snap(ServeToken)));
      if taken.None? { return Failed(script(Snap(ServeToken)).expected), snapshots; }
      snapshots := [taken.value];
      outcome := WriteFile(ServeToken, token + "\n", script(Write(ServeToken)));
      SnapshotCovers(old(files), files, ServeToken, []);
      assert [] + snapshots == snapshots;
    }

    /** The app's id and key, after snapshots of both files. */
    method WriteApp(o: Overrides, script: Script, taken: seq<Snapshot>, ghost origin: Files)
      returns (outcome: Outcome, snapshots: seq<Snapshot>)
      requires Undo(files, taken) == origin
      modifies this`files
      ensures outcome == OutcomeOf([Snap(AppId), Snap(AppKey), Write(AppId), Write(AppKey)], script)
      ensures Undo(files, snapshots) == origin
      ensures snapshots == taken || snapshots == taken + [SnapshotOf(old(files), AppId), SnapshotOf(old(files), AppKey)]
      ensures || files == old(files) || files == old(files)[AppId := o.appId + "\n"]
              || files == old(files)[AppId := o.appId + "\n"][AppKey := o.privateKey]
      ensures outcome == Done ==> files == old(files)[AppId := o.appId + "\n"][AppKey := o.privateKey]
    {
      snapshots := taken;
      FourCalls(script);
      var id := TakeSnapshot(AppId, script(Snap(AppId)));
      if id.None? { return Failed(script(Snap(AppId)).expected), snapshots; }
      var key := TakeSnapshot(AppKey, script(Snap(AppKey)));
      if key.None? { return Failed(script(Snap(AppKey)).expected), snapshots; }
      snapshots := snapshots + [id.value, key.value];
      outcome := WriteFile(AppId, o.appId + "\n", script(Write(AppId)));
      BothCovered(old(files), files, files, taken);
      if outcome.Failed? { return; }
      ghost var middle := files;
      outcome := WriteFile(AppKey, o.privateKey, script(Write(AppKey)));
      BothCovered(old(files), middle, files, taken);
    }

    /** Snapshots of the files to be written, taken right before each write. */
    method WriteOverrides(o: Overrides, script: Script) returns (outcome: Outcome, snapshots: seq<Snapshot>)
      modifies this`files
      ensures outcome == PersistOutcome(o, script)
      ensures Undo(files, snapshots) == old(files)
      ensures outcome == Done ==> files == Overridden(old(files), o)
      ensures EachOldOrNew(old(files), files, o) && TakenFrom(old(files), snapshots)
    {
      snapshots := [];
      outcome := Done;
      PersistOutcomeIs(o, script);
      if o.token != "" {
        outcome, snapshots := WriteToken(o.token, script);
        if outcome.Failed? { return; }
      }
      if o.appId != "" && o.privateKey != "" {
        outcome, snapshots := WriteApp(o, script, snapshots, old(files));
      }
    }

    /**
     `_persist_daemon_credential_overrides`: done exactly when all its calls work, and takes its own writes
     back whatever the error is.
     */
    method Persist(overrides: Overrides, script: Script) returns (outcome: Outcome, snapshots: seq<Snapshot>)
      modifies this`files
      ensures outcome == Done <==> PersistOutcome(overrides, script) == Done
      ensures outcome == Done ==> Undo(files, snapshots) == old(files) && files == Overridden(old(files), overrides)
      ensures outcome.Failed? && RestoresWork(script) ==>
                files == old(files) && outcome == PersistOutcome(overrides, script)
      ensures outcome.Failed? ==>
                exists written ::
                  && EachOldOrNew(old(files), written, overrides)
                  && TakenBack(old(files), written, files, script, PersistOutcome(overrides, script), outcome)
      ensures EachOldOrNew(old(files), files, overrides) && TakenFrom(old(files), snapshots)
    {
      outcome, snapshots := WriteOverrides(overrides, script);
      if outcome.Failed? {
        ghost var written := files;
        var restored := RestoreAll(snapshots, script);
        RestoringAgrees(old(files), written, files, snapshots, overrides);
        if restored.Failed? { outcome := restored; }
        assert TakenBack(old(files), written, files, script, PersistOutcome(overrides, script), outcome);
      }
    }

    /**
     `start` and `restart`: after an error that the operating system or the supervisor reports, and after any
     error while persisting, every credential file is as it was, present or absent. Any other error of the
     supervisor leaves the overrides.
     */
    method Start(overrides: Overrides, script: Script) returns (outcome: Outcome)
      modifies this`files
      ensures outcome == Done <==> StartOutcome(overrides, script) == Done
      ensures outcome == Done ==> files == Overridden(old(files), overrides)
      ensures RestoresWork(script) ==> outcome == StartOutcome(overrides, script)
      ensures RestoresWork(script) && outcome.Failed? ==>
        files == if KeepsOverrides(overrides, script) then Overridden(old(files), overrides) else old(files)
      ensures PersistOutcome(overrides, script) == Done && script(Supervise).Raises? && script(Supervise).expected ==>
                TakenBack(old(files), Overridden(old(files), overrides), files, script, Failed(true), outcome)
      ensures KeepsOverrides(overrides, script) ==>
                files == Overridden(old(files), overrides) && outcome == Failed(false)
      ensures EachOldOrNew(old(files), files, overrides)
    {
      var snapshots;
      outcome, snapshots := Persist(overrides, script);
      if outcome.Failed? { return; }
      var supervise := script(Supervise);
      if supervise.Works? { return; }
      outcome := Failed(supervise.expected);
      if supervise.expected {
        ghost var persisted := files;
        var restored := RestoreAll(snapshots, script);
        RestoringAgrees(old(files), persisted, files, snapshots, overrides);
        if restored.Failed? { outcome := restored; }
        assert TakenBack(old(files), persisted, files, script, Failed(true), outcome);
      }
    }

    /** `install`, with the settings to save first where options ask for new ones. */
    method Install(merged: Option<Settings>, overrides: Overrides, script: Script) returns (outcome: Outcome)
      modifies this
      ensures outcome == Done <==>
        (merged.Some? ==> script(SaveConfig).Works?) && StartOutcome(overrides, script) == Done
      ensures outcome == Done ==>
                && files == Overridden(old(files), overrides)
                && config == (if merged.Some? then merged.value else old(config))
      ensures RestoresWork(script) ==>
        (files, config, outcome) == Installed(old(files), old(config), merged, overrides, script)
      ensures (merged.Some? ==> script(SaveConfig).Works? && script(RestoreConfig).Works?)
              && PersistOutcome(overrides, script) == Done && script(Supervise).Raises?
              && script(Supervise).expected
              ==> config == old(config)
                  && TakenBack(old(files), Overridden(old(files), overrides), files, script, Failed(true), outcome)
      ensures EachOldOrNew(old(files), files, overrides)
    {
      var previous := config;
      if merged.Some? {
        var save := script(SaveConfig);
        if save.Works? || save.effect { config := merged.value; }
        if save.Raises? { return Failed(save.expected); }
      }
      var snapshots;
      outcome, snapshots := Persist(overrides, script);
      if outcome == Done {
        if script(Supervise).Works? { return; }
        outcome := Failed(script(Supervise).expected);
      } else {
        snapshots := [];
      }
      if !outcome.expected { return; }
      if merged.Some? {
        var restore := script(RestoreConfig);
        if restore.Works? || restore.effect { config := previous; }
        if restore.Raises? { return Failed(restore.expected); }
      }
      ghost var persisted := files;
      var restored := RestoreAll(snapshots, script);
      RestoringAgrees(old(files), persisted, files, snapshots, overrides);
      if restored.Failed? { outcome := restored; }
      assert PersistOutcome(overrides, script) == Done ==>
               TakenBack(old(files), persisted, files, script, Failed(true), outcome);
    }
  }

  lemma FourCalls(script: Script)
    ensures OutcomeOf([Snap(AppId), Snap(AppKey), Write(AppId), Write(AppKey)], script) ==
      if !script(Snap(AppId)).Works? then Failed(script(Snap(AppId)).expected)
      else if !script(Snap(AppKey)).Works? then Failed(script(Snap(AppKey)).expected)
      else if !script(Write(AppId)).Works? then Failed(script(Write(AppId)).expected)
      else if !script(Write(AppKey)).Works? then Failed(script(Write(AppKey)).expected)
      else Done
  {
    FirstTwo(Snap(AppId), Snap(AppKey), [Write(AppId), Write(AppKey)], script);
    FirstTwo(Write(AppId), Write(AppKey), [], script);
    assert [Snap(AppId), Snap(AppKey)] + [Write(AppId), Write(AppKey)]
           == [Snap(AppId), Snap(AppKey), Write(AppId), Write(AppKey)];
    assert [Write(AppId), Write(AppKey)] + [] == [Write(AppId), Write(AppKey)];
  }

  lemma PersistOutcomeIs(o: Overrides, script: Script)
    ensures var token := if o.token != "" then OutcomeOf([Snap(ServeToken), Write(ServeToken)], script) else Done;
            PersistOutcome(o, script) ==
              if token.Failed? || o.appId == "" || o.privateKey == "" then token
              else OutcomeOf([Snap(AppId), Snap(AppKey), Write(AppId), Write(AppKey)], script)
  {
    var app := if o.appId == "" || o.privateKey == "" then []
               else [Snap(AppId), Snap(AppKey), Write(AppId), Write(AppKey)];
    FirstTwo(Snap(ServeToken), Write(ServeToken), app, script);
    FirstTwo(Snap(ServeToken), Write(ServeToken), [], script);
    assert [Snap(ServeToken), Write(ServeToken)] + [] == [Snap(ServeToken), Write(ServeToken)];
    assert [] + app == app;
  }

  lemma FirstTwo(first: Call, second: Call, rest: seq<Call>, script: Script)
    ensures OutcomeOf([first, second] + rest, script) ==
      if !script(first).Works? then Failed(script(first).expected)
      else if !script(second).Works? then Failed(script(second).expected)
      else OutcomeOf(rest, script)
  {
    var calls := [first, second] + rest;
    assert calls[1..][0] == second && calls[1..][1..] == rest;
  }

  lemma BothCovered(before: Files, middle: Files, after: Files, snapshots: seq<Snapshot>)
    requires forall p | p != AppId :: (p in before <==> p in middle) && (p in before ==> before[p] == middle[p])
    requires forall p | p != AppKey :: (p in middle <==> p in after) && (p in middle ==> middle[p] == after[p])
    ensures Undo(after, snapshots + [SnapshotOf(before, AppId), SnapshotOf(before, AppKey)]) == Undo(before, snapshots)
  {
    var one, two := snapshots + [SnapshotOf(before, AppId)], SnapshotOf(before, AppKey);
    assert snapshots + [SnapshotOf(before, AppId), two] == one + [two];
    assert SnapshotOf(before, AppKey) == SnapshotOf(middle, AppKey);
    SnapshotCovers(middle, after, AppKey, one);
    SnapshotCovers(before, middle, AppId, snapshots);
  }
}
