/** The `specs/` folder with its git index, and the command that migrates it in place. */
module SpecFolders {
  import opened Basics
  import opened SpecMigration
  import opened SpecMigrationRun

  /** Both the id in a file and the id in its name resolve. */
  predicate IdsResolve(n: Naming, files: map<File, Spec>, f: File)
    requires f in files
  {
    Resolves(n, files, files[f].id)
    && (n.canonicalId(f.stem).Some? ==> Resolves(n, files, n.canonicalId(f.stem).value))
  }

  method ResolveAll(n: Naming, files: map<File, Spec>, listing: seq<File>) returns (ok: bool)
    requires forall f | f in listing :: f in files
    ensures ok <==> forall f | f in listing :: IdsResolve(n, files, f)
  {
    for i := 0 to |listing|
      invariant forall k | 0 <= k < i :: IdsResolve(n, files, listing[k])
    {
      if !IdsResolve(n, files, listing[i]) {
        assert listing[i] in listing;
        return false;
      }
    }
    ok := true;
  }

  lemma IdsDecide(n: Naming, files: map<File, Spec>, listing: seq<File>)
    requires (forall f | f in listing :: f in files) && forall f | f in files :: f in listing
    ensures Clean(n, files) <==> forall f | f in listing :: IdsResolve(n, files, f)
  {
    ResolvingIsExact(n, files);
    if forall f | f in listing :: IdsResolve(n, files, f) {
      forall f | f in files ensures IdsResolve(n, files, f) { }
    }
  }

  class SpecFolder {
    const naming: Naming
    const target: Mode
    var files: map<File, Spec>
    var unreadable: set<File>
    var index: set<File>
    var hidden: bool

    constructor (naming: Naming, target: Mode, w: World)
      ensures this.naming == naming && this.target == target && Contents() == w
    {
      this.naming := naming;
      this.target := target;
      files, unreadable, index, hidden := w.files, w.unreadable, w.index, w.hidden;
    }

    function Contents(): World
      reads this
    {
      World(files, unreadable, index, hidden)
    }

    /** Reads every file and resolves every id that a file holds or is named after. */
    method Preflight(listing: seq<File>) returns (ok: bool)
      requires Lists(Contents(), listing)
      ensures ok <==> unreadable == {} && Clean(naming, files)
    {
      if unreadable != {} { return false; }
      ok := ResolveAll(naming, files, listing);
      IdsDecide(naming, files, listing);
    }

    /** The file that holds the spec with this id now. */
    method Find(id: string) returns (found: Option<File>)
      ensures found.Some? ==> Holds(files, found.value, id)
      ensures found.None? ==> forall f | f in files :: files[f].id != id
    {
      var todo := files.Keys;
      while todo != {}
        invariant todo <= files.Keys && forall f | f in files && f !in todo :: files[f].id != id
        decreases todo
      {
        var f :| f in todo;
        if files[f].id == id { return Some(f); }
        todo := todo - {f};
      }
      found := None;
    }

    method WriteSpec(f: File, s: Spec, turn: Turn) returns (go: bool)
      modifies this`files, this`hidden
      ensures Step(Contents(), go) == WriteStep(old(Contents()), f, s, target, turn)
    {
      go := turn.Works?;
      if TakesEffect(turn) { files := files[f := s]; }
      if go && target == Local { hidden := true; }
    }

    method RemoveFile(was: File, f: File, turn: Turn) returns (go: bool)
      modifies this`files, this`index
      ensures Step(Contents(), go) == RemoveStep(old(Contents()), was, f, turn)
    {
      go := true;
      if was != f {
        if was in index {
          go := turn.Works?;
          if turn != Raises(false) { files := files - {was}; }
          if TakesEffect(turn) { index := index - {was}; }
        } else if was in files {
          go := turn.Works?;
          if turn != Raises(false) { files := files - {was}; }
        }
      }
    }

    method TrackFile(f: File, k: nat, script: Script) returns (go: bool)
      modifies this`index, this`hidden
      ensures Step(Contents(), go) == TrackStep(old(Contents()), f, target, k, script)
    {
      match target {
        case Committed =>
          var unhide := script(k, Unhide);
          if TakesEffect(unhide) { hidden := false; }
          if !unhide.Works? { return false; }
          go := script(k, Track).Works?;
          if TakesEffect(script(k, Track)) { index := index + {f}; }
        case Encrypted =>
          go := script(k, Track).Works?;
          if TakesEffect(script(k, Track)) { index := index + {f}; }
        case Local =>
          go := true;
          if f in index {
            go := script(k, Untrack).Works?;
            if TakesEffect(script(k, Untrack)) { index := index - {f}; }
          }
      }
    }

    /** Moves one spec: the new file first, then the one it replaces, then the index. */
    method MigrateSpec(was: File, s: Spec, k: nat, script: Script) returns (go: bool)
      modifies this`files, this`index, this`hidden
      ensures Step(Contents(), go) == SpecStep(naming, target, old(Contents()), was, s, k, script)
    {
      var f := NewFile(naming, target, s);
      go := WriteSpec(f, s, script(k, Write));
      if !go { return; }
      go := RemoveFile(was, f, script(k, RemoveOld));
      if !go { return; }
      go := TrackFile(f, k, script);
    }

    /** `migrate-storage`: nothing is touched before every file has been read and every id resolved. */
    method MigrateStorage(listing: seq<File>, script: Script) returns (exit: Exit)
      requires Dated(naming) && Lists(Contents(), listing)
      modifies this`files, this`index, this`hidden
      ensures (Contents(), exit) == Migration(naming, target, old(Contents()), listing, script)
    {
      var ok := Preflight(listing);
      if !ok { return Refused; }
      var scanned := seq(|listing|,
                         i requires 0 <= i < |listing| && listing[i] in files reads this => files[listing[i]]);
      var go := MigrateAll(Contents(), listing, scanned, script);
      exit := if go then Migrated else HalfMigrated;
    }

    /** One spec, which is looked up again before it is moved. */
    method MigrateNext(ghost was: File, s: Spec, i: nat, script: Script) returns (go: bool)
      requires Holds(files, was, s.id) && forall f | Holds(files, f, s.id) :: f == was
      modifies this`files, this`index, this`hidden
      ensures Step(Contents(), go) == SpecStep(naming, target, old(Contents()), was, s, i, script)
    {
      var found := Find(s.id);
      go := MigrateSpec(found.value, s, i, script);
    }

    /** One spec after the other; each is looked up again before it is moved. */
    method MigrateAll(ghost before: World, listing: seq<File>, scanned: seq<Spec>, script: Script) returns (go: bool)
      requires Contents() == before && Dated(naming) && Lists(before, listing) && Clean(naming, before.files)
      requires |scanned| == |listing| && forall i | 0 <= i < |listing| :: scanned[i] == before.files[listing[i]]
      modifies this`files, this`index, this`hidden
      ensures Step(Contents(), go) == Steps(naming, target, before, listing, |listing|, script)
    {
      var i := 0;
      go := true;
      while go && i < |listing|
        invariant i <= |listing| && Step(Contents(), go) == Steps(naming, target, before, listing, i, script)
      {
        FoundAgain(naming, target, before, listing, i, script, Contents());
        NextStep(naming, target, before, listing, i, script, Contents());
        go := MigrateNext(listing[i], scanned[i], i, script);
        i := i + 1;
      }
      if !go { StoppedStays(naming, target, before, listing, i, |listing|, script); }
    }
  }

  lemma NextStep(n: Naming, target: Mode, w: World, listing: seq<File>, i: nat, script: Script, now: World)
    requires i < |listing| && (forall f | f in listing :: f in w.files)
    requires Steps(n, target, w, listing, i, script) == Step(now, true)
    ensures Steps(n, target, w, listing, i + 1, script)
            == SpecStep(n, target, now, listing[i], w.files[listing[i]], i, script)
  {
  }

  /** Halfway through, the next spec is found in the file where it was scanned, and nowhere else. */
  lemma FoundAgain(n: Naming, target: Mode, w: World, listing: seq<File>, m: nat, script: Script, now: World)
    requires Dated(n) && Clean(n, w.files) && Lists(w, listing) && m < |listing|
    requires Steps(n, target, w, listing, m, script) == Step(now, true)
    ensures Holds(now.files, listing[m], w.files[listing[m]].id)
    ensures forall f | Holds(now.files, f, w.files[listing[m]].id) :: f == listing[m]
  {
    StepsKeepSpecs(n, target, w, listing, m, script);
    HolderIsListed(n, target, w, now, listing, m);
  }

  lemma HolderIsListed(n: Naming, target: Mode, w0: World, w: World, listing: seq<File>, m: nat)
    requires Clean(n, w0.files) && Lists(w0, listing) && m < |listing| && Halfway(n, target, w0, w, listing, m)
    ensures Holds(w.files, listing[m], w0.files[listing[m]].id)
    ensures forall f | Holds(w.files, f, w0.files[listing[m]].id) :: f == listing[m]
  {
    assert Placed(n, target, w0, w, listing, m, m);
    forall f | Holds(w.files, f, w0.files[listing[m]].id) ensures f == listing[m] {
      var j := OfOneSpec(n, target, w0, w, listing, m, f);
      assert listing[j] == listing[m];
    }
  }

  lemma {:induction false} StoppedStays(n: Naming, target: Mode, w: World, listing: seq<File>, i: nat, m: nat,
                                        script: Script)
    requires i <= m <= |listing| && (forall f | f in listing :: f in w.files)
             && !Steps(n, target, w, listing, i, script).go
    ensures Steps(n, target, w, listing, m, script) == Steps(n, target, w, listing, i, script)
  {
    if i < m { StoppedStays(n, target, w, listing, i, m - 1, script); }
  }
}
