/** `spec migrate-storage`: every spec into the representation that the workspace is configured for. */
module SpecMigration {
  import opened Basics

  datatype Mode = Committed | Local | Encrypted

  /** A file under `specs/`: its name without the `.enc` suffix, and whether it carries that suffix. */
  datatype File = File(stem: string, encrypted: bool)

  datatype Spec = Spec(id: string, created: string, text: string)

  /**
   The spec that every readable file holds, the files that cannot be read for want of the key or of sense,
   the git index, and whether `.gitignore` hides plaintext specs.
   */
  datatype World = World(files: map<File, Spec>, unreadable: set<File>, index: set<File>, hidden: bool)

  /** `stem` is the dated file name of a spec, `canonicalId` the id that a dated file name carries. */
  datatype Naming = Naming(stem: Spec -> string, canonicalId: string -> Option<string>)

  ghost predicate Dated(n: Naming) {
    forall s :: n.canonicalId(n.stem(s)) == Some(s.id)
  }

  function NewFile(n: Naming, target: Mode, s: Spec): File {
    File(n.stem(s), target == Encrypted)
  }

  // ---------------------------------------------------------------- preflight

  predicate Named(n: Naming, f: File, id: string) {
    n.canonicalId(f.stem) == Some(id)
  }

  predicate Holds(files: map<File, Spec>, f: File, id: string) {
    f in files && files[f].id == id
  }

  /** `resolve_artifact` of an id meets no conflict, where all files are readable. */
  predicate Resolves(n: Naming, files: map<File, Spec>, id: string) {
    && (forall f, g | f in files && g in files && Named(n, f, id) && Named(n, g, id) :: f == g)
    && (forall f, g | f in files && g in files && Holds(files, f, id) && Holds(files, g, id) :: f == g)
    && (forall f | f in files && Named(n, f, id) :: Holds(files, f, id))
    && (forall f | f in files && Holds(files, f, id) && n.canonicalId(f.stem).Some? :: Named(n, f, id))
  }

  /** The ids that the preflight resolves: those in the files and those in their names. */
  predicate AllResolve(n: Naming, files: map<File, Spec>) {
    && (forall f | f in files :: Resolves(n, files, files[f].id))
    && (forall f | f in files && n.canonicalId(f.stem).Some? :: Resolves(n, files, n.canonicalId(f.stem).value))
  }

  /** No two files hold the same spec, and a dated name tells the id of its spec. */
  predicate Clean(n: Naming, files: map<File, Spec>) {
    && (forall f, g | f in files && g in files && files[f].id == files[g].id :: f == g)
    && (forall f | f in files && n.canonicalId(f.stem).Some? :: n.canonicalId(f.stem).value == files[f].id)
  }

  /** Resolving every id of the store succeeds exactly when the store as a whole is clean. */
  lemma ResolvingIsExact(n: Naming, files: map<File, Spec>)
    ensures AllResolve(n, files) <==> Clean(n, files)
  {
    if AllResolve(n, files) {
      forall f, g | f in files && g in files && files[f].id == files[g].id ensures f == g {
        assert Holds(files, f, files[f].id) && Holds(files, g, files[f].id);
      }
      forall f | f in files && n.canonicalId(f.stem).Some? ensures n.canonicalId(f.stem).value == files[f].id {
        assert Holds(files, f, files[f].id);
      }
    }
  }

  // ---------------------------------------------------------------- one spec

  /**
   A call works, or raises with or without having taken effect. A removal that `RaisesHalfway`
   has deleted the file, as `git rm` does first, and not its index entry; any other call has done nothing then.
   */
  datatype Turn = Works | Raises(effect: bool) | RaisesHalfway

  datatype Call = Write | RemoveOld | Unhide | Track | Untrack

  /** How the calls for each spec go, by its position. */
  type Script = (nat, Call) -> Turn

  datatype Step = Step(world: World, go: bool)

  predicate TakesEffect(turn: Turn) {
    turn.Works? || (turn.Raises? && turn.effect)
  }

  /** Keeps the effect of a call that works or raises after it. */
  function After(w: World, changed: World, turn: Turn): Step {
    Step(if TakesEffect(turn) then changed else w, turn.Works?)
  }

  /** Writes the new file; hiding plaintext is part of writing it under `local`. */
  function WriteStep(w: World, f: File, s: Spec, target: Mode, turn: Turn): Step {
    var written := w.(files := w.files[f := s]);
    if turn.Works? && target == Local then Step(written.(hidden := true), true) else After(w, written, turn)
  }

  function RemoveStep(w: World, was: File, f: File, turn: Turn): Step {
    if was == f then Step(w, true)
    else if turn.RaisesHalfway? && (was in w.index || was in w.files) then Step(w.(files := w.files - {was}), false)
    else if was in w.index then After(w, w.(files := w.files - {was}, index := w.index - {was}), turn)
    else if was in w.files then After(w, w.(files := w.files - {was}), turn)
    else Step(w, true)
  }

  function TrackStep(w: World, f: File, target: Mode, k: nat, script: Script): Step {
    match target
    case Committed =>
      var unhidden := After(w, w.(hidden := false), script(k, Unhide));
      var now := unhidden.world;
      if unhidden.go then After(now, now.(index := now.index + {f}), script(k, Track)) else unhidden
    case Encrypted => After(w, w.(index := w.index + {f}), script(k, Track))
    case Local => if f in w.index then After(w, w.(index := w.index - {f}), script(k, Untrack)) else Step(w, true)
  }

  function SpecStep(n: Naming, target: Mode, w: World, was: File, s: Spec, k: nat, script: Script): Step {
    var f := NewFile(n, target, s);
    var written := WriteStep(w, f, s, target, script(k, Write));
    if !written.go then written else
    var removed := RemoveStep(written.world, was, f, script(k, RemoveOld));
    if !removed.go then removed else TrackStep(removed.world, f, target, k, script)
  }

  /** The first `m` files of the listing, until a call raises. */
  function Steps(n: Naming, target: Mode, w: World, listing: seq<File>, m: nat, script: Script): Step
    requires m <= |listing| && forall f | f in listing :: f in w.files
  {
    if m == 0 then Step(w, true) else
    var before := Steps(n, target, w, listing, m - 1, script);
    if before.go then SpecStep(n, target, before.world, listing[m - 1], w.files[listing[m - 1]], m - 1, script)
    else before
  }

  /** The files as they were scanned. */
  ghost predicate Lists(w: World, listing: seq<File>) {
    Distinct(listing) && (forall f | f in listing :: f in w.files) && forall f | f in w.files :: f in listing
  }

  // ---------------------------------------------------------------- what the steps keep

  /** The first `m` specs have moved, the others are where they were, and nothing else is there. */
  ghost predicate Halfway(n: Naming, target: Mode, w0: World, w: World, listing: seq<File>, m: nat)
    requires m <= |listing| && forall f | f in listing :: f in w0.files
  {
    && (forall j | 0 <= j < |listing| :: Placed(n, target, w0, w, listing, m, j))
    && (forall f :: Known(n, target, w0, w, listing, m, f))
  }

  ghost predicate Placed(n: Naming, target: Mode, w0: World, w: World, listing: seq<File>, m: nat, j: nat)
    requires j < |listing| && listing[j] in w0.files
  {
    if j < m then Moved(n, target, w0, w, listing[j])
    else listing[j] in w.files && w.files[listing[j]] == w0.files[listing[j]]
  }

  ghost predicate Known(n: Naming, target: Mode, w0: World, w: World, listing: seq<File>, m: nat, f: File)
    requires m <= |listing| && forall f | f in listing :: f in w0.files
  {
    f in w.files ==> Accounted(n, target, w0, listing, m, f)
  }

  ghost predicate Moved(n: Naming, target: Mode, w0: World, w: World, was: File)
    requires was in w0.files
  {
    var s := w0.files[was];
    NewFile(n, target, s) in w.files && w.files[NewFile(n, target, s)] == s
  }

  ghost predicate Accounted(n: Naming, target: Mode, w0: World, listing: seq<File>, m: nat, f: File)
    requires m <= |listing| && forall f | f in listing :: f in w0.files
  {
    || (exists j :: 0 <= j < m && f == NewFile(n, target, w0.files[listing[j]]))
    || (exists j :: m <= j < |listing| && f == listing[j])
  }

  /** The new file of a spec is no file of another spec, was or new. */
  lemma NewFilesAreOwn(n: Naming, target: Mode, w0: World, f: File, g: File)
    requires Dated(n) && Clean(n, w0.files) && f in w0.files && g in w0.files && f != g
    ensures NewFile(n, target, w0.files[f]) != g
    ensures NewFile(n, target, w0.files[f]) != NewFile(n, target, w0.files[g])
  {
    assert n.canonicalId(n.stem(w0.files[f])) == Some(w0.files[f].id);
    assert n.canonicalId(n.stem(w0.files[g])) == Some(w0.files[g].id);
  }

  /** The files of a world with one spec moved. */
  function MovedFiles(files: map<File, Spec>, was: File, f: File, s: Spec): map<File, Spec> {
    if was == f then files[f := s] else files[f := s] - {was}
  }

  lemma WriteStepFiles(w: World, f: File, s: Spec, target: Mode, turn: Turn)
    ensures var step := WriteStep(w, f, s, target, turn);
            && step.world.index == w.index && step.world.unreadable == w.unreadable && step.go == turn.Works?
            && step.world.files == if TakesEffect(turn) then w.files[f := s] else w.files
  {
  }

  lemma RemoveStepFiles(w: World, was: File, f: File, turn: Turn)
    requires was in w.files
    ensures var step := RemoveStep(w, was, f, turn);
            && step.world.unreadable == w.unreadable && step.go == (was == f || turn.Works?)
            && step.world.files == (if was == f || turn == Raises(false) then w.files else w.files - {was})
            && step.world.index == if was == f || !TakesEffect(turn) then w.index else w.index - {was}
  {
  }

  lemma TrackStepFiles(w: World, f: File, target: Mode, k: nat, script: Script)
    ensures var step := TrackStep(w, f, target, k, script);
            && step.world.files == w.files && step.world.unreadable == w.unreadable
            && (forall g | g != f :: g in step.world.index <==> g in w.index)
  {
  }

  lemma SpecStepFiles(n: Naming, target: Mode, w: World, was: File, s: Spec, k: nat, script: Script)
    requires was in w.files
    ensures var step, f := SpecStep(n, target, w, was, s, k, script), NewFile(n, target, s);
            && (step.go ==> step.world.files == MovedFiles(w.files, was, f, s))
            && (step.world.files == w.files || step.world.files == w.files[f := s]
                || step.world.files == MovedFiles(w.files, was, f, s))
  {
    var f := NewFile(n, target, s);
    WriteStepFiles(w, f, s, target, script(k, Write));
    var written := WriteStep(w, f, s, target, script(k, Write));
    if written.go {
      RemoveStepFiles(written.world, was, f, script(k, RemoveOld));
      var removed := RemoveStep(written.world, was, f, script(k, RemoveOld));
      if removed.go { TrackStepFiles(removed.world, f, target, k, script); }
    }
  }

  lemma FileKept(n: Naming, target: Mode, w0: World, files: map<File, Spec>, listing: seq<File>, m: nat, j: nat,
                 f: File)
    requires Dated(n) && Clean(n, w0.files) && Lists(w0, listing) && m < |listing| && j < |listing| && j != m
    requires f in files && (f == listing[j] || f == NewFile(n, target, w0.files[listing[j]]))
    ensures var s := w0.files[listing[m]];
            var moved := MovedFiles(files, listing[m], NewFile(n, target, s), s);
            f in moved && moved[f] == files[f]
  {
    NewFilesAreOwn(n, target, w0, listing[m], listing[j]);
    NewFilesAreOwn(n, target, w0, listing[j], listing[m]);
  }

  lemma AccountedFurther(n: Naming, target: Mode, w0: World, w: World, listing: seq<File>, m: nat, f: File)
    requires Lists(w0, listing) && m < |listing| && f in w.files && Accounted(n, target, w0, listing, m, f)
    requires f != listing[m] || f == NewFile(n, target, w0.files[listing[m]])
    ensures Accounted(n, target, w0, listing, m + 1, f)
  {
    if f != NewFile(n, target, w0.files[listing[m]]) {
      if j :| 0 <= j < m && f == NewFile(n, target, w0.files[listing[j]]) {
        assert j < m + 1;
      } else {
        var j :| m <= j < |listing| && f == listing[j];
        assert j >= m + 1;
      }
    }
  }

  /** The listed file that the files of a half-migrated store account for. */
  lemma OfOneSpec(n: Naming, target: Mode, w0: World, w: World, listing: seq<File>, m: nat, f: File) returns (j: nat)
    requires Lists(w0, listing) && m <= |listing| && Halfway(n, target, w0, w, listing, m) && f in w.files
    ensures j < |listing| && w.files[f] == w0.files[listing[j]]
    ensures f == if j < m then NewFile(n, target, w0.files[listing[j]]) else listing[j]
  {
    assert Known(n, target, w0, w, listing, m, f);
    if i :| 0 <= i < m && f == NewFile(n, target, w0.files[listing[i]]) {
      j := i;
    } else {
      j :| m <= j < |listing| && f == listing[j];
    }
    assert Placed(n, target, w0, w, listing, m, j);
  }

  lemma HalfwayFurther(n: Naming, target: Mode, w0: World, w: World, w': World, listing: seq<File>, m: nat)
    requires Dated(n) && Clean(n, w0.files) && Lists(w0, listing) && m < |listing|
    requires Halfway(n, target, w0, w, listing, m)
    requires var s := w0.files[listing[m]]; w'.files == MovedFiles(w.files, listing[m], NewFile(n, target, s), s)
    ensures Halfway(n, target, w0, w', listing, m + 1)
  {
    var next := m + 1;
    forall j | 0 <= j < |listing| ensures Placed(n, target, w0, w', listing, next, j) {
      assert Placed(n, target, w0, w, listing, m, j);
      if j != m {
        FileKept(n, target, w0, w.files, listing, m, j,
                 if j < m then NewFile(n, target, w0.files[listing[j]]) else listing[j]);
      }
    }
    forall f ensures Known(n, target, w0, w', listing, next, f) {
      assert Known(n, target, w0, w, listing, m, f);
      if f in w'.files {
        if f == NewFile(n, target, w0.files[listing[m]]) {
          assert m < next;
        } else {
          AccountedFurther(n, target, w0, w, listing, m, f);
        }
      }
    }
  }

  /** Every spec that was scanned is still in some file. */
  ghost predicate NothingLost(w0: World, w: World) {
    forall f :: Survives(w0, w, f)
  }

  ghost predicate Survives(w0: World, w: World, f: File) {
    f in w0.files ==> Kept(w, w0.files[f])
  }

  ghost predicate Kept(w: World, s: Spec) {
    exists f :: f in w.files && w.files[f] == s
  }

  lemma HalfwayLosesNothing(n: Naming, target: Mode, w0: World, w: World, listing: seq<File>, m: nat)
    requires Lists(w0, listing) && m <= |listing| && Halfway(n, target, w0, w, listing, m)
    ensures NothingLost(w0, w)
  {
    forall f ensures Survives(w0, w, f) {
      if f in w0.files {
        var j :| 0 <= j < |listing| && listing[j] == f;
        assert Placed(n, target, w0, w, listing, m, j);
      }
    }
  }

  lemma OneMoreFile(w0: World, w: World, w': World, f: File, s: Spec)
    requires NothingLost(w0, w) && w'.files == w.files[f := s] && (f in w.files ==> w.files[f] == s)
    ensures NothingLost(w0, w')
  {
    forall g ensures Survives(w0, w', g) {
      assert Survives(w0, w, g);
      if g in w0.files {
        var h :| h in w.files && w.files[h] == w0.files[g];
        assert h in w'.files && w'.files[h] == w0.files[g];
      }
    }
  }

  /** A file that a spec is about to be written to holds that spec already, or does not exist. */
  lemma NewFileIsFree(n: Naming, target: Mode, w0: World, w: World, listing: seq<File>, m: nat)
    requires Dated(n) && Clean(n, w0.files) && Lists(w0, listing) && m < |listing|
    requires Halfway(n, target, w0, w, listing, m)
    ensures var s := w0.files[listing[m]]; var f := NewFile(n, target, s); f in w.files ==> w.files[f] == s
  {
    var f := NewFile(n, target, w0.files[listing[m]]);
    forall j | 0 <= j < |listing| && j != m ensures f != listing[j] && f != NewFile(n, target, w0.files[listing[j]]) {
      NewFilesAreOwn(n, target, w0, listing[m], listing[j]);
    }
    assert Known(n, target, w0, w, listing, m, f) && Placed(n, target, w0, w, listing, m, m);
  }

  /** Nothing is lost, and a run that has not stopped is where it should be. */
  ghost predicate OnTheWay(n: Naming, target: Mode, w: World, listing: seq<File>, m: nat, step: Step)
    requires m <= |listing| && forall f | f in listing :: f in w.files
  {
    NothingLost(w, step.world) && (step.go ==> Halfway(n, target, w, step.world, listing, m))
  }

  /** One spec on, unless the migration has stopped. */
  ghost predicate Follows(n: Naming, target: Mode, w: World, listing: seq<File>, m: nat, script: Script, before: Step,
                          after: Step)
    requires m < |listing| && forall f | f in listing :: f in w.files
  {
    after == if before.go then SpecStep(n, target, before.world, listing[m], w.files[listing[m]], m, script) else before
  }

  lemma OneMoreOnTheWay(n: Naming, target: Mode, w: World, listing: seq<File>, m: nat, script: Script, before: Step,
                        after: Step)
    requires Dated(n) && Clean(n, w.files) && Lists(w, listing) && m < |listing|
    requires Follows(n, target, w, listing, m, script, before, after) && OnTheWay(n, target, w, listing, m, before)
    ensures OnTheWay(n, target, w, listing, m + 1, after)
  {
    if before.go { NextSpecKept(n, target, w, before.world, listing, m, script); }
  }

  lemma StepFollows(n: Naming, target: Mode, w: World, listing: seq<File>, m: nat, script: Script)
    requires m < |listing| && forall f | f in listing :: f in w.files
    ensures Follows(n, target, w, listing, m, script, Steps(n, target, w, listing, m, script),
                    Steps(n, target, w, listing, m + 1, script))
  {
  }

  /** A migration, spec by spec. */
  ghost predicate History(n: Naming, target: Mode, w: World, listing: seq<File>, script: Script, steps: seq<Step>)
    requires |steps| <= |listing| + 1 && forall f | f in listing :: f in w.files
  {
    && steps != [] && steps[0] == Step(w, true)
    && forall k | 0 < k < |steps| :: FollowsAt(n, target, w, listing, script, steps, k)
  }

  ghost predicate FollowsAt(n: Naming, target: Mode, w: World, listing: seq<File>, script: Script, steps: seq<Step>,
                            k: nat)
    requires 0 < k < |steps| <= |listing| + 1 && forall f | f in listing :: f in w.files
  {
    Follows(n, target, w, listing, k - 1, script, steps[k - 1], steps[k])
  }

  lemma {:induction false} HistoryOf(n: Naming, target: Mode, w: World, listing: seq<File>, m: nat, script: Script)
    returns (steps: seq<Step>)
    requires m <= |listing| && forall f | f in listing :: f in w.files
    ensures |steps| == m + 1 && forall k | 0 <= k <= m :: steps[k] == Steps(n, target, w, listing, k, script)
    ensures History(n, target, w, listing, script, steps)
  {
    if m == 0 {
      steps := [Step(w, true)];
    } else {
      var front := HistoryOf(n, target, w, listing, m - 1, script);
      StepFollows(n, target, w, listing, m - 1, script);
      steps := front + [Steps(n, target, w, listing, m, script)];
      forall k | 0 < k < |steps| ensures FollowsAt(n, target, w, listing, script, steps, k) {
        assert k < m ==> FollowsAt(n, target, w, listing, script, front, k);
      }
    }
  }

  lemma FirstOnTheWay(n: Naming, target: Mode, w: World, listing: seq<File>, step: Step)
    requires Lists(w, listing) && step == Step(w, true)
    ensures OnTheWay(n, target, w, listing, 0, step)
  {
    HalfwayAtFirst(n, target, w, listing);
  }

  lemma {:induction false} HistoryKeepsSpecs(n: Naming, target: Mode, w: World, listing: seq<File>, script: Script,
                                             steps: seq<Step>, m: nat)
    requires Dated(n) && Clean(n, w.files) && Lists(w, listing) && m < |steps| <= |listing| + 1
    requires History(n, target, w, listing, script, steps)
    ensures OnTheWay(n, target, w, listing, m, steps[m])
  {
    if m == 0 {
      FirstOnTheWay(n, target, w, listing, steps[0]);
    } else {
      HistoryKeepsSpecs(n, target, w, listing, script, steps, m - 1);
      NextOnTheWay(n, target, w, listing, script, steps, m);
    }
  }

  lemma NextOnTheWay(n: Naming, target: Mode, w: World, listing: seq<File>, script: Script, steps: seq<Step>, m: nat)
    requires Dated(n) && Clean(n, w.files) && Lists(w, listing) && 0 < m < |steps| <= |listing| + 1
    requires History(n, target, w, listing, script, steps) && OnTheWay(n, target, w, listing, m - 1, steps[m - 1])
    ensures OnTheWay(n, target, w, listing, m, steps[m])
  {
    assert FollowsAt(n, target, w, listing, script, steps, m);
    OneMoreOnTheWay(n, target, w, listing, m - 1, script, steps[m - 1], steps[m]);
  }

  /** However far the migration gets, no spec is lost. */
  lemma StepsKeepSpecs(n: Naming, target: Mode, w: World, listing: seq<File>, m: nat, script: Script)
    requires Dated(n) && Clean(n, w.files) && Lists(w, listing) && m <= |listing|
    ensures OnTheWay(n, target, w, listing, m, Steps(n, target, w, listing, m, script))
  {
    var steps := HistoryOf(n, target, w, listing, m, script);
    HistoryKeepsSpecs(n, target, w, listing, script, steps, m);
  }

  lemma HalfwayAtFirst(n: Naming, target: Mode, w: World, listing: seq<File>)
    requires Lists(w, listing)
    ensures Halfway(n, target, w, w, listing, 0) && NothingLost(w, w)
  {
    forall f ensures Known(n, target, w, w, listing, 0, f) {
      if f in w.files { var j :| 0 <= j < |listing| && f == listing[j]; }
    }
    forall j | 0 <= j < |listing| ensures Placed(n, target, w, w, listing, 0, j) {
      assert listing[j] in listing;
    }
    HalfwayLosesNothing(n, target, w, w, listing, 0);
  }

  lemma NextSpecKept(n: Naming, target: Mode, w0: World, w: World, listing: seq<File>, m: nat, script: Script)
    requires Dated(n) && Clean(n, w0.files) && Lists(w0, listing) && m < |listing|
    requires Halfway(n, target, w0, w, listing, m) && NothingLost(w0, w)
    ensures OnTheWay(n, target, w0, listing, m + 1, SpecStep(n, target, w, listing[m], w0.files[listing[m]], m, script))
  {
    var s := w0.files[listing[m]];
    var f := NewFile(n, target, s);
    assert Placed(n, target, w0, w, listing, m, m);
    SpecStepFiles(n, target, w, listing[m], s, m, script);
    NewFileIsFree(n, target, w0, w, listing, m);
    var written := w.(files := w.files[f := s]);
    OneMoreFile(w0, w, written, f, s);
    var moved := w.(files := MovedFiles(w.files, listing[m], f, s));
    HalfwayFurther(n, target, w0, w, moved, listing, m);
    HalfwayLosesNothing(n, target, w0, moved, listing, m + 1);
    SameFiles(w0, written, SpecStep(n, target, w, listing[m], s, m, script).world);
    SameFiles(w0, moved, SpecStep(n, target, w, listing[m], s, m, script).world);
    SameFiles(w0, w, SpecStep(n, target, w, listing[m], s, m, script).world);
    if SpecStep(n, target, w, listing[m], s, m, script).go {
      HalfwayFurther(n, target, w0, w, SpecStep(n, target, w, listing[m], s, m, script).world, listing, m);
    }
  }

  lemma SameFiles(w0: World, w: World, w': World)
    requires NothingLost(w0, w)
    ensures w'.files == w.files ==> NothingLost(w0, w')
  {
    if w'.files == w.files {
      forall f ensures Survives(w0, w', f) {
        assert Survives(w0, w, f);
        if f in w0.files {
          var g :| g in w.files && w.files[g] == w0.files[f];
          assert g in w'.files && w'.files[g] == w0.files[f];
        }
      }
    }
  }

  /** When its turn comes, a file is still there. */
  lemma StillThere(n: Naming, target: Mode, w: World, listing: seq<File>, m: nat, script: Script)
    requires Dated(n) && Clean(n, w.files) && Lists(w, listing) && m < |listing|
    ensures var before := Steps(n, target, w, listing, m, script); before.go ==> listing[m] in before.world.files
  {
    StepsKeepSpecs(n, target, w, listing, m, script);
    var now := Steps(n, target, w, listing, m, script);
    assert now.go ==> Placed(n, target, w, now.world, listing, m, m);
  }
}
