/** A whole `migrate-storage`: what a successful one leaves, and that another one changes nothing. */
module SpecMigrationRun {
  import opened Basics
  import opened SpecMigration

  datatype Exit = Refused | HalfMigrated | Migrated

  function Migration(n: Naming, target: Mode, w: World, listing: seq<File>, script: Script): (World, Exit)
    requires forall f | f in listing :: f in w.files
  {
    if w.unreadable != {} || !Clean(n, w.files) then (w, Refused) else
    var step := Steps(n, target, w, listing, |listing|, script);
    (step.world, if step.go then Migrated else HalfMigrated)
  }

  // ---------------------------------------------------------------- the index

  /** Plaintext under `local` is not tracked, anything else is, and what was replaced is not. */
  predicate IndexRight(target: Mode, index: set<File>, was: File, f: File) {
    && (if target == Local then f !in index else f in index)
    && (was != f ==> was !in index)
  }

  /** A file that was no spec's and is no spec's yet. */
  ghost predicate Foreign(n: Naming, target: Mode, w0: World, listing: seq<File>, m: nat, g: File)
    requires m <= |listing| && forall f | f in listing :: f in w0.files
  {
    g !in listing && forall j | 0 <= j < m :: g != NewFile(n, target, w0.files[listing[j]])
  }

  ghost predicate EntryKept(n: Naming, target: Mode, w0: World, w: World, listing: seq<File>, m: nat, g: File)
    requires m <= |listing| && forall f | f in listing :: f in w0.files
  {
    Foreign(n, target, w0, listing, m, g) ==> (g in w.index <==> g in w0.index)
  }

  predicate RightAt(n: Naming, target: Mode, w0: World, w: World, listing: seq<File>, j: nat)
    requires j < |listing| && listing[j] in w0.files
  {
    IndexRight(target, w.index, listing[j], NewFile(n, target, w0.files[listing[j]]))
  }

  ghost predicate Tracking(n: Naming, target: Mode, w0: World, w: World, listing: seq<File>, m: nat)
    requires m <= |listing| && forall f | f in listing :: f in w0.files
  {
    && (forall j | 0 <= j < m :: RightAt(n, target, w0, w, listing, j))
    && (forall g :: EntryKept(n, target, w0, w, listing, m, g))
    && w.unreadable == w0.unreadable
    && (m > 0 ==> (target == Local ==> w.hidden) && (target == Committed ==> !w.hidden))
    && (m == 0 || target == Encrypted ==> w.hidden == w0.hidden)
  }

  lemma SpecStepIndex(n: Naming, target: Mode, w: World, was: File, s: Spec, k: nat, script: Script)
    requires SpecStep(n, target, w, was, s, k, script).go
    ensures var w', f := SpecStep(n, target, w, was, s, k, script).world, NewFile(n, target, s);
            && IndexRight(target, w'.index, was, f) && w'.unreadable == w.unreadable
            && (forall g | g != was && g != f :: g in w'.index <==> g in w.index)
            && (target == Local ==> w'.hidden) && (target == Committed ==> !w'.hidden)
            && (target == Encrypted ==> w'.hidden == w.hidden)
  {
  }

  lemma TrackingFurther(n: Naming, target: Mode, w0: World, w: World, w': World, listing: seq<File>, m: nat)
    requires Dated(n) && Clean(n, w0.files) && Lists(w0, listing) && m < |listing|
             && Tracking(n, target, w0, w, listing, m)
    requires var f := NewFile(n, target, w0.files[listing[m]]);
             && IndexRight(target, w'.index, listing[m], f) && w'.unreadable == w.unreadable
             && (forall g | g != listing[m] && g != f :: g in w'.index <==> g in w.index)
             && (target == Local ==> w'.hidden) && (target == Committed ==> !w'.hidden)
             && (target == Encrypted ==> w'.hidden == w.hidden)
    ensures Tracking(n, target, w0, w', listing, m + 1)
  {
    forall j | 0 <= j < m + 1 ensures RightAt(n, target, w0, w', listing, j) {
      if j < m {
        assert RightAt(n, target, w0, w, listing, j);
        NewFilesAreOwn(n, target, w0, listing[m], listing[j]);
        NewFilesAreOwn(n, target, w0, listing[j], listing[m]);
      }
    }
    var next := m + 1;
    forall g ensures EntryKept(n, target, w0, w', listing, next, g) {
      assert EntryKept(n, target, w0, w, listing, m, g);
    }
  }

  ghost predicate OnTrack(n: Naming, target: Mode, w0: World, listing: seq<File>, m: nat, step: Step)
    requires m <= |listing| && forall f | f in listing :: f in w0.files
  {
    step.go ==> Tracking(n, target, w0, step.world, listing, m)
  }

  lemma NextSpecTracked(n: Naming, target: Mode, w0: World, w: World, listing: seq<File>, m: nat, script: Script)
    requires Dated(n) && Clean(n, w0.files) && Lists(w0, listing) && m < |listing|
    requires Tracking(n, target, w0, w, listing, m)
    ensures OnTrack(n, target, w0, listing, m + 1, SpecStep(n, target, w, listing[m], w0.files[listing[m]], m, script))
  {
    var step := SpecStep(n, target, w, listing[m], w0.files[listing[m]], m, script);
    if step.go {
      SpecStepIndex(n, target, w, listing[m], w0.files[listing[m]], m, script);
      TrackingFurther(n, target, w0, w, step.world, listing, m);
    }
  }

  lemma TrackingAtFirst(n: Naming, target: Mode, w: World, listing: seq<File>)
    requires forall f | f in listing :: f in w.files
    ensures Tracking(n, target, w, w, listing, 0)
  {
  }

  lemma OneMoreTracked(n: Naming, target: Mode, w: World, listing: seq<File>, m: nat, script: Script, before: Step,
                       after: Step)
    requires Dated(n) && Clean(n, w.files) && Lists(w, listing) && m < |listing|
    requires Follows(n, target, w, listing, m, script, before, after)
    requires OnTrack(n, target, w, listing, m, before)
    ensures OnTrack(n, target, w, listing, m + 1, after)
  {
    if before.go { NextSpecTracked(n, target, w, before.world, listing, m, script); }
  }

  lemma {:induction false} HistoryTracks(n: Naming, target: Mode, w: World, listing: seq<File>, script: Script,
                                         steps: seq<Step>, m: nat)
    requires Dated(n) && Clean(n, w.files) && Lists(w, listing) && m < |steps| <= |listing| + 1
    requires History(n, target, w, listing, script, steps)
    ensures OnTrack(n, target, w, listing, m, steps[m])
  {
    if m == 0 {
      TrackingAtFirst(n, target, w, listing);
    } else {
      HistoryTracks(n, target, w, listing, script, steps, m - 1);
      assert FollowsAt(n, target, w, listing, script, steps, m);
      OneMoreTracked(n, target, w, listing, m - 1, script, steps[m - 1], steps[m]);
    }
  }

  lemma StepsTrack(n: Naming, target: Mode, w: World, listing: seq<File>, m: nat, script: Script)
    requires Dated(n) && Clean(n, w.files) && Lists(w, listing) && m <= |listing|
    ensures OnTrack(n, target, w, listing, m, Steps(n, target, w, listing, m, script))
  {
    var steps := HistoryOf(n, target, w, listing, m, script);
    HistoryTracks(n, target, w, listing, script, steps, m);
  }

  // ---------------------------------------------------------------- the result

  /** Every file is the one its spec belongs in, tracked or not as the mode wants it. */
  ghost predicate InPlace(n: Naming, target: Mode, w: World) {
    && (forall f | f in w.files :: NewFile(n, target, w.files[f]) == f && IndexRight(target, w.index, f, f))
    && (w.files != map[] ==> (target == Local ==> w.hidden) && (target == Committed ==> !w.hidden))
  }

  /** The same specs, each in exactly one file. */
  ghost predicate SameSpecs(w0: World, w: World) {
    && NothingLost(w0, w) && NothingLost(w, w0)
    && (forall f, g | f in w.files && g in w.files && w.files[f].id == w.files[g].id :: f == g)
  }

  /** The plaintext of no spec, where it was or where it is, can be read from the index. */
  ghost predicate NoPlaintextTracked(w0: World, w: World) {
    forall f | (f in w0.files || f in w.files) && !f.encrypted :: f !in w.index
  }

  lemma AllMoved(n: Naming, target: Mode, w0: World, w: World, listing: seq<File>, f: File) returns (j: nat)
    requires Lists(w0, listing) && Halfway(n, target, w0, w, listing, |listing|) && f in w.files
    ensures j < |listing| && f == NewFile(n, target, w0.files[listing[j]]) && w.files[f] == w0.files[listing[j]]
  {
    j := OfOneSpec(n, target, w0, w, listing, |listing|, f);
  }

  lemma MovedSpecsAreSame(n: Naming, target: Mode, w0: World, w: World, listing: seq<File>)
    requires Dated(n) && Clean(n, w0.files) && Lists(w0, listing) && Halfway(n, target, w0, w, listing, |listing|)
    ensures SameSpecs(w0, w) && Clean(n, w.files)
  {
    HalfwayLosesNothing(n, target, w0, w, listing, |listing|);
    forall f ensures Survives(w, w0, f) && (f in w.files ==> n.canonicalId(f.stem) == Some(w.files[f].id)) {
      if f in w.files {
        var j := AllMoved(n, target, w0, w, listing, f);
        assert w0.files[listing[j]] == w.files[f];
      }
    }
    forall f, g | f in w.files && g in w.files && w.files[f].id == w.files[g].id ensures f == g {
      var i := AllMoved(n, target, w0, w, listing, f);
      var j := AllMoved(n, target, w0, w, listing, g);
    }
  }

  lemma MovedSpecsAreInPlace(n: Naming, target: Mode, w0: World, w: World, listing: seq<File>)
    requires Lists(w0, listing) && Halfway(n, target, w0, w, listing, |listing|)
    requires Tracking(n, target, w0, w, listing, |listing|)
    ensures InPlace(n, target, w)
    ensures target != Committed ==> NoPlaintextTracked(w0, w)
  {
    forall f | f in w.files ensures NewFile(n, target, w.files[f]) == f && IndexRight(target, w.index, f, f) {
      var j := AllMoved(n, target, w0, w, listing, f);
      assert RightAt(n, target, w0, w, listing, j);
    }
    forall f | f in w0.files && !f.encrypted && target != Committed ensures f !in w.index {
      var j :| 0 <= j < |listing| && listing[j] == f;
      assert RightAt(n, target, w0, w, listing, j);
    }
    if w.files != map[] {
      var f :| f in w.files;
      var j := AllMoved(n, target, w0, w, listing, f);
    }
  }

  /**
   A refused migration has changed nothing. Any other has lost no spec, wherever it stopped. A successful
   one has every spec in one file, in the configured representation, and under `local` and `encrypted` no
   plaintext of a spec is left in the index.
   */
  lemma MigrationKeepsSpecs(n: Naming, target: Mode, w: World, listing: seq<File>, script: Script)
    requires Dated(n) && Lists(w, listing)
    ensures var (w', exit) := Migration(n, target, w, listing, script);
            && (exit == Refused ==> w' == w) && NothingLost(w, w')
            && (exit == Migrated ==> SameSpecs(w, w') && Clean(n, w'.files) && w'.unreadable == {})
            && (exit == Migrated ==> InPlace(n, target, w') && (target != Committed ==> NoPlaintextTracked(w, w')))
  {
    var (w', exit) := Migration(n, target, w, listing, script);
    if exit == Refused {
      forall f ensures Survives(w, w, f) { }
    } else {
      StepsKeepSpecs(n, target, w, listing, |listing|, script);
      if exit == Migrated {
        StepsTrack(n, target, w, listing, |listing|, script);
        MovedSpecsAreSame(n, target, w, w', listing);
        MovedSpecsAreInPlace(n, target, w, w', listing);
      }
    }
  }

  // ---------------------------------------------------------------- once more

  lemma InPlaceStepIsIdle(n: Naming, target: Mode, w: World, f: File, k: nat, script: Script)
    requires InPlace(n, target, w) && f in w.files
    ensures SpecStep(n, target, w, f, w.files[f], k, script).world == w
    ensures (forall c :: script(k, c).Works?) ==> SpecStep(n, target, w, f, w.files[f], k, script).go
  {
    assert w.files[f := w.files[f]] == w.files;
    assert target != Local ==> w.index + {f} == w.index;
  }

  lemma InPlaceNextIsIdle(n: Naming, target: Mode, w: World, listing: seq<File>, m: nat, script: Script)
    requires InPlace(n, target, w) && m < |listing| && (forall f | f in listing :: f in w.files)
    requires Steps(n, target, w, listing, m, script).world == w
    ensures Steps(n, target, w, listing, m + 1, script).world == w
    ensures Steps(n, target, w, listing, m, script).go && (forall c :: script(m, c).Works?) ==>
              Steps(n, target, w, listing, m + 1, script).go
  {
    InPlaceStepIsIdle(n, target, w, listing[m], m, script);
  }

  lemma {:induction false} InPlaceStepsAreIdle(n: Naming, target: Mode, w: World, listing: seq<File>, m: nat,
                                               script: Script)
    requires InPlace(n, target, w) && m <= |listing| && forall f | f in listing :: f in w.files
    ensures Steps(n, target, w, listing, m, script).world == w
    ensures (forall k, c :: script(k, c).Works?) ==> Steps(n, target, w, listing, m, script).go
  {
    if m > 0 {
      InPlaceStepsAreIdle(n, target, w, listing, m - 1, script);
      InPlaceNextIsIdle(n, target, w, listing, m - 1, script);
    }
  }

  /** After a successful migration another one changes nothing, and succeeds unless a call raises. */
  lemma MigratingTwice(n: Naming, target: Mode, w: World, listing: seq<File>, script: Script, again: seq<File>,
                       script': Script)
    requires Dated(n) && Lists(w, listing) && Migration(n, target, w, listing, script).1 == Migrated
    requires Lists(Migration(n, target, w, listing, script).0, again)
    ensures var w' := Migration(n, target, w, listing, script).0;
            Migration(n, target, w', again, script').0 == w'
            && ((forall k, c :: script'(k, c).Works?) ==> Migration(n, target, w', again, script').1 == Migrated)
  {
    var w' := Migration(n, target, w, listing, script).0;
    MigrationKeepsSpecs(n, target, w, listing, script);
    InPlaceStepsAreIdle(n, target, w', again, |again|, script');
  }
}
