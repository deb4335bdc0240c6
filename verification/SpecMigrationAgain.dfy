/** Whether a migration that stopped halfway can be run again. */
module SpecMigrationAgain {
  import opened Basics
  import opened SpecMigration
  import opened SpecMigrationRun

  /** The new file of a spec that has to move is there, and the old one could not be removed. */
  predicate LeavesBoth(was: File, f: File, k: nat, script: Script) {
    && was != f
    && (script(k, Write) == Raises(true) || (script(k, Write) == Works && script(k, RemoveOld) == Raises(false)))
  }

  /** The files that are left of the spec in `was`, whose new file is `f`. */
  predicate LeftOf(before: World, after: World, was: File, f: File, s: Spec, both: bool) {
    && after.unreadable == before.unreadable
    && if both then after.files == before.files[f := s]
       else after.files == before.files || after.files == MovedFiles(before.files, was, f, s)
  }

  lemma SpecStepStops(n: Naming, target: Mode, w: World, was: File, s: Spec, k: nat, script: Script)
    requires was in w.files
    ensures var step, f := SpecStep(n, target, w, was, s, k, script), NewFile(n, target, s);
            && LeftOf(w, step.world, was, f, s, LeavesBoth(was, f, k, script))
            && (LeavesBoth(was, f, k, script) ==> !step.go)
  {
    SpecStepFiles(n, target, w, was, s, k, script);
    SpecStepReads(n, target, w, was, s, k, script);
    if LeavesBoth(was, NewFile(n, target, s), k, script) {
      BothStay(n, target, w, was, s, k, script);
    } else {
      BothGo(n, target, w, was, s, k, script);
    }
  }

  lemma SpecStepReads(n: Naming, target: Mode, w: World, was: File, s: Spec, k: nat, script: Script)
    ensures SpecStep(n, target, w, was, s, k, script).world.unreadable == w.unreadable
  {
  }

  lemma BothGo(n: Naming, target: Mode, w: World, was: File, s: Spec, k: nat, script: Script)
    requires was in w.files && !LeavesBoth(was, NewFile(n, target, s), k, script)
    ensures var after, f := SpecStep(n, target, w, was, s, k, script).world, NewFile(n, target, s);
            after.files == w.files || after.files == MovedFiles(w.files, was, f, s)
  {
    var f := NewFile(n, target, s);
    WriteStepFiles(w, f, s, target, script(k, Write));
    var written := WriteStep(w, f, s, target, script(k, Write));
    if written.go {
      RemoveStepFiles(written.world, was, f, script(k, RemoveOld));
      var removed := RemoveStep(written.world, was, f, script(k, RemoveOld));
      if removed.go { TrackStepFiles(removed.world, f, target, k, script); }
    }
  }

  lemma BothStay(n: Naming, target: Mode, w: World, was: File, s: Spec, k: nat, script: Script)
    requires was in w.files && LeavesBoth(was, NewFile(n, target, s), k, script)
    ensures var step := SpecStep(n, target, w, was, s, k, script);
            !step.go && step.world.files == w.files[NewFile(n, target, s) := s]
  {
  }

  lemma HalfwayIsClean(n: Naming, target: Mode, w0: World, w: World, listing: seq<File>, m: nat)
    requires Dated(n) && Clean(n, w0.files) && Lists(w0, listing) && m <= |listing|
    requires Halfway(n, target, w0, w, listing, m)
    ensures Clean(n, w.files)
  {
    forall f, g | f in w.files && g in w.files && w.files[f].id == w.files[g].id ensures f == g {
      var i := OfOneSpec(n, target, w0, w, listing, m, f);
      var j := OfOneSpec(n, target, w0, w, listing, m, g);
      assert listing[i] == listing[j];
    }
    forall f | f in w.files && n.canonicalId(f.stem).Some? ensures n.canonicalId(f.stem).value == w.files[f].id {
      var j := OfOneSpec(n, target, w0, w, listing, m, f);
    }
  }

  /** The migration gets to spec `m`, and both files of that spec are left. */
  predicate LeavesBothAt(n: Naming, target: Mode, w: World, listing: seq<File>, m: nat, script: Script)
    requires m < |listing| && forall f | f in listing :: f in w.files
  {
    && Steps(n, target, w, listing, m, script).go
    && LeavesBoth(listing[m], NewFile(n, target, w.files[listing[m]]), m, script)
  }

  predicate LeavesBothSomewhere(n: Naming, target: Mode, w: World, listing: seq<File>, m: nat, script: Script)
    requires m <= |listing| && forall f | f in listing :: f in w.files
  {
    exists i | 0 <= i < m :: LeavesBothAt(n, target, w, listing, i, script)
  }

  lemma LeftIsClean(n: Naming, target: Mode, w0: World, w: World, w': World, listing: seq<File>, m: nat, both: bool)
    requires Dated(n) && Clean(n, w0.files) && Lists(w0, listing) && m < |listing|
             && Halfway(n, target, w0, w, listing, m)
    requires var s := w0.files[listing[m]];
             LeftOf(w, w', listing[m], NewFile(n, target, s), s, both) && (both ==> listing[m] != NewFile(n, target, s))
    ensures Clean(n, w'.files) <==> !both
  {
    var was, s := listing[m], w0.files[listing[m]];
    var f := NewFile(n, target, s);
    assert Placed(n, target, w0, w, listing, m, m);
    if both {
      assert was in w'.files && f in w'.files && w'.files[was].id == w'.files[f].id;
    } else {
      HalfwayIsClean(n, target, w0, w, listing, m);
      var moved := w.(files := MovedFiles(w.files, was, f, s));
      HalfwayFurther(n, target, w0, w, moved, listing, m);
      HalfwayIsClean(n, target, w0, moved, listing, m + 1);
    }
  }

  /** What the store is like after some specs, and whether both files of a spec are left. */
  predicate CleanUnless(n: Naming, w0: World, w: World, both: bool) {
    w.unreadable == w0.unreadable && (Clean(n, w.files) <==> !both)
  }

  lemma NextLeavesClean(n: Naming, target: Mode, w: World, before: World, listing: seq<File>, m: nat, script: Script)
    requires Dated(n) && Clean(n, w.files) && Lists(w, listing) && m < |listing|
    requires Halfway(n, target, w, before, listing, m) && before.unreadable == w.unreadable
    ensures var s := w.files[listing[m]];
            CleanUnless(n, w, SpecStep(n, target, before, listing[m], s, m, script).world,
                        LeavesBoth(listing[m], NewFile(n, target, s), m, script))
  {
    var s := w.files[listing[m]];
    var after := SpecStep(n, target, before, listing[m], s, m, script).world;
    assert Placed(n, target, w, before, listing, m, m);
    SpecStepStops(n, target, before, listing[m], s, m, script);
    LeftIsClean(n, target, w, before, after, listing, m, LeavesBoth(listing[m], NewFile(n, target, s), m, script));
  }

  /** Spec `k` of a migration leaves both of its files. */
  predicate BothAt(n: Naming, target: Mode, w: World, listing: seq<File>, script: Script, steps: seq<Step>, k: nat)
    requires k < |steps| && k < |listing| && forall f | f in listing :: f in w.files
  {
    steps[k].go && LeavesBoth(listing[k], NewFile(n, target, w.files[listing[k]]), k, script)
  }

  predicate BothBefore(n: Naming, target: Mode, w: World, listing: seq<File>, script: Script, steps: seq<Step>, m: nat)
    requires m <= |steps| && m <= |listing| && forall f | f in listing :: f in w.files
  {
    exists k | 0 <= k < m :: BothAt(n, target, w, listing, script, steps, k)
  }

  lemma OneMoreBoth(n: Naming, target: Mode, w: World, listing: seq<File>, script: Script, steps: seq<Step>, m: nat)
    requires m < |steps| && m < |listing| && forall f | f in listing :: f in w.files
    ensures BothBefore(n, target, w, listing, script, steps, m + 1) <==>
              BothBefore(n, target, w, listing, script, steps, m) || BothAt(n, target, w, listing, script, steps, m)
  {
  }

  lemma NextStepLeavesClean(n: Naming, target: Mode, w: World, listing: seq<File>, m: nat, script: Script,
                            before: Step, after: Step, both: bool)
    requires Dated(n) && Clean(n, w.files) && Lists(w, listing) && m < |listing|
    requires Follows(n, target, w, listing, m, script, before, after) && CleanUnless(n, w, before.world, both)
    requires before.go ==> Halfway(n, target, w, before.world, listing, m) && Clean(n, before.world.files)
    ensures var leaves := before.go && LeavesBoth(listing[m], NewFile(n, target, w.files[listing[m]]), m, script);
            CleanUnless(n, w, after.world, both || leaves)
  {
    if before.go { NextLeavesClean(n, target, w, before.world, listing, m, script); }
  }

  lemma {:induction false} HistoryLeavesClean(n: Naming, target: Mode, w: World, listing: seq<File>, script: Script,
                                              steps: seq<Step>, m: nat)
    requires Dated(n) && Clean(n, w.files) && Lists(w, listing) && m < |steps| <= |listing| + 1
    requires History(n, target, w, listing, script, steps)
    requires forall k | 0 <= k < |steps| && steps[k].go :: GoesClean(n, target, w, listing, steps, k)
    ensures CleanUnless(n, w, steps[m].world, BothBefore(n, target, w, listing, script, steps, m))
  {
    if m > 0 {
      HistoryLeavesClean(n, target, w, listing, script, steps, m - 1);
      assert steps[m - 1].go ==> GoesClean(n, target, w, listing, steps, m - 1);
      NextInHistoryLeavesClean(n, target, w, listing, script, steps, m);
    }
  }

  lemma NextInHistoryLeavesClean(n: Naming, target: Mode, w: World, listing: seq<File>, script: Script,
                                 steps: seq<Step>, m: nat)
    requires Dated(n) && Clean(n, w.files) && Lists(w, listing) && 0 < m < |steps| <= |listing| + 1
    requires History(n, target, w, listing, script, steps)
    requires steps[m - 1].go ==> GoesClean(n, target, w, listing, steps, m - 1)
    requires CleanUnless(n, w, steps[m - 1].world, BothBefore(n, target, w, listing, script, steps, m - 1))
    ensures CleanUnless(n, w, steps[m].world, BothBefore(n, target, w, listing, script, steps, m))
  {
    OneMoreBoth(n, target, w, listing, script, steps, m - 1);
    assert FollowsAt(n, target, w, listing, script, steps, m);
    NextStepLeavesClean(n, target, w, listing, m - 1, script, steps[m - 1], steps[m],
                        BothBefore(n, target, w, listing, script, steps, m - 1));
  }

  ghost predicate GoesClean(n: Naming, target: Mode, w: World, listing: seq<File>, steps: seq<Step>, k: nat)
    requires k < |steps| && k <= |listing| && forall f | f in listing :: f in w.files
  {
    Halfway(n, target, w, steps[k].world, listing, k) && Clean(n, steps[k].world.files)
  }

  lemma BothIsBoth(n: Naming, target: Mode, w: World, listing: seq<File>, m: nat, script: Script, steps: seq<Step>)
    requires m <= |listing| && m <= |steps| && forall f | f in listing :: f in w.files
    requires forall k | 0 <= k < |steps| :: k <= |listing| && steps[k] == Steps(n, target, w, listing, k, script)
    ensures BothBefore(n, target, w, listing, script, steps, m) == LeavesBothSomewhere(n, target, w, listing, m, script)
  {
    forall k | 0 <= k < m
      ensures BothAt(n, target, w, listing, script, steps, k) == LeavesBothAt(n, target, w, listing, k, script)
    {
    }
  }

  lemma StepsLeaveClean(n: Naming, target: Mode, w: World, listing: seq<File>, m: nat, script: Script)
    requires Dated(n) && Clean(n, w.files) && Lists(w, listing) && m <= |listing|
    ensures CleanUnless(n, w, Steps(n, target, w, listing, m, script).world,
                        LeavesBothSomewhere(n, target, w, listing, m, script))
  {
    var steps := HistoryOf(n, target, w, listing, m, script);
    forall k | 0 <= k < |steps| && steps[k].go ensures GoesClean(n, target, w, listing, steps, k) {
      GoingIsClean(n, target, w, listing, k, script);
    }
    HistoryLeavesClean(n, target, w, listing, script, steps, m);
    BothIsBoth(n, target, w, listing, m, script, steps);
  }

  lemma GoingIsClean(n: Naming, target: Mode, w: World, listing: seq<File>, m: nat, script: Script)
    requires Dated(n) && Clean(n, w.files) && Lists(w, listing) && m <= |listing|
    requires Steps(n, target, w, listing, m, script).go
    ensures Halfway(n, target, w, Steps(n, target, w, listing, m, script).world, listing, m)
    ensures Clean(n, Steps(n, target, w, listing, m, script).world.files)
  {
    StepsKeepSpecs(n, target, w, listing, m, script);
    HalfwayIsClean(n, target, w, Steps(n, target, w, listing, m, script).world, listing, m);
  }

  lemma {:induction false} NoCallRaises(n: Naming, target: Mode, w: World, listing: seq<File>, m: nat, script: Script)
    requires m <= |listing| && (forall f | f in listing :: f in w.files) && forall k, c :: script(k, c).Works?
    ensures Steps(n, target, w, listing, m, script).go
  {
    if m > 0 { NoCallRaises(n, target, w, listing, m - 1, script); }
  }

  /** The spec that was in `was` is where the configured representation has it, and its index entry is right. */
  predicate Delivered(n: Naming, target: Mode, w: World, w': World, was: File)
    requires was in w.files
  {
    var now := File(n.stem(w.files[was]), target == Encrypted);
    && now in w'.files && w'.files[now] == w.files[was]
    && (now in w'.index <==> target != Local) && (was != now ==> was !in w'.files && was !in w'.index)
  }

  predicate DeliveredFrom(n: Naming, target: Mode, w: World, f: File) {
    exists was | was in w.files :: f == File(n.stem(w.files[was]), target == Encrypted)
  }

  /**
   A migration is refused exactly when a file cannot be read, two files hold one spec, or a dated name tells
   another id than its spec. Otherwise it goes through when its calls do: every spec is in its own file in the
   configured representation, tracked unless plaintext is to stay local, there is no other file, and
   `.gitignore` hides plaintext specs exactly if it is to, or did so under encryption.
   */
  lemma CleanFoldersMigrate(n: Naming, target: Mode, w: World, listing: seq<File>, script: Script)
    requires Dated(n) && Lists(w, listing)
    ensures var (w', exit) := Migration(n, target, w, listing, script);
            && (exit == Refused <==>
                  || w.unreadable != {}
                  || (exists f, g | f in w.files && g in w.files :: f != g && w.files[f].id == w.files[g].id)
                  || exists f | f in w.files && n.canonicalId(f.stem).Some? ::
                       n.canonicalId(f.stem).value != w.files[f].id)
            && (exit != Refused && (forall k, c :: script(k, c).Works?) ==>
                  && exit == Migrated && (forall was | was in w.files :: Delivered(n, target, w, w', was))
                  && (forall f | f in w'.files :: DeliveredFrom(n, target, w, f))
                  && (w.files != map[] ==> (w'.hidden <==> target == Local || (target == Encrypted && w.hidden))))
  {
    CleanMeans(n, w.files);
    if w.unreadable == {} && Clean(n, w.files) && forall k, c :: script(k, c).Works? {
      WorkingStepsDeliver(n, target, w, listing, script);
    }
  }

  lemma CleanMeans(n: Naming, files: map<File, Spec>)
    ensures Clean(n, files) <==>
            && !(exists f, g | f in files && g in files :: f != g && files[f].id == files[g].id)
            && !exists f | f in files && n.canonicalId(f.stem).Some? :: n.canonicalId(f.stem).value != files[f].id
  {
  }

  lemma WorkingStepsDeliver(n: Naming, target: Mode, w: World, listing: seq<File>, script: Script)
    requires Dated(n) && Clean(n, w.files) && Lists(w, listing) && forall k, c :: script(k, c).Works?
    ensures var step := Steps(n, target, w, listing, |listing|, script);
            && step.go && (forall was | was in w.files :: Delivered(n, target, w, step.world, was))
            && (forall f | f in step.world.files :: DeliveredFrom(n, target, w, f))
            && (w.files != map[] ==> (step.world.hidden <==> target == Local || (target == Encrypted && w.hidden)))
  {
    NoCallRaises(n, target, w, listing, |listing|, script);
    StepsKeepSpecs(n, target, w, listing, |listing|, script);
    StepsTrack(n, target, w, listing, |listing|, script);
    AllDelivered(n, target, w, Steps(n, target, w, listing, |listing|, script).world, listing);
  }

  lemma AllDelivered(n: Naming, target: Mode, w: World, w': World, listing: seq<File>)
    requires Dated(n) && Clean(n, w.files) && Lists(w, listing)
    requires Halfway(n, target, w, w', listing, |listing|) && Tracking(n, target, w, w', listing, |listing|)
    ensures forall was | was in w.files :: Delivered(n, target, w, w', was)
    ensures forall f | f in w'.files :: DeliveredFrom(n, target, w, f)
    ensures w.files != map[] ==> (w'.hidden <==> target == Local || (target == Encrypted && w.hidden))
  {
    forall was | was in w.files ensures Delivered(n, target, w, w', was) {
      DeliveredOne(n, target, w, w', listing, was);
    }
    forall f | f in w'.files ensures DeliveredFrom(n, target, w, f) {
      var j := AllMoved(n, target, w, w', listing, f);
    }
    if w.files != map[] {
      var f :| f in w.files;
      assert f in listing;
    }
  }

  lemma DeliveredOne(n: Naming, target: Mode, w: World, w': World, listing: seq<File>, was: File)
    requires Dated(n) && Clean(n, w.files) && Lists(w, listing) && was in w.files
    requires Halfway(n, target, w, w', listing, |listing|) && Tracking(n, target, w, w', listing, |listing|)
    ensures Delivered(n, target, w, w', was)
  {
    var i :| 0 <= i < |listing| && listing[i] == was;
    assert Placed(n, target, w, w', listing, |listing|, i) && RightAt(n, target, w, w', listing, i);
    if was in w'.files {
      var j := AllMoved(n, target, w, w', listing, was);
      if j != i { NewFilesAreOwn(n, target, w, listing[j], was); }
    }
  }

  /**
   A migration that has stopped is refused when it is run again, now and ever after, exactly if it stopped
   with both files of some spec in the folder: the new one written and the old one not removed. Otherwise
   it goes through when its calls do.
   */
  lemma StoppedMigrationsRunAgain(n: Naming, target: Mode, w: World, listing: seq<File>, script: Script,
                                  again: seq<File>, script': Script)
    requires Dated(n) && Lists(w, listing) && Migration(n, target, w, listing, script).1 == HalfMigrated
    requires Lists(Migration(n, target, w, listing, script).0, again)
    ensures var w' := Migration(n, target, w, listing, script).0;
            && (Migration(n, target, w', again, script').1 == Refused
                <==> LeavesBothSomewhere(n, target, w, listing, |listing|, script))
            && (Migration(n, target, w', again, script').1 == Refused ==>
                  Migration(n, target, w', again, script').0 == w')
            && (!LeavesBothSomewhere(n, target, w, listing, |listing|, script) && (forall k, c :: script'(k, c).Works?)
                ==> Migration(n, target, w', again, script').1 == Migrated)
  {
    var w' := Migration(n, target, w, listing, script).0;
    StepsLeaveClean(n, target, w, listing, |listing|, script);
    if forall k, c :: script'(k, c).Works? { NoCallRaises(n, target, w', again, |again|, script'); }
  }

  // ---------------------------------------------------------------- plaintext that stays in the index

  /** The plaintext of a spec that has to move is deleted from the folder, and not from the index. */
  predicate HalfRemoved(n: Naming, target: Mode, index: set<File>, was: File, s: Spec, k: nat, script: Script) {
    && !was.encrypted && was in index && was != NewFile(n, target, s)
    && script(k, Write) == Works && script(k, RemoveOld) == RaisesHalfway
  }

  predicate HalfRemovedAt(n: Naming, target: Mode, w: World, listing: seq<File>, m: nat, script: Script)
    requires m < |listing| && forall f | f in listing :: f in w.files
  {
    && Steps(n, target, w, listing, m, script).go
    && HalfRemoved(n, target, w.index, listing[m], w.files[listing[m]], m, script)
  }

  /** A plaintext file that is gone from the folder and still tracked. */
  predicate Stale(w: World, f: File) {
    !f.encrypted && f !in w.files && f in w.index
  }

  lemma SpecStepTracks(n: Naming, target: Mode, w: World, was: File, s: Spec, k: nat, script: Script)
    requires was in w.files && target != Committed
    ensures var w' := SpecStep(n, target, w, was, s, k, script).world;
            && (Stale(w', was) <==> HalfRemoved(n, target, w.index, was, s, k, script))
            && (was !in w'.files ==> was != NewFile(n, target, s))
  {
  }

  lemma SpecStepLeaves(n: Naming, target: Mode, w: World, was: File, s: Spec, k: nat, script: Script, g: File)
    requires was in w.files && g != was && g != NewFile(n, target, s)
    ensures var w' := SpecStep(n, target, w, was, s, k, script).world;
            (g in w'.index <==> g in w.index) && (g in w'.files <==> g in w.files)
  {
    var f := NewFile(n, target, s);
    WriteStepFiles(w, f, s, target, script(k, Write));
    var written := WriteStep(w, f, s, target, script(k, Write));
    if written.go {
      RemoveStepFiles(written.world, was, f, script(k, RemoveOld));
      var removed := RemoveStep(written.world, was, f, script(k, RemoveOld));
      if removed.go { TrackStepFiles(removed.world, f, target, k, script); }
    }
  }

  /** What the first `m` specs mean for file `i` of the listing; `half` where its removal raises halfway. */
  predicate Traced(n: Naming, target: Mode, w0: World, w: World, m: nat, i: nat, was: File, half: bool)
    requires was in w0.files
  {
    && (Stale(w, was) <==> i < m && half)
    && (was !in w.files ==> was != NewFile(n, target, w0.files[was]))
    && (i >= m ==> was in w.files && (was in w.index <==> was in w0.index))
  }

  lemma NextTraced(n: Naming, target: Mode, w0: World, w: World, listing: seq<File>, m: nat, script: Script, i: nat,
                   half: bool)
    requires Dated(n) && Clean(n, w0.files) && Lists(w0, listing) && m < |listing| && i < |listing|
             && target != Committed
    requires Traced(n, target, w0, w, m, i, listing[i], half) && listing[m] in w.files
    requires i == m ==> (half <==> HalfRemoved(n, target, w0.index, listing[m], w0.files[listing[m]], m, script))
    ensures var w' := SpecStep(n, target, w, listing[m], w0.files[listing[m]], m, script).world;
            Traced(n, target, w0, w', m + 1, i, listing[i], half)
  {
    var was, s := listing[m], w0.files[listing[m]];
    if i == m {
      SpecStepTracks(n, target, w, was, s, m, script);
    } else {
      NewFilesAreOwn(n, target, w0, was, listing[i]);
      SpecStepLeaves(n, target, w, was, s, m, script, listing[i]);
    }
  }

  lemma OneMoreTraced(n: Naming, target: Mode, w: World, listing: seq<File>, m: nat, script: Script, i: nat, half: bool,
                      before: Step, after: Step)
    requires Dated(n) && Clean(n, w.files) && Lists(w, listing) && m < |listing| && i < |listing| && target != Committed
    requires Follows(n, target, w, listing, m, script, before, after)
    requires Traced(n, target, w, before.world, m, i, listing[i], half)
             && (before.go ==> listing[m] in before.world.files)
    requires i == m ==>
               (half <==> before.go && HalfRemoved(n, target, w.index, listing[m], w.files[listing[m]], m, script))
    ensures Traced(n, target, w, after.world, m + 1, i, listing[i], half)
  {
    if before.go { NextTraced(n, target, w, before.world, listing, m, script, i, half); }
  }

  lemma {:induction false} HistoryTraces(n: Naming, target: Mode, w: World, listing: seq<File>, script: Script,
                                         steps: seq<Step>, m: nat, i: nat, half: bool)
    requires Dated(n) && Clean(n, w.files) && Lists(w, listing) && m < |steps| <= |listing| + 1 && i < |listing|
    requires History(n, target, w, listing, script, steps) && target != Committed
    requires forall k | 0 <= k < m :: steps[k].go ==> listing[k] in steps[k].world.files
    requires i < m ==>
               (half <==> steps[i].go && HalfRemoved(n, target, w.index, listing[i], w.files[listing[i]], i, script))
    ensures Traced(n, target, w, steps[m].world, m, i, listing[i], half)
  {
    if m == 0 {
      assert listing[i] in w.files;
    } else {
      HistoryTraces(n, target, w, listing, script, steps, m - 1, i, half);
      assert FollowsAt(n, target, w, listing, script, steps, m);
      OneMoreTraced(n, target, w, listing, m - 1, script, i, half, steps[m - 1], steps[m]);
    }
  }

  lemma StepsTrace(n: Naming, target: Mode, w: World, listing: seq<File>, m: nat, script: Script, i: nat)
    requires Dated(n) && Clean(n, w.files) && Lists(w, listing) && m <= |listing| && i < |listing|
    requires target != Committed
    ensures Traced(n, target, w, Steps(n, target, w, listing, m, script).world, m, i, listing[i],
                   HalfRemovedAt(n, target, w, listing, i, script))
  {
    var steps := HistoryOf(n, target, w, listing, m, script);
    forall k | 0 <= k < m ensures steps[k].go ==> listing[k] in steps[k].world.files {
      StillThere(n, target, w, listing, k, script);
    }
    HistoryTraces(n, target, w, listing, script, steps, m, i, HalfRemovedAt(n, target, w, listing, i, script));
  }

  /** No spec turns up that was not scanned. */
  ghost predicate NothingNew(w0: World, w: World) {
    NothingLost(w, w0)
  }

  lemma StepAddsNothing(n: Naming, target: Mode, w0: World, w: World, was: File, k: nat, script: Script)
    requires was in w0.files && was in w.files && NothingNew(w0, w)
    ensures NothingNew(w0, SpecStep(n, target, w, was, w0.files[was], k, script).world)
  {
    SpecStepFiles(n, target, w, was, w0.files[was], k, script);
    assert Kept(w0, w0.files[was]);
    var w' := SpecStep(n, target, w, was, w0.files[was], k, script).world;
    forall f ensures Survives(w', w0, f) { assert Survives(w, w0, f); }
  }

  lemma {:induction false} StepsAddNothing(n: Naming, target: Mode, w: World, listing: seq<File>, m: nat,
                                           script: Script)
    requires Dated(n) && Clean(n, w.files) && Lists(w, listing) && m <= |listing|
    ensures NothingNew(w, Steps(n, target, w, listing, m, script).world)
  {
    if m == 0 {
      forall f ensures Survives(w, w, f) { }
    } else {
      StepsAddNothing(n, target, w, listing, m - 1, script);
      var before := Steps(n, target, w, listing, m - 1, script);
      if before.go {
        StillThere(n, target, w, listing, m - 1, script);
        StepAddsNothing(n, target, w, before.world, listing[m - 1], m - 1, script);
      }
    }
  }

  /** The new files of the second migration are none of the files that the first one has removed. */
  lemma GoneStaysGone(n: Naming, target: Mode, w: World, w': World, listing: seq<File>, m: nat, i: nat, half: bool,
                      g: File)
    requires Dated(n) && Clean(n, w.files) && Lists(w, listing) && m <= |listing| && i < |listing|
    requires Traced(n, target, w, w', m, i, listing[i], half) && NothingNew(w, w')
    requires listing[i] !in w'.files && g in w'.files
    ensures NewFile(n, target, w'.files[g]) != listing[i]
  {
    assert Survives(w', w, g);
    var h :| h in w.files && w.files[h] == w'.files[g];
    if h != listing[i] { NewFilesAreOwn(n, target, w, h, listing[i]); }
  }

  lemma UntouchedByASuccess(n: Naming, target: Mode, w: World, listing: seq<File>, script: Script, f: File)
    requires Dated(n) && Lists(w, listing) && Migration(n, target, w, listing, script).1 == Migrated
    requires f !in w.files && forall g | g in w.files :: NewFile(n, target, w.files[g]) != f
    ensures f in Migration(n, target, w, listing, script).0.index <==> f in w.index
  {
    StepsTrack(n, target, w, listing, |listing|, script);
    assert EntryKept(n, target, w, Migration(n, target, w, listing, script).0, listing, |listing|, f);
    assert Foreign(n, target, w, listing, |listing|, f);
  }

  /**
   A migration to local or encrypted storage that stops, and another one that succeeds: a plaintext file of
   the first scan is still tracked at the end exactly if its removal raised halfway.
   */
  lemma TrackedAfterASecondRun(n: Naming, target: Mode, w: World, listing: seq<File>, script: Script,
                               again: seq<File>, script': Script, i: nat)
    requires Dated(n) && Lists(w, listing) && target != Committed && i < |listing| && !listing[i].encrypted
    requires Migration(n, target, w, listing, script).1 == HalfMigrated
    requires Lists(Migration(n, target, w, listing, script).0, again)
    requires Migration(n, target, Migration(n, target, w, listing, script).0, again, script').1 == Migrated
    ensures var w' := Migration(n, target, w, listing, script).0;
            listing[i] in Migration(n, target, w', again, script').0.index
            <==> HalfRemovedAt(n, target, w, listing, i, script)
  {
    var w' := Migration(n, target, w, listing, script).0;
    StepsTrace(n, target, w, listing, |listing|, script, i);
    if listing[i] in w'.files {
      MigrationKeepsSpecs(n, target, w', again, script');
    } else {
      StepsAddNothing(n, target, w, listing, |listing|, script);
      forall g | g in w'.files ensures NewFile(n, target, w'.files[g]) != listing[i] {
        GoneStaysGone(n, target, w, w', listing, |listing|, i, HalfRemovedAt(n, target, w, listing, i, script), g);
      }
      UntouchedByASuccess(n, target, w', again, script', listing[i]);
    }
  }

  /** So the two runs together leave no plaintext tracked exactly if no removal raised halfway in the first. */
  lemma NoPlaintextAfterASecondRun(n: Naming, target: Mode, w: World, listing: seq<File>, script: Script,
                                   again: seq<File>, script': Script)
    requires Dated(n) && Lists(w, listing) && target != Committed
    requires Migration(n, target, w, listing, script).1 == HalfMigrated
    requires Lists(Migration(n, target, w, listing, script).0, again)
    requires Migration(n, target, Migration(n, target, w, listing, script).0, again, script').1 == Migrated
    ensures var w' := Migration(n, target, w, listing, script).0;
            NoPlaintextTracked(w, Migration(n, target, w', again, script').0)
            <==> forall i | 0 <= i < |listing| :: !HalfRemovedAt(n, target, w, listing, i, script)
  {
    var w' := Migration(n, target, w, listing, script).0;
    MigrationKeepsSpecs(n, target, w', again, script');
    forall i | 0 <= i < |listing| && !listing[i].encrypted
      ensures listing[i] in Migration(n, target, w', again, script').0.index
              <==> HalfRemovedAt(n, target, w, listing, i, script)
    {
      TrackedAfterASecondRun(n, target, w, listing, script, again, script', i);
    }
  }

  // ---------------------------------------------------------------- two inputs

  /** Files are named after the ids of their specs. */
  const BY_ID := Naming((s: Spec) => s.id, (stem: string) => Some(stem))
  const DRAFT := Spec("a", "2025-01-01", "text")
  const PLAIN := File("a", false)
  const SEALED := File("a", true)
  const ONE_PLAIN := World(map[PLAIN := DRAFT], {}, {PLAIN}, false)

  function OnlyRemoval(turn: Turn): Script {
    (k: nat, c: Call) => if c == RemoveOld then turn else Works
  }

  lemma OneFile()
    ensures Dated(BY_ID) && Lists(ONE_PLAIN, [PLAIN]) && Clean(BY_ID, ONE_PLAIN.files)
    ensures forall script :: Steps(BY_ID, Encrypted, ONE_PLAIN, [PLAIN], 0, script) == Step(ONE_PLAIN, true)
    ensures forall script :: Steps(BY_ID, Encrypted, ONE_PLAIN, [PLAIN], 1, script)
                          == SpecStep(BY_ID, Encrypted, ONE_PLAIN, PLAIN, DRAFT, 0, script)
  {
  }

  /** A removal that fails leaves both files, and every further migration is refused. */
  lemma FailedRemovalIsRefused() returns (script: Script)
    ensures var (w', exit) := Migration(BY_ID, Encrypted, ONE_PLAIN, [PLAIN], script);
            && exit == HalfMigrated && PLAIN in w'.files && SEALED in w'.files
            && LeavesBothSomewhere(BY_ID, Encrypted, ONE_PLAIN, [PLAIN], 1, script)
            && forall again: seq<File>, script': Script | Lists(w', again) ::
                 Migration(BY_ID, Encrypted, w', again, script') == (w', Refused)
  {
    script := OnlyRemoval(Raises(false));
    OneFile();
    BothStay(BY_ID, Encrypted, ONE_PLAIN, PLAIN, DRAFT, 0, script);
    var w' := Migration(BY_ID, Encrypted, ONE_PLAIN, [PLAIN], script).0;
    assert LeavesBothAt(BY_ID, Encrypted, ONE_PLAIN, [PLAIN], 0, script);
    forall again: seq<File>, script': Script | Lists(w', again)
      ensures Migration(BY_ID, Encrypted, w', again, script') == (w', Refused)
    {
      StoppedMigrationsRunAgain(BY_ID, Encrypted, ONE_PLAIN, [PLAIN], script, again, script');
    }
  }

  /** A removal that fails halfway: the next migration succeeds, and the index still has the plaintext. */
  lemma HalfRemovalStaysTracked() returns (script: Script)
    ensures var (w', exit) := Migration(BY_ID, Encrypted, ONE_PLAIN, [PLAIN], script);
            && exit == HalfMigrated && w'.files == map[SEALED := DRAFT]
            && forall again: seq<File>, script': Script | Lists(w', again) && (forall k, c :: script'(k, c).Works?) ::
                 && Migration(BY_ID, Encrypted, w', again, script').1 == Migrated
                 && PLAIN in Migration(BY_ID, Encrypted, w', again, script').0.index
  {
    script := OnlyRemoval(RaisesHalfway);
    OneFile();
    var w' := Migration(BY_ID, Encrypted, ONE_PLAIN, [PLAIN], script).0;
    assert HalfRemovedAt(BY_ID, Encrypted, ONE_PLAIN, [PLAIN], 0, script);
    assert !LeavesBothAt(BY_ID, Encrypted, ONE_PLAIN, [PLAIN], 0, script);
    assert w'.files == map[SEALED := DRAFT];
    forall again: seq<File>, script': Script | Lists(w', again) && (forall k, c :: script'(k, c).Works?)
      ensures Migration(BY_ID, Encrypted, w', again, script').1 == Migrated
      ensures PLAIN in Migration(BY_ID, Encrypted, w', again, script').0.index
    {
      StoppedMigrationsRunAgain(BY_ID, Encrypted, ONE_PLAIN, [PLAIN], script, again, script');
      TrackedAfterASecondRun(BY_ID, Encrypted, ONE_PLAIN, [PLAIN], script, again, script', 0);
    }
  }
}
