/** Whether conflict markers reach the hub on their own: what a conflicted
    `docs merge` left in a file, and no person has touched since. */
module DocMarkers {
  import opened Options
  import opened TextLines
  import opened Merge3
  import opened MergeProgram
  import opened DocProtocol
  import opened DocSync
  import opened DocSafety

  /** The machine takes only the steps of a sync; the others do anything. */
  ghost predicate Automatic(id: Id, run: Run) {
    forall s :: s in run && s.0 == id ==> s.1.Publish? || s.1.Reconcile?
  }

  /** A reconcile replaces the file by the hub's text. */
  predicate Replaces(log: Log, l: Local, a: Act) {
    a.Reconcile? && LocalUnchanged(l) && LiveAt(log, a.seen) && a.seen > l.side.rev
  }

  /** Throughout the run the file is as the merge left it, or merged with more. */
  ghost predicate StillRaw(w: World, id: Id, run: Run)
    requires id in w.at
    decreases |run|
  {
    run != [] && Possible(w, run[0].0, run[0].1) ==>
      && !(run[0].0 == id && Replaces(w.log, w.at[id], run[0].1))
      && StillRaw(Step(w, run[0].0, run[0].1), id, run[1..])
  }

  /** After this run the next automatic publish puts the file, markers and all,
      on the hub. */
  ghost predicate Sends(w: World, id: Id, run: Run, w': World)
    requires id in w.at
  {
    && Automatic(id, run) && Reaches(w, run, w') && StillRaw(w, id, run) && id in w'.at && id in w'.past && w'.at[id].file.Some?
    && Step(w', id, Publish(true, Answered)).log == w'.log + [Live(w'.at[id].file.value)]
  }

  ghost predicate Released(w: World, id: Id)
    requires id in w.at
  {
    exists run: Run, w': World :: Sends(w, id, run, w')
  }

  // ---- markers that stay ----

  /** The machine's file is silent: it is the recorded one, or too long to merge
      and behind the hub. */
  ghost predicate Silent(log: Log, l: Local) {
    LocalUnchanged(l) || (l.file.Some? && !Fits(l.file.value) && l.side.rev < |log|)
  }

  lemma TooLongIsRefused(base: Text, local: Text, hub: Text, m: Markers<string>)
    requires !Fits(local)
    ensures MergeTextSpec(base, local, hub, m).TextTooLarge?
  {
  }

  lemma SilentStep(w: World, id: Id, s: (Id, Act))
    requires id in w.at && Silent(w.log, w.at[id]) && Possible(w, s.0, s.1)
    requires s.0 == id ==> (s.1.Publish? || s.1.Reconcile?) && !Replaces(w.log, w.at[id], s.1)
    ensures var w' := Step(w, s.0, s.1); id in w'.at && Silent(w'.log, w'.at[id]) && |w'.log| >= |w.log|
  {
    if s.0 == id && s.1.Reconcile? { SilentReconcile(w.log, w.at[id], s.1); }
  }

  lemma SilentReconcile(log: Log, l: Local, a: Act)
    requires Silent(log, l) && a.Reconcile? && !Replaces(log, l, a)
    ensures ReconcileDoc(log, l, a.seen, a.retained, a.m, a.saved) == l
  {
    if l.file.Some? && LiveAt(log, a.seen) && !LocalUnchanged(l) {
      TooLongIsRefused(SyncedText(log, l.side.rev, a.retained), l.file.value, log[a.seen - 1].body, a.m);
    }
  }

  lemma {:induction false} SilentRun(w: World, id: Id, run: Run, w': World)
    requires id in w.at && Silent(w.log, w.at[id]) && Automatic(id, run) && Reaches(w, run, w') && StillRaw(w, id, run)
    ensures id in w'.at && Silent(w'.log, w'.at[id])
    decreases |run|
  {
    if run != [] {
      assert run[0] in run;
      SilentStep(w, id, run[0]);
      assert forall s :: s in run[1..] ==> s in run;
      SilentRun(Step(w, run[0].0, run[0].1), id, run[1..], w');
    }
  }

  lemma SilentIsNotReleased(w: World, id: Id)
    requires id in w.at && Silent(w.log, w.at[id])
    ensures !Released(w, id)
  {
    forall run: Run, w': World ensures !Sends(w, id, run, w') {
      if Sends(w, id, run, w') {
        SilentRun(w, id, run, w');
        assert false;
      }
    }
  }

  /** The promise, kept: recorded with its file, a conflicted merge's text is
      never published before someone has edited or pushed it. */
  lemma SavedMarkersStay(w: World, id: Id, a: Act)
    requires Possible(w, id, a) && a.Merge? && LeavesMarkers(w.log, w.at[id], a.seen, a.retained, a.m) && a.saved
    ensures !Released(Step(w, id, a), id)
  {
    MarkedFileIs(w, id, a);
    SilentIsNotReleased(Step(w, id, a), id);
  }

  /** What a conflicted merge leaves. */
  ghost predicate IsMarked(l: Local, l': Local, seen: nat, text: Text, saved: bool) {
    && l' == Written(l, text, seen, text, saved).(preview := false)
    && l.side.rev < seen && Terminated(text) && text != ""
  }

  lemma MarkedFileIs(w: World, id: Id, a: Act)
    requires Possible(w, id, a) && a.Merge? && LeavesMarkers(w.log, w.at[id], a.seen, a.retained, a.m)
    ensures var w' := Step(w, id, a);
            && w'.log == w.log && w'.at == w.at[id := w'.at[id]]
            && IsMarked(w.at[id], w'.at[id], a.seen, MergeOf(w.log, w.at[id], a.seen, a.retained, a.m).text, a.saved)
  {
    MarkedMerge(w.log, w.at[id], a.seen, a.retained, a.m, a.saved);
  }

  lemma MarkedMerge(log: Log, l: Local, seen: nat, retained: bool, m: Markers<string>, saved: bool)
    requires LeavesMarkers(log, l, seen, retained, m) && l.side.rev <= seen
    ensures IsMarked(l, MergeDoc(log, l, seen, retained, m, saved), seen, MergeOf(log, l, seen, retained, m).text, saved)
  {
    ConflictTextShows(SyncedText(log, l.side.rev, retained), l.file.value, log[seen - 1].body, m);
    MarkedMergeWith(log, l, seen, MergeOf(log, l, seen, retained, m), saved);
  }

  lemma MarkedMergeWith(log: Log, l: Local, seen: nat, merge: TextOutcome, saved: bool)
    requires Merges(log, l, seen) && l.side.rev <= seen && merge.MergedInto? && merge.conflicts > 0
    requires Terminated(merge.text) && merge.text != ""
    ensures IsMarked(l, MergeWith(log, l, seen, merge, saved), seen, merge.text, saved)
  {
  }

  lemma {:induction false} ConflictShows(cs: seq<Chunk<string>>, m: Markers<string>)
    requires ConflictCount(cs) > 0
    ensures Flatten(cs, MergedText(m)) != []
    decreases |cs|
  {
    if !cs[0].kind.Conflict? { ConflictShows(cs[1..], m); }
  }

  lemma ConflictTextShows(base: Text, local: Text, hub: Text, m: Markers<string>)
    requires var r := MergeTextSpec(base, local, hub, m); r.MergedInto? && r.conflicts > 0
    ensures var text := MergeTextSpec(base, local, hub, m).text; Terminated(text) && text != ""
  {
    ConflictShows(MergeChunks(SplitLines(base), SplitLines(local), SplitLines(hub)), m);
  }

  // ---- markers that are released ----

  lemma Take(w0: World, run: Run, w: World, id: Id, a: Act) returns (run': Run, w': World)
    requires Reaches(w0, run, w) && Possible(w, id, a)
    ensures Reaches(w0, run', w') && w' == Step(w, id, a) && run' == run + [(id, a)]
  {
    RunExtends(w0, run, w, id, a);
    run', w' := run + [(id, a)], Step(w, id, a);
  }

  /** Another machine brings itself up to date and pushes a text. */
  lemma OtherPushes(w: World, other: Id, text: Text) returns (run: Run, w': World)
    requires Consistent(w) && other in w.at && LiveAt(w.log, |w.log|)
    ensures Reaches(w, run, w') && Consistent(w') && forall s :: s in run ==> s.0 == other
    ensures w'.log == w.log + [Live(text)] && w'.log[|w.log|] == Live(text) && w'.at.Keys == w.at.Keys
    ensures forall i :: i in w.at && i != other ==> w'.at[i] == w.at[i]
  {
    var w1;
    run, w1 := OtherCatchesUp(w, other);
    run, w' := Take(w, run, w1, other, Edit(Some(text)));
    run, w' := Take(w, run, w', other, Push(Answered));
    RunIsConsistent(w, run, w');
  }

  lemma OtherCatchesUp(w: World, other: Id) returns (run: Run, w': World)
    requires Consistent(w) && other in w.at && LiveAt(w.log, |w.log|)
    ensures Reaches(w, run, w') && forall s :: s in run ==> s.0 == other
    ensures other in w'.at && other in w'.past && w'.log == w.log && w'.at == w.at[other := w'.at[other]] && w'.at[other].side.rev == |w.log|
  {
    assert Honest(w.log, w.at[other], w.past[other]);
    assert Reaches(w, [], w);
    run, w' := Take(w, [], w, other, Edit(None));
    run, w' := Take(w, run, w', other, Pull(|w.log|, true));
  }

  /** A machine that does nothing keeps its raw file. */
  lemma {:induction false} RawMeanwhile(w: World, id: Id, run: Run, w': World, s: (Id, Act))
    requires id in w.at && Reaches(w, run, w') && (forall t :: t in run ==> t.0 != id)
    requires s.0 == id && id in w'.at && !Replaces(w'.log, w'.at[id], s.1)
    ensures StillRaw(w, id, run + [s])
    decreases |run|
  {
    var longer := run + [s];
    if run == [] {
      assert longer[1..] == [];
    } else {
      assert longer[1..] == run[1..] + [s] && longer[0] == run[0] && run[0] in run;
      assert forall t :: t in run[1..] ==> t in run;
      RawMeanwhile(Step(w, run[0].0, run[0].1), id, run[1..], w', s);
    }
  }

  /** The text of a hub revision is emptied and the synced base no longer kept:
      merging leaves the local text as it is. */
  lemma EmptiedMergesClean(log: Log, l: Local, m: Markers<string>)
    requires log != [] && log[|log| - 1] == Live("") && l.file.Some? && Fits(l.file.value) && Terminated(l.file.value)
    ensures LiveAt(log, |log|) && MergeOf(log, l, |log|, false, m) == MergedInto(l.file.value, 0)
  {
    MergeTextUnedited("", l.file.value, m);
  }

  /** Not recorded, the file is merged clean with such a revision, and the next
      publish of the same sync sends it. */
  lemma UnrecordedIsReleased(w: World, id: Id, other: Id, m: Markers<string>)
    requires Consistent(w) && id in w.at && other in w.at && other != id && LiveAt(w.log, |w.log|)
    requires var l := w.at[id];
             l.file.Some? && l.file.value != "" && !LocalUnchanged(l) && Fits(l.file.value) && Terminated(l.file.value)
    ensures Released(w, id)
  {
    assert Honest(w.log, w.at[id], w.past[id]);
    var run, w1 := OtherPushes(w, other, "");
    var run', w2 := ReconcilesClean(w, run, w1, id, m);
    PublishSends(w2, id);
    assert Sends(w, id, run', w2);
  }

  lemma PublishSends(w: World, id: Id)
    requires id in w.at && id in w.past && w.at[id].file.Some? && !LocalUnchanged(w.at[id]) && w.at[id].side.rev == |w.log|
    ensures Step(w, id, Publish(true, Answered)).log == w.log + [Live(w.at[id].file.value)]
  {
  }

  lemma ReconcilesClean(w: World, run: Run, w1: World, id: Id, m: Markers<string>) returns (run': Run, w2: World)
    requires Reaches(w, run, w1) && id in w.at && id in w1.at && id in w1.past && (forall s :: s in run ==> s.0 != id)
    requires w1.log != [] && w1.log[|w1.log| - 1] == Live("")
    requires var l := w1.at[id];
             && l.file.Some? && Fits(l.file.value) && Terminated(l.file.value)
             && !LocalUnchanged(l) && l.side.rev < |w1.log|
    ensures Reaches(w, run', w2) && StillRaw(w, id, run') && Automatic(id, run') && w2.log == w1.log && id in w2.at && id in w2.past
    ensures w2.at[id] == Written(w1.at[id], w1.at[id].file.value, |w1.log|, "", true)
  {
    var a := Reconcile(|w1.log|, false, m, true);
    EmptiedReconciles(w1.log, w1.at[id], m);
    RawMeanwhile(w, id, run, w1, (id, a));
    run', w2 := Take(w, run, w1, id, a);
  }

  lemma EmptiedReconciles(log: Log, l: Local, m: Markers<string>)
    requires log != [] && log[|log| - 1] == Live("") && l.file.Some? && Fits(l.file.value) && Terminated(l.file.value)
    requires !LocalUnchanged(l) && l.side.rev < |log|
    ensures LiveAt(log, |log|) && ReconcileDoc(log, l, |log|, false, m, true) == Written(l, l.file.value, |log|, "", true)
  {
    EmptiedMergesClean(log, l, m);
    assert ReconcileDoc(log, l, |log|, false, m, true) == ReconcileWith(log, l, |log|, MergedInto(l.file.value, 0), true);
  }

  /** Exactly when the markers get out by themselves: the sidecar does not record
      the marked file, as after a stop before the sidecar was written, and the
      file can still be merged. */
  lemma MarkersReleasedExactly(w: World, id: Id, other: Id, a: Act)
    requires Reachable(w) && Possible(w, id, a) && other in w.at && other != id && LiveAt(w.log, |w.log|)
    requires a.Merge? && LeavesMarkers(w.log, w.at[id], a.seen, a.retained, a.m)
    ensures var w' := Step(w, id, a);
            Released(w', id) <==> !LocalUnchanged(w'.at[id]) && Fits(w'.at[id].file.value)
  {
    var w' := Step(w, id, a);
    ReachableIsConsistent(w);
    StepKeepsConsistent(w, id, a);
    MarkedFileIs(w, id, a);
    if !LocalUnchanged(w'.at[id]) && Fits(w'.at[id].file.value) {
      UnrecordedIsReleased(w', id, other, a.m);
    } else {
      SilentIsNotReleased(w', id);
    }
  }

  /** And a second `docs merge`, before the markers are resolved, may come out
      clean: the recorded hash is then the hub's, and the next publish sends
      them. */
  lemma SecondMergeReleases(w: World, id: Id, other: Id, a: Act, m: Markers<string>) returns (run: Run, w': World)
    requires Reachable(w) && Possible(w, id, a) && other in w.at && other != id && LiveAt(w.log, |w.log|)
    requires a.Merge? && LeavesMarkers(w.log, w.at[id], a.seen, a.retained, a.m)
    requires Fits(MergeOf(w.log, w.at[id], a.seen, a.retained, a.m).text)
    ensures Reaches(Step(w, id, a), run, w') && forall s :: s in run && s.0 == id ==> s.1.Merge? || s.1.Publish?
    ensures w'.log != [] && w'.log[|w'.log| - 1] == Live(MergeOf(w.log, w.at[id], a.seen, a.retained, a.m).text)
  {
    ReachableIsConsistent(w);
    StepKeepsConsistent(w, id, a);
    MarkedFileIs(w, id, a);
    var l := w.at[id];
    assert Honest(w.log, l, w.past[id]);
    run, w' := MergesAgainAndSends(Step(w, id, a), id, other, MergeOf(w.log, l, a.seen, a.retained, a.m).text, m);
  }

  lemma MergesAgainAndSends(w: World, id: Id, other: Id, text: Text, m: Markers<string>) returns (run: Run, w': World)
    requires Consistent(w) && id in w.at && other in w.at && other != id && LiveAt(w.log, |w.log|)
    requires w.at[id].file == Some(text) && text != "" && Fits(text) && Terminated(text)
    ensures Reaches(w, run, w') && forall s :: s in run && s.0 == id ==> s.1.Merge? || s.1.Publish?
    ensures w'.log != [] && w'.log[|w'.log| - 1] == Live(text)
  {
    var w1, w2, run1;
    assert Honest(w.log, w.at[id], w.past[id]);
    run1, w1 := OtherPushes(w, other, "");
    run1, w2 := RemergesClean(w, run1, w1, id, text, m);
    PublishSends(w2, id);
    run, w' := Take(w, run1, w2, id, Publish(true, Answered));
  }

  lemma RemergesClean(w0: World, run: Run, w1: World, id: Id, text: Text, m: Markers<string>) returns (run': Run, w2: World)
    requires Reaches(w0, run, w1) && Consistent(w1) && id in w1.at && w1.log != [] && w1.log[|w1.log| - 1] == Live("")
    requires w1.at[id].file == Some(text) && text != "" && Fits(text) && Terminated(text) && w1.at[id].side.rev < |w1.log|
    requires forall s :: s in run ==> s.0 != id
    ensures Reaches(w0, run', w2) && forall s :: s in run' && s.0 == id ==> s.1.Merge?
    ensures id in w2.at && id in w2.past && w2.at[id].file == Some(text) && w2.at[id].side == Sidecar(|w2.log|, Some(""))
  {
    var l, n := w1.at[id], |w1.log|;
    EmptiedMergesClean(w1.log, l, m);
    assert MergeDoc(w1.log, l, n, false, m, true) == MergeWith(w1.log, l, n, MergedInto(text, 0), true);
    run', w2 := Take(w0, run, w1, id, Merge(n, false, m, true));
  }
}
