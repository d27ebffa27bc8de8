/** What holds over every run of the shared-document protocol: no update is
    lost on the hub, and no machine's text is lost before the hub had it,
    except in the one family of states where it is. */
module DocSafety {
  import opened Options
  import opened TextLines
  import opened Merge3
  import opened MergeProgram
  import opened DocProtocol
  import opened DocSync

  /** w is reached by some run from an initial world. */
  ghost predicate Reachable(w: World) {
    exists w0: World, run: Run :: Initial(w0) && Reaches(w0, run, w)
  }

  lemma {:induction false} RunExtends(w0: World, run: Run, w: World, id: Id, a: Act)
    requires Reaches(w0, run, w) && Possible(w, id, a)
    ensures Reaches(w0, run + [(id, a)], Step(w, id, a))
    decreases |run|
  {
    var longer := run + [(id, a)];
    if run == [] {
      assert longer[1..] == [];
    } else {
      assert longer[1..] == run[1..] + [(id, a)];
      RunExtends(Step(w0, run[0].0, run[0].1), run[1..], w, id, a);
    }
  }

  lemma StepIsReachable(w: World, id: Id, a: Act)
    requires Reachable(w) && Possible(w, id, a)
    ensures Reachable(Step(w, id, a))
  {
    var w0: World, run: Run :| Initial(w0) && Reaches(w0, run, w);
    RunExtends(w0, run, w, id, a);
  }

  lemma ReachableIsConsistent(w: World)
    requires Reachable(w)
    ensures Consistent(w)
  {
    var w0: World, run: Run :| Initial(w0) && Reaches(w0, run, w);
    RunIsConsistent(w0, run, w);
  }

  /** No lost update: a publish or push that the hub accepts extends the log by
      the machine's file, and that file had incorporated the revision it
      replaces. Every other act but retiring leaves the log alone. */
  lemma AcceptedTextHasIncorporatedHead(w: World, id: Id, a: Act)
    requires Reachable(w) && Possible(w, id, a)
    ensures var w' := Step(w, id, a);
            if a.Retire? then w'.log == w.log + [Tombstone]
            else if w'.log == w.log then true
            else
              && (a.Publish? || a.Push?) && w.at[id].file.Some?
              && w'.log == w.log + [Live(w.at[id].file.value)]
              && w.at[id].side.rev == w.past[id].incorporated == |w.log|
              && w'.past[id].incorporated == |w'.log|
  {
    ReachableIsConsistent(w);
    assert Honest(w.log, w.at[id], w.past[id]);
  }

  /** The hub has had this text. */
  predicate HubHas(log: Log, t: Text) { Live(t) in log }

  /** The text of a file before an act is still in the file, was a hub
      revision, or went into the merge that the act ran and whose answer is now
      in the file. */
  ghost predicate NothingLost(log: Log, l: Local, after: Option<Text>, a: Act) {
    l.file.Some? ==>
      || after == l.file
      || HubHas(log, l.file.value)
      || (a.Reconcile? && LiveAt(log, a.seen) && !LocalUnchanged(l)
          && after.Some? && MergeOf(log, l, a.seen, a.retained, a.m) == MergedInto(after.value, 0))
      || (a.Merge? && LiveAt(log, a.seen)
          && MergeOf(log, l, a.seen, a.retained, a.m).MergedInto?
          && after == Some(MergeOf(log, l, a.seen, a.retained, a.m).text))
  }

  /** This step discards text the hub never had. */
  ghost predicate Loses(w: World, id: Id, a: Act)
    requires Possible(w, id, a)
  {
    !NothingLost(w.log, w.at[id], Step(w, id, a).at[id].file, a)
  }

  /** No automatic or unforced command discards text the hub never received,
      unless the machine's sidecar comes from a conflicted `docs merge`. */
  lemma NoTextLost(w: World, id: Id, a: Act)
    requires Reachable(w) && Possible(w, id, a) && !a.Edit? && !w.past[id].marked
    ensures !Loses(w, id, a)
  {
    ReachableIsConsistent(w);
    var l := w.at[id];
    assert Honest(w.log, l, w.past[id]);
    match a
    case Reconcile(seen, retained, m, saved) => ReconcileLosesNothing(w.log, l, w.past[id], seen, retained, m, saved);
    case Merge(seen, retained, m, saved) => MergeLosesNothing(w.log, l, seen, retained, m, saved);
    case _ =>
  }

  lemma UnchangedFileIsARevision(log: Log, l: Local, h: History)
    requires Honest(log, l, h) && !h.marked && LocalUnchanged(l)
    ensures HubHas(log, l.file.value)
  {
    assert log[l.side.rev - 1] == Live(l.file.value);
  }

  lemma ReconcileLosesNothing(
    log: Log, l: Local, h: History, seen: nat, retained: bool, m: Markers<string>, saved: bool)
    requires Honest(log, l, h) && !h.marked
    ensures NothingLost(log, l, ReconcileDoc(log, l, seen, retained, m, saved).file, Reconcile(seen, retained, m, saved))
  {
    if l.file.Some? && LiveAt(log, seen) {
      if LocalUnchanged(l) { UnchangedFileIsARevision(log, l, h); }
      var merge := MergeOf(log, l, seen, retained, m);
      assert ReconcileDoc(log, l, seen, retained, m, saved) == ReconcileWith(log, l, seen, merge, saved);
    }
  }

  lemma MergeLosesNothing(log: Log, l: Local, seen: nat, retained: bool, m: Markers<string>, saved: bool)
    ensures NothingLost(log, l, MergeDoc(log, l, seen, retained, m, saved).file, Merge(seen, retained, m, saved))
  {
    if l.file.Some? && LiveAt(log, seen) {
      var merge := MergeOf(log, l, seen, retained, m);
      assert MergeDoc(log, l, seen, retained, m, saved) == MergeWith(log, l, seen, merge, saved);
    }
  }

  /** Lines of a chunk that one version changed are emitted as that version has
      them, alone or in a conflict block. */
  ghost predicate Emits(c: Chunk<string>, mine: seq<string>, m: Markers<string>) {
    || Lines(c, MergedText(m)) == mine
    || Lines(c, MergedText(m)) == [m.open] + c.local + [m.mid] + c.hub + [m.close]
  }

  /** The merge of a file with the hub's text keeps each of their edits: base,
      file, hub text and answer split into corresponding chunks, and a chunk that
      one of the two changed from the base is emitted as it has it. */
  ghost predicate KeepsEditsOf(base: Text, local: Text, hub: Text, text: Text, conflicts: nat, m: Markers<string>) {
    exists cs: seq<Chunk<string>> ::
      && Flatten(cs, BaseText) == SplitLines(base)
      && Flatten(cs, LocalText) == SplitLines(local)
      && Flatten(cs, HubText) == SplitLines(hub)
      && (forall c :: c in cs ==> c.Sound())
      && (forall c :: c in cs && c.local != c.base ==> Emits(c, c.local, m))
      && (forall c :: c in cs && c.hub != c.base ==> Emits(c, c.hub, m))
      && text == JoinLines(Flatten(cs, MergedText(m)))
      && conflicts == ConflictCount(cs)
  }

  lemma ChunkEmits(c: Chunk<string>, m: Markers<string>)
    requires c.Sound()
    ensures (c.local != c.base ==> Emits(c, c.local, m)) && (c.hub != c.base ==> Emits(c, c.hub, m))
  {
  }

  lemma MergeKeepsEdits(base: Text, local: Text, hub: Text, m: Markers<string>)
    ensures var r := MergeTextSpec(base, local, hub, m);
            r.MergedInto? ==> KeepsEditsOf(base, local, hub, r.text, r.conflicts, m)
  {
    MergeStructure(SplitLines(base), SplitLines(local), SplitLines(hub));
    var cs := MergeChunks(SplitLines(base), SplitLines(local), SplitLines(hub));
    forall c | c in cs
      ensures (c.local != c.base ==> Emits(c, c.local, m)) && (c.hub != c.base ==> Emits(c, c.hub, m))
    {
      ChunkEmits(c, m);
    }
  }

  lemma MergedTextKeepsEdits(log: Log, l: Local, seen: nat, retained: bool, m: Markers<string>)
    requires l.file.Some? && LiveAt(log, seen) && MergeOf(log, l, seen, retained, m).MergedInto?
    ensures var r := MergeOf(log, l, seen, retained, m);
            KeepsEditsOf(SyncedText(log, l.side.rev, retained), l.file.value, log[seen - 1].body, r.text, r.conflicts, m)
  {
    MergeKeepsEdits(SyncedText(log, l.side.rev, retained), l.file.value, log[seen - 1].body, m);
  }

  // ---- what the merges work from ----

  /** The merge answers for the three texts it should be given: it keeps the edits
      of the file and of the hub's revision since the base. */
  ghost predicate AnswersFor(base: Text, log: Log, l: Local, seen: nat, r: TextOutcome, m: Markers<string>)
    requires l.file.Some? && LiveAt(log, seen)
  {
    r.MergedInto? ==> KeepsEditsOf(base, l.file.value, log[seen - 1].body, r.text, r.conflicts, m)
  }

  /** The text this machine last pushed or pulled, as its sidecar recorded it,
      when the hub still has that revision; else nothing. */
  function Recorded(l: Local, retained: bool): Text { if retained then l.side.hash.UnwrapOr("") else "" }

  /** That is the text a merge works from. */
  lemma MergeWorksFromRecorded(w: World, id: Id, seen: nat, retained: bool, m: Markers<string>)
    requires Reachable(w) && id in w.at && id in w.past && !w.past[id].marked && w.at[id].file.Some? && LiveAt(w.log, seen)
    ensures AnswersFor(Recorded(w.at[id], retained), w.log, w.at[id], seen, MergeOf(w.log, w.at[id], seen, retained, m), m)
  {
    ReachableIsConsistent(w);
    var l := w.at[id];
    RecordedIsSynced(w.log, l, w.past[id], retained);
    if MergeOf(w.log, l, seen, retained, m).MergedInto? { MergedTextKeepsEdits(w.log, l, seen, retained, m); }
  }

  lemma RecordedIsSynced(log: Log, l: Local, h: History, retained: bool)
    requires Honest(log, l, h) && !h.marked
    ensures SyncedText(log, l.side.rev, retained) == Recorded(l, retained)
  {
  }

  /** What a reconcile leaves of a diverged file, and what it records: the clean
      merge and the hub's text; or file and sidecar as they were, and a preview
      unless a text has more than 4000 lines. */
  lemma DivergedReconcileExactly(w: World, id: Id, a: Act)
    requires Reachable(w) && Possible(w, id, a) && a.Reconcile? && a.saved && !w.past[id].marked
    requires w.at[id].file.Some? && !LocalUnchanged(w.at[id]) && LiveAt(w.log, a.seen) && a.seen > w.at[id].side.rev
    ensures var l, l', hub := w.at[id], Step(w, id, a).at[id], w.log[a.seen - 1].body;
            if l'.side == l.side then
              || l' == l.(preview := true)
              || (l' == l && (|SplitLines(Recorded(l, a.retained))| > 4000 || |SplitLines(l.file.value)| > 4000 || |SplitLines(hub)| > 4000))
            else
              && l'.side == Sidecar(a.seen, Some(hub)) && l'.file.Some? && l'.preview == l.preview
              && KeepsEditsOf(Recorded(l, a.retained), l.file.value, hub, l'.file.value, 0, a.m)
  {
    var l := w.at[id];
    MergeWorksFromRecorded(w, id, a.seen, a.retained, a.m);
    ReachableIsConsistent(w);
    RecordedIsSynced(w.log, l, w.past[id], a.retained);
    RefusedExactly(Recorded(l, a.retained), l.file.value, w.log[a.seen - 1].body, a.m);
    assert Step(w, id, a).at[id] == ReconcileWith(w.log, l, a.seen, MergeOf(w.log, l, a.seen, a.retained, a.m), true);
  }

  /** What a `docs merge` leaves: the merged file, with its markers if there were
      conflicts, recorded with the hub's text or with its own. */
  lemma DivergedMergeExactly(w: World, id: Id, a: Act)
    requires Reachable(w) && Possible(w, id, a) && a.Merge? && a.saved && !w.past[id].marked
    requires w.at[id].file.Some? && LiveAt(w.log, a.seen) && w.at[id].file.value != w.log[a.seen - 1].body
    requires a.seen != w.at[id].side.rev
    ensures var l, l', hub := w.at[id], Step(w, id, a).at[id], w.log[a.seen - 1].body;
            l' == l || exists conflicts: nat ::
              && l'.file.Some? && !l'.preview
              && KeepsEditsOf(Recorded(l, a.retained), l.file.value, hub, l'.file.value, conflicts, a.m)
              && l'.side == Sidecar(a.seen, Some(if conflicts == 0 then hub else l'.file.value))
  {
    var l := w.at[id];
    MergeWorksFromRecorded(w, id, a.seen, a.retained, a.m);
    var r := MergeOf(w.log, l, a.seen, a.retained, a.m);
    assert Step(w, id, a).at[id] == MergeWith(w.log, l, a.seen, r, true);
    if r.MergedInto? {
      assert KeepsEditsOf(Recorded(l, a.retained), l.file.value, w.log[a.seen - 1].body, r.text, r.conflicts, a.m);
    }
  }

  // ---- the other commands, in so many words ----

  /** An unchanged file is brought to a newer live revision; nothing else is done
      with a revision that is not newer, a tombstone, or no file. */
  lemma FastForwardExactly(log: Log, l: Local, seen: nat, retained: bool, m: Markers<string>)
    requires l.file.None? || l.side.hash == l.file || seen <= l.side.rev || !(1 <= seen <= |log| && log[seen - 1].Live?)
    ensures ReconcileDoc(log, l, seen, retained, m, true) ==
            if l.file.Some? && seen > l.side.rev && 1 <= seen <= |log| && log[seen - 1].Live?
            then Local(Some(log[seen - 1].body), Sidecar(seen, Some(log[seen - 1].body)), l.preview) else l
  {
    if l.file.Some? && LiveAt(log, seen) {
      assert ReconcileDoc(log, l, seen, retained, m, true) == ReconcileWith(log, l, seen, MergeOf(log, l, seen, retained, m), true);
    }
  }

  /** An automatic publish sends a file that passes the checks and is not the
      recorded one; a push sends any. The hub takes it when it is based on the
      current revision, and the machine records that when it hears so. */
  lemma SendsExactly(log: Log, l: Local, allowed: bool, reply: Reply)
    ensures var sent := l.file.Some? && allowed && l.side.hash != l.file && reply != NotReceived && l.side.rev == |log|;
            PublishDoc(log, l, allowed, reply) ==
            if !sent then (log, l)
            else (log + [Live(l.file.value)], if reply == Answered then Local(l.file, Sidecar(|log| + 1, l.file), l.preview) else l)
    ensures var sent := l.file.Some? && reply != NotReceived && l.side.rev == |log|;
            PushDoc(log, l, reply) ==
            if !sent then (log, l)
            else (log + [Live(l.file.value)], if reply == Answered then Local(l.file, Sidecar(|log| + 1, l.file), l.preview) else l)
  {
  }

  /** A pull takes a live revision over a missing file, the recorded one, or one
      that reads the same; it refuses over anything else. */
  lemma PullsExactly(log: Log, l: Local, seen: nat, saved: bool)
    ensures PullDoc(log, l, seen, saved) ==
            if 1 <= seen <= |log| && log[seen - 1].Live?
               && (l.file.None? || l.side.hash == l.file || l.file == Some(log[seen - 1].body))
            then Local(Some(log[seen - 1].body), if saved then Sidecar(seen, Some(log[seen - 1].body)) else l.side, l.preview)
            else l
  {
  }

  /** A merge of a file that already reads as the hub only records that; one that
      has seen the hub's revision, or has nothing to merge, does nothing. */
  lemma NothingToMergeExactly(log: Log, l: Local, seen: nat, retained: bool, m: Markers<string>)
    requires 1 <= seen <= |log| && log[seen - 1].Live? ==>
               l.file.None? || l.file.value == log[seen - 1].body || l.side.rev == seen
    ensures MergeDoc(log, l, seen, retained, m, true) ==
            if l.file.Some? && 1 <= seen <= |log| && log[seen - 1].Live? && l.file.value == log[seen - 1].body
            then l.(side := Sidecar(seen, l.file)) else l
  {
    if l.file.Some? && LiveAt(log, seen) {
      assert MergeDoc(log, l, seen, retained, m, true) == MergeWith(log, l, seen, MergeOf(log, l, seen, retained, m), true);
    }
  }

  // ---- the hole: a conflicted merge left unresolved ----

  /** Exactly when a command loses text: it is a reconcile or an unforced pull,
      the sidecar was recorded by a conflicted `docs merge`, the marked file is as
      that merge left it, the fetched revision is live and, for a reconcile,
      newer, and the hub has no such text. */
  lemma LosesExactly(w: World, id: Id, a: Act)
    requires Reachable(w) && Possible(w, id, a) && !a.Edit?
    ensures Loses(w, id, a) <==>
            && (a.Reconcile? || a.Pull?)
            && w.past[id].marked && LocalUnchanged(w.at[id])
            && LiveAt(w.log, a.seen) && (a.Reconcile? ==> a.seen > w.at[id].side.rev)
            && !HubHas(w.log, w.at[id].file.value)
  {
    ReachableIsConsistent(w);
    var l := w.at[id];
    assert Honest(w.log, l, w.past[id]);
    if !w.past[id].marked { NoTextLost(w, id, a); }
    match a
    case Reconcile(seen, retained, m, saved) => MarkedReconcile(w.log, l, seen, retained, m, saved);
    case Pull(seen, saved) => if LiveAt(w.log, seen) { assert w.log[seen - 1] in w.log; }
    case Merge(seen, retained, m, saved) => MergeLosesNothing(w.log, l, seen, retained, m, saved);
    case Publish(_, _) =>
    case Push(_) =>
    case Retire =>
  }

  lemma MarkedReconcile(log: Log, l: Local, seen: nat, retained: bool, m: Markers<string>, saved: bool)
    ensures NothingLost(log, l, ReconcileDoc(log, l, seen, retained, m, saved).file, Reconcile(seen, retained, m, saved)) <==>
            !(LocalUnchanged(l) && LiveAt(log, seen) && seen > l.side.rev && !HubHas(log, l.file.value))
  {
    if l.file.Some? && LiveAt(log, seen) {
      assert log[seen - 1] in log;
      var merge := MergeOf(log, l, seen, retained, m);
      assert ReconcileDoc(log, l, seen, retained, m, saved) == ReconcileWith(log, l, seen, merge, saved);
    }
  }
}
