/** A run that loses text, and why quiet machines converge. */
module DocConvergence {
  import opened Options
  import opened TextLines
  import opened Merge3
  import opened MergeProgram
  import opened DocProtocol
  import opened DocSync
  import opened DocSafety

  /** The text a conflicted merge without a base leaves in the file. */
  function Block(local: Text, hub: Text, m: Markers<string>): Text {
    JoinLines([m.open] + SplitLines(local) + [m.mid] + SplitLines(hub) + [m.close])
  }

  /** Machine 0 has merged in conflict with machine 1's revision, which machine
      1 has since replaced. */
  predicate LosingState(w: World, local: Text, hub: Text, newer: Text, m: Markers<string>) {
    && w.at.Keys == w.past.Keys == {0, 1}
    && w.log == [Live(hub), Live(newer)]
    && w.at[0] == Local(Some(Block(local, hub, m)), Sidecar(1, Some(Block(local, hub, m))), false)
    && w.at[1] == Local(Some(newer), Sidecar(2, Some(newer)), false)
  }

  /** Machine 1 has published and machine 0 has merged with it, in conflict. */
  predicate MarkedState(w: World, local: Text, hub: Text, m: Markers<string>) {
    && w.at.Keys == w.past.Keys == {0, 1}
    && w.log == [Live(hub)]
    && w.at[0] == Local(Some(Block(local, hub, m)), Sidecar(1, Some(Block(local, hub, m))), false)
    && w.at[1] == Local(Some(hub), Sidecar(1, Some(hub)), false)
  }

  lemma PublishedStateIsReachable(local: Text, hub: Text) returns (w: World)
    ensures Reachable(w) && w.at.Keys == w.past.Keys == {0, 1} && w.log == [Live(hub)]
    ensures w.at[0] == Local(Some(local), Sidecar(0, None), false)
    ensures w.at[1] == Local(Some(hub), Sidecar(1, Some(hub)), false)
  {
    var blank, h := Sidecar(0, None), History(false, 0);
    var w0 := World([], map[0 := Local(Some(local), blank, false), 1 := Local(Some(hub), blank, false)], map[0 := h, 1 := h]);
    assert Initial(w0) && Reaches(w0, [], w0);
    StepIsReachable(w0, 1, Publish(true, Answered));
    w := Step(w0, 1, Publish(true, Answered));
  }

  /** A first merge without a synced base leaves both texts in one block. */
  lemma FirstMergeConflicts(local: Text, hub: Text, m: Markers<string>)
    requires Fits(local) && Fits(hub) && local != "" && hub != "" && Normal(local) != Normal(hub)
    ensures MergeDoc([Live(hub)], Local(Some(local), Sidecar(0, None), false), 1, true, m, true) ==
            Local(Some(Block(local, hub, m)), Sidecar(1, Some(Block(local, hub, m))), false)
  {
    FirstMergeIs(local, hub, m);
    FirstMergeWrites(local, hub, Block(local, hub, m));
  }

  lemma FirstMergeIs(local: Text, hub: Text, m: Markers<string>)
    requires Fits(local) && Fits(hub) && local != "" && hub != "" && Normal(local) != Normal(hub)
    ensures MergeOf([Live(hub)], Local(Some(local), Sidecar(0, None), false), 1, true, m) == MergedInto(Block(local, hub, m), 1)
  {
    MergeTextWithoutBase(local, hub, m);
    assert SyncedText([Live(hub)], 0, true) == "";
  }

  lemma FirstMergeWrites(local: Text, hub: Text, text: Text)
    requires local != hub
    ensures MergeWith([Live(hub)], Local(Some(local), Sidecar(0, None), false), 1, MergedInto(text, 1), true) ==
            Local(Some(text), Sidecar(1, Some(text)), false)
  {
  }

  lemma MarkedStateIsReachable(local: Text, hub: Text, m: Markers<string>) returns (w: World)
    requires Fits(local) && Fits(hub) && local != "" && hub != "" && Normal(local) != Normal(hub)
    ensures Reachable(w) && MarkedState(w, local, hub, m)
  {
    var w1 := PublishedStateIsReachable(local, hub);
    FirstMergeConflicts(local, hub, m);
    StepIsReachable(w1, 0, Merge(1, true, m, true));
    w := Step(w1, 0, Merge(1, true, m, true));
  }

  lemma LosingStateIsReachable(local: Text, hub: Text, newer: Text, m: Markers<string>) returns (w: World)
    requires Fits(local) && Fits(hub) && local != "" && hub != "" && Normal(local) != Normal(hub) && newer != hub
    ensures Reachable(w) && LosingState(w, local, hub, newer, m)
  {
    w := MarkedStateIsReachable(local, hub, m);
    w := EditsAndPublishes(w, 1, newer);
  }

  lemma EditsAndPublishes(w: World, id: Id, newer: Text) returns (w': World)
    requires Reachable(w) && id in w.at && id in w.past
    requires w.at[id].side == Sidecar(|w.log|, w.at[id].file) && w.at[id].file.Some? && w.at[id].file.value != newer
    ensures Reachable(w') && w'.log == w.log + [Live(newer)] && w'.past.Keys == w.past.Keys
    ensures w'.at == w.at[id := Local(Some(newer), Sidecar(|w.log| + 1, Some(newer)), w.at[id].preview)]
  {
    var w1 := Step(w, id, Edit(Some(newer)));
    StepIsReachable(w, id, Edit(Some(newer)));
    w' := Step(w1, id, Publish(true, Answered));
    StepIsReachable(w1, id, Publish(true, Answered));
    EditedPublishes(w.log, w.at[id], newer);
  }

  lemma EditedPublishes(log: Log, l: Local, newer: Text)
    requires l.side == Sidecar(|log|, l.file) && l.file.Some? && l.file.value != newer
    ensures PublishDoc(log, l.(file := Some(newer)), true, Answered) ==
            (log + [Live(newer)], Local(Some(newer), Sidecar(|log| + 1, Some(newer)), l.preview))
  {
  }

  /** From there machine 0's next reconcile erases its text, which no hub
      revision ever held. */
  lemma ConflictedMergeLosesText(local: Text, hub: Text, newer: Text, m: Markers<string>) returns (w: World)
    requires Fits(local) && Fits(hub) && local != "" && hub != "" && Normal(local) != Normal(hub)
    requires newer != hub && newer != local && Block(local, hub, m) != hub && Block(local, hub, m) != newer
    ensures Reachable(w)
    ensures var a := Reconcile(2, true, m, true);
            && Possible(w, 0, a) && Loses(w, 0, a)
            && var w' := Step(w, 0, a);
               && w'.log == [Live(hub), Live(newer)]
               && w'.at.Keys == {0, 1} && w'.at[0].file == w'.at[1].file == Some(newer)
               && !HubHas(w'.log, local)
  {
    w := LosingStateIsReachable(local, hub, newer, m);
    var a := Reconcile(2, true, m, true);
    var merge := MergeOf(w.log, w.at[0], 2, true, m);
    assert Step(w, 0, a).at[0] == ReconcileWith(w.log, w.at[0], 2, merge, true);
  }

  /** An unforced `docs pull` erases the marked file as well, even of the very
      revision it was merged with. */
  lemma PullLosesText(local: Text, hub: Text, m: Markers<string>) returns (w: World)
    requires Fits(local) && Fits(hub) && local != "" && hub != "" && Normal(local) != Normal(hub)
    requires Block(local, hub, m) != hub && local != hub
    ensures Reachable(w)
    ensures var a := Pull(1, true);
            && Possible(w, 0, a) && Loses(w, 0, a)
            && var w' := Step(w, 0, a);
               && w'.log == [Live(hub)] && w'.at.Keys == {0, 1}
               && w'.at[0].file == w'.at[1].file == Some(hub) && !HubHas(w'.log, local)
  {
    w := MarkedStateIsReachable(local, hub, m);
  }

  // ---- convergence ----

  /** `docs sync` without interference: reconcile with the head, then publish. */
  ghost function Sync(log: Log, l: Local, m: Markers<string>): (Log, Local) {
    PublishDoc(log, ReconcileDoc(log, l, |log|, true, m, true), true, Answered)
  }

  /** This sync needs no merge, or merges without conflict. */
  ghost predicate Clean(log: Log, l: Local, m: Markers<string>) {
    LiveAt(log, |log|) && l.file.Some? && l.side.rev < |log| && !LocalUnchanged(l) ==>
      var r := MergeOf(log, l, |log|, true, m);
      r.MergedInto? && r.conflicts == 0
  }

  /** A sidecar no conflicted merge recorded, on a document never retired. */
  ghost predicate Sound(log: Log, l: Local) {
    && l.file.Some? && Honest(log, l, History(false, |log|))
    && forall rev :: rev in log ==> rev.Live?
  }

  /** The file is the head of the log and the sidecar says so. */
  predicate AtHead(log: Log, l: Local) {
    LiveAt(log, |log|) && l.file == Some(log[|log| - 1].body) && l.side == Sidecar(|log|, l.file)
  }

  lemma SyncSettles(log: Log, l: Local, m: Markers<string>)
    requires Sound(log, l) && Clean(log, l, m)
    ensures var (log', l') := Sync(log, l, m);
            && log <= log' && AtHead(log', l') && Sound(log', l')
            && (LocalUnchanged(l) ==> log' == log)
  {
    if log == [] {
      PublishSettles(log, l);
    } else {
      assert log[|log| - 1] in log;
      var merge := MergeOf(log, l, |log|, true, m);
      assert ReconcileDoc(log, l, |log|, true, m, true) == ReconcileWith(log, l, |log|, merge, true);
      ReconcileCatchesUp(log, l, merge);
      PublishSettles(log, ReconcileWith(log, l, |log|, merge, true));
    }
  }

  /** A clean reconcile with the head brings the sidecar up to it. */
  lemma ReconcileCatchesUp(log: Log, l: Local, merge: TextOutcome)
    requires Sound(log, l) && LiveAt(log, |log|)
    requires l.side.rev < |log| && !LocalUnchanged(l) ==> merge.MergedInto? && merge.conflicts == 0
    ensures var l' := ReconcileWith(log, l, |log|, merge, true);
            Sound(log, l') && l'.side.rev == |log| && (LocalUnchanged(l) ==> LocalUnchanged(l'))
  {
  }

  /** Publishing from the current revision leaves the file at the head. */
  lemma PublishSettles(log: Log, l: Local)
    requires Sound(log, l) && l.side.rev == |log|
    ensures var (log', l') := PublishDoc(log, l, true, Answered);
            && log <= log' && AtHead(log', l') && Sound(log', l')
            && (LocalUnchanged(l) ==> log' == log)
  {
  }

  type Machines = map<Id, Local>

  /** Every machine of the list syncs once, in order. */
  ghost function Round(log: Log, ms: Machines, order: seq<Id>, m: Markers<string>): (Log, Machines)
    requires forall id :: id in order ==> id in ms
    decreases |order|
  {
    if order == [] then (log, ms)
    else
      var (log', l') := Sync(log, ms[order[0]], m);
      Round(log', ms[order[0] := l'], order[1..], m)
  }

  ghost predicate CleanRound(log: Log, ms: Machines, order: seq<Id>, m: Markers<string>)
    requires forall id :: id in order ==> id in ms
    decreases |order|
  {
    order == [] ||
    (Clean(log, ms[order[0]], m) &&
     var (log', l') := Sync(log, ms[order[0]], m);
     CleanRound(log', ms[order[0] := l'], order[1..], m))
  }

  ghost predicate AllSound(log: Log, ms: Machines) { forall id :: id in ms ==> Sound(log, ms[id]) }

  lemma SyncKeepsAllSound(log: Log, ms: Machines, id: Id, m: Markers<string>)
    requires AllSound(log, ms) && id in ms && Clean(log, ms[id], m)
    ensures var (log', l') := Sync(log, ms[id], m);
            AllSound(log', ms[id := l']) && log <= log'
  {
    SyncSettles(log, ms[id], m);
    var (log', l') := Sync(log, ms[id], m);
    forall other | other in ms && other != id ensures Sound(log', ms[other]) {
      assert Sound(log, ms[other]);
    }
  }

  /** After a clean round every machine that took part has published its text. */
  lemma {:induction false} RoundSettles(log: Log, ms: Machines, order: seq<Id>, m: Markers<string>)
    requires (forall id :: id in order ==> id in ms) && AllSound(log, ms) && CleanRound(log, ms, order, m)
    ensures var (log', ms') := Round(log, ms, order, m);
            && log <= log' && ms'.Keys == ms.Keys && AllSound(log', ms')
            && (order != [] ==> LiveAt(log', |log'|))
            && (forall id :: id in ms && id !in order ==> ms'[id] == ms[id])
            && (forall id :: id in order ==> LocalUnchanged(ms'[id]))
    decreases |order|
  {
    if order != [] {
      var id := order[0];
      var (log1, l1) := Sync(log, ms[id], m);
      SyncSettles(log, ms[id], m);
      SyncKeepsAllSound(log, ms, id, m);
      RoundSettles(log1, ms[id := l1], order[1..], m);
    }
  }

  /** A round of machines that have published their text changes no revision
      and brings each of them to the head. */
  lemma {:induction false} QuietRound(log: Log, ms: Machines, order: seq<Id>, m: Markers<string>)
    requires (forall id :: id in order ==> id in ms && LocalUnchanged(ms[id])) && AllSound(log, ms)
    ensures var (log', ms') := Round(log, ms, order, m);
            && log' == log && ms'.Keys == ms.Keys
            && (forall id :: id in ms && id !in order ==> ms'[id] == ms[id])
            && (forall id :: id in order ==> AtHead(log, ms'[id]))
    decreases |order|
  {
    if order != [] {
      var id := order[0];
      var (log1, l1) := Sync(log, ms[id], m);
      SyncSettles(log, ms[id], m);
      SyncKeepsAllSound(log, ms, id, m);
      QuietRound(log, ms[id := l1], order[1..], m);
    }
  }

  /** Two rounds: the first may publish and merge, the second changes no
      revision, and then every file is the hub's body. */
  lemma TwoRoundsConverge(log: Log, ms: Machines, order: seq<Id>, m: Markers<string>)
    requires (forall id :: id in order <==> id in ms) && order != []
    requires AllSound(log, ms) && CleanRound(log, ms, order, m)
    ensures var (log1, ms1) := Round(log, ms, order, m);
            && ms1.Keys == ms.Keys
            && var (log2, ms2) := Round(log1, ms1, order, m);
               && log <= log1 == log2 && ms2.Keys == ms.Keys
               && forall id :: id in ms ==> AtHead(log2, ms2[id])
  {
    RoundSettles(log, ms, order, m);
    var (log1, ms1) := Round(log, ms, order, m);
    QuietRound(log1, ms1, order, m);
  }
}
