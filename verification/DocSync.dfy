/** Shared-document synchronisation: any number of machines, one hub document,
    every interleaving of their commands, lost requests and replies, and stops
    between a file write and a sidecar write. */
module DocSync {
  import opened Options
  import opened TextLines
  import opened Merge3
  import opened MergeProgram
  import opened DocProtocol

  type Id = nat

  /** What a machine's past adds to its files. marked: the sidecar was last
      recorded by a `docs merge` that left conflict markers. incorporated: the
      newest revision the file's text was written from, merged with or
      published as. Neither exists on disk. */
  datatype History = History(marked: bool, incorporated: nat)

  datatype World = World(log: Log, at: map<Id, Local>, past: map<Id, History>)

  datatype Act =
    | Edit(text: Option<Text>)
    | Publish(allowed: bool, reply: Reply)
    | Push(reply: Reply)
    | Reconcile(seen: nat, retained: bool, m: Markers<string>, saved: bool)
    | Pull(seen: nat, saved: bool)
    | Merge(seen: nat, retained: bool, m: Markers<string>, saved: bool)
    | Retire

  /** A fetch returns a revision the hub had when it was read: never older than
      what this machine recorded before. */
  predicate Possible(w: World, id: Id, a: Act) {
    && id in w.at && id in w.past
    && match a
       case Reconcile(seen, _, _, _) => w.at[id].side.rev <= seen <= |w.log|
       case Pull(seen, _) => w.at[id].side.rev <= seen <= |w.log|
       case Merge(seen, _, _, _) => w.at[id].side.rev <= seen <= |w.log|
       case Retire => w.log != []
       case _ => true
  }

  ghost function Effect(log: Log, l: Local, a: Act): (Log, Local) {
    match a
    case Edit(text) => (log, l.(file := text))
    case Publish(allowed, reply) => PublishDoc(log, l, allowed, reply)
    case Push(reply) => PushDoc(log, l, reply)
    case Reconcile(seen, retained, m, saved) => (log, ReconcileDoc(log, l, seen, retained, m, saved))
    case Pull(seen, saved) => (log, PullDoc(log, l, seen, saved))
    case Merge(seen, retained, m, saved) => (log, MergeDoc(log, l, seen, retained, m, saved))
    case Retire => (log + [Tombstone], l)
  }

  /** marked and incorporated after an act that leaves l' and log' . An act
      that writes no sidecar keeps marked; one that writes no file and
      publishes nothing keeps incorporated. */
  function Advance(log: Log, l: Local, h: History, a: Act, log': Log, l': Local, marks: bool): History {
    var marked := if l'.side == l.side then h.marked else marks;
    var inc := h.incorporated;
    match a
    case Edit(_) => h
    case Retire => h
    case Publish(_, _) => History(marked, if |log'| > |log| then |log'| else inc)
    case Push(_) => History(marked, if |log'| > |log| then |log'| else inc)
    case Pull(seen, _) => if l' == l then h else History(marked, seen)
    case Reconcile(seen, _, _, _) =>
      if l'.file == l.file && l'.side == l.side then h
      else History(marked, if LocalUnchanged(l) || seen > inc then seen else inc)
    case Merge(seen, _, _, _) =>
      if l'.file == l.file && l'.side == l.side then h
      else History(marked, if seen > inc then seen else inc)
  }

  ghost function HistoryAfter(log: Log, l: Local, h: History, a: Act): History {
    var (log', l') := Effect(log, l, a);
    Advance(log, l, h, a, log', l', a.Merge? && LeavesMarkers(log, l, a.seen, a.retained, a.m))
  }

  ghost function Step(w: World, id: Id, a: Act): World
    requires Possible(w, id, a)
  {
    var (log', l') := Effect(w.log, w.at[id], a);
    World(log', w.at[id := l'], w.past[id := HistoryAfter(w.log, w.at[id], w.past[id], a)])
  }

  ghost predicate Initial(w: World) {
    && w.log == [] && w.at.Keys == w.past.Keys
    && forall id :: id in w.at ==> w.at[id].side == Sidecar(0, None) && w.past[id] == History(false, 0)
  }

  type Run = seq<(Id, Act)>

  /** w' is reached from w by the acts of a run. */
  ghost predicate Reaches(w: World, run: Run, w': World)
    decreases |run|
  {
    if run == [] then w == w'
    else Possible(w, run[0].0, run[0].1) && Reaches(Step(w, run[0].0, run[0].1), run[1..], w')
  }

  // ---- the invariant ----

  /** The sidecar hash is the body of the sidecar revision, unless it was
      recorded for a file with conflict markers. */
  ghost predicate Honest(log: Log, l: Local, h: History) {
    && l.side.rev <= h.incorporated <= |log|
    && (l.side.hash.None? ==> l.side.rev == 0 && !h.marked)
    && (l.side.hash.Some? && !h.marked ==> LiveAt(log, l.side.rev) && log[l.side.rev - 1].body == l.side.hash.value)
  }

  ghost predicate Consistent(w: World) {
    && w.at.Keys == w.past.Keys
    && forall id :: id in w.at ==> Honest(w.log, w.at[id], w.past[id])
  }

  lemma StepKeepsConsistent(w: World, id: Id, a: Act)
    requires Consistent(w) && Possible(w, id, a)
    ensures Consistent(Step(w, id, a))
    ensures w.log <= Step(w, id, a).log
  {
    var w' := Step(w, id, a);
    assert Honest(w.log, w.at[id], w.past[id]);
    EffectKeepsHonest(w.log, w.at[id], w.past[id], a);
    assert w.log <= w'.log;
    forall other | other in w'.at && other != id ensures Honest(w'.log, w'.at[other], w'.past[other]) {
      assert Honest(w.log, w.at[other], w.past[other]);
    }
  }

  lemma EffectKeepsHonest(log: Log, l: Local, h: History, a: Act)
    requires Honest(log, l, h)
    requires a.Reconcile? ==> l.side.rev <= a.seen <= |log|
    requires a.Pull? ==> l.side.rev <= a.seen <= |log|
    requires a.Merge? ==> l.side.rev <= a.seen <= |log|
    ensures var (log', l') := Effect(log, l, a);
            log <= log' && Honest(log', l', HistoryAfter(log, l, h, a))
  {
    match a
    case Edit(_) =>
    case Publish(_, _) =>
    case Push(_) =>
    case Retire =>
    case Pull(_, _) =>
    case Reconcile(seen, retained, m, saved) => ReconcileKeepsHonest(log, l, h, seen, retained, m, saved);
    case Merge(seen, retained, m, saved) => MergeKeepsHonest(log, l, h, seen, retained, m, saved);
  }

  lemma ReconcileKeepsHonest(
    log: Log, l: Local, h: History, seen: nat, retained: bool, m: Markers<string>, saved: bool)
    requires Honest(log, l, h) && l.side.rev <= seen <= |log|
    ensures Honest(log, ReconcileDoc(log, l, seen, retained, m, saved),
                   HistoryAfter(log, l, h, Reconcile(seen, retained, m, saved)))
  {
    if l.file.Some? && LiveAt(log, seen) {
      AnyReconcileKeepsHonest(log, l, h, Reconcile(seen, retained, m, saved), MergeOf(log, l, seen, retained, m));
    }
  }

  lemma AnyReconcileKeepsHonest(log: Log, l: Local, h: History, a: Act, merge: TextOutcome)
    requires a.Reconcile? && Honest(log, l, h) && l.side.rev <= a.seen <= |log|
    ensures var l' := ReconcileWith(log, l, a.seen, merge, a.saved);
            Honest(log, l', Advance(log, l, h, a, log, l', false))
  {
  }

  lemma MergeKeepsHonest(
    log: Log, l: Local, h: History, seen: nat, retained: bool, m: Markers<string>, saved: bool)
    requires Honest(log, l, h) && l.side.rev <= seen <= |log|
    ensures Honest(log, MergeDoc(log, l, seen, retained, m, saved),
                   HistoryAfter(log, l, h, Merge(seen, retained, m, saved)))
  {
    if l.file.Some? && LiveAt(log, seen) {
      AnyMergeKeepsHonest(log, l, h, Merge(seen, retained, m, saved), MergeOf(log, l, seen, retained, m));
    }
  }

  lemma AnyMergeKeepsHonest(log: Log, l: Local, h: History, a: Act, merge: TextOutcome)
    requires a.Merge? && Honest(log, l, h) && l.side.rev <= a.seen <= |log|
    ensures var l' := MergeWith(log, l, a.seen, merge, a.saved);
            var marks := Merges(log, l, a.seen) && merge.MergedInto? && merge.conflicts > 0;
            Honest(log, l', Advance(log, l, h, a, log, l', marks))
  {
  }

  lemma {:induction false} RunIsConsistent(w: World, run: Run, w': World)
    requires Consistent(w) && Reaches(w, run, w')
    ensures Consistent(w') && w.log <= w'.log
    decreases |run|
  {
    if run != [] {
      StepKeepsConsistent(w, run[0].0, run[0].1);
      RunIsConsistent(Step(w, run[0].0, run[0].1), run[1..], w');
    }
  }
}
