/** Several bound files on one machine: with distinct document names the loops
    are one protocol step per document; with a shared name a sync can publish
    a file over a revision it never incorporated, and exactly when. */
module DocBindings {
  import opened Options
  import opened TextLines
  import opened Merge3
  import opened MergeProgram
  import opened DocProtocol
  import opened DocClient

  function Names(paths: seq<Path>): set<Name> { set p | p in paths :: DocName(p) }

  predicate Distinct(paths: seq<Path>)
    decreases |paths|
  {
    paths == [] || (DocName(paths[0]) !in Names(paths[1..]) && Distinct(paths[1..]))
  }

  ghost predicate InOrder(fs: seq<Fetch>) { forall f :: f in fs ==> f.InOrder() }

  // ---- one binding ----

  ghost function ReconcileLocal(l: Local, f: Fetch): Local {
    if f.listed.None? || f.listed.value <= l.side.rev || !f.works then l
    else ReconcileDoc(f.log, l, |f.log|, f.retained, MarkersOf(f.localLabel, f.hubLabel), true)
  }

  lemma PlacedIsThere(m: Machine, path: Path, l: Local, other: Path)
    ensures LocalAt(Place(m, path, l), path) == l
    ensures DocName(other) != DocName(path) ==> LocalAt(Place(m, path, l), other) == LocalAt(m, other)
  {
  }

  lemma ReconcileIsLocal(m: Machine, path: Path, f: Fetch, other: Path)
    ensures LocalAt(ReconcilePath(m, path, f), path) == ReconcileLocal(LocalAt(m, path), f)
    ensures DocName(other) != DocName(path) ==> LocalAt(ReconcilePath(m, path, f), other) == LocalAt(m, other)
  {
    PlacedIsThere(m, path, ReconcileLocal(LocalAt(m, path), f), other);
  }

  lemma {:induction false} PassKeepsOthers(m: Machine, paths: seq<Path>, fs: seq<Fetch>, other: Path)
    requires |fs| == |paths| && DocName(other) !in Names(paths)
    ensures LocalAt(ReconcileAll(m, paths, fs), other) == LocalAt(m, other)
    decreases |paths|
  {
    if paths != [] {
      assert paths[0] in paths;
      ReconcileIsLocal(m, paths[0], fs[0], other);
      PassKeepsOthers(ReconcilePath(m, paths[0], fs[0]), paths[1..], fs[1..], other);
    }
  }

  /** With distinct names, a pass takes each document through exactly the step
      its own fetch calls for, whatever happens to the others. */
  lemma {:induction false} PassIsOneStepEach(m: Machine, paths: seq<Path>, fs: seq<Fetch>, k: nat)
    requires |fs| == |paths| && Distinct(paths) && k < |paths|
    ensures LocalAt(ReconcileAll(m, paths, fs), paths[k]) == ReconcileLocal(LocalAt(m, paths[k]), fs[k])
    decreases |paths|
  {
    var m1 := ReconcilePath(m, paths[0], fs[0]);
    ReconcileIsLocal(m, paths[0], fs[0], paths[k]);
    if k == 0 {
      PassKeepsOthers(m1, paths[1..], fs[1..], paths[0]);
    } else {
      assert paths[k] in paths[1..];
      PassIsOneStepEach(m1, paths[1..], fs[1..], k - 1);
    }
  }

  // ---- publishing ----

  /** What the protocol's PUT answers for a document whose log is log. */
  function AnswerOf(log: Log, l: Local, reply: Reply): Option<nat> {
    if reply == Answered && l.side.rev == |log| then Some(|log| + 1) else None
  }

  /** The PUT one binding calls for. */
  function PutOf(m: Machine, path: Path, s: Sending): seq<PutRequest> {
    var l := LocalAt(m, path);
    if l.file.None? || !s.allowed || LocalUnchanged(l) then []
    else [PutRequest(DocName(path), l.file.value, l.side.rev)]
  }

  lemma PublishIsLocal(m: Machine, path: Path, s: Sending, other: Path)
    ensures PublishPath(m, path, s).0.wire == m.wire + PutOf(m, path, s)
    ensures PublishPath(m, path, s).0.files == m.files && PublishPath(m, path, s).0.previews == m.previews
    ensures DocName(other) != DocName(path) ==> LocalAt(PublishPath(m, path, s).0, other) == LocalAt(m, other)
    ensures forall log, reply :: s.answer == AnswerOf(log, LocalAt(m, path), reply) ==>
              LocalAt(PublishPath(m, path, s).0, path) == PublishDoc(log, LocalAt(m, path), s.allowed, reply).1
  {
    var l := LocalAt(m, path);
    var sent := m.(wire := m.wire + PutOf(m, path, s));
    if s.answer.Some? { PlacedIsThere(sent, path, l.(side := Sidecar(s.answer.value, l.file)), other); }
    assert m.previews == if path in m.previews then m.previews + {path} else m.previews - {path};
    assert path in m.files ==> m.files == m.files[path := m.files[path]];
  }

  /** The PUTs of a whole publish, each from the state at its start. */
  function Puts(m: Machine, paths: seq<Path>, ss: seq<Sending>, seen: set<Name>): seq<PutRequest>
    requires |ss| == |paths|
    decreases |paths|
  {
    if paths == [] then []
    else if DocName(paths[0]) in seen then Puts(m, paths[1..], ss[1..], seen)
    else PutOf(m, paths[0], ss[0]) + Puts(m, paths[1..], ss[1..], seen + {DocName(paths[0])})
  }

  /** The machines agree on every document not yet published. */
  ghost predicate AgreeBeyond(m: Machine, m': Machine, seen: set<Name>) {
    forall p {:trigger LocalAt(m, p)} :: DocName(p) !in seen ==> LocalAt(m', p) == LocalAt(m, p)
  }

  lemma {:induction false} PutsOnlySeeUnpublished(m: Machine, m': Machine, paths: seq<Path>, ss: seq<Sending>, seen: set<Name>)
    requires |ss| == |paths| && AgreeBeyond(m, m', seen)
    ensures Puts(m', paths, ss, seen) == Puts(m, paths, ss, seen)
    decreases |paths|
  {
    if paths != [] {
      assert DocName(paths[0]) !in seen ==> LocalAt(m', paths[0]) == LocalAt(m, paths[0]);
      PutsOnlySeeUnpublished(m, m', paths[1..], ss[1..], seen);
      PutsOnlySeeUnpublished(m, m', paths[1..], ss[1..], seen + {DocName(paths[0])});
    }
  }

  /** No PUT of a publish depends on another, and no file is touched. */
  lemma {:induction false} PublishSendsPuts(m: Machine, paths: seq<Path>, ss: seq<Sending>, seen: set<Name>)
    requires |ss| == |paths|
    ensures var m' := PublishAll(m, paths, ss, seen).0;
            m'.wire == m.wire + Puts(m, paths, ss, seen) && m'.files == m.files && m'.previews == m.previews
    decreases |paths|
  {
    if paths != [] {
      if DocName(paths[0]) in seen {
        PublishSendsPuts(m, paths[1..], ss[1..], seen);
      } else {
        var m1 := PublishPath(m, paths[0], ss[0]).0;
        var seen1 := seen + {DocName(paths[0])};
        PublishIsLocal(m, paths[0], ss[0], paths[0]);
        forall p | DocName(p) !in seen1 ensures LocalAt(m1, p) == LocalAt(m, p) { PublishIsLocal(m, paths[0], ss[0], p); }
        PublishSendsPuts(m1, paths[1..], ss[1..], seen1);
        PutsOnlySeeUnpublished(m, m1, paths[1..], ss[1..], seen1);
        assert m.wire + PutOf(m, paths[0], ss[0]) + Puts(m, paths[1..], ss[1..], seen1) == m.wire + Puts(m, paths, ss, seen);
      }
    }
  }

  ghost predicate FirstOfItsName(paths: seq<Path>, k: nat) {
    k < |paths| && forall i :: 0 <= i < k ==> DocName(paths[i]) != DocName(paths[k])
  }

  /** The first binding of a name wins: the PUTs that name a document are
      exactly the one its first binding calls for. */
  lemma {:induction false} FirstBindingWins(
    m: Machine, paths: seq<Path>, ss: seq<Sending>, seen: set<Name>, k: nat, r: PutRequest)
    requires |ss| == |paths| && FirstOfItsName(paths, k) && DocName(paths[k]) !in seen && r.name == DocName(paths[k])
    ensures r in Puts(m, paths, ss, seen) <==> r in PutOf(m, paths[k], ss[k])
    decreases |paths|
  {
    var rest, srest, name := paths[1..], ss[1..], DocName(paths[0]);
    if k == 0 {
      NoSecondPut(m, rest, srest, seen + {name}, r);
    } else {
      assert paths[0] in paths && name != r.name;
      assert FirstOfItsName(rest, k - 1) by { assert forall i :: 0 <= i < k - 1 ==> rest[i] == paths[i + 1]; }
      FirstBindingWins(m, rest, srest, seen, k - 1, r);
      FirstBindingWins(m, rest, srest, seen + {name}, k - 1, r);
    }
  }

  lemma {:induction false} NoSecondPut(m: Machine, paths: seq<Path>, ss: seq<Sending>, seen: set<Name>, r: PutRequest)
    requires |ss| == |paths| && r.name in seen
    ensures r !in Puts(m, paths, ss, seen)
    decreases |paths|
  {
    if paths != [] {
      NoSecondPut(m, paths[1..], ss[1..], seen, r);
      NoSecondPut(m, paths[1..], ss[1..], seen + {DocName(paths[0])}, r);
    }
  }

  // ---- a name bound twice ----

  /** Reconciling this binding would rewrite its file and move the sidecar. */
  ghost predicate Writes(m: Machine, path: Path, f: Fetch) {
    ReconcileLocal(LocalAt(m, path), f).side != LocalAt(m, path).side
  }

  lemma WriteMovesRevision(l: Local, f: Fetch)
    requires f.InOrder()
    ensures var l' := ReconcileLocal(l, f);
            if l'.side == l.side then l' == l || l' == l.(preview := true)
            else l'.side.rev == |f.log| > l.side.rev
  {
    var m := MarkersOf(f.localLabel, f.hubLabel);
    if l.file.Some? && LiveAt(f.log, |f.log|) {
      var merge := MergeOf(f.log, l, |f.log|, f.retained, m);
      assert ReconcileDoc(f.log, l, |f.log|, f.retained, m, true) == ReconcileWith(f.log, l, |f.log|, merge, true);
    }
  }

  /** Whether a preview lies there already plays no part. */
  /** But for the preview itself. */
  predicate SameFile(l: Local, l': Local) { l'.side == l.side && l'.file == l.file }

  lemma PreviewIsIgnoredWith(log: Log, l: Local, seen: nat, merge: TextOutcome)
    ensures SameFile(ReconcileWith(log, l, seen, merge, true), ReconcileWith(log, l.(preview := true), seen, merge, true))
  {
  }

  lemma PreviewIsNoBase(log: Log, l: Local, seen: nat, retained: bool, m: Markers<string>)
    requires l.file.Some? && LiveAt(log, seen)
    ensures MergeOf(log, l.(preview := true), seen, retained, m) == MergeOf(log, l, seen, retained, m)
  {
  }

  lemma PreviewIsIgnoredIn(log: Log, l: Local, seen: nat, retained: bool, m: Markers<string>)
    ensures SameFile(ReconcileDoc(log, l, seen, retained, m, true), ReconcileDoc(log, l.(preview := true), seen, retained, m, true))
  {
    if l.file.Some? && LiveAt(log, seen) {
      PreviewIsNoBase(log, l, seen, retained, m);
      PreviewIsIgnoredWith(log, l, seen, MergeOf(log, l, seen, retained, m));
    }
  }

  lemma PreviewIsIgnored(l: Local, f: Fetch)
    ensures SameFile(ReconcileLocal(l, f), ReconcileLocal(l.(preview := true), f))
  {
    PreviewIsIgnoredIn(f.log, l, |f.log|, f.retained, MarkersOf(f.localLabel, f.hubLabel));
  }

  /** Same file and sidecar. */
  predicate SameBut(l: Local, l': Local) { l'.file == l.file && l'.side == l.side && (l.preview ==> l'.preview) }

  lemma SameWrites(m: Machine, m': Machine, path: Path, f: Fetch)
    requires SameBut(LocalAt(m, path), LocalAt(m', path))
    ensures Writes(m, path, f) <==> Writes(m', path, f)
  {
    var l, l' := LocalAt(m, path), LocalAt(m', path);
    PreviewIsIgnored(l, f);
    assert l' == l || l' == l.(preview := true);
  }

  /** A binding that writes nothing leaves every file and the sidecar alone;
      one of another document leaves this document alone. */
  lemma IdleKeeps(m: Machine, path: Path, f: Fetch, other: Path)
    requires f.InOrder() && (!Writes(m, path, f) || DocName(other) != DocName(path))
    ensures SameBut(LocalAt(m, other), LocalAt(ReconcilePath(m, path, f), other))
  {
    ReconcileIsLocal(m, path, f, other);
    WriteMovesRevision(LocalAt(m, path), f);
  }

  lemma {:induction false} RevisionsOnlyGrow(m: Machine, paths: seq<Path>, fs: seq<Fetch>, n: Name)
    requires |fs| == |paths| && InOrder(fs)
    ensures SideOf(ReconcileAll(m, paths, fs).state, n).rev >= SideOf(m.state, n).rev
    decreases |paths|
  {
    if paths != [] {
      var m1 := ReconcilePath(m, paths[0], fs[0]);
      assert fs[0] in fs;
      ReconcileIsLocal(m, paths[0], fs[0], paths[0]);
      WriteMovesRevision(LocalAt(m, paths[0]), fs[0]);
      assert SideOf(m1.state, n).rev >= SideOf(m.state, n).rev;
      RevisionsOnlyGrow(m1, paths[1..], fs[1..], n);
    }
  }

  ghost predicate WritesAt(m: Machine, paths: seq<Path>, fs: seq<Fetch>, n: Name, j: nat)
    requires |fs| == |paths|
  {
    j < |paths| && DocName(paths[j]) == n && Writes(m, paths[j], fs[j])
  }

  ghost predicate SomeWrites(m: Machine, paths: seq<Path>, fs: seq<Fetch>, n: Name)
    requires |fs| == |paths|
  {
    exists j: nat :: WritesAt(m, paths, fs, n, j)
  }

  lemma SomeWritesSplits(m: Machine, m1: Machine, paths: seq<Path>, fs: seq<Fetch>, n: Name)
    requires |fs| == |paths| && paths != [] && !WritesAt(m, paths, fs, n, 0)
    requires forall j: nat :: j > 0 ==> (WritesAt(m, paths, fs, n, j) <==> WritesAt(m1, paths, fs, n, j))
    ensures SomeWrites(m, paths, fs, n) <==> SomeWrites(m1, paths[1..], fs[1..], n)
  {
    forall j: nat ensures WritesAt(m1, paths[1..], fs[1..], n, j) <==> WritesAt(m1, paths, fs, n, j + 1) {
    }
    if SomeWrites(m, paths, fs, n) {
      var j: nat :| WritesAt(m, paths, fs, n, j);
      assert WritesAt(m1, paths[1..], fs[1..], n, j - 1);
    }
    if SomeWrites(m1, paths[1..], fs[1..], n) {
      var j: nat :| WritesAt(m1, paths[1..], fs[1..], n, j);
      assert WritesAt(m, paths, fs, n, j + 1);
    }
  }

  /** A pass moves a document's sidecar exactly when one of the name's bindings
      would write on its own, first or not. */
  lemma {:induction false} SidecarMovesExactly(m: Machine, paths: seq<Path>, fs: seq<Fetch>, n: Name)
    requires |fs| == |paths| && InOrder(fs)
    ensures var side, side' := SideOf(m.state, n), SideOf(ReconcileAll(m, paths, fs).state, n);
            && (side' != side <==> SomeWrites(m, paths, fs, n))
            && (side' != side ==> side'.rev > side.rev)
    decreases |paths|
  {
    if paths != [] {
      var m1 := ReconcilePath(m, paths[0], fs[0]);
      assert fs[0] in fs && InOrder(fs[1..]);
      ReconcileIsLocal(m, paths[0], fs[0], paths[0]);
      if WritesAt(m, paths, fs, n, 0) {
        WriteMovesRevision(LocalAt(m, paths[0]), fs[0]);
        RevisionsOnlyGrow(m1, paths[1..], fs[1..], n);
      } else {
        forall j: nat | j > 0 ensures WritesAt(m, paths, fs, n, j) <==> WritesAt(m1, paths, fs, n, j) {
          if j < |paths| && DocName(paths[j]) == n {
            IdleKeeps(m, paths[0], fs[0], paths[j]);
            SameWrites(m, m1, paths[j], fs[j]);
          }
        }
        SomeWritesSplits(m, m1, paths, fs, n);
        SideStays(m, paths[0], fs[0], n);
        SidecarMovesExactly(m1, paths[1..], fs[1..], n);
      }
    }
  }

  lemma SideStays(m: Machine, path: Path, f: Fetch, n: Name)
    requires f.InOrder() && !(DocName(path) == n && Writes(m, path, f))
    ensures SideOf(ReconcilePath(m, path, f).state, n) == SideOf(m.state, n)
  {
    ReconcileIsLocal(m, path, f, path);
  }

  // ---- exactly when a sync publishes a stale file ----

  /** The hub's documents are listed once for a whole pass. */
  ghost predicate OneListing(paths: seq<Path>, fs: seq<Fetch>)
    requires |fs| == |paths|
  {
    forall i, j :: 0 <= i < |paths| && 0 <= j < |paths| && DocName(paths[i]) == DocName(paths[j]) ==> fs[i].listed == fs[j].listed
  }

  /** The guards of the two branches that write: the binding gets as far as
      comparing, and its file is unchanged or merges without conflict. */
  ghost predicate WouldWrite(m: Machine, path: Path, f: Fetch) {
    && Compares(m, path, f)
    && (LocalUnchanged(LocalAt(m, path)) ||
        var r := MergeOf(f.log, LocalAt(m, path), |f.log|, f.retained, MarkersOf(f.localLabel, f.hubLabel));
        r.MergedInto? && r.conflicts == 0)
  }

  lemma WritesExactly(m: Machine, path: Path, f: Fetch)
    requires f.InOrder()
    ensures Writes(m, path, f) <==> WouldWrite(m, path, f)
    ensures WouldWrite(m, path, f) ==> ReconcileLocal(LocalAt(m, path), f).side == Sidecar(|f.log|, Head(f.log))
  {
    var l, mk := LocalAt(m, path), MarkersOf(f.localLabel, f.hubLabel);
    if l.file.Some? && LiveAt(f.log, |f.log|) {
      WritesWith(f.log, l, |f.log|, MergeOf(f.log, l, |f.log|, f.retained, mk));
    }
  }

  lemma WritesWith(log: Log, l: Local, seen: nat, merge: TextOutcome)
    requires l.file.Some? && LiveAt(log, seen)
    ensures var l' := ReconcileWith(log, l, seen, merge, true);
            if seen > l.side.rev && (LocalUnchanged(l) || (merge.MergedInto? && merge.conflicts == 0))
            then l'.side == Sidecar(seen, Some(log[seen - 1].body)) && l'.side != l.side
            else l'.side == l.side
  {
  }

  /** The first binding of the name whose guards let it write. */
  ghost predicate FirstWriter(m: Machine, paths: seq<Path>, fs: seq<Fetch>, n: Name, j: nat)
    requires |fs| == |paths|
  {
    && j < |paths| && DocName(paths[j]) == n && WouldWrite(m, paths[j], fs[j])
    && forall i :: 0 <= i < j && DocName(paths[i]) == n ==> !WouldWrite(m, paths[i], fs[i])
  }

  /** The files a pass does write. */
  ghost function Touched(m: Machine, paths: seq<Path>, fs: seq<Fetch>): set<Path>
    requires |fs| == |paths|
    decreases |paths|
  {
    if paths == [] then {}
    else (if Writes(m, paths[0], fs[0]) then {paths[0]} else {}) + Touched(ReconcilePath(m, paths[0], fs[0]), paths[1..], fs[1..])
  }

  /** The pass leaves this document's sidecar and all its files alone. */
  ghost predicate Untouched(m: Machine, paths: seq<Path>, fs: seq<Fetch>, n: Name)
    requires |fs| == |paths|
  {
    && SideOf(ReconcileAll(m, paths, fs).state, n) == SideOf(m.state, n)
    && forall p :: DocName(p) == n ==>
         p !in Touched(m, paths, fs) && LocalAt(ReconcileAll(m, paths, fs), p).file == LocalAt(m, p).file
  }

  /** None of the name's bindings writes, whatever happens before its turn. */
  ghost predicate AllIdle(m: Machine, paths: seq<Path>, fs: seq<Fetch>, n: Name)
    requires |fs| == |paths|
  {
    forall j :: 0 <= j < |paths| && DocName(paths[j]) == n ==> !Writes(m, paths[j], fs[j])
  }

  lemma {:induction false} IdlePassTouchesNothing(m: Machine, paths: seq<Path>, fs: seq<Fetch>, n: Name)
    requires |fs| == |paths| && InOrder(fs) && AllIdle(m, paths, fs, n)
    ensures Untouched(m, paths, fs, n)
    decreases |paths|
  {
    if paths != [] {
      var m1 := ReconcilePath(m, paths[0], fs[0]);
      assert fs[0] in fs && InOrder(fs[1..]);
      HeadIdles(m, paths[0], fs[0], n);
      forall j | 0 <= j < |paths[1..]| && DocName(paths[1..][j]) == n ensures !Writes(m1, paths[1..][j], fs[1..][j]) {
        assert !Writes(m, paths[j + 1], fs[j + 1]);
        SameWrites(m, m1, paths[j + 1], fs[j + 1]);
      }
      IdlePassTouchesNothing(m1, paths[1..], fs[1..], n);
    }
  }

  /** A turn that does not write the document leaves all its bindings as they
      are, but perhaps for a preview. */
  lemma HeadIdles(m: Machine, path: Path, f: Fetch, n: Name)
    requires f.InOrder() && !(DocName(path) == n && Writes(m, path, f))
    ensures SideOf(ReconcilePath(m, path, f).state, n) == SideOf(m.state, n)
    ensures forall p {:trigger LocalAt(m, p)} :: DocName(p) == n ==> SameBut(LocalAt(m, p), LocalAt(ReconcilePath(m, path, f), p))
  {
    SideStays(m, path, f, n);
    forall p {:trigger LocalAt(m, p)} | DocName(p) == n ensures SameBut(LocalAt(m, p), LocalAt(ReconcilePath(m, path, f), p)) {
      IdleKeeps(m, path, f, p);
    }
  }

  /** Binding j alone has written the name's document: the sidecar is at the text
      it fetched, and no other file of the name has changed. */
  ghost predicate WrittenBy(m: Machine, m': Machine, touched: set<Path>, n: Name, path: Path, f: Fetch) {
    && SideOf(m'.state, n) == Sidecar(|f.log|, Head(f.log)) && |f.log| > SideOf(m.state, n).rev
    && forall p :: DocName(p) == n ==>
         (p in touched <==> p == path) && (p != path ==> LocalAt(m', p).file == LocalAt(m, p).file)
  }

  /** At most one binding of a name writes: the first that can. */
  lemma {:induction false} FirstWriterWrites(m: Machine, paths: seq<Path>, fs: seq<Fetch>, n: Name, j: nat)
    requires |fs| == |paths| && InOrder(fs) && OneListing(paths, fs) && FirstWriter(m, paths, fs, n, j)
    ensures WrittenBy(m, ReconcileAll(m, paths, fs), Touched(m, paths, fs), n, paths[j], fs[j])
    decreases |paths|
  {
    if j == 0 {
      HeadWrites(m, paths, fs, n);
    } else {
      NotYet(m, paths, fs, n, j);
      FirstWriterWrites(ReconcilePath(m, paths[0], fs[0]), paths[1..], fs[1..], n, j - 1);
      LaterWriter(m, paths, fs, n, paths[j], fs[j]);
    }
  }

  /** The first turn, when a later binding is the first writer. */
  ghost predicate Passes(m: Machine, m1: Machine, n: Name) {
    && SideOf(m1.state, n) == SideOf(m.state, n)
    && forall p {:trigger LocalAt(m, p)} :: DocName(p) == n ==> SameBut(LocalAt(m, p), LocalAt(m1, p))
  }

  lemma NotYet(m: Machine, paths: seq<Path>, fs: seq<Fetch>, n: Name, j: nat)
    requires |fs| == |paths| && InOrder(fs) && OneListing(paths, fs) && 0 < j && FirstWriter(m, paths, fs, n, j)
    ensures var m1 := ReconcilePath(m, paths[0], fs[0]);
            && FirstWriter(m1, paths[1..], fs[1..], n, j - 1) && Passes(m, m1, n)
    ensures !(DocName(paths[0]) == n && Writes(m, paths[0], fs[0]))
    ensures InOrder(fs[1..]) && OneListing(paths[1..], fs[1..])
  {
    assert fs[0] in fs && InOrder(fs[1..]);
    WritesExactly(m, paths[0], fs[0]);
    HeadIdles(m, paths[0], fs[0], n);
    FirstWriterShifts(m, ReconcilePath(m, paths[0], fs[0]), paths, fs, n, j);
  }

  lemma HeadWrites(m: Machine, paths: seq<Path>, fs: seq<Fetch>, n: Name)
    requires |fs| == |paths| && InOrder(fs) && OneListing(paths, fs) && FirstWriter(m, paths, fs, n, 0)
    ensures WrittenBy(m, ReconcileAll(m, paths, fs), Touched(m, paths, fs), n, paths[0], fs[0])
  {
    var m1 := ReconcilePath(m, paths[0], fs[0]);
    assert fs[0] in fs && InOrder(fs[1..]);
    WritesExactly(m, paths[0], fs[0]);
    ReconcileIsLocal(m, paths[0], fs[0], paths[0]);
    OnlyItsFile(m, paths[0], fs[0]);
    SettledNeverWrites(m1, paths, fs, n);
    IdlePassTouchesNothing(m1, paths[1..], fs[1..], n);
  }

  lemma LaterWriter(m: Machine, paths: seq<Path>, fs: seq<Fetch>, n: Name, path: Path, f: Fetch)
    requires |fs| == |paths| && paths != [] && !(DocName(paths[0]) == n && Writes(m, paths[0], fs[0]))
    requires var m1 := ReconcilePath(m, paths[0], fs[0]);
             && Passes(m, m1, n)
             && WrittenBy(m1, ReconcileAll(m1, paths[1..], fs[1..]), Touched(m1, paths[1..], fs[1..]), n, path, f)
    ensures WrittenBy(m, ReconcileAll(m, paths, fs), Touched(m, paths, fs), n, path, f)
  {
  }

  lemma OnlyItsFile(m: Machine, path: Path, f: Fetch)
    ensures forall p :: p != path ==> LocalAt(ReconcilePath(m, path, f), p).file == LocalAt(m, p).file
  {
  }

  /** Once the sidecar is at a revision fetched after the listing, the name is
      done for this pass. */
  lemma SettledNeverWrites(m1: Machine, paths: seq<Path>, fs: seq<Fetch>, n: Name)
    requires |fs| == |paths| && paths != [] && OneListing(paths, fs) && fs[0].InOrder() && DocName(paths[0]) == n
    requires SideOf(m1.state, n).rev == |fs[0].log|
    ensures AllIdle(m1, paths[1..], fs[1..], n)
  {
    forall j | 0 <= j < |paths[1..]| && DocName(paths[1..][j]) == n ensures !Writes(m1, paths[1..][j], fs[1..][j]) {
      assert fs[j + 1].listed == fs[0].listed;
    }
  }

  lemma FirstWriterShifts(m: Machine, m1: Machine, paths: seq<Path>, fs: seq<Fetch>, n: Name, j: nat)
    requires |fs| == |paths| && InOrder(fs) && 0 < j && FirstWriter(m, paths, fs, n, j)
    requires forall p {:trigger LocalAt(m, p)} :: DocName(p) == n ==> SameBut(LocalAt(m, p), LocalAt(m1, p))
    ensures FirstWriter(m1, paths[1..], fs[1..], n, j - 1)
  {
    forall i | 0 < i <= j && DocName(paths[i]) == n
      ensures WouldWrite(m1, paths[1..][i - 1], fs[1..][i - 1]) <==> WouldWrite(m, paths[i], fs[i])
    {
      assert fs[i] in fs;
      SameWrites(m, m1, paths[i], fs[i]);
      WritesExactly(m, paths[i], fs[i]);
      WritesExactly(m1, paths[i], fs[i]);
    }
    forall i | 0 <= i < j - 1 && DocName(paths[1..][i]) == n ensures !WouldWrite(m1, paths[1..][i], fs[1..][i]) {
      assert !WouldWrite(m, paths[i + 1], fs[i + 1]);
    }
  }

  /** `docs sync` PUTs the first binding's file on a newer revision than before,
      though the pass did not write that file. */
  ghost predicate StalePut(m: Machine, paths: seq<Path>, fs: seq<Fetch>, ss: seq<Sending>, k: nat)
    requires |fs| == |ss| == |paths| && k < |paths|
  {
    var n, m1 := DocName(paths[k]), ReconcileAll(m, paths, fs);
    && paths[k] in m.files && paths[k] !in Touched(m, paths, fs)
    && SideOf(m1.state, n).rev > SideOf(m.state, n).rev
    && PutRequest(n, m.files[paths[k]], SideOf(m1.state, n).rev) in Puts(m1, paths, ss, {})
  }

  /** Exactly when: the first binding's file passes the checks, the first of the
      name's bindings whose guards let it write is of another file, and the hub's
      text that one fetches differs from the first binding's file. */
  lemma StalePutExactly(m: Machine, paths: seq<Path>, fs: seq<Fetch>, ss: seq<Sending>, k: nat)
    requires |fs| == |ss| == |paths| && InOrder(fs) && OneListing(paths, fs) && FirstOfItsName(paths, k)
    ensures StalePut(m, paths, fs, ss, k) <==>
              && paths[k] in m.files && ss[k].allowed
              && exists j: nat :: FirstWriter(m, paths, fs, DocName(paths[k]), j)
                             && paths[j] != paths[k] && Head(fs[j].log) != Some(m.files[paths[k]])
  {
    var n := DocName(paths[k]);
    if j: nat :| FirstWriter(m, paths, fs, n, j) {
      OneFirstWriter(m, paths, fs, n, j);
      StaleBehind(m, paths, fs, ss, k, j);
    } else {
      NoWriterIdles(m, paths, fs, n);
      IdlePassTouchesNothing(m, paths, fs, n);
    }
  }

  lemma StaleBehind(m: Machine, paths: seq<Path>, fs: seq<Fetch>, ss: seq<Sending>, k: nat, j: nat)
    requires |fs| == |ss| == |paths| && InOrder(fs) && OneListing(paths, fs) && FirstOfItsName(paths, k)
    requires FirstWriter(m, paths, fs, DocName(paths[k]), j)
    ensures StalePut(m, paths, fs, ss, k) <==>
              paths[k] in m.files && ss[k].allowed && paths[j] != paths[k] && Head(fs[j].log) != Some(m.files[paths[k]])
  {
    var n, m1 := DocName(paths[k]), ReconcileAll(m, paths, fs);
    FirstWriterWrites(m, paths, fs, n, j);
    if paths[k] in m.files && paths[k] != paths[j] {
      assert LocalAt(m1, paths[k]).file == LocalAt(m, paths[k]).file;
      FirstBindingWins(m1, paths, ss, {}, k, PutRequest(n, m.files[paths[k]], SideOf(m1.state, n).rev));
    }
  }

  lemma OneFirstWriter(m: Machine, paths: seq<Path>, fs: seq<Fetch>, n: Name, j: nat)
    requires |fs| == |paths| && FirstWriter(m, paths, fs, n, j)
    ensures forall i: nat :: FirstWriter(m, paths, fs, n, i) ==> i == j
  {
  }

  lemma {:induction false} LeastWriter(m: Machine, paths: seq<Path>, fs: seq<Fetch>, n: Name, k: nat) returns (j: nat)
    requires |fs| == |paths| && k < |paths| && DocName(paths[k]) == n && WouldWrite(m, paths[k], fs[k])
    ensures FirstWriter(m, paths, fs, n, j)
    decreases k
  {
    j := k;
    if i :| 0 <= i < k && DocName(paths[i]) == n && WouldWrite(m, paths[i], fs[i]) { j := LeastWriter(m, paths, fs, n, i); }
  }

  lemma NoWriterIdles(m: Machine, paths: seq<Path>, fs: seq<Fetch>, n: Name)
    requires |fs| == |paths| && InOrder(fs) && forall j: nat :: !FirstWriter(m, paths, fs, n, j)
    ensures AllIdle(m, paths, fs, n)
  {
    forall j | 0 <= j < |paths| && DocName(paths[j]) == n ensures !Writes(m, paths[j], fs[j]) {
      assert fs[j] in fs;
      WritesExactly(m, paths[j], fs[j]);
      if WouldWrite(m, paths[j], fs[j]) { var i := LeastWriter(m, paths, fs, n, j); }
    }
  }

  lemma {:induction false} DistinctIndices(paths: seq<Path>, i: nat, j: nat)
    requires Distinct(paths) && i < |paths| && j < |paths| && DocName(paths[i]) == DocName(paths[j])
    ensures i == j
    decreases |paths|
  {
    if i > 0 && j > 0 {
      DistinctIndices(paths[1..], i - 1, j - 1);
    } else {
      if i > 0 { NamedLater(paths, i); }
      if j > 0 { NamedLater(paths, j); }
    }
  }

  lemma NamedLater(paths: seq<Path>, i: nat)
    requires 0 < i < |paths|
    ensures DocName(paths[i]) in Names(paths[1..])
  {
    assert paths[i] == paths[1..][i - 1];
  }

  /** With distinct names it never happens. */
  lemma DistinctNamesNeverStale(m: Machine, paths: seq<Path>, fs: seq<Fetch>, ss: seq<Sending>, k: nat)
    requires |fs| == |ss| == |paths| && InOrder(fs) && Distinct(paths) && k < |paths|
    ensures !StalePut(m, paths, fs, ss, k)
  {
    forall i, j | 0 <= i < |paths| && 0 <= j < |paths| && DocName(paths[i]) == DocName(paths[j]) ensures i == j {
      DistinctIndices(paths, i, j);
    }
    StalePutExactly(m, paths, fs, ss, k);
  }

  /** Two files of one name: the first edited since revision 1, the second
      still that revision. */
  function TwoFiles(p: Path, q: Path, local: Text, synced: Text): Machine {
    Machine(map[p := local, q := synced], {}, map[DocName(p) := Sidecar(1, Some(synced))], [])
  }

  /** The hub has moved to revision 2 and no longer keeps revision 1. */
  predicate MovedOn(f: Fetch, synced: Text, newer: Text) {
    f.listed == Some(2) && f.log == [Live(synced), Live(newer)] && !f.retained && f.works
  }

  lemma FirstFileConflicts(p: Path, q: Path, local: Text, synced: Text, newer: Text, f: Fetch)
    requires DocName(p) == DocName(q) && p != q && MovedOn(f, synced, newer)
    requires Fits(local) && Fits(newer) && local != "" && newer != "" && Normal(local) != Normal(newer) && local != synced
    ensures var m := TwoFiles(p, q, local, synced);
            ReconcilePath(m, p, f) == m.(previews := {p}) && !Writes(m, p, f)
  {
    var m := TwoFiles(p, q, local, synced);
    var labels := MarkersOf(f.localLabel, f.hubLabel);
    MergeTextWithoutBase(local, newer, labels);
    var merged := MergeOf(f.log, LocalAt(m, p), 2, f.retained, labels);
    MergesDiverged(m, p, f, merged);
    ReconcileIsLocal(m, p, f, p);
  }

  lemma SecondFileAdvances(p: Path, q: Path, local: Text, synced: Text, newer: Text, f: Fetch, previews: set<Path>)
    requires DocName(p) == DocName(q) && p != q && MovedOn(f, synced, newer)
    ensures var m := TwoFiles(p, q, local, synced).(previews := previews);
            && ReconcilePath(m, q, f) ==
               m.(files := map[p := local, q := newer], state := map[DocName(p) := Sidecar(2, Some(newer))])
            && Writes(m, q, f)
  {
    var m := TwoFiles(p, q, local, synced).(previews := previews);
    FastForwards(m, q, f);
    ReconcileIsLocal(m, q, f, q);
  }

  /** The whole pass over those two. */
  lemma SecondIsFirstWriter(p: Path, q: Path, local: Text, synced: Text, newer: Text, f: Fetch)
    requires DocName(p) == DocName(q) && p != q && MovedOn(f, synced, newer)
    requires Fits(local) && Fits(newer) && local != "" && newer != "" && Normal(local) != Normal(newer) && local != synced
    ensures var m := TwoFiles(p, q, local, synced);
            && FirstWriter(m, [p, q], [f, f], DocName(p), 1)
            && ReconcileAll(m, [p, q], [f, f]) ==
               Machine(map[p := local, q := newer], {p}, map[DocName(p) := Sidecar(2, Some(newer))], [])
  {
    var m := TwoFiles(p, q, local, synced);
    FirstFileConflicts(p, q, local, synced, newer, f);
    SecondFileAdvances(p, q, local, synced, newer, f, {p});
    SecondFileAdvances(p, q, local, synced, newer, f, {});
    assert m == m.(previews := {});
    TwoStepPass(m, p, q, f);
    WritesExactly(m, p, f);
    WritesExactly(m, q, f);
  }

  /** A run that loses an update: the sync leaves the first file alone,
      fast-forwards the second, and then replaces the hub's newer text by the
      first file, which the hub accepts. */
  lemma SharedNameLosesUpdate(p: Path, q: Path, local: Text, synced: Text, newer: Text, f: Fetch, s: Sending)
    requires DocName(p) == DocName(q) && p != q && MovedOn(f, synced, newer) && s.allowed
    requires Fits(local) && Fits(newer) && local != "" && newer != "" && Normal(local) != Normal(newer) && local != synced
    ensures var m := TwoFiles(p, q, local, synced);
            var m1 := ReconcileAll(m, [p, q], [f, f]);
            && StalePut(m, [p, q], [f, f], [s, s], 0)
            && m1.files == map[p := local, q := newer]
            && Put(f.log, LocalAt(m1, p), Answered).0 == [Live(synced), Live(newer), Live(local)]
  {
    SecondIsFirstWriter(p, q, local, synced, newer, f);
    HubAccepts(p, q, local, synced, newer, f);
    StalePutExactly(TwoFiles(p, q, local, synced), [p, q], [f, f], [s, s], 0);
  }

  lemma HubAccepts(p: Path, q: Path, local: Text, synced: Text, newer: Text, f: Fetch)
    requires MovedOn(f, synced, newer) && p != q
    ensures var m1 := Machine(map[p := local, q := newer], {p}, map[DocName(p) := Sidecar(2, Some(newer))], []);
            Put(f.log, LocalAt(m1, p), Answered).0 == [Live(synced), Live(newer), Live(local)]
  {
  }

  lemma TwoStepPass(m: Machine, p: Path, q: Path, f: Fetch)
    ensures ReconcileAll(m, [p, q], [f, f]) == ReconcilePath(ReconcilePath(m, p, f), q, f)
  {
    assert [p, q][1..] == [q] && [f, f][1..] == [f] && [q][1..] == [] && [f][1..] == [];
    assert ReconcileAll(ReconcilePath(m, p, f), [q], [f]) == ReconcilePath(ReconcilePath(m, p, f), q, f);
  }

  /** Two such paths. */
  lemma SharedNameExists()
    ensures DocName("a") == DocName("b/a")
  {
    assert "b/a"[..2] == "b/";
    assert BaseName("b/a") == BaseName("b/") + ['a'];
    assert BaseName("a") == BaseName("") + ['a'];
  }
}
