/** One machine with several bound files (internal/adapter/docs.go,
    cmd/aimem/docs.go): the loops over the bindings and the named commands,
    each against the one-document protocol of DocProtocol. */
module DocClient {
  import opened Options
  import opened TextLines
  import opened MergeProgram
  import opened DocProtocol

  type Name = string
  type Path = string

  /** The base name of a path without its extension. */
  function DocName(path: Path): Name { Stem(BaseName(path)) }

  function BaseName(path: Path): string
    decreases |path|
  {
    if path == "" then ""
    else if path[|path| - 1] == '/' then ""
    else BaseName(path[..|path| - 1]) + [path[|path| - 1]]
  }

  /** The text before the last dot, if there is a dot. */
  function Stem(s: string): string { if '.' in s then BeforeLastDot(s) else s }

  function BeforeLastDot(s: string): string
    requires '.' in s
    decreases |s|
  {
    if s[|s| - 1] == '.' then s[..|s| - 1] else BeforeLastDot(s[..|s| - 1])
  }

  datatype PutRequest = PutRequest(name: Name, body: Text, base: nat)

  /** The project's files, the previews beside them, the sidecar, and the PUTs
      sent so far. */
  datatype Machine = Machine(files: map<Path, Text>, previews: set<Path>, state: map<Name, Sidecar>, wire: seq<PutRequest>)

  function SideOf(state: map<Name, Sidecar>, name: Name): Sidecar {
    if name in state then state[name] else Sidecar(0, None)
  }

  /** What the protocol sees of one bound path. */
  function LocalAt(m: Machine, path: Path): Local {
    Local(if path in m.files then Some(m.files[path]) else None, SideOf(m.state, DocName(path)), path in m.previews)
  }

  /** The machine once the protocol has moved that path's part to l. */
  function Place(m: Machine, path: Path, l: Local): Machine {
    m.(files := if l.file.Some? then m.files[path := l.file.value] else m.files - {path},
       previews := if l.preview then m.previews + {path} else m.previews - {path},
       state := if l.side == SideOf(m.state, DocName(path)) then m.state else m.state[DocName(path) := l.side])
  }

  // ---- reconciling ----

  /** What a pass meets for one binding: the document's live revision when the
      hub's documents were listed, its log when it is fetched, whether the
      synced revision is still retained, the marker lines, and whether every
      read and write works. */
  datatype Fetch = Fetch(listed: Option<nat>, log: Log, retained: bool, localLabel: string, hubLabel: string, works: bool)
  {
    /** The document is fetched after it is listed, and revisions only grow. */
    predicate InOrder() { listed.Some? ==> listed.value <= |log| }
  }

  ghost function ReconcilePath(m: Machine, path: Path, f: Fetch): Machine {
    if f.listed.None? || f.listed.value <= SideOf(m.state, DocName(path)).rev || !f.works then m
    else Place(m, path, ReconcileDoc(f.log, LocalAt(m, path), |f.log|, f.retained, MarkersOf(f.localLabel, f.hubLabel), true))
  }

  ghost function ReconcileAll(m: Machine, paths: seq<Path>, fs: seq<Fetch>): Machine
    requires |fs| == |paths|
    decreases |paths|
  {
    if paths == [] then m else ReconcileAll(ReconcilePath(m, paths[0], fs[0]), paths[1..], fs[1..])
  }

  // ---- publishing ----

  datatype PushResult = Duplicate(name: Name) | NotAllowed(name: Name) | PutFailed(name: Name) | Pushed(name: Name, rev: nat)

  /** The verdict of the local checks on a file, and the revision the hub's
      answer to its PUT would name, if it answers with success. */
  datatype Sending = Sending(allowed: bool, answer: Option<nat>)

  function PublishPath(m: Machine, path: Path, s: Sending): (Machine, seq<PushResult>) {
    var l, name := LocalAt(m, path), DocName(path);
    if l.file.None? then (m, [])
    else if !s.allowed then (m, [NotAllowed(name)])
    else if LocalUnchanged(l) then (m, [])
    else
      var sent := m.(wire := m.wire + [PutRequest(name, l.file.value, l.side.rev)]);
      if s.answer.None? then (sent, [PutFailed(name)])
      else (Place(sent, path, l.(side := Sidecar(s.answer.value, l.file))), [Pushed(name, s.answer.value)])
  }

  /** The first binding of a name wins; a later one is refused. */
  function PublishAll(m: Machine, paths: seq<Path>, ss: seq<Sending>, seen: set<Name>): (Machine, seq<PushResult>)
    requires |ss| == |paths|
    decreases |paths|
  {
    if paths == [] then (m, [])
    else if DocName(paths[0]) in seen then
      var (m', out) := PublishAll(m, paths[1..], ss[1..], seen);
      (m', [Duplicate(DocName(paths[0]))] + out)
    else
      var (m1, one) := PublishPath(m, paths[0], ss[0]);
      var (m', out) := PublishAll(m1, paths[1..], ss[1..], seen + {DocName(paths[0])});
      (m', one + out)
  }

  lemma PublishAllFirst(m: Machine, paths: seq<Path>, ss: seq<Sending>, seen: set<Name>, k: nat)
    requires |ss| == |paths| && k < |paths|
    ensures var name := DocName(paths[k]);
            PublishAll(m, paths[k..], ss[k..], seen) ==
            if name in seen then
              var (m', out) := PublishAll(m, paths[k + 1..], ss[k + 1..], seen);
              (m', [Duplicate(name)] + out)
            else
              var (m1, one) := PublishPath(m, paths[k], ss[k]);
              var (m', out) := PublishAll(m1, paths[k + 1..], ss[k + 1..], seen + {name});
              (m', one + out)
  {
    assert paths[k..][0] == paths[k] && paths[k..][1..] == paths[k + 1..];
    assert ss[k..][0] == ss[k] && ss[k..][1..] == ss[k + 1..];
  }

  ghost function Joined(out: seq<PushResult>, rest: (Machine, seq<PushResult>)): (Machine, seq<PushResult>) {
    (rest.0, out + rest.1)
  }

  // ---- the program ----

  /** The current revision, as the hub's GET answers. */
  function Head(log: Log): Option<Text> { if LiveAt(log, |log|) then Some(log[|log| - 1].body) else None }

  /** The binding's document is live, listed newer than the sidecar, and its
      file can be read: the loop gets as far as comparing. */
  predicate Compares(m: Machine, path: Path, f: Fetch) {
    && f.listed.Some? && f.listed.value > SideOf(m.state, DocName(path)).rev && f.InOrder() && f.works
    && path in m.files && Head(f.log).Some?
  }

  function Rewritten(m: Machine, path: Path, f: Fetch, text: Text): Machine
    requires Head(f.log).Some?
  {
    m.(files := m.files[path := text], state := m.state[DocName(path) := Sidecar(|f.log|, Head(f.log))])
  }

  lemma FastForwards(m: Machine, path: Path, f: Fetch)
    requires Compares(m, path, f) && LocalUnchanged(LocalAt(m, path))
    ensures ReconcilePath(m, path, f) == Rewritten(m, path, f, Head(f.log).value)
  {
    var l, cur := LocalAt(m, path), Head(f.log).value;
    assert ReconcilePath(m, path, f) == Place(m, path, Written(l, cur, |f.log|, cur, true));
    assert m.previews == if l.preview then m.previews + {path} else m.previews - {path};
  }

  /** What the loop does with a merge's answer. */
  function Reconciled(m: Machine, path: Path, f: Fetch, merged: TextOutcome): Machine
    requires Head(f.log).Some?
  {
    match merged
    case TextTooLarge => m
    case MergedInto(text, conflicts) =>
      if conflicts == 0 then Rewritten(m, path, f, text) else m.(previews := m.previews + {path})
  }

  lemma PlacesMerge(m: Machine, path: Path, f: Fetch, merged: TextOutcome)
    requires Compares(m, path, f) && !LocalUnchanged(LocalAt(m, path))
    ensures Place(m, path, ReconcileWith(f.log, LocalAt(m, path), |f.log|, merged, true)) == Reconciled(m, path, f, merged)
  {
    assert m.previews == if path in m.previews then m.previews + {path} else m.previews - {path};
    assert m.files == m.files[path := m.files[path]];
  }

  lemma MergesDiverged(m: Machine, path: Path, f: Fetch, merged: TextOutcome)
    requires Compares(m, path, f) && !LocalUnchanged(LocalAt(m, path))
    requires merged == MergeOf(f.log, LocalAt(m, path), |f.log|, f.retained, MarkersOf(f.localLabel, f.hubLabel))
    ensures ReconcilePath(m, path, f) == Reconciled(m, path, f, merged)
  {
    PlacesMerge(m, path, f, merged);
  }

  /** A newer revision reaches a file: an unchanged one is replaced by it, an
      edited one merged with it. */
  ghost predicate Updates(m: Machine, path: Path, f: Fetch, m': Machine, merged: TextOutcome)
    requires path in m.files && Head(f.log).Some?
  {
    var st, cur := SideOf(m.state, DocName(path)), Head(f.log).value;
    if st.hash == Some(m.files[path]) then m' == Rewritten(m, path, f, cur)
    else
      && merged == MergeTextSpec(SyncedText(f.log, st.rev, f.retained), m.files[path], cur, MarkersOf(f.localLabel, f.hubLabel))
      && m' == Reconciled(m, path, f, merged)
  }

  /** The protocol's merge, in the texts at hand. */
  lemma MergeOfTexts(m: Machine, path: Path, f: Fetch)
    requires path in m.files && Head(f.log).Some?
    ensures MergeOf(f.log, LocalAt(m, path), |f.log|, f.retained, MarkersOf(f.localLabel, f.hubLabel)) ==
            MergeTextSpec(SyncedText(f.log, SideOf(m.state, DocName(path)).rev, f.retained), m.files[path],
                          Head(f.log).value, MarkersOf(f.localLabel, f.hubLabel))
  {
  }

  lemma UpdateIsReconcile(m: Machine, path: Path, f: Fetch, m': Machine, merged: TextOutcome)
    requires Compares(m, path, f) && Updates(m, path, f, m', merged)
    ensures m' == ReconcilePath(m, path, f)
  {
    if LocalUnchanged(LocalAt(m, path)) {
      FastForwards(m, path, f);
    } else {
      MergeOfTexts(m, path, f);
      MergesDiverged(m, path, f, merged);
    }
  }

  ghost function MergeFile(m: Machine, path: Path, f: Fetch): Machine {
    Place(m, path, MergeDoc(f.log, LocalAt(m, path), |f.log|, f.retained, MarkersOf(f.localLabel, f.hubLabel), true))
  }

  /** What `docs merge` does with it. */
  function MergedFile(m: Machine, path: Path, f: Fetch, merged: TextOutcome): Machine
    requires Head(f.log).Some?
  {
    match merged
    case TextTooLarge => m
    case MergedInto(text, conflicts) =>
      m.(files := m.files[path := text], previews := m.previews - {path},
         state := m.state[DocName(path) := Sidecar(|f.log|, Some(if conflicts == 0 then Head(f.log).value else text))])
  }

  lemma PlacesMergedFile(m: Machine, path: Path, f: Fetch, merged: TextOutcome)
    requires Merges(f.log, LocalAt(m, path), |f.log|)
    ensures Place(m, path, MergeWith(f.log, LocalAt(m, path), |f.log|, merged, true)) == MergedFile(m, path, f, merged)
  {
    assert m.previews == if path in m.previews then m.previews + {path} else m.previews - {path};
    assert m.files == m.files[path := m.files[path]];
  }

  lemma MergesFile(m: Machine, path: Path, f: Fetch, merged: TextOutcome)
    requires Merges(f.log, LocalAt(m, path), |f.log|)
    requires merged == MergeOf(f.log, LocalAt(m, path), |f.log|, f.retained, MarkersOf(f.localLabel, f.hubLabel))
    ensures MergeFile(m, path, f) == MergedFile(m, path, f, merged)
  {
    PlacesMergedFile(m, path, f, merged);
  }

  /** A file that already is the hub's text is recorded as synced. */
  function Matched(m: Machine, path: Path, f: Fetch): Machine {
    if path in m.files && Head(f.log) == Some(m.files[path])
    then m.(state := m.state[DocName(path) := Sidecar(|f.log|, Head(f.log))]) else m
  }

  lemma PlacesMatch(m: Machine, path: Path, f: Fetch, merge: TextOutcome)
    requires !Merges(f.log, LocalAt(m, path), |f.log|)
    ensures Place(m, path, MergeWith(f.log, LocalAt(m, path), |f.log|, merge, true)) == Matched(m, path, f)
  {
    assert m.previews == if path in m.previews then m.previews + {path} else m.previews - {path};
    assert m.files == if path in m.files then m.files[path := m.files[path]] else m.files - {path};
  }

  /** Without anything to merge, at most the sidecar is brought up to date. */
  lemma MergesNothing(m: Machine, path: Path, f: Fetch)
    requires !Merges(f.log, LocalAt(m, path), |f.log|)
    ensures MergeFile(m, path, f) == Matched(m, path, f)
  {
    var l := LocalAt(m, path);
    if l.file.Some? && LiveAt(f.log, |f.log|) {
      PlacesMatch(m, path, f, MergeOf(f.log, l, |f.log|, f.retained, MarkersOf(f.localLabel, f.hubLabel)));
    } else {
      PlacesMatch(m, path, f, TextTooLarge);
    }
  }

  lemma MergesTexts(m: Machine, path: Path, f: Fetch, merged: TextOutcome)
    requires Merges(f.log, LocalAt(m, path), |f.log|)
    requires merged == MergeTextSpec(SyncedText(f.log, SideOf(m.state, DocName(path)).rev, f.retained), m.files[path],
                                     Head(f.log).value, MarkersOf(f.localLabel, f.hubLabel))
    ensures MergeFile(m, path, f) == MergedFile(m, path, f, merged)
  {
    MergeOfTexts(m, path, f);
    MergesFile(m, path, f, merged);
  }

  lemma LeavesAlone(m: Machine, path: Path, f: Fetch)
    requires f.InOrder() && !Compares(m, path, f)
    ensures ReconcilePath(m, path, f) == m
  {
    assert m.previews == if path in m.previews then m.previews + {path} else m.previews - {path};
    assert m.files == if path in m.files then m.files[path := m.files[path]] else m.files - {path};
  }

  class Client {
    var files: map<Path, Text>
    var previews: set<Path>
    /** The sidecar as it is on disk. */
    var sidecar: map<Name, Sidecar>
    var wire: seq<PutRequest>

    constructor (files: map<Path, Text>)
      ensures Now() == Machine(files, {}, map[], [])
    {
      this.files := files;
      previews, sidecar, wire := {}, map[], [];
    }

    ghost function Now(): Machine
      reads this
    {
      Machine(files, previews, sidecar, wire)
    }

    /** `DocSyncRecord`. */
    method Record(name: Name, rev: nat, hash: Text)
      modifies this`sidecar
      ensures sidecar == old(sidecar)[name := Sidecar(rev, Some(hash))]
    {
      sidecar := sidecar[name := Sidecar(rev, Some(hash))];
    }

    /** `ReconcileDocsIn`: the sidecar is read once, changed in memory and
        saved at the end. */
    method ReconcileDocsIn(paths: seq<Path>, fs: seq<Fetch>)
      requires |fs| == |paths| && forall k :: 0 <= k < |fs| ==> fs[k].InOrder()
      modifies this
      ensures Now() == ReconcileAll(old(Now()), paths, fs)
    {
      var state := sidecar;
      var changed := false;
      assert paths[0..] == paths && fs[0..] == fs;
      for k := 0 to |paths|
        invariant sidecar == old(sidecar) && wire == old(wire) && (!changed ==> state == sidecar)
        invariant ReconcileAll(Machine(files, previews, state, wire), paths[k..], fs[k..]) == ReconcileAll(old(Now()), paths, fs)
      {
        var path, f := paths[k], fs[k];
        assert paths[k..][0] == path && fs[k..][0] == f && paths[k..][1..] == paths[k + 1..] && fs[k..][1..] == fs[k + 1..];
        var wrote;
        state, wrote := ReconcileFile(path, f, state);
        changed := changed || wrote;
      }
      if changed { sidecar := state; }
    }

    /** One turn of the loop. */
    method ReconcileFile(path: Path, f: Fetch, state: map<Name, Sidecar>) returns (state': map<Name, Sidecar>, changed: bool)
      requires f.InOrder()
      modifies this`files, this`previews
      ensures Machine(files, previews, state', wire) == ReconcilePath(Machine(old(files), old(previews), state, wire), path, f)
      ensures !changed ==> state' == state
    {
      state', changed := state, false;
      ghost var m := Machine(files, previews, state, wire);
      if !Compares(m, path, f) { LeavesAlone(m, path, f); }
      var name := DocName(path);
      if f.listed.None? { return; }
      var st := SideOf(state, name);
      if f.listed.value <= st.rev { return; }
      if path !in files || !f.works { return; }
      var cur := Head(f.log);
      if cur.None? { return; }
      ghost var merged;
      state', changed, merged := UpdateFile(path, f, state, cur.value);
      UpdateIsReconcile(m, path, f, Machine(files, previews, state', wire), merged);
    }

    /** The file is bound and readable, and the hub's text newer. */
    method UpdateFile(path: Path, f: Fetch, state: map<Name, Sidecar>, cur: Text)
      returns (state': map<Name, Sidecar>, changed: bool, ghost merged: TextOutcome)
      requires path in files && Head(f.log) == Some(cur)
      modifies this`files, this`previews
      ensures Updates(Machine(old(files), old(previews), state, wire), path, f, Machine(files, previews, state', wire), merged)
      ensures !changed ==> state' == state
    {
      state', changed, merged := state, false, TextTooLarge;
      var name, local := DocName(path), files[path];
      var st := SideOf(state, name);
      if st.hash == Some(local) {
        files := files[path := cur];
        state', changed := state[name := Sidecar(|f.log|, Some(cur))], true;
        return;
      }
      state', changed, merged := MergeDiverged(path, f, state, cur);
    }

    /** The file was edited since the last sync. */
    method MergeDiverged(path: Path, f: Fetch, state: map<Name, Sidecar>, cur: Text)
      returns (state': map<Name, Sidecar>, changed: bool, merged: TextOutcome)
      requires path in files && Head(f.log) == Some(cur)
      modifies this`files, this`previews
      ensures merged == MergeTextSpec(SyncedText(f.log, SideOf(state, DocName(path)).rev, f.retained), old(files)[path], cur,
                                      MarkersOf(f.localLabel, f.hubLabel))
      ensures Machine(files, previews, state', wire) == Reconciled(Machine(old(files), old(previews), state, wire), path, f, merged)
      ensures !changed ==> state' == state
    {
      state', changed := state, false;
      var name := DocName(path);
      var base := SyncedText(f.log, SideOf(state, name).rev, f.retained);
      merged := MergeText(base, files[path], cur, f.localLabel, f.hubLabel);
      if merged.TextTooLarge? { return; }
      if merged.conflicts == 0 {
        files := files[path := merged.text];
        state', changed := state[name := Sidecar(|f.log|, Some(cur))], true;
      } else {
        previews := previews + {path};
      }
    }

    /** `PublishDocs`. */
    method PublishDocs(paths: seq<Path>, ss: seq<Sending>) returns (out: seq<PushResult>)
      requires |ss| == |paths|
      modifies this`sidecar, this`wire
      ensures (Now(), out) == PublishAll(old(Now()), paths, ss, {})
    {
      var state := sidecar;
      var changed := false;
      var seen: set<Name> := {};
      out := [];
      ghost var all := PublishAll(Now(), paths, ss, {});
      assert paths[0..] == paths && ss[0..] == ss && [] + all.1 == all.1;
      for k := 0 to |paths|
        invariant sidecar == old(sidecar) && (!changed ==> state == sidecar)
        invariant Joined(out, PublishAll(Machine(files, previews, state, wire), paths[k..], ss[k..], seen)) == all
      {
        var wrote;
        state, seen, out, wrote := PublishTurn(paths, ss, k, state, seen, out);
        changed := changed || wrote;
      }
      assert out + [] == out;
      if changed { sidecar := state; }
    }

    /** One turn of the loop. */
    method PublishTurn(paths: seq<Path>, ss: seq<Sending>, k: nat, state: map<Name, Sidecar>, seen: set<Name>, out: seq<PushResult>)
      returns (state': map<Name, Sidecar>, seen': set<Name>, out': seq<PushResult>, changed: bool)
      requires |ss| == |paths| && k < |paths|
      modifies this`wire
      ensures !changed ==> state' == state
      ensures Joined(out', PublishAll(Machine(files, previews, state', wire), paths[k + 1..], ss[k + 1..], seen')) ==
              Joined(out, PublishAll(Machine(files, previews, state, old(wire)), paths[k..], ss[k..], seen))
    {
      PublishAllFirst(Machine(files, previews, state, wire), paths, ss, seen, k);
      var name := DocName(paths[k]);
      var one;
      if name in seen {
        state', seen', one, changed := state, seen, [Duplicate(name)], false;
      } else {
        seen' := seen + {name};
        state', one, changed := PublishFile(paths[k], ss[k], state);
      }
      out' := out + one;
      ghost var rest := PublishAll(Machine(files, previews, state', wire), paths[k + 1..], ss[k + 1..], seen');
      assert out + one + rest.1 == out + (one + rest.1);
    }

    method PublishFile(path: Path, s: Sending, state: map<Name, Sidecar>)
      returns (state': map<Name, Sidecar>, out: seq<PushResult>, changed: bool)
      modifies this`wire
      ensures (Machine(files, previews, state', wire), out) == PublishPath(Machine(files, previews, state, old(wire)), path, s)
      ensures !changed ==> state' == state
    {
      state', out, changed := state, [], false;
      var name := DocName(path);
      if path !in files { return; }
      var body := files[path];
      if !s.allowed { return state, [NotAllowed(name)], false; }
      var st := SideOf(state, name);
      if st.hash == Some(body) { return; }
      wire := wire + [PutRequest(name, body, st.rev)];
      if s.answer.None? { return state, [PutFailed(name)], false; }
      state' := state[name := Sidecar(s.answer.value, Some(body))];
      assert files == files[path := body];
      assert previews == if path in previews then previews + {path} else previews - {path};
      out, changed := [Pushed(name, s.answer.value)], true;
    }

    /** `docs push NAME`. */
    method Push(path: Path, answer: Option<nat>)
      modifies this`sidecar, this`wire
      ensures var l := old(LocalAt(Now(), path));
              if l.file.None? then Now() == old(Now())
              else
                && wire == old(wire) + [PutRequest(DocName(path), l.file.value, l.side.rev)]
                && sidecar == if answer.Some? then old(sidecar)[DocName(path) := Sidecar(answer.value, l.file)] else old(sidecar)
    {
      if path !in files { return; }
      var body := files[path];
      var name := DocName(path);
      wire := wire + [PutRequest(name, body, SideOf(sidecar, name).rev)];
      if answer.Some? { Record(name, answer.value, body); }
    }

    /** `docs pull NAME` without --force. */
    method Pull(path: Path, log: Log)
      modifies this
      ensures Now() == Place(old(Now()), path, PullDoc(log, old(LocalAt(Now(), path)), |log|, true))
    {
      var cur := Head(log);
      if cur.None? { return; }
      var name := DocName(path);
      if path in files && SideOf(sidecar, name).hash != Some(files[path]) && files[path] != cur.value { return; }
      files := files[path := cur.value];
      Record(name, |log|, cur.value);
    }

    /** `docs merge NAME`. */
    method Merge(path: Path, f: Fetch)
      modifies this
      ensures Now() == MergeFile(old(Now()), path, f)
    {
      ghost var m := Now();
      var merging := HasToMerge(path, f);
      if merging { MergeWithHub(path, f); } else { MergesNothing(m, path, f); }
    }

    method MergeWithHub(path: Path, f: Fetch)
      requires Merges(f.log, LocalAt(Now(), path), |f.log|)
      modifies this
      ensures Now() == MergeFile(old(Now()), path, f)
    {
      ghost var m := Now();
      ghost var merged := MergeInto(path, f);
      MergesTexts(m, path, f, merged);
    }

    /** The early returns; a file that already matches is recorded as synced. */
    method HasToMerge(path: Path, f: Fetch) returns (merging: bool)
      modifies this`sidecar
      ensures merging <==> Merges(f.log, old(LocalAt(Now(), path)), |f.log|)
      ensures Now() == if merging then old(Now()) else Matched(old(Now()), path, f)
    {
      if path !in files { return false; }
      var local := files[path];
      var cur := Head(f.log);
      if cur.None? { return false; }
      var name := DocName(path);
      if local == cur.value {
        Record(name, |f.log|, local);
        return false;
      }
      return SideOf(sidecar, name).rev != |f.log|;
    }

    /** The file and the hub's text differ, and the sidecar is at another
        revision. */
    method MergeInto(path: Path, f: Fetch) returns (merged: TextOutcome)
      requires path in files && Head(f.log).Some?
      modifies this
      ensures merged == MergeTextSpec(SyncedText(f.log, SideOf(old(Now()).state, DocName(path)).rev, f.retained), old(Now()).files[path],
                                      Head(f.log).value, MarkersOf(f.localLabel, f.hubLabel))
      ensures Now() == MergedFile(old(Now()), path, f, merged)
    {
      var name, cur := DocName(path), Head(f.log).value;
      var base := SyncedText(f.log, SideOf(sidecar, name).rev, f.retained);
      merged := MergeText(base, files[path], cur, f.localLabel, f.hubLabel);
      if merged.TextTooLarge? { return; }
      files := files[path := merged.text];
      previews := previews - {path};
      Record(name, |f.log|, if merged.conflicts == 0 then cur else merged.text);
    }
  }
}
