/** One shared document: the hub's revision log and one machine's file and
    sidecar. Each function is one command of internal/adapter/docs.go or
    cmd/aimem/docs.go on that document.

    A content hash is modelled by the hashed text itself, so equal hashes mean
    equal texts. */
module DocProtocol {
  import opened Options
  import opened TextLines
  import opened Merge3
  import opened MergeProgram

  /** Revision r of the document is log[r - 1]. */
  datatype Revision = Live(body: Text) | Tombstone

  type Log = seq<Revision>

  /** The last revision and content hash this machine pushed or pulled. */
  datatype Sidecar = Sidecar(rev: nat, hash: Option<Text>)

  /** One machine's bound file, its sidecar, and whether a conflict preview
      lies beside the file. */
  datatype Local = Local(file: Option<Text>, side: Sidecar, preview: bool)

  /** What became of a PUT: answered, applied with the answer lost, or never
      received by the hub. */
  datatype Reply = Answered | ReplyLost | NotReceived

  predicate LiveAt(log: Log, rev: nat) { 1 <= rev <= |log| && log[rev - 1].Live? }

  predicate LocalUnchanged(l: Local) { l.file.Some? && l.side.hash == l.file }

  /** The CAS write: accepted exactly when the base revision is current. */
  function Put(log: Log, l: Local, reply: Reply): (Log, Local)
    requires l.file.Some?
  {
    if reply == NotReceived || l.side.rev != |log| then (log, l)
    else
      (log + [Live(l.file.value)],
       if reply == ReplyLost then l else l.(side := Sidecar(|log| + 1, l.file)))
  }

  /** `PublishDocs` for one file; allowed is the verdict of the local checks
      (link, size, secret scan). */
  function PublishDoc(log: Log, l: Local, allowed: bool, reply: Reply): (Log, Local) {
    if l.file.None? || !allowed || LocalUnchanged(l) then (log, l) else Put(log, l, reply)
  }

  /** `docs push NAME`: no comparison with the sidecar hash. */
  function PushDoc(log: Log, l: Local, reply: Reply): (Log, Local) {
    if l.file.None? then (log, l) else Put(log, l, reply)
  }

  /** The merge base: the last synced revision when the hub still returns it. */
  function SyncedText(log: Log, rev: nat, retained: bool): Text {
    if retained && LiveAt(log, rev) then log[rev - 1].body else ""
  }

  /** A write of the file, then of the sidecar; saved is false when the
      process stops in between. */
  function Written(l: Local, text: Text, rev: nat, hash: Text, saved: bool): Local {
    l.(file := Some(text), side := if saved then Sidecar(rev, Some(hash)) else l.side)
  }

  /** The three-way merge a machine runs against revision seen. */
  ghost function MergeOf(log: Log, l: Local, seen: nat, retained: bool, m: Markers<string>): TextOutcome
    requires l.file.Some? && LiveAt(log, seen)
  {
    MergeTextSpec(SyncedText(log, l.side.rev, retained), l.file.value, log[seen - 1].body, m)
  }

  /** `ReconcileDocsIn` for one file against fetched revision seen, given what
      the merge answers if it is asked. */
  function ReconcileWith(log: Log, l: Local, seen: nat, merge: TextOutcome, saved: bool): Local {
    if !LiveAt(log, seen) || seen <= l.side.rev || l.file.None? then l
    else
      var cur := log[seen - 1].body;
      if LocalUnchanged(l) then Written(l, cur, seen, cur, saved)
      else
        match merge
        case TextTooLarge => l
        case MergedInto(text, conflicts) =>
          if conflicts == 0 then Written(l, text, seen, cur, saved) else l.(preview := true)
  }

  ghost function ReconcileDoc(
    log: Log, l: Local, seen: nat, retained: bool, m: Markers<string>, saved: bool): Local
  {
    if l.file.Some? && LiveAt(log, seen) then ReconcileWith(log, l, seen, MergeOf(log, l, seen, retained, m), saved)
    else l
  }

  /** `docs pull NAME` without --force. */
  function PullDoc(log: Log, l: Local, seen: nat, saved: bool): Local {
    if !LiveAt(log, seen) then l
    else
      var cur := log[seen - 1].body;
      if l.file.Some? && !LocalUnchanged(l) && l.file.value != cur then l
      else Written(l, cur, seen, cur, saved)
  }

  /** Whether `docs merge` gets as far as merging. */
  predicate Merges(log: Log, l: Local, seen: nat) {
    && l.file.Some? && LiveAt(log, seen)
    && l.file.value != log[seen - 1].body && l.side.rev != seen
  }

  /** `docs merge NAME`, given what the merge answers if it is asked. */
  function MergeWith(log: Log, l: Local, seen: nat, merge: TextOutcome, saved: bool): Local {
    if l.file.None? || !LiveAt(log, seen) then l
    else
      var cur := log[seen - 1].body;
      if l.file.value == cur then Written(l, cur, seen, cur, saved)
      else if l.side.rev == seen then l
      else
        match merge
        case TextTooLarge => l
        case MergedInto(text, conflicts) =>
          Written(l, text, seen, if conflicts == 0 then cur else text, saved).(preview := false)
  }

  ghost function MergeDoc(
    log: Log, l: Local, seen: nat, retained: bool, m: Markers<string>, saved: bool): Local
  {
    if l.file.Some? && LiveAt(log, seen) then MergeWith(log, l, seen, MergeOf(log, l, seen, retained, m), saved)
    else l
  }

  /** Whether this `docs merge` leaves conflict markers in the file. */
  ghost predicate LeavesMarkers(log: Log, l: Local, seen: nat, retained: bool, m: Markers<string>) {
    && Merges(log, l, seen)
    && var r := MergeOf(log, l, seen, retained, m);
       r.MergedInto? && r.conflicts > 0
  }
}
