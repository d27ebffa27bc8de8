/** The local spool (internal/adapter/spool.go): records wait in one file,
    replaying processes claim it by rename, and claims left by dead processes
    are swept back. Any number of processes interleave and may die at any step.

    Atomic steps: one append, one rename, one read of a claim, one sweep of one
    claim, one post to the service. */
module Spool {
  type Pid = nat
  type Key = string

  /** A redacted record; the service deduplicates by its idempotency key. */
  datatype Rec = Rec(key: Key, body: string)

  /** What the service says to a post; Unreachable covers any 5xx answer. */
  datatype Reply = Ok | Rejected | Unreachable

  datatype Proc =
    | Sweeping(todo: set<Pid>)
    | Claimed
    | Draining(data: seq<Rec>, next: nat)

  /** claims[p] is the file spool.replay-p; born orders claims by age. spooled
      and refused are history: every record ever spooled, and every spooled
      record the service has rejected as invalid. */
  datatype World = World(
    spool: seq<Rec>, claims: map<Pid, seq<Rec>>, born: map<Pid, nat>, clock: nat,
    procs: map<Pid, Proc>, journal: seq<Rec>, spooled: set<Rec>, refused: set<Rec>)

  datatype Act =
    | Submit(rec: Rec, reply: Reply)
    | Begin(p: Pid)
    | Sweep(p: Pid, victim: Pid)
    | Rename(p: Pid)
    | Read(p: Pid)
    | Post(p: Pid, reply: Reply)
    | Finish(p: Pid)
    | Die(p: Pid)

  predicate InJournal(journal: seq<Rec>, key: Key) { exists i :: 0 <= i < |journal| && journal[i].key == key }

  /** The service stores a record once per key. */
  function Store(journal: seq<Rec>, rec: Rec): seq<Rec> {
    if InJournal(journal, rec.key) then journal else journal + [rec]
  }

  predicate Possible(w: World, a: Act) {
    match a
    case Submit(_, _) => true
    case Begin(p) => p !in w.procs
    case Sweep(p, victim) => p in w.procs && w.procs[p].Sweeping? && victim in w.procs[p].todo
    case Rename(p) => p in w.procs && w.procs[p] == Sweeping({})
    case Read(p) => p in w.procs && w.procs[p].Claimed?
    case Post(p, _) => p in w.procs && w.procs[p].Draining? && w.procs[p].next < |w.procs[p].data|
    case Finish(p) => p in w.procs && w.procs[p].Draining? && w.procs[p].next >= |w.procs[p].data|
    case Die(p) => p in w.procs
  }

  function Step(w: World, a: Act): World
    requires Possible(w, a)
  {
    match a
    case Submit(rec, reply) =>
      (match reply
       case Ok => w.(journal := Store(w.journal, rec))
       case Rejected => w
       case Unreachable => w.(spool := w.spool + [rec], spooled := w.spooled + {rec}))
    case Begin(p) => w.(procs := w.procs[p := Sweeping(w.claims.Keys)])
    case Sweep(p, victim) =>
      var w' := w.(procs := w.procs[p := Sweeping(w.procs[p].todo - {victim})]);
      if victim in w.claims then w'.(spool := w.spool + w.claims[victim], claims := w.claims - {victim}) else w'
    case Rename(p) =>
      if w.spool == [] then w.(procs := w.procs - {p})
      else w.(claims := w.claims[p := w.spool], born := w.born[p := w.clock], clock := w.clock + 1,
              spool := [], procs := w.procs[p := Claimed])
    case Read(p) =>
      if p in w.claims then w.(procs := w.procs[p := Draining(w.claims[p], 0)])
      else w.(procs := w.procs - {p})
    case Post(p, reply) =>
      var d := w.procs[p];
      var rec := d.data[d.next];
      var w' := w.(procs := w.procs[p := Draining(d.data, d.next + 1)]);
      (match reply
       case Ok => w'.(journal := Store(w.journal, rec))
       case Rejected => w'.(refused := w.refused + {rec})
       case Unreachable => w'.(spool := w.spool + [rec]))
    case Finish(p) => w.(claims := w.claims - {p}, procs := w.procs - {p})
    case Die(p) => w.(procs := w.procs - {p})
  }

  ghost predicate Reaches(w: World, acts: seq<Act>, w': World)
    decreases |acts|
  {
    if acts == [] then w == w' else Possible(w, acts[0]) && Reaches(Step(w, acts[0]), acts[1..], w')
  }

  lemma {:induction false} Extends(w: World, acts: seq<Act>, w1: World, a: Act)
    requires Reaches(w, acts, w1) && Possible(w1, a)
    ensures Reaches(w, acts + [a], Step(w1, a))
    decreases |acts|
  {
    var more := acts + [a];
    if acts == [] {
      assert more[1..] == [];
    } else {
      assert more[1..] == acts[1..] + [a];
      Extends(Step(w, acts[0]), acts[1..], w1, a);
    }
  }

  predicate Initial(w: World) {
    w.spool == [] && w.claims == map[] && w.born == map[] && w.procs == map[] && w.journal == [] && w.spooled == {} && w.refused == {}
  }

  // ---- where a record can be ----

  predicate Settled(w: World, rec: Rec) { InJournal(w.journal, rec.key) || rec in w.refused }

  ghost predicate InClaim(w: World, q: Pid, rec: Rec) { q in w.claims && rec in w.claims[q] }

  /** In the spool, in a claim file, accepted by the service or rejected. */
  ghost predicate Safe(w: World, rec: Rec) { Settled(w, rec) || rec in w.spool || exists q :: InClaim(w, q, rec) }

  predicate Younger(w: World, q: Pid, age: int) { q in w.born && w.born[q] > age }

  /** Safe without any claim of the given age or older: a record a process has
      dealt with can only have moved on to the spool and later claims. */
  ghost predicate SafeBeyond(w: World, age: int, rec: Rec) {
    Settled(w, rec) || rec in w.spool || exists q :: InClaim(w, q, rec) && Younger(w, q, age)
  }

  ghost predicate ProcSound(w: World, p: Pid) {
    p in w.procs ==>
      match w.procs[p]
      case Sweeping(todo) => p in w.claims ==> p in todo
      case Claimed => p in w.born
      case Draining(data, next) =>
        && p in w.born
        && (p in w.claims ==> w.claims[p] == data)
        && forall j :: 0 <= j < next && j < |data| ==> SafeBeyond(w, w.born[p], data[j])
  }

  ghost predicate Inv(w: World) {
    && (forall q :: q in w.claims ==> q in w.born)
    && (forall q :: q in w.born ==> w.born[q] < w.clock)
    && (forall p :: p in w.procs ==> ProcSound(w, p))
    && (forall rec :: rec in w.spooled ==> Safe(w, rec))
  }

  // ---- steps keep records safe ----

  /** What no step but the removal of a claim does: lose a place of a record. */
  ghost predicate Carries(w: World, w': World) {
    && (forall key :: InJournal(w.journal, key) ==> InJournal(w'.journal, key))
    && w.refused <= w'.refused
    && (forall rec :: rec in w.spool ==> rec in w'.spool || exists q :: InClaim(w', q, rec) && Younger(w', q, w.clock - 1))
    && (forall q, rec :: InClaim(w, q, rec) ==> InClaim(w', q, rec) || rec in w'.spool)
    && (forall q :: q in w.born && q in w.claims && q in w'.claims ==> q in w'.born && w'.born[q] == w.born[q])
  }

  lemma CarriedIsSafe(w: World, w': World, age: int, rec: Rec)
    requires Carries(w, w') && (forall q :: q in w.claims ==> q in w.born) && age < w.clock
    requires SafeBeyond(w, age, rec)
    ensures SafeBeyond(w', age, rec)
  {
    if !Settled(w, rec) && rec !in w.spool {
      var q :| InClaim(w, q, rec) && Younger(w, q, age);
      assert InClaim(w', q, rec) || rec in w'.spool;
    }
  }

  /** Being safe is being safe beyond no claim at all. */
  lemma SafeIsSafeBeyondNone(w: World, rec: Rec)
    requires forall q :: q in w.claims ==> q in w.born
    ensures Safe(w, rec) <==> SafeBeyond(w, -1, rec)
  {
    if Safe(w, rec) && !Settled(w, rec) && rec !in w.spool {
      var q :| InClaim(w, q, rec);
      assert Younger(w, q, -1);
    }
  }

  lemma EveryStepButFinishCarries(w: World, a: Act)
    requires Inv(w) && Possible(w, a) && !a.Finish?
    ensures Carries(w, Step(w, a))
  {
    var w' := Step(w, a);
    match a
    case Rename(p) =>
      assert ProcSound(w, p);
      forall rec | rec in w.spool ensures rec in w'.spool || exists q :: InClaim(w', q, rec) && Younger(w', q, w.clock - 1) {
        assert InClaim(w', p, rec) && Younger(w', p, w.clock - 1);
      }
    case Sweep(p, victim) =>
      forall q, rec | InClaim(w, q, rec) ensures InClaim(w', q, rec) || rec in w'.spool {
        if q == victim { assert rec in w.claims[victim]; }
      }
    case Submit(rec, reply) => StoreKeeps(w.journal, rec);
    case Post(p, reply) => StoreKeeps(w.journal, w.procs[p].data[w.procs[p].next]);
    case _ =>
  }

  lemma StoreKeeps(journal: seq<Rec>, rec: Rec)
    ensures InJournal(Store(journal, rec), rec.key)
    ensures forall key :: InJournal(journal, key) ==> InJournal(Store(journal, rec), key)
  {
    if !InJournal(journal, rec.key) {
      var longer := journal + [rec];
      assert longer[|journal|].key == rec.key;
      forall key | InJournal(journal, key) ensures InJournal(longer, key) {
        var i :| 0 <= i < |journal| && journal[i].key == key;
        assert longer[i].key == key;
      }
    }
  }

  /** The process an act moves, if any. */
  predicate Moves(a: Act, p: Pid) {
    match a
    case Submit(_, _) => false
    case Begin(q) => p == q
    case Sweep(q, _) => p == q
    case Rename(q) => p == q
    case Read(q) => p == q
    case Post(q, _) => p == q
    case Finish(q) => p == q
    case Die(q) => p == q
  }

  lemma OthersStaySound(w: World, a: Act, p: Pid)
    requires Inv(w) && Possible(w, a) && !a.Finish? && p in w.procs && !Moves(a, p)
    ensures ProcSound(Step(w, a), p)
  {
    var w' := Step(w, a);
    EveryStepButFinishCarries(w, a);
    assert ProcSound(w, p) && w'.procs[p] == w.procs[p];
    if w.procs[p].Draining? {
      var d := w.procs[p];
      assert w'.born[p] == w.born[p];
      forall j | 0 <= j < d.next && j < |d.data| ensures SafeBeyond(w', w'.born[p], d.data[j]) {
        CarriedIsSafe(w, w', w.born[p], d.data[j]);
      }
    }
  }

  lemma MoverStaysSound(w: World, a: Act, p: Pid)
    requires Inv(w) && Possible(w, a) && !a.Finish? && Moves(a, p) && p in Step(w, a).procs
    ensures ProcSound(Step(w, a), p)
  {
    var w' := Step(w, a);
    if !a.Begin? { assert ProcSound(w, p); }
    if a.Post? { PostedIsSafe(w, p, a.reply); }
  }

  lemma PostedIsSafe(w: World, p: Pid, reply: Reply)
    requires Inv(w) && Possible(w, Post(p, reply))
    ensures ProcSound(Step(w, Post(p, reply)), p)
  {
    var a := Post(p, reply);
    var w' := Step(w, a);
    var d := w.procs[p];
    EveryStepButFinishCarries(w, a);
    assert ProcSound(w, p);
    StoreKeeps(w.journal, d.data[d.next]);
    forall j | 0 <= j < d.next + 1 && j < |d.data| ensures SafeBeyond(w', w'.born[p], d.data[j]) {
      if j < d.next { CarriedIsSafe(w, w', w.born[p], d.data[j]); }
    }
  }

  lemma StepKeepsInv(w: World, a: Act)
    requires Inv(w) && Possible(w, a) && !a.Finish?
    ensures Inv(Step(w, a))
  {
    var w' := Step(w, a);
    EveryStepButFinishCarries(w, a);
    forall p | p in w'.procs ensures ProcSound(w', p) {
      if Moves(a, p) { MoverStaysSound(w, a, p); } else { OthersStaySound(w, a, p); }
    }
    forall rec | rec in w'.spooled ensures Safe(w', rec) {
      if rec in w.spooled {
        SafeIsSafeBeyondNone(w, rec);
        CarriedIsSafe(w, w', -1, rec);
        SafeIsSafeBeyondNone(w', rec);
      }
    }
  }

  /** Every record of the claim is safe without it and without older claims. */
  ghost predicate Spent(w: World, v: Pid) {
    v in w.claims && v in w.born && forall rec :: rec in w.claims[v] ==> SafeBeyond(w, w.born[v], rec)
  }

  /** w' is w without claim v, and processes that swept no claim of their own. */
  ghost predicate Drops(w: World, w': World, v: Pid) {
    && w' == w.(claims := w.claims - {v}, procs := w'.procs)
    && forall q :: q in w'.procs ==>
         q in w.procs && (w'.procs[q] == w.procs[q] || (w'.procs[q].Sweeping? && (q in w'.claims ==> q in w'.procs[q].todo)))
  }

  /** Removing a spent claim loses no place of a record that counts. */
  lemma SpentCanGo(w: World, w': World, v: Pid, age: int, rec: Rec)
    requires Spent(w, v) && Drops(w, w', v) && SafeBeyond(w, age, rec)
    ensures SafeBeyond(w', age, rec)
  {
    if !Settled(w, rec) && rec !in w.spool {
      var q :| InClaim(w, q, rec) && Younger(w, q, age);
      if q == v {
        assert SafeBeyond(w, w.born[v], rec);
        var r :| InClaim(w, r, rec) && Younger(w, r, w.born[v]);
        assert InClaim(w', r, rec) && Younger(w', r, age);
      } else {
        assert InClaim(w', q, rec) && Younger(w', q, age);
      }
    }
  }

  lemma RemovalKeepsInv(w: World, w': World, v: Pid)
    requires Inv(w) && Spent(w, v) && Drops(w, w', v)
    ensures Inv(w')
  {
    forall q | q in w'.procs ensures ProcSound(w', q) {
      assert ProcSound(w, q);
      if w'.procs[q].Draining? {
        var d := w.procs[q];
        forall j | 0 <= j < d.next && j < |d.data| ensures SafeBeyond(w', w'.born[q], d.data[j]) {
          SpentCanGo(w, w', v, w.born[q], d.data[j]);
        }
      }
    }
    forall rec | rec in w'.spooled ensures Safe(w', rec) {
      SafeIsSafeBeyondNone(w, rec);
      SpentCanGo(w, w', v, -1, rec);
      SafeIsSafeBeyondNone(w', rec);
    }
  }

  /** A claim whose records have all been dealt with is spent. */
  lemma DrainedIsSpent(w: World, p: Pid)
    requires Inv(w) && Possible(w, Finish(p)) && p in w.claims
    ensures Spent(w, p)
  {
    assert ProcSound(w, p);
    var d := w.procs[p];
    forall rec | rec in w.claims[p] ensures SafeBeyond(w, w.born[p], rec) {
      var j :| 0 <= j < |w.claims[p]| && w.claims[p][j] == rec;
      assert SafeBeyond(w, w.born[p], d.data[j]);
    }
  }

  lemma FinishKeepsInv(w: World, p: Pid)
    requires Inv(w) && Possible(w, Finish(p))
    ensures Inv(Step(w, Finish(p)))
  {
    var w' := Step(w, Finish(p));
    if p in w.claims {
      DrainedIsSpent(w, p);
      RemovalKeepsInv(w, w', p);
    } else {
      assert w'.claims == w.claims;
      OnlyProcsMoved(w, w');
    }
  }

  /** Files and history as they were; processes at most looked or left. */
  lemma OnlyProcsMoved(w: World, w': World)
    requires Inv(w) && w' == w.(procs := w'.procs)
    requires forall q :: q in w'.procs ==>
               q in w.procs && (w'.procs[q] == w.procs[q] || (w'.procs[q].Sweeping? && (q in w.claims ==> q in w'.procs[q].todo)))
    ensures Inv(w')
  {
    forall q | q in w'.procs ensures ProcSound(w', q) {
      assert ProcSound(w, q);
      if w'.procs[q].Draining? {
        var d := w.procs[q];
        forall j | 0 <= j < d.next && j < |d.data| ensures SafeBeyond(w', w'.born[q], d.data[j]) {
          SamePlaces(w, w', w.born[q], d.data[j]);
        }
      }
    }
    forall rec | rec in w'.spooled ensures Safe(w', rec) {
      SafeIsSafeBeyondNone(w, rec);
      SamePlaces(w, w', -1, rec);
      SafeIsSafeBeyondNone(w', rec);
    }
  }

  lemma SamePlaces(w: World, w': World, age: int, rec: Rec)
    requires w' == w.(procs := w'.procs) && SafeBeyond(w, age, rec)
    ensures SafeBeyond(w', age, rec)
  {
    if !Settled(w, rec) && rec !in w.spool {
      var q :| InClaim(w, q, rec) && Younger(w, q, age);
      assert InClaim(w', q, rec) && Younger(w', q, age);
    }
  }

  lemma {:induction false} RunKeepsInv(w: World, acts: seq<Act>, w': World)
    requires Inv(w) && Reaches(w, acts, w')
    ensures Inv(w')
    decreases |acts|
  {
    if acts != [] {
      if acts[0].Finish? { FinishKeepsInv(w, acts[0].p); } else { StepKeepsInv(w, acts[0]); }
      RunKeepsInv(Step(w, acts[0]), acts[1..], w');
    }
  }

  /** Spool conservation: in every reachable state, whoever has died where,
      every record ever spooled is in the spool, in a claim file, accepted by the
      service or rejected by it. */
  lemma NothingSpooledIsLost(w0: World, acts: seq<Act>, w: World, rec: Rec)
    requires Initial(w0) && Reaches(w0, acts, w) && rec in w.spooled
    ensures Safe(w, rec)
  {
    RunKeepsInv(w0, acts, w);
  }

  // ---- the journal ----

  ghost predicate OnePerKey(journal: seq<Rec>) {
    forall i, j :: 0 <= i < j < |journal| ==> journal[i].key != journal[j].key
  }

  lemma StoreIsIdempotent(journal: seq<Rec>, rec: Rec)
    requires OnePerKey(journal)
    ensures OnePerKey(Store(journal, rec))
    ensures Store(Store(journal, rec), rec) == Store(journal, rec)
  {
    StoreKeeps(journal, rec);
  }

  /** However often records are swept, replayed and posted, the journal holds
      one record per key and is only ever appended to. */
  lemma {:induction false} JournalStoresOnce(w: World, acts: seq<Act>, w': World)
    requires OnePerKey(w.journal) && Reaches(w, acts, w')
    ensures OnePerKey(w'.journal) && w.journal <= w'.journal
    decreases |acts|
  {
    if acts != [] {
      var a := acts[0];
      if a.Submit? { StoreIsIdempotent(w.journal, a.rec); }
      if a.Post? { StoreIsIdempotent(w.journal, w.procs[a.p].data[w.procs[a.p].next]); }
      JournalStoresOnce(Step(w, a), acts[1..], w');
    }
  }

  lemma {:induction false} HistoryGrows(w: World, acts: seq<Act>, w': World)
    requires Reaches(w, acts, w')
    ensures w.spooled <= w'.spooled
    decreases |acts|
  {
    if acts != [] { HistoryGrows(Step(w, acts[0]), acts[1..], w'); }
  }

  /** A submitted record the service did not reject is in every later state in the
      spool, in a claim, in the journal, or rejected on a later post. One it took
      at once is in the journal from then on. */
  lemma NothingSubmittedIsLost(w0: World, acts: seq<Act>, w: World, rec: Rec, reply: Reply, more: seq<Act>, w': World)
    requires Initial(w0) && Reaches(w0, acts, w) && reply != Rejected
    requires Reaches(Step(w, Submit(rec, reply)), more, w')
    ensures Safe(w', rec)
    ensures reply == Ok ==> InJournal(w'.journal, rec.key)
  {
    var w1 := Step(w, Submit(rec, reply));
    Extends(w0, acts, w, Submit(rec, reply));
    RunKeepsInv(w0, acts + [Submit(rec, reply)], w1);
    if reply == Ok {
      assert OnePerKey(w0.journal);
      JournalStoresOnce(w0, acts + [Submit(rec, reply)], w1);
      JournalStoresOnce(w1, more, w');
      StoreKeeps(w.journal, rec);
      var i :| 0 <= i < |w1.journal| && w1.journal[i].key == rec.key;
      assert w'.journal[i].key == rec.key;
    } else {
      HistoryGrows(w1, more, w');
      RunKeepsInv(w1, more, w');
    }
  }

  // ---- where a record can come from ----

  /** What waits, is claimed or is being posted was spooled once. */
  ghost predicate OnlySpooled(w: World) {
    && (forall rec :: rec in w.spool ==> rec in w.spooled)
    && (forall q, rec :: InClaim(w, q, rec) ==> rec in w.spooled)
    && (forall p :: p in w.procs && w.procs[p].Draining? ==>
          forall i :: 0 <= i < |w.procs[p].data| ==> w.procs[p].data[i] in w.spooled)
  }

  lemma StepSpoolsExactly(w: World, a: Act)
    requires OnlySpooled(w) && Possible(w, a)
    ensures OnlySpooled(Step(w, a))
    ensures Step(w, a).spooled == w.spooled + if a.Submit? && a.reply == Unreachable then {a.rec} else {}
  {
    var w' := Step(w, a);
    forall rec | rec in w'.spool ensures rec in w'.spooled {
      if a.Sweep? && rec !in w.spool { assert InClaim(w, a.victim, rec); }
    }
    forall q, rec | InClaim(w', q, rec) ensures rec in w'.spooled {
      if a.Rename? && q == a.p && w.spool != [] { assert rec in w.spool; } else { assert InClaim(w, q, rec); }
    }
    if a.Read? && a.p in w.claims {
      forall i | 0 <= i < |w.claims[a.p]| ensures w.claims[a.p][i] in w.spooled {
        assert InClaim(w, a.p, w.claims[a.p][i]);
      }
    }
  }

  lemma {:induction false} RunSpoolsExactly(w: World, acts: seq<Act>, w': World)
    requires OnlySpooled(w) && Reaches(w, acts, w')
    ensures OnlySpooled(w')
    ensures forall rec :: rec in w'.spooled <==> rec in w.spooled || Submit(rec, Unreachable) in acts
    decreases |acts|
  {
    if acts != [] {
      StepSpoolsExactly(w, acts[0]);
      RunSpoolsExactly(Step(w, acts[0]), acts[1..], w');
      assert forall a :: a in acts <==> a == acts[0] || a in acts[1..];
    }
  }

  /** The records of every spool and claim are among those submitted while the
      service was unreachable, and exactly those were spooled: a record it answered,
      taken or not, never waits. */
  lemma OnlyUnreachableWaits(w0: World, acts: seq<Act>, w: World, rec: Rec)
    requires Initial(w0) && Reaches(w0, acts, w)
    ensures rec in w.spooled <==> Submit(rec, Unreachable) in acts
    ensures rec in w.spool ==> Submit(rec, Unreachable) in acts
    ensures forall q :: InClaim(w, q, rec) ==> Submit(rec, Unreachable) in acts
  {
    RunSpoolsExactly(w0, acts, w);
  }

  /** Every record still on its way has been accepted already. */
  ghost predicate AllAccepted(w: World) {
    && (forall rec :: rec in w.spool ==> InJournal(w.journal, rec.key))
    && (forall q, rec :: InClaim(w, q, rec) ==> InJournal(w.journal, rec.key))
    && (forall p :: p in w.procs && w.procs[p].Draining? ==>
          forall i :: 0 <= i < |w.procs[p].data| ==> InJournal(w.journal, w.procs[p].data[i].key))
  }

  lemma AcceptedStep(w: World, a: Act)
    requires AllAccepted(w) && Possible(w, a) && !a.Submit?
    ensures AllAccepted(Step(w, a)) && Step(w, a).journal == w.journal
  {
    var w' := Step(w, a);
    forall rec | rec in w'.spool ensures InJournal(w.journal, rec.key) {
      if a.Sweep? && rec !in w.spool { assert InClaim(w, a.victim, rec); }
    }
    forall q, rec | InClaim(w', q, rec) ensures InJournal(w.journal, rec.key) {
      if a.Rename? && q == a.p && w.spool != [] { assert rec in w.spool; } else { assert InClaim(w, q, rec); }
    }
    if a.Read? && a.p in w.claims {
      forall i | 0 <= i < |w.claims[a.p]| ensures InJournal(w.journal, w.claims[a.p][i].key) {
        assert InClaim(w, a.p, w.claims[a.p][i]);
      }
    }
  }

  /** Then no number of sweeps and replays, live or after a death, changes the
      journal. */
  lemma {:induction false} RedeliveryChangesNothing(w: World, acts: seq<Act>, w': World)
    requires AllAccepted(w) && Reaches(w, acts, w') && forall a :: a in acts ==> !a.Submit?
    ensures w'.journal == w.journal && AllAccepted(w')
    decreases |acts|
  {
    if acts != [] {
      AcceptedStep(w, acts[0]);
      RedeliveryChangesNothing(Step(w, acts[0]), acts[1..], w');
    }
  }
}
