/** Each hub's spool follows the protocol of the local one: whatever happens to
    the configuration, to the other hubs and to the processes, what one hub's
    files and flushes go through is a run of Spool. So what every run of Spool
    keeps, every hub's spool keeps. */
module HubSpools {
  import Spool
  import opened HubRouting

  /** No spool and no claim is an empty file. */
  ghost predicate Proper(w: World) {
    (forall path :: path in w.files ==> w.files[path] != []) && forall c :: c in w.claims ==> w.claims[c] != []
  }

  lemma StepKeepsProper(w: World, a: Act)
    requires Proper(w) && Possible(w, a)
    ensures Proper(Step(w, a))
  {
  }

  /** v is what hub n's spool, its claims and its flushes look like. A hub's final
      answer, either way, is one the protocol need not wait for again. */
  ghost predicate Shows(w: World, n: Name, v: Spool.World) {
    && v.spool == Waiting(w.files, SpoolPath(n))
    && (forall q :: q in v.claims <==> (SpoolPath(n), q) in w.claims)
    && (forall q :: q in v.claims ==> v.claims[q] == w.claims[(SpoolPath(n), q)])
    && (forall p :: p in v.procs <==> p in w.procs && w.procs[p].name == n)
    && (forall p :: p in v.procs ==> v.procs[p] == w.procs[p].at)
    && (forall rec :: rec in v.spooled <==> (n, rec) in w.spooled)
    && (forall rec :: rec in v.refused ==> (n, rec) in w.delivered)
    && v.journal == []
  }

  // ---- each step ----

  /** The steps of a process. */
  predicate OfProcess(a: Act) { !a.Configure? && !a.Submit? && !a.SubmitLocal? }

  /** What the step is for the hub whose spool the process flushes. */
  function Local(a: Act): Spool.Act
    requires OfProcess(a)
  {
    match a
    case Begin(p, _) => Spool.Begin(p)
    case Sweep(p, victim) => Spool.Sweep(p, victim)
    case Claim(p) => Spool.Rename(p)
    case Read(p) => Spool.Read(p)
    case FlushOne(p, attempt, delivered) => Spool.Post(p, if attempt && delivered then Spool.Rejected else Spool.Unreachable)
    case EndFlush(p) => Spool.Finish(p)
    case Die(p) => Spool.Die(p)
  }

  function HubOf(w: World, a: Act): Name
    requires OfProcess(a) && Possible(w, a)
  {
    if a.Begin? then a.name else w.procs[a.p].name
  }

  lemma BeginFollows(w: World, n: Name, v: Spool.World, p: Pid)
    requires Shows(w, n, v) && Possible(w, Begin(p, n))
    ensures Spool.Possible(v, Spool.Begin(p)) && Shows(Step(w, Begin(p, n)), n, Spool.Step(v, Spool.Begin(p)))
  {
    var pids := Claimants(w.claims, SpoolPath(n));
    forall q ensures q in v.claims.Keys <==> q in pids {
      if (SpoolPath(n), q) in w.claims { assert (SpoolPath(n), q).1 in pids; }
    }
    assert v.claims.Keys == pids;
  }

  lemma SweepFollows(w: World, n: Name, v: Spool.World, p: Pid, victim: Pid)
    requires Shows(w, n, v) && Possible(w, Sweep(p, victim)) && w.procs[p].name == n
    ensures Spool.Possible(v, Spool.Sweep(p, victim))
    ensures Shows(Step(w, Sweep(p, victim)), n, Spool.Step(v, Spool.Sweep(p, victim)))
  {
    var todo := Spool.Sweeping(w.procs[p].at.todo - {victim});
    GotoShows(w, n, v, p, todo);
    if (SpoolPath(n), victim) in w.claims { SweptShows(Goto(w, p, todo), n, v.(procs := v.procs[p := todo]), victim); }
  }

  lemma GotoShows(w: World, n: Name, v: Spool.World, p: Pid, at: Spool.Proc)
    requires Shows(w, n, v) && p in w.procs && w.procs[p].name == n
    ensures Shows(Goto(w, p, at), n, v.(procs := v.procs[p := at]))
  {
  }

  lemma SweptShows(w: World, n: Name, v: Spool.World, victim: Pid)
    requires Shows(w, n, v) && (SpoolPath(n), victim) in w.claims
    ensures var c := (SpoolPath(n), victim);
            Shows(w.(files := Append(w.files, c.0, w.claims[c]), claims := w.claims - {c}), n,
                  v.(spool := v.spool + v.claims[victim], claims := v.claims - {victim}))
  {
  }

  lemma ClaimFollows(w: World, n: Name, v: Spool.World, p: Pid)
    requires Proper(w) && Shows(w, n, v) && Possible(w, Claim(p)) && w.procs[p].name == n
    ensures Spool.Possible(v, Spool.Rename(p)) && Shows(Step(w, Claim(p)), n, Spool.Step(v, Spool.Rename(p)))
  {
  }

  lemma FlushFollows(w: World, n: Name, v: Spool.World, p: Pid, attempt: bool, delivered: bool)
    requires Shows(w, n, v) && Possible(w, FlushOne(p, attempt, delivered)) && w.procs[p].name == n
    ensures var b := Local(FlushOne(p, attempt, delivered));
            Spool.Possible(v, b) && Shows(Step(w, FlushOne(p, attempt, delivered)), n, Spool.Step(v, b))
  {
    FlushShows(w, n, v, p, attempt, attempt && delivered);
    FlushIs(w, p, attempt, delivered);
    PostIs(v, p, attempt && delivered);
  }

  lemma FlushShows(w: World, n: Name, v: Spool.World, p: Pid, attempt: bool, answered: bool)
    requires Shows(w, n, v) && Possible(w, FlushOne(p, attempt, answered)) && w.procs[p].name == n
    ensures Shows(AfterFlush(w, p, attempt, answered), n, AfterPost(v, p, answered))
  {
    var rec := w.procs[p].at.data[w.procs[p].at.next];
    PostedShows(w, n, v, p, attempt);
    AnsweredShows(Posted(w, p, attempt), n, Moved(v, p), rec);
    WaitsShows(Posted(w, p, attempt), n, Moved(v, p), rec);
  }

  /** The record is answered for good, or waits again. */
  function AfterFlush(w: World, p: Pid, attempt: bool, answered: bool): World
    requires Possible(w, FlushOne(p, attempt, answered))
  {
    var n, rec, w1 := w.procs[p].name, w.procs[p].at.data[w.procs[p].at.next], Posted(w, p, attempt);
    if answered then w1.(delivered := w1.delivered + {(n, rec)}) else w1.(files := Append(w1.files, SpoolPath(n), [rec]))
  }

  function Moved(v: Spool.World, p: Pid): Spool.World
    requires p in v.procs && v.procs[p].Draining?
  {
    v.(procs := v.procs[p := Spool.Draining(v.procs[p].data, v.procs[p].next + 1)])
  }

  function AfterPost(v: Spool.World, p: Pid, answered: bool): Spool.World
    requires p in v.procs && v.procs[p].Draining? && v.procs[p].next < |v.procs[p].data|
  {
    var rec, v1 := v.procs[p].data[v.procs[p].next], Moved(v, p);
    if answered then v1.(refused := v1.refused + {rec}) else v1.(spool := v1.spool + [rec])
  }

  /** The process has tried the record, or not, and goes to the next. */
  function Posted(w: World, p: Pid, attempt: bool): World
    requires Possible(w, FlushOne(p, attempt, false))
  {
    var (n, d) := (w.procs[p].name, w.procs[p].at);
    Goto(w, p, Spool.Draining(d.data, d.next + 1)).(posted := if attempt then w.posted + {(n, d.data[d.next])} else w.posted)
  }

  lemma FlushIs(w: World, p: Pid, attempt: bool, delivered: bool)
    requires Possible(w, FlushOne(p, attempt, delivered))
    ensures Step(w, FlushOne(p, attempt, delivered)) == AfterFlush(w, p, attempt, attempt && delivered)
  {
  }

  lemma PostIs(v: Spool.World, p: Pid, answered: bool)
    requires p in v.procs && v.procs[p].Draining? && v.procs[p].next < |v.procs[p].data|
    ensures Spool.Step(v, Spool.Post(p, if answered then Spool.Rejected else Spool.Unreachable)) == AfterPost(v, p, answered)
  {
  }

  lemma PostedShows(w: World, n: Name, v: Spool.World, p: Pid, attempt: bool)
    requires Shows(w, n, v) && Possible(w, FlushOne(p, attempt, false)) && w.procs[p].name == n
    ensures Shows(Posted(w, p, attempt), n, Moved(v, p))
  {
  }

  lemma AnsweredShows(w: World, n: Name, v: Spool.World, rec: Rec)
    requires Shows(w, n, v)
    ensures Shows(w.(delivered := w.delivered + {(n, rec)}), n, v.(refused := v.refused + {rec}))
  {
  }

  lemma WaitsShows(w: World, n: Name, v: Spool.World, rec: Rec)
    requires Shows(w, n, v)
    ensures Shows(w.(files := Append(w.files, SpoolPath(n), [rec])), n, v.(spool := v.spool + [rec]))
  {
  }

  lemma ReadFollows(w: World, n: Name, v: Spool.World, p: Pid)
    requires Shows(w, n, v) && Possible(w, Read(p)) && w.procs[p].name == n
    ensures Spool.Possible(v, Spool.Read(p)) && Shows(Step(w, Read(p)), n, Spool.Step(v, Spool.Read(p)))
  {
  }

  lemma EndFollows(w: World, n: Name, v: Spool.World, p: Pid)
    requires Shows(w, n, v) && Possible(w, EndFlush(p)) && w.procs[p].name == n
    ensures Spool.Possible(v, Spool.Finish(p)) && Shows(Step(w, EndFlush(p)), n, Spool.Step(v, Spool.Finish(p)))
  {
  }

  /** A process takes its own hub's spool through the protocol's step. */
  lemma ProcessFollows(w: World, n: Name, v: Spool.World, a: Act)
    requires Proper(w) && Shows(w, n, v) && OfProcess(a) && Possible(w, a) && HubOf(w, a) == n
    ensures Spool.Possible(v, Local(a)) && Shows(Step(w, a), n, Spool.Step(v, Local(a)))
  {
    match a
    case Begin(p, _) => BeginFollows(w, n, v, p);
    case Sweep(p, victim) => SweepFollows(w, n, v, p, victim);
    case Claim(p) => ClaimFollows(w, n, v, p);
    case FlushOne(p, attempt, delivered) => FlushFollows(w, n, v, p, attempt, delivered);
    case Read(p) => ReadFollows(w, n, v, p);
    case EndFlush(p) => EndFollows(w, n, v, p);
    case Die(p) =>
  }

  /** Hub n has the same spool, claims, flushes and history in both, and perhaps
      more answers. */
  ghost predicate SameFor(w: World, w': World, n: Name) {
    && Waiting(w'.files, SpoolPath(n)) == Waiting(w.files, SpoolPath(n))
    && (forall q :: (SpoolPath(n), q) in w'.claims <==> (SpoolPath(n), q) in w.claims)
    && (forall q :: (SpoolPath(n), q) in w.claims ==> w'.claims[(SpoolPath(n), q)] == w.claims[(SpoolPath(n), q)])
    && (forall p :: p in w'.procs && w'.procs[p].name == n <==> p in w.procs && w.procs[p].name == n)
    && (forall p :: p in w.procs && w.procs[p].name == n ==> w'.procs[p] == w.procs[p])
    && (forall rec :: (n, rec) in w'.spooled <==> (n, rec) in w.spooled)
    && w.delivered <= w'.delivered
  }

  lemma SameShows(w: World, w': World, n: Name, v: Spool.World)
    requires Shows(w, n, v) && SameFor(w, w', n)
    ensures Shows(w', n, v)
  {
  }

  /** A process leaves every other hub's spool alone. */
  lemma OtherHubStays(w: World, n: Name, a: Act)
    requires OfProcess(a) && Possible(w, a) && HubOf(w, a) != n
    ensures SameFor(w, Step(w, a), n)
  {
    if SpoolPath(HubOf(w, a)) == SpoolPath(n) { OneSpoolPerHub(HubOf(w, a), n); }
    if a.FlushOne? {
      FlushIs(w, a.p, a.attempt, a.delivered);
      OtherFlushStays(w, n, a.p, a.attempt, a.attempt && a.delivered);
    }
  }

  lemma OtherFlushStays(w: World, n: Name, p: Pid, attempt: bool, answered: bool)
    requires Possible(w, FlushOne(p, attempt, answered)) && w.procs[p].name != n && SpoolPath(w.procs[p].name) != SpoolPath(n)
    ensures SameFor(w, AfterFlush(w, p, attempt, answered), n)
  {
  }

  lemma SpoolForFollows(w: World, n: Name, v: Spool.World, rec: Rec)
    requires Shows(w, n, v)
    ensures Shows(SpoolFor(w, n, rec), n, Spool.Step(v, Spool.Submit(rec, Spool.Unreachable)))
  {
  }

  lemma SpoolForOther(w: World, m: Name, n: Name, rec: Rec)
    requires m != n
    ensures SameFor(w, SpoolFor(w, m, rec), n)
  {
    if SpoolPath(m) == SpoolPath(n) { OneSpoolPerHub(m, n); }
  }

  /** A submission spools for its hub, or changes no spool. */
  lemma PushIs(w: World, rec: Rec, bound: Name, delivered: bool) returns (spools: bool)
    ensures var w' := PushHub(w, rec, bound, delivered);
            if spools then w' == SpoolFor(w.(posted := w'.posted), Resolve(w.config, bound).0, rec)
            else w' == w.(posted := w'.posted, delivered := w'.delivered) && w.delivered <= w'.delivered
  {
    var (name, hub) := Resolve(w.config, bound);
    spools := if hub.None? then name != "" else hub.value.token != "" && !delivered;
  }

  lemma PushFollows(w: World, n: Name, v: Spool.World, rec: Rec, bound: Name, delivered: bool)
    returns (bs: seq<Spool.Act>, v': Spool.World)
    requires Shows(w, n, v)
    ensures Spool.Reaches(v, bs, v') && Shows(PushHub(w, rec, bound, delivered), n, v')
  {
    var w', name := PushHub(w, rec, bound, delivered), Resolve(w.config, bound).0;
    var w1 := w.(posted := w'.posted);
    var spools := PushIs(w, rec, bound, delivered);
    SameShows(w, w1, n, v);
    if spools && name == n {
      SpoolForFollows(w1, n, v, rec);
      bs, v' := [Spool.Submit(rec, Spool.Unreachable)], Spool.Step(v, Spool.Submit(rec, Spool.Unreachable));
      assert bs[1..] == [];
    } else {
      bs, v' := [], v;
      if spools { SpoolForOther(w1, name, n, rec); }
      SameShows(w1, w', n, v);
    }
  }

  lemma SubmitFollows(w: World, n: Name, v: Spool.World, a: Act) returns (bs: seq<Spool.Act>, v': Spool.World)
    requires Shows(w, n, v) && a.Submit?
    ensures Spool.Reaches(v, bs, v') && Shows(Step(w, a), n, v')
  {
    var bound := Stamp(a.projectHub);
    var w1 := w.(entitled := w.entitled + {(Target(w.config, bound), a.rec)});
    SameShows(w, w1, n, v);
    bs, v' := PushFollows(w1, n, v, a.rec, bound, a.delivered);
  }

  lemma StepFollows(w: World, n: Name, v: Spool.World, a: Act) returns (bs: seq<Spool.Act>, v': Spool.World)
    requires Proper(w) && Shows(w, n, v) && Possible(w, a)
    ensures Spool.Reaches(v, bs, v') && Shows(Step(w, a), n, v')
  {
    if a.Submit? {
      bs, v' := SubmitFollows(w, n, v, a);
    } else if OfProcess(a) && HubOf(w, a) == n {
      ProcessFollows(w, n, v, a);
      bs, v' := [Local(a)], Spool.Step(v, Local(a));
      assert bs[1..] == [];
    } else {
      if OfProcess(a) { OtherHubStays(w, n, a); }
      SameShows(w, Step(w, a), n, v);
      bs, v' := [], v;
    }
  }

  // ---- the run ----

  lemma {:induction false} Joined(v: Spool.World, bs: seq<Spool.Act>, v1: Spool.World, cs: seq<Spool.Act>, v2: Spool.World)
    requires Spool.Reaches(v, bs, v1) && Spool.Reaches(v1, cs, v2)
    ensures Spool.Reaches(v, bs + cs, v2)
    decreases |bs|
  {
    if bs == [] {
      assert bs + cs == cs;
    } else {
      assert (bs + cs)[1..] == bs[1..] + cs;
      Joined(Spool.Step(v, bs[0]), bs[1..], v1, cs, v2);
    }
  }

  /** Refinement: seen from one hub, a run over all hubs is a run of the local
      spool's protocol. */
  lemma {:induction false} RunFollows(w: World, acts: seq<Act>, w': World, n: Name, v: Spool.World)
    returns (bs: seq<Spool.Act>, v': Spool.World)
    requires Proper(w) && Reaches(w, acts, w') && Shows(w, n, v)
    ensures Spool.Reaches(v, bs, v') && Shows(w', n, v')
    decreases |acts|
  {
    if acts == [] { return [], v; }
    var bs1, v1 := StepFollows(w, n, v, acts[0]);
    StepKeepsProper(w, acts[0]);
    var bs2;
    bs2, v' := RunFollows(Step(w, acts[0]), acts[1..], w', n, v1);
    Joined(v, bs1, v1, bs2, v');
    bs := bs1 + bs2;
  }

  const EMPTY := Spool.World([], map[], map[], 0, map[], [], {}, {})

  /** In the hub's spool, in one of its claim files, or answered by the hub for
      good. */
  ghost predicate Safe(w: World, n: Name, rec: Rec) {
    || rec in Waiting(w.files, SpoolPath(n))
    || (exists q :: (SpoolPath(n), q) in w.claims && rec in w.claims[(SpoolPath(n), q)])
    || (n, rec) in w.delivered
  }

  /** Conservation per hub: in every reachable state, whatever was configured when
      and whichever processes died where, every record ever put in hub n's spool
      is still there, in one of its claims, or was answered by that hub. */
  lemma HubSpoolsLoseNothing(w0: World, acts: seq<Act>, w: World, n: Name, rec: Rec)
    requires Initial(w0) && Reaches(w0, acts, w) && (n, rec) in w.spooled
    ensures Safe(w, n, rec)
  {
    var bs, v := RunFollows(w0, acts, w, n, EMPTY);
    Spool.NothingSpooledIsLost(EMPTY, bs, v, rec);
    if q: nat :| Spool.InClaim(v, q, rec) { assert (SpoolPath(n), q) in w.claims; }
  }
}
