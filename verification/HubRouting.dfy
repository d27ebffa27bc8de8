/** Hub routing (internal/adapter/hub.go and the stamping in spool.go): which
    hub a record may reach, over hubs added, removed and made default, outages,
    spools per hub, flushes by several processes, and processes dying. */
module HubRouting {
  import opened Options
  import Spool

  type Name = string
  type Path = string
  type Pid = nat
  type Rec = Spool.Rec

  const DEFAULT_HUB: Name := "default"
  /** Where a project with an invalid hub name is routed. */
  const QUARANTINE: Name := "invalid-hub-binding"

  datatype Hub = Hub(url: string, token: string)

  // ---- hub.json ----

  /** The file's two generations: named hubs, and a flat url and token. */
  datatype File = File(hubs: map<Name, Hub>, def: Name, flat: Hub)

  /** Every configured hub and the default's name. */
  datatype Config = Config(hubs: map<Name, Hub>, def: Name)

  const NO_HUBS := Config(map[], "")

  ghost function LoadHubs(file: Option<File>): Config {
    match file
    case None => NO_HUBS
    case Some(f) =>
      var hubs := if f.flat.url != "" && DEFAULT_HUB !in f.hubs then f.hubs[DEFAULT_HUB := f.flat] else f.hubs;
      var def := if f.flat.url != "" && f.def == "" then DEFAULT_HUB else f.def;
      var usable := map n | n in hubs && hubs[n].url != "" :: hubs[n];
      if usable == map[] then NO_HUBS
      else if def in usable then Config(usable, def)
      else if exists n :: usable.Keys == {n} then (var n :| usable.Keys == {n}; Config(usable, n))
      else Config(usable, "")
  }

  /** The default is a configured hub, or there is none; one hub is its own
      default. */
  lemma DefaultIsConfigured(file: Option<File>)
    ensures var c := LoadHubs(file);
            && (c.def == "" || c.def in c.hubs)
            && (forall n :: n in c.hubs ==> c.hubs[n].url != "")
            && (forall n :: c.hubs.Keys == {n} ==> c.def == n)
  {
    var c := LoadHubs(file);
    forall n | c.hubs.Keys == {n} ensures c.def == n {
      assert n in c.hubs.Keys;
      assert c.def in c.hubs.Keys;
    }
  }

  /** `ResolveHub`: the named hub or nothing, never another hub. */
  function Resolve(c: Config, name: Name): (Name, Option<Hub>) {
    if c.hubs == map[] then ("", None)
    else if name != "" then (name, if name in c.hubs then Some(c.hubs[name]) else None)
    else if c.def == "" || c.def !in c.hubs then ("", None)
    else (c.def, Some(c.hubs[c.def]))
  }

  /** The binding stamped on a payload: the project's valid hub name ("" when it
      has none), or quarantine when the name is invalid. */
  function Stamp(projectHub: Option<Name>): Name { if projectHub.Some? then projectHub.value else QUARANTINE }

  // ---- spool files ----

  function SpoolPath(name: Name): Path {
    if name == DEFAULT_HUB then "hub.jsonl" else "hub-" + name + ".jsonl"
  }

  function ClaimPath(spool: Path, pid: string): Path { spool + ".replay-" + pid }

  predicate DotFree(s: string) { '.' !in s }

  lemma OneSpoolPerHub(m: Name, n: Name)
    requires SpoolPath(m) == SpoolPath(n)
    ensures m == n
  {
    assert SpoolPath(m)[3] == SpoolPath(n)[3];
    if m != DEFAULT_HUB {
      assert SpoolPath(m)[4..][..|m|] == m;
      assert SpoolPath(n)[4..][..|n|] == n;
      assert |SpoolPath(m)| == |m| + 10 && |SpoolPath(n)| == |n| + 10;
    }
  }

  predicate FirstDot(s: string, k: nat) { k < |s| && s[k] == '.' && forall i :: 0 <= i < k ==> s[i] != '.' }

  function DotAt(name: Name): nat { if name == DEFAULT_HUB then 3 else 4 + |name| }

  lemma NameEndsAtFirstDot(name: Name, rest: string)
    requires DotFree(name)
    ensures FirstDot(SpoolPath(name) + rest, DotAt(name))
    ensures name != DEFAULT_HUB ==> (SpoolPath(name) + rest)[4..DotAt(name)] == name
  {
    var s := SpoolPath(name) + rest;
    if name != DEFAULT_HUB {
      assert forall i :: 4 <= i < 4 + |name| ==> s[i] == name[i - 4];
    }
  }

  /** What a sweep of one hub's spool collects by its file name pattern are that
      hub's own claims. */
  lemma SweepStaysWithItsHub(m: Name, n: Name, pid: string)
    requires DotFree(m) && DotFree(n) && SpoolPath(m) + ".replay-" <= ClaimPath(SpoolPath(n), pid)
    ensures m == n
  {
    var a, b := SpoolPath(m) + ".replay-", ClaimPath(SpoolPath(n), pid);
    NameEndsAtFirstDot(m, ".replay-");
    NameEndsAtFirstDot(n, ".replay-" + pid);
    assert b == SpoolPath(n) + (".replay-" + pid);
    assert FirstDot(b, DotAt(m));
    assert DotAt(m) == DotAt(n);
    if m != DEFAULT_HUB && n != DEFAULT_HUB {
      assert a[4..DotAt(m)] == b[4..DotAt(n)];
    }
  }

  // ---- the system ----

  /** A process that flushes one hub's spool, and where it stands in it. */
  datatype Proc = Proc(name: Name, at: Spool.Proc)

  /** entitled, spooled and delivered are history. (n, rec) is entitled when rec
      was submitted for delivery bound to n, or unbound while n was the default;
      spooled when it was put in n's spool; delivered when the hub answered it
      for good, accepting it or, with a 4xx other than 401 and 403, finding it
      invalid. posted holds every attempt. */
  datatype World = World(
    config: Config, files: map<Path, seq<Rec>>, claims: map<(Path, Pid), seq<Rec>>, procs: map<Pid, Proc>,
    posted: set<(Name, Rec)>, entitled: set<(Name, Rec)>, spooled: set<(Name, Rec)>, delivered: set<(Name, Rec)>)

  datatype Act =
    | Configure(file: Option<File>)
    | Submit(rec: Rec, projectHub: Option<Name>, delivered: bool)
    | SubmitLocal(rec: Rec)
    | Begin(p: Pid, name: Name)
    | Sweep(p: Pid, victim: Pid)
    | Claim(p: Pid)
    | Read(p: Pid)
    | FlushOne(p: Pid, attempt: bool, delivered: bool)
    | EndFlush(p: Pid)
    | Die(p: Pid)

  predicate At(w: World, p: Pid, at: Spool.Proc) { p in w.procs && w.procs[p].at == at }

  predicate Possible(w: World, a: Act) {
    match a
    case Begin(p, name) => p !in w.procs && name in w.config.hubs && w.config.hubs[name].token != ""
    case Sweep(p, victim) => p in w.procs && w.procs[p].at.Sweeping? && victim in w.procs[p].at.todo
    case Claim(p) => At(w, p, Spool.Sweeping({}))
    case Read(p) => At(w, p, Spool.Claimed)
    case FlushOne(p, _, _) => p in w.procs && w.procs[p].at.Draining? && w.procs[p].at.next < |w.procs[p].at.data|
    case EndFlush(p) => p in w.procs && w.procs[p].at.Draining? && w.procs[p].at.next >= |w.procs[p].at.data|
    case Die(p) => p in w.procs
    case _ => true
  }

  function Waiting(files: map<Path, seq<Rec>>, path: Path): seq<Rec> { if path in files then files[path] else [] }

  function Append(files: map<Path, seq<Rec>>, path: Path, recs: seq<Rec>): map<Path, seq<Rec>> {
    files[path := Waiting(files, path) + recs]
  }

  /** The claim file of p's flush. */
  function OwnClaim(w: World, p: Pid): (Path, Pid)
    requires p in w.procs
  {
    (SpoolPath(w.procs[p].name), p)
  }

  function Claimants(claims: map<(Path, Pid), seq<Rec>>, path: Path): set<Pid> {
    set c | c in claims && c.0 == path :: c.1
  }

  function SpoolFor(w: World, name: Name, rec: Rec): World {
    w.(files := Append(w.files, SpoolPath(name), [rec]), spooled := w.spooled + {(name, rec)})
  }

  /** `pushHub`; the flush after a delivery is separate acts. */
  function PushHub(w: World, rec: Rec, bound: Name, delivered: bool): World {
    var (name, hub) := Resolve(w.config, bound);
    if hub.None? then
      if name != "" then SpoolFor(w, name, rec) else w
    else if hub.value.token == "" then w
    else
      var w' := w.(posted := w.posted + {(name, rec)});
      if delivered then w'.(delivered := w.delivered + {(name, rec)}) else SpoolFor(w', name, rec)
  }

  function Target(c: Config, bound: Name): Name { if bound != "" then bound else c.def }

  function Goto(w: World, p: Pid, at: Spool.Proc): World
    requires p in w.procs
  {
    w.(procs := w.procs[p := w.procs[p].(at := at)])
  }

  function Gone(w: World, p: Pid): World { w.(procs := w.procs - {p}) }

  ghost function Step(w: World, a: Act): World
    requires Possible(w, a)
  {
    match a
    case Configure(file) => w.(config := LoadHubs(file))
    case Submit(rec, projectHub, delivered) =>
      var bound := Stamp(projectHub);
      PushHub(w.(entitled := w.entitled + {(Target(w.config, bound), rec)}), rec, bound, delivered)
    case SubmitLocal(rec) => w
    case Begin(p, name) => w.(procs := w.procs[p := Proc(name, Spool.Sweeping(Claimants(w.claims, SpoolPath(name))))])
    case Sweep(p, victim) =>
      var c := (SpoolPath(w.procs[p].name), victim);
      var w' := Goto(w, p, Spool.Sweeping(w.procs[p].at.todo - {victim}));
      if c in w.claims then w'.(files := Append(w.files, c.0, w.claims[c]), claims := w.claims - {c}) else w'
    case Claim(p) =>
      var c := OwnClaim(w, p);
      if c.0 !in w.files then Gone(w, p)
      else Goto(w, p, Spool.Claimed).(files := w.files - {c.0}, claims := w.claims[c := w.files[c.0]])
    case Read(p) =>
      var c := OwnClaim(w, p);
      if c in w.claims then Goto(w, p, Spool.Draining(w.claims[c], 0)) else Gone(w, p)
    case FlushOne(p, attempt, delivered) =>
      var (n, d) := (w.procs[p].name, w.procs[p].at);
      var e := (n, d.data[d.next]);
      var w' := Goto(w, p, Spool.Draining(d.data, d.next + 1)).(posted := if attempt then w.posted + {e} else w.posted);
      if attempt && delivered then w'.(delivered := w.delivered + {e})
      else w'.(files := Append(w.files, SpoolPath(n), [e.1]))
    case EndFlush(p) => Gone(w, p).(claims := w.claims - {OwnClaim(w, p)})
    case Die(p) => Gone(w, p)
  }

  ghost predicate Reaches(w: World, acts: seq<Act>, w': World)
    decreases |acts|
  {
    if acts == [] then w == w' else Possible(w, acts[0]) && Reaches(Step(w, acts[0]), acts[1..], w')
  }

  lemma {:induction false} Extends(w: World, acts: seq<Act>, w1: World, a: Act)
    requires Reaches(w, acts, w1) && Possible(w1, a)
    ensures Reaches(w, acts + [a], Step(w1, a))
    decreases |acts|
  {
    var more := acts + [a];
    if acts == [] {
      assert more[1..] == [];
    } else {
      assert more[1..] == acts[1..] + [a];
      Extends(Step(w, acts[0]), acts[1..], w1, a);
    }
  }

  ghost predicate Initial(w: World) {
    && w.files == map[] && w.claims == map[] && w.procs == map[]
    && w.posted == {} && w.entitled == {} && w.spooled == {} && w.delivered == {}
  }

  // ---- the partition ----

  /** Every record of a hub's file is entitled to that hub. */
  ghost predicate Belongs(w: World, path: Path, recs: seq<Rec>) {
    forall rec :: rec in recs ==> exists n :: SpoolPath(n) == path && (n, rec) in w.entitled
  }

  /** What a process has read. */
  function Held(q: Proc): seq<Rec> { if q.at.Draining? then q.at.data else [] }

  ghost predicate Partitioned(w: World) {
    && w.posted <= w.entitled
    && (forall path :: path in w.files ==> Belongs(w, path, w.files[path]))
    && (forall c :: c in w.claims ==> Belongs(w, c.0, w.claims[c]))
    && (forall p :: p in w.procs ==> Belongs(w, SpoolPath(w.procs[p].name), Held(w.procs[p])))
  }

  lemma BelongsToHub(w: World, n: Name, recs: seq<Rec>)
    requires Belongs(w, SpoolPath(n), recs)
    ensures forall rec :: rec in recs ==> (n, rec) in w.entitled
  {
    forall rec | rec in recs ensures (n, rec) in w.entitled {
      var m :| SpoolPath(m) == SpoolPath(n) && (m, rec) in w.entitled;
      OneSpoolPerHub(m, n);
    }
  }

  lemma MoreEntitled(w: World, w': World, path: Path, recs: seq<Rec>)
    requires Belongs(w, path, recs) && w.entitled <= w'.entitled
    ensures Belongs(w', path, recs)
  {
    forall rec | rec in recs ensures exists n :: SpoolPath(n) == path && (n, rec) in w'.entitled {
      var n :| SpoolPath(n) == path && (n, rec) in w.entitled;
      assert (n, rec) in w'.entitled;
    }
  }

  /** Nothing is anywhere that did not belong there already. */
  lemma StaysPartitioned(w: World, w': World)
    requires w.entitled <= w'.entitled && w'.posted <= w'.entitled
    requires forall path :: path in w'.files ==> Belongs(w, path, w'.files[path])
    requires forall c :: c in w'.claims ==> Belongs(w, c.0, w'.claims[c])
    requires forall p :: p in w'.procs ==> Belongs(w, SpoolPath(w'.procs[p].name), Held(w'.procs[p]))
    ensures Partitioned(w')
  {
    forall path | path in w'.files ensures Belongs(w', path, w'.files[path]) { MoreEntitled(w, w', path, w'.files[path]); }
    forall c | c in w'.claims ensures Belongs(w', c.0, w'.claims[c]) { MoreEntitled(w, w', c.0, w'.claims[c]); }
    forall p | p in w'.procs ensures Belongs(w', SpoolPath(w'.procs[p].name), Held(w'.procs[p])) {
      MoreEntitled(w, w', SpoolPath(w'.procs[p].name), Held(w'.procs[p]));
    }
  }

  lemma AppendedBelongs(w: World, path: Path, recs: seq<Rec>)
    requires Partitioned(w) && Belongs(w, path, recs)
    ensures var files := Append(w.files, path, recs); forall q :: q in files ==> Belongs(w, q, files[q])
  {
  }

  lemma EntitledBelongs(w: World, n: Name, rec: Rec)
    requires (n, rec) in w.entitled
    ensures Belongs(w, SpoolPath(n), [rec])
  {
  }

  lemma StepKeepsPartition(w: World, a: Act)
    requires Partitioned(w) && Possible(w, a)
    ensures Partitioned(Step(w, a)) && w.entitled <= Step(w, a).entitled
  {
    match a
    case Submit(rec, projectHub, delivered) => SubmitKeepsPartition(w, rec, Stamp(projectHub), delivered);
    case FlushOne(p, attempt, delivered) => FlushKeepsPartition(w, p, attempt, delivered);
    case Sweep(p, victim) => SweepKeepsPartition(w, p, victim);
    case _ => StaysPartitioned(w, Step(w, a));
  }

  lemma SweepKeepsPartition(w: World, p: Pid, victim: Pid)
    requires Partitioned(w) && Possible(w, Sweep(p, victim))
    ensures Partitioned(Step(w, Sweep(p, victim)))
  {
    var c := (SpoolPath(w.procs[p].name), victim);
    if c in w.claims { AppendedBelongs(w, c.0, w.claims[c]); }
    StaysPartitioned(w, Step(w, Sweep(p, victim)));
  }

  lemma EntitleKeepsPartition(w: World, e: (Name, Rec))
    requires Partitioned(w)
    ensures Partitioned(w.(entitled := w.entitled + {e}))
  {
    StaysPartitioned(w, w.(entitled := w.entitled + {e}));
  }

  lemma SubmitKeepsPartition(w: World, rec: Rec, bound: Name, delivered: bool)
    requires Partitioned(w)
    ensures var e := (Target(w.config, bound), rec);
            Partitioned(PushHub(w.(entitled := w.entitled + {e}), rec, bound, delivered))
  {
    var e := (Target(w.config, bound), rec);
    var w1 := w.(entitled := w.entitled + {e});
    EntitleKeepsPartition(w, e);
    var (name, hub) := Resolve(w.config, bound);
    if name != "" {
      assert (name, rec) == e;
      EntitledBelongs(w1, name, rec);
      AppendedBelongs(w1, SpoolPath(name), [rec]);
    }
    StaysPartitioned(w1, PushHub(w1, rec, bound, delivered));
  }

  lemma FlushKeepsPartition(w: World, p: Pid, attempt: bool, delivered: bool)
    requires Partitioned(w) && Possible(w, FlushOne(p, attempt, delivered))
    ensures Partitioned(Step(w, FlushOne(p, attempt, delivered)))
  {
    var (n, d) := (w.procs[p].name, w.procs[p].at);
    var rec := d.data[d.next];
    BelongsToHub(w, n, Held(w.procs[p]));
    EntitledBelongs(w, n, rec);
    AppendedBelongs(w, SpoolPath(n), [rec]);
    StaysPartitioned(w, Step(w, FlushOne(p, attempt, delivered)));
  }

  lemma {:induction false} RunKeepsPartition(w: World, acts: seq<Act>, w': World)
    requires Partitioned(w) && Reaches(w, acts, w')
    ensures Partitioned(w') && w.entitled <= w'.entitled
    decreases |acts|
  {
    if acts != [] {
      StepKeepsPartition(w, acts[0]);
      RunKeepsPartition(Step(w, acts[0]), acts[1..], w');
    }
  }

  /** Hub partition: over every run, a record is POSTed to the hub named n only
      if it was submitted for delivery bound to n, or unbound while n was the
      default; and what waits in n's spool is only such records. */
  lemma HubsStayPartitioned(w0: World, acts: seq<Act>, w: World)
    requires Initial(w0) && Reaches(w0, acts, w)
    ensures forall n, rec :: (n, rec) in w.posted ==> (n, rec) in w.entitled
    ensures forall n, rec :: SpoolPath(n) in w.files && rec in w.files[SpoolPath(n)] ==> (n, rec) in w.entitled
  {
    RunKeepsPartition(w0, acts, w);
    forall n, rec | SpoolPath(n) in w.files && rec in w.files[SpoolPath(n)] ensures (n, rec) in w.entitled {
      BelongsToHub(w, n, w.files[SpoolPath(n)]);
    }
  }

  /** No configuration of the run names the hub. */
  ghost predicate NeverConfigured(n: Name, w: World, acts: seq<Act>) {
    n !in w.config.hubs && forall a :: a in acts && a.Configure? ==> n !in LoadHubs(a.file).hubs
  }

  /** No process flushes the hub's spool, and nothing was POSTed to it. */
  ghost predicate Untouched(n: Name, w: World) {
    (forall rec :: (n, rec) !in w.posted) && forall p :: p in w.procs ==> w.procs[p].name != n
  }

  lemma UnconfiguredStep(n: Name, w: World, a: Act)
    requires n != "" && n !in w.config.hubs && Untouched(n, w) && Possible(w, a)
    ensures Untouched(n, Step(w, a))
  {
    if a.FlushOne? { assert w.procs[a.p].name != n; }
  }

  lemma {:induction false} UnconfiguredIsNeverPosted(n: Name, w: World, acts: seq<Act>, w': World)
    requires NeverConfigured(n, w, acts) && Reaches(w, acts, w') && n != "" && Untouched(n, w)
    ensures Untouched(n, w')
    decreases |acts|
  {
    if acts != [] {
      UnconfiguredStep(n, w, acts[0]);
      StaysUnconfigured(n, w, acts);
      UnconfiguredIsNeverPosted(n, Step(w, acts[0]), acts[1..], w');
    }
  }

  lemma StaysUnconfigured(n: Name, w: World, acts: seq<Act>)
    requires NeverConfigured(n, w, acts) && acts != [] && Possible(w, acts[0])
    ensures NeverConfigured(n, Step(w, acts[0]), acts[1..])
  {
    assert acts[0] in acts;
    assert forall b :: b in acts[1..] ==> b in acts;
    OnlyConfigureConfigures(w, acts[0]);
  }

  lemma OnlyConfigureConfigures(w: World, a: Act)
    requires Possible(w, a)
    ensures Step(w, a).config == if a.Configure? then LoadHubs(a.file) else w.config
  {
  }

  /** A record whose project names an unconfigured hub, or whose hub name is
      invalid, is POSTed to no hub at all: not to the default either. */
  lemma UnconfiguredNeverLeaks(w0: World, acts: seq<Act>, w: World, n: Name, rec: Rec)
    requires Initial(w0) && Reaches(w0, acts, w) && NeverConfigured(n, w0, acts) && n != ""
    requires forall m :: (m, rec) in w.entitled ==> m == n
    ensures forall m :: (m, rec) !in w.posted
    ensures forall m :: SpoolPath(m) in w.files && rec in w.files[SpoolPath(m)] ==> m == n
  {
    HubsStayPartitioned(w0, acts, w);
    UnconfiguredIsNeverPosted(n, w0, acts, w);
  }

  /** What submitting entitles: the hub the project names, quarantine for an
      invalid name, and the default only for a project that names none. */
  lemma SubmitEntitlesOnlyTarget(w: World, rec: Rec, projectHub: Option<Name>, delivered: bool)
    ensures var w' := Step(w, Submit(rec, projectHub, delivered));
            var target := match projectHub
                          case None => QUARANTINE
                          case Some(n) => if n != "" then n else w.config.def;
            && w'.entitled == w.entitled + {(target, rec)}
            && (w'.posted == w.posted || w'.posted == w.posted + {(target, rec)})
    ensures Step(w, SubmitLocal(rec)) == w
  {
  }

  /** Where one submission goes: to the hub its project names, or the default when
      it names none and there is one; into that hub's spool when it is not
      configured or does not answer; and nowhere without hubs or a token. */
  lemma SubmitGoesExactly(w: World, rec: Rec, projectHub: Option<Name>, delivered: bool)
    ensures var bound := match projectHub case None => "invalid-hub-binding" case Some(n) => n;
            Goes(w, Step(w, Submit(rec, projectHub, delivered)), rec, bound, delivered)
  {
    var bound := Stamp(projectHub);
    PushGoes(w.(entitled := w.entitled + {(Target(w.config, bound), rec)}), rec, bound, delivered);
  }

  predicate Goes(w: World, w': World, rec: Rec, bound: Name, delivered: bool) {
    var c, name := w.config, if bound == "" then w.config.def else bound;
    var named := c.hubs != map[] && (bound != "" || (c.def != "" && c.def in c.hubs));
    var tried := named && name in c.hubs && c.hubs[name].token != "";
    var spools := named && (name !in c.hubs || (tried && !delivered));
    && w'.posted == w.posted + (if tried then {(name, rec)} else {})
    && w'.delivered == w.delivered + (if tried && delivered then {(name, rec)} else {})
    && w'.spooled == w.spooled + (if spools then {(name, rec)} else {})
    && w'.files == (if spools then w.files[SpoolPath(name) := Waiting(w.files, SpoolPath(name)) + [rec]] else w.files)
    && w'.claims == w.claims && w'.procs == w.procs && w'.config == c
  }

  lemma PushGoes(w: World, rec: Rec, bound: Name, delivered: bool)
    ensures Goes(w, PushHub(w, rec, bound, delivered), rec, bound, delivered)
  {
  }

  /** What a hub file configures: its named hubs that have a URL, and the flat entry
      as the hub "default" unless that name is taken; and the default: the one the
      file names, "default" for a flat file that names none, else a lone hub, when
      configured. */
  lemma ConfigExactly(f: File)
    ensures var (c, flat) := (LoadHubs(Some(f)), f.flat.url != "" && "default" !in f.hubs);
            && (forall n :: n in c.hubs <==> (n in f.hubs && f.hubs[n].url != "") || (flat && n == "default"))
            && (forall n :: n in c.hubs ==> c.hubs[n] == if n in f.hubs then f.hubs[n] else f.flat)
            && var wanted := if f.def == "" && f.flat.url != "" then "default" else f.def;
               && (wanted in c.hubs ==> c.def == wanted)
               && (wanted !in c.hubs ==> c.def == "" || c.hubs.Keys == {c.def})
    ensures LoadHubs(None).hubs == map[] && LoadHubs(None).def == ""
  {
    var c := LoadHubs(Some(f));
    if n :| c.hubs.Keys == {n} { assert n in c.hubs.Keys; }
  }

  /** Which submissions a hub's spool is answerable for: a record is delivered or
      spooled at once, except without a hub to name or without its checkpoint
      token. */
  lemma SubmitIsKeptExactly(w: World, rec: Rec, projectHub: Option<Name>, delivered: bool)
    requires forall n :: (n, rec) !in w.spooled && (n, rec) !in w.delivered
    ensures var w' := Step(w, Submit(rec, projectHub, delivered));
            var (name, hub) := Resolve(w.config, Stamp(projectHub));
            (exists n :: (n, rec) in w'.spooled || (n, rec) in w'.delivered) <==>
              name != "" && (hub.Some? ==> hub.value.token != "")
  {
    var w' := Step(w, Submit(rec, projectHub, delivered));
    var (name, hub) := Resolve(w.config, Stamp(projectHub));
    if name != "" && (hub.Some? ==> hub.value.token != "") {
      assert (name, rec) in w'.spooled || (name, rec) in w'.delivered;
    } else {
      assert w'.spooled == w.spooled && w'.delivered == w.delivered;
    }
  }
}
