/** `aimem enroll redeem` (cmd/aimem/enroll_redeem.go) as a protocol: any
    number of runs of the command on one installation, the hub's ledger, and a
    network that may lose, delay or repeat requests and lose answers. A run may
    stop between any two of its steps. */
module EnrollClient {
  import opened Options
  import opened EnrollmentLedger
  import Runs = EnrollmentRuns

  datatype Phase = Sending | Delivered

  /** The pending file: the keys a retry must repeat and, once the delivery is
      open, the identity it carried. */
  datatype Pending = Pending(phase: Phase, key: Key, user: UserId, token: TokenId)

  /** What the installation has on disk for this bundle: the pending file and
      the bearer in the hub entry. */
  datatype Disk = Disk(pending: Option<Pending>, entry: Option<string>)

  /** The subcode record every run is given. */
  datatype Record = Record(hub: HubId, bundle: BundleId, code: Code, expires: Time)

  datatype Outcome = Enrolled | AlreadyEnrolled

  /** Where a run of the command stands, with what it has read so far. */
  datatype Pc =
    | Started
    | Loaded(entry0: Option<string>)
    | NoPending(bearer: string)
    | Creating
    | Created(key: Key)
    | Verifying(pending: Pending, bearer: string)
    | Talking(key: Key)
    | Waiting(key: Key)
    | Contested(key: Key)
    | Opened(key: Key, plain: Plain)
    | Recorded(key: Key, plain: Plain)
    | Stored(plain: Plain)
    | Removing(outcome: Outcome, user: UserId, token: TokenId)
    | Finished(outcome: Outcome, user: UserId, token: TokenId)
    | Stopped

  datatype Run = Run(installation: string, pc: Pc)

  type RunId = nat

  /** since is when the first run starts, and no clock reads earlier; stale is
      the bearer the hub entry held then, if any. */
  datatype World = World(
    rec: Record, since: Time, stale: Option<string>, hub: Ledger, disk: Disk,
    runs: map<RunId, Run>, keys: set<Key>, sent: set<Request>, answers: set<(Request, Answer)>)

  /** What a run learns about a bearer: an individual user-scoped credential, a
      refusal, or nothing it can rely on. */
  datatype Reply = Accepted(of: TokenId) | Refused | Unavailable

  ghost predicate Truthful(s: Ledger, now: Time, bearer: string, reply: Reply) {
    match reply
    case Accepted(t) => TokenActive(s, now, t) && s.tokens[t].bearer == bearer && s.tokens[t].userScoped
    case Refused => forall t :: TokenActive(s, now, t) ==> s.tokens[t].bearer != bearer
    case Unavailable => true
  }

  datatype Act =
    | Begin(r: RunId, installation: string)
    | LoadHubs(r: RunId)
    | LoadPending(r: RunId, now: Time)
    | CheckEntry(r: RunId, now: Time, reply: Reply)
    | CreatePending(r: RunId, key: Key)
    | Recheck(r: RunId, now: Time, reply: Reply)
    | Verify(r: RunId, now: Time, reply: Reply)
    | Send(r: RunId)
    | Retry(r: RunId)
    | HubHandles(req: Request, now: Time, m: Minted)
    | Receive(r: RunId, answer: Answer)
    | RecordDelivery(r: RunId)
    | StoreCredential(r: RunId)
    | FinalCheck(r: RunId, now: Time, reply: Reply)
    | RemovePending(r: RunId)
    | GiveUp(r: RunId)
    | HubOp(op: Runs.Op)

  function RequestOf(w: World, installation: string, key: Key): Request {
    Request(w.rec.hub, w.rec.code, installation, key)
  }

  predicate At(w: World, r: RunId) { r in w.runs }

  /** Drawn secrets are unique, and only this installation has the code. */
  predicate FreshOp(w: World, op: Runs.Op) {
    && Runs.Fresh(w.hub, op)
    && (op.DoRedeem? ==> op.req.code != w.rec.code && Some(op.m.bearer) != w.stale)
    && (op.AddToken? ==> Some(op.token.bearer) != w.stale)
  }

  ghost predicate Possible(w: World, a: Act) {
    match a
    case Begin(r, _) => r !in w.runs
    case LoadHubs(r) => At(w, r) && w.runs[r].pc.Started?
    case LoadPending(r, now) => At(w, r) && w.runs[r].pc.Loaded? && w.since <= now
    case CheckEntry(r, now, reply) =>
      At(w, r) && w.runs[r].pc.NoPending? && w.since <= now && Truthful(w.hub, now, w.runs[r].pc.bearer, reply)
    case CreatePending(r, key) => At(w, r) && w.runs[r].pc.Creating? && key !in w.keys
    case Recheck(r, now, reply) =>
      && At(w, r) && (w.runs[r].pc.Created? || w.runs[r].pc.Contested?) && w.since <= now
      && (w.disk.entry.Some? ==> Truthful(w.hub, now, w.disk.entry.value, reply))
    case Verify(r, now, reply) =>
      At(w, r) && w.runs[r].pc.Verifying? && w.since <= now && Truthful(w.hub, now, w.runs[r].pc.bearer, reply)
    case Send(r) => At(w, r) && w.runs[r].pc.Talking?
    case Retry(r) => At(w, r) && w.runs[r].pc.Waiting?
    case HubHandles(req, now, m) =>
      && req in w.sent && w.since <= now && Runs.Fresh(w.hub, Runs.DoRedeem(now, req, true, m)) && Some(m.bearer) != w.stale
    case Receive(r, answer) =>
      At(w, r) && w.runs[r].pc.Waiting? && (RequestOf(w, w.runs[r].installation, w.runs[r].pc.key), answer) in w.answers
    case RecordDelivery(r) => At(w, r) && w.runs[r].pc.Opened?
    case StoreCredential(r) => At(w, r) && w.runs[r].pc.Recorded?
    case FinalCheck(r, now, reply) =>
      At(w, r) && w.runs[r].pc.Stored? && w.since <= now && Truthful(w.hub, now, w.runs[r].pc.plain.bearer, reply)
    case RemovePending(r) => At(w, r) && w.runs[r].pc.Removing?
    case GiveUp(r) => At(w, r)
    case HubOp(op) => FreshOp(w, op)
  }

  function Goto(w: World, r: RunId, pc: Pc): World
    requires At(w, r)
  {
    w.(runs := w.runs[r := w.runs[r].(pc := pc)])
  }

  /** Leave with the identity the hub reports for an accepted bearer. */
  function Accept(w: World, r: RunId, outcome: Outcome, t: TokenId): Pc {
    Removing(outcome, if t in w.hub.tokens then w.hub.tokens[t].user else "", t)
  }

  /** The first look at the disk: which way a run goes. */
  function AfterLoad(w: World, now: Time, entry0: Option<string>): Pc {
    match w.disk.pending
    case None =>
      if now >= w.rec.expires then Stopped
      else if entry0.Some? then NoPending(entry0.value)
      else Creating
    case Some(p) =>
      if p.phase == Delivered && entry0.Some? then Verifying(p, entry0.value) else Talking(p.key)
  }

  /** A received answer: open the delivery and compare every name in it. */
  function AfterAnswer(w: World, key: Key, a: Answer): Pc {
    match a
    case Success(bundle, _, user, token, delivery, _) =>
      (match Open(key, Aad(w.rec.hub, bundle, key, user, token), delivery)
       case None => Stopped
       case Some(p) =>
         if p.user == user && p.token == token && p.hub == w.rec.hub && bundle == w.rec.bundle then Opened(key, p) else Stopped)
    case Conflict => Contested(key)
    case _ => Stopped
  }

  function Step(w: World, a: Act): World
    requires Possible(w, a)
  {
    match a
    case Begin(r, installation) => w.(runs := w.runs[r := Run(installation, Started)])
    case LoadHubs(r) => Goto(w, r, Loaded(w.disk.entry))
    case LoadPending(r, now) => Goto(w, r, AfterLoad(w, now, w.runs[r].pc.entry0))
    case CheckEntry(r, now, reply) =>
      Goto(w, r, match reply
                 case Accepted(t) => Accept(w, r, AlreadyEnrolled, t)
                 case Refused => Creating
                 case Unavailable => Stopped)
    case CreatePending(r, key) =>
      (match w.disk.pending
       case Some(p) => Goto(w, r, Created(p.key))
       case None =>
         Goto(w, r, Created(key)).(keys := w.keys + {key}, disk := w.disk.(pending := Some(Pending(Sending, key, "", "")))))
    case Recheck(r, now, reply) =>
      Goto(w, r, if w.disk.entry.Some? && reply.Accepted? then Accept(w, r, AlreadyEnrolled, reply.of)
                 else if w.runs[r].pc.Created? then Talking(w.runs[r].pc.key)
                 else Stopped)
    case Verify(r, now, reply) =>
      Goto(w, r, match reply
                 case Accepted(t) =>
                   var pc := Accept(w, r, AlreadyEnrolled, t);
                   if pc.user == w.runs[r].pc.pending.user && pc.token == w.runs[r].pc.pending.token then pc else Stopped
                 case _ => Stopped)
    case Send(r) =>
      Goto(w, r, Waiting(w.runs[r].pc.key)).(sent := w.sent + {RequestOf(w, w.runs[r].installation, w.runs[r].pc.key)})
    case Retry(r) => Goto(w, r, Talking(w.runs[r].pc.key))
    case HubHandles(req, now, m) =>
      var (hub, answer) := Redeem(w.hub, now, req, true, m);
      w.(hub := hub, answers := w.answers + {(req, answer)})
    case Receive(r, answer) => Goto(w, r, AfterAnswer(w, w.runs[r].pc.key, answer))
    case RecordDelivery(r) =>
      var pc := w.runs[r].pc;
      Goto(w, r, Recorded(pc.key, pc.plain)).(disk := w.disk.(pending := Some(Pending(Delivered, pc.key, pc.plain.user, pc.plain.token))))
    case StoreCredential(r) =>
      var plain := w.runs[r].pc.plain;
      Goto(w, r, Stored(plain)).(disk := w.disk.(entry := Some(plain.bearer)))
    case FinalCheck(r, now, reply) =>
      var plain := w.runs[r].pc.plain;
      Goto(w, r, match reply
                 case Accepted(t) =>
                   var pc := Accept(w, r, Enrolled, t);
                   if pc.user == plain.user && pc.token == plain.token then pc else Stopped
                 case _ => Stopped)
    case RemovePending(r) =>
      var pc := w.runs[r].pc;
      Goto(w, r, Finished(pc.outcome, pc.user, pc.token)).(disk := w.disk.(pending := None))
    case GiveUp(r) => Goto(w, r, Stopped)
    case HubOp(op) => w.(hub := Runs.Tables(w.hub, op))
  }

  ghost predicate Reaches(w: World, acts: seq<Act>, w': World)
    decreases |acts|
  {
    if acts == [] then w == w' else Possible(w, acts[0]) && Reaches(Step(w, acts[0]), acts[1..], w')
  }

  lemma {:induction false} Extends(w: World, acts: seq<Act>, w1: World, a: Act)
    requires Reaches(w, acts, w1) && Possible(w1, a)
    ensures Reaches(w, acts + [a], Step(w1, a))
    decreases |acts|
  {
    var more := acts + [a];
    if acts == [] {
      assert more[1..] == [];
    } else {
      assert more[1..] == acts[1..] + [a];
      Extends(Step(w, acts[0]), acts[1..], w1, a);
    }
  }

  /** The hub accepts the bearer at no time from now on: it never knew it, has
      revoked it, has let it expire, or gave it for something else. */
  ghost predicate Dead(s: Ledger, now: Time, bearer: string) {
    forall t :: t in s.tokens && s.tokens[t].bearer == bearer ==>
      s.tokens[t].revoked || s.tokens[t].expires * SECOND <= now || !s.tokens[t].userScoped
  }

  /** The token table's digest column is unique. */
  ghost predicate OneTokenPerBearer(s: Ledger) {
    forall t, u :: t in s.tokens && u in s.tokens && s.tokens[t].bearer == s.tokens[u].bearer ==> t == u
  }

  /** A code not yet redeemed, and an installation that never used it, whatever
      its hub entry holds. */
  ghost predicate Start(w: World) {
    && Runs.Sound(w.hub) && OneTokenPerBearer(w.hub)
    && (forall t :: t in w.hub.tokens ==> w.hub.tokens[t].user in w.hub.users)
    && w.rec.hub == w.hub.hub && w.rec.code in w.hub.codes && w.hub.codes[w.rec.code] == w.rec.bundle
    && w.hub.bundles[w.rec.bundle].redemption.None?
    && w.disk == Disk(None, w.stale)
    && w.runs == map[] && w.keys == {} && w.sent == {} && w.answers == {}
  }

  /** No credential in the entry, or one the hub will not accept again. */
  ghost predicate NothingToKeep(w: World) { w.stale.Some? ==> Dead(w.hub, w.since, w.stale.value) }

  ghost predicate Initial(w: World) { Start(w) && NothingToKeep(w) }
}
